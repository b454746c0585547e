/**
 A run in which a publisher that delivers its samples without a gap, but some 40 ms late, loses one.
 Time is in samples and milliseconds at once: one channel at 1000 samples a second.
 */
module LateFrames {
  import opened Frames
  import opened MixerState
  import opened MixerRuns
  import opened Options

  function Call(user: string, data: seq<Int16>, ms: nat, now: int): PushCall {
    PushCall(user, AudioFrame(true, 1000, 1, data, ms), None, now)
  }

  lemma ChunkSingles(a: Int16, b: Int16, c: Int16)
    ensures Chunk([a], 1) == [[a]] && Chunk([a, b, c], 1) == [[a], [b], [c]]
  {
    ChunkFront([c], [], 1);
    ChunkFront([b], [c], 1);
    ChunkFront([a], [b, c], 1);
    ChunkFront([a], [], 1);
    assert [a] + [] == [a] && [c] + [] == [c] && [b] + [c] == [b, c] && [a] + [b, c] == [a, b, c];
  }

  lemma {:induction false} ReachesOneMore(s: System, actions: seq<Action>, t: System, a: Action)
    requires Reaches(s, actions, t) && MixerOk(t.m) && PhaseOk(t) && Enabled(t, a)
    ensures Reaches(s, actions + [a], Step(t, a))
    decreases |actions|
  {
    hide Step, Enabled, MixerOk, PhaseOk;
    if actions == [] {
      assert ([] + [a])[1..] == [];
      assert Reaches(Step(t, a), [], Step(t, a));
    } else {
      ReachesOneMore(Step(s, actions[0]), actions[1..], t, a);
      assert (actions + [a])[1..] == actions[1..] + [a];
    }
  }

  lemma ReachableStep(s: System, a: Action)
    requires Reachable(s, 1000, 1) && Enabled(s, a)
    ensures Inv(s) && Reachable(Step(s, a), 1000, 1)
  {
    ReachableInv(s, 1000, 1);
    hide Step, Enabled, Reaches;
    var actions :| Reaches(Initial(1000, 1), actions, s);
    ReachesOneMore(Initial(1000, 1), actions, s, a);
  }

  lemma SameUnit(ms: nat)
    ensures Rescale(ms, 1000, 1000) == ms
  {
  }

  /** A push that starts a queue, and one that goes on with it. */
  lemma PushedTo(m: Mixer, user: string, data: seq<Int16>, frames: seq<Frame>, ms: nat, now: int)
    requires MixerOk(m) && m.rate == 1000 && m.channels == 1 && data != [] && Chunk(data, 1) == frames && |frames| <= 3
    requires user !in m.queues || (m.queues[user].frames == [] && 0 <= m.queues[user].first == ms)
    ensures PushResult(m, Call(user, data, ms, now)).m
            == Mixer(1000, 1, if m.next < 0 then ms else m.next, if m.next < 0 then now else m.start,
                     m.queues[user := Queue(ms, frames, now)])
  {
    SameUnit(ms);
    var c := Call(user, data, ms, now);
    var q := QueueOf(m, user);
    assert CallOk(c, 1) && Accepts(c.frame);
    assert Converted(m, c) == Some(frames);
    hide Rescale, Converted, Chunk, MixerOk;
    assert [] + frames == frames;
    assert Appended(q, ms, frames, now, 1000) == Queue(ms, frames, now);
    assert Trimmed(Queue(ms, frames, now), 1000) == Queue(ms, frames, now);
  }

  lemma PushTo(s: System, user: string, data: seq<Int16>, frames: seq<Frame>, ms: nat, now: int) returns (t: System)
    requires Reachable(s, 1000, 1) && !s.phase.Holding? && s.m.rate == 1000 && s.m.channels == 1
    requires data != [] && Chunk(data, 1) == frames && |frames| <= 3
    requires user !in s.m.queues || (s.m.queues[user].frames == [] && 0 <= s.m.queues[user].first == ms)
    ensures Reachable(t, 1000, 1) && t.phase == s.phase
    ensures t.m == Mixer(1000, 1, if s.m.next < 0 then ms else s.m.next, if s.m.next < 0 then now else s.m.start,
                         s.m.queues[user := Queue(ms, frames, now)])
  {
    var a := Push(Call(user, data, ms, now));
    ReachableStep(s, a);
    PushedTo(s.m, user, data, frames, ms, now);
    hide Reachable, PushResult, PushTrack, Converted;
    t := Step(s, a);
  }

  const A := Queue(0, [[1], [1], [1]], 0)
  const B := Queue(0, [[1]], 0)
  const BOTH := Mixer(1000, 1, 0, 0, map["a" := A, "b" := B])

  /** Two publishers start together; one sends three samples, the other one. */
  lemma BothStarted() returns (s: System)
    ensures Reachable(s, 1000, 1) && s.phase.Idle?
    ensures s.m == BOTH
  {
    ChunkSingles(1, 1, 1);
    s := Initial(1000, 1);
    assert Reaches(s, [], s);
    hide Reachable, Chunk;
    s := PushTo(s, "a", [1, 1, 1], [[1], [1], [1]], 0, 0);
    s := PushTo(s, "b", [1], [[1]], 0, 0);
  }

  lemma Speakers(u: string)
    ensures Speaks(BOTH, u) <==> u == "a" || u == "b"
    ensures BOTH.queues["a"] == A && BOTH.queues["b"] == B && End(A) == 3 && End(B) == 1
  {
    assert "a" in BOTH.queues && "b" in BOTH.queues && "a" != "b";
  }

  lemma LatestOfBoth()
    ensures Latest(BOTH) == 3
  {
    hide Silent, IsEarliest;
    Speakers("a");
    var e := Latest(BOTH);
    assert BOTH.next == 0;
    if e != BOTH.next {
      var u :| Speaks(BOTH, u) && End(BOTH.queues[u]) == e;
      Speakers(u);
    }
  }

  lemma EarliestOfBoth()
    ensures Earliest(BOTH) == 0
  {
    hide IsLatest, Latest;
    Speakers("a");
    var u :| Speaks(BOTH, u) && BOTH.queues[u].first == Earliest(BOTH);
    Speakers(u);
  }

  lemma NothingLate()
    ensures AllFrom(BOTH, 0) == BOTH
  {
    assert From(A, 0) == A && From(B, 0) == B;
  }

  lemma NobodyAwaited()
    ensures !SomeoneAwaited(BOTH, 2, 40)
  {
    assert !Awaited(A, 2, 40) && !Awaited(B, 2, 40);
  }

  lemma Extents(m: Mixer)
    requires m == BOTH
    ensures Latest(m) == 3 && Earliest(m) == 0 && AllFrom(m, 0) == m
    ensures !SomeoneAwaited(m, 2, 40)
  {
    hide *;
    LatestOfBoth();
    EarliestOfBoth();
    NothingLate();
    NobodyAwaited();
  }

  lemma FirstRound(m: Mixer, d: DrainParams)
    requires m == BOTH
    requires MixerOk(m) && d == DrainParams(2, false, 40, 3)
    ensures Latest(m) == 3
    ensures DrainRound(m, d).Emit? && DrainRound(m, d).m.next == 2
    ensures "b" in DrainRound(m, d).m.queues && DrainRound(m, d).m.queues["b"] == Queue(1, [], 0)
  {
    hide MixerOk, Latest, Earliest, AllFrom, WindowAt, DrainRound, SomeoneAwaited;
    Extents(m);
    RoundCases(m, d);
    JumpOk(m);
    assert Jump(m) == m;
    QueueFrom(m, 2, "b");
    assert QueueOf(m, "b") == B;
    assert From(B, 2) == Queue(1, [], 0);
    StillThere(m, 2, "b");
  }

  lemma StillThere(m: Mixer, t: int, u: string)
    requires u in m.queues
    ensures u in AllFrom(m, t).queues
  {
  }

  lemma TurnEmits(s: System)
    requires MixerOk(s.m) && PhaseOk(s) && s.phase.Holding? && s.m.next < s.phase.d.end
    requires DrainRound(s.m, s.phase.d).Emit?
    ensures TurnStep(s).phase == Consuming(s.phase.d) && TurnStep(s).m == DrainRound(s.m, s.phase.d).m
  {
    hide DrainRound, LateTracks, MixTracks, AllFrom, MixerOk;
  }

  lemma BeginDrain(s: System) returns (t: System)
    requires Reachable(s, 1000, 1) && s.phase.Idle? && s.m == BOTH
    ensures Reachable(t, 1000, 1) && t.m == BOTH && t.phase == Holding(DrainParams(2, false, 40, 3))
  {
    hide *;
    var begin := Begin(2, false, 40);
    CanBegin(s, 2, 40);
    ReachableStep(s, begin);
    InvOk(s);
    Extents(s.m);
    BothStart();
    Begins(s, 2, 40);
    t := Step(s, begin);
  }

  lemma BothStart()
    ensures Starts(BOTH, 2, false, 40)
  {
    assert "a" in BOTH.queues;
  }

  lemma CanBegin(s: System, count: int, now: int)
    requires s.phase.Idle?
    ensures Enabled(s, Begin(count, false, now))
  {
  }

  lemma Begins(s: System, count: int, now: int)
    requires MixerOk(s.m) && PhaseOk(s) && s.phase.Idle? && Starts(s.m, count, false, now)
    requires Enabled(s, Begin(count, false, now))
    ensures var t := Step(s, Begin(count, false, now));
      t.m == s.m && t.phase == Holding(DrainParams(count, false, now, Latest(s.m)))
  {
    hide Latest, MixerOk, Starts;
  }

  lemma EmitFirst(s: System) returns (t: System)
    requires Reachable(s, 1000, 1) && s.m == BOTH && s.phase == Holding(DrainParams(2, false, 40, 3))
    ensures Reachable(t, 1000, 1) && t.phase == Consuming(s.phase.d) && t.m.next == 2
    ensures "b" in t.m.queues && t.m.queues["b"] == Queue(1, [], 0)
  {
    ReachableStep(s, Turn);
    hide Inv, Reachable, DrainRound, TurnStep, MixerOk;
    InvOk(s);
    FirstRound(s.m, s.phase.d);
    TurnEmits(s);
    t := Step(s, Turn);
  }

  /** A window of two samples goes out 40 ms later without the second publisher, which is overtaken. */
  lemma Overtaken() returns (s: System)
    ensures Reachable(s, 1000, 1) && s.phase.Consuming? && s.phase.d.end == 3
    ensures s.m.next == 2 && "b" in s.m.queues && s.m.queues["b"] == Queue(1, [], 0)
  {
    hide *;
    s := BothStarted();
    s := BeginDrain(s);
    s := EmitFirst(s);
  }

  lemma InvOk(s: System)
    requires Inv(s)
    ensures MixerOk(s.m) && PhaseOk(s) && s.m.rate >= 1 && s.m.channels >= 1
  {
  }

  lemma Answered(s: System)
    requires Inv(s) && s.phase.Consuming?
    ensures Step(s, Answer(true)) == s.(phase := Holding(s.phase.d))
  {
  }

  /** The sample it sends at 41 ms follows its first one without a gap, and is dropped as late. */
  lemma LateFrameLost() returns (s: System, i: nat)
    ensures Reachable(s, 1000, 1) && "b" in s.tracks && i < |s.tracks["b"].fates| <= |s.tracks["b"].log|
    ensures s.tracks["b"].fates[i] == Late && s.tracks["b"].log[i] == Entry(1, [7])
  {
    var s0 := Overtaken();
    ReachableInv(s0, 1000, 1);
    ChunkSingles(7, 7, 7);
    hide Step, Inv, Reachable, MixerOk, TurnStep, Chunk;
    var s1 := PushTo(s0, "b", [7], [[7]], 1, 41);
    ReachableStep(s1, Answer(true));
    InvOk(s1);
    Answered(s1);
    var s2 := Step(s1, Answer(true));
    ReachableStep(s2, Turn);
    InvOk(s2);
    s := Step(s2, Turn);
    i := |TrackOf(s2.tracks, "b").fates|;
    BehindIsLate(s2, "b", 0);
    ReachableInv(s, 1000, 1);
    TurnIs(s2);
  }

  lemma TurnIs(s: System)
    requires Inv(s) && s.phase.Holding?
    ensures Step(s, Turn) == TurnStep(s)
  {
    hide TurnStep;
  }
}
