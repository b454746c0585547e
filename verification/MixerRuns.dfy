/**
 Whole runs of the mixer: any interleaving of pushes with the turns of a running drain.

 A run keeps, for every publisher, the log of all frames ever appended with the timeline index
 each was given, and the fate of the frames that have left the queue. Queues are first-in
 first-out, so fates are recorded in log order and the i-th fate belongs to the i-th frame.
 */
module MixerRuns {
  import opened Sums
  import opened Frames
  import opened Limiter
  import opened MixerState
  import opened Options

  /** How a frame left its queue. */
  datatype Fate =
    | Mixed(window: nat)  // summed into that emitted window
    | Reanchored          // discarded when the publisher restarted after a gap
    | TrimmedOff          // discarded to keep the queue within half a second
    | Late                // discarded because the cursor had passed it

  datatype Track = Track(log: seq<Entry>, fates: seq<Fate>)

  /** Idle: no drain is running. Holding: a drain holds the lock. Consuming: it has released it. */
  datatype Phase = Idle | Holding(d: DrainParams) | Consuming(d: DrainParams)

  datatype System = System(m: Mixer, phase: Phase, out: seq<Window>, tracks: map<string, Track>)

  datatype Action = Push(call: PushCall) | Begin(count: int, flush: bool, now: int) | Turn | Answer(accepted: bool)

  // ----- tracks -----

  const NO_TRACK := Track([], [])

  function TrackOf(tracks: map<string, Track>, u: string): Track {
    if u in tracks then tracks[u] else NO_TRACK
  }

  function Repeat(f: Fate, n: nat): (r: seq<Fate>)
    ensures |r| == n && forall i :: 0 <= i < n ==> r[i] == f
  {
    seq(n, _ => f)
  }

  /** The next n frames of the log meet the same fate. */
  function Fated(t: Track, f: Fate, n: nat): Track {
    Track(t.log, t.fates + Repeat(f, n))
  }

  function PushTrack(t: Track, q: Queue, ts: int, frames: seq<Frame>, now: int, rate: int): Track {
    var lost := if Reanchors(q, ts, rate) then Fated(t, Reanchored, |q.frames|) else t;
    var longer := Track(lost.log + Run(End(Anchored(q, ts, rate)), frames), lost.fates);
    Fated(longer, TrimmedOff, Excess(Appended(q, ts, frames, now, rate), rate))
  }

  function LateTrack(t: Track, q: Queue, next: int): Track {
    Fated(t, Late, FramesBefore(q, next))
  }

  function MixTrack(t: Track, q: Queue, end: int, window: nat): Track {
    Fated(t, Mixed(window), FramesBefore(q, end))
  }

  // ----- steps -----

  predicate Appends(m: Mixer, c: PushCall)
    requires m.channels >= 1
  {
    Accepts(c.frame) && Converted(m, c).Some?
  }

  predicate Enabled(s: System, a: Action) {
    match a
    case Push(c) => !s.phase.Holding? && s.m.channels >= 1 && CallOk(c, s.m.channels)
    case Begin(_, _, _) => s.phase.Idle?
    case Turn => s.phase.Holding?
    case Answer(_) => s.phase.Consuming?
  }

  ghost predicate Starts(m: Mixer, count: int, flush: bool, now: int) {
    m.next >= 0 && m.queues != map[] && (flush || now - m.start >= WAIT_MS) && count > 0
  }

  function LateTracks(m: Mixer, tracks: map<string, Track>): (r: map<string, Track>)
    ensures r.Keys == tracks.Keys
  {
    map u | u in tracks :: LateTrack(tracks[u], QueueOf(m, u), m.next)
  }

  function MixTracks(late: Mixer, tracks: map<string, Track>, end: int, window: nat): (r: map<string, Track>)
    ensures r.Keys == tracks.Keys
  {
    map u | u in tracks :: MixTrack(tracks[u], QueueOf(late, u), end, window)
  }

  ghost function PushStep(s: System, c: PushCall): System
    requires MixerOk(s.m) && CallOk(c, s.m.channels)
  {
    s.(m := PushResult(s.m, c).m,
       tracks := if !Appends(s.m, c) then s.tracks
                 else s.tracks[c.user := PushTrack(TrackOf(s.tracks, c.user), QueueOf(s.m, c.user),
                                                   Rescale(c.frame.timestampMs, s.m.rate, 1000),
                                                   Converted(s.m, c).value, c.now, s.m.rate)])
  }

  ghost function TurnStep(s: System): System
    requires MixerOk(s.m) && s.m.next >= 0 && s.phase.Holding? && s.phase.d.count > 0
  {
    var d := s.phase.d;
    if s.m.next >= d.end then s.(m := Sweep(s.m, d.now), phase := Idle)
    else
      var late := LateTracks(s.m, s.tracks);
      match DrainRound(s.m, d)
      case Finish(m1, sweep) => System(if sweep then Sweep(m1, d.now) else m1, Idle, s.out, late)
      case Emit(m1, w) =>
        System(m1, Consuming(d), s.out + [w], MixTracks(AllFrom(s.m, s.m.next), late, m1.next, |s.out|))
  }

  ghost predicate PhaseOk(s: System) {
    s.phase.Idle? || (s.m.next >= 0 && s.phase.d.count > 0)
  }

  ghost function Step(s: System, a: Action): System
    requires MixerOk(s.m) && PhaseOk(s) && Enabled(s, a)
  {
    match a
    case Push(c) => PushStep(s, c)
    case Begin(count, flush, now) =>
      if Starts(s.m, count, flush, now) then s.(phase := Holding(DrainParams(count, flush, now, Latest(s.m)))) else s
    case Turn => TurnStep(s)
    case Answer(accepted) => s.(phase := if accepted then Holding(s.phase.d) else Idle)
  }

  function Initial(rate: int, channels: int): System {
    System(Mixer(rate, channels, -1, 0, map[]), Idle, [], map[])
  }

  // ----- what every step keeps -----

  /** Log, fates and queue agree: what has no fate yet is exactly what is queued, in order. */
  ghost predicate Ledger(t: Track, q: Queue) {
    |t.fates| <= |t.log| && t.log[|t.fates|..] == Entries(q)
  }

  /** A mixed frame lies inside the window it was mixed into. */
  ghost predicate MixedInside(t: Track, out: seq<Window>)
    requires |t.fates| <= |t.log|
  {
    forall i :: 0 <= i < |t.fates| && t.fates[i].Mixed? ==>
      t.fates[i].window < |out| && Inside(out[t.fates[i].window], t.log[i].index)
  }

  ghost predicate Inside(w: Window, index: int) {
    w.start <= index < w.start + w.count
  }

  /** A publisher's mixed frames sit at strictly increasing timeline indices. */
  ghost predicate MixedInOrder(t: Track)
    requires |t.fates| <= |t.log|
  {
    forall i, j :: 0 <= i < j < |t.fates| && t.fates[i].Mixed? && t.fates[j].Mixed? ==> t.log[i].index < t.log[j].index
  }

  ghost predicate TrackOk(t: Track, q: Queue, out: seq<Window>) {
    Ledger(t, q) && MixedInside(t, out) && MixedInOrder(t)
  }

  /** What the frames mixed into window k contribute at a timeline index. */
  function Contribution(t: Track, k: nat, index: int, c: nat): int
    requires |t.fates| <= |t.log|
    decreases |t.fates|
  {
    if t.fates == [] then 0
    else
      var n := |t.fates| - 1;
      Contribution(Track(t.log, t.fates[..n]), k, index, c)
      + (if t.fates[n] == Mixed(k) then EntryAt(t.log[n], index, c) else 0)
  }

  function EntryAt(e: Entry, index: int, c: nat): int {
    if e.index == index && c < |e.frame| then e.frame[c] else 0
  }

  ghost predicate TracksOk(tracks: map<string, Track>, m: Mixer, out: seq<Window>) {
    forall u :: TrackOk(TrackOf(tracks, u), QueueOf(m, u), out)
  }

  ghost predicate Bounded(tracks: map<string, Track>) {
    forall u :: u in tracks ==> |tracks[u].fates| <= |tracks[u].log|
  }

  /** The sum, over all publishers, of what was mixed into window k at a timeline index. */
  ghost function Total(tracks: map<string, Track>, k: nat, index: int, c: nat): int
    requires Bounded(tracks)
  {
    SumValues(map u | u in tracks :: Contribution(tracks[u], k, index, c))
  }

  ghost function TotalRows(tracks: map<string, Track>, k: nat, start: int, count: nat, channels: nat): seq<seq<int>>
    requires Bounded(tracks)
  {
    seq(count, i requires 0 <= i < count =>
        seq(channels, c requires 0 <= c < channels => Total(tracks, k, start + i, c)))
  }

  /** An emitted window is the limited sum of exactly the frames whose fate names it. */
  ghost predicate WindowOk(w: Window, k: nat, tracks: map<string, Track>, rate: int, channels: int)
    requires Bounded(tracks)
  {
    && rate >= 1 && channels >= 1 && w.start >= 0 && w.count > 0
    && w.pcm == LimitAll(Flatten(TotalRows(tracks, k, w.start, w.count, channels)))
    && w.timestampMs == Rescale(w.start, 1000, rate)
  }

  ghost predicate WindowsOk(out: seq<Window>, tracks: map<string, Track>, rate: int, channels: int)
    requires Bounded(tracks)
  {
    forall k :: 0 <= k < |out| ==> WindowOk(out[k], k, tracks, rate, channels)
  }

  /** next may follow a window that ended at e: at once, or after more than a second of silence. */
  predicate Follows(e: int, next: int, rate: int) {
    next == e || next > e + rate
  }

  ghost predicate Chained(out: seq<Window>, rate: int) {
    forall k :: 0 < k < |out| ==> Follows(out[k - 1].start + out[k - 1].count, out[k].start, rate)
  }

  ghost predicate Timeline(out: seq<Window>, next: int, rate: int) {
    && Chained(out, rate)
    && (out != [] ==> next >= 0 && Follows(out[|out| - 1].start + out[|out| - 1].count, next, rate))
  }

  ghost predicate Inv(s: System) {
    && MixerOk(s.m) && PhaseOk(s)
    && TracksOk(s.tracks, s.m, s.out) && Bounded(s.tracks)
    && WindowsOk(s.out, s.tracks, s.m.rate, s.m.channels)
    && Timeline(s.out, s.m.next, s.m.rate)
  }

  // ----- contributions -----

  /** Further log entries and fates that do not name window k change nothing in it. */
  lemma {:induction false} FatedElsewhere(t: Track, f: Fate, n: nat, k: nat, index: int, c: nat)
    requires |t.fates| + n <= |t.log| && f != Mixed(k)
    ensures Contribution(Fated(t, f, n), k, index, c) == Contribution(t, k, index, c)
    decreases n
  {
    if n == 0 {
      assert Fated(t, f, 0).fates == t.fates;
    } else {
      FatedElsewhere(t, f, n - 1, k, index, c);
      var more := Fated(t, f, n);
      assert more.fates[..|more.fates| - 1] == Fated(t, f, n - 1).fates;
    }
  }

  lemma {:induction false} LongerLog(t: Track, more: seq<Entry>, k: nat, index: int, c: nat)
    requires |t.fates| <= |t.log|
    ensures Contribution(Track(t.log + more, t.fates), k, index, c) == Contribution(t, k, index, c)
    decreases |t.fates|
  {
    if t.fates != [] {
      LongerLog(Track(t.log, t.fates[..|t.fates| - 1]), more, k, index, c);
    }
  }

  /** Mixing the next n frames, which lie at base, base + 1, ..., adds each at its own index. */
  lemma {:induction false} FatedMixed(t: Track, q: Queue, n: nat, k: nat, index: int, c: nat)
    requires Ledger(t, q) && n <= |q.frames|
    ensures |t.fates| + n <= |t.log|
    ensures Contribution(Fated(t, Mixed(k), n), k, index, c)
            == Contribution(t, k, index, c) + (if index - q.first < n then Held(q, index, c) else 0)
    decreases n
  {
    hide Ledger;
    LedgerLength(t, q);
    if n == 0 {
      assert Fated(t, Mixed(k), 0).fates == t.fates;
    } else {
      FatedMixed(t, q, n - 1, k, index, c);
      var more := Fated(t, Mixed(k), n);
      assert more.fates[..|more.fates| - 1] == Fated(t, Mixed(k), n - 1).fates;
      LedgerAt(t, q, n - 1);
    }
  }

  lemma LedgerLength(t: Track, q: Queue)
    requires Ledger(t, q)
    ensures |t.log| == |t.fates| + |q.frames|
  {
    assert |t.log[|t.fates|..]| == |Entries(q)|;
  }

  lemma LedgerAt(t: Track, q: Queue, i: nat)
    requires Ledger(t, q) && i < |q.frames|
    ensures |t.log| == |t.fates| + |q.frames|
    ensures t.log[|t.fates| + i] == Entry(q.first + i, q.frames[i])
  {
    LedgerLength(t, q);
    assert t.log[|t.fates| + i] == t.log[|t.fates|..][i];
  }

  /** A window no fate names receives nothing. */
  lemma {:induction false} UnnamedWindow(t: Track, k: nat, index: int, c: nat)
    requires |t.fates| <= |t.log|
    requires forall i :: 0 <= i < |t.fates| ==> t.fates[i] != Mixed(k)
    ensures Contribution(t, k, index, c) == 0
    decreases |t.fates|
  {
    if t.fates != [] { UnnamedWindow(Track(t.log, t.fates[..|t.fates| - 1]), k, index, c); }
  }

  /** Nothing is contributed outside the window. */
  lemma {:induction false} NoContributionOutside(t: Track, out: seq<Window>, k: nat, index: int, c: nat)
    requires |t.fates| <= |t.log| && MixedInside(t, out) && k < |out| && !Inside(out[k], index)
    ensures Contribution(t, k, index, c) == 0
    decreases |t.fates|
  {
    if t.fates != [] { NoContributionOutside(Track(t.log, t.fates[..|t.fates| - 1]), out, k, index, c); }
  }

  // ----- one publisher's track under each step -----

  /** Discarding the first n queued frames for the same reason. */
  lemma DiscardKeepsTrack(t: Track, q: Queue, out: seq<Window>, f: Fate, n: nat)
    requires TrackOk(t, q, out) && n <= |q.frames| && !f.Mixed?
    ensures TrackOk(Fated(t, f, n), DropFrames(q, n), out)
  {
    DropKeepsIndices(q, n);
    var more := Fated(t, f, n);
    assert |t.log[|t.fates|..]| == |q.frames|;
    assert more.log[|more.fates|..] == t.log[|t.fates|..][n..];
  }

  lemma AppendKeepsTrack(t: Track, q: Queue, out: seq<Window>, frames: seq<Frame>, now: int)
    requires TrackOk(t, q, out)
    ensures TrackOk(Track(t.log + Run(End(q), frames), t.fates), Queue(q.first, q.frames + frames, now), out)
  {
    var longer := Queue(q.first, q.frames + frames, now);
    assert Entries(longer) == Entries(q) + Run(End(q), frames);
    assert (t.log + Run(End(q), frames))[|t.fates|..] == t.log[|t.fates|..] + Run(End(q), frames);
  }

  lemma PushKeepsTrack(t: Track, q: Queue, out: seq<Window>, ts: int, frames: seq<Frame>, now: int, rate: int)
    requires TrackOk(t, q, out) && rate >= 1
    ensures TrackOk(PushTrack(t, q, ts, frames, now, rate), Trimmed(Appended(q, ts, frames, now, rate), rate), out)
  {
    hide TrackOk;
    var a := Anchored(q, ts, rate);
    var lost := if Reanchors(q, ts, rate) then Fated(t, Reanchored, |q.frames|) else t;
    if Reanchors(q, ts, rate) {
      DiscardKeepsTrack(t, q, out, Reanchored, |q.frames|);
      EmptyQueuesAlike(lost, DropFrames(q, |q.frames|), a, out);
    }
    AppendKeepsTrack(lost, a, out, frames, now);
    var full := Appended(q, ts, frames, now, rate);
    DiscardKeepsTrack(Track(lost.log + Run(End(a), frames), lost.fates), full, out, TrimmedOff, Excess(full, rate));
  }

  lemma EmptyQueuesAlike(t: Track, q: Queue, r: Queue, out: seq<Window>)
    requires TrackOk(t, q, out) && q.frames == [] && r.frames == []
    ensures TrackOk(t, r, out)
  {
    assert Entries(q) == Entries(r);
  }

  lemma PushAddsNothing(t: Track, q: Queue, out: seq<Window>, ts: int, frames: seq<Frame>, now: int, rate: int,
                        k: nat, index: int, c: nat)
    requires TrackOk(t, q, out) && rate >= 1
    ensures |PushTrack(t, q, ts, frames, now, rate).fates| <= |PushTrack(t, q, ts, frames, now, rate).log|
    ensures Contribution(PushTrack(t, q, ts, frames, now, rate), k, index, c) == Contribution(t, k, index, c)
  {
    PushKeepsTrack(t, q, out, ts, frames, now, rate);
    assert |t.log[|t.fates|..]| == |q.frames|;
    var lost := if Reanchors(q, ts, rate) then Fated(t, Reanchored, |q.frames|) else t;
    if Reanchors(q, ts, rate) { FatedElsewhere(t, Reanchored, |q.frames|, k, index, c); }
    var more := Run(End(Anchored(q, ts, rate)), frames);
    LongerLog(lost, more, k, index, c);
    FatedElsewhere(Track(lost.log + more, lost.fates), TrimmedOff,
                   Excess(Appended(q, ts, frames, now, rate), rate), k, index, c);
  }

  lemma LateKeepsTrack(t: Track, q: Queue, out: seq<Window>, next: int)
    requires TrackOk(t, q, out)
    ensures TrackOk(LateTrack(t, q, next), From(q, next), out)
    ensures |t.fates| + FramesBefore(q, next) <= |t.log|
  {
    DiscardKeepsTrack(t, q, out, Late, FramesBefore(q, next));
  }

  /** All windows so far end at or before index e. */
  ghost predicate EndedBy(out: seq<Window>, e: int) {
    forall k :: 0 <= k < |out| ==> out[k].start + out[k].count <= e
  }

  /** The frames mixed next, with their indices. */
  lemma MixedNext(t: Track, q: Queue, end: int, window: nat)
    requires Ledger(t, q)
    ensures Ledger(MixTrack(t, q, end, window), From(q, end))
    ensures var more := MixTrack(t, q, end, window);
      forall i :: |t.fates| <= i < |more.fates| ==> more.log[i].index == q.first + (i - |t.fates|) < end
  {
    var n := FramesBefore(q, end);
    var more := MixTrack(t, q, end, window);
    DropKeepsIndices(q, n);
    assert |t.log[|t.fates|..]| == |q.frames|;
    assert more.log[|more.fates|..] == t.log[|t.fates|..][n..];
    forall i | |t.fates| <= i < |more.fates| ensures more.log[i].index == q.first + (i - |t.fates|) {
      assert more.log[i] == t.log[|t.fates|..][i - |t.fates|];
    }
  }

  lemma MixStaysInside(t: Track, q: Queue, out: seq<Window>, w: Window)
    requires Ledger(t, q) && MixedInside(t, out) && (q.frames != [] ==> q.first >= w.start)
    ensures Ledger(MixTrack(t, q, w.start + w.count, |out|), From(q, w.start + w.count))
    ensures MixedInside(MixTrack(t, q, w.start + w.count, |out|), out + [w])
  {
    hide Ledger, From;
    MixedNext(t, q, w.start + w.count, |out|);
    LedgerBound(t, q);
    LedgerBound(MixTrack(t, q, w.start + w.count, |out|), From(q, w.start + w.count));
    var more := MixTrack(t, q, w.start + w.count, |out|);
    forall i | 0 <= i < |more.fates| && more.fates[i].Mixed?
      ensures more.fates[i].window < |out + [w]| && Inside((out + [w])[more.fates[i].window], more.log[i].index)
    {
      if i < |t.fates| { assert more.fates[i] == t.fates[i] && more.log[i] == t.log[i]; }
    }
  }

  lemma LedgerBound(t: Track, q: Queue)
    requires Ledger(t, q)
    ensures |t.fates| <= |t.log|
  {
  }

  lemma MixStaysInOrder(t: Track, q: Queue, out: seq<Window>, w: Window)
    requires TrackOk(t, q, out) && EndedBy(out, w.start) && (q.frames != [] ==> q.first >= w.start)
    ensures Ledger(MixTrack(t, q, w.start + w.count, |out|), From(q, w.start + w.count))
    ensures MixedInOrder(MixTrack(t, q, w.start + w.count, |out|))
  {
    hide Ledger, From;
    MixedNext(t, q, w.start + w.count, |out|);
    LedgerBound(t, q);
    LedgerBound(MixTrack(t, q, w.start + w.count, |out|), From(q, w.start + w.count));
    var more := MixTrack(t, q, w.start + w.count, |out|);
    forall i, j | 0 <= i < j < |more.fates| && more.fates[i].Mixed? && more.fates[j].Mixed?
      ensures more.log[i].index < more.log[j].index
    {
      if i < |t.fates| {
        assert more.fates[i] == t.fates[i] && more.log[i] == t.log[i];
        assert Inside(out[t.fates[i].window], t.log[i].index);
        if j < |t.fates| { assert more.fates[j] == t.fates[j] && more.log[j] == t.log[j]; }
      }
    }
  }

  lemma MixKeepsTrack(t: Track, q: Queue, out: seq<Window>, w: Window)
    requires TrackOk(t, q, out) && EndedBy(out, w.start) && (q.frames != [] ==> q.first >= w.start)
    ensures TrackOk(MixTrack(t, q, w.start + w.count, |out|), From(q, w.start + w.count), out + [w])
  {
    hide Ledger, MixedInside, MixedInOrder, From;
    MixStaysInside(t, q, out, w);
    MixStaysInOrder(t, q, out, w);
  }

  // ----- the whole system -----

  lemma TracksBounded(tracks: map<string, Track>, m: Mixer, out: seq<Window>)
    requires TracksOk(tracks, m, out)
    ensures Bounded(tracks)
  {
    forall u | u in tracks ensures |tracks[u].fates| <= |tracks[u].log| {
      assert TrackOk(TrackOf(tracks, u), QueueOf(m, u), out);
    }
  }

  /** Totals are unchanged when every publisher's contribution is. */
  lemma TotalStable(before: map<string, Track>, after: map<string, Track>, k: nat, index: int, c: nat)
    requires Bounded(before) && Bounded(after) && before.Keys <= after.Keys
    requires forall u :: u in after ==>
               Contribution(after[u], k, index, c) == if u in before then Contribution(before[u], k, index, c) else 0
    ensures Total(after, k, index, c) == Total(before, k, index, c)
  {
    SumIgnoresZeros(map u | u in before :: Contribution(before[u], k, index, c),
                    map u | u in after :: Contribution(after[u], k, index, c));
  }

  ghost predicate SameContributions(before: map<string, Track>, after: map<string, Track>, k: nat)
    requires Bounded(before) && Bounded(after)
  {
    && before.Keys <= after.Keys
    && forall u, index, c: nat :: u in after ==>
         Contribution(after[u], k, index, c) == if u in before then Contribution(before[u], k, index, c) else 0
  }

  lemma WindowStable(w: Window, k: nat, before: map<string, Track>, after: map<string, Track>, rate: int, channels: int)
    requires Bounded(before) && Bounded(after) && WindowOk(w, k, before, rate, channels)
    requires SameContributions(before, after, k)
    ensures WindowOk(w, k, after, rate, channels)
  {
    var a := TotalRows(before, k, w.start, w.count, channels);
    var b := TotalRows(after, k, w.start, w.count, channels);
    forall i | 0 <= i < w.count ensures a[i] == b[i] {
      forall c | 0 <= c < channels ensures a[i][c] == b[i][c] { TotalStable(before, after, k, w.start + i, c); }
    }
    assert a == b;
  }

  lemma WindowsStable(out: seq<Window>, before: map<string, Track>, after: map<string, Track>, rate: int, channels: int)
    requires Bounded(before) && Bounded(after) && WindowsOk(out, before, rate, channels)
    requires forall k: nat :: k < |out| ==> SameContributions(before, after, k)
    ensures WindowsOk(out, after, rate, channels)
  {
    hide WindowOk, SameContributions;
    forall k | 0 <= k < |out| ensures WindowOk(out[k], k, after, rate, channels) {
      WindowStable(out[k], k, before, after, rate, channels);
    }
  }

  // Push.

  lemma PushKeepsTracks(s: System, c: PushCall)
    requires MixerOk(s.m) && CallOk(c, s.m.channels) && TracksOk(s.tracks, s.m, s.out)
    ensures TracksOk(PushStep(s, c).tracks, PushStep(s, c).m, s.out)
  {
    hide TrackOk;
    var s' := PushStep(s, c);
    forall u ensures TrackOk(TrackOf(s'.tracks, u), QueueOf(s'.m, u), s.out) {
      assert TrackOk(TrackOf(s.tracks, u), QueueOf(s.m, u), s.out);
      if u == c.user && Appends(s.m, c) {
        PushKeepsTrack(TrackOf(s.tracks, u), QueueOf(s.m, u), s.out, Rescale(c.frame.timestampMs, s.m.rate, 1000),
                       Converted(s.m, c).value, c.now, s.m.rate);
      }
    }
  }

  lemma PushKeepsContributions(s: System, c: PushCall, k: nat)
    requires MixerOk(s.m) && CallOk(c, s.m.channels) && TracksOk(s.tracks, s.m, s.out)
    requires Bounded(s.tracks) && Bounded(PushStep(s, c).tracks)
    ensures SameContributions(s.tracks, PushStep(s, c).tracks, k)
  {
    var after := PushStep(s, c).tracks;
    forall u, index, ch: nat | u in after
      ensures Contribution(after[u], k, index, ch)
              == if u in s.tracks then Contribution(s.tracks[u], k, index, ch) else 0
    {
      assert TrackOk(TrackOf(s.tracks, u), QueueOf(s.m, u), s.out);
      if u == c.user && Appends(s.m, c) {
        PushAddsNothing(TrackOf(s.tracks, u), QueueOf(s.m, u), s.out, Rescale(c.frame.timestampMs, s.m.rate, 1000),
                        Converted(s.m, c).value, c.now, s.m.rate, k, index, ch);
      }
    }
  }

  lemma PushKeepsInv(s: System, c: PushCall)
    requires Inv(s) && Enabled(s, Push(c))
    ensures Inv(PushStep(s, c))
  {
    hide MixerOk, TracksOk, WindowsOk, SameContributions, PushResult, Appends, CallOk;
    var s' := PushStep(s, c);
    PushKeepsTracks(s, c);
    TracksBounded(s'.tracks, s'.m, s'.out);
    forall k: nat | k < |s.out| ensures SameContributions(s.tracks, s'.tracks, k) {
      PushKeepsContributions(s, c, k);
    }
    WindowsStable(s.out, s.tracks, s'.tracks, s.m.rate, s.m.channels);
  }

  // A turn of the drain loop.

  lemma QueueFrom(m: Mixer, t: int, u: string)
    ensures QueueOf(AllFrom(m, t), u) == From(QueueOf(m, u), t)
  {
  }

  /** How far a turn moves the cursor, and what it does with the queues. */
  lemma RoundShape(m: Mixer, d: DrainParams)
    requires MixerOk(m) && m.next >= 0 && d.count > 0
    ensures var r := DrainRound(m, d);
      var late := AllFrom(m, m.next);
      && (r.Finish? ==>
            && r.m == late.(next := r.m.next) && Follows(m.next, r.m.next, m.rate)
            && forall u :: QueueOf(late, u).frames != [] ==> QueueOf(late, u).first >= r.m.next)
      && (r.Emit? ==>
            var j := late.(next := r.window.start);
            && Follows(m.next, r.window.start, m.rate)
            && r.window == WindowAt(j, d.count)
            && r.m == AllFrom(late, r.m.next).(next := r.m.next)
            && forall u :: QueueOf(late, u).frames != [] ==> QueueOf(late, u).first >= r.window.start)
  {
    hide WindowAt, From, MixerOk, DrainRound, IsLatest, SomeoneAwaited;
    var late := AllFrom(m, m.next);
    var j := Jump(late);
    RoundCases(m, d);
    forall u | QueueOf(late, u).frames != [] ensures QueueOf(late, u).first >= j.next {
      assert Speaks(late, u);
    }
    if DrainRound(m, d).Emit? {
      assert AllFrom(j, j.next + d.count).queues == AllFrom(late, j.next + d.count).queues;
    }
  }

  lemma SweepKeepsTracks(tracks: map<string, Track>, m: Mixer, out: seq<Window>, now: int)
    requires TracksOk(tracks, m, out)
    ensures TracksOk(tracks, Sweep(m, now), out)
  {
    hide TrackOk;
    forall u ensures TrackOk(TrackOf(tracks, u), QueueOf(Sweep(m, now), u), out) {
      assert TrackOk(TrackOf(tracks, u), QueueOf(m, u), out);
      if u in m.queues && Stale(m.queues[u], now) { EmptyQueuesAlike(TrackOf(tracks, u), m.queues[u], BLANK, out); }
    }
  }

  /** A publisher without a track has nothing queued. */
  lemma Untracked(tracks: map<string, Track>, m: Mixer, out: seq<Window>, u: string)
    requires TracksOk(tracks, m, out) && u !in tracks
    ensures QueueOf(m, u).frames == []
  {
    assert TrackOk(TrackOf(tracks, u), QueueOf(m, u), out);
    assert |Entries(QueueOf(m, u))| == 0;
  }

  lemma LateKeepsTracks(tracks: map<string, Track>, m: Mixer, out: seq<Window>)
    requires TracksOk(tracks, m, out)
    ensures TracksOk(LateTracks(m, tracks), AllFrom(m, m.next), out)
  {
    hide TrackOk, From, AllFrom;
    forall u ensures TrackOk(TrackOf(LateTracks(m, tracks), u), QueueOf(AllFrom(m, m.next), u), out) {
      assert TrackOk(TrackOf(tracks, u), QueueOf(m, u), out);
      QueueFrom(m, m.next, u);
      LateKeepsTrack(TrackOf(tracks, u), QueueOf(m, u), out, m.next);
      if u !in tracks {
        Untracked(tracks, m, out, u);
        assert Fated(NO_TRACK, Late, 0) == NO_TRACK;
      }
    }
  }

  lemma MixKeepsTracks(tracks: map<string, Track>, late: Mixer, out: seq<Window>, w: Window)
    requires TracksOk(tracks, late, out) && EndedBy(out, w.start)
    requires forall u :: QueueOf(late, u).frames != [] ==> QueueOf(late, u).first >= w.start
    ensures TracksOk(MixTracks(late, tracks, w.start + w.count, |out|), AllFrom(late, w.start + w.count), out + [w])
  {
    hide TrackOk, From, AllFrom, EndedBy;
    var end := w.start + w.count;
    forall u
      ensures TrackOk(TrackOf(MixTracks(late, tracks, end, |out|), u), QueueOf(AllFrom(late, end), u), out + [w]) {
      assert TrackOk(TrackOf(tracks, u), QueueOf(late, u), out);
      QueueFrom(late, end, u);
      MixKeepsTrack(TrackOf(tracks, u), QueueOf(late, u), out, w);
      if u !in tracks {
        Untracked(tracks, late, out, u);
        assert Fated(NO_TRACK, Mixed(|out|), 0) == NO_TRACK;
      }
    }
  }

  /** Successive windows never overlap. */
  lemma {:induction false} TimelineEnds(out: seq<Window>, next: int, rate: int)
    requires rate >= 1 && Chained(out, rate)
    requires out != [] ==> Follows(out[|out| - 1].start + out[|out| - 1].count, next, rate)
    ensures EndedBy(out, next)
    decreases |out|
  {
    if out != [] {
      var n := |out| - 1;
      var shorter := out[..n];
      if n > 0 { assert Follows(shorter[n - 1].start + shorter[n - 1].count, out[n].start, rate); }
      TimelineEnds(shorter, out[n].start, rate);
      forall k | 0 <= k < |out| ensures out[k].start + out[k].count <= next {
        if k < n { assert out[k] == shorter[k]; }
      }
    }
  }

  lemma LateKeepsContributions(tracks: map<string, Track>, m: Mixer, out: seq<Window>, k: nat)
    requires TracksOk(tracks, m, out) && Bounded(tracks) && Bounded(LateTracks(m, tracks))
    ensures SameContributions(tracks, LateTracks(m, tracks), k)
  {
    hide TrackOk;
    forall u, index, c: nat | u in tracks
      ensures Contribution(LateTracks(m, tracks)[u], k, index, c) == Contribution(tracks[u], k, index, c)
    {
      assert TrackOk(TrackOf(tracks, u), QueueOf(m, u), out);
      LateKeepsTrack(tracks[u], QueueOf(m, u), out, m.next);
      FatedElsewhere(tracks[u], Late, FramesBefore(QueueOf(m, u), m.next), k, index, c);
    }
  }

  /** Mixing a queue into window |out|: earlier windows are untouched, the new one gets what the queue holds. */
  lemma MixContribution(t: Track, q: Queue, out: seq<Window>, w: Window, k: nat, index: int, c: nat)
    requires TrackOk(t, q, out) && k <= |out|
    ensures var mixed := MixTrack(t, q, w.start + w.count, |out|);
      && |mixed.fates| <= |mixed.log|
      && (k < |out| ==> Contribution(mixed, k, index, c) == Contribution(t, k, index, c))
      && (k == |out| && Inside(w, index) ==> Contribution(mixed, k, index, c) == Held(q, index, c))
  {
    var n := FramesBefore(q, w.start + w.count);
    FatedMixed(t, q, n, |out|, index, c);
    if k < |out| { FatedElsewhere(t, Mixed(|out|), n, k, index, c); }
    if k == |out| { UnnamedWindow(t, k, index, c); }
  }

  lemma MixKeepsContributions(tracks: map<string, Track>, late: Mixer, out: seq<Window>, w: Window, k: nat)
    requires TracksOk(tracks, late, out) && k < |out|
    requires Bounded(tracks) && Bounded(MixTracks(late, tracks, w.start + w.count, |out|))
    ensures SameContributions(tracks, MixTracks(late, tracks, w.start + w.count, |out|), k)
  {
    hide TrackOk;
    forall u, index, c: nat | u in tracks
      ensures Contribution(MixTracks(late, tracks, w.start + w.count, |out|)[u], k, index, c)
              == Contribution(tracks[u], k, index, c)
    {
      assert TrackOk(TrackOf(tracks, u), QueueOf(late, u), out);
      MixContribution(tracks[u], QueueOf(late, u), out, w, k, index, c);
    }
  }

  /** The new window's totals are the sums of what the queues held. */
  lemma NewWindowTotal(tracks: map<string, Track>, late: Mixer, out: seq<Window>, w: Window, index: int, c: nat)
    requires TracksOk(tracks, late, out) && Inside(w, index)
    requires Bounded(MixTracks(late, tracks, w.start + w.count, |out|))
    ensures Total(MixTracks(late, tracks, w.start + w.count, |out|), |out|, index, c) == SumHeld(late, index, c)
  {
    hide TrackOk;
    var after := MixTracks(late, tracks, w.start + w.count, |out|);
    var all := map u | u in after.Keys + late.queues.Keys :: Held(QueueOf(late, u), index, c);
    var totals := map u | u in after :: Contribution(after[u], |out|, index, c);
    var sums := map u | u in late.queues :: Held(late.queues[u], index, c);
    forall u | u in all ensures all[u] == if u in totals then totals[u] else 0 {
      assert TrackOk(TrackOf(tracks, u), QueueOf(late, u), out);
      if u in tracks { MixContribution(tracks[u], QueueOf(late, u), out, w, |out|, index, c); }
      else { Untracked(tracks, late, out, u); }
    }
    SumIgnoresZeros(totals, all);
    SumIgnoresZeros(sums, all);
  }

  lemma NewWindowOk(tracks: map<string, Track>, late: Mixer, out: seq<Window>, count: nat)
    requires MixerOk(late) && late.next >= 0 && count > 0 && TracksOk(tracks, late, out)
    requires Bounded(MixTracks(late, tracks, late.next + count, |out|))
    ensures WindowOk(WindowAt(late, count), |out|, MixTracks(late, tracks, late.next + count, |out|),
                     late.rate, late.channels)
  {
    hide TracksOk, MixerOk, MixTracks, SumHeld, Total, Flatten, LimitAll;
    MixerPositive(late);
    var w := WindowAt(late, count);
    var after := MixTracks(late, tracks, late.next + count, |out|);
    var a, b := MixedRows(late, count), TotalRows(after, |out|, late.next, count, late.channels);
    forall i | 0 <= i < count ensures a[i] == b[i] {
      forall c | 0 <= c < late.channels ensures a[i][c] == b[i][c] {
        NewWindowTotal(tracks, late, out, w, late.next + i, c);
      }
    }
    assert a == b;
  }

  lemma MixerPositive(m: Mixer)
    requires MixerOk(m)
    ensures m.rate >= 1 && m.channels >= 1
  {
  }

  lemma OnlyCursorMoved(tracks: map<string, Track>, m: Mixer, n: Mixer, out: seq<Window>)
    requires TracksOk(tracks, m, out) && n.queues == m.queues
    ensures TracksOk(tracks, n, out)
  {
    hide TrackOk;
    forall u ensures TrackOk(TrackOf(tracks, u), QueueOf(n, u), out) {
      assert TrackOk(TrackOf(tracks, u), QueueOf(m, u), out);
    }
  }

  /** Late frames dropped: the ledger and every emitted window still hold. */
  lemma LateKeepsSystem(s: System)
    requires Inv(s)
    ensures var late := LateTracks(s.m, s.tracks);
      && TracksOk(late, AllFrom(s.m, s.m.next), s.out) && Bounded(late)
      && WindowsOk(s.out, late, s.m.rate, s.m.channels)
  {
    hide MixerOk, TracksOk, WindowsOk, SameContributions, LateTracks, AllFrom;
    var late := LateTracks(s.m, s.tracks);
    LateKeepsTracks(s.tracks, s.m, s.out);
    TracksBounded(late, AllFrom(s.m, s.m.next), s.out);
    forall k: nat | k < |s.out| ensures SameContributions(s.tracks, late, k) {
      LateKeepsContributions(s.tracks, s.m, s.out, k);
    }
    WindowsStable(s.out, s.tracks, late, s.m.rate, s.m.channels);
  }

  /** A window mixed from `late`: the ledger, all earlier windows and the new one hold. */
  lemma MixKeepsSystem(tracks: map<string, Track>, late: Mixer, out: seq<Window>, count: nat)
    requires MixerOk(late) && late.next >= 0 && count > 0
    requires TracksOk(tracks, late, out) && Bounded(tracks) && WindowsOk(out, tracks, late.rate, late.channels)
    requires EndedBy(out, late.next)
    requires forall u :: QueueOf(late, u).frames != [] ==> QueueOf(late, u).first >= late.next
    ensures late.rate >= 1 && late.channels >= 1
    ensures var w := WindowAt(late, count);
      var after := MixTracks(late, tracks, late.next + count, |out|);
      && TracksOk(after, AllFrom(late, late.next + count), out + [w]) && Bounded(after)
      && WindowsOk(out + [w], after, late.rate, late.channels)
  {
    hide MixerOk, TracksOk, WindowOk, SameContributions, MixTracks, AllFrom, EndedBy, MixedRows;
    MixerPositive(late);
    var w := WindowAt(late, count);
    var after := MixTracks(late, tracks, late.next + count, |out|);
    MixKeepsTracks(tracks, late, out, w);
    TracksBounded(after, AllFrom(late, late.next + count), out + [w]);
    forall k: nat | k < |out| ensures SameContributions(tracks, after, k) {
      MixKeepsContributions(tracks, late, out, w, k);
    }
    WindowsStable(out, tracks, after, late.rate, late.channels);
    NewWindowOk(tracks, late, out, count);
  }

  lemma TimelineMoves(out: seq<Window>, next: int, later: int, rate: int)
    requires Timeline(out, next, rate) && Follows(next, later, rate) && rate >= 1
    ensures Timeline(out, later, rate)
  {
  }

  lemma TimelineGrows(out: seq<Window>, w: Window, rate: int)
    requires Timeline(out, w.start, rate) && w.start >= 0
    ensures Timeline(out + [w], w.start + w.count, rate)
  {
  }

  lemma FinishKeepsInv(s: System)
    requires Inv(s) && s.phase.Holding? && s.m.next < s.phase.d.end && DrainRound(s.m, s.phase.d).Finish?
    ensures Inv(TurnStep(s))
  {
    hide MixerOk, TracksOk, WindowsOk, Timeline, DrainRound, AllFrom, LateTracks, Sweep;
    var r := DrainRound(s.m, s.phase.d);
    var late := LateTracks(s.m, s.tracks);
    MixerPositive(s.m);
    RoundShape(s.m, s.phase.d);
    LateKeepsSystem(s);
    OnlyCursorMoved(late, AllFrom(s.m, s.m.next), r.m, s.out);
    SweepKeepsTracks(late, r.m, s.out, s.phase.d.now);
    TimelineMoves(s.out, s.m.next, r.m.next, s.m.rate);
    SweepFields(r.m, s.phase.d.now);
  }

  lemma SweepFields(m: Mixer, now: int)
    ensures Sweep(m, now) == m.(queues := Sweep(m, now).queues)
  {
  }

  lemma EmitKeepsInv(s: System)
    requires Inv(s) && s.phase.Holding? && s.m.next < s.phase.d.end && DrainRound(s.m, s.phase.d).Emit?
    ensures Inv(TurnStep(s))
  {
    hide MixerOk, TracksOk, WindowsOk, Timeline, DrainRound, LateTracks, MixTracks, WindowAt, EndedBy, From;
    var r := DrainRound(s.m, s.phase.d);
    var late := LateTracks(s.m, s.tracks);
    var from := AllFrom(s.m, s.m.next);
    var j := from.(next := r.window.start);
    MixerPositive(s.m);
    RoundShape(s.m, s.phase.d);
    LateKeepsSystem(s);
    CursorOk(from, r.window.start);
    OnlyCursorMoved(late, from, j, s.out);
    TimelineMoves(s.out, s.m.next, r.window.start, s.m.rate);
    TimelineStrict(s.out, r.window.start, s.m.rate);
    assert forall u :: QueueOf(j, u) == QueueOf(from, u);
    MixKeepsSystem(late, j, s.out, s.phase.d.count);
    SameMix(late, from, j, r.m.next, |s.out|);
    OnlyCursorMoved(MixTracks(from, late, r.m.next, |s.out|), AllFrom(j, r.m.next), r.m, s.out + [r.window]);
    TimelineGrows(s.out, r.window, s.m.rate);
  }

  lemma CursorOk(m: Mixer, next: int)
    requires MixerOk(m) && next >= -1
    ensures MixerOk(m.(next := next))
  {
  }

  lemma SameMix(tracks: map<string, Track>, m: Mixer, n: Mixer, end: int, window: nat)
    requires m.queues == n.queues
    ensures MixTracks(m, tracks, end, window) == MixTracks(n, tracks, end, window)
    ensures AllFrom(m, end).queues == AllFrom(n, end).queues
  {
  }

  lemma TimelineStrict(out: seq<Window>, next: int, rate: int)
    requires Timeline(out, next, rate) && rate >= 1
    ensures EndedBy(out, next)
  {
    TimelineEnds(out, next, rate);
  }

  lemma StepKeepsInv(s: System, a: Action)
    requires Inv(s) && Enabled(s, a)
    ensures Inv(Step(s, a))
  {
    match a
    case Push(c) => PushKeepsInv(s, c);
    case Begin(_, _, _) =>
    case Turn =>
      if s.m.next >= s.phase.d.end { SweepKeepsTracks(s.tracks, s.m, s.out, s.phase.d.now); }
      else if DrainRound(s.m, s.phase.d).Finish? { FinishKeepsInv(s); }
      else { EmitKeepsInv(s); }
    case Answer(_) =>
  }

  // ----- runs -----

  /** actions lead from s to t, each of them enabled when it is taken. */
  ghost predicate Reaches(s: System, actions: seq<Action>, t: System)
    decreases |actions|
  {
    if actions == [] then s == t
    else MixerOk(s.m) && PhaseOk(s) && Enabled(s, actions[0]) && Reaches(Step(s, actions[0]), actions[1..], t)
  }

  lemma StepKeepsFormat(s: System, a: Action)
    requires MixerOk(s.m) && PhaseOk(s) && Enabled(s, a)
    ensures Step(s, a).m.rate == s.m.rate && Step(s, a).m.channels == s.m.channels
  {
    hide MixerOk, DrainRound, PushResult, AllFrom, LateTracks, MixTracks, Latest;
  }

  lemma {:induction false} RunsKeepInv(s: System, actions: seq<Action>, t: System)
    requires Inv(s) && Reaches(s, actions, t)
    ensures Inv(t) && t.m.rate == s.m.rate && t.m.channels == s.m.channels
    decreases |actions|
  {
    hide Inv, Step, MixerOk, PhaseOk, Enabled;
    if actions != [] {
      StepKeepsInv(s, actions[0]);
      StepKeepsFormat(s, actions[0]);
      RunsKeepInv(Step(s, actions[0]), actions[1..], t);
    }
  }

  lemma InitialInv(rate: int, channels: int)
    requires rate >= 1 && channels >= 1
    ensures Inv(Initial(rate, channels))
  {
    forall u ensures TrackOk(TrackOf(map[], u), BLANK, []) { assert Entries(BLANK) == []; }
  }

  /** s is the state after some run from a freshly constructed mixer. */
  ghost predicate Reachable(s: System, rate: int, channels: int) {
    exists actions :: Reaches(Initial(rate, channels), actions, s)
  }

  lemma ReachableInv(s: System, rate: int, channels: int)
    requires rate >= 1 && channels >= 1 && Reachable(s, rate, channels)
    ensures Inv(s) && s.m.rate == rate && s.m.channels == channels
  {
    var actions :| Reaches(Initial(rate, channels), actions, s);
    InitialInv(rate, channels);
    RunsKeepInv(Initial(rate, channels), actions, s);
  }

  /**
   Refinement. Every emitted sample is the limiter applied to the sum, over all publishers, of
   the frames whose fate names that window, each at the timeline index it was given when pushed.
   */
  lemma EmittedSample(s: System, rate: int, channels: int, k: nat, i: nat, c: nat)
    requires rate >= 1 && channels >= 1 && Reachable(s, rate, channels)
    requires k < |s.out| && i < s.out[k].count && c < channels
    ensures Bounded(s.tracks)
    ensures var mixed := Flatten(TotalRows(s.tracks, k, s.out[k].start, s.out[k].count, channels));
      && s.out[k].pcm == LimitAll(mixed)
      && i * channels + c < |mixed|
      && s.out[k].pcm[i * channels + c] == Limit(Total(s.tracks, k, s.out[k].start + i, c), Peak(mixed))
  {
    hide Flatten, Total, TracksOk;
    ReachableInv(s, rate, channels);
    assert WindowOk(s.out[k], k, s.tracks, s.m.rate, s.m.channels);
    FlattenAt(TotalRows(s.tracks, k, s.out[k].start, s.out[k].count, channels), channels, i, c);
  }

  /** A window is stamped with the millisecond nearest to its start. */
  lemma WindowTimestamp(s: System, rate: int, channels: int, k: nat)
    requires rate >= 1 && channels >= 1 && Reachable(s, rate, channels) && k < |s.out|
    ensures s.out[k].timestampMs == (s.out[k].start * 1000 + rate / 2) / rate
  {
    hide TracksOk, Timeline, MixerOk, Total, LimitAll;
    ReachableInv(s, rate, channels);
    assert WindowOk(s.out[k], k, s.tracks, s.m.rate, s.m.channels);
  }

  /** A publisher's mixed frames lie in their windows at strictly increasing indices, so none is heard twice. */
  lemma MixedOnce(s: System, rate: int, channels: int, u: string, i: nat, j: nat)
    requires rate >= 1 && channels >= 1 && Reachable(s, rate, channels) && u in s.tracks
    requires i < j < |s.tracks[u].fates| && s.tracks[u].fates[i].Mixed? && s.tracks[u].fates[j].Mixed?
    ensures |s.tracks[u].fates| <= |s.tracks[u].log|
    ensures s.tracks[u].log[i].index < s.tracks[u].log[j].index
    ensures s.tracks[u].fates[i].window < |s.out|
            && Inside(s.out[s.tracks[u].fates[i].window], s.tracks[u].log[i].index)
    ensures s.tracks[u].fates[j].window < |s.out|
            && Inside(s.out[s.tracks[u].fates[j].window], s.tracks[u].log[j].index)
  {
    ReachableInv(s, rate, channels);
    assert TrackOk(TrackOf(s.tracks, u), QueueOf(s.m, u), s.out);
  }

  /**
   Conservation. Every frame ever appended for a publisher has exactly one place: the first
   |fates| frames of the log have left with one fate each, and the others are exactly the frames
   still queued, in order and at their original timeline indices.
   */
  lemma FramesAccountedOnce(s: System, rate: int, channels: int, u: string)
    requires rate >= 1 && channels >= 1 && Reachable(s, rate, channels)
    ensures var t := TrackOf(s.tracks, u);
      && |t.fates| <= |t.log|
      && |t.log| == |t.fates| + |QueueOf(s.m, u).frames|
      && forall i :: |t.fates| <= i < |t.log| ==>
           t.log[i] == Entry(QueueOf(s.m, u).first + (i - |t.fates|), QueueOf(s.m, u).frames[i - |t.fates|])
  {
    ReachableInv(s, rate, channels);
    var t := TrackOf(s.tracks, u);
    assert TrackOk(t, QueueOf(s.m, u), s.out);
    assert |t.log[|t.fates|..]| == |Entries(QueueOf(s.m, u))|;
    forall i | |t.fates| <= i < |t.log|
      ensures t.log[i] == Entry(QueueOf(s.m, u).first + (i - |t.fates|), QueueOf(s.m, u).frames[i - |t.fates|])
    {
      assert t.log[i] == t.log[|t.fates|..][i - |t.fates|] == Entries(QueueOf(s.m, u))[i - |t.fates|];
    }
  }

  /** Windows never overlap, and each starts at the previous end or more than a second after it. */
  lemma WindowsFollow(s: System, rate: int, channels: int, j: nat, k: nat)
    requires rate >= 1 && channels >= 1 && Reachable(s, rate, channels) && j < k < |s.out|
    ensures s.out[j].start + s.out[j].count <= s.out[k].start
    ensures s.out[k].start == s.out[k - 1].start + s.out[k - 1].count
            || s.out[k].start > s.out[k - 1].start + s.out[k - 1].count + rate
  {
    ReachableInv(s, rate, channels);
    var before := s.out[..k];
    assert Chained(before, s.m.rate);
    assert Follows(s.out[k - 1].start + s.out[k - 1].count, s.out[k].start, s.m.rate);
    TimelineEnds(before, s.out[k].start, s.m.rate);
    assert before[j] == s.out[j];
  }

  // ----- no late loss -----

  /** The publisher's next frame is at or ahead of the cursor. */
  predicate Ahead(m: Mixer, u: string) {
    u in m.queues && m.queues[u].first >= m.next
  }

  /**
   u keeps up during the turn: at a non-flush emission its last frame came within 40 ms, the
   cursor does not jump over it while it has nothing queued, and it is not forgotten.
   */
  ghost predicate KeepsUp(s: System, u: string)
    requires MixerOk(s.m) && PhaseOk(s) && s.phase.Holding?
  {
    var d := s.phase.d;
    u in s.m.queues &&
    if s.m.next >= d.end then !Stale(s.m.queues[u], d.now)
    else
      var q := From(s.m.queues[u], s.m.next);
      match DrainRound(s.m, d)
      case Finish(m1, sweep) => (m1.next == s.m.next || q.frames != []) && (sweep ==> !Stale(q, d.now))
      case Emit(m1, w) => (w.start == s.m.next || q.frames != []) && !d.flush && d.now - q.lastArrival < 40
  }

  /**
   Where the cursor stands after a turn: where it was when nothing is left to emit, past the silence
   when the window has to wait, else at the window's end.
   */
  ghost function CursorAfter(m: Mixer, d: DrainParams): int {
    var late := AllFrom(m, m.next);
    if Latest(late) <= m.next || Earliest(late) >= d.end then m.next
    else
      var start := if Earliest(late) > m.next + m.rate then Earliest(late) else m.next;
      if !d.flush && (Latest(late) < start + d.count || SomeoneAwaited(late, start + d.count, d.now)) then start
      else start + d.count
  }

  lemma CursorMoves(m: Mixer, d: DrainParams)
    requires MixerOk(m) && m.next >= 0 && d.count > 0
    ensures DrainRound(m, d).m.next == CursorAfter(m, d)
  {
    hide WindowAt, From, MixerOk, DrainRound, IsLatest, IsEarliest, Awaited;
    RoundCases(m, d);
  }

  /** A turn overtakes a publisher exactly when the publisher's queue starts and ends before the cursor's new place. */
  lemma OvertakenIff(m: Mixer, d: DrainParams, u: string)
    requires MixerOk(m) && m.next >= 0 && d.count > 0 && Ahead(m, u)
    ensures !Ahead(DrainRound(m, d).m, u) <==>
              m.queues[u].first < CursorAfter(m, d) && End(m.queues[u]) < CursorAfter(m, d)
  {
    hide CursorAfter;
    CursorMoves(m, d);
    RoundShape(m, d);
    QueueFrom(m, m.next, u);
    hide DrainRound;
    var late := AllFrom(m, m.next);
    assert QueueOf(late, u) == m.queues[u];
    if DrainRound(m, d).Emit? { QueueFrom(late, DrainRound(m, d).m.next, u); }
  }

  /** A turn drops what is behind the cursor before anything else. */
  lemma LateComesFirst(s: System, u: string)
    requires Inv(s) && s.phase.Holding? && s.m.next < s.phase.d.end && u in s.tracks
    ensures var late, now := LateTrack(s.tracks[u], QueueOf(s.m, u), s.m.next), TrackOf(TurnStep(s).tracks, u);
      now.log == late.log && late.fates <= now.fates
  {
    hide WindowAt, WindowsOk, Timeline, MixerOk, DrainRound, From, AllFrom, Sweep, FramesBefore,
         TracksOk, Bounded, Repeat;
  }

  lemma LedgerEntry(s: System, u: string, k: nat)
    requires Inv(s) && k < |QueueOf(s.m, u).frames|
    ensures var t, q := TrackOf(s.tracks, u), QueueOf(s.m, u);
      u in s.tracks && |t.log| == |t.fates| + |q.frames| && t.log[|t.fates| + k] == Entry(q.first + k, q.frames[k])
  {
    assert TrackOk(TrackOf(s.tracks, u), QueueOf(s.m, u), s.out);
    LedgerLength(TrackOf(s.tracks, u), QueueOf(s.m, u));
    LedgerAt(TrackOf(s.tracks, u), QueueOf(s.m, u), k);
    hide TracksOk, TrackOk;
    if u !in s.tracks { Untracked(s.tracks, s.m, s.out, u); }
  }

  lemma FatesBounded(s: System, u: string)
    requires Inv(s)
    ensures |TrackOf(s.tracks, u).fates| <= |TrackOf(s.tracks, u).log|
  {
  }

  /** What an overtaken publisher pushes is late: the next turn drops every frame behind the cursor. */
  lemma BehindIsLate(s: System, u: string, k: nat)
    requires Inv(s) && s.phase.Holding? && s.m.next < s.phase.d.end && k < FramesBefore(QueueOf(s.m, u), s.m.next)
    ensures var q := QueueOf(s.m, u);
      var was, now := TrackOf(s.tracks, u), TrackOf(TurnStep(s).tracks, u);
      && |was.fates| + k < |now.fates| <= |now.log|
      && now.fates[|was.fates| + k] == Late && now.log[|was.fates| + k] == Entry(q.first + k, q.frames[k])
  {
    LedgerEntry(s, u, k);
    LateComesFirst(s, u);
    StepKeepsInv(s, Turn);
    hide Inv, TurnStep;
    FatesBounded(Step(s, Turn), u);
  }

  /** A fresh publisher whose queue ends inside the window holds the window back. */
  lemma FreshHoldsBack(m: Mixer, d: DrainParams, u: string)
    requires MixerOk(m) && m.next >= 0 && d.count > 0 && DrainRound(m, d).Emit? && !d.flush
    requires u in m.queues && d.now - m.queues[u].lastArrival < 40
    ensures var q := From(m.queues[u], m.next);
      q.first >= DrainRound(m, d).m.next || End(q) >= DrainRound(m, d).m.next
  {
    hide MixerOk, From, WindowAt, Latest, Earliest;
    var j := Jump(AllFrom(m, m.next));
    assert !WaitsForPublisher(j, d);
    assert !Awaited(j.queues[u], j.next + d.count, d.now);
  }

  lemma TurnStaysAhead(s: System, u: string)
    requires Inv(s) && s.phase.Holding? && Ahead(s.m, u) && KeepsUp(s, u)
    ensures Ahead(TurnStep(s).m, u)
  {
    hide WindowAt, TracksOk, WindowsOk, Timeline, MixerOk, DrainRound, LateTracks, MixTracks;
    var d := s.phase.d;
    if s.m.next < d.end {
      RoundShape(s.m, d);
      QueueFrom(s.m, s.m.next, u);
      if DrainRound(s.m, d).Emit? {
        FreshHoldsBack(s.m, d, u);
        QueueFrom(AllFrom(s.m, s.m.next), DrainRound(s.m, d).m.next, u);
      }
    }
  }

  lemma TurnLosesNothing(s: System, u: string)
    requires Inv(s) && s.phase.Holding? && Ahead(s.m, u)
    ensures NoneLate(TrackOf(s.tracks, u), TrackOf(TurnStep(s).tracks, u))
  {
    hide WindowAt, TracksOk, WindowsOk, Timeline, MixerOk, DrainRound, From, AllFrom, Sweep;
    var t := TrackOf(s.tracks, u);
    assert FramesBefore(QueueOf(s.m, u), s.m.next) == 0;
    assert LateTrack(t, QueueOf(s.m, u), s.m.next).fates == t.fates;
  }

  /** b continues a without a late frame. */
  ghost predicate NoneLate(a: Track, b: Track) {
    a.fates <= b.fates && forall i :: |a.fates| <= i < |b.fates| ==> b.fates[i] != Late
  }

  lemma PushStaysAhead(s: System, c: PushCall, u: string)
    requires Inv(s) && Enabled(s, Push(c)) && s.m.next >= 0 && Ahead(s.m, u)
    ensures Ahead(PushStep(s, c).m, u)
    ensures NoneLate(TrackOf(s.tracks, u), TrackOf(PushStep(s, c).tracks, u))
  {
    hide TracksOk, WindowsOk, Timeline, CallOk, MixerOk, Entries, Converted;
  }

  /** At every turn of the run, u keeps up. */
  ghost predicate AlwaysKeepsUp(s: System, actions: seq<Action>, u: string)
    decreases |actions|
  {
    actions == [] ||
    (MixerOk(s.m) && PhaseOk(s) && Enabled(s, actions[0])
     && (actions[0].Turn? ==> KeepsUp(s, u))
     && AlwaysKeepsUp(Step(s, actions[0]), actions[1..], u))
  }

  lemma StepStaysAhead(s: System, a: Action, u: string)
    requires Inv(s) && Enabled(s, a) && s.m.next >= 0 && Ahead(s.m, u) && (a.Turn? ==> KeepsUp(s, u))
    ensures Ahead(Step(s, a).m, u) && Step(s, a).m.next >= 0
    ensures NoneLate(TrackOf(s.tracks, u), TrackOf(Step(s, a).tracks, u))
  {
    hide TracksOk, WindowsOk, Timeline, KeepsUp, Ahead;
    match a
    case Push(c) => PushStaysAhead(s, c, u);
    case Begin(_, _, _) =>
    case Turn =>
      TurnStaysAhead(s, u);
      TurnLosesNothing(s, u);
    case Answer(_) =>
  }

  /**
   A live publisher loses nothing. Once its next frame is at or ahead of the cursor, a publisher
   that keeps up at every turn stays there and has no frame dropped as late, whatever is pushed
   by whom, also while `consume` runs unlocked.
   */
  lemma {:induction false} NoLateLoss(s: System, actions: seq<Action>, t: System, u: string)
    requires Inv(s) && s.m.next >= 0 && Ahead(s.m, u)
    requires Reaches(s, actions, t) && AlwaysKeepsUp(s, actions, u)
    ensures Ahead(t.m, u)
    ensures NoneLate(TrackOf(s.tracks, u), TrackOf(t.tracks, u))
    decreases |actions|
  {
    hide Inv, Step, KeepsUp, Ahead, Enabled, PhaseOk, MixerOk;
    if actions != [] {
      StepKeepsInv(s, actions[0]);
      StepStaysAhead(s, actions[0], u);
      NoLateLoss(Step(s, actions[0]), actions[1..], t, u);
      NoneLateTwice(TrackOf(s.tracks, u), TrackOf(Step(s, actions[0]).tracks, u), TrackOf(t.tracks, u));
    }
  }

  lemma NoneLateTwice(a: Track, b: Track, c: Track)
    requires NoneLate(a, b) && NoneLate(b, c)
    ensures NoneLate(a, c)
  {
    assert forall i :: 0 <= i < |b.fates| ==> c.fates[i] == b.fates[i];
  }

  // ----- calls of the mixer as runs -----

  function Pushes(cs: seq<PushCall>): (actions: seq<Action>)
    ensures |actions| == |cs|
  {
    seq(|cs|, k requires 0 <= k < |cs| => Push(cs[k]))
  }

  /**
   The actions are those of a drain that holds the lock in s: turn after turn, each window followed by
   the pushes made while `consume` runs and by its answer, in the order of the replies. It ends with a
   turn that emits nothing, answering true, or with a refusal, answering false.
   */
  ghost predicate Drains(s: System, rs: seq<Reply>, actions: seq<Action>, t: System, ok: bool)
    decreases |actions|
  {
    && s.phase.Holding? && MixerOk(s.m) && PhaseOk(s) && actions != [] && actions[0] == Turn
    && var s1 := Step(s, Turn);
       if s1.phase.Idle? then actions == [Turn] && t == s1 && s1.out == s.out && ok
       else
         var reply, later := if rs == [] then Reply([], true) else rs[0], if rs == [] then [] else rs[1..];
         var n := |reply.pushes| + 2;
         && |s1.out| == |s.out| + 1 && s.out <= s1.out
         && n <= |actions| && actions[1..n] == Pushes(reply.pushes) + [Answer(reply.accepted)]
         && exists s2 ::
              && Reaches(s1, actions[1..n], s2)
              && if reply.accepted then Drains(s2, later, actions[n..], t, ok)
                 else actions[n..] == [] && t == s2 && !ok
  }

  /** Pushes made one after the other while no drain holds the lock. */
  lemma {:induction false} PushesAreARun(s: System, cs: seq<PushCall>) returns (actions: seq<Action>, t: System)
    requires Inv(s) && !s.phase.Holding? && CallsOk(cs, s.m.channels)
    ensures actions == Pushes(cs) && Reaches(s, actions, t) && Inv(t)
    ensures t.m == PushAll(s.m, cs) && t.phase == s.phase && t.out == s.out
    decreases |cs|
  {
    hide Inv, PushResult, MixerOk, CallOk, Appends;
    InvBasics(s);
    if cs == [] {
      actions, t := [], s;
    } else {
      var a := Push(cs[0]);
      StepKeepsInv(s, a);
      StepKeepsFormat(s, a);
      actions, t := PushesAreARun(Step(s, a), cs[1..]);
      actions := [a] + actions;
      assert actions[1..] == Pushes(cs[1..]);
    }
  }

  lemma InvBasics(s: System)
    requires Inv(s)
    ensures MixerOk(s.m) && PhaseOk(s) && s.m.channels >= 1
  {
  }

  lemma OneStep(s: System, a: Action)
    requires MixerOk(s.m) && PhaseOk(s) && Enabled(s, a)
    ensures Reaches(s, [a], Step(s, a))
  {
    hide Step, Enabled, MixerOk, PhaseOk;
    assert Reaches(Step(s, a), [], Step(s, a));
  }

  lemma LastTurn(s: System, rs: seq<Reply>)
    requires MixerOk(s.m) && PhaseOk(s) && s.phase.Holding?
    requires Step(s, Turn).phase.Idle? && Step(s, Turn).out == s.out
    ensures Drains(s, rs, [Turn], Step(s, Turn), true)
  {
    hide Step, MixerOk, PhaseOk;
  }

  /** A turn that emits, the pushes and the answer, and what follows. */
  lemma TurnThenRest(s: System, rs: seq<Reply>, s3: System, rest: seq<Action>, t: System, ok: bool)
    requires MixerOk(s.m) && PhaseOk(s) && s.phase.Holding?
    requires var s1 := Step(s, Turn); !s1.phase.Idle? && |s1.out| == |s.out| + 1 && s.out <= s1.out
    requires var reply := HeadReply(rs);
      Reaches(Step(s, Turn), Pushes(reply.pushes) + [Answer(reply.accepted)], s3)
    requires if HeadReply(rs).accepted then Drains(s3, TailReplies(rs), rest, t, ok) else rest == [] && t == s3 && !ok
    ensures Drains(s, rs, [Turn] + ((Pushes(HeadReply(rs).pushes) + [Answer(HeadReply(rs).accepted)]) + rest), t, ok)
  {
    hide Step, MixerOk, PhaseOk, Reaches, Pushes;
    var reply := HeadReply(rs);
    var part := Pushes(reply.pushes) + [Answer(reply.accepted)];
    var n := |reply.pushes| + 2;
    var actions := [Turn] + (part + rest);
    assert |Pushes(reply.pushes)| == |reply.pushes| by { PushesLength(reply.pushes); }
    assert actions[1..n] == part && actions[n..] == rest;
  }

  lemma PushesLength(cs: seq<PushCall>)
    ensures |Pushes(cs)| == |cs|
  {
  }

  /** The turns of a drain loop with the pushes let in at each unlocked call. */
  lemma {:induction false} DrainLoopIsARun(s: System, rs: seq<Reply>) returns (actions: seq<Action>, t: System)
    requires Inv(s) && s.phase.Holding? && RepliesOk(rs, s.m.channels)
    ensures Reaches(s, actions, t) && Inv(t) && t.phase.Idle?
    ensures t.m == DrainLoop(s.m, s.phase.d, rs).m
    ensures t.out == s.out + DrainLoop(s.m, s.phase.d, rs).frames
    ensures Drains(s, rs, actions, t, DrainLoop(s.m, s.phase.d, rs).ok)
    decreases s.phase.d.end - s.m.next
  {
    hide Inv, DrainRound, MixerOk, Sweep, PushAll, LateTracks, MixTracks, AllFrom, Reaches, Drains, Pushes;
    InvBasics(s);
    var s1 := Step(s, Turn);
    StepKeepsInv(s, Turn);
    if s1.phase.Idle? {
      actions, t := [Turn], s1;
      OneStep(s, Turn);
      LastTurn(s, rs);
    } else {
      StepKeepsFormat(s, Turn);
      var pushes, s2 := PushesAreARun(s1, HeadReply(rs).pushes);
      InvBasics(s2);
      var a := Answer(HeadReply(rs).accepted);
      var s3 := Step(s2, a);
      StepKeepsInv(s2, a);
      OneStep(s2, a);
      RunsCompose(s1, pushes, s2, [a], s3);
      InvBasics(s1);
      var rest: seq<Action>, ok := [], false;
      t := s3;
      if !s3.phase.Idle? {
        rest, t := DrainLoopIsARun(s3, TailReplies(rs));
        ok := DrainLoop(s3.m, s3.phase.d, TailReplies(rs)).ok;
      } else {
        NoSteps(s3);
      }
      RunsCompose(s1, pushes + [a], s3, rest, t);
      OneStep(s, Turn);
      RunsCompose(s, [Turn], s1, pushes + [a] + rest, t);
      TurnThenRest(s, rs, s3, rest, t, ok);
      actions := [Turn] + ((pushes + [a]) + rest);
    }
  }

  lemma NoSteps(s: System)
    ensures Reaches(s, [], s)
  {
  }

  lemma {:induction false} RunsCompose(s: System, first: seq<Action>, m: System, second: seq<Action>, t: System)
    requires Reaches(s, first, m) && Reaches(m, second, t)
    ensures Reaches(s, first + second, t)
    decreases |first|
  {
    hide Step, MixerOk, PhaseOk, Enabled;
    if first == [] {
      assert first + second == second;
    } else {
      RunsCompose(Step(s, first[0]), first[1..], m, second, t);
      assert (first + second)[1..] == first[1..] + second;
    }
  }

  /**
   A `drain` call is a run, so everything proved about runs holds across calls of the mixer. Once the
   cursor is set, some publisher is known, the count is positive, and it is a flush or 40 ms have passed
   since the first push, the call begins a drain and works it through to its end.
   */
  lemma DrainIsARun(s: System, count: int, flush: bool, now: int, rs: seq<Reply>)
    returns (actions: seq<Action>, t: System)
    requires Inv(s) && s.phase.Idle? && RepliesOk(rs, s.m.channels)
    ensures Reaches(s, actions, t) && Inv(t) && t.phase.Idle?
    ensures t.m == DrainCall(s.m, count, flush, now, rs).m
    ensures t.out == s.out + DrainCall(s.m, count, flush, now, rs).frames
    ensures var due := s.m.next >= 0 && s.m.queues != map[] && (flush || now - s.m.start >= 40);
      var ok := DrainCall(s.m, count, flush, now, rs).ok;
      if due && count > 0 then
        && actions != [] && actions[0] == Begin(count, flush, now)
        && MixerOk(s.m) && PhaseOk(s) && Enabled(s, actions[0])
        && Step(s, actions[0]) == s.(phase := Holding(DrainParams(count, flush, now, Latest(s.m))))
        && Drains(Step(s, actions[0]), rs, actions[1..], t, ok)
      else actions == [] && t == s && (ok <==> !due)
  {
    hide Inv, MixerOk, DrainLoop, Latest, Drains, Reaches;
    InvBasics(s);
    var a := Begin(count, flush, now);
    if Starts(s.m, count, flush, now) {
      StepKeepsInv(s, a);
      var s1 := Step(s, a);
      actions, t := DrainLoopIsARun(s1, rs);
      OneStep(s, a);
      RunsCompose(s, [a], s1, actions, t);
      actions := [a] + actions;
    } else {
      actions, t := [], s;
      NoSteps(s);
      assert s.out + [] == s.out;
    }
  }

  /** Bounded work: a drain emits at most ceil(backlog / count) windows, whatever is pushed meanwhile. */
  lemma {:induction false} DrainIsBounded(m: Mixer, d: DrainParams, rs: seq<Reply>)
    requires MixerOk(m) && m.next >= 0 && d.count > 0 && RepliesOk(rs, m.channels)
    ensures var n := |DrainLoop(m, d, rs).frames|;
      n > 0 ==> (n - 1) * d.count < d.end - m.next
    decreases d.end - m.next
  {
    hide DrainRound, Resumed, Sweep, MixerOk, CallsOk;
    var r := DrainLoop(m, d, rs);
    if m.next < d.end && DrainRound(m, d).Emit? && HeadReply(rs).accepted {
      var m2 := Resumed(DrainRound(m, d).m, rs);
      MixerPositive(m);
      DrainIsBounded(m2, d, TailReplies(rs));
      var n := |r.frames|;
      if n > 1 { assert (n - 1) * d.count == (n - 2) * d.count + d.count; }
    }
  }
}
