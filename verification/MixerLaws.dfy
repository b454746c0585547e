/**
 What a push, a turn of the drain loop and the final sweep do to the queues, written out on the
 queues themselves.
 */
module MixerLaws {
  import opened Arith
  import opened Frames
  import opened MixerState
  import opened Options

  /** Timestamps are converted to the nearest unit. */
  lemma RescaleNearest(a: nat, b: nat, c: int)
    requires c >= 1
    ensures Rescale(a, b, c) * c - c / 2 <= a * b
    ensures a * b < Rescale(a, b, c) * c + c - c / 2
  {
    DivBounds(a * b + c / 2, c);
  }

  /** A rejected frame changes nothing; a failed conversion changes nothing but that the publisher is known. */
  lemma PushRefused(m: Mixer, c: PushCall)
    requires MixerOk(m) && CallOk(c, m.channels)
    ensures var f := c.frame;
      var bad := !f.valid || f.channels < 1 || f.rate < 1 || f.data == [];
      var converts := f.rate != m.rate || f.channels != m.channels;
      && (PushResult(m, c).ok <==> !bad && !(converts && c.resampled.None?))
      && (bad ==> PushResult(m, c).m == m)
      && (!bad && converts && c.resampled.None? ==>
            PushResult(m, c).m
            == m.(queues := m.queues[c.user := if c.user in m.queues then m.queues[c.user] else Queue(-1, [], 0)]))
  {
    hide MixerOk, QueueOk;
  }

  /**
   An accepted push. A frame up to a tenth of a second past the queue's end is appended at that end, so
   jitter moves nothing; a later one, or the first, starts the queue afresh at its own timestamp. Of the
   result the last half second is kept, and nobody else's queue changes.
   */
  lemma PushMeans(m: Mixer, c: PushCall, ts: int)
    requires MixerOk(m) && CallOk(c, m.channels) && PushResult(m, c).ok
    requires ts == (c.frame.timestampMs * m.rate + 500) / 1000
    ensures var f, r := c.frame, PushResult(m, c).m;
      var data := if f.rate != m.rate || f.channels != m.channels then c.resampled.value else f.data;
      var more := Chunk(data, m.channels);
      var known := c.user in m.queues && m.queues[c.user].first >= 0;
      var follows := known && ts <= m.queues[c.user].first + |m.queues[c.user].frames| + m.rate / 10;
      var all := if follows then m.queues[c.user].frames + more else more;
      var first := if follows then m.queues[c.user].first else ts;
      var lost := if |all| > m.rate / 2 then |all| - m.rate / 2 else 0;
      && r.queues.Keys == m.queues.Keys + {c.user}
      && (forall u :: u in m.queues && u != c.user ==> r.queues[u] == m.queues[u])
      && r.queues[c.user] == Queue(first + lost, all[lost..], c.now)
      && r.next == (if m.next < 0 then ts else m.next)
      && r.start == (if m.next < 0 then c.now else m.start)
      && r.rate == m.rate && r.channels == m.channels
  {
    hide *;
    AcceptedPush(m, c, ts);
    ConvertedIs(m, c);
    QueueOfIs(m, c.user);
    AppendMeans(QueueOf(m, c.user), ts, Converted(m, c).value, c.now, m.rate);
  }

  lemma QueueOfIs(m: Mixer, u: string)
    ensures QueueOf(m, u) == if u in m.queues then m.queues[u] else Queue(-1, [], 0)
  {
  }

  lemma ConvertedIs(m: Mixer, c: PushCall)
    requires m.channels >= 1 && Converted(m, c).Some?
    ensures var f := c.frame;
      Converted(m, c).value
      == Chunk(if f.rate != m.rate || f.channels != m.channels then c.resampled.value else f.data, m.channels)
  {
    hide Chunk;
  }

  lemma AcceptedPush(m: Mixer, c: PushCall, ts: int)
    requires MixerOk(m) && CallOk(c, m.channels) && PushResult(m, c).ok
    requires ts == (c.frame.timestampMs * m.rate + 500) / 1000
    ensures m.channels >= 1 && Converted(m, c).Some? && m.rate >= 1
    ensures PushResult(m, c).m
            == Mixer(m.rate, m.channels, if m.next < 0 then ts else m.next, if m.next < 0 then c.now else m.start,
                     m.queues[c.user := Trimmed(Appended(QueueOf(m, c.user), ts, Converted(m, c).value, c.now, m.rate),
                                                m.rate)])
  {
    hide QueueOk, Trimmed, Appended, Converted, QueueOf;
    assert Rescale(c.frame.timestampMs, m.rate, 1000) == ts;
    hide Rescale;
  }

  lemma AppendMeans(q: Queue, ts: int, frames: seq<Frame>, now: int, rate: int)
    requires rate >= 1
    ensures var follows := q.first >= 0 && ts <= q.first + |q.frames| + rate / 10;
      var all := if follows then q.frames + frames else frames;
      var first := if follows then q.first else ts;
      var lost := if |all| > rate / 2 then |all| - rate / 2 else 0;
      Trimmed(Appended(q, ts, frames, now, rate), rate) == Queue(first + lost, all[lost..], now)
  {
    AppendedIs(q, ts, frames, now, rate);
    TrimmedIs(Appended(q, ts, frames, now, rate), rate);
    hide Appended, Trimmed;
  }

  lemma AppendedIs(q: Queue, ts: int, frames: seq<Frame>, now: int, rate: int)
    requires rate >= 1
    ensures var follows := q.first >= 0 && ts <= q.first + |q.frames| + rate / 10;
      Appended(q, ts, frames, now, rate)
      == Queue(if follows then q.first else ts, if follows then q.frames + frames else frames, now)
  {
    assert [] + frames == frames;
  }

  lemma TrimmedIs(q: Queue, rate: int)
    requires rate >= 1
    ensures var lost := if |q.frames| > rate / 2 then |q.frames| - rate / 2 else 0;
      Trimmed(q, rate) == Queue(q.first + lost, q.frames[lost..], q.lastArrival)
  {
  }

  /** The publisher holds something at or after the cursor. */
  predicate Alive(m: Mixer, u: string) {
    u in m.queues && m.queues[u].frames != [] && m.queues[u].first + |m.queues[u].frames| > m.next
  }

  /** The index at which the publisher's next sample is mixed, at the earliest. */
  function NextOf(m: Mixer, u: string): int
    requires u in m.queues
  {
    Max(m.queues[u].first, m.next)
  }

  lemma AliveSpeaks(m: Mixer, u: string)
    ensures Alive(m, u) <==> Speaks(AllFrom(m, m.next), u)
    ensures u in m.queues ==>
              && u in AllFrom(m, m.next).queues
              && End(AllFrom(m, m.next).queues[u]) == m.queues[u].first + |m.queues[u].frames|
    ensures Alive(m, u) ==> AllFrom(m, m.next).queues[u].first == NextOf(m, u)
  {
  }

  /** Someone's queue reaches index e. */
  predicate Reached(m: Mixer, e: int) {
    exists u :: u in m.queues && Alive(m, u) && m.queues[u].first + |m.queues[u].frames| >= e
  }

  lemma LatestIs(m: Mixer, e: int)
    requires MixerOk(m) && e > m.next
    ensures Latest(AllFrom(m, m.next)) >= e <==> Reached(m, e)
  {
    hide From, Silent, IsEarliest;
    var late := AllFrom(m, m.next);
    forall u ensures (Alive(m, u) <==> Speaks(late, u)) && (u in m.queues ==>
                       u in late.queues && End(late.queues[u]) == m.queues[u].first + |m.queues[u].frames|)
    {
      AliveSpeaks(m, u);
    }
    hide AllFrom, Alive, Speaks, MixerOk;
    if Latest(late) >= e {
      var u :| Speaks(late, u) && End(late.queues[u]) == Latest(late);
      assert Alive(m, u);
    }
  }

  /** Every publisher has fallen silent before index e. */
  predicate NobodyBefore(m: Mixer, e: int) {
    forall u :: u in m.queues && Alive(m, u) ==> NextOf(m, u) >= e
  }

  /** Where the next window starts: at the cursor, or at the next sample after more than a second of silence. */
  ghost predicate StartsAt(m: Mixer, start: int) {
    if NobodyBefore(m, m.next + m.rate + 1)
    then NobodyBefore(m, start) && exists u :: u in m.queues && Alive(m, u) && NextOf(m, u) == start
    else start == m.next
  }

  lemma EarliestIs(m: Mixer, e: int)
    requires MixerOk(m) && exists u :: Alive(m, u)
    ensures Earliest(AllFrom(m, m.next)) >= e <==> NobodyBefore(m, e)
    ensures exists u :: u in m.queues && Alive(m, u) && NextOf(m, u) == Earliest(AllFrom(m, m.next))
  {
    hide From, IsLatest, Latest;
    var late := AllFrom(m, m.next);
    forall u ensures (Alive(m, u) <==> Speaks(late, u)) && (Alive(m, u) ==> late.queues[u].first == NextOf(m, u)) {
      AliveSpeaks(m, u);
    }
    hide AllFrom, MixerOk, NextOf;
    assert !Silent(late);
    var u :| Speaks(late, u) && late.queues[u].first == Earliest(late);
    assert Alive(m, u);
  }

  /** Someone still expected: known, not at the window's end yet, and heard from less than 40 ms ago. */
  predicate Expected(m: Mixer, u: string, end: int, now: int) {
    u in m.queues && m.queues[u].first + |m.queues[u].frames| < end && now - m.queues[u].lastArrival < 40
  }

  lemma AwaitedIs(m: Mixer, end: int, now: int)
    ensures SomeoneAwaited(AllFrom(m, m.next), end, now) <==> exists u :: Expected(m, u, end, now)
  {
    var late := AllFrom(m, m.next);
    forall u | u in m.queues ensures Awaited(late.queues[u], end, now) <==> Expected(m, u, end, now) {
      var q := m.queues[u];
      assert late.queues[u] == From(q, m.next);
      assert |late.queues[u].frames| >= 0;
    }
    if u :| Expected(m, u, end, now) { assert Awaited(late.queues[u], end, now); }
    if SomeoneAwaited(late, end, now) {
      var u :| u in late.queues && Awaited(late.queues[u], end, now);
      assert Expected(m, u, end, now);
    }
  }

  /** The queue without what lies before index t. */
  function Cut(q: Queue, t: int): Queue {
    var n := if t <= q.first then 0 else if t - q.first < |q.frames| then t - q.first else |q.frames|;
    Queue(q.first + n, q.frames[n..], q.lastArrival)
  }

  predicate AllCut(m: Mixer, r: Mixer, t: int) {
    r.queues.Keys == m.queues.Keys && forall u :: u in m.queues ==> r.queues[u] == Cut(m.queues[u], t)
  }

  lemma CutAtCursor(m: Mixer, r: Mixer)
    requires r.queues == AllFrom(m, m.next).queues
    ensures AllCut(m, r, m.next)
  {
  }

  lemma CutTwice(m: Mixer, r: Mixer, t: int)
    requires t >= m.next && r.queues == AllFrom(AllFrom(m, m.next), t).queues
    ensures AllCut(m, r, t)
  {
    hide From, Cut;
    forall u | u in m.queues ensures From(From(m.queues[u], m.next), t) == Cut(m.queues[u], t) {
      FromTwice(m.queues[u], m.next, t);
    }
  }

  lemma FromTwice(q: Queue, a: int, b: int)
    requires a <= b
    ensures From(From(q, a), b) == Cut(q, b)
  {
    var n := FramesBefore(q, a);
    var k := FramesBefore(From(q, a), b);
    assert q.frames[n..][k..] == q.frames[n + k..];
  }

  /** One turn of the drain loop: what it emits, or why it ends, from the queues before it. */
  lemma TurnMeans(m: Mixer, d: DrainParams) returns (start: int)
    requires MixerOk(m) && m.next >= 0 && d.count > 0
    ensures var r := DrainRound(m, d);
      if NobodyBefore(m, d.end) || (forall u :: !Alive(m, u)) then
        r.Finish? && r.sweep && r.m.next == m.next && AllCut(m, r.m, m.next)
      else
        && StartsAt(m, start) && start >= m.next
        && var end := start + d.count;
           if !d.flush && !Reached(m, end) then
             r.Finish? && r.sweep && r.m.next == start && AllCut(m, r.m, m.next)
           else if !d.flush && exists u :: Expected(m, u, end, d.now) then
             r.Finish? && !r.sweep && r.m.next == start && AllCut(m, r.m, m.next)
           else
             && r.Emit? && r.window.start == start && r.window.count == d.count
             && r.m.next == end && AllCut(m, r.m, end)
  {
    hide WindowAt, From, MixerOk, DrainRound, AllFrom, Latest, Earliest, IsLatest, IsEarliest, SomeoneAwaited,
         AllCut, Alive, NextOf, Expected, NobodyBefore, Reached, Silent;
    RoundCases(m, d);
    var late := AllFrom(m, m.next);
    JumpOk(late);
    FromBasics(m);
    if exists u :: Alive(m, u) {
      SomeoneIsLate(m);
      EarliestIs(m, d.end);
      EarliestIs(m, m.next + m.rate + 1);
      EarliestIs(m, Earliest(late));
    } else {
      NobodyIsLate(m);
    }
    start := if Earliest(late) > m.next + m.rate then Earliest(late) else m.next;
    LatestIs(m, start + d.count);
    AwaitedIs(m, start + d.count, d.now);
    var r := DrainRound(m, d);
    SameQueues(late, start, start + d.count);
    SameAwaited(late, start, start + d.count, d.now);
    if r.Emit? {
      assert r.m.next == start + d.count;
      assert r.m.queues == AllFrom(late, start + d.count).queues;
      CutTwice(m, r.m, start + d.count);
    } else { CutAtCursor(m, r.m); }
  }

  lemma FromBasics(m: Mixer)
    requires MixerOk(m)
    ensures var late := AllFrom(m, m.next);
      MixerOk(late) && late.next == m.next && late.rate == m.rate && m.rate >= 1
  {
    hide From, QueueOk;
  }

  lemma SameQueues(m: Mixer, next: int, t: int)
    ensures AllFrom(m.(next := next), t).queues == AllFrom(m, t).queues
  {
    hide From;
  }

  lemma SameAwaited(m: Mixer, next: int, end: int, now: int)
    ensures SomeoneAwaited(m.(next := next), end, now) <==> SomeoneAwaited(m, end, now)
  {
    hide Awaited;
  }

  lemma SomeoneIsLate(m: Mixer)
    requires MixerOk(m) && exists u :: Alive(m, u)
    ensures Latest(AllFrom(m, m.next)) > m.next
  {
    LatestIs(m, m.next + 1);
  }

  lemma NobodyIsLate(m: Mixer)
    requires MixerOk(m) && forall u :: !Alive(m, u)
    ensures Latest(AllFrom(m, m.next)) <= m.next
  {
    LatestIs(m, m.next + 1);
  }

  /** The final sweep forgets exactly the publishers with nothing queued and quiet for more than a second. */
  lemma SweepMeans(m: Mixer, now: int, u: string)
    ensures var r := Sweep(m, now);
      && (u in r.queues <==> u in m.queues && (m.queues[u].frames != [] || now - m.queues[u].lastArrival <= 1000))
      && (u in r.queues ==> r.queues[u] == m.queues[u])
      && r.next == m.next && r.start == m.start && r.rate == m.rate && r.channels == m.channels
  {
  }
}
