/**
 What the audio mixer's steps mean. A publisher's queue is a run of frames whose first frame
 has index `first` on the common timeline, so that each queued frame has a fixed index.
 Everything the mixer promises is stated through these indices.
 */
module MixerState {
  import opened Sums
  import opened Frames
  import opened Limiter
  import opened Options

  const WAIT_MS := 40
  const SILENCE_MS := 1000

  type Frame = seq<Int16>

  datatype Queue = Queue(first: int, frames: seq<Frame>, lastArrival: int)

  /** A map entry that has not received anything yet. */
  const BLANK := Queue(-1, [], 0)

  datatype Mixer = Mixer(rate: int, channels: int, next: int, start: int, queues: map<string, Queue>)

  /** A frame as a publisher hands it over; `data` holds interleaved 16-bit words. */
  datatype AudioFrame = AudioFrame(valid: bool, rate: int, channels: int, data: seq<Int16>, timestampMs: nat)

  /** One `push` call; `resampled` is what the resampler would answer, None when it fails. */
  datatype PushCall = PushCall(user: string, frame: AudioFrame, resampled: Option<seq<Int16>>, now: int)

  /** A frame and its index on the timeline. */
  datatype Entry = Entry(index: int, frame: Frame)

  /** An emitted frame: `count` timeline indices from `start`, interleaved and limited. */
  datatype Window = Window(start: int, count: nat, pcm: seq<int>, timestampMs: int)

  /** The values a drain call fixes on entry. */
  datatype DrainParams = DrainParams(count: int, flush: bool, now: int, end: int)

  /** One turn of the drain loop: it either ends the loop or emits a window. */
  datatype Round = Finish(m: Mixer, sweep: bool) | Emit(m: Mixer, window: Window)

  // ----- queues -----

  predicate QueueOk(q: Queue, rate: int, channels: int) {
    && Rows(q.frames, channels)
    && |q.frames| <= rate / 2
    && q.first >= -1
    && (q.frames != [] ==> q.first >= 0)
  }

  predicate MixerOk(m: Mixer) {
    && m.rate >= 1 && m.channels >= 1 && m.next >= -1
    && forall u :: u in m.queues ==> QueueOk(m.queues[u], m.rate, m.channels)
  }

  function End(q: Queue): int { q.first + |q.frames| }

  /** The queue's frames with their timeline indices. */
  function Entries(q: Queue): seq<Entry> {
    Run(q.first, q.frames)
  }

  function Run(base: int, frames: seq<Frame>): (r: seq<Entry>)
    ensures |r| == |frames|
  {
    seq(|frames|, k requires 0 <= k < |frames| => Entry(base + k, frames[k]))
  }

  /** What the queue holds for a channel at a timeline index, silence where it holds nothing. */
  function Held(q: Queue, index: int, c: nat): int {
    var k := index - q.first;
    if 0 <= k < |q.frames| && c < |q.frames[k]| then q.frames[k][c] else 0
  }

  /** The queue without its first n frames. */
  function DropFrames(q: Queue, n: nat): Queue
    requires n <= |q.frames|
  {
    Queue(q.first + n, q.frames[n..], q.lastArrival)
  }

  /** Dropping frames never moves a remaining one on the timeline. */
  lemma DropKeepsIndices(q: Queue, n: nat)
    requires n <= |q.frames|
    ensures Entries(DropFrames(q, n)) == Entries(q)[n..]
  {
  }

  /** How many queued frames lie before timeline index t. */
  function FramesBefore(q: Queue, t: int): (n: nat)
    ensures n <= |q.frames|
  {
    if q.first >= t then 0 else if t - q.first <= |q.frames| then t - q.first else |q.frames|
  }

  /** The queue from timeline index t on. */
  function From(q: Queue, t: int): (r: Queue)
    ensures r.frames != [] ==> r.first >= t && End(r) == End(q)
    ensures r.first >= q.first && r.lastArrival == q.lastArrival
  {
    DropFrames(q, FramesBefore(q, t))
  }

  lemma FromOk(q: Queue, t: int, rate: int, channels: int)
    requires QueueOk(q, rate, channels)
    ensures QueueOk(From(q, t), rate, channels)
  {
  }

  // ----- push -----

  /** Rounds a * b / c to the nearest integer. */
  function Rescale(a: nat, b: nat, c: int): nat
    requires c >= 1
  {
    (a * b + c / 2) / c
  }

  predicate Accepts(f: AudioFrame) {
    f.valid && f.channels >= 1 && f.rate >= 1 && f.data != []
  }

  /** The resampler answers whole frames. */
  predicate CallOk(c: PushCall, channels: int)
    requires channels >= 1
  {
    c.resampled.Some? ==> Whole(c.resampled.value, channels)
  }

  /** The frames a push appends, None when the resampler fails. */
  function Converted(m: Mixer, c: PushCall): (r: Option<seq<Frame>>)
    requires m.channels >= 1
    ensures r.Some? ==> Rows(r.value, m.channels)
  {
    if c.frame.rate != m.rate || c.frame.channels != m.channels then
      if c.resampled.None? then None
      else
        ChunkRows(c.resampled.value, m.channels);
        Some(Chunk(c.resampled.value, m.channels))
    else
      ChunkRows(c.frame.data, m.channels);
      Some(Chunk(c.frame.data, m.channels))
  }

  function QueueOf(m: Mixer, u: string): Queue {
    if u in m.queues then m.queues[u] else BLANK
  }

  /** A frame arriving more than a tenth of a second after the queue's end starts it afresh. */
  predicate Reanchors(q: Queue, ts: int, rate: int) {
    q.first < 0 || ts > End(q) + rate / 10
  }

  function Anchored(q: Queue, ts: int, rate: int): Queue {
    if Reanchors(q, ts, rate) then Queue(ts, [], q.lastArrival) else q
  }

  function Appended(q: Queue, ts: int, frames: seq<Frame>, now: int, rate: int): Queue {
    Queue(Anchored(q, ts, rate).first, Anchored(q, ts, rate).frames + frames, now)
  }

  /** The frames by which a queue exceeds half a second. */
  function Excess(q: Queue, rate: int): (n: nat)
    ensures rate >= 1 ==> n <= |q.frames|
  {
    if |q.frames| > rate / 2 then |q.frames| - rate / 2 else 0
  }

  function Trimmed(q: Queue, rate: int): Queue
    requires rate >= 1
  {
    DropFrames(q, Excess(q, rate))
  }

  lemma AppendOk(q: Queue, ts: int, frames: seq<Frame>, now: int, rate: int, channels: int)
    requires rate >= 1 && ts >= 0 && QueueOk(q, rate, channels)
    requires Rows(frames, channels)
    ensures QueueOk(Trimmed(Appended(q, ts, frames, now, rate), rate), rate, channels)
  {
    assert Rows(Appended(q, ts, frames, now, rate).frames, channels);
  }

  datatype Pushed = Pushed(m: Mixer, ok: bool)

  /** `push`: the new mixer and the returned flag. */
  function PushResult(m: Mixer, c: PushCall): (r: Pushed)
    requires MixerOk(m) && CallOk(c, m.channels)
    ensures MixerOk(r.m) && r.m.rate == m.rate && r.m.channels == m.channels
    ensures m.next >= 0 ==> r.m.next == m.next
  {
    if !Accepts(c.frame) then Pushed(m, false)
    else
      var q := QueueOf(m, c.user);
      var frames := Converted(m, c);
      if frames.None? then Pushed(m.(queues := m.queues[c.user := q]), false)
      else
        var ts := Rescale(c.frame.timestampMs, m.rate, 1000);
        AppendOk(q, ts, frames.value, c.now, m.rate, m.channels);
        Pushed(Mixer(m.rate, m.channels,
               if m.next < 0 then ts else m.next,
               if m.next < 0 then c.now else m.start,
               m.queues[c.user := Trimmed(Appended(q, ts, frames.value, c.now, m.rate), m.rate)]), true)
  }

  // ----- drain -----

  ghost predicate Speaks(m: Mixer, u: string) {
    u in m.queues && m.queues[u].frames != []
  }

  /** e is the later of the cursor and the last end of a non-empty queue. */
  ghost predicate IsLatest(m: Mixer, e: int) {
    && e >= m.next
    && (forall u :: Speaks(m, u) ==> End(m.queues[u]) <= e)
    && (e == m.next || exists u :: Speaks(m, u) && End(m.queues[u]) == e)
  }

  /** e is the first index of a non-empty queue; only meaningful when there is one. */
  ghost predicate IsEarliest(m: Mixer, e: int) {
    && (forall u :: Speaks(m, u) ==> e <= m.queues[u].first)
    && (Silent(m) || exists u :: Speaks(m, u) && m.queues[u].first == e)
  }

  ghost predicate Silent(m: Mixer) {
    forall u :: !Speaks(m, u)
  }

  lemma {:induction false} LatestExists(m: Mixer)
    ensures exists e :: IsLatest(m, e)
    decreases |m.queues|
  {
    if u :| u in m.queues {
      var rest := m.(queues := m.queues - {u});
      LatestExists(rest);
      var e :| IsLatest(rest, e);
      assert forall v :: Speaks(m, v) ==> v == u || Speaks(rest, v);
      assert forall v :: Speaks(rest, v) ==> Speaks(m, v) && m.queues[v] == rest.queues[v];
      if Speaks(m, u) && End(m.queues[u]) > e {
        assert IsLatest(m, End(m.queues[u]));
      } else {
        assert IsLatest(m, e);
      }
    } else {
      assert IsLatest(m, m.next);
    }
  }

  lemma {:induction false} EarliestExists(m: Mixer)
    ensures exists e :: IsEarliest(m, e)
    decreases |m.queues|
  {
    if u :| u in m.queues {
      var rest := m.(queues := m.queues - {u});
      EarliestExists(rest);
      var e :| IsEarliest(rest, e);
      assert forall v :: Speaks(m, v) ==> v == u || Speaks(rest, v);
      assert forall v :: Speaks(rest, v) ==> Speaks(m, v) && m.queues[v] == rest.queues[v];
      if Speaks(m, u) && (Silent(rest) || m.queues[u].first < e) {
        assert IsEarliest(m, m.queues[u].first);
      } else {
        assert IsEarliest(m, e);
      }
    } else {
      assert IsEarliest(m, 0);
    }
  }

  /** The end of the current backlog. */
  ghost function Latest(m: Mixer): (e: int)
    ensures IsLatest(m, e)
  {
    LatestExists(m);
    var e :| IsLatest(m, e);
    e
  }

  ghost function Earliest(m: Mixer): (e: int)
    ensures IsEarliest(m, e)
  {
    EarliestExists(m);
    var e :| IsEarliest(m, e);
    e
  }

  /** Every queue from timeline index t on. */
  function AllFrom(m: Mixer, t: int): (r: Mixer)
    ensures r.rate == m.rate && r.channels == m.channels && r.next == m.next && r.start == m.start
    ensures MixerOk(m) ==> MixerOk(r)
  {
    var r := m.(queues := map u | u in m.queues :: From(m.queues[u], t));
    assert MixerOk(m) ==> MixerOk(r) by {
      if MixerOk(m) {
        forall u | u in r.queues ensures QueueOk(r.queues[u], r.rate, r.channels) {
          FromOk(m.queues[u], t, m.rate, m.channels);
        }
      }
    }
    r
  }

  /** A publisher still expected to complete the window ending at `end`. */
  predicate Awaited(q: Queue, end: int, now: int) {
    q.first < end && End(q) < end && now - q.lastArrival < WAIT_MS
  }

  /** The sum over all publishers of what each holds at a timeline index. */
  ghost function SumHeld(m: Mixer, index: int, c: nat): int {
    SumValues(map u | u in m.queues :: Held(m.queues[u], index, c))
  }

  /** The sums of a window, one row for each timeline index. */
  ghost function MixedRows(m: Mixer, count: nat): (rows: seq<seq<int>>)
    requires m.channels >= 1
    ensures |rows| == count && Rows(rows, m.channels)
  {
    seq(count, k requires 0 <= k < count =>
        seq(m.channels, c requires 0 <= c < m.channels => SumHeld(m, m.next + k, c)))
  }

  ghost function WindowAt(m: Mixer, count: nat): Window
    requires m.channels >= 1 && m.rate >= 1 && m.next >= 0
  {
    Window(m.next, count, LimitAll(Flatten(MixedRows(m, count))), Rescale(m.next, 1000, m.rate))
  }

  /** The cursor after skipping a silence of more than one second. */
  ghost function Jump(m: Mixer): Mixer {
    if Earliest(m) > m.next + m.rate then m.(next := Earliest(m)) else m
  }

  /** Whether the window of d.count frames at the cursor has to wait, and if so whether to sweep. */
  ghost predicate WaitsForSamples(late: Mixer, j: Mixer, d: DrainParams) {
    !d.flush && Latest(late) < j.next + d.count
  }

  ghost predicate SomeoneAwaited(m: Mixer, end: int, now: int) {
    exists u :: u in m.queues && Awaited(m.queues[u], end, now)
  }

  ghost predicate WaitsForPublisher(j: Mixer, d: DrainParams) {
    !d.flush && SomeoneAwaited(j, j.next + d.count, d.now)
  }

  /** One turn of the drain loop, `late` being the mixer without what lies behind the cursor. */
  ghost function RoundOf(late: Mixer, d: DrainParams): (r: Round)
    requires MixerOk(late) && late.next >= 0 && d.count > 0
    ensures MixerOk(r.m) && r.m.rate == late.rate && r.m.channels == late.channels && r.m.next >= late.next
    ensures r.Emit? ==> r.window.start >= late.next && r.window.count == d.count && r.m.next == r.window.start + d.count
  {
    if Latest(late) <= late.next || Earliest(late) >= d.end then Finish(late, true)
    else
      var j := Jump(late);
      if WaitsForSamples(late, j, d) then Finish(j, true)
      else if WaitsForPublisher(j, d) then Finish(j, false)
      else Emit(AllFrom(j, j.next + d.count).(next := j.next + d.count), WindowAt(j, d.count))
  }

  ghost function DrainRound(m: Mixer, d: DrainParams): (r: Round)
    requires MixerOk(m) && m.next >= 0 && d.count > 0
    ensures MixerOk(r.m) && r.m.rate == m.rate && r.m.channels == m.channels && r.m.next >= m.next
    ensures r.Emit? ==> r.window.start >= m.next && r.window.count == d.count && r.m.next == r.window.start + d.count
  {
    RoundOf(AllFrom(m, m.next), d)
  }

  lemma SomeoneSpeaks(m: Mixer)
    requires MixerOk(m) && m.next >= 0 && Latest(m) > m.next
    ensures !Silent(m) && Earliest(m) >= 0
  {
    var u :| Speaks(m, u) && End(m.queues[u]) == Latest(m);
    var v :| Speaks(m, v) && m.queues[v].first == Earliest(m);
  }

  lemma JumpOk(m: Mixer)
    requires MixerOk(m)
    ensures MixerOk(Jump(m)) && Jump(m).queues == m.queues && Jump(m).rate == m.rate && Jump(m).channels == m.channels
    ensures Jump(m).start == m.start && Jump(m).next == if Earliest(m) > m.next + m.rate then Earliest(m) else m.next
  {
  }

  /** The turn of the drain loop, case by case. */
  lemma RoundCases(m: Mixer, d: DrainParams)
    requires MixerOk(m) && m.next >= 0 && d.count > 0
    ensures var late := AllFrom(m, m.next);
      var j := Jump(late);
      DrainRound(m, d) ==
        if Latest(late) <= late.next || Earliest(late) >= d.end then Finish(late, true)
        else if !d.flush && Latest(late) < j.next + d.count then Finish(j, true)
        else if !d.flush && SomeoneAwaited(j, j.next + d.count, d.now) then Finish(j, false)
        else Emit(AllFrom(j, j.next + d.count).(next := j.next + d.count), WindowAt(j, d.count))
  {
    hide MixerOk, AllFrom, From, Jump, WindowAt, Latest, Earliest, IsLatest, IsEarliest, Silent, SomeoneAwaited;
    JumpOk(AllFrom(m, m.next));
  }

  predicate Stale(q: Queue, now: int) {
    q.frames == [] && now - q.lastArrival > SILENCE_MS
  }

  /** Publishers with nothing queued that have been silent for more than a second are forgotten. */
  function Sweep(m: Mixer, now: int): (r: Mixer)
    ensures MixerOk(m) ==> MixerOk(r)
  {
    m.(queues := map u | u in m.queues && !Stale(m.queues[u], now) :: m.queues[u])
  }

  /** What happens while `consume` runs unlocked: pushes by other threads, then its answer. */
  datatype Reply = Reply(pushes: seq<PushCall>, accepted: bool)

  datatype DrainResult = DrainResult(m: Mixer, frames: seq<Window>, ok: bool)

  predicate CallsOk(cs: seq<PushCall>, channels: int)
    requires channels >= 1
  {
    forall k :: 0 <= k < |cs| ==> CallOk(cs[k], channels)
  }

  predicate RepliesOk(rs: seq<Reply>, channels: int)
    requires channels >= 1
  {
    forall k :: 0 <= k < |rs| ==> CallsOk(rs[k].pushes, channels)
  }

  function PushAll(m: Mixer, cs: seq<PushCall>): (r: Mixer)
    requires MixerOk(m) && CallsOk(cs, m.channels)
    ensures MixerOk(r) && r.rate == m.rate && r.channels == m.channels
    ensures m.next >= 0 ==> r.next == m.next
    decreases |cs|
  {
    if cs == [] then m else PushAll(PushResult(m, cs[0]).m, cs[1..])
  }

  /** The answer to the next emission; a script that has run out accepts and stays quiet. */
  function HeadReply(rs: seq<Reply>): Reply {
    if rs == [] then Reply([], true) else rs[0]
  }

  function TailReplies(rs: seq<Reply>): seq<Reply> {
    if rs == [] then [] else rs[1..]
  }

  /** The mixer when `consume` returns. */
  ghost function Resumed(m: Mixer, rs: seq<Reply>): (r: Mixer)
    requires MixerOk(m) && RepliesOk(rs, m.channels)
    ensures MixerOk(r) && r.rate == m.rate && r.channels == m.channels && RepliesOk(TailReplies(rs), m.channels)
    ensures m.next >= 0 ==> r.next == m.next
  {
    hide PushAll, QueueOk, Whole;
    PushAll(m, HeadReply(rs).pushes)
  }

  /** The drain loop, with the pushes of other threads let in at each unlocked call. */
  ghost function DrainLoop(m: Mixer, d: DrainParams, rs: seq<Reply>): (r: DrainResult)
    requires MixerOk(m) && m.next >= 0 && d.count > 0 && RepliesOk(rs, m.channels)
    decreases d.end - m.next
  {
    hide DrainRound, Resumed, Sweep, QueueOk, CallsOk;
    if m.next >= d.end then DrainResult(Sweep(m, d.now), [], true)
    else
      match DrainRound(m, d)
      case Finish(m1, sweep) => DrainResult(if sweep then Sweep(m1, d.now) else m1, [], true)
      case Emit(m1, w) =>
        var m2 := Resumed(m1, rs);
        if !HeadReply(rs).accepted then DrainResult(m2, [w], false)
        else
          var rest := DrainLoop(m2, d, TailReplies(rs));
          DrainResult(rest.m, [w] + rest.frames, rest.ok)
  }

  /** `drain`. */
  ghost function DrainCall(m: Mixer, count: int, flush: bool, now: int, rs: seq<Reply>): (r: DrainResult)
    requires MixerOk(m) && RepliesOk(rs, m.channels)
  {
    if m.next < 0 || m.queues == map[] then DrainResult(m, [], true)
    else if !flush && now - m.start < WAIT_MS then DrainResult(m, [], true)
    else if count <= 0 then DrainResult(m, [], false)
    else DrainLoop(m, DrainParams(count, flush, now, Latest(m)), rs)
  }

  // ----- integer ranges -----

  const INT32_MAX := 2147483647

  ghost function HeldBy(queues: map<string, Queue>, keys: set<string>, index: int, c: nat): map<string, int> {
    map v | v in keys && v in queues :: Held(queues[v], index, c)
  }

  /**
   With at most 65535 publishers every intermediate sum, over whichever of them have been added
   so far, fits 32 bits together with its magnitude, and so does 64 bits for the scaled product.
   */
  lemma SumsFit(queues: map<string, Queue>, keys: set<string>, index: int, c: nat)
    requires |queues| <= 65535
    ensures var sum := SumValues(HeldBy(queues, keys, index, c));
      -INT32_MAX <= sum <= INT32_MAX && -0x8000_0000_0000_0000 <= sum * FULL_SCALE < 0x8000_0000_0000_0000
  {
    var part := HeldBy(queues, keys, index, c);
    assert part.Keys <= queues.Keys;
    SubsetSize(part.Keys, queues.Keys);
    SumBound(part);
  }

  lemma {:induction false} SubsetSize(a: set<string>, b: set<string>)
    requires a <= b
    ensures |a| <= |b|
    decreases |a|
  {
    if u :| u in a { SubsetSize(a - {u}, b - {u}); }
  }

  /** One more publisher at full negative scale makes a sum whose magnitude does not fit 32 bits. */
  lemma SumsOverflow(queues: map<string, Queue>, index: int, c: nat)
    requires |queues| == 65536 && forall u :: u in queues ==> Held(queues[u], index, c) == -32768
    ensures -SumValues(HeldBy(queues, queues.Keys, index, c)) > INT32_MAX
  {
    var all := HeldBy(queues, queues.Keys, index, c);
    assert all.Keys == queues.Keys;
    SumConstant(all, -32768);
  }
}
