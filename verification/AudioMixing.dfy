/**
 `AudioMixer` with its loops, each proved against the step it performs in `MixerState`.

 A publisher's samples are kept interleaved, every frame pop removes `channels` of them one by
 one, queues are visited in an arbitrary order, and the pushes that other threads make while
 `consume` runs unlocked come in as a script.
 */
module AudioMixing {
  import opened Arith
  import opened Sums
  import opened Frames
  import opened Limiter
  import opened MixerState
  import opened Options

  /** A publisher's interleaved samples and the timeline index of the first frame. */
  datatype Input = Input(first: int, samples: seq<Int16>, lastArrival: int)

  /** The queue of frames that the interleaved samples stand for. */
  function Abs(i: Input, channels: int): Queue
    requires channels >= 1
  {
    Queue(i.first, Chunk(i.samples, channels), i.lastArrival)
  }

  function InputEnd(i: Input, channels: int): (e: int)
    requires channels >= 1
    ensures e == End(Abs(i, channels))
  {
    WholeIsMultiple(i.samples, channels);
    i.first + |i.samples| / channels
  }

  /** The first frame of a queue that is not empty. */
  lemma FirstFrame(s: seq<Int16>, channels: int)
    requires channels >= 1 && Whole(s, channels)
    ensures s == [] <==> Chunk(s, channels) == []
    ensures s != [] ==> |s| >= channels && Whole(s[channels..], channels)
                        && Chunk(s, channels) == [s[..channels]] + Chunk(s[channels..], channels)
  {
  }

  method PopFrame(samples: seq<Int16>, channels: int) returns (rest: seq<Int16>)
    requires 1 <= channels <= |samples|
    ensures rest == samples[channels..]
  {
    rest := samples;
    for ch := 0 to channels
      invariant rest == samples[ch..]
    {
      rest := rest[1..];
    }
  }

  method DropBefore(input: Input, t: int, channels: int) returns (r: Input)
    requires channels >= 1 && Whole(input.samples, channels)
    ensures Whole(r.samples, channels) && Abs(r, channels) == From(Abs(input, channels), t)
  {
    hide Whole, Chunk, From;
    var first, samples := input.first, input.samples;
    ghost var frames, n := Chunk(samples, channels), 0;
    FirstFrame(samples, channels);
    while samples != [] && first < t
      invariant samples == [] <==> Chunk(samples, channels) == []
      invariant Whole(samples, channels) && first == input.first + n
      invariant 0 <= n <= |frames| && (n == 0 || first <= t)
      invariant Chunk(samples, channels) == frames[n..]
      decreases |samples|
    {
      FirstFrame(samples, channels);
      samples := PopFrame(samples, channels);
      first := first + 1;
      n := n + 1;
      FirstFrame(samples, channels);
    }
    r := Input(first, samples, input.lastArrival);
    DroppedIsFrom(Abs(input, channels), t, n);
  }

  /** Dropping frames while they lie before t leaves the queue from t on. */
  lemma DroppedIsFrom(q: Queue, t: int, n: nat)
    requires n <= |q.frames| && (n == 0 || q.first + n <= t) && (n == |q.frames| || q.first + n >= t)
    ensures DropFrames(q, n) == From(q, t)
  {
  }

  method TrimHalfSecond(input: Input, rate: int, channels: int) returns (r: Input)
    requires channels >= 1 && rate >= 1 && Whole(input.samples, channels)
    ensures Whole(r.samples, channels) && Abs(r, channels) == Trimmed(Abs(input, channels), rate)
  {
    hide Whole, Chunk;
    var first, samples := input.first, input.samples;
    var limit := rate / 2 * channels;
    ghost var frames, n := Chunk(samples, channels), 0;
    LongerThan(samples, rate / 2, channels);
    while |samples| > limit
      invariant Whole(samples, channels) && first == input.first + n
      invariant 0 <= n <= Excess(Abs(input, channels), rate)
      invariant Chunk(samples, channels) == frames[n..]
      invariant |samples| > limit <==> |frames| - n > rate / 2
      decreases |samples|
    {
      FirstFrame(samples, channels);
      samples := PopFrame(samples, channels);
      first := first + 1;
      n := n + 1;
      LongerThan(samples, rate / 2, channels);
    }
    r := Input(first, samples, input.lastArrival);
  }

  lemma LongerThan(s: seq<Int16>, half: nat, channels: int)
    requires channels >= 1 && Whole(s, channels)
    ensures half * channels >= 0
    ensures |s| > half * channels <==> |Chunk(s, channels)| > half
  {
    ChunkRows(s, channels);
    MulOrder(half, |Chunk(s, channels)|, channels);
    MulMono(0, half, channels);
  }

  function Plus(a: seq<int>, b: seq<int>): (r: seq<int>)
    requires |a| == |b|
    ensures |r| == |a|
  {
    seq(|a|, c requires 0 <= c < |a| => a[c] + b[c])
  }

  /** Adds the frame at the front of the queue into the window at `offset`. */
  method MixFrame(mixed: array<int>, offset: nat, samples: seq<Int16>, channels: int) returns (rest: seq<Int16>)
    requires 1 <= channels <= |samples| && offset + channels <= mixed.Length
    modifies mixed
    ensures rest == samples[channels..]
    ensures mixed[..] == old(mixed[..offset]) + Plus(old(mixed[offset..offset + channels]), samples[..channels])
                         + old(mixed[offset + channels..])
  {
    rest := samples;
    for ch := 0 to channels
      invariant rest == samples[ch..]
      invariant forall q :: 0 <= q < mixed.Length ==>
                  mixed[q] == old(mixed[q]) + (if offset <= q < offset + ch then samples[q - offset] else 0)
    {
      mixed[offset + ch] := mixed[offset + ch] + rest[0];
      rest := rest[1..];
    }
  }

  /** Adds the frame at the front of the queue into row k of the window. */
  method MixAt(mixed: array<int>, ghost rows: seq<seq<int>>, k: nat, samples: seq<Int16>, channels: int)
    returns (rest: seq<Int16>, ghost row: seq<int>)
    requires 1 <= channels <= |samples| && k < |rows| && Rows(rows, channels) && mixed[..] == Flatten(rows)
    modifies mixed
    ensures rest == samples[channels..]
    ensures row == Plus(rows[k], samples[..channels]) && mixed[..] == Flatten(rows[k := row])
  {
    hide Flatten;
    row := Plus(rows[k], samples[..channels]);
    FlattenUpdate(rows, channels, k, row);
    rest := MixFrame(mixed, k * channels, samples, channels);
  }

  /** after is before with the queue's part of the window at `next` added, up to its n-th frame. */
  ghost predicate Added(before: seq<seq<int>>, after: seq<seq<int>>, q: Queue, n: int, next: int, channels: int) {
    && |after| == |before| && Rows(after, channels) && Rows(before, channels)
    && forall k, c :: 0 <= k < |before| && 0 <= c < channels ==>
         after[k][c] == before[k][c] + (if 0 <= next + k - q.first < n then Held(q, next + k, c) else 0)
  }

  lemma AddedGrows(before: seq<seq<int>>, after: seq<seq<int>>, q: Queue, n: nat, next: int,
                   channels: int, row: seq<int>)
    requires Added(before, after, q, n, next, channels)
    requires n < |q.frames| && |q.frames[n]| == channels && 0 <= q.first + n - next < |after|
    requires row == Plus(after[q.first + n - next], q.frames[n])
    ensures Added(before, after[q.first + n - next := row], q, n + 1, next, channels)
  {
  }

  lemma AddedAll(before: seq<seq<int>>, after: seq<seq<int>>, q: Queue, next: int, end: int, channels: int)
    requires |before| == end - next && Added(before, after, q, FramesBefore(q, end), next, channels)
    ensures forall k, c :: 0 <= k < |before| && 0 <= c < channels ==> after[k][c] == before[k][c] + Held(q, next + k, c)
    ensures |after| == |before| && Rows(after, channels)
  {
  }

  /** Adds a queue's part of the window [next, end) into `mixed`. */
  method MixInput(mixed: array<int>, ghost rows: seq<seq<int>>, input: Input, next: int, end: int, channels: int)
    returns (r: Input, ghost after: seq<seq<int>>)
    requires channels >= 1 && Whole(input.samples, channels)
    requires |rows| == end - next && Rows(rows, channels) && mixed[..] == Flatten(rows)
    requires input.samples != [] ==> input.first >= next
    modifies mixed
    ensures Whole(r.samples, channels) && Abs(r, channels) == From(Abs(input, channels), end)
    ensures |after| == |rows| && Rows(after, channels) && mixed[..] == Flatten(after)
    ensures forall k, c :: 0 <= k < |rows| && 0 <= c < channels ==>
              after[k][c] == rows[k][c] + Held(Abs(input, channels), next + k, c)
  {
    hide Flatten, Added, Held, Whole, Chunk;
    FirstFrame(input.samples, channels);
    var first, samples := input.first, input.samples;
    ghost var q, n := Abs(input, channels), 0;
    after := rows;
    AddedNothing(rows, q, next, channels);
    ChunkRows(input.samples, channels);
    while samples != [] && first < end
      invariant Whole(samples, channels) && first == input.first + n
      invariant 0 <= n <= FramesBefore(q, end)
      invariant Chunk(samples, channels) == q.frames[n..]
      invariant samples == [] <==> Chunk(samples, channels) == []
      invariant Added(rows, after, q, n, next, channels) && mixed[..] == Flatten(after)
      decreases |samples|
    {
      FirstFrame(samples, channels);
      ghost var k := first - next;
      AddedRows(rows, after, q, n, next, channels);
      assert Chunk(samples, channels)[0] == samples[..channels];
      ghost var row;
      samples, row := MixAt(mixed, after, first - next, samples, channels);
      AddedGrows(rows, after, q, n, next, channels, row);
      after := after[k := row];
      first := first + 1;
      n := n + 1;
      FirstFrame(samples, channels);
    }
    AddedAll(rows, after, q, next, end, channels);
    r := Input(first, samples, input.lastArrival);
  }

  lemma AddedRows(before: seq<seq<int>>, after: seq<seq<int>>, q: Queue, n: nat, next: int, channels: int)
    requires Added(before, after, q, n, next, channels)
    ensures |after| == |before| && Rows(after, channels)
  {
  }

  lemma AddedNothing(rows: seq<seq<int>>, q: Queue, next: int, channels: int)
    requires Rows(rows, channels)
    ensures Added(rows, rows, q, 0, next, channels)
  {
  }

  method LimitPeaks(mixed: array<int>) returns (pcm: seq<int>)
    ensures pcm == LimitAll(mixed[..])
  {
    var peak := FULL_SCALE;
    for k := 0 to mixed.Length
      invariant peak == Peak(mixed[..k])
    {
      assert mixed[..k + 1][..k] == mixed[..k];
      peak := Max(peak, Magnitude(mixed[k]));
    }
    assert mixed[..mixed.Length] == mixed[..];
    pcm := [];
    for k := 0 to mixed.Length
      invariant |pcm| == k
      invariant forall j :: 0 <= j < k ==> pcm[j] == Limit(mixed[j], peak)
    {
      pcm := pcm + [Limit(mixed[k], peak)];
    }
  }

  // ----- all publishers -----

  lemma HeldByPick(queues: map<string, Queue>, keys: set<string>, u: string, index: int, c: nat)
    requires u in queues && u !in keys
    ensures SumValues(HeldBy(queues, keys + {u}, index, c))
            == SumValues(HeldBy(queues, keys, index, c)) + Held(queues[u], index, c)
  {
    var more := HeldBy(queues, keys + {u}, index, c);
    SumPick(more, u);
    assert more - {u} == HeldBy(queues, keys, index, c);
  }

  /** Row k, channel c of the window holds the sum over the publishers in keys. */
  ghost predicate SumsOf(rows: seq<seq<int>>, queues: map<string, Queue>, keys: set<string>, next: int, channels: int) {
    && Rows(rows, channels)
    && forall k, c :: 0 <= k < |rows| && 0 <= c < channels ==>
         rows[k][c] == SumValues(HeldBy(queues, keys, next + k, c))
  }

  lemma SumsGrow(rows: seq<seq<int>>, after: seq<seq<int>>, queues: map<string, Queue>, keys: set<string>,
                 u: string, next: int, channels: int)
    requires SumsOf(rows, queues, keys, next, channels) && u in queues && u !in keys
    requires |after| == |rows| && Rows(after, channels)
    requires forall k, c :: 0 <= k < |rows| && 0 <= c < channels ==>
               after[k][c] == rows[k][c] + Held(queues[u], next + k, c)
    ensures SumsOf(after, queues, keys + {u}, next, channels)
  {
    hide SumValues, HeldBy, Held;
    forall k, c | 0 <= k < |rows| && 0 <= c < channels
      ensures after[k][c] == SumValues(HeldBy(queues, keys + {u}, next + k, c))
    {
      HeldByPick(queues, keys, u, next + k, c);
    }
  }

  lemma SumsAreMixed(rows: seq<seq<int>>, m: Mixer, count: nat)
    requires m.channels >= 1 && |rows| == count && SumsOf(rows, m.queues, m.queues.Keys, m.next, m.channels)
    ensures rows == MixedRows(m, count)
  {
    forall k | 0 <= k < count ensures rows[k] == MixedRows(m, count)[k] {
      forall c | 0 <= c < m.channels ensures rows[k][c] == MixedRows(m, count)[k][c] {
        assert HeldBy(m.queues, m.queues.Keys, m.next + k, c)
               == map u | u in m.queues :: Held(m.queues[u], m.next + k, c);
        assert MixedRows(m, count)[k][c] == SumHeld(m, m.next + k, c);
      }
    }
  }

  function Zeros(count: nat, channels: nat): (rows: seq<seq<int>>)
    ensures |rows| == count && Rows(rows, channels)
    ensures forall k, c :: 0 <= k < count && 0 <= c < channels ==> rows[k][c] == 0
  {
    seq(count, _ => seq(channels, _ => 0))
  }

  /** A window of silence holds the sum over nobody. */
  lemma Silence(queues: map<string, Queue>, next: int, count: nat, channels: nat)
    ensures |Flatten(Zeros(count, channels))| == count * channels
    ensures forall q :: 0 <= q < |Flatten(Zeros(count, channels))| ==> Flatten(Zeros(count, channels))[q] == 0
    ensures SumsOf(Zeros(count, channels), queues, {}, next, channels)
  {
    var zeros := Zeros(count, channels);
    FlattenLength(zeros, channels);
    FlattenZeros(zeros);
    forall k, c | 0 <= k < count && 0 <= c < channels
      ensures zeros[k][c] == SumValues(HeldBy(queues, {}, next + k, c))
    {
      assert HeldBy(queues, {}, next + k, c) == map[];
    }
  }

  lemma {:induction false} FlattenZeros(rows: seq<seq<int>>)
    requires forall k, c :: 0 <= k < |rows| && 0 <= c < |rows[k]| ==> rows[k][c] == 0
    ensures forall q :: 0 <= q < |Flatten(rows)| ==> Flatten(rows)[q] == 0
    decreases |rows|
  {
    if rows != [] {
      forall k, c | 0 <= k < |rows| - 1 && 0 <= c < |rows[1..][k]| ensures rows[1..][k][c] == 0 {
        assert rows[1..][k] == rows[k + 1];
      }
      FlattenZeros(rows[1..]);
      assert forall c :: 0 <= c < |rows[0]| ==> rows[0][c] == 0;
    }
  }

  /** inputs stand for queues. */
  ghost predicate Stands(inputs: map<string, Input>, queues: map<string, Queue>, channels: int)
    requires channels >= 1
  {
    && inputs.Keys == queues.Keys
    && forall v :: v in inputs ==> Whole(inputs[v].samples, channels) && Abs(inputs[v], channels) == queues[v]
  }

  /** The queues once the publishers in done have given up everything before `end`. */
  function Given(queues: map<string, Queue>, done: set<string>, end: int): (r: map<string, Queue>)
    ensures r.Keys == queues.Keys
  {
    map v | v in queues :: if v in done then From(queues[v], end) else queues[v]
  }

  lemma GiveOne(inputs: map<string, Input>, queues: map<string, Queue>, done: set<string>, u: string, input: Input,
                end: int, channels: int)
    requires channels >= 1 && u in queues && u !in done && Stands(inputs, Given(queues, done, end), channels)
    requires Whole(input.samples, channels) && Abs(input, channels) == From(queues[u], end)
    ensures Stands(inputs[u := input], Given(queues, done + {u}, end), channels)
    ensures Given(queues, done + {u}, end) == Given(queues, done, end)[u := From(queues[u], end)]
  {
  }

  lemma GiveAll(m: Mixer, end: int)
    ensures Given(m.queues, m.queues.Keys, end) == AllFrom(m, end).queues
    ensures Given(m.queues, {}, end) == m.queues
  {
  }

  /** What a publisher still to be visited holds. */
  lemma NotYetGiven(inputs: map<string, Input>, queues: map<string, Queue>, done: set<string>, end: int, channels: int)
    requires channels >= 1 && Stands(inputs, Given(queues, done, end), channels)
    ensures inputs.Keys == queues.Keys
    ensures forall u :: u in inputs && u !in done ==>
              Whole(inputs[u].samples, channels) && Abs(inputs[u], channels) == queues[u]
  {
  }

  lemma StandsKeys(inputs: map<string, Input>, queues: map<string, Queue>, channels: int)
    requires channels >= 1 && Stands(inputs, queues, channels)
    ensures inputs.Keys == queues.Keys
    ensures forall u :: u in inputs ==> Whole(inputs[u].samples, channels) && Abs(inputs[u], channels) == queues[u]
  {
  }

  lemma StandsUpdate(inputs: map<string, Input>, queues: map<string, Queue>, u: string, input: Input, channels: int)
    requires channels >= 1 && Stands(inputs, queues, channels) && Whole(input.samples, channels)
    ensures Stands(inputs[u := input], queues[u := Abs(input, channels)], channels)
  {
  }

  /** A publisher's entry is created on its first push. */
  lemma StandsInput(inputs: map<string, Input>, m: Mixer, u: string, input: Input)
    requires m.channels >= 1 && Stands(inputs, m.queues, m.channels)
    requires input == if u in inputs then inputs[u] else Input(-1, [], 0)
    ensures Whole(input.samples, m.channels) && Abs(input, m.channels) == QueueOf(m, u)
    ensures Stands(inputs[u := input], m.queues[u := QueueOf(m, u)], m.channels)
  {
  }

  /** Once late frames are gone and a silence is skipped, no queued frame lies behind the cursor. */
  lemma NothingBehind(m: Mixer)
    ensures var j := Jump(AllFrom(m, m.next));
      forall u :: u in j.queues && j.queues[u].frames != [] ==> j.queues[u].first >= j.next
  {
    var late := AllFrom(m, m.next);
    forall u | u in late.queues && late.queues[u].frames != [] ensures late.queues[u].first >= Jump(late).next {
      assert Speaks(late, u);
    }
  }

  lemma MovedOk(m: Mixer, next: int)
    requires MixerOk(m) && next >= -1
    ensures MixerOk(m.(next := next))
  {
  }

  lemma MixerBasics(m: Mixer)
    requires MixerOk(m)
    ensures m.rate >= 1 && m.channels >= 1 && m.next >= -1
  {
  }

  /** Mixes every queue's part of the window [next, end) into `mixed`, which starts silent. */
  method MixInputs(mixed: array<int>, ghost zeros: seq<seq<int>>, inputs: map<string, Input>,
                   ghost queues: map<string, Queue>, next: int, end: int, channels: int)
    returns (r: map<string, Input>, ghost rows: seq<seq<int>>)
    requires channels >= 1 && |zeros| == end - next && mixed[..] == Flatten(zeros)
    requires SumsOf(zeros, queues, {}, next, channels)
    requires Stands(inputs, Given(queues, {}, end), channels)
    requires forall u :: u in queues && queues[u].frames != [] ==> queues[u].first >= next
    modifies mixed
    ensures Stands(r, Given(queues, queues.Keys, end), channels)
    ensures |rows| == end - next && mixed[..] == Flatten(rows) && SumsOf(rows, queues, queues.Keys, next, channels)
  {
    hide Stands, Given, From, Held, SumsOf, Flatten;
    r := inputs;
    rows := zeros;
    NotYetGiven(inputs, queues, {}, end, channels);
    var rest := inputs.Keys;
    ghost var done: set<string> := {};
    while rest != {}
      invariant rest <= queues.Keys && done == queues.Keys - rest
      invariant Stands(r, Given(queues, done, end), channels)
      invariant |rows| == end - next && mixed[..] == Flatten(rows) && SumsOf(rows, queues, done, next, channels)
    {
      var u :| u in rest;
      ghost var before := rows;
      var input;
      NotYetGiven(r, queues, done, end, channels);
      SumsRows(rows, queues, done, next, channels);
      input, rows := MixInput(mixed, rows, r[u], next, end, channels);
      SumsGrow(before, rows, queues, done, u, next, channels);
      GiveOne(r, queues, done, u, input, end, channels);
      r := r[u := input];
      rest := rest - {u};
      done := done + {u};
    }
    assert done == queues.Keys;
  }

  lemma SumsRows(rows: seq<seq<int>>, queues: map<string, Queue>, keys: set<string>, next: int, channels: int)
    requires SumsOf(rows, queues, keys, next, channels)
    ensures Rows(rows, channels)
  {
  }

  /** Drops what lies behind `next` in every queue and reports the extent of what is left. */
  method DropAllLate(inputs: map<string, Input>, ghost queues: map<string, Queue>, next: int, channels: int)
    returns (r: map<string, Input>, latest: int, earliest: Option<int>)
    requires channels >= 1 && Stands(inputs, Given(queues, {}, next), channels)
    ensures Stands(r, Given(queues, queues.Keys, next), channels)
    ensures Extent(Given(queues, queues.Keys, next), queues.Keys, next, latest, earliest)
  {
    hide Stands, Given, From, Extent;
    r := inputs;
    latest := next;
    earliest := None;
    NotYetGiven(inputs, queues, {}, next, channels);
    ExtentOfNobody(Given(queues, {}, next), next);
    var rest := inputs.Keys;
    ghost var done: set<string> := {};
    while rest != {}
      invariant rest <= queues.Keys && done == queues.Keys - rest
      invariant Stands(r, Given(queues, done, next), channels)
      invariant Extent(Given(queues, done, next), done, next, latest, earliest)
    {
      var u :| u in rest;
      NotYetGiven(r, queues, done, next, channels);
      var input := DropBefore(r[u], next, channels);
      ExtentGrows(Given(queues, done, next), done, u, Abs(input, channels), next, latest, earliest);
      GiveOne(r, queues, done, u, input, next, channels);
      r := r[u := input];
      rest := rest - {u};
      done := done + {u};
      if input.samples != [] {
        earliest := Sooner(earliest, input.first);
        latest := Max(latest, InputEnd(input, channels));
      }
    }
    assert done == queues.Keys;
  }

  lemma ExtentOfNobody(queues: map<string, Queue>, next: int)
    ensures Extent(queues, {}, next, next, None)
  {
  }

  /** latest and earliest are the extent of the non-empty queues among `seen`. */
  ghost predicate Extent(queues: map<string, Queue>, seen: set<string>, next: int, latest: int, earliest: Option<int>) {
    && (forall v :: v in seen && v in queues && queues[v].frames != [] ==>
          End(queues[v]) <= latest && earliest.Some? && earliest.value <= queues[v].first)
    && latest >= next
    && (latest == next || exists v :: v in seen && v in queues && queues[v].frames != [] && End(queues[v]) == latest)
    && (earliest.Some? ==>
          exists v :: v in seen && v in queues && queues[v].frames != [] && queues[v].first == earliest.value)
  }

  function Sooner(e: Option<int>, first: int): Option<int> {
    if e.Some? && e.value < first then e else Some(first)
  }

  lemma ExtentGrows(queues: map<string, Queue>, seen: set<string>, u: string, q: Queue, next: int, latest: int,
                    earliest: Option<int>)
    requires u !in seen && Extent(queues, seen, next, latest, earliest)
    ensures if q.frames == [] then Extent(queues[u := q], seen + {u}, next, latest, earliest)
            else Extent(queues[u := q], seen + {u}, next, Max(latest, End(q)), Sooner(earliest, q.first))
  {
    var after := queues[u := q];
    assert forall v :: v in seen && v in queues ==> after[v] == queues[v];
    if q.frames != [] {
      assert u in after && after[u].frames != [] && End(after[u]) == End(q) && after[u].first == q.first;
    }
  }

  lemma WholeExtent(m: Mixer, latest: int, earliest: Option<int>)
    requires Extent(m.queues, m.queues.Keys, m.next, latest, earliest)
    ensures latest == Latest(m)
    ensures if Silent(m) then earliest.None? else earliest == Some(Earliest(m))
  {
    if earliest.Some? {
      var v :| v in m.queues && m.queues[v].frames != [] && m.queues[v].first == earliest.value;
      assert Speaks(m, v);
      assert IsEarliest(m, earliest.value);
    }
    if latest != m.next {
      var v :| v in m.queues && m.queues[v].frames != [] && End(m.queues[v]) == latest;
      assert Speaks(m, v);
    }
    assert IsLatest(m, latest);
  }

  class AudioMixer {
    var sampleRate: int
    var channels: int
    var nextSample: int
    var start: int
    var inputs: map<string, Input>

    /** The state the fields stand for. */
    ghost var view: Mixer

    ghost predicate Valid()
      reads this
    {
      && channels >= 1 && MixerOk(view)
      && view.rate == sampleRate && view.channels == channels && view.next == nextSample && view.start == start
      && Stands(inputs, view.queues, channels)
    }

    constructor (rate: int, channels: int)
      requires rate >= 1 && channels >= 1
      ensures Valid() && view == Mixer(rate, channels, -1, 0, map[])
    {
      this.sampleRate := rate;
      this.channels := channels;
      nextSample := -1;
      start := 0;
      inputs := map[];
      view := Mixer(rate, channels, -1, 0, map[]);
    }

    method Push(c: PushCall) returns (ok: bool)
      requires Valid() && CallOk(c, channels)
      modifies this
      ensures Valid() && Pushed(view, ok) == PushResult(old(view), c)
    {
      hide MixerOk, Stands, Trimmed, Appended, Converted, Abs, Whole, Chunk, CallOk, InputEnd;
      ghost var m := view;
      MixerBasics(m);
      if !c.frame.valid || c.frame.channels < 1 || c.frame.rate < 1 || c.frame.data == [] {
        return false;
      }
      StandsKeys(inputs, m.queues, channels);
      view := PushResult(m, c).m;
      var input := if c.user in inputs then inputs[c.user] else Input(-1, [], 0);
      StandsInput(inputs, m, c.user, input);
      inputs := inputs[c.user := input];
      var converted := Convert(c, sampleRate, channels);
      if converted.None? {
        return false;
      }
      var timestampSample := Rescale(c.frame.timestampMs, sampleRate, 1000);
      if nextSample < 0 {
        nextSample := timestampSample;
        start := c.now;
      }
      var queued := Enqueue(input, timestampSample, converted.value, c.now, sampleRate, channels);
      StandsUpdate(old(inputs), m.queues, c.user, queued, channels);
      inputs := inputs[c.user := queued];
      assert inputs == old(inputs)[c.user := queued];
      ok := true;
    }

    method Backlog() returns (drainEnd: int)
      requires Valid()
      ensures drainEnd == Latest(view)
    {
      drainEnd := nextSample;
      var rest := inputs.Keys;
      while rest != {}
        invariant rest <= inputs.Keys && drainEnd >= nextSample
        invariant forall v :: Speaks(view, v) && v !in rest ==> End(view.queues[v]) <= drainEnd
        invariant drainEnd == nextSample || exists v :: Speaks(view, v) && End(view.queues[v]) == drainEnd
      {
        var u :| u in rest;
        var input := inputs[u];
        if input.samples != [] {
          drainEnd := Max(drainEnd, InputEnd(input, channels));
          assert Speaks(view, u) && End(view.queues[u]) == InputEnd(input, channels);
        }
        rest := rest - {u};
      }
      assert IsLatest(view, drainEnd);
    }

    /** Drops what lies behind the cursor and reports the extent of what is left. */
    method DropLate() returns (latest: int, earliest: Option<int>)
      requires Valid()
      modifies this`inputs, this`view
      ensures Valid() && view == AllFrom(old(view), nextSample)
      ensures latest == Latest(view)
      ensures if Silent(view) then earliest.None? else earliest == Some(Earliest(view))
    {
      hide MixerOk, Stands, Given, From, Extent, IsLatest, IsEarliest, Silent;
      MixerBasics(view);
      GiveAll(view, nextSample);
      var r;
      r, latest, earliest := DropAllLate(inputs, view.queues, nextSample, channels);
      inputs := r;
      view := AllFrom(view, nextSample);
      WholeExtent(view, latest, earliest);
    }

    method CheckAwaited(end: int, now: int) returns (b: bool)
      requires Valid()
      ensures b <==> SomeoneAwaited(view, end, now)
    {
      var rest := inputs.Keys;
      while rest != {}
        invariant rest <= inputs.Keys
        invariant forall v :: v in view.queues && v !in rest ==> !Awaited(view.queues[v], end, now)
      {
        var u :| u in rest;
        var input := inputs[u];
        if input.first < end && InputEnd(input, channels) < end && now - input.lastArrival < WAIT_MS {
          assert Awaited(view.queues[u], end, now);
          return true;
        }
        rest := rest - {u};
      }
      b := false;
    }

    /** Mixes the window of `count` frames at the cursor and moves the cursor past it. */
    method EmitWindow(count: nat) returns (w: Window)
      requires Valid() && nextSample >= 0
      requires forall u :: u in view.queues && view.queues[u].frames != [] ==> view.queues[u].first >= nextSample
      modifies this`inputs, this`nextSample, this`view
      ensures Valid() && w == WindowAt(old(view), count)
      ensures view == AllFrom(old(view), old(nextSample) + count).(next := old(nextSample) + count)
    {
      hide MixerOk, Stands, Given, From, Flatten, SumsOf, MixedRows, LimitAll;
      MixerBasics(view);
      var end := nextSample + count;
      Silence(view.queues, nextSample, count, channels);
      var mixed := new int[count * channels](_ => 0);
      assert mixed[..] == Flatten(Zeros(count, channels));
      ghost var rows;
      var after;
      GiveAll(view, end);
      after, rows := MixInputs(mixed, Zeros(count, channels), inputs, view.queues, nextSample, end, channels);
      SumsAreMixed(rows, view, count);
      var pcm := LimitPeaks(mixed);
      w := Window(nextSample, count, pcm, Rescale(nextSample, 1000, sampleRate));
      inputs := after;
      nextSample := end;
      MovedOk(AllFrom(view, end), end);
      view := AllFrom(view, end).(next := end);
    }

    method SweepInputs(now: int)
      requires Valid()
      modifies this`inputs, this`view
      ensures Valid() && view == Sweep(old(view), now)
    {
      var rest := inputs.Keys;
      ghost var before := inputs;
      while rest != {}
        invariant rest <= inputs.Keys
        invariant Stands(before, view.queues, channels) && view == old(view)
        invariant forall v :: v in inputs <==> v in before && (v in rest || !Stale(view.queues[v], now))
        invariant forall v :: v in inputs ==> inputs[v] == before[v]
      {
        var u :| u in rest;
        if inputs[u].samples == [] && now - inputs[u].lastArrival > SILENCE_MS {
          inputs := inputs - {u};
        }
        rest := rest - {u};
      }
      view := Sweep(view, now);
    }

    method PushMany(cs: seq<PushCall>)
      requires Valid() && CallsOk(cs, channels)
      modifies this
      ensures Valid() && view == PushAll(old(view), cs)
      decreases |cs|
    {
      if cs != [] {
        var _ := Push(cs[0]);
        PushMany(cs[1..]);
      }
    }

    /** Moves the cursor over a silence of more than a second. */
    method SkipSilence(earliest: int)
      requires Valid() && earliest == Earliest(view)
      modifies this`nextSample, this`view
      ensures Valid() && view == Jump(old(view))
    {
      hide MixerOk, Stands, IsEarliest, Jump;
      JumpOk(view);
      if earliest > nextSample + sampleRate {
        nextSample := earliest;
      }
      view := Jump(view);
    }

    lemma ValidBasics()
      requires Valid()
      ensures channels >= 1 && MixerOk(view) && view.rate >= 1 && view.next == nextSample && view.channels == channels
    {
    }

    /** One turn of the drain loop: a window, or None with whether the final sweep is due. */
    method Turn(d: DrainParams) returns (w: Option<Window>, sweep: bool)
      requires Valid() && nextSample >= 0 && d.count > 0
      modifies this`inputs, this`nextSample, this`view
      ensures Valid()
      ensures DrainRound(old(view), d) == if w.Some? then Emit(view, w.value) else Finish(view, sweep)
    {
      hide Valid, MixerOk, IsLatest, IsEarliest, WindowAt, Silent,
           Jump, DrainRound, AllFrom, SomeoneAwaited, Latest, Earliest;
      ValidBasics();
      ghost var round := DrainRound(view, d);
      RoundCases(view, d);
      NothingBehind(view);
      var latest, earliest := DropLate();
      ValidBasics();
      if latest <= nextSample {
        return None, true;
      }
      SomeoneSpeaks(view);
      if earliest.value >= d.end {
        return None, true;
      }
      SkipSilence(earliest.value);
      ValidBasics();
      var end := nextSample + d.count;
      if !d.flush && latest < end {
        return None, true;
      }
      if !d.flush {
        var awaited := CheckAwaited(end, d.now);
        if awaited {
          return None, false;
        }
      }
      ghost var j := view;
      assert round == Emit(AllFrom(j, end).(next := end), WindowAt(j, d.count));
      var window := EmitWindow(d.count);
      assert view == AllFrom(j, end).(next := end);
      assert round == Emit(view, window);
      return Some(window), false;
    }

    method Drain(count: int, flush: bool, now: int, replies: seq<Reply>) returns (ok: bool, frames: seq<Window>)
      requires Valid() && RepliesOk(replies, channels)
      modifies this
      ensures Valid() && DrainResult(view, frames, ok) == DrainCall(old(view), count, flush, now, replies)
    {
      hide MixerOk, Stands, DrainLoop, PushAll, DrainRound, Sweep, Latest, IsLatest, Prefixed;
      MixerBasics(view);
      StandsKeys(inputs, view.queues, channels);
      frames := [];
      if nextSample < 0 || inputs == map[] {
        return true, frames;
      }
      if !flush && now - start < WAIT_MS {
        return true, frames;
      }
      if count <= 0 {
        return false, frames;
      }
      var drainEnd := Backlog();
      var d := DrainParams(count, flush, now, drainEnd);
      ghost var whole := DrainLoop(view, d, replies);
      var script := replies;
      PrefixedByNothing(whole);
      while nextSample < drainEnd
        invariant Valid() && nextSample >= 0 && RepliesOk(script, channels)
        invariant whole == Prefixed(frames, DrainLoop(view, d, script))
        decreases drainEnd - nextSample
      {
        DrainLoopTurn(view, d, script, frames);
        var w, sweep := Turn(d);
        if w.None? {
          if sweep {
            SweepInputs(now);
          }
          return true, frames;
        }
        var reply := HeadReply(script);
        PushMany(reply.pushes);
        frames := frames + [w.value];
        if !reply.accepted {
          return false, frames;
        }
        script := TailReplies(script);
      }
      DrainLoopEnds(view, d, script, frames);
      SweepInputs(now);
      ok := true;
    }
  }

  lemma PrefixedByNothing(r: DrainResult)
    ensures Prefixed([], r) == r
  {
    assert [] + r.frames == r.frames;
  }

  lemma DrainLoopEnds(m: Mixer, d: DrainParams, rs: seq<Reply>, frames: seq<Window>)
    requires MixerOk(m) && m.next >= 0 && m.next >= d.end && d.count > 0 && RepliesOk(rs, m.channels)
    ensures Prefixed(frames, DrainLoop(m, d, rs)) == DrainResult(Sweep(m, d.now), frames, true)
  {
  }

  /** How the drain loop goes on after a turn. */
  ghost function Onward(r: Round, d: DrainParams, rs: seq<Reply>, frames: seq<Window>): DrainResult
    requires MixerOk(r.m) && r.m.next >= 0 && d.count > 0 && RepliesOk(rs, r.m.channels)
  {
    hide DrainLoop, Resumed, Sweep, QueueOk, CallsOk;
    match r
    case Finish(m1, sweep) => DrainResult(if sweep then Sweep(m1, d.now) else m1, frames, true)
    case Emit(m1, w) =>
      var m2 := Resumed(m1, rs);
      if !HeadReply(rs).accepted then DrainResult(m2, frames + [w], false)
      else Prefixed(frames + [w], DrainLoop(m2, d, TailReplies(rs)))
  }

  /** The drain loop unrolled once. */
  lemma DrainLoopTurn(m: Mixer, d: DrainParams, rs: seq<Reply>, frames: seq<Window>)
    requires MixerOk(m) && 0 <= m.next < d.end && d.count > 0 && RepliesOk(rs, m.channels)
    ensures Prefixed(frames, DrainLoop(m, d, rs)) == Onward(DrainRound(m, d), d, rs, frames)
  {
    hide DrainRound, Resumed, Sweep, QueueOk, CallsOk;
    var r := DrainRound(m, d);
    if r.Emit? && HeadReply(rs).accepted {
      var rest := DrainLoop(Resumed(r.m, rs), d, TailReplies(rs));
      assert frames + ([r.window] + rest.frames) == frames + [r.window] + rest.frames;
    }
  }

  ghost function Prefixed(frames: seq<Window>, r: DrainResult): DrainResult {
    r.(frames := frames + r.frames)
  }

  method Convert(c: PushCall, rate: int, channels: int) returns (r: Option<seq<Int16>>)
    requires channels >= 1 && c.frame.channels >= 1 && CallOk(c, channels)
    ensures r.Some? ==> Whole(r.value, channels)
    ensures forall m: Mixer :: m.rate == rate && m.channels == channels ==>
              Converted(m, c) == if r.None? then None else Some(Chunk(r.value, channels))
  {
    if c.frame.rate != rate || c.frame.channels != channels {
      r := c.resampled;
    } else {
      var count := |c.frame.data| / c.frame.channels;
      ChunkPrefix(c.frame.data, channels);
      r := Some(c.frame.data[..count * channels]);
    }
  }

  lemma NoFrames(channels: int)
    requires channels >= 1
    ensures var none: seq<Int16> := []; Whole(none, channels) && Chunk(none, channels) == []
  {
  }

  /** Appends pcm, starting the queue afresh after a gap and keeping at most half a second. */
  method Enqueue(i: Input, ts: int, pcm: seq<Int16>, now: int, rate: int, channels: int) returns (r: Input)
    requires channels >= 1 && rate >= 1 && Whole(i.samples, channels) && Whole(pcm, channels)
    ensures Whole(r.samples, channels)
    ensures Abs(r, channels) == Trimmed(Appended(Abs(i, channels), ts, Chunk(pcm, channels), now, rate), rate)
  {
    hide Whole, Chunk, Trimmed;
    NoFrames(channels);
    ghost var q, frames := Abs(i, channels), Chunk(pcm, channels);
    var input := i;
    var end := InputEnd(input, channels);
    if input.first < 0 || ts > end + rate / 10 {
      input := Input(ts, [], input.lastArrival);
    }
    ChunkConcat(input.samples, pcm, channels);
    input := Input(input.first, input.samples + pcm, now);
    assert Abs(input, channels) == Appended(q, ts, frames, now, rate);
    r := TrimHalfSecond(input, rate, channels);
  }
}
