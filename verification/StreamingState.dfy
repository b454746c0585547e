/**
 What a publishing thread observes, and what its outages, sessions and passes over the media look like.

 Everything the thread does not decide is an observation: the flags other threads raise, the clock, and
 what the encoders, the compositor, the mixer and the destination answer. Observations are numbered.
 */
module StreamingState {
  import opened Arith
  import opened Options
  import opened Timestamps

  // ----- observations -----

  /** What became of a frame handed to an encoder. */
  datatype Sent = Delivered | EncoderError | WriteError

  /** A mixed audio window the mixer hands over, and what became of it. */
  datatype Window = Window(ms: int, sent: Sent)

  datatype Obs = Obs(stopping: bool, failed: bool, now: nat,
                     encodersOpen: bool, destinationOpens: bool, polls: bool,
                     frame: Option<int>, sent: Sent, windows: seq<Window>)

  /** Flags only rise and the clock never goes back. */
  ghost predicate Rising(env: nat -> Obs) {
    forall i: nat, j: nat :: i <= j ==> After(env(i), env(j))
  }

  predicate After(a: Obs, b: Obs) {
    (a.stopping ==> b.stopping) && (a.failed ==> b.failed) && a.now <= b.now
  }

  /** From observation `last` on the clock is past the deadline. */
  ghost predicate Passes(env: nat -> Obs, deadline: nat, last: nat) {
    forall i: nat :: i >= last ==> env(i).now >= deadline
  }

  // ----- outages -----

  datatype Outcome = Interrupted | NotTried | EncodersFailed | DestinationFailed | Opened

  /**
   One reconnect attempt: its delay, the observations at which the wait began and ended and at which the
   attempt was over, the times of the first two, and how it went.
   */
  datatype Attempt = Attempt(delay: int, from: nat, wake: nat, until: nat, began: nat, woke: nat, outcome: Outcome)

  const MAX_DELAY := 10000

  function Min(a: int, b: int): int { if a < b then a else b }

  function Pow2(k: nat): (p: nat)
    ensures p >= 1
  {
    if k == 0 then 1 else 2 * Pow2(k - 1)
  }

  /** The delay before attempt k, counted from zero: doubling from d up to ten seconds. */
  function Delay(d: nat, k: nat): int { Min(d * Pow2(k), MAX_DELAY) }

  /** The first delay is the configured one; each is twice the one before it, but never more than ten seconds. */
  lemma DelayMeans(d: nat, k: nat)
    requires d <= 10000
    ensures Delay(d, 0) == d
    ensures Delay(d, k + 1) == if 2 * Delay(d, k) > 10000 then 10000 else 2 * Delay(d, k)
  {
    DelayDoubles(d, k);
  }

  lemma DelayDoubles(d: nat, k: nat)
    ensures Delay(d, k + 1) == Min(Delay(d, k) * 2, MAX_DELAY)
  {
    var p := d * Pow2(k);
    assert d * Pow2(k + 1) == 2 * p;
  }

  /** What an opening attempt answers. */
  function Opening(o: Obs): Outcome {
    if !o.encodersOpen then EncodersFailed else if !o.destinationOpens then DestinationFailed else Opened
  }

  predicate Tried(o: Outcome) { o.EncodersFailed? || o.DestinationFailed? || o.Opened? }

  /**
   The wait lasts for the delay, or to the deadline, unless a flag rises. An attempt that was not
   interrupted has waited its whole delay, and its outcome is what encoders and destination answered.
   */
  ghost predicate AttemptOk(env: nat -> Obs, deadline: nat, a: Attempt) {
    && a.from < a.wake < a.until && a.began == env(a.from).now && a.woke == env(a.wake).now && a.began <= a.woke
    && (forall i: nat :: a.from < i < a.wake ==>
          !env(i).stopping && !env(i).failed && env(i).now < deadline && env(i).now < a.began + a.delay)
    && (!a.outcome.Interrupted? ==>
          a.woke >= a.began + a.delay && a.woke < deadline && !env(a.wake).stopping && !env(a.wake).failed)
    && (Tried(a.outcome) ==> a.until == a.wake + 5 && a.outcome == Opening(env(a.until)))
    && (a.outcome.NotTried? ==> env(a.until).stopping || env(a.until).now >= deadline)
  }

  /**
   An outage: at most n attempts with their delays, each after the one before it, and only the last
   not refused by the destination.
   */
  ghost predicate OutageOk(env: nat -> Obs, deadline: nat, o: seq<Attempt>, n: nat, d: nat) {
    && |o| <= n
    && (forall k :: 0 <= k < |o| ==> o[k].delay == Delay(d, k) && AttemptOk(env, deadline, o[k]))
    && (forall k :: 0 < k < |o| ==> o[k - 1].until == o[k].from)
    && (forall k :: 0 <= k < |o| - 1 ==> o[k].outcome == DestinationFailed)
    && (forall k :: 0 < k < |o| ==> o[k - 1].woke <= o[k].began)
  }

  ghost predicate OutagesOk(env: nat -> Obs, deadline: nat, os: seq<seq<Attempt>>, n: nat, d: nat) {
    forall i :: 0 <= i < |os| ==> OutageOk(env, deadline, os[i], n, d)
  }

  predicate AllRefused(o: seq<Attempt>) {
    forall k :: 0 <= k < |o| ==> o[k].outcome == DestinationFailed
  }

  /** The attempts are used up and the destination refused every one of them. */
  predicate Exhausted(o: seq<Attempt>, n: nat) { |o| == n && AllRefused(o) }

  /** The last attempt opened a session. */
  predicate OpenedAtLast(o: seq<Attempt>) { o != [] && o[|o| - 1].outcome == Opened }

  lemma RefusedOrNot(o: seq<Attempt>, n: nat)
    requires Exhausted(o, n) && o != []
    ensures o[|o| - 1].outcome == DestinationFailed
  {
  }

  /** The delays of the first k attempts, added up. */
  function TotalDelay(d: nat, k: nat): int {
    if k == 0 then 0 else TotalDelay(d, k - 1) + Delay(d, k - 1)
  }

  /** The destination is tried again only after all the delays so far. */
  lemma {:induction false} OutageLasts(env: nat -> Obs, deadline: nat, o: seq<Attempt>, n: nat, d: nat, k: nat)
    requires OutageOk(env, deadline, o, n, d) && k < |o| && !o[k].outcome.Interrupted?
    ensures o[k].woke >= o[0].began + TotalDelay(d, k + 1)
  {
    hide Delay;
    assert AttemptOk(env, deadline, o[k]);
    if k == 0 {
      assert TotalDelay(d, 1) == TotalDelay(d, 0) + Delay(d, 0);
    } else {
      OutageLasts(env, deadline, o, n, d, k - 1);
    }
  }

  /** One more outage. */
  predicate Grown(was: seq<seq<Attempt>>, now: seq<seq<Attempt>>) { |now| == |was| + 1 && was <= now }

  lemma OutagesPush(env: nat -> Obs, deadline: nat, os: seq<seq<Attempt>>, o: seq<Attempt>, n: nat, d: nat)
    requires OutagesOk(env, deadline, os, n, d) && OutageOk(env, deadline, o, n, d)
    ensures OutagesOk(env, deadline, os + [o], n, d)
  {
    hide OutageOk;
  }

  lemma NoAttempts(env: nat -> Obs, deadline: nat, n: nat, d: nat)
    requires d <= MAX_DELAY
    ensures OutageOk(env, deadline, [], n, d) && Delay(d, 0) == d
  {
  }

  /** One more attempt after attempts the destination refused. */
  lemma AttemptPush(env: nat -> Obs, deadline: nat, o: seq<Attempt>, a: Attempt, n: nat, d: nat)
    requires OutageOk(env, deadline, o, n, d) && AllRefused(o) && |o| < n
    requires a.delay == Delay(d, |o|) && AttemptOk(env, deadline, a)
    requires o != [] ==> o[|o| - 1].woke <= a.began && o[|o| - 1].until == a.from
    ensures OutageOk(env, deadline, o + [a], n, d)
    ensures a.outcome == DestinationFailed ==> AllRefused(o + [a])
  {
    hide AttemptOk, Delay;
  }

  // ----- sessions -----

  ghost predicate SessionsOk(ss: seq<seq<Stamp>>, frame: nat) {
    forall i :: 0 <= i < |ss| ==> Session(ss[i], frame)
  }

  lemma SessionsPush(ss: seq<seq<Stamp>>, s: seq<Stamp>, frame: nat)
    requires SessionsOk(ss, frame) && Session(s, frame)
    ensures SessionsOk(ss + [s], frame)
  {
    hide Session;
  }

  lemma SessionsUpdate(ss: seq<seq<Stamp>>, s: seq<Stamp>, frame: nat)
    requires SessionsOk(ss, frame) && Session(s, frame) && ss != []
    ensures SessionsOk(ss[|ss| - 1 := s], frame)
  {
    hide Session;
  }

  lemma SessionAt(ss: seq<seq<Stamp>>, frame: nat)
    requires SessionsOk(ss, frame) && ss != []
    ensures Session(ss[|ss| - 1], frame)
  {
  }

  lemma SessionPush(s: seq<Stamp>, x: Stamp, frame: nat)
    requires Session(s, frame) && x.pts == NextPts(s, x.video, x.ms, frame)
    ensures Session(s + [x], frame)
  {
    hide NextPts;
    assert (s + [x])[..|s|] == s;
  }

  /** Sessions that have been opened since, and are still empty. */
  ghost predicate OnlyOpened(was: seq<seq<Stamp>>, now: seq<seq<Stamp>>) {
    was <= now && forall i :: |was| <= i < |now| ==> now[i] == []
  }

  lemma OpenedTwice(a: seq<seq<Stamp>>, b: seq<seq<Stamp>>, c: seq<seq<Stamp>>)
    requires OnlyOpened(a, b) && OnlyOpened(b, c)
    ensures OnlyOpened(a, c)
  {
  }

  /** The current session after some more stamps. */
  function Grow(ss: seq<seq<Stamp>>, growth: seq<Stamp>): seq<seq<Stamp>>
    requires ss != []
  {
    ss[|ss| - 1 := ss[|ss| - 1] + growth]
  }

  lemma GrowTwice(ss: seq<seq<Stamp>>, a: seq<Stamp>, b: seq<Stamp>)
    requires ss != []
    ensures Grow(Grow(ss, a), b) == Grow(ss, a + b) && Grow(ss, []) == ss
  {
    assert ss[|ss| - 1] + a + b == ss[|ss| - 1] + (a + b);
    assert ss[|ss| - 1] + [] == ss[|ss| - 1];
  }

  /** All stamps of all sessions, in order. */
  function Joined(ss: seq<seq<Stamp>>): seq<Stamp> {
    if ss == [] then [] else Joined(ss[..|ss| - 1]) + ss[|ss| - 1]
  }

  lemma {:induction false} JoinedOpened(was: seq<seq<Stamp>>, now: seq<seq<Stamp>>)
    requires OnlyOpened(was, now)
    ensures Joined(now) == Joined(was)
    decreases |now|
  {
    if |now| > |was| {
      JoinedOpened(was, now[..|now| - 1]);
      assert Joined(now[..|now| - 1]) + [] == Joined(now[..|now| - 1]);
    } else {
      assert now == was;
    }
  }

  lemma JoinedGrow(ss: seq<seq<Stamp>>, growth: seq<Stamp>)
    requires ss != []
    ensures Joined(Grow(ss, growth)) == Joined(ss) + growth
  {
    var n := |ss| - 1;
    assert Grow(ss, growth)[..n] == ss[..n];
    assert Joined(ss[..n]) + (ss[n] + growth) == Joined(ss[..n]) + ss[n] + growth;
  }

  /** The sink's fields say where the current session stands. */
  ghost predicate Tied(s: seq<Stamp>, frame: nat, hasOrigin: bool, origin: int,
                       lastVideo: int, nextAudio: Option<int>) {
    && (hasOrigin <==> s != [])
    && (s != [] ==> origin == s[0].ms)
    && lastVideo == (match Prev(s, true) case None => -1 case Some(p) => p)
    && nextAudio == (match Prev(s, false) case None => None case Some(p) => Some(p + frame))
  }

  lemma PrevPush(s: seq<Stamp>, x: Stamp)
    ensures Prev(s + [x], x.video) == Some(x.pts) && Prev(s + [x], !x.video) == Prev(s, !x.video)
    ensures (s + [x])[0].ms == Origin(s, x.ms)
  {
    assert (s + [x])[..|s|] == s;
  }

  lemma PrevNonNegative(s: seq<Stamp>, video: bool, frame: nat)
    requires Session(s, frame)
    ensures Prev(s, video).Some? ==> Prev(s, video).value >= 0
  {
    var i := PrevIs(s, video);
    if i >= 0 { Advances(s, i, i, frame); }
  }

  // ----- passes over the media -----

  /** A frame there is to send, and what would become of it. */
  datatype Offer = Offer(video: bool, ms: int, sent: Sent)

  /** The composed frame, if there is one, and then the mixed windows. */
  function Offers(frame: Option<int>, sent: Sent, windows: seq<Window>): seq<Offer> {
    (if frame.Some? then [Offer(true, frame.value, sent)] else []) + WindowOffers(windows)
  }

  function WindowOffers(windows: seq<Window>): (os: seq<Offer>)
    ensures |os| == |windows|
  {
    seq(|windows|, k requires 0 <= k < |windows| => Offer(false, windows[k].ms, windows[k].sent))
  }

  /** The frames handed to the encoders: all up to the first that is not delivered, and that one. */
  function Handed(os: seq<Offer>): seq<Offer> {
    if os == [] || os[0].sent != Delivered then os[..if os == [] then 0 else 1] else [os[0]] + Handed(os[1..])
  }

  predicate AllDelivered(os: seq<Offer>) {
    forall k :: 0 <= k < |os| ==> os[k].sent == Delivered
  }

  /** A write to the destination has failed. */
  predicate SomeLost(os: seq<Offer>) {
    exists k :: 0 <= k < |os| && os[k].sent == WriteError
  }

  /** The stamps are those of the first frames, in order. */
  predicate StampsFrom(stamps: seq<Stamp>, os: seq<Offer>) {
    |stamps| <= |os| && forall k :: 0 <= k < |stamps| ==> stamps[k].video == os[k].video && stamps[k].ms == os[k].ms
  }

  predicate StampsOf(stamps: seq<Stamp>, os: seq<Offer>) {
    |stamps| == |os| && StampsFrom(stamps, os)
  }

  lemma {:induction false} HandedAll(os: seq<Offer>)
    requires AllDelivered(os)
    ensures Handed(os) == os && !SomeLost(os)
    decreases |os|
  {
    if os != [] { HandedAll(os[1..]); }
  }

  lemma {:induction false} HandedUpTo(os: seq<Offer>, k: nat)
    requires k < |os| && AllDelivered(os[..k]) && os[k].sent != Delivered
    ensures Handed(os) == os[..k + 1] && !AllDelivered(os)
    ensures SomeLost(Handed(os)) <==> os[k].sent == WriteError
    decreases k
  {
    if k > 0 {
      assert os[..k][0] == os[0];
      assert os[1..][..k - 1] == os[..k][1..];
      HandedUpTo(os[1..], k - 1);
      assert [os[0]] + os[1..][..k] == os[..k + 1];
    }
    assert forall j :: 0 <= j < k ==> os[..k + 1][j] == os[..k][j];
  }

  /** A prefix of delivered frames is handed over in any case. */
  lemma {:induction false} DeliveredFirst(os: seq<Offer>, k: nat)
    requires k <= |os| && AllDelivered(os[..k])
    ensures k <= |Handed(os)| && Handed(os)[..k] == os[..k]
    decreases k
  {
    if k > 0 {
      assert os[..k][0] == os[0];
      assert os[1..][..k - 1] == os[..k][1..];
      DeliveredFirst(os[1..], k - 1);
    }
  }

  lemma NoneDelivered(os: seq<Offer>)
    ensures AllDelivered(os[..0]) && StampsFrom([], os)
  {
  }

  lemma {:induction false} HandedShort(os: seq<Offer>)
    ensures |Handed(os)| <= |os|
    decreases |os|
  {
    if os != [] { HandedShort(os[1..]); }
  }

  lemma OneMoreDelivered(os: seq<Offer>, k: nat)
    requires k < |os| && AllDelivered(os[..k]) && os[k].sent == Delivered
    ensures AllDelivered(os[..k + 1])
  {
    assert forall j :: 0 <= j < k ==> os[..k + 1][j] == os[..k][j];
  }

  lemma FromPrefix(stamps: seq<Stamp>, os: seq<Offer>, some: seq<Offer>)
    requires StampsFrom(stamps, os) && |stamps| <= |some| <= |os| && some[..|stamps|] == os[..|stamps|]
    ensures StampsFrom(stamps, some)
  {
    assert forall k :: 0 <= k < |stamps| ==> some[k] == some[..|stamps|][k] && os[k] == os[..|stamps|][k];
  }

  /** The composed frame was not delivered: nothing else is handed over. */
  lemma OnlyVideo(ms: int, sent: Sent, windows: seq<Window>, growth: seq<Stamp>)
    requires sent != Delivered && |growth| == 1 && growth[0].video && growth[0].ms == ms
    ensures var os := Offers(Some(ms), sent, windows);
      StampsOf(growth, Handed(os)) && !AllDelivered(os) && (SomeLost(Handed(os)) <==> sent == WriteError)
  {
    HandedUpTo(Offers(Some(ms), sent, windows), 0);
  }

  /** The composed frame, if any, was delivered: the windows follow. */
  lemma VideoFirst(frame: Option<int>, sent: Sent, windows: seq<Window>, growth: seq<Stamp>)
    requires frame.Some? ==> sent == Delivered
    requires |growth| == (if frame.Some? then 1 else 0)
    requires frame.Some? ==> growth[0].video && growth[0].ms == frame.value
    ensures StampsFrom(growth, Handed(Offers(frame, sent, windows)))
  {
    HandedSplit(frame, sent, windows);
  }

  lemma HandedSplit(frame: Option<int>, sent: Sent, windows: seq<Window>)
    requires frame.Some? ==> sent == Delivered
    ensures var os, ws := Offers(frame, sent, windows), WindowOffers(windows);
      var head := if frame.Some? then [Offer(true, frame.value, sent)] else [];
      && Handed(os) == head + Handed(ws) && (AllDelivered(os) <==> AllDelivered(ws))
      && (SomeLost(Handed(os)) <==> SomeLost(Handed(ws))) && os == head + ws
  {
    var os, ws := Offers(frame, sent, windows), WindowOffers(windows);
    if frame.Some? {
      assert os[1..] == ws;
      assert forall k :: 0 < k < |os| ==> os[k] == ws[k - 1];
      var hs, ho := Handed(ws), Handed(os);
      assert ho == [os[0]] + hs;
      assert forall k :: 0 <= k < |hs| ==> hs[k] == ho[k + 1];
      forall k | 0 <= k < |ws| && AllDelivered(os) ensures ws[k].sent == Delivered { assert os[k + 1] == ws[k]; }
    } else {
      assert os == ws;
      assert [] + Handed(ws) == Handed(ws);
    }
  }

  lemma VideoThenAudio(frame: Option<int>, sent: Sent, windows: seq<Window>, video: seq<Stamp>, audio: seq<Stamp>)
    requires frame.Some? ==> sent == Delivered
    requires |video| == (if frame.Some? then 1 else 0)
    requires frame.Some? ==> video[0].video && video[0].ms == frame.value
    requires StampsFrom(audio, Handed(WindowOffers(windows)))
    ensures var os, ws := Offers(frame, sent, windows), WindowOffers(windows);
      && StampsFrom(video + audio, Handed(os))
      && (StampsOf(audio, Handed(ws)) ==> StampsOf(video + audio, Handed(os)))
      && (AllDelivered(os) <==> AllDelivered(ws)) && (SomeLost(Handed(os)) <==> SomeLost(Handed(ws)))
      && (AllDelivered(ws) ==> Handed(ws) == ws && !SomeLost(Handed(ws)))
  {
    HandedSplit(frame, sent, windows);
    if AllDelivered(WindowOffers(windows)) { HandedAll(WindowOffers(windows)); }
    hide Handed, AllDelivered, SomeLost, Offers, WindowOffers;
    var ho, hs := Handed(Offers(frame, sent, windows)), Handed(WindowOffers(windows));
    assert forall k :: 0 <= k < |hs| ==> ho[|video| + k] == hs[k];
  }

  lemma Nothing(ss: seq<seq<Stamp>>, os: seq<Offer>)
    requires ss != []
    ensures StampsFrom([], Handed(os)) && Grow(ss, []) == ss && OnlyOpened(ss, ss)
  {
    GrowTwice(ss, [], []);
  }

  lemma GrowKeeps(ss: seq<seq<Stamp>>, growth: seq<Stamp>)
    requires ss != []
    ensures Grow(ss, growth) != [] && OnlyOpened(Grow(ss, growth), Grow(ss, growth))
  {
  }

  lemma GrowOne(ss: seq<seq<Stamp>>, x: Stamp)
    requires ss != []
    ensures ss[|ss| - 1 := ss[|ss| - 1] + [x]] == Grow(ss, [x])
  {
  }

  lemma MoreObservations(env: nat -> Obs, deadline: nat, p: PassLog)
    requires PassOk(env, deadline, p) && !p.ok
    ensures forall next: nat :: next >= p.end ==> PassOk(env, deadline, p.(next := next))
  {
    hide StampsFrom, Handed, AllDelivered, SomeLost, Offers;
  }

  lemma JoinedPass(was: seq<seq<Stamp>>, growth: seq<Stamp>, now: seq<seq<Stamp>>)
    requires was != [] && OnlyOpened(Grow(was, growth), now)
    ensures Joined(now) == Joined(was) + growth
  {
    JoinedOpened(Grow(was, growth), now);
    JoinedGrow(was, growth);
  }

  lemma JoinAgain(a: seq<Stamp>, b: seq<Stamp>, c: seq<Stamp>)
    ensures a + b + c == a + (b + c)
  {
  }

  lemma NoGrowth(a: seq<Stamp>)
    ensures a + Growths([]) == a
  {
  }

  lemma OnePass(p: PassLog)
    ensures Growths([p]) == p.growth
  {
    assert [p][..0] == [] && [] + p.growth == p.growth;
  }

  /** One pass: where it began, where its media ended, where the next begins, and what it did. */
  datatype PassLog = PassLog(begin: nat, end: nat, next: nat, failed: bool, growth: seq<Stamp>, ok: bool, lost: bool)

  /** The frame observed by a pass that began at observation i. */
  function FrameAt(env: nat -> Obs, i: nat): Option<int> { env(i + 3).frame }

  /** Where it observes the windows. */
  function WindowsAt(env: nat -> Obs, i: nat): nat { i + if FrameAt(env, i).Some? then 8 else 7 }

  function OffersAt(env: nat -> Obs, i: nat): seq<Offer> {
    Offers(FrameAt(env, i), env(i + 5).sent, env(WindowsAt(env, i)).windows)
  }

  /** Where it polls the destination, when everything was delivered. */
  function PollAt(env: nat -> Obs, i: nat): nat {
    WindowsAt(env, i) + 2 * |env(WindowsAt(env, i)).windows| + 2
  }

  /**
   A pass sends nothing but what it observed, in order. When no flag is up and the deadline is not
   reached, it sends the composed frame and all the windows, up to the first that fails, and then polls
   the destination; a failed write or poll loses the destination.
   */
  ghost predicate PassOk(env: nat -> Obs, deadline: nat, p: PassLog) {
    && p.begin < p.end <= p.next && (p.ok ==> p.next == p.end)
    && StampsFrom(p.growth, Handed(OffersAt(env, p.begin)))
    && (!env(p.end).stopping && !env(p.end).failed && !p.failed && env(p.begin + 2).now < deadline ==>
          && StampsOf(p.growth, Handed(OffersAt(env, p.begin)))
          && (p.ok <==> AllDelivered(OffersAt(env, p.begin)) && env(PollAt(env, p.begin)).polls)
          && (p.lost <==> || SomeLost(Handed(OffersAt(env, p.begin)))
                          || (AllDelivered(OffersAt(env, p.begin)) && !env(PollAt(env, p.begin)).polls))
          && (AllDelivered(OffersAt(env, p.begin)) ==> p.end == PollAt(env, p.begin)))
  }

  /** Passes one after the other, without a gap in the observations. */
  ghost predicate PassesOk(env: nat -> Obs, deadline: nat, ps: seq<PassLog>, from: nat, to: nat) {
    && ps != [] && ps[0].begin == from && ps[|ps| - 1].next == to
    && (forall k :: 0 <= k < |ps| ==> PassOk(env, deadline, ps[k]))
    && (forall k :: 0 < k < |ps| ==> ps[k].begin == ps[k - 1].next)
  }

  lemma PassesPush(env: nat -> Obs, deadline: nat, ps: seq<PassLog>, from: nat, to: nat, p: PassLog)
    requires PassesOk(env, deadline, ps, from, to) && PassOk(env, deadline, p) && p.begin == to
    ensures PassesOk(env, deadline, ps + [p], from, p.next)
  {
    hide PassOk;
  }

  function Growths(ps: seq<PassLog>): seq<Stamp> {
    if ps == [] then [] else Growths(ps[..|ps| - 1]) + ps[|ps| - 1].growth
  }

  lemma GrowthsPush(ps: seq<PassLog>, p: PassLog)
    ensures Growths(ps + [p]) == Growths(ps) + p.growth
  {
    assert (ps + [p])[..|ps|] == ps;
  }

  // ----- results -----

  datatype Message = MediaFailed | ExhaustedAfter(attempts: nat) | EncoderRestartFailed | DurationReached

  datatype Call = Call(failed: bool, message: Message)

  datatype Config = Config(maxDurationSeconds: int, reconnectAttempts: int, reconnectDelayMs: int, audioFrame: nat)

  /** The bounds initialize puts on the configuration. */
  predicate Accepted(c: Config) {
    c.maxDurationSeconds >= 1 && 0 <= c.reconnectAttempts <= 20 && 100 <= c.reconnectDelayMs <= MAX_DELAY
  }
}
