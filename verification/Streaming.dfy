/**
 The publishing thread of a streaming task: it opens a session with the destination, sends video and
 audio until it is told to stop, fails or reaches its deadline, and reconnects with growing delays when
 the destination is lost. Each read of a flag or of the clock takes the next observation, so two reads of
 the same flag may differ.
 */
module Streaming {
  import opened Arith
  import opened Options
  import opened StreamingState
  import opened Timestamps

  class StreamingSink {
    const config: Config
    const env: nat -> Obs
    const registered: bool
    const deadline: nat
    /** Some observation after which the clock is past the deadline. */
    ghost const last: nat

    /** The next observation. */
    var t: nat
    var failed: bool
    var outputFailed: bool
    var reconnecting: bool
    var hasOrigin: bool
    var originMs: int
    var lastVideoPts: int
    var nextAudioPts: Option<int>
    var failureMessage: Message
    var calls: seq<Call>

    /** The frames stamped in each session, and the attempts of each outage. */
    ghost var sessions: seq<seq<Stamp>>
    ghost var outages: seq<seq<Attempt>>

    ghost predicate Env() {
      Rising(env) && Passes(env, deadline, last) && Accepted(config)
    }

    ghost predicate Valid()
      reads this
    {
      && Env()
      && SessionsOk(sessions, config.audioFrame)
      && OutagesOk(env, deadline, outages, config.reconnectAttempts, config.reconnectDelayMs)
      && (sessions != [] ==>
            Tied(sessions[|sessions| - 1], config.audioFrame, hasOrigin, originMs, lastVideoPts, nextAudioPts))
    }

    ghost predicate StoppedAt(i: nat) { env(i).stopping }
    ghost predicate PastAt(i: nat) { env(i).now >= deadline }

    /** The run has a reason to end. */
    ghost predicate Ended()
      reads this`t, this`failed
    {
      StoppedAt(t) || PastAt(t) || failed || env(t).failed
    }

    /** Accepts the task: start. */
    constructor Start(config: Config, registered: bool, env: nat -> Obs, now: nat, ghost last: nat)
      requires Accepted(config) && Rising(env) && Passes(env, now + config.maxDurationSeconds * 1000, last)
      ensures Valid() && t == 0 && !failed && calls == [] && sessions == [] && outages == []
      ensures this.config == config && this.registered == registered && this.env == env
      ensures deadline == now + config.maxDurationSeconds * 1000 && failureMessage == MediaFailed && !reconnecting
    {
      this.config, this.registered, this.env, this.last := config, registered, env, last;
      deadline := now + config.maxDurationSeconds * 1000;
      t, failed, outputFailed, reconnecting, hasOrigin := 0, false, false, false, false;
      originMs, lastVideoPts, nextAudioPts := 0, -1, None;
      failureMessage, calls, sessions, outages := MediaFailed, [], [], [];
    }

    lemma Later(i: nat, j: nat)
      requires Env() && i <= j
      ensures After(env(i), env(j))
    {
    }

    method ReadStopping() returns (b: bool)
      modifies this`t
      ensures t == old(t) + 1 && b == StoppedAt(old(t))
    {
      b := env(t).stopping;
      t := t + 1;
    }

    method ReadFailed() returns (b: bool)
      modifies this`t
      ensures t == old(t) + 1 && b == (failed || env(old(t)).failed)
    {
      b := failed || env(t).failed;
      t := t + 1;
    }

    method ReadDurationReached() returns (b: bool)
      modifies this`t
      ensures t == old(t) + 1 && b == PastAt(old(t))
    {
      b := env(t).now >= deadline;
      t := t + 1;
    }

    /** Neither stopped nor past the deadline, in two reads; true only if neither held at the start. */
    method MayGoOn() returns (b: bool)
      requires Env()
      modifies this`t
      ensures t > old(t)
      ensures !b ==> StoppedAt(t) || PastAt(t)
      ensures b ==> !StoppedAt(old(t)) && !PastAt(old(t)) && old(t) < last && t == old(t) + 2
    {
      ghost var t0 := t;
      var stopping := ReadStopping();
      if stopping {
        Later(t0, t);
        return false;
      }
      ghost var t1 := t;
      var past := ReadDurationReached();
      Later(t0, t1);
      Later(t1, t);
      b := !past;
    }

    method OpenSession() returns (ok: bool, ghost outcome: Outcome)
      requires Valid()
      modifies this`t, this`outputFailed, this`hasOrigin, this`lastVideoPts, this`nextAudioPts, this`sessions
      ensures Valid() && t > old(t)
      ensures ok <==> outcome == Opened
      ensures outputFailed <==> outcome == DestinationFailed
      ensures !outcome.Interrupted?
      ensures outcome == NotTried ==> (StoppedAt(t) || PastAt(t)) && sessions == old(sessions)
      ensures outcome != NotTried ==> sessions == old(sessions) + [[]] && !StoppedAt(old(t)) && !PastAt(old(t))
      ensures outcome != NotTried ==> t == old(t) + 2 && outcome == Opening(env(t))
      ensures OnlyOpened(old(sessions), sessions)
      ensures ok ==> !hasOrigin && lastVideoPts == -1 && nextAudioPts == None
    {
      hide OutagesOk;
      outputFailed := false;
      var go := MayGoOn();
      if !go {
        return false, NotTried;
      }
      hasOrigin, lastVideoPts, nextAudioPts := false, -1, None;
      SessionsPush(sessions, [], config.audioFrame);
      sessions := sessions + [[]];
      var reply := env(t);
      if !reply.encodersOpen {
        return false, EncodersFailed;
      }
      if !reply.destinationOpens {
        outputFailed := true;
        return false, DestinationFailed;
      }
      return true, Opened;
    }

    /** Sleeps until the time given or until a flag rises. */
    method WaitUntil(until: int) returns (woke: nat)
      requires Env() && until <= deadline
      modifies this`t
      ensures t >= old(t) && woke == env(t).now && env(old(t)).now <= woke
      ensures StoppedAt(t) || failed || env(t).failed || woke >= until
      ensures forall i: nat :: old(t) <= i < t ==> !env(i).stopping && !env(i).failed && env(i).now < until
    {
      while !(env(t).stopping || failed || env(t).failed || env(t).now >= until)
        invariant t >= old(t)
        invariant forall i: nat :: old(t) <= i < t ==> !env(i).stopping && !env(i).failed && env(i).now < until
        decreases if t < last then last - t else 0
      {
        t := t + 1;
      }
      Later(old(t), t);
      woke := env(t).now;
    }

    /** The reads after a wait: whether a flag or the deadline ended it. */
    method Interruption() returns (b: bool)
      requires Env()
      modifies this`t
      ensures t > old(t)
      ensures b ==> Ended()
      ensures !b ==> !StoppedAt(old(t)) && !failed && !env(old(t)).failed && !PastAt(old(t))
      ensures !b ==> t == old(t) + 3 && !PastAt(old(t) + 2)
      ensures b ==> StoppedAt(t) || FailedAt(t) || PastAt(old(t) + 2)
    {
      ghost var t0 := t;
      var stopping := ReadStopping();
      if stopping {
        Later(t0, t);
        return true;
      }
      ghost var t1 := t;
      var fail := ReadFailed();
      Later(t0, t1);
      if fail {
        Later(t1, t);
        return true;
      }
      ghost var t2 := t;
      b := ReadDurationReached();
      Later(t0, t2);
      Later(t2, t);
    }

    /** One attempt of an outage: the wait, and the session if nothing interrupted it. */
    method TryAgain(delayMs: nat) returns (ok: bool, interrupted: bool, ghost a: Attempt)
      requires Valid()
      modifies this`t, this`outputFailed, this`hasOrigin, this`lastVideoPts, this`nextAudioPts, this`sessions
      ensures Valid() && t > old(t)
      ensures AttemptOk(env, deadline, a) && a.delay == delayMs && a.from == old(t) && a.until == t
      ensures a.began == env(old(t)).now && a.woke <= env(t).now
      ensures OnlyOpened(old(sessions), sessions)
      ensures interrupted <==> a.outcome.Interrupted?
      ensures ok <==> a.outcome == Opened
      ensures interrupted ==> Ended() && outputFailed == old(outputFailed)
      ensures !interrupted ==> (outputFailed <==> a.outcome == DestinationFailed)
      ensures a.outcome == NotTried ==> Ended()
      ensures ok ==> sessions == old(sessions) + [[]]
    {
      hide SessionsOk, OutagesOk, Tied;
      var began := env(t).now;
      t := t + 1;
      Later(t - 1, t);
      ghost var t0 := t;
      var woke := WaitUntil(Min(deadline, began + delayMs));
      ghost var t1 := t;
      interrupted := Interruption();
      Later(t1, t);
      if interrupted {
        return false, true, Attempt(delayMs, t0 - 1, t1, t, began, woke, Interrupted);
      }
      ghost var t2 := t;
      ghost var outcome;
      ok, outcome := OpenSession();
      Later(t2, t);
      a := Attempt(delayMs, t0 - 1, t1, t, began, woke, outcome);
    }

    /** The end of an outage that opened no session: gives up unless there is another reason to end. */
    method GiveUp() returns (gaveUp: bool)
      requires Env()
      modifies this`t, this`failed, this`failureMessage
      ensures t > old(t) && Ended()
      ensures gaveUp ==> !old(Ended()) && failed
      ensures gaveUp ==>
              failureMessage == if outputFailed then ExhaustedAfter(config.reconnectAttempts) else EncoderRestartFailed
      ensures !gaveUp ==> failed == old(failed) && failureMessage == old(failureMessage)
    {
      ghost var t0 := t;
      var go := MayGoOn();
      if !go {
        return false;
      }
      ghost var t1 := t;
      var fail := ReadFailed();
      Later(t0, t1);
      Later(t1, t);
      if fail {
        return false;
      }
      failureMessage := if outputFailed then ExhaustedAfter(config.reconnectAttempts) else EncoderRestartFailed;
      failed := true;
      return true;
    }

    /** The attempts of an outage, until a session opens, the run has ended or none is left. */
    method TryAll() returns (ok: bool, ghost o: seq<Attempt>)
      requires Valid() && outputFailed
      modifies this`t, this`outputFailed, this`hasOrigin, this`lastVideoPts, this`nextAudioPts, this`sessions
      ensures Valid() && t >= old(t) && (ok ==> t > old(t))
      ensures OutageOk(env, deadline, o, config.reconnectAttempts, config.reconnectDelayMs)
      ensures if o == [] then t == old(t) else o[0].from == old(t) && o[|o| - 1].until == t
      ensures OnlyOpened(old(sessions), sessions)
      ensures ok <==> o != [] && o[|o| - 1].outcome == Opened
      ensures ok ==> sessions != [] && sessions[|sessions| - 1] == []
      ensures !Exhausted(o, config.reconnectAttempts) ==> o != [] && o[|o| - 1].outcome != DestinationFailed
      ensures ok ==> !outputFailed
      ensures !ok ==> || Ended()
                      || (outputFailed && Exhausted(o, config.reconnectAttempts))
                      || (!outputFailed && o != [] && o[|o| - 1].outcome == EncodersFailed)
    {
      hide SessionsOk, OutagesOk, Tied, OutageOk, Delay, Rising, Passes, AttemptOk, Ended;
      ghost var n, d := config.reconnectAttempts, config.reconnectDelayMs;
      var delayMs: nat := config.reconnectDelayMs;
      o := [];
      NoAttempts(env, deadline, n, d);
      for attempt := 1 to config.reconnectAttempts + 1
        invariant Valid() && t >= old(t) && outputFailed
        invariant |o| == attempt - 1 && OutageOk(env, deadline, o, n, d) && AllRefused(o) && delayMs == Delay(d, |o|)
        invariant o != [] ==> o[|o| - 1].woke <= env(t).now
        invariant if o == [] then t == old(t) else o[0].from == old(t) && o[|o| - 1].until == t
        invariant OnlyOpened(old(sessions), sessions)
      {
        var isOpen, interrupted;
        ghost var a;
        isOpen, interrupted, a := TryAgain(delayMs);
        AttemptPush(env, deadline, o, a, n, d);
        DelayDoubles(d, |o|);
        o := o + [a];
        if interrupted || isOpen || !outputFailed {
          return isOpen, o;
        }
        delayMs := Min(delayMs * 2, MAX_DELAY);
      }
      ok := false;
    }

    /**
     An outage: at most as many attempts as configured. Either one opens a session, or the run has
     ended; and the sink gives up by itself only after the destination refused every configured
     attempt, or the encoders did not restart.
     */
    method Reconnect() returns (ok: bool, ghost gaveUp: bool, ghost o: seq<Attempt>)
      requires Valid() && outputFailed
      modifies this`t, this`outputFailed, this`hasOrigin, this`lastVideoPts, this`nextAudioPts, this`sessions,
               this`reconnecting, this`outages, this`failed, this`failureMessage
      ensures Valid() && t > old(t) && !reconnecting
      ensures outages == old(outages) + [o]
      ensures OutageOk(env, deadline, o, config.reconnectAttempts, config.reconnectDelayMs)
      ensures o != [] ==> o[0].from == old(t) && (ok ==> o[|o| - 1].until == t)
      ensures ok ==> !outputFailed
      ensures OnlyOpened(old(sessions), sessions)
      ensures ok <==> o != [] && o[|o| - 1].outcome == Opened
      ensures ok ==> sessions != [] && sessions[|sessions| - 1] == []
      ensures !Exhausted(o, config.reconnectAttempts) ==> o != [] && o[|o| - 1].outcome != DestinationFailed
      ensures !ok ==> Ended()
      ensures gaveUp ==> !ok && failed
      ensures gaveUp ==> if Exhausted(o, config.reconnectAttempts)
                         then failureMessage == ExhaustedAfter(config.reconnectAttempts)
                         else failureMessage == EncoderRestartFailed && o[|o| - 1].outcome == EncodersFailed
      ensures !gaveUp ==> failed == old(failed) && failureMessage == old(failureMessage)
    {
      hide SessionsOk, OutagesOk, Tied, OutageOk, Rising, Passes, Ended, AllRefused;
      reconnecting := true;
      ok, o := TryAll();
      reconnecting := false;
      OutagesPush(env, deadline, outages, o, config.reconnectAttempts, config.reconnectDelayMs);
      outages := outages + [o];
      if ok {
        return true, false, o;
      }
      if o != [] && Exhausted(o, config.reconnectAttempts) { RefusedOrNot(o, config.reconnectAttempts); }
      gaveUp := GiveUp();
    }

    ghost function Current(): seq<Stamp>
      requires sessions != []
      reads this`sessions
    {
      sessions[|sessions| - 1]
    }

    /** The sessions after one more stamp in the current one. */
    ghost function Stamped(x: Stamp): seq<seq<Stamp>>
      requires sessions != []
      reads this`sessions
    {
      sessions[|sessions| - 1 := Current() + [x]]
    }

    ghost method Record(x: Stamp, s: seq<Stamp>)
      requires SessionsOk(sessions, config.audioFrame) && sessions != [] && s == Current()
      requires Session(s, config.audioFrame) ==> x.pts == NextPts(s, x.video, x.ms, config.audioFrame)
      modifies this`sessions
      ensures SessionsOk(sessions, config.audioFrame) && sessions == old(Stamped(x)) && Current() == s + [x]
    {
      assert Session(s, config.audioFrame);
      hide SessionsOk, NextPts, Session;
      SessionPush(s, x, config.audioFrame);
      SessionsUpdate(sessions, s + [x], config.audioFrame);
      sessions := sessions[|sessions| - 1 := s + [x]];
    }

    method StampVideo(ms: int, ghost s: seq<Stamp>) returns (pts: int)
      requires Tied(s, config.audioFrame, hasOrigin, originMs, lastVideoPts, nextAudioPts)
      requires Prev(s, true).Some? ==> Prev(s, true).value >= 0
      modifies this`hasOrigin, this`originMs, this`lastVideoPts
      ensures pts == VideoPts(s, ms)
      ensures Tied(s + [Stamp(true, ms, pts)], config.audioFrame, hasOrigin, originMs, lastVideoPts, nextAudioPts)
    {
      hide Prev;
      if !hasOrigin {
        originMs := ms;
        hasOrigin := true;
      }
      pts := MS_VIDEO * (ms - originMs);
      pts := Max(if lastVideoPts < 0 then 0 else lastVideoPts + MS_VIDEO, pts);
      lastVideoPts := pts;
      PrevPush(s, Stamp(true, ms, pts));
    }

    method StampAudio(ms: int, ghost s: seq<Stamp>) returns (pts: int)
      requires Tied(s, config.audioFrame, hasOrigin, originMs, lastVideoPts, nextAudioPts)
      modifies this`hasOrigin, this`originMs, this`nextAudioPts
      ensures pts == AudioPts(s, ms, config.audioFrame)
      ensures Tied(s + [Stamp(false, ms, pts)], config.audioFrame, hasOrigin, originMs, lastVideoPts, nextAudioPts)
    {
      hide Prev;
      if !hasOrigin {
        originMs := ms;
        hasOrigin := true;
      }
      var timestamp := MS_AUDIO * (ms - originMs);
      if nextAudioPts == None || timestamp > nextAudioPts.value + AUDIO_SLACK {
        nextAudioPts := Some(Max(0, timestamp));
      }
      pts := nextAudioPts.value;
      nextAudioPts := Some(pts + config.audioFrame);
      PrevPush(s, Stamp(false, ms, pts));
    }

    /** Stamps a composed frame and hands it to the video encoder. */
    method SendVideo(ms: int) returns (ok: bool)
      requires Valid() && sessions != []
      modifies this`t, this`outputFailed, this`hasOrigin, this`originMs, this`lastVideoPts, this`sessions
      ensures Valid() && t == old(t) + 1
      ensures sessions == old(Stamped(Stamp(true, ms, VideoPts(Current(), ms))))
      ensures outputFailed == (old(outputFailed) || env(old(t)).sent == WriteError)
      ensures ok <==> env(old(t)).sent == Delivered
    {
      ghost var s := Current();
      SessionAt(sessions, config.audioFrame);
      PrevNonNegative(s, true, config.audioFrame);
      hide OutagesOk, SessionsOk, Session, Env, Prev, Tied, VideoPts, AudioPts;
      var pts := StampVideo(ms, s);
      Record(Stamp(true, ms, pts), s);
      ok := Deliver(env(t).sent);
    }

    method Deliver(sent: Sent) returns (ok: bool)
      modifies this`t, this`outputFailed
      ensures t == old(t) + 1 && outputFailed == (old(outputFailed) || sent == WriteError)
      ensures ok <==> sent == Delivered
    {
      if sent == WriteError {
        outputFailed := true;
      }
      t := t + 1;
      ok := sent == Delivered;
    }

    /** Stamps a mixed window and hands it to the audio encoder. */
    method EncodeAudio(w: Window) returns (ok: bool)
      requires Valid() && sessions != []
      modifies this`t, this`outputFailed, this`hasOrigin, this`originMs, this`nextAudioPts, this`sessions
      ensures Valid() && t == old(t) + 1
      ensures sessions == old(Stamped(Stamp(false, w.ms, AudioPts(Current(), w.ms, config.audioFrame))))
      ensures outputFailed == (old(outputFailed) || w.sent == WriteError)
      ensures ok <==> w.sent == Delivered
    {
      ghost var s := Current();
      hide OutagesOk, SessionsOk, Session, Env, Prev, Tied, VideoPts, AudioPts;
      var pts := StampAudio(w.ms, s);
      Record(Stamp(false, w.ms, pts), s);
      ok := Deliver(w.sent);
    }

    /** Sends the windows the mixer has ready, until one fails or the sink is stopped. */
    method DrainMixer(windows: seq<Window>) returns (ok: bool, ghost growth: seq<Stamp>)
      requires Valid() && sessions != []
      modifies this`t, this`outputFailed, this`hasOrigin, this`originMs, this`nextAudioPts, this`sessions
      ensures Valid() && t >= old(t) && sessions == Grow(old(sessions), growth)
      ensures StampsFrom(growth, Handed(WindowOffers(windows)))
      ensures ok ==> AllDelivered(WindowOffers(windows)) && t == old(t) + 2 * |windows|
      ensures ok ==> StampsOf(growth, WindowOffers(windows)) && outputFailed == old(outputFailed)
      ensures !ok && !StoppedAt(t) ==>
                && !AllDelivered(WindowOffers(windows)) && StampsOf(growth, Handed(WindowOffers(windows)))
                && outputFailed == (old(outputFailed) || SomeLost(Handed(WindowOffers(windows))))
    {
      hide OutagesOk, SessionsOk, Tied, Rising, Passes, AudioPts, Handed, AllDelivered, SomeLost;
      ghost var os := WindowOffers(windows);
      ok, growth := true, [];
      GrowTwice(sessions, [], []);
      NoneDelivered(os);
      for k := 0 to |windows|
        invariant Valid() && t == old(t) + 2 * k && sessions == Grow(old(sessions), growth) && sessions != []
        invariant ok && outputFailed == old(outputFailed)
        invariant |growth| == k && StampsFrom(growth, os) && AllDelivered(os[..k])
      {
        var stopping := ReadStopping();
        if stopping {
          Later(t - 1, t);
          DeliveredFirst(os, k);
          HandedShort(os);
          FromPrefix(growth, os, Handed(os));
          return false, growth;
        }
        ghost var x := Stamp(false, windows[k].ms, AudioPts(Current(), windows[k].ms, config.audioFrame));
        GrowTwice(old(sessions), growth, [x]);
        GrowOne(sessions, x);
        ok := EncodeAudio(windows[k]);
        growth := growth + [x];
        if !ok {
          HandedUpTo(os, k);
          HandedShort(os);
          FromPrefix(growth, os, Handed(os));
          return false, growth;
        }
        OneMoreDelivered(os, k);
      }
      assert os[..|windows|] == os;
      HandedAll(os);
    }

    /** Whether neither flag is up, in two reads. */
    method Healthy() returns (b: bool)
      requires Env()
      modifies this`t
      ensures t > old(t)
      ensures b ==> t == old(t) + 2
      ensures !b ==> StoppedAt(t) || FailedAt(t)
    {
      var fail := ReadFailed();
      Later(t - 1, t);
      if fail {
        return false;
      }
      var stopping := ReadStopping();
      Later(t - 1, t);
      b := !stopping;
    }

    /** The composed frame, if there is one. */
    method SendFrame(frame: Option<int>) returns (ok: bool, ghost growth: seq<Stamp>)
      requires Valid() && sessions != []
      modifies this`t, this`outputFailed, this`hasOrigin, this`originMs, this`lastVideoPts, this`sessions
      ensures Valid() && sessions == Grow(old(sessions), growth)
      ensures t == old(t) + if frame.Some? then 1 else 0
      ensures ok <==> frame.None? || env(old(t)).sent == Delivered
      ensures |growth| == if frame.Some? then 1 else 0
      ensures frame.Some? ==> growth[0].video && growth[0].ms == frame.value
      ensures outputFailed == (old(outputFailed) || (frame.Some? && env(old(t)).sent == WriteError))
    {
      hide OutagesOk, SessionsOk, Tied, Rising, Passes, VideoPts;
      ok, growth := true, [];
      GrowTwice(sessions, [], []);
      if frame.Some? {
        ghost var x := Stamp(true, frame.value, VideoPts(Current(), frame.value));
        GrowOne(sessions, x);
        ok := SendVideo(frame.value);
        growth := [x];
      }
    }

    /**
     One pass over the media: a composed frame if there is one, the mixed windows observed after it, and the
     poll.
     */
    method SendMedia(frame: Option<int>) returns (mediaOk: bool, ghost growth: seq<Stamp>)
      requires Valid() && sessions != []
      modifies this`t, this`outputFailed, this`hasOrigin, this`originMs, this`lastVideoPts,
               this`nextAudioPts, this`sessions
      ensures Valid() && t >= old(t) && sessions == Grow(old(sessions), growth)
      ensures mediaOk ==> outputFailed == old(outputFailed)
      ensures var w := old(t) + if frame.Some? then 3 else 2;
        var os := Offers(frame, env(old(t)).sent, env(w).windows);
        var poll := w + 2 * |env(w).windows| + 2;
        && StampsFrom(growth, Handed(os))
        && (!StoppedAt(t) && !FailedAt(t) ==>
              && StampsOf(growth, Handed(os)) && (mediaOk <==> AllDelivered(os) && env(poll).polls)
              && outputFailed == (old(outputFailed) || SomeLost(Handed(os)) || (AllDelivered(os) && !env(poll).polls))
              && (AllDelivered(os) ==> t == poll))
    {
      hide OutagesOk, SessionsOk, Tied, Rising, Passes, AllDelivered, SomeLost, Handed, StampsFrom, Grow;
      ghost var t0 := t;
      ghost var w := t + if frame.Some? then 3 else 2;
      ghost var windows := env(w).windows;
      ghost var os := Offers(frame, env(t).sent, windows);
      mediaOk, growth := SendFrame(frame);
      if !mediaOk {
        OnlyVideo(frame.value, env(t0).sent, windows, growth);
        return false, growth;
      }
      ghost var video := growth;
      GrowKeeps(old(sessions), growth);
      VideoFirst(frame, env(t0).sent, windows, growth);
      var healthy := Healthy();
      if !healthy {
        return true, growth;
      }
      ghost var audio;
      mediaOk, audio := DrainMixer(env(t).windows);
      growth := video + audio;
      GrowTwice(old(sessions), video, audio);
      VideoThenAudio(frame, env(t0).sent, windows, video, audio);
      if !mediaOk {
        return false, growth;
      }
      healthy := Healthy();
      if healthy && !env(t).polls {
        outputFailed := true;
        mediaOk := false;
      }
    }

    /** The failure message of a run, with the outage it reports. */
    ghost predicate MessageOk()
      reads this`failureMessage, this`outages, this`failed
    {
      match failureMessage
      case MediaFailed => true
      case ExhaustedAfter(n) =>
        failed && n == config.reconnectAttempts && outages != [] && Exhausted(outages[|outages| - 1], n)
      case EncoderRestartFailed =>
        failed && outages != [] && var o := outages[|outages| - 1];
                                   o != [] && o[|o| - 1].outcome == EncodersFailed
      case DurationReached => false
    }

    /** Opens the first session, reconnecting if the destination refuses it. */
    method Connect() returns (connected: bool, ghost first: Outcome)
      requires Valid() && failureMessage == MediaFailed
      modifies this`t, this`outputFailed, this`hasOrigin, this`lastVideoPts, this`nextAudioPts, this`sessions,
               this`reconnecting, this`outages, this`failed, this`failureMessage
      ensures Valid() && MessageOk() && t > old(t)
      ensures reconnecting ==> old(reconnecting)
      ensures connected ==> sessions != [] && failureMessage == MediaFailed && failed == old(failed)
      ensures !connected ==> Ended()
      ensures connected ==> first == Opened || first == DestinationFailed
      ensures outages == old(outages) || (first == DestinationFailed && Grown(old(outages), outages))
      ensures first == DestinationFailed ==> StoppedAt(t) || PastAt(t) || Grown(old(outages), outages)
      ensures failed && !old(failed) ==> first == EncodersFailed || Grown(old(outages), outages)
      ensures first == NotTried ==> StoppedAt(t) || PastAt(t)
      ensures first == NotTried || first == Opening(env(old(t) + 2))
      ensures connected <==> first == Opened || (Grown(old(outages), outages) && OpenedAtLast(outages[|old(outages)|]))
      ensures first == Opened ==> t == old(t) + 2
      ensures connected ==> !outputFailed
      ensures OnlyOpened(old(sessions), sessions)
    {
      hide OutagesOk, SessionsOk, Tied, Rising, Passes, OutageOk, Exhausted;
      connected, first := OpenSession();
      ghost var openedAt := t;
      if !connected && outputFailed {
        var go := MayGoOn();
        if go {
          ghost var gaveUp, o;
          connected, gaveUp, o := Reconnect();
        }
      }
      ghost var tried := t;
      Later(openedAt, tried);
      if !connected {
        var go := MayGoOn();
        Later(tried, t);
        if go {
          failed := true;
        }
      }
    }

    /**
     After a media error: an outage if the destination is lost, failure otherwise; neither when
     stopped or past the deadline.
     */
    method Recover() returns (again: bool)
      requires Valid() && failureMessage == MediaFailed && sessions != []
      modifies this`t, this`outputFailed, this`hasOrigin, this`lastVideoPts, this`nextAudioPts, this`sessions,
               this`reconnecting, this`outages, this`failed, this`failureMessage
      ensures Valid() && MessageOk() && t > old(t)
      ensures reconnecting ==> old(reconnecting)
      ensures again ==> failureMessage == MediaFailed && sessions != []
      ensures !again || outputFailed ==> Ended()
      ensures OnlyOpened(old(sessions), sessions)
      ensures !old(outputFailed) ==> outages == old(outages) && (failed || StoppedAt(t) || PastAt(t))
      ensures old(outputFailed) ==> || Grown(old(outages), outages)
                                    || ((StoppedAt(t) || PastAt(t)) && outages == old(outages) && failed == old(failed))
    {
      hide OutagesOk, SessionsOk, Tied, OutageOk, Exhausted, Env;
      var go := MayGoOn();
      if !go {
        return true;
      }
      if outputFailed {
        ghost var gaveUp, o;
        again, gaveUp, o := Reconnect();
      } else {
        failed := true;
        again := true;
      }
    }

    /** The loop condition and the deadline check behind it. */
    method LoopHead() returns (go: bool)
      requires Env()
      modifies this`t
      ensures t > old(t)
      ensures go ==> old(t) < last && t == old(t) + 3 && !old(Ended()) && !PastAt(old(t) + 2)
      ensures !go ==> Ended() && (StoppedAt(t) || FailedAt(t) || PastAt(old(t) + 2))
    {
      hide Rising;
      var ending := Interruption();
      go := !ending;
    }

    /** The loop condition and the media of one pass; `go` says whether the loop is still on. */
    method MediaPass() returns (go: bool, ok: bool, ghost p: PassLog)
      requires Valid() && sessions != [] && (outputFailed ==> Ended())
      modifies this`t, this`outputFailed, this`hasOrigin, this`originMs, this`lastVideoPts,
               this`nextAudioPts, this`sessions
      ensures Valid() && t > old(t) && sessions != [] && sessions == Grow(old(sessions), p.growth)
      ensures go ==> old(t) < last && (ok ==> !outputFailed) && p.lost == outputFailed
      ensures p.ok == ok
      ensures !go ==> Ended() && p.ok
      ensures PassOk(env, deadline, p) && p.begin == old(t) && p.end == t && p.next == t && p.failed == failed
    {
      hide OutagesOk, SessionsOk, Tied, Env, StampsFrom, Handed, AllDelivered, SomeLost, Offers,
           Grow, Stamped, Rising, Passes;
      ghost var begin := t;
      Nothing(sessions, OffersAt(env, begin));
      go := LoopHead();
      if !go {
        return false, true, PassLog(begin, t, t, failed, [], true, false);
      }
      var frame := env(t).frame;
      var healthy := Healthy();
      if !healthy {
        return false, true, PassLog(begin, t, t, failed, [], true, false);
      }
      ghost var was := sessions;
      ghost var growth;
      ok, growth := SendMedia(frame);
      GrowKeeps(was, growth);
      p := PassLog(begin, t, t, false, growth, ok, outputFailed);
    }

    /** One pass of the publishing loop; it says whether to go round again. */
    method Pass() returns (again: bool, ghost p: PassLog)
      requires Valid() && failureMessage == MediaFailed && sessions != [] && (outputFailed ==> Ended())
      modifies this`t, this`outputFailed, this`hasOrigin, this`originMs, this`lastVideoPts,
               this`nextAudioPts, this`sessions,
               this`reconnecting, this`outages, this`failed, this`failureMessage
      ensures Valid() && MessageOk() && t > old(t)
      ensures reconnecting ==> old(reconnecting)
      ensures again ==> old(t) < last && failureMessage == MediaFailed && sessions != []
      ensures !again || outputFailed ==> Ended()
      ensures PassOk(env, deadline, p) && p.begin == old(t) && p.next == t && p.failed == old(failed)
      ensures OnlyOpened(Grow(old(sessions), p.growth), sessions)
      ensures p.ok ==> failed == old(failed) && outages == old(outages)
      ensures !p.ok && !p.lost ==> outages == old(outages) && (failed || StoppedAt(t) || PastAt(t))
      ensures !p.ok && p.lost ==> || Grown(old(outages), outages)
                                  || ((StoppedAt(t) || PastAt(t)) && outages == old(outages) && failed == old(failed))
      ensures old(outages) <= outages
    {
      hide OutagesOk, SessionsOk, Tied, OutageOk, Exhausted, Env, PassOk, Grow, OnlyOpened, StoppedAt, PastAt, Ended;
      ghost var was := sessions;
      var ok;
      again, ok, p := MediaPass();
      GrowKeeps(was, p.growth);
      if again && !ok {
        MoreObservations(env, deadline, p);
        again := Recover();
        p := p.(next := t);
      }
    }

    /** The passes over the media until there is a reason to end. */
    method Publish() returns (ghost ps: seq<PassLog>)
      requires Valid() && sessions != [] && failureMessage == MediaFailed && !outputFailed
      modifies this`t, this`outputFailed, this`hasOrigin, this`originMs, this`lastVideoPts,
               this`nextAudioPts, this`sessions,
               this`reconnecting, this`outages, this`failed, this`failureMessage
      ensures Valid() && MessageOk() && t > old(t) && Ended()
      ensures reconnecting ==> old(reconnecting)
      ensures ps != [] && PassesOk(env, deadline, ps, old(t), t)
      ensures Joined(sessions) == Joined(old(sessions)) + Growths(ps)
      ensures old(outages) <= outages
    {
      hide OutagesOk, SessionsOk, Tied, Rising, OutageOk, Exhausted, Env, PassOk, Joined, Growths, Grow, OnlyOpened;
      var again;
      ghost var p;
      again, p := Pass();
      ps := [p];
      OnePass(p);
      JoinedPass(old(sessions), p.growth, sessions);
      while again
        invariant Valid() && MessageOk() && t > old(t)
        invariant reconnecting ==> old(reconnecting)
        invariant if again then failureMessage == MediaFailed && sessions != [] else Ended()
        invariant outputFailed ==> Ended()
        invariant old(outages) <= outages
        invariant PassesOk(env, deadline, ps, old(t), t)
        invariant Joined(sessions) == Joined(old(sessions)) + Growths(ps)
        decreases again, if t < last then last - t else 0
      {
        ghost var was, at := sessions, t;
        again, p := Pass();
        JoinedPass(was, p.growth, sessions);
        PassesPush(env, deadline, ps, old(t), at, p);
        GrowthsPush(ps, p);
        JoinAgain(Joined(old(sessions)), Growths(ps), p.growth);
        ps := ps + [p];
      }
    }

    ghost predicate FailedAt(i: nat)
      reads this`failed
    {
      failed || env(i).failed
    }

    /** The callback at the end of a run. The status and the message each read the failed flag, in either order. */
    method Report() returns (ghost statusAt: nat, ghost messageAt: nat)
      requires Env() && Ended()
      modifies this`t, this`calls
      ensures old(t) <= statusAt && old(t) <= messageAt
      ensures calls == old(calls) + if registered && !StoppedAt(old(t))
                                    then [Call(FailedAt(statusAt),
                                               if FailedAt(messageAt) then failureMessage else DurationReached)]
                                    else []
    {
      hide Rising, Passes;
      ghost var ended := t;
      statusAt, messageAt := t, t;
      var stopping := ReadStopping();
      if stopping || !registered {
        return;
      }
      var due := ReadFailed();
      Later(ended, t - 1);
      if !due {
        due := ReadDurationReached();
        Later(ended, t - 1);
      }
      if due {
        var statusFirst: bool := *;
        var first := ReadFailed();
        var second := ReadFailed();
        statusAt, messageAt := if statusFirst then t - 2 else t - 1, if statusFirst then t - 1 else t - 2;
        var status, flag := if statusFirst then first else second, if statusFirst then second else first;
        calls := calls + [Call(status, if flag then failureMessage else DurationReached)];
      }
    }

    /**
     A whole run. At the observation `ended` it is stopped, failed or past its deadline. A registered
     callback is called once unless the run was stopped by then: with "failed" exactly when the failed
     flag is up when the status is read, and with the failure message exactly when it is up when the
     message is read. Once a session is open, passes follow each other without a gap until the end, and
     what has been stamped in all the sessions is exactly what the passes sent.
     */
    method Run() returns (ghost ended: nat, ghost statusAt: nat, ghost messageAt: nat,
                          ghost first: Outcome, ghost from: nat, ghost ps: seq<PassLog>)
      requires Valid() && failureMessage == MediaFailed && !reconnecting
      modifies this
      ensures Valid() && MessageOk() && !reconnecting
      ensures old(t) < ended <= statusAt && ended <= messageAt
      ensures StoppedAt(ended) || PastAt(ended) || FailedAt(ended)
      ensures calls == old(calls) + if registered && !StoppedAt(ended)
                                    then [Call(FailedAt(statusAt),
                                               if FailedAt(messageAt) then failureMessage else DurationReached)]
                                    else []
      ensures first == NotTried || first == Opening(env(old(t) + 2))
      ensures first == NotTried ==> StoppedAt(ended) || PastAt(ended)
      ensures first == Opened ==> from == old(t) + 2
      ensures ps != [] <==> first == Opened || (|outages| > |old(outages)| && OpenedAtLast(outages[|old(outages)|])
                                                && first == DestinationFailed)
      ensures ps != [] ==> PassesOk(env, deadline, ps, from, ended)
      ensures Joined(sessions) == Joined(old(sessions)) + Growths(ps)
    {
      hide OutagesOk, SessionsOk, Tied, MessageOk, Env, PassesOk, OnlyOpened, Joined, Exhausted;
      var connected;
      connected, first := Connect();
      JoinedOpened(old(sessions), sessions);
      from, ps := t, [];
      NoGrowth(Joined(sessions));
      if connected {
        ps := Publish();
      }
      ended := t;
      statusAt, messageAt := Report();
    }
  }
}
