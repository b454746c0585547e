/**
 What each queue operation does to lists, records and leases, field by field, and laws that tie
 operations together.
 */
module LeaseLaws {
  import opened LeaseStore
  import opened LeaseProtocol
  import opened Options

  /** All lists but those under k and l are the same. */
  ghost predicate OthersSame(was: map<Key, seq<Id>>, now: map<Key, seq<Id>>, k: Key, l: Key) {
    forall x :: x != k && x != l ==> ListAt(now, x) == ListAt(was, x)
  }

  /** A published task goes to the queue of its layout and region, behind the others, with a fresh record. */
  lemma PublishMeans(st: Store, id: Id, cmd: string, channel: string, layout: string, region: string)
    ensures var r := Publish(st, id, cmd, channel, layout, region);
      var path := if layout == "freestyle" then "web:" + cmd + ":" + channel else cmd + ":" + channel;
      var key := Main(if region == "" then "egress:" + path else "egress:" + region + ":" + path);
      && ListAt(r.lists, key) == [id] + ListAt(st.lists, key) && OthersSame(st.lists, r.lists, key, key)
      && r.tasks == st.tasks[id := Task(cmd, channel, Enqueued, st.now, Some(st.now), None, None, -1, None, 0, "")]
      && r.leases == st.leases && r.now == st.now
  {
    var path := if layout == "freestyle" then "web:" + cmd + ":" + channel else cmd + ":" + channel;
    KeyIs(layout, cmd, channel, region);
    hide QueueKey;
  }

  lemma KeyIs(layout: string, cmd: string, channel: string, region: string)
    ensures var path := if layout == "freestyle" then "web:" + cmd + ":" + channel else cmd + ":" + channel;
      QueueKey(layout, cmd, channel, region)
      == Main(if region == "" then "egress:" + path else "egress:" + region + ":" + path)
  {
    var tail := cmd + ":" + channel;
    assert "web:" + cmd + ":" + channel == "web:" + tail;
    assert "egress:" + "web:" + cmd + ":" + channel == "egress:" + ("web:" + tail);
    assert "egress:" + "" + cmd + ":" + channel == "egress:" + tail;
    assert "egress:" + region + ":" + "web:" + cmd + ":" + channel == "egress:" + region + ":" + ("web:" + tail);
    assert "egress:" + region + ":" + "" + cmd + ":" + channel == "egress:" + region + ":" + tail;
  }

  /** The oldest task of the queue, the last of its list, is claimed by the pod for 45 s. */
  lemma FetchMeans(st: Store, pod: Pod, queue: string, id: Id)
    requires ListAt(st.lists, Main(queue)) != [] && id == LastOf(ListAt(st.lists, Main(queue)))
    requires id in st.tasks && (st.tasks[id].podId == "" || st.tasks[id].podId == pod)
    ensures var r := Fetch(st, pod, queue);
      var main, mine := Main(queue), Processing(pod);
      && ListAt(r.lists, main) + [id] == ListAt(st.lists, main)
      && ListAt(r.lists, mine) == [id] + ListAt(st.lists, mine) && OthersSame(st.lists, r.lists, main, mine)
      && r.tasks == st.tasks[id := st.tasks[id].(state := Working, processedAt := Some(st.now), workerId := -1,
                                                 leaseExpiry := Some(st.now + 45000), podId := pod)]
      && r.leases == st.leases[id := Lease(pod, st.now + 45000)] && r.now == st.now
  {
  }

  /** A task whose record is gone goes back to the head of its queue; an empty queue changes nothing. */
  lemma FetchFails(st: Store, pod: Pod, queue: string)
    ensures ListAt(st.lists, Main(queue)) == [] ==> Fetch(st, pod, queue) == st
    ensures ListAt(st.lists, Main(queue)) != [] ==>
              var s := ListAt(st.lists, Main(queue));
              var id, r := s[|s| - 1], Fetch(st, pod, queue);
              id !in st.tasks && id !in ListAt(st.lists, Processing(pod)) ==>
                && ListAt(r.lists, Main(queue)) == [id] + s[..|s| - 1]
                && OthersSame(st.lists, r.lists, Main(queue), Main(queue))
                && r.tasks == st.tasks && r.leases == st.leases && r.now == st.now
  {
    hide Without;
    var s := ListAt(st.lists, Main(queue));
    if s != [] {
      var id := s[|s| - 1];
      WithoutHead(id, ListAt(st.lists, Processing(pod)));
    }
  }

  lemma WithoutHead(id: Id, s: seq<Id>)
    ensures Without([id] + s, id) == s
  {
  }

  /** A task that prefers another pod goes to the end of that pod's stop queue. */
  lemma FetchDefers(st: Store, pod: Pod, queue: string, id: Id)
    requires ListAt(st.lists, Main(queue)) != [] && id == LastOf(ListAt(st.lists, Main(queue)))
    requires id in st.tasks && st.tasks[id].podId != "" && st.tasks[id].podId != pod
    requires queue != "egress:stop:" + st.tasks[id].podId && id !in ListAt(st.lists, Processing(pod))
    ensures var r := Fetch(st, pod, queue);
      var main, there := Main(queue), Main("egress:stop:" + st.tasks[id].podId);
      && ListAt(r.lists, main) + [id] == ListAt(st.lists, main)
      && ListAt(r.lists, there) == ListAt(st.lists, there) + [id] && OthersSame(st.lists, r.lists, main, there)
      && r.tasks == st.tasks && r.leases == st.leases && r.now == st.now
  {
    hide Without;
    WithoutHead(id, ListAt(st.lists, Processing(pod)));
  }

  /** The holder of a live lease extends it to 45 s from now; nobody else changes anything. */
  lemma RenewMeans(st: Store, id: Id, pod: Pod)
    ensures var leased := id in st.leases && st.now < st.leases[id].expiry;
      var holds := leased && st.leases[id].holder == pod && id in st.tasks;
      var r := Renew(st, id, pod);
      if !holds then r == st
      else
        && r.lists == st.lists && r.now == st.now
        && r.tasks == st.tasks[id := st.tasks[id].(leaseExpiry := Some(st.now + 45000))]
        && r.leases == st.leases[id := Lease(pod, st.now + 45000)]
  {
  }

  /** An unleased task that is not finished starts over: enqueued now, with one more retry and no trace of its pod. */
  lemma RecoverMeans(st: Store, id: Id, pod: Pod)
    requires !(id in st.leases && st.now < st.leases[id].expiry) && id in st.tasks
    requires var state := st.tasks[id].state; state == Enqueued || state == Working || state == Stopping
    ensures var r, t := Recover(st, id, pod), st.tasks[id];
      var key, mine := Main("egress:" + t.cmd + ":" + t.channel), Processing(pod);
      && r.tasks == st.tasks[id := Task(t.cmd, t.channel, Enqueued, t.createdAt, Some(st.now), None, t.completedAt, -1,
                                        None, t.retryCount + 1, "")]
      && ListAt(r.lists, key) == [id] + ListAt(st.lists, key)
      && ListAt(r.lists, mine) == Without(ListAt(st.lists, mine), id) && OthersSame(st.lists, r.lists, key, mine)
      && r.leases == st.leases - {id} && r.now == st.now
  {
    hide Without;
  }

  /** A leased entry is left alone; one whose task is finished or gone only leaves the processing list. */
  lemma RecoverSkips(st: Store, id: Id, pod: Pod)
    ensures var r, leased := Recover(st, id, pod), id in st.leases && st.now < st.leases[id].expiry;
      var over := id in st.tasks ==> st.tasks[id].state in [Stopped, Failed, TimedOut];
      && (leased ==> r == st)
      && (!leased && over ==>
            && ListAt(r.lists, Processing(pod)) == Without(ListAt(st.lists, Processing(pod)), id)
            && OthersSame(st.lists, r.lists, Processing(pod), Processing(pod))
            && r.tasks == st.tasks && r.leases == st.leases && r.now == st.now)
  {
    hide Without;
  }

  /** A task enqueued for more than 30 s, and still queued, times out and leaves its queue. */
  lemma TimeoutMeans(st: Store, id: Id, queue: string)
    requires id in st.tasks && st.tasks[id].enqueuedAt.Some?
    ensures var r, t := Timeout(st, id, queue), st.tasks[id];
      var due := t.state == Enqueued && st.now - t.enqueuedAt.value > 30000 && id in ListAt(st.lists, Main(queue));
      if !due then r == st
      else
        && r.tasks == st.tasks[id := t.(state := TimedOut)]
        && ListAt(r.lists, Main(queue)) == Without(ListAt(st.lists, Main(queue)), id)
        && OthersSame(st.lists, r.lists, Main(queue), Main(queue)) && r.leases == st.leases && r.now == st.now
  {
    hide Without;
  }

  /** A reported result is written as it is, with the completion time exactly for a final state. */
  lemma UpdateResultMeans(st: Store, id: Id, state: State)
    ensures var r := UpdateResult(st, id, state);
      && r.lists == st.lists && r.leases == st.leases && r.now == st.now && r.tasks.Keys == st.tasks.Keys
      && (forall x :: x in st.tasks && x != id ==> r.tasks[x] == st.tasks[x])
      && (id in st.tasks ==>
            var t := st.tasks[id];
            var over := state == Stopped || state == Failed || state == TimedOut;
            var done := if over then Some(st.now) else t.completedAt;
            r.tasks[id] == Task(t.cmd, t.channel, state, t.createdAt, t.enqueuedAt, t.processedAt, done, t.workerId,
                                t.leaseExpiry, t.retryCount, t.podId))
  {
  }

  lemma DeleteMeans(st: Store, id: Id)
    ensures var r := Delete(st, id);
      && id !in r.tasks && id !in r.leases && r.lists == st.lists && r.now == st.now
      && (forall x :: x != id ==> (x in r.tasks <==> x in st.tasks) && (x in r.leases <==> x in st.leases))
      && (forall x :: x in r.tasks ==> r.tasks[x] == st.tasks[x])
      && (forall x :: x in r.leases ==> r.leases[x] == st.leases[x])
  {
  }

  // ----- laws -----

  /** A recovered task waits for its turn like a new one: it times out after more than 30 s, and not before. */
  lemma RecoveredTimesOut(st: Store, id: Id, pod: Pod, ms: nat)
    requires !Live(st, id) && id in st.tasks && !Terminal(st.tasks[id].state)
    ensures var q := "egress:" + st.tasks[id].cmd + ":" + st.tasks[id].channel;
      var recovered := Recover(st, id, pod);
      var later := recovered.(now := recovered.now + ms);
      var r := Timeout(later, id, q);
      if ms <= 30000 then r == later
      else
        && id in r.tasks && r.tasks[id].state == TimedOut
        && ListAt(r.lists, Main(q)) == ListAt(st.lists, Main(q))
  {
    var q := "egress:" + st.tasks[id].cmd + ":" + st.tasks[id].channel;
    RecoverMeans(st, id, pod);
    var recovered := Recover(st, id, pod);
    TimeoutMeans(recovered.(now := recovered.now + ms), id, q);
    WithoutHead(id, ListAt(st.lists, Main(q)));
    hide Recover, Timeout, Without;
  }

  /** A finished task that is in no main queue. */
  ghost predicate Down(s: System, id: Id) {
    id in s.claims && !(id in s.home && s.home[id].Main?) && (id in s.st.tasks ==> Terminal(s.st.tasks[id].state))
  }

  /** Nobody revives the task by reporting that it goes on. */
  predicate NotRevived(actions: seq<Action>, id: Id) {
    forall k :: 0 <= k < |actions| && actions[k].Reports? && actions[k].id == id ==> Terminal(actions[k].state)
  }

  lemma FetchStaysDown(s: System, pod: Pod, queue: string, id: Id)
    requires Inv(s) && Down(s, id)
    ensures Down(FetchStep(s, pod, queue), id) && NotRecovered(s.events, FetchStep(s, pod, queue).events, id)
  {
    if ListAt(s.st.lists, Main(queue)) != [] { FetchPops(s, pod, queue); }
    hide History, Returned, QueuedOk, HeldOk, Placed, Known;
  }

  lemma StepStaysDown(s: System, a: Action, id: Id)
    requires Inv(s) && Enabled(s, a) && Down(s, id)
    requires a.Reports? && a.id == id ==> Terminal(a.state)
    ensures Down(Step(s, a), id) && NotRecovered(s.events, Step(s, a).events, id)
  {
    if a.Fetches? { FetchStaysDown(s, a.pod, a.queue, id); }
    hide Inv, FetchStep;
  }

  /**
   A task reported stopped, failed or timed out while a pod holds it is done: no later recovery, fetch or
   cleanup puts it back into a queue.
   */
  lemma {:induction false} DoneStaysDown(s: System, actions: seq<Action>, t: System, id: Id)
    requires Inv(s) && Down(s, id) && Reaches(s, actions, t) && NotRevived(actions, id)
    ensures Down(t, id) && NotRecovered(s.events, t.events, id)
    ensures forall name :: id !in ListAt(t.st.lists, Main(name))
    decreases |actions|
  {
    if actions != [] {
      StepKeepsInv(s, actions[0]);
      StepStaysDown(s, actions[0], id);
      hide Inv, Step, Enabled, Down;
      DoneStaysDown(Step(s, actions[0]), actions[1..], t, id);
    } else {
      assert forall name :: id in ListAt(s.st.lists, Main(name)) <==> At(s.home, id, Main(name));
    }
  }

  /** Reporting a final state of a held task begins this. */
  lemma ReportBringsDown(s: System, id: Id, pod: Pod, state: State)
    requires Inv(s) && id in ListAt(s.st.lists, Processing(pod))
    requires state == Stopped || state == Failed || state == TimedOut
    ensures Down(Step(s, Reports(id, state)), id)
  {
    assert id in ListAt(s.st.lists, Processing(pod)) <==> At(s.home, id, Processing(pod));
  }
}
