/**
 The queue operations as methods on the shared store, with the loops of the cleanup pass.
 */
module LeaseCleanup {
  import opened LeaseStore
  import opened Options
  import opened LeaseProtocol

  // ----- what a cleanup pass does -----

  /** The members of s that are not in gone, in order. */
  function Kept(s: seq<Id>, gone: set<Id>): seq<Id> {
    if s == [] then []
    else if s[0] in gone then Kept(s[1..], gone)
    else [s[0]] + Kept(s[1..], gone)
  }

  lemma {:induction false} KeptMembers(s: seq<Id>, gone: set<Id>)
    ensures forall x :: x in Kept(s, gone) <==> x in s && x !in gone
    decreases |s|
  {
    if s != [] { KeptMembers(s[1..], gone); }
  }

  lemma {:induction false} KeptAll(s: seq<Id>, gone: set<Id>)
    requires forall x :: x in s ==> x !in gone
    ensures Kept(s, gone) == s
    decreases |s|
  {
    if s != [] { KeptAll(s[1..], gone); }
  }

  /** Letting one more member go is removing its one occurrence. */
  lemma {:induction false} KeptLess(s: seq<Id>, gone: set<Id>, id: Id)
    requires NoDup(s) && id !in gone
    ensures Kept(s, gone + {id}) == Without(Kept(s, gone), id)
    decreases |s|
  {
    if s != [] {
      KeptLess(s[1..], gone, id);
      if s[0] == id {
        assert id !in s[1..];
        KeptMembers(s[1..], gone);
        WithoutAbsent(Kept(s[1..], gone), id);
        assert Kept(s, gone) == [id] + Kept(s[1..], gone);
      } else if s[0] !in gone {
        assert Kept(s, gone)[1..] == Kept(s[1..], gone);
      }
    }
  }

  ghost predicate InProcessing(st: Store, id: Id) {
    exists pod :: id in ListAt(st.lists, Processing(pod))
  }

  /** id goes back to queue k. */
  predicate GoesTo(st: Store, id: Id, k: Key) {
    Recoverable(st, id) && GlobalKey(st.tasks[id].cmd, st.tasks[id].channel) == k
  }

  /** Queue k of `after` is that of `st` with the requeued members of gone in front. */
  ghost predicate QueueGrown(st: Store, after: Store, gone: set<Id>, k: Key) {
    var had, has := ListAt(st.lists, k), ListAt(after.lists, k);
    && |had| <= |has| && has[|has| - |had|..] == had
    && NoDup(has[..|has| - |had|])
    && forall id :: id in has[..|has| - |had|] <==> id in gone && GoesTo(st, id, k)
  }

  ghost predicate ListsAfter(st: Store, after: Store, gone: set<Id>) {
    && (forall pod :: ListAt(after.lists, Processing(pod)) == Kept(ListAt(st.lists, Processing(pod)), gone))
    && (forall name :: QueueGrown(st, after, gone, Main(name)))
  }

  ghost predicate RecordsAfter(st: Store, after: Store, gone: set<Id>) {
    && after.now == st.now
    && after.tasks.Keys == st.tasks.Keys
    && (forall id :: id in st.tasks ==>
          after.tasks[id] == if id in gone && Recoverable(st, id) then Requeued(st.tasks[id], st.now) else st.tasks[id])
    && (forall id :: id in after.leases <==> id in st.leases && !(id in gone && Recoverable(st, id)))
    && (forall id :: id in after.leases ==> after.leases[id] == st.leases[id])
  }

  /** `after` is `st` with the entries in gone, none of them leased, cleaned up. */
  ghost predicate Cleaned(st: Store, after: Store, gone: set<Id>) {
    && (forall id :: id in gone ==> !Live(st, id) && InProcessing(st, id))
    && ListsAfter(st, after, gone) && RecordsAfter(st, after, gone)
  }

  /** Everything not leased is gone. */
  ghost predicate Complete(st: Store, gone: set<Id>) {
    forall id :: InProcessing(st, id) && !Live(st, id) ==> id in gone
  }

  ghost predicate CleanedAll(st: Store, after: Store) {
    exists gone :: Cleaned(st, after, gone) && Complete(st, gone)
  }

  lemma CleanedNothing(st: Store, none: set<Id>)
    requires none == {}
    ensures Cleaned(st, st, none)
  {
    forall pod ensures ListAt(st.lists, Processing(pod)) == Kept(ListAt(st.lists, Processing(pod)), none) {
      KeptAll(ListAt(st.lists, Processing(pod)), none);
    }
    forall name ensures QueueGrown(st, st, none, Main(name)) {
      var s := ListAt(st.lists, Main(name));
      assert s[0..] == s && s[..0] == [];
    }
  }

  /** The leases and the recoverable tasks that are left are what they were. */
  lemma StillTheSame(st: Store, mid: Store, gone: set<Id>, id: Id)
    requires RecordsAfter(st, mid, gone) && id !in gone
    ensures Live(mid, id) == Live(st, id) && Recoverable(mid, id) == Recoverable(st, id)
    ensures id in mid.tasks <==> id in st.tasks
    ensures id in st.tasks ==> mid.tasks[id] == st.tasks[id]
  {
  }

  lemma RecoverRecords(st: Store, mid: Store, gone: set<Id>, id: Id, pod: Pod)
    requires RecordsAfter(st, mid, gone) && id !in gone && !Live(st, id)
    ensures RecordsAfter(st, Recover(mid, id, pod), gone + {id})
  {
    StillTheSame(st, mid, gone, id);
  }

  lemma RecoverProcessing(st: Store, mid: Store, home: map<Id, Key>, gone: set<Id>, id: Id, pod: Pod, p: Pod)
    requires Placed(st.lists, home) && RecordsAfter(st, mid, gone) && id !in gone && !Live(st, id)
    requires forall q :: ListAt(mid.lists, Processing(q)) == Kept(ListAt(st.lists, Processing(q)), gone)
    requires id in ListAt(st.lists, Processing(pod))
    ensures ListAt(Recover(mid, id, pod).lists, Processing(p)) == Kept(ListAt(st.lists, Processing(p)), gone + {id})
  {
    StillTheSame(st, mid, gone, id);
    var s := ListAt(st.lists, Processing(p));
    KeptLess(s, gone, id);
    if p != pod {
      assert At(home, id, Processing(pod));
      assert id !in s;
      KeptMembers(s, gone);
      WithoutAbsent(Kept(s, gone), id);
    }
  }

  /** What recovering an entry does to a main queue. */
  lemma RecoverMainList(mid: Store, id: Id, pod: Pod, name: string)
    requires !Live(mid, id)
    ensures ListAt(Recover(mid, id, pod).lists, Main(name))
            == if GoesTo(mid, id, Main(name)) then [id] + ListAt(mid.lists, Main(name))
               else ListAt(mid.lists, Main(name))
  {
  }

  lemma FrontGrows(st: Store, mid: Store, after: Store, gone: set<Id>, id: Id, k: Key)
    requires QueueGrown(st, mid, gone, k) && id !in gone
    requires ListAt(after.lists, k) == if GoesTo(st, id, k) then [id] + ListAt(mid.lists, k) else ListAt(mid.lists, k)
    ensures QueueGrown(st, after, gone + {id}, k)
  {
    hide GoesTo;
    var had, before, has := ListAt(st.lists, k), ListAt(mid.lists, k), ListAt(after.lists, k);
    var r := before[..|before| - |had|];
    if GoesTo(st, id, k) {
      assert has[..|has| - |had|] == [id] + r;
      assert has[|has| - |had|..] == before[|before| - |had|..];
      ConsNoDup(id, r);
      assert forall x :: x in [id] + r <==> x == id || x in r;
    }
  }

  lemma RecoverMain(st: Store, mid: Store, gone: set<Id>, id: Id, pod: Pod, name: string)
    requires RecordsAfter(st, mid, gone) && id !in gone && !Live(st, id) && QueueGrown(st, mid, gone, Main(name))
    ensures QueueGrown(st, Recover(mid, id, pod), gone + {id}, Main(name))
  {
    StillTheSame(st, mid, gone, id);
    hide QueueGrown, Recover, RecordsAfter, Live;
    RecoverMainList(mid, id, pod, name);
    FrontGrows(st, mid, Recover(mid, id, pod), gone, id, Main(name));
  }

  /** Recovering one more entry. */
  lemma CleanOne(st: Store, mid: Store, home: map<Id, Key>, gone: set<Id>, id: Id, pod: Pod)
    requires Placed(st.lists, home) && Cleaned(st, mid, gone)
    requires id in ListAt(st.lists, Processing(pod)) && id !in gone && !Live(st, id)
    ensures Cleaned(st, Recover(mid, id, pod), gone + {id})
  {
    hide Placed, QueueGrown, RecordsAfter, Recover, Kept, Live;
    var after := Recover(mid, id, pod);
    RecoverRecords(st, mid, gone, id, pod);
    forall p ensures ListAt(after.lists, Processing(p)) == Kept(ListAt(st.lists, Processing(p)), gone + {id}) {
      RecoverProcessing(st, mid, home, gone, id, pod, p);
    }
    forall name ensures QueueGrown(st, after, gone + {id}, Main(name)) {
      RecoverMain(st, mid, gone, id, pod, name);
    }
  }

  /** After a full pass every processing entry is leased, and exactly the unleased live tasks are queued again. */
  lemma PassIsComplete(st: Store, after: Store, pod: Pod, id: Id)
    requires CleanedAll(st, after)
    ensures id in ListAt(after.lists, Processing(pod)) <==> id in ListAt(st.lists, Processing(pod)) && Live(st, id)
    ensures id in ListAt(after.lists, Processing(pod)) ==> Live(after, id)
    ensures InProcessing(st, id) && Recoverable(st, id) ==>
              && id in st.tasks && id in after.tasks
              && var t := st.tasks[id];
                 && id in ListAt(after.lists, Main("egress:" + t.cmd + ":" + t.channel))
                 && after.tasks[id] == Task(t.cmd, t.channel, Enqueued, t.createdAt, Some(st.now), None,
                                            t.completedAt, -1, None, t.retryCount + 1, "")
    ensures Recoverable(st, id) <==>
              && !(id in st.leases && st.now < st.leases[id].expiry) && id in st.tasks
              && st.tasks[id].state != Stopped && st.tasks[id].state != Failed && st.tasks[id].state != TimedOut
    ensures !(InProcessing(st, id) && Recoverable(st, id)) && id in st.tasks ==>
              id in after.tasks && after.tasks[id] == st.tasks[id]
    ensures forall name :: id in ListAt(after.lists, Main(name)) ==>
              id in ListAt(st.lists, Main(name)) || (InProcessing(st, id) && GoesTo(st, id, Main(name)))
  {
    var gone :| Cleaned(st, after, gone) && Complete(st, gone);
    var s := ListAt(st.lists, Processing(pod));
    KeptMembers(s, gone);
    if id in s { assert InProcessing(st, id); }
    forall name ensures id in ListAt(after.lists, Main(name)) ==>
        id in ListAt(st.lists, Main(name)) || (InProcessing(st, id) && GoesTo(st, id, Main(name)))
    {
      FromOldOrFront(st, after, gone, name, id);
    }
    if InProcessing(st, id) && Recoverable(st, id) {
      FromOldOrFront(st, after, gone, GlobalKey(st.tasks[id].cmd, st.tasks[id].channel).name, id);
    }
  }

  lemma FromOldOrFront(st: Store, after: Store, gone: set<Id>, name: string, id: Id)
    requires Cleaned(st, after, gone)
    ensures id in ListAt(after.lists, Main(name)) <==>
              id in ListAt(st.lists, Main(name)) || (id in gone && GoesTo(st, id, Main(name)))
  {
    assert QueueGrown(st, after, gone, Main(name));
    hide Cleaned, GoesTo, NoDup;
    InFrontOrBehind(ListAt(after.lists, Main(name)), ListAt(st.lists, Main(name)), id);
  }

  lemma InFrontOrBehind(has: seq<Id>, had: seq<Id>, id: Id)
    requires |had| <= |has| && has[|has| - |had|..] == had
    ensures id in has <==> id in had || id in has[..|has| - |had|]
  {
    var n := |has| - |had|;
    assert has == has[..n] + has[n..];
  }

  // ----- the methods -----

  class RedisQueue {
    var lists: map<Key, seq<Id>>
    var tasks: map<Id, Task>
    var leases: map<Id, Lease>
    var now: int

    /** The state of the protocol, with its history. */
    ghost var sys: System

    ghost function View(): Store
      reads this
    {
      Store(lists, tasks, leases, now)
    }

    ghost predicate Valid()
      reads this
    {
      sys.st == View()
    }

    /** One action of the protocol has been performed; it keeps the invariant where it is enabled. */
    twostate predicate Performed(a: Action)
      reads this
    {
      && Valid() && sys == Step(old(sys), a)
      && (Inv(old(sys)) && Enabled(old(sys), a) ==> Inv(sys))
    }

    ghost method Perform(a: Action)
      modifies this`sys
      ensures sys == Step(old(sys), a)
      ensures Inv(old(sys)) && Enabled(old(sys), a) ==> Inv(sys)
    {
      hide Inv, Step, Enabled;
      if Inv(sys) && Enabled(sys, a) { StepKeepsInv(sys, a); }
      sys := Step(sys, a);
    }

    constructor (now: int)
      ensures View() == Store(map[], map[], map[], now)
      ensures Valid() && sys == Initial(now) && Inv(sys)
    {
      lists, tasks, leases := map[], map[], map[];
      this.now := now;
      sys := Initial(now);
    }

    method PublishTaskToRegion(id: Id, cmd: string, channel: string, layout: string, region: string)
      requires Valid()
      modifies this
      ensures View() == Publish(old(View()), id, cmd, channel, layout, region)
      ensures Performed(Publishes(id, cmd, channel, layout, region))
    {
      Perform(Publishes(id, cmd, channel, layout, region));
      var task := Task(cmd, channel, Enqueued, now, Some(now), None, None, -1, None, 0, "");
      var queueKey := QueueKey(layout, cmd, channel, region);
      lists := LPush(lists, queueKey, id);
      tasks := tasks[id := task];
    }

    /** The second half of a fetch, which performs the action as a whole. */
    method ClaimTaskWithLease(id: Id, pod: Pod) returns (ok: bool)
      modifies this`tasks, this`leases
      ensures var r := Claim(old(View()), id, pod);
        ok == r.Some? && View() == if r.Some? then r.value else old(View())
    {
      if id !in tasks {
        return false;
      }
      var leaseExpiry := now + LEASE_TIMEOUT_MS;
      var task := tasks[id].(state := Working, processedAt := Some(now), workerId := -1,
                             leaseExpiry := Some(leaseExpiry), podId := pod);
      tasks := tasks[id := task];
      leases := leases[id := Lease(pod, leaseExpiry)];
      ok := true;
    }

    method FetchTask(pod: Pod, queue: string)
      requires Valid()
      modifies this
      ensures View() == Fetch(old(View()), pod, queue)
      ensures Performed(Fetches(pod, queue))
    {
      Perform(Fetches(pod, queue));
      var s := ListAt(lists, Main(queue));
      if s == [] {
        return;
      }
      var id := s[|s| - 1];
      lists := LPush(RPop(lists, Main(queue)), Processing(pod), id);
      if id in tasks && tasks[id].podId != "" && tasks[id].podId != pod {
        lists := LRem(lists, Processing(pod), id);
        lists := RPush(lists, Main("egress:stop:" + tasks[id].podId), id);
        return;
      }
      var ok := ClaimTaskWithLease(id, pod);
      if !ok {
        lists := LRem(lists, Processing(pod), id);
        lists := LPush(lists, Main(queue), id);
      }
    }

    method RenewLease(id: Id, pod: Pod)
      requires Valid()
      modifies this
      ensures View() == Renew(old(View()), id, pod)
      ensures Performed(Renews(id, pod))
    {
      Perform(Renews(id, pod));
      if id !in leases || now >= leases[id].expiry {
        return;
      }
      if leases[id].holder != pod {
        return;
      }
      if id !in tasks {
        return;
      }
      var newExpiry := now + LEASE_TIMEOUT_MS;
      tasks := tasks[id := tasks[id].(leaseExpiry := Some(newExpiry))];
      leases := leases[id := Lease(leases[id].holder, newExpiry)];
    }

    method CheckAndRecoverTask(id: Id, pod: Pod)
      requires Valid()
      modifies this
      ensures View() == Recover(old(View()), id, pod)
      ensures Performed(Recovers(id, pod))
    {
      Perform(Recovers(id, pod));
      if id in leases && now < leases[id].expiry {
        return;
      }
      if id !in tasks {
        lists := LRem(lists, Processing(pod), id);
        return;
      }
      var task := tasks[id];
      if task.state == Stopped || task.state == Failed || task.state == TimedOut {
        lists := LRem(lists, Processing(pod), id);
        return;
      }
      task := task.(retryCount := task.retryCount + 1, state := Enqueued, workerId := -1, leaseExpiry := None,
                    processedAt := None, podId := "");
      task := task.(enqueuedAt := Some(now));
      tasks := tasks[id := task];
      lists := LPush(lists, GlobalKey(task.cmd, task.channel), id);
      lists := LRem(lists, Processing(pod), id);
      leases := leases - {id};
    }

    method CheckAndTimeoutEnqueuedTask(id: Id, queue: string)
      requires Valid()
      modifies this
      ensures View() == Timeout(old(View()), id, queue)
      ensures Performed(TimesOut(id, queue))
    {
      Perform(TimesOut(id, queue));
      if id !in tasks {
        lists := LRem(lists, Main(queue), id);
        return;
      }
      var task := tasks[id];
      if task.state != Enqueued {
        return;
      }
      var enqueuedTime := if task.enqueuedAt.Some? then task.enqueuedAt.value else task.createdAt;
      if now - enqueuedTime <= TASK_TIMEOUT_MS {
        return;
      }
      if id !in ListAt(lists, Main(queue)) {
        return;
      }
      tasks := tasks[id := task.(state := TimedOut)];
      lists := LRem(lists, Main(queue), id);
    }

    method UpdateTaskResult(id: Id, state: State)
      requires Valid()
      modifies this
      ensures View() == UpdateResult(old(View()), id, state)
      ensures Performed(Reports(id, state))
    {
      Perform(Reports(id, state));
      if id !in tasks {
        return;
      }
      var task := tasks[id].(state := state);
      if state == Stopped || state == Failed || state == TimedOut {
        task := task.(completedAt := Some(now));
      }
      tasks := tasks[id := task];
    }

    /** Time passes; leases lapse by themselves. */
    method Wait(ms: nat)
      requires Valid()
      modifies this
      ensures View() == old(View()).(now := old(now) + ms)
      ensures Performed(Ticks(ms))
    {
      Perform(Ticks(ms));
      now := now + ms;
    }

    method DeleteTask(id: Id)
      requires Valid()
      modifies this
      ensures View() == Delete(old(View()), id)
      ensures Performed(Deletes(id))
    {
      Perform(Deletes(id));
      tasks := tasks - {id};
      leases := leases - {id};
    }

    /** The inner loop: every entry of one processing list, as read at the start. */
    method RecoverList(pod: Pod, ghost st: Store, ghost home: map<Id, Key>, ghost before: set<Id>, ghost run: Run)
      returns (ghost gone: set<Id>, ghost longer: Run)
      requires Placed(st.lists, home) && Cleaned(st, View(), before) && Valid() && run.Ok() && run.end == sys
      requires forall id :: id in ListAt(st.lists, Processing(pod)) ==> id !in before
      modifies this
      ensures Cleaned(st, View(), gone) && before <= gone
      ensures forall id :: id in gone ==> id in before || id in ListAt(st.lists, Processing(pod))
      ensures forall id :: id in ListAt(st.lists, Processing(pod)) && !Live(st, id) ==> id in gone
      ensures Valid() && longer.Ok() && longer.start == run.start && longer.end == sys
    {
      hide Placed, Cleaned, Recover, Run.Ok, Run.Recovering;
      gone, longer := before, run;
      SnapshotIsOriginal(st, View(), before, pod);
      ListNoDup(st.lists, home, Processing(pod));
      var taskIDs := ListAt(lists, Processing(pod));
      for n := 0 to |taskIDs|
        invariant Cleaned(st, View(), gone) && before <= gone
        invariant taskIDs == ListAt(st.lists, Processing(pod)) && NoDup(taskIDs)
        invariant forall id :: id in gone ==> id in before || id in taskIDs[..n]
        invariant forall id :: id in taskIDs[..n] && !Live(st, id) ==> id in gone
        invariant Valid() && longer.Ok() && longer.start == run.start && longer.end == sys
      {
        var id := taskIDs[n];
        assert id in taskIDs && id !in taskIDs[..n];
        ghost var mid := View();
        LiveStays(st, mid, gone, id, pod);
        if !Live(st, id) { CleanOne(st, mid, home, gone, id, pod); } else { RecoverLive(mid, id, pod); }
        longer.RecoveringOk(id, pod);
        longer := longer.Recovering(id, pod);
        CheckAndRecoverTask(id, pod);
        if !Live(st, id) { gone := gone + {id}; }
        assert taskIDs[..n + 1] == taskIDs[..n] + [id];
      }
      assert taskIDs[..|taskIDs|] == taskIDs;
    }

    /**
     The whole pass over all processing lists, in any order. It cleans up everything that is not
     leased, and it is a run of the protocol.
     */
    method CleanupExpiredLeases() returns (ghost run: Run)
      requires Valid() && Placed(lists, sys.home)
      modifies this
      ensures CleanedAll(old(View()), View())
      ensures Valid() && run.Ok() && run.start == old(sys) && run.end == sys
      ensures Inv(old(sys)) ==> Inv(sys)
    {
      hide Cleaned, Inv;
      ghost var st, s := View(), sys;
      run := Run(s, [], s);
      var pods := set k | k in lists && k.Processing? :: k.pod;
      var rest := pods;
      ghost var gone: set<Id> := {};
      CleanedNothing(st, gone);
      while rest != {}
        invariant Placed(st.lists, s.home) && Cleaned(st, View(), gone) && rest <= pods
        invariant forall id :: id in gone ==> exists p :: p in pods - rest && id in ListAt(st.lists, Processing(p))
        invariant forall p, id :: p in pods - rest && id in ListAt(st.lists, Processing(p)) && !Live(st, id) ==>
                    id in gone
        invariant Valid() && run.Ok() && run.start == s && run.end == sys
      {
        var pod :| pod in rest;
        forall id | id in ListAt(st.lists, Processing(pod)) ensures id !in gone {
          OnlyHere(st.lists, s.home, pod, id);
        }
        gone, run := RecoverList(pod, st, s.home, gone, run);
        rest := rest - {pod};
      }
      forall id | InProcessing(st, id) && !Live(st, id) ensures id in gone {
        var p :| id in ListAt(st.lists, Processing(p));
        assert Processing(p) in st.lists;
        assert p in pods - rest;
      }
      assert Complete(st, gone);
      if Inv(s) { RunsKeepInv(s, run.actions, sys); }
    }
  }

  /** A run of the protocol. */
  datatype Run = Run(start: System, actions: seq<Action>, end: System) {
    ghost predicate Ok() { Reaches(start, actions, end) }

    function Recovering(id: Id, pod: Pod): Run {
      Run(start, actions + [Recovers(id, pod)], Step(end, Recovers(id, pod)))
    }

    lemma RecoveringOk(id: Id, pod: Pod)
      requires Ok() && id in ListAt(end.st.lists, Processing(pod))
      ensures Recovering(id, pod).Ok() && Recovering(id, pod).end == Step(end, Recovers(id, pod))
      ensures Recovering(id, pod).start == start
    {
      ReachesOneMore(start, actions, end, Recovers(id, pod));
    }
  }

  lemma ListNoDup(lists: map<Key, seq<Id>>, home: map<Id, Key>, k: Key)
    requires Placed(lists, home)
    ensures NoDup(ListAt(lists, k))
  {
  }

  lemma OnlyHere(lists: map<Key, seq<Id>>, home: map<Id, Key>, pod: Pod, id: Id)
    requires Placed(lists, home) && id in ListAt(lists, Processing(pod))
    ensures forall p :: id in ListAt(lists, Processing(p)) ==> p == pod
  {
    assert At(home, id, Processing(pod));
  }

  lemma SnapshotIsOriginal(st: Store, mid: Store, gone: set<Id>, pod: Pod)
    requires Cleaned(st, mid, gone) && forall id :: id in ListAt(st.lists, Processing(pod)) ==> id !in gone
    ensures ListAt(mid.lists, Processing(pod)) == ListAt(st.lists, Processing(pod))
  {
    KeptAll(ListAt(st.lists, Processing(pod)), gone);
  }

  lemma LiveStays(st: Store, mid: Store, gone: set<Id>, id: Id, pod: Pod)
    requires Cleaned(st, mid, gone) && id !in gone && id in ListAt(st.lists, Processing(pod))
    ensures Live(mid, id) == Live(st, id) && id in ListAt(mid.lists, Processing(pod))
  {
    KeptMembers(ListAt(st.lists, Processing(pod)), gone);
    StillTheSame(st, mid, gone, id);
  }

  lemma RecoverLive(st: Store, id: Id, pod: Pod)
    requires Live(st, id)
    ensures Recover(st, id, pod) == st
  {
  }
}
