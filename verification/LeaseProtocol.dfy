/**
 Runs of the lease protocol: any interleaving of the queue operations of all pods with the
 passing of time, and what holds in every state such a run can reach.
 */
module LeaseProtocol {
  import opened LeaseStore

  datatype Action =
    | Publishes(id: Id, cmd: string, channel: string, layout: string, region: string)
    | Fetches(pod: Pod, queue: string)
    | Renews(id: Id, pod: Pod)
    | Recovers(id: Id, pod: Pod)
    | TimesOut(id: Id, queue: string)
    | Reports(id: Id, state: State)
    | Deletes(id: Id)
    | Ticks(ms: nat)

  /** What a run remembers. */
  datatype Event =
    | Published(id: Id, time: int)
    | Recovered(id: Id, time: int)           // put back into a queue
    | Claimed(id: Id, pod: Pod, time: int)
    | Renewed(id: Id, time: int)
    | Expired(id: Id, time: int)             // timed out while queued

  /** home and claims are history: where each queued task is, and how often each task was claimed. */
  datatype System = System(st: Store, home: map<Id, Key>, claims: map<Id, nat>, events: seq<Event>)

  // ----- steps -----

  function LastOf(s: seq<Id>): Id
    requires s != []
  {
    s[|s| - 1]
  }

  predicate Enabled(s: System, a: Action) {
    match a
    case Publishes(id, _, _, _, _) => id !in s.claims
    case Recovers(id, pod) => id in ListAt(s.st.lists, Processing(pod))
    case _ => true
  }

  function FetchStep(s: System, pod: Pod, queue: string): System {
    var st := Fetch(s.st, pod, queue);
    var list := ListAt(s.st.lists, Main(queue));
    if list == [] then s
    else
      var id := LastOf(list);
      if Deferred(s.st, id, pod) then
        s.(st := st, home := s.home[id := Main("egress:stop:" + s.st.tasks[id].podId)])
      else if id !in s.st.tasks then s.(st := st)
      else System(st, s.home[id := Processing(pod)],
                  s.claims[id := (if id in s.claims then s.claims[id] else 0) + 1],
                  s.events + [Claimed(id, pod, st.now)])
  }

  function RenewStep(s: System, id: Id, pod: Pod): System {
    var st := Renew(s.st, id, pod);
    s.(st := st,
       events := if Live(s.st, id) && s.st.leases[id].holder == pod && id in s.st.tasks
                 then s.events + [Renewed(id, st.now)] else s.events)
  }

  function RecoverStep(s: System, id: Id, pod: Pod): System {
    var st := Recover(s.st, id, pod);
    if Live(s.st, id) then s
    else if !Recoverable(s.st, id) then s.(st := st, home := s.home - {id})
    else s.(st := st, home := s.home[id := GlobalKey(s.st.tasks[id].cmd, s.st.tasks[id].channel)],
            events := s.events + [Recovered(id, st.now)])
  }

  function TimeoutStep(s: System, id: Id, queue: string): System {
    var st := Timeout(s.st, id, queue);
    if id !in s.st.tasks then s.(st := st, home := if At(s.home, id, Main(queue)) then s.home - {id} else s.home)
    else if !Expires(s.st, id, queue) then s
    else s.(st := st, home := s.home - {id}, events := s.events + [Expired(id, st.now)])
  }

  function Step(s: System, a: Action): System {
    match a
    case Publishes(id, cmd, channel, layout, region) =>
      System(Publish(s.st, id, cmd, channel, layout, region), s.home[id := QueueKey(layout, cmd, channel, region)],
             s.claims[id := 0], s.events + [Published(id, s.st.now)])
    case Fetches(pod, queue) => FetchStep(s, pod, queue)
    case Renews(id, pod) => RenewStep(s, id, pod)
    case Recovers(id, pod) => RecoverStep(s, id, pod)
    case TimesOut(id, queue) => TimeoutStep(s, id, queue)
    case Reports(id, state) => s.(st := UpdateResult(s.st, id, state))
    case Deletes(id) => s.(st := Delete(s.st, id))
    case Ticks(ms) => s.(st := s.st.(now := s.st.now + ms))
  }

  // ----- what every step keeps -----

  /** Every id the store mentions was published, and the clock has not run back. */
  ghost predicate Known(s: System) {
    && (forall id :: id in s.home ==> id in s.claims)
    && (forall id :: id in s.st.tasks ==> id in s.claims)
    && (forall i :: 0 <= i < |s.events| ==> s.events[i].id in s.claims && s.events[i].time <= s.st.now)
  }

  /** A live lease belongs to the pod whose processing list holds the task. */
  ghost predicate Leased(s: System) {
    forall id :: Live(s.st, id) ==> At(s.home, id, Processing(s.st.leases[id].holder))
  }

  /** A queued task carries no pod and has been claimed once per retry. */
  ghost predicate QueuedOk(s: System, id: Id) {
    id in s.home && s.home[id].Main? && id in s.st.tasks ==>
      && s.st.tasks[id].podId == "" && id in s.claims && s.claims[id] == s.st.tasks[id].retryCount
      && EnqueuedSince(s, id)
  }

  /** The record's enqueue time is that of the task's last enqueue. */
  ghost predicate EnqueuedSince(s: System, id: Id)
    requires id in s.st.tasks
  {
    && s.st.tasks[id].enqueuedAt.Some?
    && forall i :: 0 <= i < |s.events| && Enqueues(s.events[i], id) ==>
         s.events[i].time <= s.st.tasks[id].enqueuedAt.value
  }

  predicate Enqueues(e: Event, id: Id) {
    e.id == id && (e.Published? || e.Recovered?)
  }

  predicate Touches(e: Event, id: Id) {
    e.id == id && (e.Claimed? || e.Renewed?)
  }

  /** A task being processed has one claim more than retries and a lease 45 s after its last touch. */
  ghost predicate HeldOk(s: System, id: Id) {
    id in s.home && s.home[id].Processing? && id in s.st.tasks ==>
      && id in s.claims && s.claims[id] == s.st.tasks[id].retryCount + 1
      && id in s.st.leases && s.st.leases[id].holder == s.home[id].pod
      && LeaseCovers(s, id)
  }

  ghost predicate LeaseCovers(s: System, id: Id)
    requires id in s.st.leases
  {
    forall i :: 0 <= i < |s.events| && Touches(s.events[i], id) ==>
      s.events[i].time + LEASE_TIMEOUT_MS <= s.st.leases[id].expiry
  }

  /** Since any claim of a queued task there has been a recovery. */
  ghost predicate Returned(s: System) {
    forall id, i ::
      id in s.home && s.home[id].Main? && 0 <= i < |s.events| && s.events[i].Claimed? && s.events[i].id == id ==>
      RecoveredAfter(s.events, i, id)
  }

  ghost predicate RecoveredAfter(events: seq<Event>, i: int, id: Id) {
    exists k :: 0 <= i < k < |events| && events[k].Recovered? && events[k].id == id
  }

  /** Two claims of a task are separated by a recovery. */
  ghost predicate ClaimsSeparated(events: seq<Event>) {
    forall i, j :: 0 <= i < j < |events| && events[i].Claimed? && events[j].Claimed? && events[i].id == events[j].id ==>
      exists k :: i < k < j && events[k].Recovered? && events[k].id == events[i].id
  }

  /** A recovery comes at least 45 s after every earlier claim or renewal of the task. */
  ghost predicate RecoversLate(events: seq<Event>) {
    forall i, k :: 0 <= i < k < |events| && events[k].Recovered? && Touches(events[i], events[k].id) ==>
      events[i].time + LEASE_TIMEOUT_MS <= events[k].time
  }

  /** A timeout comes more than 30 s after every earlier enqueue of the task. */
  ghost predicate TimeoutsLate(events: seq<Event>) {
    forall i, k :: 0 <= i < k < |events| && events[k].Expired? && Enqueues(events[i], events[k].id) ==>
      events[i].time + TASK_TIMEOUT_MS < events[k].time
  }

  ghost predicate History(events: seq<Event>) {
    ClaimsSeparated(events) && RecoversLate(events) && TimeoutsLate(events)
  }

  ghost predicate Inv(s: System) {
    && Placed(s.st.lists, s.home)
    && Known(s) && Leased(s)
    && (forall id :: QueuedOk(s, id) && HeldOk(s, id))
    && Returned(s) && History(s.events)
  }

  // ----- histories -----

  lemma AddClaim(events: seq<Event>, id: Id, pod: Pod, t: int)
    requires History(events)
    requires forall i :: 0 <= i < |events| && events[i].Claimed? && events[i].id == id ==> RecoveredAfter(events, i, id)
    ensures History(events + [Claimed(id, pod, t)])
  {
    var more := events + [Claimed(id, pod, t)];
    forall i, j | 0 <= i < j < |more| && more[i].Claimed? && more[j].Claimed? && more[i].id == more[j].id
      ensures exists k :: i < k < j && more[k].Recovered? && more[k].id == more[i].id
    {
      if j == |events| {
        assert RecoveredAfter(events, i, id);
        var k :| 0 <= i < k < |events| && events[k].Recovered? && events[k].id == id;
        assert more[k] == events[k];
      } else {
        var k :| i < k < j && events[k].Recovered? && events[k].id == events[i].id;
        assert more[k] == events[k];
      }
    }
  }

  /** Appending anything but a claim keeps claims separated. */
  lemma StillSeparated(events: seq<Event>, e: Event)
    requires ClaimsSeparated(events) && !e.Claimed?
    ensures ClaimsSeparated(events + [e])
  {
    var more := events + [e];
    forall i, j | 0 <= i < j < |more| && more[i].Claimed? && more[j].Claimed? && more[i].id == more[j].id
      ensures exists k :: i < k < j && more[k].Recovered? && more[k].id == more[i].id
    {
      var k :| i < k < j && events[k].Recovered? && events[k].id == events[i].id;
      assert more[k] == events[k];
    }
  }

  lemma AddRecovery(events: seq<Event>, id: Id, t: int)
    requires History(events)
    requires forall i :: 0 <= i < |events| && Touches(events[i], id) ==> events[i].time + LEASE_TIMEOUT_MS <= t
    ensures History(events + [Recovered(id, t)])
  {
    StillSeparated(events, Recovered(id, t));
  }

  lemma AddPublish(events: seq<Event>, id: Id, t: int)
    requires History(events)
    ensures History(events + [Published(id, t)])
  {
    StillSeparated(events, Published(id, t));
  }

  lemma AddRenewal(events: seq<Event>, id: Id, t: int)
    requires History(events)
    ensures History(events + [Renewed(id, t)])
  {
    StillSeparated(events, Renewed(id, t));
  }

  lemma AddExpiry(events: seq<Event>, id: Id, t: int)
    requires History(events)
    requires forall i :: 0 <= i < |events| && Enqueues(events[i], id) ==>
               events[i].time + TASK_TIMEOUT_MS < t
    ensures History(events + [Expired(id, t)])
  {
    StillSeparated(events, Expired(id, t));
  }

  // ----- tasks a step does not concern -----

  /** The step left x alone. */
  ghost predicate Untouched(s: System, t: System, x: Id) {
    && (x in s.home <==> x in t.home) && (x in s.home ==> s.home[x] == t.home[x])
    && (x in s.claims <==> x in t.claims) && (x in s.claims ==> s.claims[x] == t.claims[x])
    && (x in s.st.tasks <==> x in t.st.tasks)
    && (x in s.st.tasks ==>
          && s.st.tasks[x].podId == t.st.tasks[x].podId && s.st.tasks[x].retryCount == t.st.tasks[x].retryCount
          && s.st.tasks[x].enqueuedAt == t.st.tasks[x].enqueuedAt)
    && (x in s.st.leases <==> x in t.st.leases) && (x in s.st.leases ==> s.st.leases[x] == t.st.leases[x])
  }

  ghost predicate Grows(s: System, t: System, x: Id) {
    t.events == s.events || exists e: Event :: e.id != x && t.events == s.events + [e]
  }

  lemma UntouchedOk(s: System, t: System, x: Id)
    requires Untouched(s, t, x) && Grows(s, t, x) && QueuedOk(s, x) && HeldOk(s, x)
    ensures QueuedOk(t, x) && HeldOk(t, x)
  {
    if t.events != s.events {
      var e: Event :| e.id != x && t.events == s.events + [e];
      assert forall i :: 0 <= i < |s.events| ==> t.events[i] == s.events[i];
    }
  }

  lemma ReturnedGrows(s: System, t: System, x: Id, i: int)
    requires s.events <= t.events && RecoveredAfter(s.events, i, x)
    ensures RecoveredAfter(t.events, i, x)
  {
    var k :| 0 <= i < k < |s.events| && s.events[k].Recovered? && s.events[k].id == x;
    assert t.events[k] == s.events[k];
  }

  /** Tasks that stay queued, or are published, need no new recovery. */
  lemma ReturnedKept(s: System, t: System)
    requires Returned(s) && Known(s)
    requires t.events == s.events
             || exists e: Event :: t.events == s.events + [e]
                                   && (e.Claimed? ==> !(e.id in t.home && t.home[e.id].Main?))
    requires forall x :: x in t.home && t.home[x].Main? ==> (x in s.home && s.home[x].Main?) || x !in s.claims
    ensures Returned(t)
  {
    forall x, i | x in t.home && t.home[x].Main? && 0 <= i < |t.events| && t.events[i].Claimed? && t.events[i].id == x
      ensures RecoveredAfter(t.events, i, x)
    {
      assert t.events[i] == s.events[i];
      ReturnedGrows(s, t, x, i);
    }
  }

  // ----- each step -----

  lemma PublishKeepsInv(s: System, a: Action)
    requires Inv(s) && a.Publishes? && Enabled(s, a)
    ensures Inv(Step(s, a))
  {
    hide Placed, History;
    var t := Step(s, a);
    var id := a.id;
    PushPlaced(s.st.lists, s.home, QueueKey(a.layout, a.cmd, a.channel, a.region), id);
    AddPublish(s.events, id, s.st.now);
    forall x ensures QueuedOk(t, x) && HeldOk(t, x) {
      assert QueuedOk(s, x) && HeldOk(s, x);
      if x != id { UntouchedOk(s, t, x); }
    }
    ReturnedKept(s, t);
  }

  /** The popped task of a fetch. */
  lemma FetchPops(s: System, pod: Pod, queue: string)
    requires Inv(s) && ListAt(s.st.lists, Main(queue)) != []
    ensures var id := LastOf(ListAt(s.st.lists, Main(queue)));
      && At(s.home, id, Main(queue)) && !Deferred(s.st, id, pod)
      && Placed(LPush(RPop(s.st.lists, Main(queue)), Processing(pod), id), s.home[id := Processing(pod)])
  {
    hide History, Returned;
    var id := LastOf(ListAt(s.st.lists, Main(queue)));
    PopPlaced(s.st.lists, s.home, Main(queue));
    assert QueuedOk(s, id);
    hide Placed;
    PushPlaced(RPop(s.st.lists, Main(queue)), s.home - {id}, Processing(pod), id);
    assert (s.home - {id})[id := Processing(pod)] == s.home[id := Processing(pod)];
  }

  /** A task whose record is gone goes back to the head of its queue. */
  lemma FetchGivesBack(s: System, pod: Pod, queue: string)
    requires Inv(s) && ListAt(s.st.lists, Main(queue)) != []
    ensures var id := LastOf(ListAt(s.st.lists, Main(queue)));
      var popped := LPush(RPop(s.st.lists, Main(queue)), Processing(pod), id);
      Placed(LPush(LRem(popped, Processing(pod), id), Main(queue), id), s.home)
  {
    hide Placed, History, Returned;
    var id := LastOf(ListAt(s.st.lists, Main(queue)));
    FetchPops(s, pod, queue);
    var popped := LPush(RPop(s.st.lists, Main(queue)), Processing(pod), id);
    var there := s.home[id := Processing(pod)];
    RemPlaced(popped, there, Processing(pod), id);
    PushPlaced(LRem(popped, Processing(pod), id), there - {id}, Main(queue), id);
    assert (there - {id})[id := Main(queue)] == s.home;
  }

  lemma FetchKeepsInv(s: System, pod: Pod, queue: string)
    requires Inv(s)
    ensures Inv(FetchStep(s, pod, queue))
  {
    hide Placed, History;
    var list := ListAt(s.st.lists, Main(queue));
    if list != [] {
      var t := FetchStep(s, pod, queue);
      var id := LastOf(list);
      FetchPops(s, pod, queue);
      assert QueuedOk(s, id) && HeldOk(s, id);
      if id !in s.st.tasks {
        FetchGivesBack(s, pod, queue);
        forall x ensures QueuedOk(t, x) && HeldOk(t, x) {
          assert QueuedOk(s, x) && HeldOk(s, x);
          UntouchedOk(s, t, x);
        }
      } else {
        ClaimKeepsInv(s, pod, queue);
      }
    }
  }

  lemma ClaimKeepsInv(s: System, pod: Pod, queue: string)
    requires Inv(s) && ListAt(s.st.lists, Main(queue)) != []
    requires LastOf(ListAt(s.st.lists, Main(queue))) in s.st.tasks
    ensures Inv(FetchStep(s, pod, queue))
  {
    hide Placed, History;
    var t := FetchStep(s, pod, queue);
    var id := LastOf(ListAt(s.st.lists, Main(queue)));
    FetchPops(s, pod, queue);
    assert QueuedOk(s, id);
    AddClaim(s.events, id, pod, s.st.now);
    forall x ensures QueuedOk(t, x) && HeldOk(t, x) {
      assert QueuedOk(s, x) && HeldOk(s, x);
      if x != id { UntouchedOk(s, t, x); }
    }
    ReturnedKept(s, t);
  }

  lemma RenewKeepsInv(s: System, id: Id, pod: Pod)
    requires Inv(s)
    ensures Inv(RenewStep(s, id, pod))
  {
    hide Placed, History;
    var t := RenewStep(s, id, pod);
    if Live(s.st, id) && s.st.leases[id].holder == pod && id in s.st.tasks {
      AddRenewal(s.events, id, s.st.now);
      forall x ensures QueuedOk(t, x) && HeldOk(t, x) {
        assert QueuedOk(s, x) && HeldOk(s, x);
        if x != id { UntouchedOk(s, t, x); }
      }
      ReturnedKept(s, t);
    }
  }

  lemma PushRemCommute(lists: map<Key, seq<Id>>, k: Key, l: Key, id: Id)
    requires k != l
    ensures LRem(LPush(lists, k, id), l, id) == LPush(LRem(lists, l, id), k, id)
  {
  }

  lemma RecoverPlaced(s: System, id: Id, pod: Pod)
    requires Placed(s.st.lists, s.home) && id in ListAt(s.st.lists, Processing(pod))
    ensures At(s.home, id, Processing(pod))
    ensures Placed(RecoverStep(s, id, pod).st.lists, RecoverStep(s, id, pod).home)
  {
    assert At(s.home, id, Processing(pod));
    hide Placed;
    RemPlaced(s.st.lists, s.home, Processing(pod), id);
    if Recoverable(s.st, id) {
      var k := GlobalKey(s.st.tasks[id].cmd, s.st.tasks[id].channel);
      PushRemCommute(s.st.lists, k, Processing(pod), id);
      PushPlaced(LRem(s.st.lists, Processing(pod), id), s.home - {id}, k, id);
      assert (s.home - {id})[id := k] == s.home[id := k];
    }
  }

  lemma RecoverKeepsInv(s: System, id: Id, pod: Pod)
    requires Inv(s) && id in ListAt(s.st.lists, Processing(pod))
    ensures Inv(RecoverStep(s, id, pod))
  {
    hide Placed, History;
    var t := RecoverStep(s, id, pod);
    RecoverPlaced(s, id, pod);
    if !Live(s.st, id) {
      assert HeldOk(s, id);
      if Recoverable(s.st, id) { AddRecovery(s.events, id, s.st.now); }
      forall x ensures QueuedOk(t, x) && HeldOk(t, x) {
        assert QueuedOk(s, x) && HeldOk(s, x);
        if x != id { UntouchedOk(s, t, x); }
      }
      forall x, i | x in t.home && t.home[x].Main? && 0 <= i < |t.events| && t.events[i].Claimed? && t.events[i].id == x
        ensures RecoveredAfter(t.events, i, x)
      {
        assert t.events[i] == s.events[i];
        if x == id {
          assert t.events[|s.events|].Recovered? && t.events[|s.events|].id == id;
        } else {
          ReturnedGrows(s, t, x, i);
        }
      }
    }
  }

  lemma TimeoutPlaced(s: System, id: Id, queue: string)
    requires Placed(s.st.lists, s.home)
    ensures Placed(TimeoutStep(s, id, queue).st.lists, TimeoutStep(s, id, queue).home)
    ensures Expires(s.st, id, queue) ==> At(s.home, id, Main(queue))
  {
    assert id in ListAt(s.st.lists, Main(queue)) <==> At(s.home, id, Main(queue));
    hide Placed;
    if At(s.home, id, Main(queue)) { RemPlaced(s.st.lists, s.home, Main(queue), id); }
    else { RemAbsentPlaced(s.st.lists, s.home, Main(queue), id); }
  }

  /** The record was last enqueued more than 30 s ago. */
  lemma ExpiredHistory(s: System, id: Id, queue: string)
    requires Inv(s) && Expires(s.st, id, queue)
    ensures History(s.events + [Expired(id, s.st.now)])
  {
    hide History, Known, Leased, Returned;
    TimeoutPlaced(s, id, queue);
    hide Placed;
    assert QueuedOk(s, id);
    AddExpiry(s.events, id, s.st.now);
  }

  lemma TimeoutKeepsInv(s: System, id: Id, queue: string)
    requires Inv(s)
    ensures Inv(TimeoutStep(s, id, queue))
  {
    hide History, Placed;
    var t := TimeoutStep(s, id, queue);
    TimeoutPlaced(s, id, queue);
    if Expires(s.st, id, queue) { ExpiredHistory(s, id, queue); }
    forall x ensures QueuedOk(t, x) && HeldOk(t, x) {
      assert QueuedOk(s, x) && HeldOk(s, x);
      if x != id { UntouchedOk(s, t, x); }
    }
    ReturnedKept(s, t);
  }

  /** Results, deletions and the clock leave queues and history alone. */
  lemma OtherStepsKeepInv(s: System, a: Action)
    requires Inv(s) && (a.Reports? || a.Deletes? || a.Ticks?)
    ensures Inv(Step(s, a))
  {
    hide Placed, History, RecoveredAfter;
    var t := Step(s, a);
    forall x ensures QueuedOk(t, x) && HeldOk(t, x) {
      assert QueuedOk(s, x) && HeldOk(s, x);
      if !(a.Deletes? && x == a.id) { UntouchedOk(s, t, x); }
    }
  }

  lemma StepKeepsInv(s: System, a: Action)
    requires Inv(s) && Enabled(s, a)
    ensures Inv(Step(s, a))
  {
    hide Inv;
    match a
    case Publishes(_, _, _, _, _) => PublishKeepsInv(s, a);
    case Fetches(pod, queue) => FetchKeepsInv(s, pod, queue);
    case Renews(id, pod) => RenewKeepsInv(s, id, pod);
    case Recovers(id, pod) => RecoverKeepsInv(s, id, pod);
    case TimesOut(id, queue) => TimeoutKeepsInv(s, id, queue);
    case Reports(_, _) => OtherStepsKeepInv(s, a);
    case Deletes(_) => OtherStepsKeepInv(s, a);
    case Ticks(_) => OtherStepsKeepInv(s, a);
  }

  // ----- runs -----

  ghost predicate Reaches(s: System, actions: seq<Action>, t: System)
    decreases |actions|
  {
    if actions == [] then s == t
    else Enabled(s, actions[0]) && Reaches(Step(s, actions[0]), actions[1..], t)
  }

  lemma {:induction false} ReachesOneMore(s: System, actions: seq<Action>, t: System, a: Action)
    requires Reaches(s, actions, t) && Enabled(t, a)
    ensures Reaches(s, actions + [a], Step(t, a))
    decreases |actions|
  {
    if actions == [] {
      hide Step, Enabled;
      assert ([] + [a])[1..] == [];
      assert Reaches(Step(t, a), [], Step(t, a));
    } else {
      hide Step, Enabled;
      ReachesOneMore(Step(s, actions[0]), actions[1..], t, a);
      assert (actions + [a])[1..] == actions[1..] + [a];
    }
  }

  function Initial(now: int): System {
    System(Store(map[], map[], map[], now), map[], map[], [])
  }

  ghost predicate Reachable(s: System) {
    exists now, actions :: Reaches(Initial(now), actions, s)
  }

  lemma {:induction false} RunsKeepInv(s: System, actions: seq<Action>, t: System)
    requires Inv(s) && Reaches(s, actions, t)
    ensures Inv(t)
    decreases |actions|
  {
    hide Inv, Step, Enabled;
    if actions != [] {
      StepKeepsInv(s, actions[0]);
      RunsKeepInv(Step(s, actions[0]), actions[1..], t);
    }
  }

  lemma ReachableInv(s: System)
    requires Reachable(s)
    ensures Inv(s)
  {
    var now, actions :| Reaches(Initial(now), actions, s);
    assert Inv(Initial(now));
    RunsKeepInv(Initial(now), actions, s);
  }

  /** In every reachable state a task is in at most one place, and a live lease names the pod that holds it. */
  lemma OnePlaceOneHolder(s: System, id: Id)
    requires Reachable(s)
    ensures forall k, i, l, j ::
              (k in s.st.lists && l in s.st.lists && 0 <= i < |s.st.lists[k]| && 0 <= j < |s.st.lists[l]|
               && s.st.lists[k][i] == s.st.lists[l][j]) ==> k == l && i == j
    ensures Live(s.st, id) ==> id in ListAt(s.st.lists, Processing(s.st.leases[id].holder))
  {
    ReachableInv(s);
    forall k, i, l, j | k in s.st.lists && l in s.st.lists && 0 <= i < |s.st.lists[k]| && 0 <= j < |s.st.lists[l]|
                        && s.st.lists[k][i] == s.st.lists[l][j]
      ensures k == l && i == j
    {
      AtMostOnce(s.st.lists, s.home, k, i, l, j);
    }
    if Live(s.st, id) {
      var k := Processing(s.st.leases[id].holder);
      assert id in ListAt(s.st.lists, k) <==> At(s.home, id, k);
    }
  }

  /** Between two claims of a task lies a recovery, 45 s or more after the first claim and every renewal before it. */
  lemma ClaimsAreSeparated(s: System, i: nat, j: nat) returns (k: nat)
    requires Reachable(s) && i < j < |s.events|
    requires s.events[i].Claimed? && s.events[j].Claimed? && s.events[i].id == s.events[j].id
    ensures i < k < j && s.events[k].Recovered? && s.events[k].id == s.events[i].id
    ensures s.events[i].time + 45000 <= s.events[k].time
    ensures forall r :: 0 <= r < k && Touches(s.events[r], s.events[i].id) ==>
              s.events[r].time + 45000 <= s.events[k].time
  {
    ReachableInv(s);
    k :| i < k < j && s.events[k].Recovered? && s.events[k].id == s.events[i].id;
    assert Touches(s.events[i], s.events[k].id);
  }

  /** Claims are counted exactly: one per retry while queued, one more while processed. */
  lemma ClaimsAreCounted(s: System, id: Id, name: string, pod: Pod)
    requires Reachable(s) && id in s.st.tasks
    ensures id in s.claims
    ensures id in ListAt(s.st.lists, Main(name)) ==> s.claims[id] == s.st.tasks[id].retryCount
    ensures id in ListAt(s.st.lists, Processing(pod)) ==> s.claims[id] == s.st.tasks[id].retryCount + 1
  {
    ReachableInv(s);
    assert id in ListAt(s.st.lists, Main(name)) <==> At(s.home, id, Main(name));
    assert id in ListAt(s.st.lists, Processing(pod)) <==> At(s.home, id, Processing(pod));
    assert QueuedOk(s, id) && HeldOk(s, id);
  }

  /** A timeout happens only more than 30 s after the task was last published or recovered. */
  lemma TimeoutsAreLate(s: System, i: nat, k: nat)
    requires Reachable(s) && i < k < |s.events| && s.events[k].Expired? && Enqueues(s.events[i], s.events[k].id)
    ensures s.events[k].time - s.events[i].time > 30000
  {
    ReachableInv(s);
  }

  /** A queued task is never handed on to another pod instead of being claimed. */
  lemma NeverDeferred(s: System, pod: Pod, queue: string)
    requires Reachable(s) && ListAt(s.st.lists, Main(queue)) != []
    ensures !Deferred(s.st, LastOf(ListAt(s.st.lists, Main(queue))), pod)
  {
    ReachableInv(s);
    FetchPops(s, pod, queue);
  }

  // ----- renewal -----

  /** pod holds the task under a live lease. */
  ghost predicate Owns(s: System, id: Id, pod: Pod) {
    id in s.st.tasks && Live(s.st, id) && s.st.leases[id].holder == pod && At(s.home, id, Processing(pod))
  }

  /** Some claim or renewal of the task is less than 45 s old at the given time. */
  ghost predicate TouchedLately(events: seq<Event>, id: Id, time: int) {
    exists i :: 0 <= i < |events| && Touches(events[i], id) && time - events[i].time < 45000
  }

  /** Whenever time passes, the task was claimed or renewed less than 45 s before; its record is not deleted. */
  ghost predicate RenewedInTime(s: System, actions: seq<Action>, id: Id)
    decreases |actions|
  {
    actions == [] ||
    (&& (actions[0].Ticks? ==> TouchedLately(s.events, id, s.st.now + actions[0].ms))
     && actions[0] != Deletes(id)
     && RenewedInTime(Step(s, actions[0]), actions[1..], id))
  }

  /** The history goes on without a recovery of the task. */
  ghost predicate NotRecovered(was: seq<Event>, now: seq<Event>, id: Id) {
    was <= now && forall i :: |was| <= i < |now| && now[i].Recovered? ==> now[i].id != id
  }

  lemma FetchKeepsOwner(s: System, p: Pod, queue: string, id: Id, pod: Pod)
    requires Inv(s) && Owns(s, id, pod)
    ensures Owns(FetchStep(s, p, queue), id, pod)
  {
    var list := ListAt(s.st.lists, Main(queue));
    if list != [] { FetchPops(s, p, queue); }
    hide History, Returned, QueuedOk, HeldOk, Placed, Known;
  }

  lemma TimeoutKeepsOwner(s: System, x: Id, queue: string, id: Id, pod: Pod)
    requires Inv(s) && Owns(s, id, pod)
    ensures Owns(TimeoutStep(s, x, queue), id, pod)
  {
    assert x in ListAt(s.st.lists, Main(queue)) <==> At(s.home, x, Main(queue));
    hide History, Returned, QueuedOk, HeldOk, Placed, Known;
  }

  lemma RecoverKeepsOwner(s: System, x: Id, p: Pod, id: Id, pod: Pod)
    requires Inv(s) && Owns(s, id, pod)
    ensures Owns(RecoverStep(s, x, p), id, pod)
  {
    hide Inv;
  }

  lemma StepKeepsOwner(s: System, a: Action, id: Id, pod: Pod)
    requires Inv(s) && Enabled(s, a) && Owns(s, id, pod) && a != Deletes(id)
    requires a.Ticks? ==> s.st.now + a.ms < s.st.leases[id].expiry
    ensures Owns(Step(s, a), id, pod)
  {
    hide History, Returned, QueuedOk, HeldOk, Placed, Leased, FetchStep, TimeoutStep, RecoverStep;
    match a
    case Fetches(p, queue) => FetchKeepsOwner(s, p, queue, id, pod);
    case TimesOut(x, queue) => TimeoutKeepsOwner(s, x, queue, id, pod);
    case Recovers(x, p) => RecoverKeepsOwner(s, x, p, id, pod);
    case Publishes(_, _, _, _, _) =>
    case Renews(_, _) =>
    case Reports(_, _) =>
    case Deletes(_) =>
    case Ticks(_) =>
  }

  /** A lease whose task was touched less than 45 s before a time has not lapsed by then. */
  lemma TouchKeepsLease(s: System, id: Id, pod: Pod, time: int)
    requires Inv(s) && Owns(s, id, pod) && TouchedLately(s.events, id, time)
    ensures time < s.st.leases[id].expiry
  {
    hide History, Returned, Placed, Known, Leased;
    assert HeldOk(s, id);
  }

  lemma StepDoesNotRecover(s: System, a: Action, id: Id, pod: Pod)
    requires Enabled(s, a) && Owns(s, id, pod)
    ensures NotRecovered(s.events, Step(s, a).events, id)
  {
    hide Publish, Fetch, Renew, Recover, Timeout, Deferred, Expires;
  }

  /**
   A pod that renews a task less than 45 s after its claim and after each renewal keeps it: whatever
   the other pods and the cleanup do, no recovery of the task takes place and it stays in the pod's list
   under a live lease.
   */
  lemma {:induction false} RenewalKeepsOwnership(s: System, actions: seq<Action>, t: System, id: Id, pod: Pod)
    requires Inv(s) && Owns(s, id, pod) && Reaches(s, actions, t) && RenewedInTime(s, actions, id)
    ensures Owns(t, id, pod) && id in ListAt(t.st.lists, Processing(pod))
    ensures NotRecovered(s.events, t.events, id)
    decreases |actions|
  {
    if actions != [] {
      var a, mid := actions[0], Step(s, actions[0]);
      if a.Ticks? { TouchKeepsLease(s, id, pod, s.st.now + a.ms); }
      StepKeepsInv(s, a);
      StepKeepsOwner(s, a, id, pod);
      StepDoesNotRecover(s, a, id, pod);
      hide Inv, Step, Enabled, Owns, TouchedLately, Touches;
      RenewalKeepsOwnership(mid, actions[1..], t, id, pod);
    } else {
      assert id in ListAt(s.st.lists, Processing(pod)) <==> At(s.home, id, Processing(pod));
    }
  }

  /** The result for runs from the start: a claim at the end of a run begins such an ownership. */
  lemma ClaimBeginsOwnership(s: System, queue: string, pod: Pod)
    requires Reachable(s) && ListAt(s.st.lists, Main(queue)) != []
    requires LastOf(ListAt(s.st.lists, Main(queue))) in s.st.tasks
    ensures var id := LastOf(ListAt(s.st.lists, Main(queue)));
      var t := FetchStep(s, pod, queue);
      Inv(t) && Owns(t, id, pod) && t.events == s.events + [Claimed(id, pod, s.st.now)]
  {
    ReachableInv(s);
    FetchPops(s, pod, queue);
    FetchKeepsInv(s, pod, queue);
    hide Inv;
  }

  /** After a claim or a renewal the lease lasts 45 s. */
  lemma LeaseLength(s: System, id: Id, pod: Pod)
    requires Owns(s, id, pod)
    ensures var t := RenewStep(s, id, pod); Owns(t, id, pod) && t.st.leases[id].expiry == s.st.now + 45000
  {
  }

  /** Cleanup never takes a task out of a terminal state. */
  lemma CleanupKeepsTerminal(st: Store, id: Id, pod: Pod, queue: string, x: Id)
    requires x in st.tasks && Terminal(st.tasks[x].state)
    ensures x in Recover(st, id, pod).tasks && Recover(st, id, pod).tasks[x] == st.tasks[x]
    ensures x in Timeout(st, id, queue).tasks && Timeout(st, id, queue).tasks[x] == st.tasks[x]
  {
  }

  // ----- why the cleanup pass has to be atomic -----

  /**
   Recovering an entry keeps every task in one place exactly when the task is not recoverable, is
   nowhere queued, or still is in the processing list it was read from. A stale entry, whose task
   has been recovered in the meantime, is queued a second time.
   */
  lemma RecoverKeepsPlacesIff(st: Store, home: map<Id, Key>, id: Id, pod: Pod)
    requires Placed(st.lists, home) && !Live(st, id)
    ensures (exists h :: Placed(Recover(st, id, pod).lists, h))
            <==> !Recoverable(st, id) || id !in home || At(home, id, Processing(pod))
  {
    var after := Recover(st, id, pod).lists;
    var here := At(home, id, Processing(pod));
    if here {
      RemPlaced(st.lists, home, Processing(pod), id);
    } else {
      RemAbsentPlaced(st.lists, home, Processing(pod), id);
    }
    if Recoverable(st, id) {
      var k := GlobalKey(st.tasks[id].cmd, st.tasks[id].channel);
      PushRemCommute(st.lists, k, Processing(pod), id);
      if here || id !in home {
        PushPlaced(LRem(st.lists, Processing(pod), id), home - {id}, k, id);
        if id !in home { assert home - {id} == home; }
        assert Placed(after, (home - {id})[id := k]);
      } else {
        forall h | Placed(after, h) ensures false { Duplicated(st, home, id, pod, h); }
      }
    } else {
      assert Placed(after, if here then home - {id} else home);
    }
  }

  lemma ReachableStep(s: System, a: Action)
    requires Reachable(s) && Enabled(s, a)
    ensures Reachable(Step(s, a))
  {
    hide Step, Enabled, Reaches;
    var now, actions :| Reaches(Initial(now), actions, s);
    ReachesOneMore(Initial(now), actions, s, a);
  }

  /** A published task, alone in its queue. */
  lemma QueuedTask() returns (s: System)
    ensures Reachable(s) && s.st.leases == map[]
    ensures s.st.lists == map[GlobalKey("record", "c") := ["a"]]
    ensures "a" in s.st.tasks && s.st.tasks["a"].podId == ""
    ensures s.st.tasks["a"].cmd == "record" && s.st.tasks["a"].channel == "c"
  {
    assert Reaches(Initial(0), [], Initial(0));
    hide Reaches;
    assert GlobalKey("record", "c") == QueueKey("flat", "record", "c", "");
    hide GlobalKey, QueueKey;
    var publish := Publishes("a", "record", "c", "flat", "");
    s := Step(Initial(0), publish);
    assert ["a"] + [] == ["a"];
    ReachableStep(Initial(0), publish);
  }

  /** The task claimed by pod p, its lease just lapsed. */
  lemma LapsedTask() returns (s: System)
    ensures Reachable(s) && !Live(s.st, "a")
    ensures ListAt(s.st.lists, Processing("p")) == ["a"] && ListAt(s.st.lists, GlobalKey("record", "c")) == []
    ensures "a" in s.st.tasks && s.st.tasks["a"].cmd == "record" && s.st.tasks["a"].channel == "c"
    ensures s.st.tasks["a"].state == Working
  {
    var queued := QueuedTask();
    var key := GlobalKey("record", "c");
    assert key.Main?;
    hide Reachable, GlobalKey;
    var fetch := Fetches("p", key.name);
    var claimed := Step(queued, fetch);
    ReachableStep(queued, fetch);
    assert ["a"] + [] == ["a"] && ["a"][..0] == [];
    var popped := LPush(RPop(queued.st.lists, key), Processing("p"), "a");
    assert popped == map[key := [], Processing("p") := ["a"]];
    assert claimed.st == Claim(queued.st.(lists := map[key := [], Processing("p") := ["a"]]), "a", "p").value;
    s := Step(claimed, Ticks(LEASE_TIMEOUT_MS));
    ReachableStep(claimed, Ticks(LEASE_TIMEOUT_MS));
  }

  /**
   Such an entry exists: a pod that read its list before another pod's cleanup recovered the task
   recovers it again, and the task is queued twice.
   */
  lemma StaleEntryIsQueuedTwice() returns (read: System, s: System)
    ensures Reachable(read) && ListAt(read.st.lists, Processing("p")) == ["a"] && !Live(read.st, "a")
    ensures Reachable(s) && s == Step(read, Recovers("a", "p"))
    ensures ListAt(Recover(s.st, "a", "p").lists, GlobalKey("record", "c")) == ["a", "a"]
  {
    var key := GlobalKey("record", "c");
    read := LapsedTask();
    hide Reachable;
    s := Step(read, Recovers("a", "p"));
    ReachableStep(read, Recovers("a", "p"));
    assert ListAt(s.st.lists, key) == ["a"];
    assert ListAt(s.st.lists, Processing("p")) == [];
  }

  lemma Duplicated(st: Store, home: map<Id, Key>, id: Id, pod: Pod, h: map<Id, Key>)
    requires Placed(st.lists, home) && Recoverable(st, id) && id in home && !At(home, id, Processing(pod))
    ensures !Placed(Recover(st, id, pod).lists, h)
  {
    var k, l := GlobalKey(st.tasks[id].cmd, st.tasks[id].channel), home[id];
    var after := Recover(st, id, pod).lists;
    PushRemCommute(st.lists, k, Processing(pod), id);
    assert At(home, id, l);
    var had := ListAt(st.lists, l);
    assert id in had;
    assert l != Processing(pod) && ListAt(LRem(st.lists, Processing(pod), id), l) == had;
    if l == k {
      assert ListAt(after, k) == [id] + had;
      var i :| 0 <= i < |had| && had[i] == id;
      assert ListAt(after, k)[0] == ListAt(after, k)[i + 1];
      assert !NoDup(ListAt(after, k));
    } else {
      assert id in ListAt(after, l) && ListAt(after, k)[0] == id;
      assert !(At(h, id, k) && At(h, id, l));
    }
  }
}
