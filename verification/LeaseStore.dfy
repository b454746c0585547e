/**
 The Redis state of the task queue and the effect of each queue operation on it.

 Each operation is one atomic step, and so is fetching a task: popping it onto the pod's
 processing list, looking at its preferred pod and claiming it with a lease.
 */
module LeaseStore {
  import opened Options

  type Id = string
  type Pod = string

  const TASK_TIMEOUT_MS := 30000
  const LEASE_TIMEOUT_MS := 45000

  datatype State = Enqueued | Working | Stopping | Stopped | Failed | TimedOut

  datatype Task = Task(cmd: string, channel: string, state: State, createdAt: int, enqueuedAt: Option<int>,
                       processedAt: Option<int>, completedAt: Option<int>, workerId: int,
                       leaseExpiry: Option<int>, retryCount: nat, podId: Pod)

  /** Main queues are named by their Redis key, processing lists by their pod. */
  datatype Key = Main(name: string) | Processing(pod: Pod)

  /** A lease key with its holder; Redis drops it at `expiry`. */
  datatype Lease = Lease(holder: Pod, expiry: int)

  datatype Store = Store(lists: map<Key, seq<Id>>, tasks: map<Id, Task>, leases: map<Id, Lease>, now: int)

  predicate Terminal(s: State) { s.Stopped? || s.Failed? || s.TimedOut? }

  /** The lease key still exists. */
  predicate Live(st: Store, id: Id) {
    id in st.leases && st.now < st.leases[id].expiry
  }

  // ----- Redis lists -----

  function ListAt(lists: map<Key, seq<Id>>, k: Key): seq<Id> {
    if k in lists then lists[k] else []
  }

  function LPush(lists: map<Key, seq<Id>>, k: Key, id: Id): map<Key, seq<Id>> {
    lists[k := [id] + ListAt(lists, k)]
  }

  function RPush(lists: map<Key, seq<Id>>, k: Key, id: Id): map<Key, seq<Id>> {
    lists[k := ListAt(lists, k) + [id]]
  }

  /** The list without the first occurrence of id. */
  function Without(s: seq<Id>, id: Id): seq<Id> {
    if s == [] then [] else if s[0] == id then s[1..] else [s[0]] + Without(s[1..], id)
  }

  function LRem(lists: map<Key, seq<Id>>, k: Key, id: Id): map<Key, seq<Id>> {
    lists[k := Without(ListAt(lists, k), id)]
  }

  function RPop(lists: map<Key, seq<Id>>, k: Key): map<Key, seq<Id>>
    requires ListAt(lists, k) != []
  {
    var s := ListAt(lists, k);
    lists[k := s[..|s| - 1]]
  }

  // ----- keys -----

  /** The queue of a task without region, which is also where recovered tasks go. */
  function GlobalKey(cmd: string, channel: string): Key {
    Main("egress:" + cmd + ":" + channel)
  }

  /** Where a published task goes: web pods serve the freestyle layout, regions have their own queues. */
  function QueueKey(layout: string, cmd: string, channel: string, region: string): Key {
    var web := if layout == "freestyle" then "web:" else "";
    if region != "" then Main("egress:" + region + ":" + web + cmd + ":" + channel)
    else Main("egress:" + web + cmd + ":" + channel)
  }

  // ----- operations -----

  function Publish(st: Store, id: Id, cmd: string, channel: string, layout: string, region: string): Store {
    var task := Task(cmd, channel, Enqueued, st.now, Some(st.now), None, None, -1, None, 0, "");
    st.(lists := LPush(st.lists, QueueKey(layout, cmd, channel, region), id), tasks := st.tasks[id := task])
  }

  /** ClaimTaskWithLease: None when the task record is gone. */
  function Claim(st: Store, id: Id, pod: Pod): Option<Store> {
    if id !in st.tasks then None
    else
      var expiry := st.now + LEASE_TIMEOUT_MS;
      var task := st.tasks[id].(state := Working, processedAt := Some(st.now), workerId := -1,
                                leaseExpiry := Some(expiry), podId := pod);
      Some(st.(tasks := st.tasks[id := task], leases := st.leases[id := Lease(pod, expiry)]))
  }

  /** The task has to go to another pod first. */
  predicate Deferred(st: Store, id: Id, pod: Pod) {
    id in st.tasks && st.tasks[id].podId != "" && st.tasks[id].podId != pod
  }

  /** Pop a task from a main queue onto the pod's processing list and claim it. */
  function Fetch(st: Store, pod: Pod, queue: string): Store {
    var s := ListAt(st.lists, Main(queue));
    if s == [] then st
    else
      var id := s[|s| - 1];
      var popped := st.(lists := LPush(RPop(st.lists, Main(queue)), Processing(pod), id));
      if Deferred(st, id, pod) then
        popped.(lists := RPush(LRem(popped.lists, Processing(pod), id), Main("egress:stop:" + st.tasks[id].podId), id))
      else
        match Claim(popped, id, pod)
        case Some(claimed) => claimed
        case None => popped.(lists := LPush(LRem(popped.lists, Processing(pod), id), Main(queue), id))
  }

  function Renew(st: Store, id: Id, pod: Pod): Store {
    if !Live(st, id) || st.leases[id].holder != pod || id !in st.tasks then st
    else
      var expiry := st.now + LEASE_TIMEOUT_MS;
      st.(tasks := st.tasks[id := st.tasks[id].(leaseExpiry := Some(expiry))],
          leases := st.leases[id := Lease(pod, expiry)])
  }

  /** The record of a task put back into its queue. */
  function Requeued(t: Task, now: int): Task {
    t.(retryCount := t.retryCount + 1, state := Enqueued, workerId := -1, leaseExpiry := None, processedAt := None,
       podId := "", enqueuedAt := Some(now))
  }

  predicate Recoverable(st: Store, id: Id) {
    !Live(st, id) && id in st.tasks && !Terminal(st.tasks[id].state)
  }

  /** checkAndRecoverTask, for an entry read from the pod's processing list. */
  function Recover(st: Store, id: Id, pod: Pod): Store {
    if Live(st, id) then st
    else if !Recoverable(st, id) then st.(lists := LRem(st.lists, Processing(pod), id))
    else
      var task := Requeued(st.tasks[id], st.now);
      st.(tasks := st.tasks[id := task],
          lists := LRem(LPush(st.lists, GlobalKey(task.cmd, task.channel), id), Processing(pod), id),
          leases := st.leases - {id})
  }

  function EnqueuedTime(t: Task): int {
    if t.enqueuedAt.Some? then t.enqueuedAt.value else t.createdAt
  }

  predicate Expires(st: Store, id: Id, queue: string) {
    && id in st.tasks && st.tasks[id].state.Enqueued? && st.now - EnqueuedTime(st.tasks[id]) > TASK_TIMEOUT_MS
    && id in ListAt(st.lists, Main(queue))
  }

  /** checkAndTimeoutEnqueuedTask. */
  function Timeout(st: Store, id: Id, queue: string): Store {
    if id !in st.tasks then st.(lists := LRem(st.lists, Main(queue), id))
    else if !Expires(st, id, queue) then st
    else st.(tasks := st.tasks[id := st.tasks[id].(state := TimedOut)], lists := LRem(st.lists, Main(queue), id))
  }

  function UpdateResult(st: Store, id: Id, state: State): Store {
    if id !in st.tasks then st
    else
      var t := st.tasks[id].(state := state);
      st.(tasks := st.tasks[id := if Terminal(state) then t.(completedAt := Some(st.now)) else t])
  }

  function Delete(st: Store, id: Id): Store {
    st.(tasks := st.tasks - {id}, leases := st.leases - {id})
  }

  // ----- facts about lists -----

  predicate NoDup(s: seq<Id>) {
    forall i, j :: 0 <= i < j < |s| ==> s[i] != s[j]
  }

  lemma {:induction false} WithoutIs(s: seq<Id>, id: Id)
    requires NoDup(s)
    ensures NoDup(Without(s, id))
    ensures forall x :: x in Without(s, id) <==> x in s && x != id
    decreases |s|
  {
    if s != [] {
      var tail := s[1..];
      WithoutIs(tail, id);
      assert forall x :: x in s <==> x == s[0] || x in tail;
      assert s[0] !in tail;
      if s[0] != id {
        var rest := Without(tail, id);
        assert forall x :: x in [s[0]] + rest <==> x == s[0] || x in rest;
        assert s[0] !in rest;
        ConsNoDup(s[0], rest);
      }
    }
  }

  lemma ConsNoDup(x: Id, s: seq<Id>)
    requires NoDup(s) && x !in s
    ensures NoDup([x] + s) && NoDup(s + [x])
  {
  }

  lemma {:induction false} WithoutAbsent(s: seq<Id>, id: Id)
    requires id !in s
    ensures Without(s, id) == s
    decreases |s|
  {
    if s != [] { WithoutAbsent(s[1..], id); }
  }

  // ----- where each task is -----

  predicate At(home: map<Id, Key>, id: Id, k: Key) {
    id in home && home[id] == k
  }

  /** home tells the one list that holds each queued task. */
  ghost predicate Placed(lists: map<Key, seq<Id>>, home: map<Id, Key>) {
    && (forall k :: NoDup(ListAt(lists, k)))
    && (forall k, id :: id in ListAt(lists, k) <==> At(home, id, k))
  }

  /** Changing one list and the homes of its members accordingly. */
  lemma UpdatePlaced(lists: map<Key, seq<Id>>, home: map<Id, Key>, k: Key, s: seq<Id>, moved: map<Id, Key>)
    requires Placed(lists, home) && NoDup(s)
    requires forall id :: id in s <==> At(moved, id, k)
    requires forall l, id :: l != k ==> (At(moved, id, l) <==> At(home, id, l))
    ensures Placed(lists[k := s], moved)
  {
    var after := lists[k := s];
    forall l ensures NoDup(ListAt(after, l)) {
      if l != k { assert ListAt(after, l) == ListAt(lists, l); }
    }
    forall l, id ensures id in ListAt(after, l) <==> At(moved, id, l) {
      if l != k { assert ListAt(after, l) == ListAt(lists, l); }
    }
  }

  lemma PushPlaced(lists: map<Key, seq<Id>>, home: map<Id, Key>, k: Key, id: Id)
    requires Placed(lists, home) && id !in home
    ensures Placed(LPush(lists, k, id), home[id := k])
    ensures Placed(RPush(lists, k, id), home[id := k])
  {
    var s := ListAt(lists, k);
    assert id !in s by { assert !At(home, id, k); }
    assert forall x :: x in [id] + s <==> x == id || x in s;
    assert forall x :: x in s + [id] <==> x == id || x in s;
    ConsNoDup(id, s);
    UpdatePlaced(lists, home, k, [id] + s, home[id := k]);
    UpdatePlaced(lists, home, k, s + [id], home[id := k]);
  }

  lemma RemPlaced(lists: map<Key, seq<Id>>, home: map<Id, Key>, k: Key, id: Id)
    requires Placed(lists, home) && At(home, id, k)
    ensures Placed(LRem(lists, k, id), home - {id})
  {
    WithoutIs(ListAt(lists, k), id);
    UpdatePlaced(lists, home, k, Without(ListAt(lists, k), id), home - {id});
  }

  lemma RemAbsentPlaced(lists: map<Key, seq<Id>>, home: map<Id, Key>, k: Key, id: Id)
    requires Placed(lists, home) && !At(home, id, k)
    ensures Placed(LRem(lists, k, id), home)
  {
    WithoutAbsent(ListAt(lists, k), id);
    UpdatePlaced(lists, home, k, ListAt(lists, k), home);
  }

  lemma {:induction false} InitIs(s: seq<Id>)
    requires NoDup(s) && s != []
    ensures NoDup(s[..|s| - 1])
    ensures forall x :: x in s[..|s| - 1] <==> x in s && x != s[|s| - 1]
  {
    var t := s[..|s| - 1];
    forall x | x in s && x != s[|s| - 1] ensures x in t {
      var i :| 0 <= i < |s| && s[i] == x;
      assert t[i] == x;
    }
  }

  lemma PopPlaced(lists: map<Key, seq<Id>>, home: map<Id, Key>, k: Key)
    requires Placed(lists, home) && ListAt(lists, k) != []
    ensures var s := ListAt(lists, k); var id := s[|s| - 1];
      At(home, id, k) && Placed(RPop(lists, k), home - {id})
  {
    var s := ListAt(lists, k);
    var id := s[|s| - 1];
    assert id in s;
    InitIs(s);
    forall x ensures x in s[..|s| - 1] <==> At(home - {id}, x, k) {
      assert x in s <==> At(home, x, k);
    }
    UpdatePlaced(lists, home, k, s[..|s| - 1], home - {id});
  }

  /** Each task occurs at most once across all queues and processing lists. */
  lemma AtMostOnce(lists: map<Key, seq<Id>>, home: map<Id, Key>, k: Key, i: nat, l: Key, j: nat)
    requires Placed(lists, home) && k in lists && l in lists && i < |lists[k]| && j < |lists[l]|
    requires lists[k][i] == lists[l][j]
    ensures k == l && i == j
  {
    var id := lists[k][i];
    assert id in ListAt(lists, k) && lists[l][j] in ListAt(lists, l);
    assert At(home, id, k) && At(home, id, l);
    assert NoDup(ListAt(lists, k));
  }
}
