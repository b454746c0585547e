/**
 How a worker manager assigns tasks to worker processes: a channel has at most one worker and a
 worker at most one channel, and a channel runs at most one task of each command. Three maps and the
 workers' states hold this, and are updated by starts, graceful stops and completions.
 */
module WorkerAllocation {

  datatype WorkerState = Absent | Idle | Running | NotAvailable

  /** Tasks of a channel by command. */
  type Tasks = map<string, seq<string>>

  datatype Alloc = Alloc(channelWorkers: map<string, nat>, workerChannels: map<nat, string>,
                         channelTasks: map<string, Tasks>, workers: seq<WorkerState>)

  // ----- consistency -----

  predicate Inverse(s: Alloc) {
    && (forall c :: c in s.channelWorkers ==>
          s.channelWorkers[c] in s.workerChannels && s.workerChannels[s.channelWorkers[c]] == c)
    && (forall w :: w in s.workerChannels ==>
          s.workerChannels[w] in s.channelWorkers && s.channelWorkers[s.workerChannels[w]] == w)
  }

  /** At least one task, and one for each command. */
  predicate TasksOk(t: Tasks) {
    t != map[] && forall cmd :: cmd in t ==> |t[cmd]| == 1
  }

  predicate TasksFollow(s: Alloc) {
    s.channelTasks.Keys == s.channelWorkers.Keys && forall c :: c in s.channelTasks ==> TasksOk(s.channelTasks[c])
  }

  /** A worker with a channel exists and is not idle. */
  predicate BusyMapped(s: Alloc) {
    forall w :: w in s.workerChannels ==> w < |s.workers| && s.workers[w] != Idle
  }

  predicate Inv(s: Alloc) { Inverse(s) && TasksFollow(s) && BusyMapped(s) }

  // ----- steps -----

  predicate Usable(w: WorkerState) { w != Absent && w != NotAvailable }

  /** The first idle worker from index i on, or -1. */
  function FindFree(ws: seq<WorkerState>, i: nat): int
    requires i <= |ws|
    decreases |ws| - i
  {
    if i == |ws| then -1 else if ws[i] == Idle then i else FindFree(ws, i + 1)
  }

  /** Forgets a channel, its worker and its tasks. */
  function Release(s: Alloc, ch: string): Alloc {
    if ch !in s.channelWorkers then s
    else s.(channelWorkers := s.channelWorkers - {ch},
            workerChannels := s.workerChannels - {s.channelWorkers[ch]},
            channelTasks := s.channelTasks - {ch})
  }

  function TasksOf(s: Alloc, ch: string): Tasks { if ch in s.channelTasks then s.channelTasks[ch] else map[] }

  function IdsOf(t: Tasks, cmd: string): seq<string> { if cmd in t then t[cmd] else [] }

  function Assign(s: Alloc, ch: string, cmd: string, id: string, w: nat): Alloc
    requires w < |s.workers|
  {
    Alloc(s.channelWorkers[ch := w], s.workerChannels[w := ch],
          s.channelTasks[ch := TasksOf(s, ch)[cmd := IdsOf(TasksOf(s, ch), cmd) + [id]]],
          s.workers[w := Running])
  }

  datatype Outcome = AlreadyRunning | NoFreeWorker | Assigned(worker: nat)

  /** The channel's own worker can take another task. */
  predicate Reusable(s: Alloc, ch: string) {
    ch in s.channelWorkers && s.channelWorkers[ch] < |s.workers| && Usable(s.workers[s.channelWorkers[ch]])
  }

  function StartOutcome(s: Alloc, ch: string, cmd: string): Outcome {
    if IdsOf(TasksOf(s, ch), cmd) != [] then AlreadyRunning
    else if Reusable(s, ch) then Assigned(s.channelWorkers[ch])
    else if FindFree(s.workers, 0) < 0 then NoFreeWorker
    else Assigned(FindFree(s.workers, 0))
  }

  lemma {:induction false} FreeIsFirst(ws: seq<WorkerState>, i: nat)
    requires i <= |ws|
    ensures var w := FindFree(ws, i);
      if w < 0 then w == -1 && forall k :: i <= k < |ws| ==> ws[k] != Idle
      else i <= w < |ws| && ws[w] == Idle && forall k :: i <= k < w ==> ws[k] != Idle
    decreases |ws| - i
  {
    if i < |ws| { FreeIsFirst(ws, i + 1); }
  }

  /** The success and error paths of a start; a channel whose worker is gone is forgotten either way. */
  function StartStep(s: Alloc, ch: string, cmd: string, id: string): Alloc {
    match StartOutcome(s, ch, cmd)
    case AlreadyRunning => s
    case NoFreeWorker => Release(s, ch)
    case Assigned(w) =>
      FreeIsFirst(s.workers, 0);
      Assign(if Reusable(s, ch) then s else Release(s, ch), ch, cmd, id, w)
  }

  function RemoveFirst(ids: seq<string>, id: string): seq<string> {
    if ids == [] then [] else if ids[0] == id then ids[1..] else [ids[0]] + RemoveFirst(ids[1..], id)
  }

  function DropTask(t: Tasks, cmd: string, id: string): Tasks {
    if cmd !in t then t
    else if RemoveFirst(t[cmd], id) == [] then t - {cmd}
    else t[cmd := RemoveFirst(t[cmd], id)]
  }

  /** Removes one task; a channel without tasks is forgotten. */
  function RemoveStep(s: Alloc, ch: string, cmd: string, id: string): Alloc {
    if ch !in s.channelTasks then s
    else
      var t := DropTask(s.channelTasks[ch], cmd, id);
      if t == map[] then Release(s, ch) else s.(channelTasks := s.channelTasks[ch := t])
  }

  /** The worker's channel has tasks. */
  predicate HasTasks(s: Alloc, w: nat) {
    w in s.workerChannels && TasksOf(s, s.workerChannels[w]) != map[]
  }

  /** After a completion the worker's state follows from what is left on its channel. */
  function SettleStep(s: Alloc, w: nat): Alloc {
    if w < |s.workers| then s.(workers := s.workers[w := if HasTasks(s, w) then Running else Idle]) else s
  }

  /** The critical sections, each a step: other steps may come between those of one operation. */
  datatype Event =
    | Start(ch: string, cmd: string, id: string)
    | Remove(ch: string, cmd: string, id: string)
    | Settle(worker: nat)

  function Step(s: Alloc, e: Event): Alloc {
    match e
    case Start(ch, cmd, id) => StartStep(s, ch, cmd, id)
    case Remove(ch, cmd, id) => RemoveStep(s, ch, cmd, id)
    case Settle(w) => SettleStep(s, w)
  }

  function Run(s: Alloc, es: seq<Event>): Alloc {
    if es == [] then s else Step(Run(s, es[..|es| - 1]), es[|es| - 1])
  }

  // ----- every step keeps the maps consistent -----

  lemma ReleaseKeepsInverse(s: Alloc, ch: string)
    requires Inverse(s)
    ensures Inverse(Release(s, ch))
  {
  }

  lemma ReleaseKeepsInv(s: Alloc, ch: string)
    requires Inv(s)
    ensures Inv(Release(s, ch)) && ch !in Release(s, ch).channelWorkers && ch !in Release(s, ch).channelTasks
  {
    ReleaseKeepsInverse(s, ch);
    hide Inverse, TasksOk;
  }

  lemma AssignKeepsInverse(s: Alloc, ch: string, cmd: string, id: string, w: nat)
    requires Inverse(s) && w < |s.workers|
    requires if ch in s.channelWorkers then s.channelWorkers[ch] == w else w !in s.workerChannels
    ensures Inverse(Assign(s, ch, cmd, id, w))
  {
    hide TasksOf, IdsOf;
  }

  lemma AssignKeepsTasks(s: Alloc, ch: string, cmd: string, id: string, w: nat)
    requires TasksFollow(s) && w < |s.workers| && IdsOf(TasksOf(s, ch), cmd) == []
    ensures TasksFollow(Assign(s, ch, cmd, id, w))
  {
    OneMore(TasksOf(s, ch), cmd, id);
    hide TasksOk, IdsOf;
    var r := Assign(s, ch, cmd, id, w);
    assert r.channelTasks.Keys == s.channelTasks.Keys + {ch};
    assert r.channelWorkers.Keys == s.channelWorkers.Keys + {ch};
  }

  lemma AssignKeepsBusy(s: Alloc, ch: string, cmd: string, id: string, w: nat)
    requires BusyMapped(s) && w < |s.workers|
    ensures BusyMapped(Assign(s, ch, cmd, id, w))
  {
    hide TasksOf, IdsOf;
  }

  lemma AssignKeepsInv(s: Alloc, ch: string, cmd: string, id: string, w: nat)
    requires Inv(s) && w < |s.workers| && IdsOf(TasksOf(s, ch), cmd) == []
    requires if ch in s.channelWorkers then s.channelWorkers[ch] == w else w !in s.workerChannels
    ensures Inv(Assign(s, ch, cmd, id, w))
  {
    hide Inverse, TasksFollow, BusyMapped, Assign, IdsOf, TasksOf;
    AssignKeepsInverse(s, ch, cmd, id, w);
    AssignKeepsTasks(s, ch, cmd, id, w);
    AssignKeepsBusy(s, ch, cmd, id, w);
  }

  lemma OneMore(t: Tasks, cmd: string, id: string)
    requires t == map[] || TasksOk(t)
    requires IdsOf(t, cmd) == []
    ensures TasksOk(t[cmd := IdsOf(t, cmd) + [id]])
  {
    assert cmd in t[cmd := IdsOf(t, cmd) + [id]];
  }

  lemma StartKeepsInv(s: Alloc, ch: string, cmd: string, id: string)
    requires Inv(s)
    ensures Inv(StartStep(s, ch, cmd, id))
  {
    FreeIsFirst(s.workers, 0);
    ReleaseKeepsInv(s, ch);
    match StartOutcome(s, ch, cmd)
    case AlreadyRunning =>
    case NoFreeWorker =>
    case Assigned(w) =>
      var base := if Reusable(s, ch) then s else Release(s, ch);
      assert Inv(base) && IdsOf(TasksOf(base, ch), cmd) == [];
      if !Reusable(s, ch) { assert s.workers[w] == Idle && w !in s.workerChannels; }
      hide Inv;
      AssignKeepsInv(base, ch, cmd, id, w);
  }

  lemma DropTaskOk(t: Tasks, cmd: string, id: string)
    requires TasksOk(t)
    ensures DropTask(t, cmd, id) == map[] || TasksOk(DropTask(t, cmd, id))
  {
    if cmd in t && t[cmd][0] != id {
      assert t[cmd][1..] == [] && t[cmd] == [t[cmd][0]];
      assert RemoveFirst(t[cmd], id) == t[cmd];
      assert t[cmd := t[cmd]] == t;
    }
  }

  lemma RemoveKeepsInv(s: Alloc, ch: string, cmd: string, id: string)
    requires Inv(s)
    ensures Inv(RemoveStep(s, ch, cmd, id))
  {
    ReleaseKeepsInv(s, ch);
    if ch in s.channelTasks {
      var t := DropTask(s.channelTasks[ch], cmd, id);
      DropTaskOk(s.channelTasks[ch], cmd, id);
      if t != map[] { NewTasksKeepInv(s, ch, t); }
    }
    hide Inv, TasksOk, DropTask, Release;
  }

  lemma NewTasksKeepInv(s: Alloc, ch: string, t: Tasks)
    requires Inv(s) && ch in s.channelTasks && TasksOk(t)
    ensures Inv(s.(channelTasks := s.channelTasks[ch := t]))
  {
    hide TasksOk;
    assert s.channelTasks[ch := t].Keys == s.channelTasks.Keys;
  }

  lemma SettleKeepsInv(s: Alloc, w: nat)
    requires Inv(s)
    ensures Inv(SettleStep(s, w))
  {
    if w in s.workerChannels { assert TasksOk(s.channelTasks[s.workerChannels[w]]); }
  }

  lemma StepKeepsInv(s: Alloc, e: Event)
    requires Inv(s)
    ensures Inv(Step(s, e))
  {
    hide Inv, StartStep, RemoveStep, SettleStep;
    match e
    case Start(ch, cmd, id) => StartKeepsInv(s, ch, cmd, id);
    case Remove(ch, cmd, id) => RemoveKeepsInv(s, ch, cmd, id);
    case Settle(w) => SettleKeepsInv(s, w);
  }

  lemma {:induction false} RunsKeepInv(s: Alloc, es: seq<Event>)
    requires Inv(s)
    ensures Inv(Run(s, es))
    decreases |es|
  {
    hide Inv, Step;
    if es != [] {
      RunsKeepInv(s, es[..|es| - 1]);
      StepKeepsInv(Run(s, es[..|es| - 1]), es[|es| - 1]);
    }
  }

  /** A manager with fresh workers and no channels. */
  function Fresh(workers: seq<WorkerState>): Alloc { Alloc(map[], map[], map[], workers) }

  /** The consistency of every reachable state, written out. */
  lemma Reachable(workers: seq<WorkerState>, es: seq<Event>)
    ensures var s := Run(Fresh(workers), es);
      && (forall c, d ::
            c in s.channelWorkers && d in s.channelWorkers && s.channelWorkers[c] == s.channelWorkers[d] ==> c == d)
      && (forall c, w :: c in s.channelWorkers && s.channelWorkers[c] == w <==>
            w in s.workerChannels && s.workerChannels[w] == c)
      && s.channelTasks.Keys == s.channelWorkers.Keys
      && (forall c :: c in s.channelTasks ==> s.channelTasks[c] != map[])
      && (forall c, cmd :: c in s.channelTasks && cmd in s.channelTasks[c] ==> |s.channelTasks[c][cmd]| == 1)
      && (forall w :: w in s.workerChannels ==> w < |s.workers| && s.workers[w] != Idle)
  {
    assert Inv(Fresh(workers));
    RunsKeepInv(Fresh(workers), es);
  }

  // ----- no more channels than workers -----

  lemma {:induction false} InjectiveFits(m: map<string, nat>, keys: set<string>, n: nat)
    requires keys <= m.Keys && forall c :: c in keys ==> m[c] < n
    requires forall c, d :: c in keys && d in keys && m[c] == m[d] ==> c == d
    ensures |keys| <= n
    decreases n
  {
    if n > 0 {
      if c :| c in keys && m[c] == n - 1 {
        InjectiveFits(m, keys - {c}, n - 1);
      } else {
        InjectiveFits(m, keys, n - 1);
      }
    } else if c :| c in keys {
      assert m[c] < 0;
    }
  }

  /** In every reachable state there is a worker for each channel. */
  lemma ChannelsFit(workers: seq<WorkerState>, es: seq<Event>)
    ensures |Run(Fresh(workers), es).channelWorkers| <= |workers|
  {
    var s := Run(Fresh(workers), es);
    assert Inv(Fresh(workers));
    RunsKeepInv(Fresh(workers), es);
    WorkersStay(Fresh(workers), es);
    hide Run, TasksFollow;
    assert forall c :: c in s.channelWorkers ==> s.channelWorkers[c] in s.workerChannels;
    InjectiveFits(s.channelWorkers, s.channelWorkers.Keys, |s.workers|);
  }

  lemma {:induction false} WorkersStay(s: Alloc, es: seq<Event>)
    ensures |Run(s, es).workers| == |s.workers|
    decreases |es|
  {
    if es != [] {
      WorkersStay(s, es[..|es| - 1]);
      StepKeepsCount(Run(s, es[..|es| - 1]), es[|es| - 1]);
    }
  }

  lemma StepKeepsCount(s: Alloc, e: Event)
    ensures |Step(s, e).workers| == |s.workers|
  {
    FreeIsFirst(s.workers, 0);
  }

  // ----- a channel keeps its worker -----

  /** No worker is gone: true of a manager whose workers all run, and kept by every step. */
  predicate AllUsable(s: Alloc) { forall w :: 0 <= w < |s.workers| ==> Usable(s.workers[w]) }

  /** As long as a channel has tasks, it stays on its worker. */
  lemma StaysOnWorker(s: Alloc, e: Event, ch: string)
    requires Inv(s) && AllUsable(s) && ch in s.channelWorkers && ch in Step(s, e).channelWorkers
    ensures Step(s, e).channelWorkers[ch] == s.channelWorkers[ch]
  {
    hide DropTask, IdsOf, TasksOf, TasksOk;
    FreeIsFirst(s.workers, 0);
    var w := s.channelWorkers[ch];
    assert w in s.workerChannels;
    assert Reusable(s, ch);
  }

  lemma StepKeepsUsable(s: Alloc, e: Event)
    requires AllUsable(s)
    ensures AllUsable(Step(s, e))
  {
    hide DropTask, IdsOf, TasksOf, TasksOk;
    FreeIsFirst(s.workers, 0);
  }

  /** Over a whole run: a channel that is tracked at every point has the same worker at every point. */
  lemma {:induction false} KeepsItsWorker(s: Alloc, es: seq<Event>, ch: string)
    requires Inv(s) && AllUsable(s)
    requires forall k :: 0 <= k <= |es| ==> ch in Run(s, es[..k]).channelWorkers
    ensures AllUsable(Run(s, es)) && ch in s.channelWorkers
    ensures ch in Run(s, es).channelWorkers && Run(s, es).channelWorkers[ch] == s.channelWorkers[ch]
    decreases |es|
  {
    hide Step, Inv, AllUsable;
    assert ch in Run(s, es[..0]).channelWorkers && ch in Run(s, es[..|es|]).channelWorkers;
    assert es[..0] == [] && es[..|es|] == es;
    if es != [] {
      var n := |es| - 1;
      var init := es[..n];
      forall k | 0 <= k <= |init| ensures ch in Run(s, init[..k]).channelWorkers {
        assert init[..k] == es[..k];
      }
      KeepsItsWorker(s, init, ch);
      RunsKeepInv(s, init);
      StaysOnWorker(Run(s, init), es[n], ch);
      StepKeepsUsable(Run(s, init), es[n]);
    }
  }

  // ----- what is tracked -----

  predicate Tracks(s: Alloc, ch: string, cmd: string, id: string) { id in IdsOf(TasksOf(s, ch), cmd) }

  /** Nothing but the task started is added, and only the tasks of a channel whose worker is gone are lost. */
  lemma StartTracks(s: Alloc, ch: string, cmd: string, id: string, c: string, m: string, i: string)
    requires Inv(s)
    ensures var r := StartStep(s, ch, cmd, id);
      var lost := c == ch && !StartOutcome(s, ch, cmd).AlreadyRunning? && !Reusable(s, ch);
      Tracks(r, c, m, i) <==> || (Tracks(s, c, m, i) && !lost)
                              || (StartOutcome(s, ch, cmd).Assigned? && c == ch && m == cmd && i == id)
  {
    FreeIsFirst(s.workers, 0);
    hide Inverse, BusyMapped, TasksOk;
  }

  /** A removal takes exactly that task, and leaves every worker's state alone. */
  lemma RemoveTracks(s: Alloc, ch: string, cmd: string, id: string, c: string, m: string, i: string)
    requires Inv(s)
    ensures var r := RemoveStep(s, ch, cmd, id);
      && (Tracks(r, c, m, i) <==> Tracks(s, c, m, i) && !(c == ch && m == cmd && i == id))
      && r.workers == s.workers
  {
    hide DropTask;
    AfterRemove(s, ch, cmd, id, c);
    if ch in s.channelTasks && c == ch { DropTakes(s.channelTasks[ch], cmd, id, m, i); }
  }

  lemma AfterRemove(s: Alloc, ch: string, cmd: string, id: string, c: string)
    requires Inv(s)
    ensures TasksOf(RemoveStep(s, ch, cmd, id), c)
            == if c == ch && ch in s.channelTasks then DropTask(s.channelTasks[ch], cmd, id) else TasksOf(s, c)
  {
    hide Inverse, BusyMapped, DropTask, TasksOk;
  }

  lemma DropTakes(t: Tasks, cmd: string, id: string, m: string, i: string)
    requires TasksOk(t)
    ensures i in IdsOf(DropTask(t, cmd, id), m) <==> i in IdsOf(t, m) && !(m == cmd && i == id)
  {
    if cmd in t {
      var only := t[cmd][0];
      assert t[cmd] == [only] && t[cmd][1..] == [];
      assert RemoveFirst(t[cmd], id) == if only == id then [] else [only];
    }
  }

  // ----- a start and a settling, written out -----

  /** A start on a channel that does not run the command: on the channel's own worker as long as it is up. */
  lemma StartOnOwnWorker(s: Alloc, ch: string, cmd: string, id: string)
    requires Inv(s) && ch in s.channelWorkers && s.workers[s.channelWorkers[ch]] == Running
    ensures ch in s.channelTasks
    ensures var r, w := StartStep(s, ch, cmd, id), s.channelWorkers[ch];
      if cmd in s.channelTasks[ch] then r == s && StartOutcome(s, ch, cmd) == AlreadyRunning
      else
        && StartOutcome(s, ch, cmd) == Assigned(w)
        && r.channelWorkers == s.channelWorkers && r.workerChannels == s.workerChannels && r.workers == s.workers
        && r.channelTasks == s.channelTasks[ch := s.channelTasks[ch][cmd := [id]]]
  {
    assert TasksOk(s.channelTasks[ch]);
    var w := s.channelWorkers[ch];
    assert s.workerChannels[w] == ch;
    assert [] + [id] == [id];
    FreeIsFirst(s.workers, 0);
    hide Inverse, BusyMapped, TasksOk, FindFree;
  }

  /** A command that already runs on the channel is refused, and nothing changes. */
  lemma StartRefused(s: Alloc, ch: string, cmd: string, id: string)
    requires Inv(s) && ch in s.channelTasks && cmd in s.channelTasks[ch]
    ensures StartOutcome(s, ch, cmd) == AlreadyRunning && StartStep(s, ch, cmd, id) == s
  {
    assert TasksOk(s.channelTasks[ch]);
    hide Inverse, BusyMapped, TasksOk;
  }

  /** A start on a new channel takes the first idle worker, and fails without changing anything when there is none. */
  lemma StartOnFreeWorker(s: Alloc, ch: string, cmd: string, id: string) returns (w: int)
    requires Inv(s) && ch !in s.channelWorkers
    ensures w < |s.workers| && forall k :: 0 <= k < |s.workers| && (w < 0 || k < w) ==> s.workers[k] != Idle
    ensures w < 0 ==> StartStep(s, ch, cmd, id) == s && StartOutcome(s, ch, cmd) == NoFreeWorker
    ensures w >= 0 ==>
              && s.workers[w] == Idle && w !in s.workerChannels && StartOutcome(s, ch, cmd) == Assigned(w)
              && StartStep(s, ch, cmd, id)
                 == Alloc(s.channelWorkers[ch := w], s.workerChannels[w := ch],
                          s.channelTasks[ch := map[cmd := [id]]], s.workers[w := Running])
  {
    FreeIsFirst(s.workers, 0);
    w := FindFree(s.workers, 0);
    assert ch !in s.channelTasks;
    assert [] + [id] == [id];
    hide Inverse, TasksOk, FindFree;
  }

  /** A start on a channel whose worker is gone forgets that worker and the channel's tasks, and starts over. */
  lemma StartAfterLoss(s: Alloc, ch: string, cmd: string, id: string)
    requires Inv(s) && ch in s.channelWorkers && cmd !in s.channelTasks[ch]
    requires var state := s.workers[s.channelWorkers[ch]]; state == Absent || state == NotAvailable
    ensures var lost := Alloc(s.channelWorkers - {ch}, s.workerChannels - {s.channelWorkers[ch]},
                              s.channelTasks - {ch}, s.workers);
      && StartStep(s, ch, cmd, id) == StartStep(lost, ch, cmd, id)
      && StartOutcome(s, ch, cmd) == StartOutcome(lost, ch, cmd)
  {
    FreeIsFirst(s.workers, 0);
    hide Inverse, BusyMapped, TasksOk, FindFree;
  }

  /** After a completion the worker runs on exactly while its channel has tasks; nothing else changes. */
  lemma SettleMeans(s: Alloc, w: nat)
    requires Inv(s) && w < |s.workers|
    ensures SettleStep(s, w) == s.(workers := s.workers[w := if w in s.workerChannels then Running else Idle])
  {
    if w in s.workerChannels { assert TasksOk(s.channelTasks[s.workerChannels[w]]); }
  }

  // ----- start and completion -----

  /** The command under which the worker's channel runs the task. */
  predicate RunsAs(s: Alloc, w: nat, cmd: string, id: string) {
    w in s.workerChannels && Tracks(s, s.workerChannels[w], cmd, id)
  }

  /** A completion that found the task under `cmd`. */
  function CompleteStep(s: Alloc, w: nat, cmd: string, id: string): Alloc
    requires w in s.workerChannels
  {
    SettleStep(RemoveStep(s, s.workerChannels[w], cmd, id), w)
  }

  lemma DropNew(t: Tasks, cmd: string, id: string)
    requires cmd !in t
    ensures DropTask(t[cmd := [id]], cmd, id) == t
  {
    assert t[cmd := [id]] - {cmd} == t;
  }

  lemma AddChannelBack(s: Alloc, ch: string, cmd: string, id: string, w: nat)
    requires Inv(s) && w < |s.workers| && ch !in s.channelWorkers && w !in s.workerChannels && s.workers[w] == Idle
    ensures CompleteStep(Assign(s, ch, cmd, id, w), w, cmd, id) == s
  {
    hide Inverse, BusyMapped, TasksOk;
    var a := Assign(s, ch, cmd, id, w);
    assert ch !in s.channelTasks;
    DropNew(map[], cmd, id);
    assert [] + [id] == [id];
    var r := RemoveStep(a, ch, cmd, id);
    assert r.channelWorkers == s.channelWorkers && r.workerChannels == s.workerChannels
           && r.channelTasks == s.channelTasks;
    assert a.workers[w := Idle] == s.workers;
  }

  lemma AddTaskBack(s: Alloc, ch: string, cmd: string, id: string)
    requires Inv(s) && Reusable(s, ch) && IdsOf(TasksOf(s, ch), cmd) == []
    ensures CompleteStep(Assign(s, ch, cmd, id, s.channelWorkers[ch]), s.channelWorkers[ch], cmd, id) == s
  {
    var w := s.channelWorkers[ch];
    var t := s.channelTasks[ch];
    assert TasksOk(t) && w in s.workerChannels && s.workers[w] == Running;
    assert cmd !in t;
    hide Inverse, BusyMapped, TasksOk, TasksFollow, Reusable, DropTask;
    DropNew(t, cmd, id);
    assert [] + [id] == [id];
    var a := Assign(s, ch, cmd, id, w);
    assert a.channelTasks[ch] == t[cmd := [id]];
    var r := RemoveStep(a, ch, cmd, id);
    assert r.channelTasks == s.channelTasks && r.channelWorkers == s.channelWorkers
           && r.workerChannels == s.workerChannels;
    assert s.workers[w := Running] == s.workers;
  }

  /** Starting a task and completing it at once puts everything back, unless the start had to forget a dead worker. */
  lemma StartThenComplete(s: Alloc, ch: string, cmd: string, id: string)
    requires Inv(s) && StartOutcome(s, ch, cmd).Assigned? && (ch in s.channelWorkers ==> Reusable(s, ch))
    ensures var w := StartOutcome(s, ch, cmd).worker;
      var a := StartStep(s, ch, cmd, id);
      RunsAs(a, w, cmd, id) && CompleteStep(a, w, cmd, id) == s
  {
    FreeIsFirst(s.workers, 0);
    var w := StartOutcome(s, ch, cmd).worker;
    if Reusable(s, ch) {
      AddTaskBack(s, ch, cmd, id);
    } else {
      assert s.workers[w] == Idle && w !in s.workerChannels;
      AddChannelBack(s, ch, cmd, id, w);
    }
    hide CompleteStep, Inv;
  }
}
