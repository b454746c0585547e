/** The worker manager itself: the maps and worker states, updated in place by its operations. */
module Workers {
  import opened WorkerAllocation

  /** The tasks of a channel hold the ID under some command. */
  ghost predicate Holds(t: Tasks, id: string) { exists cmd :: cmd in t && id in t[cmd] }

  class WorkerManager {
    const workers: array<WorkerState>
    var channelWorkers: map<string, nat>
    var workerChannels: map<nat, string>
    var channelTasks: map<string, Tasks>

    ghost function View(): Alloc
      reads this, workers
    {
      Alloc(channelWorkers, workerChannels, channelTasks, workers[..])
    }

    constructor (num: nat)
      ensures fresh(workers) && workers.Length == num
      ensures View() == Fresh(seq(num, _ => Idle)) && Inv(View())
    {
      workers := new WorkerState[num](_ => Idle);
      channelWorkers, workerChannels, channelTasks := map[], map[], map[];
    }

    method FindFreeWorker() returns (w: int)
      ensures w == FindFree(workers[..], 0)
    {
      for i := 0 to workers.Length
        invariant FindFree(workers[..], 0) == FindFree(workers[..], i)
      {
        if workers[i] == Idle {
          return i;
        }
      }
      return -1;
    }

    /** The channel's own worker, or a free one once a channel whose worker is gone is forgotten. */
    method FindWorkerForChannel(ch: string) returns (w: int)
      requires Inv(View())
      modifies this
      ensures View() == if Reusable(old(View()), ch) then old(View()) else Release(old(View()), ch)
      ensures w == if Reusable(old(View()), ch) then old(channelWorkers)[ch] else FindFree(old(View()).workers, 0)
    {
      hide FindFree, Inverse, TasksFollow;
      if ch in channelWorkers {
        var id := channelWorkers[ch];
        MappedInRange(View(), ch);
        if workers[id] != Absent && workers[id] != NotAvailable {
          return id;
        }
        channelWorkers := channelWorkers - {ch};
        workerChannels := workerChannels - {id};
        channelTasks := channelTasks - {ch};
      }
      w := FindFreeWorker();
    }

    /** Puts the task on the worker. */
    method AssignTask(ch: string, cmd: string, id: string, w: nat)
      requires w < workers.Length
      modifies this, workers
      ensures View() == Assign(old(View()), ch, cmd, id, w)
    {
      ghost var base := View();
      channelWorkers := channelWorkers[ch := w];
      workerChannels := workerChannels[w := ch];
      var t: Tasks := if ch in channelTasks then channelTasks[ch] else map[];
      var ids := if cmd in t then t[cmd] else [];
      channelTasks := channelTasks[ch := t[cmd := ids + [id]]];
      workers[w] := Running;
      assert workers[..] == base.workers[w := Running];
    }

    lemma ViewIs()
      ensures View().channelTasks == channelTasks && View().channelWorkers == channelWorkers
      ensures View().workerChannels == workerChannels && |View().workers| == workers.Length
    {
    }

    /** Starts a task: the new state and the outcome are those of the step, and the maps stay consistent. */
    method StartTask(ch: string, cmd: string, id: string) returns (r: Outcome)
      requires Inv(View())
      modifies this, workers
      ensures View() == StartStep(old(View()), ch, cmd, id) && Inv(View())
      ensures r == StartOutcome(old(View()), ch, cmd)
    {
      hide *;
      ghost var before := View();
      StartKeepsInv(before, ch, cmd, id);
      StartCases(before, ch, cmd, id);
      ViewIs();
      if ch in channelTasks && cmd in channelTasks[ch] && |channelTasks[ch][cmd]| > 0 {
        return AlreadyRunning;
      }
      var w := FindWorkerForChannel(ch);
      if w < 0 {
        return NoFreeWorker;
      }
      AssignTask(ch, cmd, id, w);
      r := Assigned(w);
    }

    /** The tasks of a channel without one of them; a command without tasks is dropped. */
    method WithoutTask(t: Tasks, cmd: string, id: string) returns (r: Tasks)
      ensures r == DropTask(t, cmd, id)
    {
      r := t;
      if cmd in t {
        var ids := RemoveId(t[cmd], id);
        r := r[cmd := ids];
        if |r[cmd]| == 0 {
          r := r - {cmd};
          assert r == t - {cmd};
        }
      }
    }

    method ForgetChannel(ch: string)
      requires Inv(View()) && ch in channelTasks
      modifies this
      ensures View() == Release(old(View()), ch)
    {
      MappedBack(View(), ch);
      hide Inv;
      ghost var served := channelWorkers[ch];
      channelTasks := channelTasks - {ch};
      channelWorkers := channelWorkers - {ch};
      ForgetWorker(ch, served);
    }

    method SetTasks(ch: string, t: Tasks)
      modifies this`channelTasks
      ensures View() == old(View()).(channelTasks := old(channelTasks)[ch := t])
    {
      channelTasks := channelTasks[ch := t];
    }

    /** Removes one task from a channel. */
    method RemoveTaskFromChannel(ch: string, cmd: string, id: string)
      requires Inv(View())
      modifies this
      ensures View() == RemoveStep(old(View()), ch, cmd, id) && Inv(View())
    {
      hide *;
      RemoveKeepsInv(View(), ch, cmd, id);
      RemoveCases(View(), ch, cmd, id);
      ViewIs();
      if ch in channelTasks {
        var t := WithoutTask(channelTasks[ch], cmd, id);
        if |t| == 0 {
          ForgetChannel(ch);
        } else {
          SetTasks(ch, t);
        }
      }
    }

    method RemoveId(ids: seq<string>, id: string) returns (r: seq<string>)
      ensures r == RemoveFirst(ids, id)
    {
      for i := 0 to |ids|
        invariant RemoveFirst(ids, id) == ids[..i] + RemoveFirst(ids[i..], id)
      {
        assert ids[i..][1..] == ids[i + 1..];
        if ids[i] == id {
          return ids[..i] + ids[i + 1..];
        }
        assert ids[..i + 1] == ids[..i] + [ids[i]];
      }
      return ids;
    }

    /** Forgets the first worker found to serve the channel; there is only one. */
    method ForgetWorker(ch: string, ghost served: nat)
      requires served in workerChannels && workerChannels[served] == ch
      requires forall w :: w in workerChannels && workerChannels[w] == ch ==> w == served
      modifies this`workerChannels
      ensures workerChannels == old(workerChannels) - {served}
    {
      var left := workerChannels.Keys;
      while left != {}
        invariant left <= workerChannels.Keys && served in left
        invariant workerChannels == old(workerChannels)
        decreases |left|
      {
        var w :| w in left;
        if workerChannels[w] == ch {
          workerChannels := workerChannels - {w};
          return;
        }
        left := left - {w};
      }
    }

    /** The command under which a channel runs the task, if any; the first one found. */
    method FindCommand(t: Tasks, id: string) returns (found: bool, cmd: string)
      ensures found ==> cmd in t && id in t[cmd]
      ensures !found ==> !Holds(t, id)
    {
      var left := t.Keys;
      while left != {}
        invariant left <= t.Keys && forall c :: c in t && c !in left ==> id !in t[c]
        decreases |left|
      {
        cmd :| cmd in left;
        if id in t[cmd] {
          return true, cmd;
        }
        left := left - {cmd};
      }
      return false, "";
    }

    /** The channel a worker serves, if any, looked up by value. */
    method FindChannel(w: nat) returns (found: bool, ch: string)
      requires Inv(View())
      ensures found <==> w in workerChannels
      ensures found ==> ch == workerChannels[w]
    {
      ghost var s := View();
      hide TasksFollow, BusyMapped;
      var left := channelWorkers.Keys;
      while left != {}
        invariant left <= channelWorkers.Keys && forall c :: c in channelWorkers && c !in left ==>
                    channelWorkers[c] != w
        decreases |left|
      {
        ch :| ch in left;
        if channelWorkers[ch] == w {
          return true, ch;
        }
        left := left - {ch};
      }
      return false, "";
    }

    /** The worker stays running while its channel has tasks, and is idle otherwise. */
    method SettleWorker(w: nat)
      requires Inv(View()) && w < workers.Length
      modifies workers
      ensures View() == SettleStep(old(View()), w) && Inv(View())
    {
      ghost var before := View();
      SettleKeepsInv(before, w);
      hide Inv;
      if w in workerChannels && workerChannels[w] in channelTasks && |channelTasks[workerChannels[w]]| > 0 {
        workers[w] := Running;
        assert workers[..] == before.workers[w := Running];
      } else {
        workers[w] := Idle;
        assert workers[..] == before.workers[w := Idle];
      }
    }

    /**
     A worker reports a task complete. The task is removed if its worker's channel runs it; a name that
     is empty counts as not found. Then the worker's state follows from what is left.
     */
    method HandleCompletion(w: nat, id: string) returns (found: bool, ghost cmd: string)
      requires Inv(View()) && w < workers.Length
      modifies this, workers
      ensures Inv(View())
      ensures found ==> RunsAs(old(View()), w, cmd, id) && View() == CompleteStep(old(View()), w, cmd, id)
      ensures !found ==> View() == SettleStep(old(View()), w)
      ensures !found && w in old(workerChannels) && old(workerChannels)[w] != "" ==>
                var t := TasksOf(old(View()), old(workerChannels)[w]);
                "" in t || !Holds(t, id)
    {
      hide Inv;
      var onChannel, ch := FindChannel(w);
      found := false;
      cmd := "";
      if onChannel && ch in channelTasks {
        var isTask, name := FindCommand(channelTasks[ch], id);
        if isTask && ch != "" && name != "" {
          found, cmd := true, name;
          RemoveTaskFromChannel(ch, name, id);
        }
      }
      SettleWorker(w);
    }
  }

  /** What a start does, case by case. */
  lemma StartCases(s: Alloc, ch: string, cmd: string, id: string)
    requires Inv(s)
    ensures if ch in s.channelTasks && cmd in s.channelTasks[ch] && |s.channelTasks[ch][cmd]| > 0
            then StartOutcome(s, ch, cmd) == AlreadyRunning && StartStep(s, ch, cmd, id) == s
            else
              var base := if Reusable(s, ch) then s else Release(s, ch);
              var w := if Reusable(s, ch) then s.channelWorkers[ch] else FindFree(s.workers, 0);
              if w < 0 then StartOutcome(s, ch, cmd) == NoFreeWorker && StartStep(s, ch, cmd, id) == base
              else && w < |s.workers| && |base.workers| == |s.workers|
                   && StartOutcome(s, ch, cmd) == Assigned(w)
                   && StartStep(s, ch, cmd, id) == Assign(base, ch, cmd, id, w)
  {
    hide Inv, FindFree;
    FreeIsFirst(s.workers, 0);
  }

  lemma RemoveCases(s: Alloc, ch: string, cmd: string, id: string)
    ensures if ch !in s.channelTasks then RemoveStep(s, ch, cmd, id) == s
            else
              var t := DropTask(s.channelTasks[ch], cmd, id);
              RemoveStep(s, ch, cmd, id)
              == if |t| == 0 then Release(s, ch) else s.(channelTasks := s.channelTasks[ch := t])
  {
    hide DropTask, Release;
  }

  lemma MappedInRange(s: Alloc, ch: string)
    requires Inv(s) && ch in s.channelWorkers
    ensures s.channelWorkers[ch] < |s.workers|
  {
  }

  /** Its worker is the only one mapped to a channel. */
  lemma MappedBack(s: Alloc, ch: string)
    requires Inv(s) && ch in s.channelTasks
    ensures ch in s.channelWorkers && s.channelWorkers[ch] in s.workerChannels
            && s.workerChannels[s.channelWorkers[ch]] == ch
    ensures forall w :: w in s.workerChannels && s.workerChannels[w] == ch ==> w == s.channelWorkers[ch]
  {
  }
}
