// Progress under the branch locks: steps use up a finite amount of work, waiting lines are served in
// order, and from any point everybody can finish.
module LockProgress {
  import opened Ordering
  import opened Options
  import opened BranchLocks

  // What a task still has to do: ask for each key, perhaps wait for it, and finish.
  function Left(task: Task): nat {
    if task.done || task.got > |task.want| then 0
    else 1 + 2 * (|task.want| - task.got) + if task.queued then 0 else 1
  }

  ghost function AllLeft(tasks: map<TaskId, Task>): nat {
    if tasks == map[] then 0
    else
      var t :| t in tasks;
      Left(tasks[t]) + AllLeft(tasks - {t})
  }

  lemma {:induction false} LeftSplits(tasks: map<TaskId, Task>, t: TaskId)
    requires t in tasks
    ensures AllLeft(tasks) == Left(tasks[t]) + AllLeft(tasks - {t})
    decreases |tasks|
  {
    var first :| first in tasks && AllLeft(tasks) == Left(tasks[first]) + AllLeft(tasks - {first});
    if first != t {
      LeftSplits(tasks - {first}, t);
      LeftSplits(tasks - {t}, first);
      assert tasks - {first} - {t} == tasks - {t} - {first};
    }
  }

  lemma {:induction false} OneTaskMoves(tasks: map<TaskId, Task>, t: TaskId, task: Task)
    requires t in tasks && Left(task) < Left(tasks[t])
    ensures AllLeft(tasks[t := task]) < AllLeft(tasks)
  {
    LeftSplits(tasks, t);
    LeftSplits(tasks[t := task], t);
    assert tasks[t := task] - {t} == tasks - {t};
  }

  // The event by which a task that can step does so.
  function Move(s: State, t: TaskId): Event {
    if CanRequest(s, t) then Request(t) else if CanWake(s, t) then Wake(t) else Finish(t)
  }

  lemma {:induction false} MovesUseUpWork(s: State, t: TaskId)
    requires CanStep(s, t)
    ensures AllLeft(Step(s, Move(s, t)).tasks) < AllLeft(s.tasks)
    ensures Step(s, Move(s, t)).tasks.Keys == s.tasks.Keys
  {
    OneTaskMoves(s.tasks, t, Step(s, Move(s, t)).tasks[t]);
    assert Step(s, Move(s, t)).tasks == s.tasks[t := Step(s, Move(s, t)).tasks[t]];
  }

  // Whatever has happened, the tasks under way can all be brought to their end, without cancelling one.
  lemma {:induction false} EverybodyCanFinish(es: seq<Event>) returns (more: seq<Event>)
    ensures forall e :: e in more ==> e.Request? || e.Wake? || e.Finish?
    ensures Run(es + more).tasks.Keys == Run(es).tasks.Keys
    ensures forall t :: t in Run(es).tasks ==> Run(es + more).tasks[t].done
    decreases AllLeft(Run(es).tasks)
  {
    if t :| t in Run(es).tasks && !Run(es).tasks[t].done {
      var mover := NoDeadlock(es, t);
      var e := Move(Run(es), mover);
      MovesUseUpWork(Run(es), mover);
      OneMore(es, e);
      var rest := EverybodyCanFinish(es + [e]);
      more := [e] + rest;
      assert es + more == es + [e] + rest;
    } else {
      more := [];
      assert es + more == es;
    }
  }

  // A lock that changes hands goes to the first in line, or to the asker when nobody waits.
  lemma {:induction false} NobodyOvertakes(s: State, e: Event, k: Key)
    requires k in Step(s, e).holder && (k in s.holder ==> s.holder[k] != Step(s, e).holder[k])
    ensures k !in s.holder
    ensures if Queue(s, k) == [] then e == Request(Step(s, e).holder[k]) else Step(s, e).holder[k] == Queue(s, k)[0]
  {
  }

  // A waiting line grows at its end, and loses its first or a cancelled member; the others keep their order.
  lemma {:induction false} LinesKeepTheirOrder(s: State, e: Event, k: Key)
    ensures var line, next := Queue(s, k), Queue(Step(s, e), k);
            || next == line
            || (e.Request? && next == line + [e.t])
            || (e.Wake? && line != [] && line[0] == e.t && next == line[1..])
            || (e.Cancel? && next == Without(e.t, line))
  {
  }

  // ---------------------------------------------------------------- work happens under the lock

  lemma {:induction false} WantsStay(s: State, e: Event, t: TaskId)
    requires t in s.tasks
    ensures t in Step(s, e).tasks && Step(s, e).tasks[t].want == s.tasks[t].want
  {
  }

  lemma {:induction false} OneMore(es: seq<Event>, e: Event)
    ensures Run(es + [e]) == Step(Run(es), e)
  {
    assert (es + [e])[..|es|] == es;
  }

  lemma {:induction false} RunKeepsWants(es: seq<Event>, more: seq<Event>, t: TaskId)
    requires t in Run(es).tasks
    ensures t in Run(es + more).tasks && Run(es + more).tasks[t].want == Run(es).tasks[t].want
  {
    if more == [] {
      assert es + more == es;
    } else {
      var init, last := more[..|more| - 1], more[|more| - 1];
      RunKeepsWants(es, init, t);
      WantsStay(Run(es + init), last, t);
      OneMore(es + init, last);
      assert es + more == (es + init) + [last];
    }
  }

  // A task that started on one branch is past its lock, whatever happened since, only while it holds
  // that branch's lock and nobody else does.
  lemma {:induction false} WorkIsUnderTheLock(es: seq<Event>, more: seq<Event>, t: TaskId, k: Key, u: TaskId)
    requires t !in Run(es).tasks
    requires CanFinish(Run(es + [StartOne(t, k)] + more), t)
    ensures var s := Run(es + [StartOne(t, k)] + more);
            Holds(s, t, k) && k in s.holder && s.holder[k] == t && (Holds(s, u, k) ==> u == t)
  {
    var begun := es + [StartOne(t, k)];
    var s := Run(begun + more);
    assert begun[..|es|] == es;
    RunKeepsWants(begun, more, t);
    RunKeepsInv(begun + more);
    assert s.tasks[t].want == [k] && [k][..1] == [k];
    assert Holds(s, t, k) && HolderOk(s, k);
  }
}
