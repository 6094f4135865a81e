// One asyncio lock per (repository, target branch). `create`, `tier1_gate` and `integrate` take one;
// `remove` takes all locks of its repository that exist, in sorted order.
module BranchLocks {
  import opened Ordering
  import opened Options

  type TaskId = nat
  datatype Key = Key(repo: string, branch: string)

  predicate Before(a: Key, b: Key) {
    a != b && if a.repo == b.repo then Leq(a.branch, b.branch) else Leq(a.repo, b.repo)
  }

  lemma {:induction false} BeforeIsStrictOrder(a: Key, b: Key, c: Key)
    requires Before(a, b) && Before(b, c)
    ensures Before(a, c)
  {
    if a.repo == b.repo == c.repo {
      LeqTransitive(a.branch, b.branch, c.branch);
      if a.branch == c.branch {
        LeqAntisymmetric(a.branch, b.branch);
      }
    } else {
      LeqTotal(a.repo, a.repo);
      LeqTotal(c.repo, c.repo);
      LeqTransitive(a.repo, b.repo, c.repo);
      if a.repo == c.repo {
        LeqAntisymmetric(a.repo, b.repo);
      }
    }
  }

  // The existing keys of one repository, sorted.
  function SortedBranches(locks: seq<Key>, repo: string): (r: seq<string>)
    ensures Sorted(r)
    ensures NoDuplicates(locks) ==> NoDuplicates(r)
    ensures forall b :: b in r <==> Key(repo, b) in locks
  {
    if locks == [] then []
    else
      var last := locks[|locks| - 1];
      var init := locks[..|locks| - 1];
      assert locks == init + [last];
      var rest := SortedBranches(init, repo);
      if last.repo == repo then Insert(last.branch, rest) else rest
  }

  function RemovalKeys(locks: seq<Key>, repo: string): (r: seq<Key>)
    ensures forall k :: k in r <==> k in locks && k.repo == repo
    ensures NoDuplicates(locks) ==> forall i, j :: 0 <= i < j < |r| ==> Before(r[i], r[j])
  {
    var branches := SortedBranches(locks, repo);
    var keys := seq(|branches|, i requires 0 <= i < |branches| => Key(repo, branches[i]));
    assert forall b :: b in branches ==> Key(repo, b) in keys by {
      forall b | b in branches ensures Key(repo, b) in keys {
        var i :| 0 <= i < |branches| && branches[i] == b;
        assert keys[i] == Key(repo, b);
      }
    }
    keys
  }

  // A task takes the keys of `want` in order. `seen` is the lock table when the task began.
  datatype Task = Task(want: seq<Key>, got: nat, queued: bool, done: bool, removes: Option<string>, seen: seq<Key>)

  datatype State = State(
    locks: seq<Key>,
    tasks: map<TaskId, Task>,
    holder: map<Key, TaskId>,
    waiters: map<Key, seq<TaskId>>
  )

  datatype Event =
    | StartOne(t: TaskId, key: Key)
    | StartRemove(t: TaskId, repo: string)
    | Request(t: TaskId)
    | Wake(t: TaskId)
    | Finish(t: TaskId)
    | Cancel(t: TaskId)

  function Queue(s: State, k: Key): seq<TaskId> {
    if k in s.waiters then s.waiters[k] else []
  }

  predicate Wants(s: State, t: TaskId) {
    t in s.tasks && !s.tasks[t].done && s.tasks[t].got < |s.tasks[t].want|
  }

  function NextKey(s: State, t: TaskId): Key
    requires Wants(s, t)
  {
    s.tasks[t].want[s.tasks[t].got]
  }

  predicate CanRequest(s: State, t: TaskId) {
    Wants(s, t) && !s.tasks[t].queued
  }

  // A waiter gets a free lock when it is the first in line.
  predicate CanWake(s: State, t: TaskId) {
    && Wants(s, t) && s.tasks[t].queued
    && NextKey(s, t) !in s.holder
    && Queue(s, NextKey(s, t)) != [] && Queue(s, NextKey(s, t))[0] == t
  }

  predicate CanFinish(s: State, t: TaskId) {
    t in s.tasks && !s.tasks[t].done && s.tasks[t].got == |s.tasks[t].want|
  }

  predicate CanStep(s: State, t: TaskId) {
    CanRequest(s, t) || CanWake(s, t) || CanFinish(s, t)
  }

  function Step(s: State, e: Event): State {
    match e
    case StartOne(t, k) =>
      if t in s.tasks then s
      else s.(locks := if k in s.locks then s.locks else s.locks + [k],
              tasks := s.tasks[t := Task([k], 0, false, false, None, s.locks)])
    case StartRemove(t, repo) =>
      if t in s.tasks then s
      else s.(tasks := s.tasks[t := Task(RemovalKeys(s.locks, repo), 0, false, false, Some(repo), s.locks)])
    case Request(t) =>
      if !CanRequest(s, t) then s
      else
        var k := NextKey(s, t);
        if k !in s.holder && Queue(s, k) == [] then
          s.(holder := s.holder[k := t], tasks := s.tasks[t := s.tasks[t].(got := s.tasks[t].got + 1)])
        else
          s.(waiters := s.waiters[k := Queue(s, k) + [t]], tasks := s.tasks[t := s.tasks[t].(queued := true)])
    case Wake(t) =>
      if !CanWake(s, t) then s
      else
        var k := NextKey(s, t);
        s.(holder := s.holder[k := t],
           waiters := s.waiters[k := Queue(s, k)[1..]],
           tasks := s.tasks[t := s.tasks[t].(got := s.tasks[t].got + 1, queued := false)])
    case Finish(t) =>
      if !CanFinish(s, t) then s
      else s.(holder := map k | k in s.holder && s.holder[k] != t :: s.holder[k],
              tasks := s.tasks[t := s.tasks[t].(done := true)])
    case Cancel(t) =>
      if t !in s.tasks || s.tasks[t].done then s
      else s.(holder := map k | k in s.holder && s.holder[k] != t :: s.holder[k],
              waiters := if Wants(s, t) && s.tasks[t].queued
                         then s.waiters[NextKey(s, t) := Without(t, Queue(s, NextKey(s, t)))] else s.waiters,
              tasks := s.tasks[t := s.tasks[t].(done := true, queued := false)])
  }

  // A cancelled waiter leaves the line.
  function Without(t: TaskId, line: seq<TaskId>): (r: seq<TaskId>)
    ensures forall u :: u in r <==> u in line && u != t
    ensures NoDuplicates(line) ==> NoDuplicates(r)
  {
    if line == [] then []
    else
      var init, last := line[..|line| - 1], line[|line| - 1];
      assert line == init + [last];
      assert NoDuplicates(line) ==> NoDuplicates(init) && last !in init;
      Without(t, init) + if last == t then [] else [last]
  }

  function Run(es: seq<Event>): State {
    if es == [] then State([], map[], map[], map[]) else Step(Run(es[..|es| - 1]), es[|es| - 1])
  }

  predicate Holds(s: State, t: TaskId, k: Key) {
    t in s.tasks && !s.tasks[t].done && s.tasks[t].got <= |s.tasks[t].want| && k in s.tasks[t].want[..s.tasks[t].got]
  }

  ghost predicate TaskOk(s: State, t: TaskId)
    requires t in s.tasks
  {
    var task := s.tasks[t];
    && task.got <= |task.want|
    && (forall i, j :: 0 <= i < j < |task.want| ==> Before(task.want[i], task.want[j]))
    && (forall k :: k in task.want ==> k in s.locks)
    && (task.queued ==> !task.done && task.got < |task.want| && t in Queue(s, task.want[task.got]))
    && (task.removes.Some? ==> forall k :: k in task.seen && k.repo == task.removes.value ==> k in task.want)
  }

  ghost predicate HolderOk(s: State, k: Key) {
    && (forall t :: Holds(s, t, k) ==> k in s.holder && s.holder[k] == t)
    && (k in s.holder ==> Holds(s, s.holder[k], k))
  }

  ghost predicate Waiting(s: State, t: TaskId, k: Key) {
    Wants(s, t) && s.tasks[t].queued && NextKey(s, t) == k
  }

  ghost predicate QueueOk(s: State, k: Key) {
    && (forall t :: t in Queue(s, k) ==> Waiting(s, t, k))
    && NoDuplicates(Queue(s, k))
  }

  ghost predicate Inv(s: State) {
    && NoDuplicates(s.locks)
    && (forall t :: t in s.tasks ==> TaskOk(s, t))
    && (forall k :: HolderOk(s, k))
    && (forall k :: QueueOk(s, k))
  }

  // ---------------------------------------------------------------- no deadlock

  ghost function Later(s: State, k: Key): set<Key> {
    set k' | k' in s.locks && Before(k, k')
  }

  // Following the holders of wanted locks leads to later and later keys, so it ends at a task that moves.
  lemma {:induction false} SomeoneMoves(s: State, t: TaskId) returns (mover: TaskId)
    requires Inv(s) && t in s.tasks && !s.tasks[t].done
    ensures mover in s.tasks && !s.tasks[mover].done && CanStep(s, mover)
    decreases if Wants(s, t) then Later(s, NextKey(s, t)) else {}, if Wants(s, t) then 1 else 0
  {
    assert TaskOk(s, t);
    if CanStep(s, t) {
      return t;
    }
    var k := NextKey(s, t);
    if k !in s.holder {
      assert t in Queue(s, k);
      mover := Queue(s, k)[0];
      assert QueueOk(s, k) && mover in Queue(s, k);
      assert CanWake(s, mover);
      return;
    }
    assert HolderOk(s, k);
    var h := s.holder[k];
    if CanStep(s, h) {
      return h;
    }
    assert TaskOk(s, h);
    var i :| 0 <= i < s.tasks[h].got && s.tasks[h].want[i] == k;
    var k' := NextKey(s, h);
    assert Before(k, k') && k' in s.tasks[h].want;
    forall x | x in Later(s, k') ensures x in Later(s, k) {
      BeforeIsStrictOrder(k, k', x);
    }
    assert k' in Later(s, k) && k' !in Later(s, k');
    mover := SomeoneMoves(s, h);
  }

  // ---------------------------------------------------------------- every step keeps the invariant

  lemma {:induction false} StartKeepsInv(s: State, e: Event)
    requires Inv(s) && (e.StartOne? || e.StartRemove?)
    ensures Inv(Step(s, e))
  {
    var s' := Step(s, e);
    forall t | t in s'.tasks ensures TaskOk(s', t) {
      assert t in s.tasks ==> TaskOk(s, t);
    }
    forall k ensures HolderOk(s', k) && QueueOk(s', k) {
      assert HolderOk(s, k) && QueueOk(s, k);
      assert Queue(s', k) == Queue(s, k);
      forall t ensures Holds(s', t, k) <==> Holds(s, t, k) {
      }
      forall t | t in Queue(s, k) ensures Waiting(s', t, k) {
        assert Waiting(s, t, k);
      }
    }
  }

  // A task takes the lock it wants, from the front of the queue or from an empty one.
  lemma {:induction false} AcquireKeepsInv(s: State, t: TaskId)
    requires Inv(s) && Wants(s, t) && NextKey(s, t) !in s.holder
    requires CanWake(s, t) || (CanRequest(s, t) && Queue(s, NextKey(s, t)) == [])
    ensures Inv(Step(s, if s.tasks[t].queued then Wake(t) else Request(t)))
  {
    var k := NextKey(s, t);
    var s' := Step(s, if s.tasks[t].queued then Wake(t) else Request(t));
    var task := s.tasks[t];
    assert TaskOk(s, t);
    assert task.want[..task.got + 1] == task.want[..task.got] + [k];
    forall k' ensures HolderOk(s', k') {
      assert HolderOk(s, k');
      forall u ensures Holds(s', u, k') <==> Holds(s, u, k') || (u == t && k' == k) {
      }
    }
    assert forall k' :: QueueOk(s, k');
    AcquireKeepsQueues(s, t, s');
  }

  lemma {:induction false} AcquireKeepsQueues(s: State, t: TaskId, s': State)
    requires Inv(s) && Wants(s, t)
    requires CanWake(s, t) || (CanRequest(s, t) && Queue(s, NextKey(s, t)) == [])
    requires s'.locks == s.locks && s'.tasks == s.tasks[t := s.tasks[t].(got := s.tasks[t].got + 1, queued := false)]
    requires s'.waiters
          == if s.tasks[t].queued then s.waiters[NextKey(s, t) := Queue(s, NextKey(s, t))[1..]] else s.waiters
    ensures forall k :: QueueOk(s', k)
    ensures forall u :: u in s'.tasks ==> TaskOk(s', u)
  {
    var k := NextKey(s, t);
    assert TaskOk(s, t) && QueueOk(s, k);
    forall k' ensures QueueOk(s', k') {
      assert QueueOk(s, k');
      forall u | u in Queue(s', k') ensures Waiting(s', u, k') {
        assert u in Queue(s, k') && Waiting(s, u, k');
        assert u != t;
      }
    }
    forall u | u in s'.tasks ensures TaskOk(s', u) {
      assert TaskOk(s, u);
      if u != t && s.tasks[u].queued {
        var k' := s.tasks[u].want[s.tasks[u].got];
        var i :| 0 <= i < |Queue(s, k')| && Queue(s, k')[i] == u;
        assert k' == k && s.tasks[t].queued ==> i > 0 && Queue(s, k)[1..][i - 1] == u;
      }
    }
  }

  lemma {:induction false} EnqueueKeepsInv(s: State, t: TaskId)
    requires Inv(s) && CanRequest(s, t)
    requires NextKey(s, t) in s.holder || Queue(s, NextKey(s, t)) != []
    ensures Inv(Step(s, Request(t)))
  {
    var k := NextKey(s, t);
    var s' := Step(s, Request(t));
    assert TaskOk(s, t) && QueueOk(s, k);
    forall k' ensures HolderOk(s', k') {
      assert HolderOk(s, k');
      forall u ensures Holds(s', u, k') <==> Holds(s, u, k') {
      }
    }
    forall k' ensures QueueOk(s', k') {
      assert QueueOk(s, k');
      assert t !in Queue(s, k') by {
        assert t in Queue(s, k') ==> Waiting(s, t, k');
      }
      forall u | u in Queue(s', k') ensures Waiting(s', u, k') {
        assert u == t || Waiting(s, u, k');
      }
    }
    forall u | u in s'.tasks ensures TaskOk(s', u) {
      assert TaskOk(s, u);
    }
  }

  lemma {:induction false} FinishKeepsInv(s: State, t: TaskId)
    requires Inv(s) && CanFinish(s, t)
    ensures Inv(Step(s, Finish(t)))
  {
    var s' := Step(s, Finish(t));
    assert TaskOk(s, t);
    forall u | u in s'.tasks ensures TaskOk(s', u) {
      assert TaskOk(s, u);
    }
    forall k ensures HolderOk(s', k) && QueueOk(s', k) {
      assert HolderOk(s, k) && QueueOk(s, k);
      forall u ensures Holds(s', u, k) <==> Holds(s, u, k) && u != t {
      }
      assert Queue(s', k) == Queue(s, k);
      forall u | u in Queue(s, k) ensures Waiting(s', u, k) {
        assert Waiting(s, u, k);
      }
    }
  }

  // Cancelled while it waits or while it works, a task leaves its line and gives up what it holds.
  lemma {:induction false} CancelKeepsInv(s: State, t: TaskId)
    requires Inv(s) && t in s.tasks && !s.tasks[t].done
    ensures Inv(Step(s, Cancel(t)))
  {
    var s' := Step(s, Cancel(t));
    assert TaskOk(s, t);
    forall k ensures QueueOk(s', k) && forall u :: u in Queue(s', k) <==> u in Queue(s, k) && u != t {
      assert QueueOk(s, k);
      assert t in Queue(s, k) ==> Waiting(s, t, k);
      forall u | u in Queue(s', k) ensures Waiting(s', u, k) {
        assert Waiting(s, u, k);
      }
    }
    forall k ensures HolderOk(s', k) {
      assert HolderOk(s, k);
      forall u ensures Holds(s', u, k) <==> Holds(s, u, k) && u != t {
      }
    }
    forall u | u in s'.tasks ensures TaskOk(s', u) {
      assert TaskOk(s, u);
    }
  }

  lemma {:induction false} RunKeepsInv(es: seq<Event>)
    ensures Inv(Run(es))
  {
    if es != [] {
      var s, e := Run(es[..|es| - 1]), es[|es| - 1];
      RunKeepsInv(es[..|es| - 1]);
      match e
      case Request(t) =>
        if CanRequest(s, t) {
          if NextKey(s, t) !in s.holder && Queue(s, NextKey(s, t)) == [] {
            AcquireKeepsInv(s, t);
          } else {
            EnqueueKeepsInv(s, t);
          }
        }
      case Wake(t) =>
        if CanWake(s, t) {
          AcquireKeepsInv(s, t);
        }
      case Finish(t) =>
        if CanFinish(s, t) {
          FinishKeepsInv(s, t);
        }
      case Cancel(t) =>
        if t in s.tasks && !s.tasks[t].done {
          CancelKeepsInv(s, t);
        }
      case _ => StartKeepsInv(s, e);
    }
  }

  // ---------------------------------------------------------------- the promises

  // No deadlock: as long as some task is unfinished, some unfinished task can step.
  lemma {:induction false} NoDeadlock(es: seq<Event>, t: TaskId) returns (mover: TaskId)
    requires t in Run(es).tasks && !Run(es).tasks[t].done
    ensures mover in Run(es).tasks && !Run(es).tasks[mover].done && CanStep(Run(es), mover)
  {
    RunKeepsInv(es);
    mover := SomeoneMoves(Run(es), t);
  }

  // A lock has one holder.
  lemma {:induction false} LocksExclude(es: seq<Event>, t: TaskId, u: TaskId, k: Key)
    requires Holds(Run(es), t, k) && Holds(Run(es), u, k)
    ensures t == u
  {
    RunKeepsInv(es);
    assert HolderOk(Run(es), k);
  }

  // While `remove` deletes a worktree, no other task holds any lock of the repository that existed when
  // the removal drew up its list.
  lemma {:induction false} RemovalIsAlone(es: seq<Event>, t: TaskId, u: TaskId, k: Key)
    requires CanFinish(Run(es), t) && Run(es).tasks[t].removes == Some(k.repo)
    requires k in Run(es).tasks[t].seen
    requires Holds(Run(es), u, k)
    ensures u == t
  {
    RunKeepsInv(es);
    var s := Run(es);
    assert TaskOk(s, t);
    assert s.tasks[t].want[..s.tasks[t].got] == s.tasks[t].want;
    assert Holds(s, t, k) && HolderOk(s, k);
  }

  // ---------------------------------------------------------------- the lock table

  class LockTable {
    var locks: seq<Key>

    constructor ()
      ensures locks == []
    {
      locks := [];
    }

    // Creates the lock on first use, as a task that takes one lock does when it starts.
    method Lock(key: Key)
      modifies this
      ensures locks == if key in old(locks) then old(locks) else old(locks) + [key]
      ensures key in locks
      ensures forall s: State, t: TaskId :: s.locks == old(locks) && t !in s.tasks ==>
              Step(s, StartOne(t, key)).locks == locks
    {
      if key !in locks {
        locks := locks + [key];
      }
    }

    // The keys a removal takes: strictly ascending, and exactly those of its repository.
    method RemovalList(repo: string) returns (keys: seq<Key>)
      requires NoDuplicates(locks)
      ensures forall k :: k in keys <==> k in locks && k.repo == repo
      ensures forall i, j :: 0 <= i < j < |keys| ==> Before(keys[i], keys[j])
      ensures forall s: State, t: TaskId :: s.locks == locks && t !in s.tasks ==>
              Step(s, StartRemove(t, repo)).tasks[t].want == keys
    {
      var branches: seq<string> := [];
      for i := 0 to |locks|
        invariant branches == SortedBranches(locks[..i], repo)
      {
        assert locks[..i + 1][..i] == locks[..i];
        if locks[i].repo == repo {
          branches := Insert(locks[i].branch, branches);
        }
      }
      assert locks[..|locks|] == locks;
      keys := [];
      for i := 0 to |branches|
        invariant |keys| == i && forall j :: 0 <= j < i ==> keys[j] == Key(repo, branches[j])
      {
        keys := keys + [Key(repo, branches[i])];
      }
      assert keys == RemovalKeys(locks, repo);
    }
  }
}
