// The scheduler's view of a unit graph: which units may start, and why the graph cannot stall.
module Dispatch {
  import opened Ordering
  import opened PlanGraph
  import opened Toposort
  import opened ContractSearch
  import opened Plans
  import opened UnitStates

  type States = map<Id, UnitState>

  // True iff every prerequisite is done; a prerequisite without a unit row counts as not done.
  predicate DepsDone(states: States, es: set<Edge>, u: Id) {
    forall e :: e in es && e.dst == u ==> e.src in states && states[e.src] == Done
  }

  function CategoryOf(states: States, es: set<Edge>, u: Id): Category
    requires u in states
  {
    SchedCategory(states[u], DepsDone(states, es, u))
  }

  // A pending unit may start exactly when each prerequisite exists and is done; only humans move a blocked
  // one; what has ended has ended well or badly; everything else is under way.
  lemma {:induction false} CategoriesExactly(states: States, es: set<Edge>, u: Id)
    requires u in states
    ensures CategoryOf(states, es, u) == Runnable <==>
              states[u] == Pending && forall p :: Edge(p, u) in es ==> p in states && states[p] == Done
    ensures CategoryOf(states, es, u) == Waiting <==>
              states[u] == Pending && exists p :: Edge(p, u) in es && (p !in states || states[p] != Done)
    ensures CategoryOf(states, es, u) == Blocked <==> states[u] in {AwaitingHuman, AwaitingSignoff, Escalated}
    ensures CategoryOf(states, es, u) == TerminalOk <==> states[u] == Done
    ensures CategoryOf(states, es, u) == TerminalFail <==> Terminal(states[u]) && states[u] != Done
  {
    forall e | e in es && e.dst == u
      ensures Edge(e.src, u) in es
    {
      assert e == Edge(e.src, u);
    }
  }

  ghost predicate NoDanglingEdges(states: States, es: set<Edge>) {
    forall e :: e in es ==> e.src in states && e.dst in states
  }

  // Some unit that is neither done nor itself waiting leads to `u`.
  ghost predicate HeldUpBy(states: States, es: set<Edge>, u: Id, v: Id)
    requires v in states
  {
    && CategoryOf(states, es, v) in {Runnable, InFlight, Blocked, TerminalFail}
    && exists w :: IsWalk(es, w) && w[0] == v && w[|w| - 1] == u
  }

  ghost predicate HasCause(states: States, es: set<Edge>, u: Id) {
    exists v :: v in states && HeldUpBy(states, es, u, v)
  }

  lemma {:induction false} CauseIsInherited(states: States, es: set<Edge>, u: Id, v: Id)
    requires HasCause(states, es, u) && Edge(u, v) in es
    ensures HasCause(states, es, v)
  {
    var c :| c in states && HeldUpBy(states, es, u, c);
    var w :| IsWalk(es, w) && w[0] == c && w[|w| - 1] == u;
    var longer := w + [v];
    assert IsWalk(es, longer) && longer[0] == c && longer[|longer| - 1] == v;
    assert HeldUpBy(states, es, v, c);
  }

  lemma {:induction false} NotDoneIsACause(states: States, es: set<Edge>, u: Id)
    requires u in states && CategoryOf(states, es, u) in {Runnable, InFlight, Blocked, TerminalFail}
    ensures HasCause(states, es, u)
  {
    var w := [u];
    assert IsWalk(es, w) && w[0] == u && w[|w| - 1] == u;
    assert HeldUpBy(states, es, u, u);
  }

  // No silent stall: in an acyclic graph a waiting unit always waits, directly or through others, on a
  // unit that is runnable, running, blocked on a human, or failed.
  lemma {:induction false} NoSilentStall(states: States, es: set<Edge>, u: Id) returns (v: Id)
    requires Acyclic(es) && NoDanglingEdges(states, es)
    requires u in states && CategoryOf(states, es, u) == Waiting
    ensures v in states && HeldUpBy(states, es, u, v)
  {
    if !HasCause(states, es, u) {
      var stalled := set x | x in states && CategoryOf(states, es, x) == Waiting && !HasCause(states, es, x);
      forall x | x in stalled ensures HasPrerequisiteIn(es, stalled, x) {
        var e :| e in es && e.dst == x && states[e.src] != Done;
        assert Edge(e.src, x) == e;
        if CategoryOf(states, es, e.src) != Waiting {
          NotDoneIsACause(states, es, e.src);
        }
        if HasCause(states, es, e.src) {
          CauseIsInherited(states, es, e.src, x);
        }
        assert e.src in stalled;
      }
      StuckUnitsAreBehindCycle(es, stalled, u);
    }
    v :| v in states && HeldUpBy(states, es, u, v);
  }

  // ---------------------------------------------------------------- runs to completion

  function After(units: set<Id>, completed: seq<Id>): States {
    map u | u in units :: if u in completed then Done else Pending
  }

  // Units complete one at a time, each while it is runnable.
  ghost predicate IsCompletionRun(units: set<Id>, es: set<Edge>, picks: seq<Id>) {
    forall i :: 0 <= i < |picks| ==>
      picks[i] in units && CategoryOf(After(units, picks[..i]), es, picks[i]) == Runnable
  }

  ghost predicate IsMaximal(units: set<Id>, es: set<Edge>, picks: seq<Id>) {
    forall u :: u in units ==> CategoryOf(After(units, picks), es, u) != Runnable
  }

  lemma {:induction false} PendingOrDone(states: States, es: set<Edge>, v: Id)
    requires v in states && (states[v] == Pending || states[v] == Done)
    ensures CategoryOf(states, es, v) !in {InFlight, Blocked, TerminalFail}
    ensures states[v] == Pending && CategoryOf(states, es, v) != Runnable ==> CategoryOf(states, es, v) == Waiting
  {
  }

  // Pending and done units only, none runnable: then all are done.
  lemma {:induction false} NothingRunnable(states: States, es: set<Edge>, u: Id)
    requires Acyclic(es) && NoDanglingEdges(states, es)
    requires forall v :: v in states ==>
               (states[v] == Pending || states[v] == Done) && CategoryOf(states, es, v) != Runnable
    requires u in states
    ensures states[u] == Done
  {
    PendingOrDone(states, es, u);
    if states[u] == Pending {
      var v := NoSilentStall(states, es, u);
      PendingOrDone(states, es, v);
    }
  }

  lemma {:induction false} PicksAreNew(units: set<Id>, es: set<Edge>, picks: seq<Id>)
    requires IsCompletionRun(units, es, picks)
    ensures NoDuplicates(picks) && forall u :: u in picks ==> u in units
  {
    forall i, j | 0 <= i < j < |picks| ensures picks[i] != picks[j] {
      assert CategoryOf(After(units, picks[..j]), es, picks[j]) == Runnable;
      assert picks[i] == picks[..j][i];
    }
  }

  // Every maximal run completes every unit, in exactly as many steps as there are units.
  lemma {:induction false} MaximalRunsComplete(units: set<Id>, es: set<Edge>, picks: seq<Id>)
    requires Acyclic(es) && NoDanglingEdges(After(units, picks), es)
    requires IsCompletionRun(units, es, picks) && IsMaximal(units, es, picks)
    ensures forall u :: u in units ==> After(units, picks)[u] == Done
    ensures |picks| == |units|
  {
    forall u | u in units ensures u in picks {
      NothingRunnable(After(units, picks), es, u);
    }
    PicksAreNew(units, es, picks);
    DistinctCount(picks, units);
  }

  // ---------------------------------------------------------------- dispatch order

  // One legal transition; a unit leaves Pending for work only when its prerequisites are done.
  ghost predicate DispatchStep(level: Level, es: set<Edge>, before: States, after: States) {
    exists u :: u in before && StepOf(level, es, before, after, u)
  }

  ghost predicate StepOf(level: Level, es: set<Edge>, before: States, after: States, u: Id)
    requires u in before
  {
    && u in after && after == before[u := after[u]]
    && after[u] in Exits(level, before[u])
    && (before[u] == Pending && after[u] != Cancelled ==> DepsDone(before, es, u))
  }

  ghost predicate IsDispatchRun(level: Level, es: set<Edge>, run: seq<States>) {
    && run != []
    && (forall u :: u in run[0] ==> run[0][u] == Pending)
    && forall i :: 0 <= i < |run| - 1 ==> DispatchStep(level, es, run[i], run[i + 1])
  }

  ghost predicate StartedAfterPrerequisites(es: set<Edge>, states: States) {
    forall u :: u in states && states[u] != Pending && states[u] != Cancelled ==> DepsDone(states, es, u)
  }

  lemma {:induction false} DispatchKeepsOrder(level: Level, es: set<Edge>, run: seq<States>, k: nat)
    requires IsDispatchRun(level, es, run) && k < |run|
    ensures StartedAfterPrerequisites(es, run[k])
  {
    if k > 0 {
      DispatchKeepsOrder(level, es, run, k - 1);
      assert DispatchStep(level, es, run[k - 1], run[(k - 1) + 1]);
      var u :| u in run[k - 1] && StepOf(level, es, run[k - 1], run[k], u);
    }
  }

  // In a unit that may start, the whole ancestry is done, not only the direct prerequisites.
  lemma {:induction false} AncestorsAreDone(es: set<Edge>, states: States, u: Id, w: seq<Id>)
    requires StartedAfterPrerequisites(es, states) && DepsDone(states, es, u)
    requires IsWalk(es, w) && |w| >= 2 && w[|w| - 1] == u
    ensures w[0] in states && states[w[0]] == Done
    decreases |w|
  {
    var n := |w|;
    assert Edge(w[n - 2], w[n - 2 + 1]) in es;
    if n > 2 {
      AncestorsAreDone(es, states, w[n - 2], w[..n - 1]);
    }
  }

  // Contract first, at run time: in every run over an accepted plan with contract stages, a stage that
  // freezes no contract becomes runnable only after one of its contract ancestors is done.
  lemma {:induction false} ContractsComeFirst(plan: PhasePlan, riskClasses: set<string>, run: seq<States>, k: nat,
                                              s: PlanStage)
    requires SoundPhasePlan(plan, riskClasses) && Contracts(plan.stages) != {}
    requires IsDispatchRun(StageLevel, EdgeSet(plan.edges), run) && k < |run|
    requires s in plan.stages && s.role != Contract && s.id in run[k]
    requires CategoryOf(run[k], EdgeSet(plan.edges), s.id) == Runnable
    ensures exists c, w :: c in Contracts(plan.stages) && c in run[k] && run[k][c] == Done
                           && IsWalk(EdgeSet(plan.edges), w) && w[0] == c && w[|w| - 1] == s.id
  {
    var es := EdgeSet(plan.edges);
    DispatchKeepsOrder(StageLevel, es, run, k);
    var w :| IsWalk(es, w) && |w| >= 2 && w[0] in Contracts(plan.stages) && w[|w| - 1] == s.id;
    AncestorsAreDone(es, run[k], s.id, w);
  }
}
