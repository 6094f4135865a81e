// The life cycle of stages and phases: the transition tables and the scheduling categories.
module UnitStates {

  datatype Level = StageLevel | PhaseLevel

  // One state space per level; the two share most names.
  datatype UnitState =
    | Pending
    | Spec | SpecAudit | Build | Validate | Audit | MergeGate
    | Planning | ContractsFrozen | Running | Integrating | AwaitingSignoff
    | AwaitingHuman | Escalated
    | Done | Failed | Cancelled

  function StageExits(s: UnitState): set<UnitState> {
    match s
    case Pending => {Spec, Cancelled}
    case Spec => {SpecAudit, Build, Validate, Escalated, Cancelled}
    case SpecAudit => {Build, Spec, Escalated, Cancelled}
    case Build => {Validate, Escalated, Cancelled}
    case Validate => {MergeGate, Audit, Build, Spec, Escalated, Cancelled}
    case Audit => {MergeGate, AwaitingHuman, Build, Escalated, Cancelled}
    case AwaitingHuman => {MergeGate, Build, Spec, Escalated, Cancelled}
    case MergeGate => {Done, Build, Escalated, Cancelled}
    case Escalated => {Spec, Build, Validate, MergeGate, AwaitingHuman, Failed, Cancelled}
    case _ => {}
  }

  function PhaseExits(s: UnitState): set<UnitState> {
    match s
    case Pending => {Planning, Cancelled}
    case Planning => {ContractsFrozen, Escalated, Cancelled}
    case ContractsFrozen => {Running, Cancelled}
    case Running => {Integrating, Escalated, AwaitingHuman, Cancelled}
    case Integrating => {AwaitingSignoff, Running, Escalated, Cancelled}
    case AwaitingSignoff => {Done, Running, Cancelled}
    case AwaitingHuman => {Running, Planning, Cancelled}
    case Escalated => {Planning, Running, AwaitingHuman, AwaitingSignoff, Failed, Cancelled}
    case _ => {}
  }

  function Exits(level: Level, s: UnitState): set<UnitState> {
    match level
    case StageLevel => StageExits(s)
    case PhaseLevel => PhaseExits(s)
  }

  datatype Category = Waiting | Runnable | InFlight | Blocked | TerminalOk | TerminalFail

  function SchedCategory(s: UnitState, depsDone: bool): Category {
    match s
    case Pending => if depsDone then Runnable else Waiting
    case Done => TerminalOk
    case Failed => TerminalFail
    case Cancelled => TerminalFail
    case AwaitingHuman => Blocked
    case AwaitingSignoff => Blocked
    case Escalated => Blocked
    case _ => InFlight
  }

  // A sequence of states in which every step follows the table.
  ghost predicate IsLife(level: Level, t: seq<UnitState>) {
    && t != [] && t[0] == Pending
    && forall i :: 0 <= i < |t| - 1 ==> t[i + 1] in Exits(level, t[i])
  }

  predicate Terminal(s: UnitState) {
    s == Done || s == Failed || s == Cancelled
  }

  lemma {:induction false} TerminalStatesAreFinal(level: Level, t: seq<UnitState>, i: nat)
    requires IsLife(level, t) && i < |t| && Terminal(t[i])
    ensures i == |t| - 1
  {
    assert i < |t| - 1 ==> t[i + 1] in Exits(level, t[i]);
  }

  // Without a validation or an escalation, a life that has reached SPEC or BUILD stays among the
  // states before validation, or ends cancelled.
  lemma {:induction false} OnlyValidationLeadsOn(t: seq<UnitState>, i: nat, k: nat)
    requires IsLife(StageLevel, t) && i <= k < |t| && (t[i] == Spec || t[i] == Build)
    requires forall j :: i < j <= k ==> t[j] != Validate && t[j] != Escalated
    ensures t[k] in {Spec, SpecAudit, Build, Cancelled}
  {
    if i < k {
      OnlyValidationLeadsOn(t, i, k - 1);
      assert t[(k - 1) + 1] in Exits(StageLevel, t[k - 1]);
    }
  }

  // A stage that is done was validated after every SPEC and BUILD visit that no escalation followed.
  lemma {:induction false} DoneWasValidated(t: seq<UnitState>, i: nat) returns (j: nat)
    requires IsLife(StageLevel, t) && t[|t| - 1] == Done
    requires i < |t| && (t[i] == Spec || t[i] == Build)
    requires forall k :: i < k < |t| ==> t[k] != Escalated
    ensures i < j < |t| && t[j] == Validate
  {
    if forall k :: i < k <= |t| - 1 ==> t[k] != Validate {
      OnlyValidationLeadsOn(t, i, |t| - 1);
    }
    j :| i < j < |t| && t[j] == Validate;
  }

  // The requirement is not empty: no stage gets done without a SPEC visit.
  lemma {:induction false} DoneWasSpecified(t: seq<UnitState>)
    requires IsLife(StageLevel, t) && t[|t| - 1] == Done
    ensures |t| >= 2 && t[1] == Spec
  {
    assert |t| >= 2;
    assert t[0 + 1] in Exits(StageLevel, t[0]);
    if t[1] == Cancelled {
      TerminalStatesAreFinal(StageLevel, t, 1);
    }
  }

  // Done is reached from the merge gate or from a sign-off only.
  lemma {:induction false} DoneWasApproved(level: Level, t: seq<UnitState>)
    requires IsLife(level, t) && t[|t| - 1] == Done
    ensures |t| >= 2 && t[|t| - 2] == if level == StageLevel then MergeGate else AwaitingSignoff
  {
    assert t[(|t| - 2) + 1] in Exits(level, t[|t| - 2]);
  }

  // Nothing fails without having been escalated.
  lemma {:induction false} FailureWasEscalated(level: Level, t: seq<UnitState>)
    requires IsLife(level, t) && t[|t| - 1] == Failed
    ensures |t| >= 2 && t[|t| - 2] == Escalated
  {
    assert t[(|t| - 2) + 1] in Exits(level, t[|t| - 2]);
  }

  // The states a life can be in.
  predicate OfLevel(level: Level, s: UnitState) {
    match level
    case StageLevel =>
      s in {Pending, Spec, SpecAudit, Build, Validate, Audit, MergeGate, AwaitingHuman, Escalated} || Terminal(s)
    case PhaseLevel =>
      s in {Pending, Planning, ContractsFrozen, Running, Integrating, AwaitingSignoff, AwaitingHuman, Escalated}
      || Terminal(s)
  }

  lemma {:induction false} LivesStayInTheirLevel(level: Level, t: seq<UnitState>, i: nat)
    requires IsLife(level, t) && i < |t|
    ensures OfLevel(level, t[i])
  {
    if i > 0 {
      LivesStayInTheirLevel(level, t, i - 1);
      assert t[(i - 1) + 1] in Exits(level, t[i - 1]);
    }
  }

  // A way from `s` to done.
  function WayToDone(level: Level, s: UnitState): seq<UnitState> {
    match level
    case StageLevel =>
      (match s
       case Pending => [Spec, Build, Validate, MergeGate, Done]
       case Spec => [Build, Validate, MergeGate, Done]
       case SpecAudit => [Build, Validate, MergeGate, Done]
       case Build => [Validate, MergeGate, Done]
       case MergeGate => [Done]
       case _ => [MergeGate, Done])
    case PhaseLevel =>
      (match s
       case Pending => [Planning, ContractsFrozen, Running, Integrating, AwaitingSignoff, Done]
       case Planning => [ContractsFrozen, Running, Integrating, AwaitingSignoff, Done]
       case Integrating => [AwaitingSignoff, Done]
       case AwaitingSignoff => [Done]
       case Running => [Integrating, AwaitingSignoff, Done]
       case _ => [Running, Integrating, AwaitingSignoff, Done])
  }

  lemma {:induction false} WaysAreLegal(level: Level, s: UnitState, i: nat)
    requires OfLevel(level, s) && !Terminal(s) && i < |WayToDone(level, s)|
    ensures WayToDone(level, s)[i] in Exits(level, if i == 0 then s else WayToDone(level, s)[i - 1])
  {
  }

  // No dead ends: every life that has not ended can be cancelled at once, and can still get done.
  lemma {:induction false} NoLifeIsStuck(level: Level, t: seq<UnitState>)
    requires IsLife(level, t) && !Terminal(t[|t| - 1])
    ensures IsLife(level, t + [Cancelled])
    ensures exists more :: more != [] && more[|more| - 1] == Done && IsLife(level, t + more)
  {
    var s := t[|t| - 1];
    LivesStayInTheirLevel(level, t, |t| - 1);
    var more := WayToDone(level, s);
    var life := t + more;
    forall i | 0 <= i < |life| - 1
      ensures life[i + 1] in Exits(level, life[i])
    {
      if i < |t| - 1 {
        assert t[i + 1] in Exits(level, t[i]);
      } else {
        WaysAreLegal(level, s, i + 1 - |t|);
      }
    }
    assert IsLife(level, life);
  }
}
