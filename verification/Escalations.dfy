// The escalations table, and the sentinel triggers that report each sentinel event exactly once.
module Escalations {
  import opened Options

  type Stage = string
  datatype EventKind = ContractChange | DeclaredFailure | OtherKind

  datatype Trigger = MaxFixIterations | ChurnThreshold | ContractChangeRequest | AgentDeclaredFailure | ContextBudget

  // An event's seq is its position plus one: the column counts up from one and is never reused.
  datatype EventRow = EventRow(stage: Stage, kind: EventKind)

  // `reported` is the list of event seqs in the evidence the row was filed with.
  datatype Escalation = Escalation(
    stage: Stage,
    trigger: Trigger,
    eventSeq: Option<nat>,
    resolvedAt: Option<int>,
    reported: seq<nat>
  )

  predicate IsSentinel(t: Trigger) {
    t == ContractChangeRequest || t == AgentDeclaredFailure
  }

  function KindOf(t: Trigger): EventKind {
    match t
    case ContractChangeRequest => ContractChange
    case AgentDeclaredFailure => DeclaredFailure
    case _ => OtherKind
  }

  predicate IsOpen(e: Escalation, st: Stage, t: Trigger) {
    e.stage == st && e.trigger == t && e.resolvedAt == None
  }

  predicate HasOpen(rows: seq<Escalation>, st: Stage, t: Trigger) {
    exists i :: 0 <= i < |rows| && IsOpen(rows[i], st, t)
  }

  function Max(a: nat, b: nat): nat {
    if a >= b then a else b
  }

  // COALESCE(MAX(event_seq), 0) over the rows of one stage and trigger.
  function Cursor(rows: seq<Escalation>, st: Stage, t: Trigger): nat {
    if rows == [] then 0
    else
      var last := rows[|rows| - 1];
      var rest := Cursor(rows[..|rows| - 1], st, t);
      if last.stage == st && last.trigger == t && last.eventSeq.Some? then Max(last.eventSeq.value, rest) else rest
  }

  predicate IsEvent(events: seq<EventRow>, q: nat, st: Stage, kind: EventKind) {
    0 < q <= |events| && events[q - 1] == EventRow(st, kind)
  }

  predicate Ascending(s: seq<nat>) {
    forall i, j :: 0 <= i < j < |s| ==> s[i] < s[j]
  }

  // The sentinel query: seqs of the stage's events of one kind beyond the cursor, ascending.
  function Uncovered(events: seq<EventRow>, st: Stage, kind: EventKind, cursor: nat): (r: seq<nat>)
    ensures forall q :: q in r <==> cursor < q && IsEvent(events, q, st, kind)
    ensures Ascending(r)
  {
    if events == [] then []
    else
      var init := Uncovered(events[..|events| - 1], st, kind, cursor);
      assert forall i :: 0 <= i < |init| ==> init[i] in init;
      if events[|events| - 1] == EventRow(st, kind) && |events| > cursor then init + [|events|] else init
  }

  // ---------------------------------------------------------------- the protocol

  datatype Key = Key(stage: Stage, trigger: Trigger)

  // `pending` holds what a stage's executor has evaluated and not yet filed.
  datatype State = State(events: seq<EventRow>, rows: seq<Escalation>, pending: map<Key, seq<nat>>)

  datatype Operation =
    | Append(stage: Stage, kind: EventKind)
    | Evaluate(key: Key)
    | File(key: Key)
    | FileOther(stage: Stage, trigger: Trigger, eventSeq: Option<nat>)
    | Resolve(row: nat, at: int)

  // The evidence of a sentinel check, if it fires.
  function Check(s: State, k: Key): Option<seq<nat>> {
    if HasOpen(s.rows, k.stage, k.trigger) then None
    else
      var seqs := Uncovered(s.events, k.stage, KindOf(k.trigger), Cursor(s.rows, k.stage, k.trigger));
      if seqs == [] then None else Some(seqs)
  }

  function Step(s: State, op: Operation): State {
    match op
    case Append(st, kind) => s.(events := s.events + [EventRow(st, kind)])
    case Evaluate(k) =>
      if !IsSentinel(k.trigger) || k in s.pending || Check(s, k) == None then s
      else s.(pending := s.pending[k := Check(s, k).value])
    case File(k) =>
      if k !in s.pending then s
      else
        var seqs := s.pending[k];
        var cleared := s.(pending := s.pending - {k});
        if HasOpen(s.rows, k.stage, k.trigger) || seqs == [] then cleared
        else cleared.(rows := s.rows + [Escalation(k.stage, k.trigger, Some(seqs[|seqs| - 1]), None, seqs)])
    case FileOther(st, t, q) =>
      if IsSentinel(t) || HasOpen(s.rows, st, t) then s
      else s.(rows := s.rows + [Escalation(st, t, q, None, [])])
    case Resolve(i, at) =>
      if i >= |s.rows| || s.rows[i].resolvedAt.Some? then s
      else s.(rows := s.rows[i := s.rows[i].(resolvedAt := Some(at))])
  }

  function Run(ops: seq<Operation>): State {
    if ops == [] then State([], [], map[]) else Step(Run(ops[..|ops| - 1]), ops[|ops| - 1])
  }

  // ---------------------------------------------------------------- what every step keeps

  predicate Reports(s: State, i: nat, k: Key, q: nat)
    requires i < |s.rows|
  {
    s.rows[i].stage == k.stage && s.rows[i].trigger == k.trigger && q in s.rows[i].reported
  }

  ghost predicate Evidence(s: State, seqs: seq<nat>, k: Key) {
    && seqs != [] && Ascending(seqs)
    && forall q :: q in seqs ==> IsEvent(s.events, q, k.stage, KindOf(k.trigger))
  }

  // Each filed sentinel row reports events of its own kind and carries the last of them.
  ghost predicate RowOk(s: State, i: nat)
    requires i < |s.rows|
  {
    var e := s.rows[i];
    IsSentinel(e.trigger) ==>
      Evidence(s, e.reported, Key(e.stage, e.trigger)) && e.eventSeq == Some(e.reported[|e.reported| - 1])
  }

  // Evidence not filed yet is everything beyond the cursor, up to its own end.
  ghost predicate PendingOk(s: State, k: Key)
    requires k in s.pending
  {
    var seqs := s.pending[k];
    && IsSentinel(k.trigger) && Evidence(s, seqs, k)
    && forall q: nat :: IsEvent(s.events, q, k.stage, KindOf(k.trigger)) && q <= seqs[|seqs| - 1] ==>
         (q in seqs <==> q > Cursor(s.rows, k.stage, k.trigger))
  }

  ghost predicate Reported(s: State, k: Key, q: nat) {
    exists i :: 0 <= i < |s.rows| && Reports(s, i, k, q)
  }

  // An event is at or below the cursor iff some escalation reports it.
  ghost predicate KeyOk(s: State, k: Key) {
    IsSentinel(k.trigger) ==>
      forall q: nat :: IsEvent(s.events, q, k.stage, KindOf(k.trigger)) ==>
        (q <= Cursor(s.rows, k.stage, k.trigger) <==> Reported(s, k, q))
  }

  // Later rows of a key report later events.
  ghost predicate RowsAscend(s: State, i: nat, j: nat)
    requires i < j < |s.rows|
  {
    IsSentinel(s.rows[i].trigger) && s.rows[i].stage == s.rows[j].stage && s.rows[i].trigger == s.rows[j].trigger ==>
      forall p, q :: p in s.rows[i].reported && q in s.rows[j].reported ==> p < q
  }

  ghost predicate OneOpen(rows: seq<Escalation>) {
    forall i, j :: 0 <= i < j < |rows| && rows[i].stage == rows[j].stage && rows[i].trigger == rows[j].trigger
      ==> rows[i].resolvedAt.Some? || rows[j].resolvedAt.Some?
  }

  ghost predicate Inv(s: State) {
    && (forall i :: 0 <= i < |s.rows| ==> RowOk(s, i))
    && (forall k :: k in s.pending ==> PendingOk(s, k))
    && (forall k :: KeyOk(s, k))
    && (forall i, j :: 0 <= i < j < |s.rows| ==> RowsAscend(s, i, j))
    && OneOpen(s.rows)
  }

  // ---------------------------------------------------------------- how the cursor moves

  lemma {:induction false} CursorAfterInsert(rows: seq<Escalation>, e: Escalation, st: Stage, t: Trigger)
    ensures Cursor(rows + [e], st, t) ==
            if e.stage == st && e.trigger == t && e.eventSeq.Some? then Max(e.eventSeq.value, Cursor(rows, st, t))
            else Cursor(rows, st, t)
  {
    assert (rows + [e])[..|rows|] == rows;
  }

  lemma {:induction false} CursorIgnoresResolution(rows: seq<Escalation>, i: nat, at: int, st: Stage, t: Trigger)
    requires i < |rows|
    ensures Cursor(rows[i := rows[i].(resolvedAt := Some(at))], st, t) == Cursor(rows, st, t)
  {
    var init := rows[..|rows| - 1];
    var next := rows[i := rows[i].(resolvedAt := Some(at))];
    if i < |rows| - 1 {
      assert next[..|rows| - 1] == init[i := init[i].(resolvedAt := Some(at))];
      CursorIgnoresResolution(init, i, at, st, t);
    } else {
      assert next[..|rows| - 1] == init;
    }
  }

  // ---------------------------------------------------------------- each step keeps the invariant

  lemma {:induction false} AppendKeepsInv(s: State, st: Stage, kind: EventKind)
    requires Inv(s)
    ensures Inv(Step(s, Append(st, kind)))
  {
    var t := Step(s, Append(st, kind));
    forall q: nat, st', k' | q <= |s.events| ensures IsEvent(t.events, q, st', k') == IsEvent(s.events, q, st', k') {
    }
    forall k ensures KeyOk(t, k) {
      assert KeyOk(s, k);
      if IsSentinel(k.trigger) {
        CursorInRange(s, k);
      }
      forall q: nat | IsEvent(t.events, q, k.stage, KindOf(k.trigger)) && IsSentinel(k.trigger)
        ensures q <= Cursor(t.rows, k.stage, k.trigger) <==> Reported(t, k, q)
      {
        if q <= |s.events| {
          assert IsEvent(s.events, q, k.stage, KindOf(k.trigger));
        }
        forall i | 0 <= i < |s.rows|
          ensures Reports(t, i, k, q) == Reports(s, i, k, q)
          ensures q > |s.events| ==> !Reports(s, i, k, q)
        {
          assert RowOk(s, i);
        }
      }
    }
    forall i | 0 <= i < |t.rows| ensures RowOk(t, i) {
      assert RowOk(s, i);
    }
    forall k | k in t.pending ensures PendingOk(t, k) {
      assert PendingOk(s, k);
      var seqs := s.pending[k];
      assert seqs[|seqs| - 1] in seqs;
    }
    forall i, j | 0 <= i < j < |t.rows| ensures RowsAscend(t, i, j) {
      assert RowsAscend(s, i, j);
    }
  }

  // The cursor never points past the event log.
  lemma {:induction false} CursorInRange(s: State, k: Key)
    requires (forall i :: 0 <= i < |s.rows| ==> RowOk(s, i)) && IsSentinel(k.trigger)
    ensures Cursor(s.rows, k.stage, k.trigger) <= |s.events|
    decreases |s.rows|
  {
    if s.rows != [] {
      var n := |s.rows| - 1;
      var init := s.(rows := s.rows[..n]);
      forall i | 0 <= i < n ensures RowOk(init, i) {
        assert RowOk(s, i);
      }
      CursorInRange(init, k);
      assert RowOk(s, n);
      var e := s.rows[n];
      if IsSentinel(e.trigger) {
        assert e.reported[|e.reported| - 1] in e.reported;
      }
    }
  }

  lemma {:induction false} EvaluateKeepsInv(s: State, k: Key)
    requires Inv(s)
    ensures Inv(Step(s, Evaluate(k)))
  {
    var t := Step(s, Evaluate(k));
    forall k' | k' in t.pending ensures PendingOk(t, k') {
      if k' in s.pending {
        assert PendingOk(s, k');
      } else {
        var seqs := t.pending[k'];
        assert seqs[|seqs| - 1] in seqs;
      }
    }
    SameRows(s, t);
  }

  // Steps that leave events and rows alone keep what is said about them.
  lemma {:induction false} SameRows(s: State, t: State)
    requires Inv(s) && t.events == s.events && t.rows == s.rows
    ensures forall i :: 0 <= i < |t.rows| ==> RowOk(t, i)
    ensures forall k :: KeyOk(t, k)
    ensures forall i, j :: 0 <= i < j < |t.rows| ==> RowsAscend(t, i, j)
  {
    forall i | 0 <= i < |t.rows| ensures RowOk(t, i) {
      assert RowOk(s, i);
    }
    forall k ensures KeyOk(t, k) {
      assert KeyOk(s, k);
      forall q: nat ensures Reported(t, k, q) == Reported(s, k, q) {
        assert forall i :: 0 <= i < |s.rows| ==> Reports(t, i, k, q) == Reports(s, i, k, q);
      }
    }
    forall i, j | 0 <= i < j < |t.rows| ensures RowsAscend(t, i, j) {
      assert RowsAscend(s, i, j);
    }
  }

  lemma {:induction false} FileKeepsKeys(s: State, k: Key, k': Key)
    requires Inv(s) && k in s.pending && !HasOpen(s.rows, k.stage, k.trigger)
    ensures KeyOk(Step(s, File(k)), k')
  {
    var t := Step(s, File(k));
    assert PendingOk(s, k) && KeyOk(s, k');
    var seqs := s.pending[k];
    var last := seqs[|seqs| - 1];
    assert last in seqs;
    CursorAfterInsert(s.rows, t.rows[|s.rows|], k'.stage, k'.trigger);
    forall q: nat | IsSentinel(k'.trigger) && IsEvent(t.events, q, k'.stage, KindOf(k'.trigger))
      ensures q <= Cursor(t.rows, k'.stage, k'.trigger) <==> Reported(t, k', q)
    {
      forall i | 0 <= i < |s.rows| ensures Reports(t, i, k', q) == Reports(s, i, k', q) {
      }
      if i :| 0 <= i < |s.rows| && Reports(s, i, k', q) {
        assert Reports(t, i, k', q);
      }
      assert Reports(t, |s.rows|, k', q) <==> k' == k && q in seqs;
    }
  }

  lemma {:induction false} FileKeepsInv(s: State, k: Key)
    requires Inv(s) && k in s.pending && !HasOpen(s.rows, k.stage, k.trigger)
    ensures Inv(Step(s, File(k)))
  {
    var t := Step(s, File(k));
    assert PendingOk(s, k);
    var seqs := s.pending[k];
    forall i | 0 <= i < |t.rows| ensures RowOk(t, i) {
      if i < |s.rows| {
        assert RowOk(s, i);
      }
    }
    forall k' ensures KeyOk(t, k') {
      FileKeepsKeys(s, k, k');
    }
    forall k' | k' in t.pending ensures PendingOk(t, k') {
      assert PendingOk(s, k');
      CursorAfterInsert(s.rows, t.rows[|s.rows|], k'.stage, k'.trigger);
    }
    forall i, j | 0 <= i < j < |t.rows| ensures RowsAscend(t, i, j) {
      if j < |s.rows| {
        assert RowsAscend(s, i, j);
      } else if s.rows[i].stage == k.stage && s.rows[i].trigger == k.trigger {
        NewRowIsLater(s, k, i);
      }
    }
    assert OneOpen(t.rows);
  }

  lemma {:induction false} NewRowIsLater(s: State, k: Key, i: nat)
    requires Inv(s) && k in s.pending && i < |s.rows|
    requires s.rows[i].stage == k.stage && s.rows[i].trigger == k.trigger
    ensures forall p, q :: p in s.rows[i].reported && q in s.pending[k] ==> p < q
  {
    assert PendingOk(s, k) && KeyOk(s, k) && RowOk(s, i);
    forall p | p in s.rows[i].reported ensures p <= Cursor(s.rows, k.stage, k.trigger) {
      assert Reports(s, i, k, p);
    }
    var seqs := s.pending[k];
    forall q | q in seqs ensures q <= seqs[|seqs| - 1] {
    }
  }

  lemma {:induction false} FileOtherKeepsInv(s: State, st: Stage, tr: Trigger, eventSeq: Option<nat>)
    requires Inv(s)
    ensures Inv(Step(s, FileOther(st, tr, eventSeq)))
  {
    var t := Step(s, FileOther(st, tr, eventSeq));
    if t != s {
      forall i | 0 <= i < |t.rows| ensures RowOk(t, i) {
        if i < |s.rows| {
          assert RowOk(s, i);
        }
      }
      forall k ensures KeyOk(t, k) {
        assert KeyOk(s, k);
        CursorAfterInsert(s.rows, t.rows[|s.rows|], k.stage, k.trigger);
        forall q: nat ensures Reported(t, k, q) == Reported(s, k, q) {
          assert forall i :: 0 <= i < |s.rows| ==> Reports(t, i, k, q) == Reports(s, i, k, q);
        }
      }
      forall k | k in t.pending ensures PendingOk(t, k) {
        assert PendingOk(s, k);
        CursorAfterInsert(s.rows, t.rows[|s.rows|], k.stage, k.trigger);
      }
      forall i, j | 0 <= i < j < |t.rows| ensures RowsAscend(t, i, j) {
        if j < |s.rows| {
          assert RowsAscend(s, i, j);
        }
      }
    }
  }

  lemma {:induction false} ResolveKeepsInv(s: State, r: nat, at: int)
    requires Inv(s)
    ensures Inv(Step(s, Resolve(r, at)))
  {
    var t := Step(s, Resolve(r, at));
    if t != s {
      forall i | 0 <= i < |t.rows| ensures RowOk(t, i) {
        assert RowOk(s, i);
      }
      forall k ensures KeyOk(t, k) {
        assert KeyOk(s, k);
        CursorIgnoresResolution(s.rows, r, at, k.stage, k.trigger);
        forall q: nat ensures Reported(t, k, q) == Reported(s, k, q) {
          assert forall i :: 0 <= i < |s.rows| ==> Reports(t, i, k, q) == Reports(s, i, k, q);
        }
      }
      forall k | k in t.pending ensures PendingOk(t, k) {
        assert PendingOk(s, k);
        CursorIgnoresResolution(s.rows, r, at, k.stage, k.trigger);
      }
      forall i, j | 0 <= i < j < |t.rows| ensures RowsAscend(t, i, j) {
        assert RowsAscend(s, i, j);
      }
    }
  }

  lemma {:induction false} RunKeepsInv(ops: seq<Operation>)
    ensures Inv(Run(ops))
  {
    if ops != [] {
      var s, op := Run(ops[..|ops| - 1]), ops[|ops| - 1];
      RunKeepsInv(ops[..|ops| - 1]);
      match op
      case Append(st, kind) => AppendKeepsInv(s, st, kind);
      case Evaluate(k) => EvaluateKeepsInv(s, k);
      case File(k) =>
        if k in s.pending {
          if HasOpen(s.rows, k.stage, k.trigger) || s.pending[k] == [] {
            SameRows(s, Step(s, op));
            forall k' | k' in Step(s, op).pending ensures PendingOk(Step(s, op), k') {
              assert PendingOk(s, k');
            }
          } else {
            FileKeepsInv(s, k);
          }
        }
      case FileOther(st, t, q) => FileOtherKeepsInv(s, st, t, q);
      case Resolve(i, at) => ResolveKeepsInv(s, i, at);
    }
  }

  // ---------------------------------------------------------------- the promises

  // Each sentinel event appears in the evidence of at most one escalation.
  lemma {:induction false} ReportedAtMostOnce(ops: seq<Operation>, i: nat, j: nat, q: nat)
    requires i <= j < |Run(ops).rows|
    requires IsSentinel(Run(ops).rows[i].trigger) && IsSentinel(Run(ops).rows[j].trigger)
    requires q in Run(ops).rows[i].reported && q in Run(ops).rows[j].reported
    ensures i == j
  {
    RunKeepsInv(ops);
    var s := Run(ops);
    assert RowOk(s, i) && RowOk(s, j);
    assert i < j ==> RowsAscend(s, i, j);
  }

  // An event is at or below its trigger's cursor exactly when some escalation has reported it.
  lemma {:induction false} CursorIsExact(ops: seq<Operation>, k: Key, q: nat)
    requires IsSentinel(k.trigger) && IsEvent(Run(ops).events, q, k.stage, KindOf(k.trigger))
    ensures q <= Cursor(Run(ops).rows, k.stage, k.trigger) <==> Reported(Run(ops), k, q)
  {
    RunKeepsInv(ops);
    assert KeyOk(Run(ops), k);
  }

  // While no escalation of its trigger is open, the check fires iff some event is unreported, and its
  // evidence is exactly the unreported events.
  lemma {:induction false} UnreportedEventsFire(ops: seq<Operation>, k: Key)
    requires IsSentinel(k.trigger) && !HasOpen(Run(ops).rows, k.stage, k.trigger)
    ensures var s := Run(ops);
            && (Check(s, k) == None
               <==> forall q: nat :: IsEvent(s.events, q, k.stage, KindOf(k.trigger)) ==> Reported(s, k, q))
            && (Check(s, k).Some? ==>
                  forall q: nat :: q in Check(s, k).value <==>
                    IsEvent(s.events, q, k.stage, KindOf(k.trigger)) && !Reported(s, k, q))
  {
    RunKeepsInv(ops);
    var s := Run(ops);
    assert KeyOk(s, k);
    var seqs := Uncovered(s.events, k.stage, KindOf(k.trigger), Cursor(s.rows, k.stage, k.trigger));
    assert seqs != [] ==> seqs[0] in seqs;
  }

  lemma {:induction false} FilingAdvances(s: State, k: Key)
    requires Inv(s) && k in s.pending && !HasOpen(s.rows, k.stage, k.trigger)
    ensures Cursor(Step(s, File(k)).rows, k.stage, k.trigger) > Cursor(s.rows, k.stage, k.trigger)
  {
    assert PendingOk(s, k);
    var seqs := s.pending[k];
    assert seqs[|seqs| - 1] in seqs;
    CursorAfterInsert(s.rows, Step(s, File(k)).rows[|s.rows|], k.stage, k.trigger);
  }

  // Filing moves the cursor strictly forward.
  lemma {:induction false} CursorAdvances(ops: seq<Operation>, k: Key)
    requires k in Run(ops).pending && !HasOpen(Run(ops).rows, k.stage, k.trigger)
    ensures Cursor(Step(Run(ops), File(k)).rows, k.stage, k.trigger) > Cursor(Run(ops).rows, k.stage, k.trigger)
  {
    RunKeepsInv(ops);
    FilingAdvances(Run(ops), k);
  }

  // Never two open escalations of one stage and trigger.
  lemma {:induction false} AtMostOneOpen(ops: seq<Operation>, i: nat, j: nat)
    requires i <= j < |Run(ops).rows|
    requires IsOpen(Run(ops).rows[i], Run(ops).rows[j].stage, Run(ops).rows[j].trigger)
    requires Run(ops).rows[j].resolvedAt == None
    ensures i == j
  {
    RunKeepsInv(ops);
  }

  // ---------------------------------------------------------------- from event to escalation

  // With nothing open, evaluating and filing leaves no event of the trigger unreported, and whatever was
  // unreported stands in one open row: exactly those events, the newest as the row's own.
  lemma {:induction false} EvaluatingReportsEverything(ops: seq<Operation>, k: Key, q: nat)
    requires IsSentinel(k.trigger) && k !in Run(ops).pending && !HasOpen(Run(ops).rows, k.stage, k.trigger)
    requires IsEvent(Run(ops).events, q, k.stage, KindOf(k.trigger)) && !Reported(Run(ops), k, q)
    ensures var s, t := Run(ops), Run(ops + [Evaluate(k), File(k)]);
            && t.events == s.events && |t.rows| == |s.rows| + 1 && t.rows[..|s.rows|] == s.rows
            && IsOpen(t.rows[|s.rows|], k.stage, k.trigger) && k !in t.pending
            && (forall p: nat :: p in t.rows[|s.rows|].reported <==>
                  IsEvent(s.events, p, k.stage, KindOf(k.trigger)) && !Reported(s, k, p))
            && Reported(t, k, q)
  {
    var s := Run(ops);
    UnreportedEventsFire(ops, k);
    TwoMore(ops, Evaluate(k), File(k));
    var t := Step(Step(s, Evaluate(k)), File(k));
    assert Step(s, Evaluate(k)) == s.(pending := s.pending[k := Check(s, k).value]);
    assert t.rows[|s.rows|].reported == Check(s, k).value;
    assert Reports(t, |s.rows|, k, q);
  }

  lemma {:induction false} TwoMore(ops: seq<Operation>, a: Operation, b: Operation)
    ensures Run(ops + [a, b]) == Step(Step(Run(ops), a), b)
  {
    assert (ops + [a, b])[..|ops| + 1] == ops + [a];
    assert (ops + [a])[..|ops|] == ops;
  }

  // An event is news when it is written: no row reports it yet.
  lemma {:induction false} NewEventsAreUnreported(ops: seq<Operation>, st: Stage, t: Trigger)
    requires IsSentinel(t)
    ensures var s := Run(ops + [Append(st, KindOf(t))]);
            && IsEvent(s.events, |s.events|, st, KindOf(t)) && !Reported(s, Key(st, t), |s.events|)
            && |s.events| == |Run(ops).events| + 1 && s.rows == Run(ops).rows
  {
    var more := ops + [Append(st, KindOf(t))];
    assert more[..|ops|] == ops;
    RunKeepsInv(ops);
    RunKeepsInv(more);
    CursorInRange(Run(ops), Key(st, t));
    assert KeyOk(Run(more), Key(st, t));
  }

  // Resolving closes the row and re-arms the trigger: it was the only open one of its kind.
  lemma {:induction false} ResolvingRearms(ops: seq<Operation>, i: nat, at: int)
    requires i < |Run(ops).rows| && Run(ops).rows[i].resolvedAt == None
    ensures var s, t := Run(ops), Run(ops + [Resolve(i, at)]);
            && t.rows == s.rows[i := s.rows[i].(resolvedAt := Some(at))] && t.events == s.events
            && !HasOpen(t.rows, s.rows[i].stage, s.rows[i].trigger)
  {
    var s := Run(ops);
    RunKeepsInv(ops);
    assert (ops + [Resolve(i, at)])[..|ops|] == ops;
    var t := Run(ops + [Resolve(i, at)]);
    forall j | 0 <= j < |t.rows| ensures !IsOpen(t.rows[j], s.rows[i].stage, s.rows[i].trigger) {
      assert j != i ==> t.rows[j] == s.rows[j];
    }
  }
}
