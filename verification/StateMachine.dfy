// The only writer of unit states: one transaction per transition, with the caller's coupled writes.
module StateMachine {
  import opened UnitStates

  datatype Unit = Unit(level: Level, id: string)
  type Payload = map<string, string>

  datatype Event =
    | Transition(unit: Unit, from: UnitState, to: UnitState, payload: Payload)
    | Note(unit: Unit, kind: string)

  // Writes a caller may couple to a transition: events of other kinds, new units (the stages of an
  // ingested plan; a unit that exists keeps its row), and rows of other tables.
  datatype Write = WriteNote(unit: Unit, kind: string) | WriteUnit(unit: Unit) | WriteRow(row: string)

  // The coupled writes in order, and whether they end in an exception.
  datatype Coupled = Coupled(writes: seq<Write>, raises: bool)

  datatype Tables = Tables(units: map<Unit, UnitState>, events: seq<Event>, rows: seq<string>)

  const EmptyTables := Tables(map[], [], [])

  function ApplyWrites(t: Tables, ws: seq<Write>): (r: Tables)
    ensures forall u :: u in t.units ==> u in r.units && r.units[u] == t.units[u]
    ensures forall u :: u in r.units && u !in t.units ==> WriteUnit(u) in ws && r.units[u] == Pending
  {
    if ws == [] then t
    else
      var s := ApplyWrites(t, ws[..|ws| - 1]);
      match ws[|ws| - 1]
      case WriteNote(u, kind) => s.(events := s.events + [Note(u, kind)])
      case WriteUnit(u) => if u in s.units then s else s.(units := s.units[u := Pending])
      case WriteRow(row) => s.(rows := s.rows + [row])
  }

  // The rows and the notes among some writes, in order.
  function RowsOf(ws: seq<Write>): seq<string> {
    if ws == [] then []
    else
      var init, last := RowsOf(ws[..|ws| - 1]), ws[|ws| - 1];
      if last.WriteRow? then init + [last.row] else init
  }

  function NotesOf(ws: seq<Write>): seq<Event> {
    if ws == [] then []
    else
      var init, last := NotesOf(ws[..|ws| - 1]), ws[|ws| - 1];
      if last.WriteNote? then init + [Note(last.unit, last.kind)] else init
  }

  // Nothing is dropped, doubled or reordered: a write of the kind adds its own entry, any other adds none.
  lemma {:induction false} WritesAreListedInOrder(ws: seq<Write>, w: Write)
    ensures RowsOf(ws + [w]) == if w.WriteRow? then RowsOf(ws) + [w.row] else RowsOf(ws)
    ensures NotesOf(ws + [w]) == if w.WriteNote? then NotesOf(ws) + [Note(w.unit, w.kind)] else NotesOf(ws)
  {
    assert (ws + [w])[..|ws|] == ws;
  }

  // Every write takes effect, and nothing else does.
  lemma {:induction false} WritesTakeEffect(t: Tables, ws: seq<Write>)
    ensures ApplyWrites(t, ws).rows == t.rows + RowsOf(ws)
    ensures ApplyWrites(t, ws).events == t.events + NotesOf(ws)
    ensures forall u :: u in ApplyWrites(t, ws).units <==> u in t.units || WriteUnit(u) in ws
  {
    if ws != [] {
      var init, last := ws[..|ws| - 1], ws[|ws| - 1];
      WritesTakeEffect(t, init);
      assert ws == init + [last];
    }
  }

  // A transition is allowed when the unit exists, its table lists the target, and nothing raises.
  predicate Allowed(t: Tables, u: Unit, to: UnitState, c: Coupled) {
    u in t.units && to in Exits(u.level, t.units[u]) && !c.raises
  }

  function AfterTransition(t: Tables, u: Unit, to: UnitState, payload: Payload, reason: string, c: Coupled): Tables
    requires u in t.units
  {
    ApplyWrites(t.(units := t.units[u := to],
                   events := t.events + [Transition(u, t.units[u], to, payload["reason" := reason])]), c.writes)
  }

  // ---------------------------------------------------------------- reachable databases

  datatype Operation =
    | Insert(unit: Unit)
    | Move(unit: Unit, to: UnitState, payload: Payload, reason: string, coupled: Coupled)
    | Other(write: Write)

  function Step(t: Tables, op: Operation): Tables {
    match op
    case Insert(u) => if u in t.units then t else t.(units := t.units[u := Pending])
    case Move(u, to, payload, reason, c) =>
      if Allowed(t, u, to, c) then AfterTransition(t, u, to, payload, reason, c) else t
    case Other(w) => ApplyWrites(t, [w])
  }

  function Run(ops: seq<Operation>): Tables {
    if ops == [] then EmptyTables else Step(Run(ops[..|ops| - 1]), ops[|ops| - 1])
  }

  // The states a unit went through, as the event log tells it.
  function Life(events: seq<Event>, u: Unit): (r: seq<UnitState>)
    ensures r != [] && r[0] == Pending
  {
    if events == [] then [Pending]
    else
      var last := events[|events| - 1];
      Life(events[..|events| - 1], u) + if last.Transition? && last.unit == u then [last.to] else []
  }

  function Replay(events: seq<Event>, u: Unit): UnitState {
    var life := Life(events, u);
    life[|life| - 1]
  }

  // Every transition event starts where the log before it had left the unit.
  ghost predicate Chained(events: seq<Event>) {
    forall i :: 0 <= i < |events| && events[i].Transition? ==>
      events[i].from == Replay(events[..i], events[i].unit)
  }

  ghost predicate LogFits(t: Tables, u: Unit) {
    && IsLife(u.level, Life(t.events, u))
    && if u in t.units then Replay(t.events, u) == t.units[u] else Life(t.events, u) == [Pending]
  }

  ghost predicate Inv(t: Tables) {
    Chained(t.events) && forall u :: LogFits(t, u)
  }

  lemma {:induction false} AppendToLog(events: seq<Event>, e: Event, u: Unit)
    ensures Life(events + [e], u) == Life(events, u) + if e.Transition? && e.unit == u then [e.to] else []
  {
    assert (events + [e])[..|events|] == events;
  }

  lemma {:induction false} ChainGrows(events: seq<Event>, e: Event)
    requires Chained(events) && (e.Transition? ==> e.from == Replay(events, e.unit))
    ensures Chained(events + [e])
  {
    var next := events + [e];
    forall i | 0 <= i < |next| && next[i].Transition? ensures next[i].from == Replay(next[..i], next[i].unit) {
      if i < |events| {
        assert next[..i] == events[..i];
      } else {
        assert next[..i] == events;
      }
    }
  }

  lemma {:induction false} WritesKeepInv(t: Tables, ws: seq<Write>)
    requires Inv(t)
    ensures Inv(ApplyWrites(t, ws))
  {
    if ws != [] {
      var s := ApplyWrites(t, ws[..|ws| - 1]);
      WritesKeepInv(t, ws[..|ws| - 1]);
      var w := ws[|ws| - 1];
      if w.WriteNote? {
        ChainGrows(s.events, Note(w.unit, w.kind));
      }
      forall u ensures LogFits(ApplyWrites(t, ws), u) {
        assert LogFits(s, u);
        if w.WriteNote? {
          AppendToLog(s.events, Note(w.unit, w.kind), u);
        }
      }
    }
  }

  lemma {:induction false} MoveKeepsInv(t: Tables, u: Unit, to: UnitState, payload: Payload, reason: string,
                                        c: Coupled)
    requires Inv(t) && Allowed(t, u, to, c)
    ensures Inv(AfterTransition(t, u, to, payload, reason, c))
  {
    var e := Transition(u, t.units[u], to, payload["reason" := reason]);
    var moved := t.(units := t.units[u := to], events := t.events + [e]);
    assert LogFits(t, u);
    ChainGrows(t.events, e);
    forall v ensures LogFits(moved, v) {
      assert LogFits(t, v);
      AppendToLog(t.events, e, v);
    }
    WritesKeepInv(moved, c.writes);
  }

  lemma {:induction false} RunKeepsInv(ops: seq<Operation>)
    ensures Inv(Run(ops))
  {
    if ops != [] {
      var t, op := Run(ops[..|ops| - 1]), ops[|ops| - 1];
      RunKeepsInv(ops[..|ops| - 1]);
      match op
      case Insert(u) =>
        forall v ensures LogFits(Step(t, op), v) {
          assert LogFits(t, v);
        }
      case Move(u, to, payload, reason, c) =>
        if Allowed(t, u, to, c) {
          MoveKeepsInv(t, u, to, payload, reason, c);
        }
      case Other(w) => WritesKeepInv(t, [w]);
    }
  }

  // ---------------------------------------------------------------- the promises

  // The log is the truth: replaying a unit's transition events gives its state column, each event starts
  // where the previous one ended, and the whole life follows the unit's transition table.
  lemma {:induction false} LogReplaysToState(ops: seq<Operation>, u: Unit)
    requires u in Run(ops).units
    ensures Replay(Run(ops).events, u) == Run(ops).units[u]
    ensures Chained(Run(ops).events)
    ensures IsLife(u.level, Life(Run(ops).events, u))
  {
    RunKeepsInv(ops);
    assert LogFits(Run(ops), u);
  }

  lemma {:induction false} TerminalStays(t: Tables, op: Operation, u: Unit)
    requires u in t.units && Terminal(t.units[u])
    ensures u in Step(t, op).units && Step(t, op).units[u] == t.units[u]
  {
  }

  // A unit that ever reached a terminal state is in that state, and stays there.
  lemma {:induction false} TerminalForever(ops: seq<Operation>, n: nat, u: Unit)
    requires n <= |ops| && u in Run(ops[..n]).units && Terminal(Run(ops[..n]).units[u])
    ensures u in Run(ops).units && Run(ops).units[u] == Run(ops[..n]).units[u]
    decreases |ops|
  {
    if n == |ops| {
      assert ops[..n] == ops;
    } else {
      var init := ops[..|ops| - 1];
      assert init[..n] == ops[..n];
      TerminalForever(init, n, u);
      TerminalStays(Run(init), ops[|ops| - 1], u);
    }
  }

  // A stage that is done passed validation after every SPEC and BUILD visit that no escalation followed.
  lemma {:induction false} DoneStagesWereValidated(ops: seq<Operation>, u: Unit, i: nat) returns (j: nat)
    requires u in Run(ops).units && u.level == StageLevel && Run(ops).units[u] == Done
    requires var life := Life(Run(ops).events, u);
             && i < |life| && (life[i] == Spec || life[i] == Build)
             && forall k :: i < k < |life| ==> life[k] != Escalated
    ensures i < j < |Life(Run(ops).events, u)| && Life(Run(ops).events, u)[j] == Validate
  {
    LogReplaysToState(ops, u);
    j := DoneWasValidated(Life(Run(ops).events, u), i);
  }

  // The operation put `u` into the database `t`.
  predicate Inserts(t: Tables, op: Operation, u: Unit) {
    match op
    case Insert(v) => v == u
    case Move(v, to, _, _, c) => Allowed(t, v, to, c) && WriteUnit(u) in c.writes
    case Other(w) => w == WriteUnit(u)
  }

  ghost predicate InsertedAt(ops: seq<Operation>, i: nat, u: Unit)
    requires i < |ops|
  {
    Inserts(Run(ops[..i]), ops[i], u)
  }

  // Conservation: the units of a database are those inserted by some operation that went through, be it
  // on its own or coupled to a transition; none is lost and none appears unasked.
  lemma {:induction false} UnitsWereInserted(ops: seq<Operation>, u: Unit)
    ensures u in Run(ops).units <==> exists i :: 0 <= i < |ops| && InsertedAt(ops, i, u)
  {
    if ops != [] {
      var init, op := ops[..|ops| - 1], ops[|ops| - 1];
      UnitsWereInserted(init, u);
      StepInserts(Run(init), op, u);
      forall i | 0 <= i < |init|
        ensures InsertedAt(init, i, u) <==> InsertedAt(ops, i, u)
      {
        assert init[..i] == ops[..i];
      }
      assert InsertedAt(ops, |ops| - 1, u) <==> Inserts(Run(init), op, u);
    }
  }

  lemma {:induction false} StepInserts(t: Tables, op: Operation, u: Unit)
    ensures u in Step(t, op).units <==> u in t.units || Inserts(t, op, u)
  {
    match op
    case Insert(v) =>
    case Move(v, to, payload, reason, c) =>
      if Allowed(t, v, to, c) {
        WritesTakeEffect(t.(units := t.units[v := to],
                            events := t.events + [Transition(v, t.units[v], to, payload["reason" := reason])]),
            c.writes);
      }
    case Other(w) => WritesTakeEffect(t, [w]);
  }

  // ---------------------------------------------------------------- the transaction

  datatype Result = Moved(position: nat) | UnknownUnit | IllegalTransition | CoupledFailed | Reentrant

  class Database {
    var units: map<Unit, UnitState>
    var events: seq<Event>
    var rows: seq<string>
    var inTx: bool

    constructor ()
      ensures State() == EmptyTables && !inTx
    {
      units, events, rows, inTx := map[], [], [], false;
    }

    function State(): Tables
      reads this
    {
      Tables(units, events, rows)
    }

    method Insert(u: Unit) returns (ok: bool)
      requires !inTx
      modifies this
      ensures ok <==> u !in old(units)
      ensures units == (if ok then old(units)[u := Pending] else old(units)) && u in units
      ensures events == old(events) && rows == old(rows) && !inTx
      ensures State() == Step(old(State()), Operation.Insert(u))
    {
      ok := u !in units;
      if ok {
        units := units[u := Pending];
      }
    }

    // The coupled writes, one by one.
    method RunCoupled(c: Coupled) returns (ok: bool)
      modifies this`units, this`events, this`rows
      ensures ok == !c.raises
      ensures State() == ApplyWrites(old(State()), c.writes)
    {
      for i := 0 to |c.writes|
        invariant State() == ApplyWrites(old(State()), c.writes[..i])
      {
        assert c.writes[..i + 1][..i] == c.writes[..i];
        match c.writes[i] {
          case WriteNote(u, kind) => events := events + [Note(u, kind)];
          case WriteUnit(u) =>
            if u !in units {
              units := units[u := Pending];
            }
          case WriteRow(row) => rows := rows + [row];
        }
      }
      assert c.writes[..|c.writes|] == c.writes;
      ok := !c.raises;
    }

    // State, event and coupled writes together, or nothing at all.
    method Transition(u: Unit, to: UnitState, payload: Payload, reason: string, c: Coupled) returns (r: Result)
      modifies this
      ensures inTx == old(inTx)
      ensures r.Reentrant? <==> old(inTx)
      ensures r.UnknownUnit? <==> !old(inTx) && u !in old(units)
      ensures r.IllegalTransition? <==> !old(inTx) && u in old(units) && to !in Exits(u.level, old(units)[u])
      ensures r.CoupledFailed? <==>
              !old(inTx) && u in old(units) && to in Exits(u.level, old(units)[u]) && c.raises
      ensures r.Moved? ==> && u in old(units) && r.position == |old(events)|
                           && events == old(events)
                                      + [Event.Transition(u, old(units)[u], to, payload["reason" := reason])]
                                      + NotesOf(c.writes)
                           && rows == old(rows) + RowsOf(c.writes)
      ensures r.Moved? ==> forall v :: v in units <==> v in old(units) || WriteUnit(v) in c.writes
      ensures r.Moved? ==> forall v :: v in units ==>
                units[v] == if v == u then to else if v in old(units) then old(units)[v] else Pending
      ensures r.Moved? ==> State() == AfterTransition(old(State()), u, to, payload, reason, c)
      ensures !r.Moved? ==> State() == old(State())
    {
      if inTx {
        return Reentrant;
      }
      var saved := State();
      inTx := true;
      if u !in units {
        r := UnknownUnit;
      } else if to !in Exits(u.level, units[u]) {
        r := IllegalTransition;
      } else {
        var current := units[u];
        units := units[u := to];
        events := events + [Event.Transition(u, current, to, payload["reason" := reason])];
        r := Moved(|events| - 1);
        WritesTakeEffect(State(), c.writes);
        var ok := RunCoupled(c);
        if !ok {
          units, events, rows := saved.units, saved.events, saved.rows;
          r := CoupledFailed;
        }
      }
      inTx := false;
    }
  }
}
