// Answering a founder's decision while agent turns write its transcript and another process may
// answer too. Every step runs between two suspension points of the event loop, or in one go in
// the other process; the database, the factory repository and the files are shared.
module Decisions {
  import opened Options
  import opened Transcript

  type RequestId = nat
  type CallId = nat
  type RunId = nat
  type TaskId = nat
  type CommitId = nat

  datatype Path = AnswerFile(r: RequestId) | TranscriptFile(r: RequestId) | OtherFile(name: string)

  type Tree = map<Path, string>

  // A request is pending until it has an answer.
  datatype Request = Request(allowed: set<string>, answer: Option<string>)

  datatype Outcome =
    | Unknown
    | Invalid
    | Already(answer: string)
    | Answered(answer: string)
    | Error

  // How far a dashboard answer has come. It is past the quiesce from `Written` on.
  datatype Progress =
    | Waiting
    | Quiescing(turn: Option<TaskId>)
    | Written(transcript: bool)
    | Committed(transcript: bool)
    | Pinned(transcript: bool, sha: CommitId)
    | Lost
    | Ended(outcome: Outcome)

  datatype Call = Call(r: RequestId, option: string, at: Progress)

  // `cli decide` in its own process.
  datatype RunProgress = Chosen | RunWritten | RunCommitted | RunPinned(sha: CommitId) | RunEnded(answered: bool)
  datatype Decide = Decide(r: RequestId, answer: string, at: RunProgress)

  datatype Caller = Dashboard(c: CallId) | Cli(k: RunId)

  datatype RefKey = RefKey(path: Path, digest: int)

  datatype Entry = DecisionAnswered(r: RequestId, answer: string, caller: Caller, transcript: Option<RefKey>)

  // An agent turn's task: created, past its first step, or over.
  datatype TaskState = Scheduled | Running | Over
  datatype Task = Task(r: RequestId, at: TaskState)

  // What a process remembers of a session: agent replies and tokens count against its limits.
  datatype Session = Session(busy: bool, locked: bool, turn: Option<TaskId>, replies: nat, tokens: nat)
  datatype Limits = Limits(turns: nat, tokens: nat)

  const NewSession := Session(false, false, None, 0, 0)

  predicate Spent(limits: Limits, session: Session) {
    session.replies >= limits.turns || session.tokens >= limits.tokens
  }

  datatype Shared = Shared(
    requests: map<RequestId, Request>,
    log: seq<Entry>,
    refs: map<RefKey, CommitId>,
    files: Tree,
    commits: seq<Tree>
  )

  datatype State = State(
    db: Shared,
    limits: Limits,
    holder: Option<CallId>,
    answering: set<RequestId>,
    sessions: map<RequestId, Session>,
    tasks: map<TaskId, Task>,
    calls: map<CallId, Call>,
    runs: map<RunId, Decide>
  )

  datatype Event =
    | Create(r: RequestId, allowed: set<string>)
    | WriteElsewhere(path: Path, content: string)
    | CommitElsewhere(tree: Tree)
    | PostMessage(r: RequestId, t: TaskId, title: string, turn: Turn)
    | Exhaust(r: RequestId)
    | TurnStart(t: TaskId)
    | TurnEnd(t: TaskId, title: string, turns: seq<Turn>, tokens: nat, answered: bool)
    | TurnDropped(t: TaskId)
    | Ask(c: CallId, r: RequestId, option: string)
    | Enter(c: CallId)
    | Proceed(c: CallId, artifact: string)
    | Commit(c: CallId)
    | Pin(c: CallId)
    | Record(c: CallId)
    | Rollback(c: CallId)
    | Reread(c: CallId)
    | Fail(c: CallId)
    | Start(k: RunId, r: RequestId, answer: string)
    | RunWrite(k: RunId, artifact: string)
    | RunCommit(k: RunId)
    | RunPin(k: RunId)
    | RunRecord(k: RunId)
    | RunFail(k: RunId)
    | Restart

  // ---------------------------------------------------------------- shared pieces

  predicate Pending(db: Shared, r: RequestId) {
    r in db.requests && db.requests[r].answer.None?
  }

  function Content(files: Tree, path: Path): Option<string> {
    if path in files then Some(files[path]) else None
  }

  function Appended(file: Option<string>, title: string, turns: seq<Turn>): string
    requires turns != []
  {
    var init, last := turns[..|turns| - 1], turns[|turns| - 1];
    var before := if init == [] then Opened(file, title) else Appended(file, title, init);
    Append(before, last.author, last.text, last.at)
  }

  function AppendTurns(files: Tree, r: RequestId, title: string, turns: seq<Turn>): Tree {
    if turns == [] then files
    else files[TranscriptFile(r) := Appended(Content(files, TranscriptFile(r)), title, turns)]
  }

  // What a transcript reads as; a request without one has said nothing.
  function ReadBack(files: Tree, r: RequestId): seq<Turn> {
    TurnsIn(Content(files, TranscriptFile(r)))
  }

  predicate OtherFilesStay(files: Tree, later: Tree, path: Path) {
    files - {path} == later - {path}
  }

  // One turn more: the transcript grows at its end and reads as before with the turn added, and no other
  // file is touched.
  ghost predicate TurnIsAdded(files: Tree, later: Tree, r: RequestId, title: string, turn: Turn) {
    var path := TranscriptFile(r);
    && path in later && OtherFilesStay(files, later, path) && (path in files ==> files[path] <= later[path])
    && (IsTitle(title) && Plain(turn) ==>
          var before := ReadBack(files, r);
          ReadBack(later, r) == before + [Turn(|before| + 1, turn.author, turn.text, turn.at)])
  }

  lemma {:induction false} AppendAddsTurn(files: Tree, r: RequestId, title: string, turn: Turn)
    ensures TurnIsAdded(files, AppendTurns(files, r, title, [turn]), r, title, turn)
  {
    assert [turn][..0] == [];
    if IsTitle(title) && Plain(turn) {
      AppendKeepsStep(Content(files, TranscriptFile(r)), title, turn.author, turn.text, turn.at);
    }
  }

  function Head(db: Shared): Tree {
    if db.commits == [] then map[] else db.commits[|db.commits| - 1]
  }

  // Commit what the named files hold now; no commit when the head holds it already.
  function CommitPaths(db: Shared, paths: set<Path>): Shared {
    var tree := Head(db) + (map p | p in paths && p in db.files :: db.files[p]);
    if tree == Head(db) then db else db.(commits := db.commits + [tree])
  }

  function PathsOf(r: RequestId, transcript: bool): set<Path> {
    if transcript then {AnswerFile(r), TranscriptFile(r)} else {AnswerFile(r)}
  }

  // Get or create the reference to a file's present content.
  function Register(refs: map<RefKey, CommitId>, key: RefKey, sha: CommitId): map<RefKey, CommitId> {
    if key in refs then refs else refs[key := sha]
  }

  function KeyNow(db: Shared, hash: string -> int, path: Path): RefKey
    requires path in db.files
  {
    RefKey(path, hash(db.files[path]))
  }

  // A file that is gone cannot be hashed.
  predicate CanRegister(db: Shared, r: RequestId, transcript: bool) {
    PathsOf(r, transcript) <= db.files.Keys
  }

  // The recording transaction: references, the answer, one event.
  function Recorded(db: Shared, hash: string -> int, r: RequestId, answer: string, caller: Caller, transcript: bool,
                    sha: CommitId): Shared
    requires r in db.requests && CanRegister(db, r, transcript)
  {
    assert AnswerFile(r) in PathsOf(r, transcript);
    var refs := Register(db.refs, KeyNow(db, hash, AnswerFile(r)), sha);
    var tkey := if transcript then Some(KeyNow(db, hash, TranscriptFile(r))) else None;
    db.(requests := db.requests[r := db.requests[r].(answer := Some(answer))],
        refs := if tkey.Some? then Register(refs, tkey.value, sha) else refs,
        log := db.log + [DecisionAnswered(r, answer, caller, tkey)])
  }

  // ---------------------------------------------------------------- steps

  predicate Live(t: Task) {
    t.at != Over
  }

  predicate InFlight(call: Call) {
    !call.at.Waiting? && !call.at.Ended?
  }

  // Past the quiesce: the transcript must not change any more.
  predicate Quiet(call: Call) {
    InFlight(call) && !call.at.Quiescing?
  }

  function SessionOf(s: State, r: RequestId): Session {
    if r in s.sessions then s.sessions[r] else NewSession
  }

  function Move(s: State, c: CallId, at: Progress): State
    requires c in s.calls
  {
    s.(calls := s.calls[c := s.calls[c].(at := at)])
  }

  // Every way out of an answer clears the flag and releases the lock.
  function Leave(s: State, c: CallId, outcome: Outcome): State
    requires c in s.calls
  {
    Move(s, c, Ended(outcome)).(holder := None, answering := s.answering - {s.calls[c].r})
  }

  function RunTo(s: State, k: RunId, at: RunProgress): State
    requires k in s.runs
  {
    s.(runs := s.runs[k := s.runs[k].(at := at)])
  }

  predicate CallAt(s: State, c: CallId) {
    c in s.calls && InFlight(s.calls[c])
  }

  predicate IsOver(s: State, turn: Option<TaskId>) {
    turn.Some? ==> turn.value in s.tasks && s.tasks[turn.value].at == Over
  }

  // No answer in flight, the request pending, and the session neither busy nor locked.
  predicate CanSpeak(s: State, r: RequestId) {
    r !in s.answering && Pending(s.db, r) && !SessionOf(s, r).busy && !SessionOf(s, r).locked
  }

  ghost predicate Enabled(s: State, e: Event) {
    match e
    case Create(r, _) => r !in s.db.requests
    case WriteElsewhere(path, _) => !path.TranscriptFile?
    case CommitElsewhere(tree) => forall r :: Content(tree, TranscriptFile(r)) == Content(Head(s.db), TranscriptFile(r))
    case PostMessage(r, t, _, turn) =>
      turn.text != "" && CanSpeak(s, r) && !Spent(s.limits, SessionOf(s, r)) && t !in s.tasks
    case Exhaust(r) => CanSpeak(s, r) && Spent(s.limits, SessionOf(s, r))
    case TurnStart(t) => t in s.tasks && s.tasks[t].at == Scheduled
    case TurnEnd(t, _, _, _, _) => t in s.tasks && s.tasks[t].at == Running
    case TurnDropped(t) => t in s.tasks && s.tasks[t].at == Scheduled
    case Ask(c, _, _) => c !in s.calls
    case Enter(c) => c in s.calls && s.calls[c].at == Waiting && s.holder == None
    case Proceed(c, _) => CallAt(s, c) && s.calls[c].at.Quiescing? && IsOver(s, s.calls[c].at.turn)
    case Commit(c) => CallAt(s, c) && s.calls[c].at.Written?
    case Pin(c) => CallAt(s, c) && s.calls[c].at.Committed? && s.db.commits != []
    case Record(c) =>
      && CallAt(s, c) && s.calls[c].at.Pinned? && Pending(s.db, s.calls[c].r)
      && CanRegister(s.db, s.calls[c].r, s.calls[c].at.transcript)
    case Rollback(c) => CallAt(s, c) && s.calls[c].at.Pinned?
    case Reread(c) => CallAt(s, c) && s.calls[c].at.Lost?
    case Fail(c) => c in s.calls && !s.calls[c].at.Ended?
    case Start(k, r, answer) => k !in s.runs && Pending(s.db, r) && answer != ""
    case RunWrite(k, _) => k in s.runs && s.runs[k].at == Chosen
    case RunCommit(k) => k in s.runs && s.runs[k].at == RunWritten
    case RunPin(k) => k in s.runs && s.runs[k].at == RunCommitted && s.db.commits != []
    case RunRecord(k) => k in s.runs && s.runs[k].at.RunPinned? && Pending(s.db, s.runs[k].r)
        && CanRegister(s.db, s.runs[k].r, false)
    case RunFail(k) => k in s.runs && !s.runs[k].at.RunEnded?
    case Restart => true
  }

  // Validation, then the flag; the turn in flight is cancelled and will be awaited.
  function Entered(s: State, c: CallId): State
    requires c in s.calls
  {
    var call := s.calls[c];
    if call.r !in s.db.requests then Move(s, c, Ended(Unknown))
    else if s.db.requests[call.r].answer.Some? then Move(s, c, Ended(Already(s.db.requests[call.r].answer.value)))
    else if call.option !in s.db.requests[call.r].allowed then Move(s, c, Ended(Invalid))
    else Move(s, c, Quiescing(SessionOf(s, call.r).turn)).(holder := Some(c), answering := s.answering + {call.r})
  }

  function Posted(s: State, r: RequestId, t: TaskId, title: string, turn: Turn): State {
    s.(db := s.db.(files := AppendTurns(s.db.files, r, title, [turn])),
       sessions := s.sessions[r := SessionOf(s, r).(busy := true, turn := Some(t))],
       tasks := s.tasks[t := Task(r, Scheduled)])
  }

  // A reply that uses up a limit locks the session; a failed turn still costs its tokens.
  function AfterTurn(limits: Limits, session: Session, tokens: nat, answered: bool): Session {
    var replies := session.replies + if answered then 1 else 0;
    var spent := Session(false, session.locked, None, replies, session.tokens + tokens);
    spent.(locked := session.locked || (answered && Spent(limits, spent)))
  }

  function TurnEnded(s: State, t: TaskId, title: string, turns: seq<Turn>, tokens: nat, answered: bool): State
    requires t in s.tasks
  {
    var r := s.tasks[t].r;
    s.(db := s.db.(files := AppendTurns(s.db.files, r, title, turns)),
       sessions := s.sessions[r := AfterTurn(s.limits, SessionOf(s, r), tokens, answered)],
       tasks := s.tasks[t := Task(r, Over)])
  }

  // A new process: nothing in memory survives.
  function Restarted(s: State): State {
    s.(holder := None, answering := {}, sessions := map[],
       tasks := map t | t in s.tasks :: s.tasks[t].(at := Over),
       calls := map c | c in s.calls :: if s.calls[c].at.Ended? then s.calls[c] else s.calls[c].(at := Ended(Error)))
  }

  function WithFile(db: Shared, path: Path, content: string): Shared {
    db.(files := db.files[path := content])
  }

  function Next(s: State, e: Event, hash: string -> int): State
    requires Enabled(s, e)
  {
    match e
    case Create(r, allowed) => s.(db := s.db.(requests := s.db.requests[r := Request(allowed, None)]))
    case WriteElsewhere(path, content) => s.(db := WithFile(s.db, path, content))
    case CommitElsewhere(tree) => s.(db := s.db.(commits := s.db.commits + [tree]))
    case PostMessage(r, t, title, turn) => Posted(s, r, t, title, turn)
    case Exhaust(r) => s.(sessions := s.sessions[r := SessionOf(s, r).(locked := true)])
    case TurnStart(t) => s.(tasks := s.tasks[t := s.tasks[t].(at := Running)])
    case TurnEnd(t, title, turns, tokens, answered) => TurnEnded(s, t, title, turns, tokens, answered)
    case TurnDropped(t) => s.(tasks := s.tasks[t := s.tasks[t].(at := Over)])
    case Ask(c, r, option) => s.(calls := s.calls[c := Call(r, option, Waiting)])
    case Enter(c) => Entered(s, c)
    case Proceed(c, artifact) =>
      var r := s.calls[c].r;
      Move(s, c, Written(TranscriptFile(r) in s.db.files)).(db := WithFile(s.db, AnswerFile(r), artifact))
    case Commit(c) =>
      var w := s.calls[c].at.transcript;
      Move(s, c, Committed(w)).(db := CommitPaths(s.db, PathsOf(s.calls[c].r, w)))
    case Pin(c) => Move(s, c, Pinned(s.calls[c].at.transcript, |s.db.commits| - 1))
    case Record(c) =>
      var call := s.calls[c];
      Leave(s, c, Answered(call.option)).(
        db := Recorded(s.db, hash, call.r, call.option, Dashboard(c), call.at.transcript, call.at.sha))
    case Rollback(c) => Move(s, c, Lost)
    case Reread(c) =>
      var r := s.calls[c].r;
      var stored := if r in s.db.requests then s.db.requests[r].answer else None;
      Leave(s, c, if stored.Some? then Already(stored.value) else Error)
    case Fail(c) => if s.calls[c].at.Waiting? then Move(s, c, Ended(Error)) else Leave(s, c, Error)
    case Start(k, r, answer) => s.(runs := s.runs[k := Decide(r, answer, Chosen)])
    case RunWrite(k, artifact) => RunTo(s, k, RunWritten).(db := WithFile(s.db, AnswerFile(s.runs[k].r), artifact))
    case RunCommit(k) => RunTo(s, k, RunCommitted).(db := CommitPaths(s.db, PathsOf(s.runs[k].r, false)))
    case RunPin(k) => RunTo(s, k, RunPinned(|s.db.commits| - 1))
    case RunRecord(k) =>
      var run := s.runs[k];
      RunTo(s, k, RunEnded(true)).(db := Recorded(s.db, hash, run.r, run.answer, Cli(k), false, run.at.sha))
    case RunFail(k) => RunTo(s, k, RunEnded(false))
    case Restart => Restarted(s)
  }

  // ---------------------------------------------------------------- runs

  // Any database without answers, any repository and any files; no process has started yet.
  predicate Initial(s: State) {
    && s.db.log == [] && s.db.refs == map[] && (forall r :: r in s.db.requests ==> s.db.requests[r].answer.None?)
    && s.holder == None && s.answering == {} && s.sessions == map[] && s.tasks == map[] && s.calls == map[]
       && s.runs == map[]
  }

  ghost predicate IsRun(states: seq<State>, events: seq<Event>, hash: string -> int) {
    && |states| == |events| + 1 && Initial(states[0])
    && forall i :: 0 <= i < |events| ==>
       Enabled(states[i], events[i]) && states[i + 1] == Next(states[i], events[i], hash)
  }

  // ---------------------------------------------------------------- the lock and the flag

  // At most one answer is in flight, it holds the lock, and its request is flagged.
  predicate LockInv(s: State) {
    && (forall c :: c in s.calls ==> (InFlight(s.calls[c]) <==> s.holder == Some(c)))
    && (s.holder.Some? ==> s.holder.value in s.calls)
    && s.answering == (match s.holder case None => {} case Some(c) => if c in s.calls then {s.calls[c].r} else {})
  }

  lemma {:induction false} MoveKeepsLock(s: State, c: CallId, at: Progress)
    requires LockInv(s) && c in s.calls && InFlight(s.calls[c]) == InFlight(s.calls[c].(at := at))
    ensures LockInv(Move(s, c, at))
  {
  }

  lemma {:induction false} LeaveKeepsLock(s: State, c: CallId, outcome: Outcome)
    requires LockInv(s) && CallAt(s, c)
    ensures LockInv(Leave(s, c, outcome))
  {
  }

  lemma {:induction false} EnterKeepsLock(s: State, c: CallId)
    requires LockInv(s) && c in s.calls && s.calls[c].at == Waiting && s.holder == None
    ensures LockInv(Entered(s, c))
  {
  }

  predicate IsCallEvent(e: Event) {
    e.Enter? || e.Proceed? || e.Commit? || e.Pin? || e.Record? || e.Rollback? || e.Reread? || e.Fail?
  }

  lemma {:induction false} StepKeepsLock(s: State, e: Event, hash: string -> int)
    requires LockInv(s) && Enabled(s, e)
    ensures LockInv(Next(s, e, hash))
  {
    if IsCallEvent(e) {
      CallEventKeepsLock(s, e, hash);
    }
  }

  lemma {:induction false} CallEventKeepsLock(s: State, e: Event, hash: string -> int)
    requires LockInv(s) && Enabled(s, e) && IsCallEvent(e)
    ensures LockInv(Next(s, e, hash))
  {
    var at := Next(s, e, hash).calls[e.c].at;
    if e.Enter? {
      EnterKeepsLock(s, e.c);
    } else if !at.Ended? || s.calls[e.c].at.Waiting? {
      MoveKeepsLock(s, e.c, at);
    } else {
      LeaveKeepsLock(s, e.c, at.outcome);
    }
  }

  // ---------------------------------------------------------------- turns

  predicate NoTurn(tasks: map<TaskId, Task>, r: RequestId) {
    forall t :: t in tasks && tasks[t].r == r ==> !Live(tasks[t])
  }

  // A live turn is the one its session knows, and the session is busy.
  predicate TurnsKnown(tasks: map<TaskId, Task>, sessions: map<RequestId, Session>) {
    forall t :: t in tasks && Live(tasks[t]) ==>
      tasks[t].r in sessions && sessions[tasks[t].r].turn == Some(t) && sessions[tasks[t].r].busy
  }

  // An answer waits for every live turn of its request; past the wait there is none.
  predicate CallWaits(call: Call, tasks: map<TaskId, Task>) {
    && (call.at.Quiescing? ==> forall t :: t in tasks && Live(tasks[t]) && tasks[t].r == call.r ==>
       call.at.turn == Some(t))
    && (Quiet(call) ==> NoTurn(tasks, call.r))
  }

  predicate TaskInv(s: State) {
    TurnsKnown(s.tasks, s.sessions) && forall c :: c in s.calls ==> CallWaits(s.calls[c], s.tasks)
  }

  lemma {:induction false} PostKeepsTasks(s: State, r: RequestId, t: TaskId, title: string, turn: Turn)
    requires LockInv(s) && TaskInv(s) && r !in s.answering && !SessionOf(s, r).busy && t !in s.tasks
    ensures TaskInv(Posted(s, r, t, title, turn))
  {
    forall c | c in s.calls
      ensures CallWaits(s.calls[c], s.tasks[t := Task(r, Scheduled)])
    {
      assert InFlight(s.calls[c]) ==> s.calls[c].r in s.answering;
    }
  }

  lemma {:induction false} TurnKeepsTasks(s: State, t: TaskId, at: TaskState)
    requires TaskInv(s) && t in s.tasks && Live(s.tasks[t])
    ensures TaskInv(s.(tasks := s.tasks[t := s.tasks[t].(at := at)]))
  {
    forall c | c in s.calls
      ensures CallWaits(s.calls[c], s.tasks[t := s.tasks[t].(at := at)])
    {
    }
  }

  lemma {:induction false} TurnEndKeepsTasks(s: State, t: TaskId, title: string, turns: seq<Turn>, tokens: nat,
                                             answered: bool)
    requires TaskInv(s) && t in s.tasks && s.tasks[t].at == Running
    ensures TaskInv(TurnEnded(s, t, title, turns, tokens, answered))
  {
    forall c | c in s.calls
      ensures CallWaits(s.calls[c], s.tasks[t := Task(s.tasks[t].r, Over)])
    {
    }
  }

  lemma {:induction false} CallKeepsTasks(s: State, c: CallId, call: Call)
    requires TaskInv(s) && CallWaits(call, s.tasks)
    ensures TaskInv(s.(calls := s.calls[c := call]))
  {
  }

  lemma {:induction false} EnterKeepsTasks(s: State, c: CallId)
    requires TaskInv(s) && c in s.calls && s.calls[c].at == Waiting
    ensures TaskInv(Entered(s, c))
  {
    CallKeepsTasks(s, c, s.calls[c].(at := Quiescing(SessionOf(s, s.calls[c].r).turn)));
  }

  lemma {:induction false} CallEventKeepsTasks(s: State, e: Event, hash: string -> int)
    requires TaskInv(s) && Enabled(s, e) && IsCallEvent(e)
    ensures TaskInv(Next(s, e, hash))
  {
    if e.Enter? {
      EnterKeepsTasks(s, e.c);
    } else {
      var call := Next(s, e, hash).calls[e.c];
      assert CallWaits(call, s.tasks);
      CallKeepsTasks(s, e.c, call);
    }
  }

  lemma {:induction false} StepKeepsTasks(s: State, e: Event, hash: string -> int)
    requires LockInv(s) && TaskInv(s) && Enabled(s, e)
    ensures TaskInv(Next(s, e, hash))
  {
    if IsCallEvent(e) {
      CallEventKeepsTasks(s, e, hash);
    } else {
      match e
      case PostMessage(r, t, title, turn) => PostKeepsTasks(s, r, t, title, turn);
      case TurnStart(t) => TurnKeepsTasks(s, t, Running);
      case TurnDropped(t) => TurnKeepsTasks(s, t, Over);
      case TurnEnd(t, title, turns, tokens, answered) => TurnEndKeepsTasks(s, t, title, turns, tokens, answered);
      case Ask(c, r, option) => CallKeepsTasks(s, c, Call(r, option, Waiting));
      case _ =>
    }
  }

  // ---------------------------------------------------------------- what a step leaves alone

  lemma {:induction false} OtherStepsKeepCalls(s: State, e: Event, hash: string -> int)
    requires Enabled(s, e) && !IsCallEvent(e) && !e.Ask? && !e.Restart?
    ensures Next(s, e, hash).calls == s.calls
  {
  }

  predicate WritesFiles(e: Event) {
    e.WriteElsewhere? || e.PostMessage? || e.TurnEnd? || e.Proceed? || e.RunWrite?
  }

  predicate IsRunEvent(e: Event) {
    e.Start? || e.RunWrite? || e.RunCommit? || e.RunPin? || e.RunRecord? || e.RunFail?
  }

  lemma {:induction false} CallStepsKeepFiles(s: State, e: Event, hash: string -> int)
    requires Enabled(s, e) && IsCallEvent(e) && !e.Proceed?
    ensures Next(s, e, hash).db.files == s.db.files
  {
  }

  lemma {:induction false} RunStepsKeepFiles(s: State, e: Event, hash: string -> int)
    requires Enabled(s, e) && IsRunEvent(e) && !e.RunWrite?
    ensures Next(s, e, hash).db.files == s.db.files
  {
  }

  lemma {:induction false} OtherStepsKeepFiles(s: State, e: Event, hash: string -> int)
    requires Enabled(s, e) && !WritesFiles(e)
    ensures Next(s, e, hash).db.files == s.db.files
  {
    if IsCallEvent(e) {
      CallStepsKeepFiles(s, e, hash);
    } else if IsRunEvent(e) {
      RunStepsKeepFiles(s, e, hash);
    }
  }

  predicate SameAnswers(db: Shared, later: Shared) {
    later.requests == db.requests && later.log == db.log
  }

  lemma {:induction false} CallStepsKeepAnswers(s: State, e: Event, hash: string -> int)
    requires Enabled(s, e) && IsCallEvent(e) && !e.Record?
    ensures SameAnswers(s.db, Next(s, e, hash).db)
  {
  }

  lemma {:induction false} RunStepsKeepAnswers(s: State, e: Event, hash: string -> int)
    requires Enabled(s, e) && IsRunEvent(e) && !e.RunRecord?
    ensures SameAnswers(s.db, Next(s, e, hash).db)
  {
  }

  lemma {:induction false} OtherStepsKeepAnswers(s: State, e: Event, hash: string -> int)
    requires Enabled(s, e) && !e.Create? && !e.Record? && !e.RunRecord?
    ensures SameAnswers(s.db, Next(s, e, hash).db)
  {
    if IsCallEvent(e) {
      CallStepsKeepAnswers(s, e, hash);
    } else if IsRunEvent(e) {
      RunStepsKeepAnswers(s, e, hash);
    }
  }

  // ---------------------------------------------------------------- the transcript is still

  // While an answer is past its quiesce, no step changes its transcript.
  lemma {:induction false} TranscriptIsStill(s: State, e: Event, hash: string -> int, c: CallId)
    requires LockInv(s) && TaskInv(s) && Enabled(s, e)
    requires c in s.calls && Quiet(s.calls[c])
    ensures Content(Next(s, e, hash).db.files, TranscriptFile(s.calls[c].r))
            == Content(s.db.files, TranscriptFile(s.calls[c].r))
  {
    assert CallWaits(s.calls[c], s.tasks);
    if !WritesFiles(e) {
      OtherStepsKeepFiles(s, e, hash);
    }
  }
}
