// What an answer and a conversation amount to: an undisturbed answer is recorded, a loser is told the
// stored answer, and a transcript reads as what was said.
module DecisionEffects {
  import opened Options
  import opened Transcript
  import opened Decisions

  // ---------------------------------------------------------------- the conversation

  // What event `e` says in the session of `r`.
  function SaidNow(s: State, e: Event, r: RequestId): seq<Turn> {
    match e
    case PostMessage(asked, _, _, turn) => if asked == r then [turn] else []
    case TurnEnd(t, _, turns, _, _) => if t in s.tasks && s.tasks[t].r == r then turns else []
    case _ => []
  }

  // Everything said in the session of `r` during the events, in order.
  function Said(states: seq<State>, events: seq<Event>, r: RequestId): seq<Turn>
    requires |states| == |events| + 1
  {
    if events == [] then []
    else
      var n := |events| - 1;
      Said(states[..n + 1], events[..n], r) + SaidNow(states[n], events[n], r)
  }

  predicate PlainTitle(e: Event) {
    match e
    case PostMessage(_, _, title, _) => IsTitle(title)
    case TurnEnd(_, title, _, _, _) => IsTitle(title)
    case _ => true
  }

  // `later` is `before` and the said turns, numbered on.
  predicate Continues(before: seq<Turn>, said: seq<Turn>, later: seq<Turn>) {
    && |later| == |before| + |said| && before <= later
    && forall k :: 0 <= k < |said| ==>
       later[|before| + k] == Turn(|before| + k + 1, said[k].author, said[k].text, said[k].at)
  }

  lemma {:induction false} ContinuesOn(a: seq<Turn>, said: seq<Turn>, b: seq<Turn>, more: seq<Turn>, c: seq<Turn>)
    requires Continues(a, said, b) && Continues(b, more, c)
    ensures Continues(a, said + more, c)
  {
    forall k | 0 <= k < |said + more|
      ensures c[|a| + k] == Turn(|a| + k + 1, (said + more)[k].author, (said + more)[k].text, (said + more)[k].at)
    {
      if k < |said| {
        assert c[|a| + k] == b[|a| + k];
      } else {
        assert c[|b| + (k - |said|)] == c[|a| + k];
      }
    }
  }

  lemma {:induction false} AppendIsRead(files: Tree, r: RequestId, title: string, turn: Turn)
    requires IsTitle(title) && Plain(turn)
    ensures Continues(ReadBack(files, r), [turn], ReadBack(AppendTurns(files, r, title, [turn]), r))
  {
    AppendAddsTurn(files, r, title, turn);
  }

  lemma {:induction false} AppendOneMore(files: Tree, r: RequestId, title: string, turns: seq<Turn>)
    requires turns != []
    ensures AppendTurns(files, r, title, turns)
         == AppendTurns(AppendTurns(files, r, title, turns[..|turns| - 1]), r, title, [turns[|turns| - 1]])
  {
    assert [turns[|turns| - 1]][..0] == [];
  }

  lemma {:induction false} AppendsAreRead(files: Tree, r: RequestId, title: string, turns: seq<Turn>)
    requires IsTitle(title) && forall turn :: turn in turns ==> Plain(turn)
    ensures Continues(ReadBack(files, r), turns, ReadBack(AppendTurns(files, r, title, turns), r))
  {
    if turns != [] {
      var init, last := turns[..|turns| - 1], turns[|turns| - 1];
      assert turns == init + [last];
      AppendsAreRead(files, r, title, init);
      AppendIsRead(AppendTurns(files, r, title, init), r, title, last);
      AppendOneMore(files, r, title, turns);
      ContinuesOn(ReadBack(files, r), init, ReadBack(AppendTurns(files, r, title, init), r), [last],
          ReadBack(AppendTurns(files, r, title, turns), r));
    }
  }

  lemma {:induction false} PostIsRead(s: State, asked: RequestId, t: TaskId, title: string, turn: Turn, r: RequestId)
    requires IsTitle(title) && (asked == r ==> Plain(turn))
    ensures Continues(ReadBack(s.db.files, r), if asked == r then [turn] else [],
                      ReadBack(Posted(s, asked, t, title, turn).db.files, r))
  {
    if asked == r {
      AppendIsRead(s.db.files, r, title, turn);
    }
  }

  lemma {:induction false} ReplyIsRead(s: State, t: TaskId, title: string, turns: seq<Turn>, tokens: nat,
                                       answered: bool, r: RequestId)
    requires t in s.tasks && IsTitle(title) && (s.tasks[t].r == r ==> forall turn :: turn in turns ==> Plain(turn))
    ensures Continues(ReadBack(s.db.files, r), if s.tasks[t].r == r then turns else [],
                      ReadBack(TurnEnded(s, t, title, turns, tokens, answered).db.files, r))
  {
    if s.tasks[t].r == r {
      AppendsAreRead(s.db.files, r, title, turns);
    }
  }

  lemma {:induction false} StepIsRead(s: State, e: Event, hash: string -> int, r: RequestId)
    requires Enabled(s, e) && PlainTitle(e) && forall turn :: turn in SaidNow(s, e, r) ==> Plain(turn)
    ensures Continues(ReadBack(s.db.files, r), SaidNow(s, e, r), ReadBack(Next(s, e, hash).db.files, r))
  {
    match e {
      case PostMessage(asked, t, title, turn) =>
        assert asked == r ==> turn in SaidNow(s, e, r);
        PostIsRead(s, asked, t, title, turn, r);
      case TurnEnd(t, title, turns, tokens, answered) => ReplyIsRead(s, t, title, turns, tokens, answered, r);
      case _ => OtherStepsKeepTranscripts(s, e, hash, r);
    }
  }

  lemma {:induction false} OtherStepsKeepTranscripts(s: State, e: Event, hash: string -> int, r: RequestId)
    requires Enabled(s, e) && !e.PostMessage? && !e.TurnEnd?
    ensures Content(Next(s, e, hash).db.files, TranscriptFile(r)) == Content(s.db.files, TranscriptFile(r))
  {
    if !WritesFiles(e) {
      OtherStepsKeepFiles(s, e, hash);
    }
  }

  lemma {:induction false} SaysOneMore(states: seq<State>, events: seq<Event>, s: State, e: Event, t: State,
                                       hash: string -> int, r: RequestId)
    requires |states| == |events| + 1 && states[|events|] == s && Enabled(s, e) && t == Next(s, e, hash)
    requires Continues(ReadBack(states[0].db.files, r), Said(states, events, r), ReadBack(s.db.files, r))
    requires PlainTitle(e) && forall turn :: turn in SaidNow(s, e, r) ==> Plain(turn)
    ensures Continues(ReadBack(states[0].db.files, r), Said(states, events, r) + SaidNow(s, e, r),
                      ReadBack(t.db.files, r))
  {
    StepIsRead(s, e, hash, r);
    ContinuesOn(ReadBack(states[0].db.files, r), Said(states, events, r), ReadBack(s.db.files, r), SaidNow(s, e, r),
        ReadBack(t.db.files, r));
  }

  // Conservation over every run of two processes: a transcript reads as it did at the start and then,
  // in order and numbered on, everything that was posted or replied in its session and nothing else.
  lemma {:induction false} TranscriptIsTheConversation(states: seq<State>, events: seq<Event>, hash: string -> int,
                                                       r: RequestId)
    requires IsRun(states, events, hash) && (forall e :: e in events ==> PlainTitle(e))
    requires forall turn :: turn in Said(states, events, r) ==> Plain(turn)
    ensures Continues(ReadBack(states[0].db.files, r), Said(states, events, r),
                      ReadBack(states[|events|].db.files, r))
    decreases |events|
  {
    if events != [] {
      var n := |events| - 1;
      TranscriptIsTheConversation(states[..n + 1], events[..n], hash, r);
      SaysOneMore(states[..n + 1], events[..n], states[n], events[n], states[n + 1], hash, r);
    }
  }

  // ---------------------------------------------------------------- a whole answer

  // `sha` names a commit that holds for `path` what the files hold.
  predicate Holds(db: Shared, path: Path, sha: CommitId) {
    sha < |db.commits| && path in db.files && path in db.commits[sha] && db.commits[sha][path] == db.files[path]
  }

  // Recorded: the stored answer, one event by this caller, and a registered answer file that reads `artifact`.
  ghost predicate IsRecorded(db: Shared, later: Shared, hash: string -> int, r: RequestId, answer: string,
                             artifact: string, caller: Caller) {
    && r in later.requests && later.requests[r].answer == Some(answer)
    && Content(later.files, AnswerFile(r)) == Some(artifact)
    && (exists tkey :: later.log == db.log + [DecisionAnswered(r, answer, caller, tkey)])
    && RefKey(AnswerFile(r), hash(artifact)) in later.refs
    && (RefKey(AnswerFile(r), hash(artifact)) !in db.refs ==>
          Holds(later, AnswerFile(r), later.refs[RefKey(AnswerFile(r), hash(artifact))]))
  }

  function AnswerSteps(c: CallId, r: RequestId, option: string, artifact: string): seq<Event> {
    [Ask(c, r, option), Enter(c), Proceed(c, artifact), Commit(c), Pin(c), Record(c)]
  }

  function DecideSteps(k: RunId, r: RequestId, answer: string, artifact: string): seq<Event> {
    [Start(k, r, answer), RunWrite(k, artifact), RunCommit(k), RunPin(k), RunRecord(k)]
  }

  // Where the events lead when each is possible in its turn.
  ghost function After(s: State, events: seq<Event>, hash: string -> int): Option<State> {
    if events == [] then Some(s)
    else
      var before, last := After(s, events[..|events| - 1], hash), events[|events| - 1];
      if before.Some? && Enabled(before.value, last) then Some(Next(before.value, last, hash)) else None
  }

  lemma {:induction false} OneMore(s: State, events: seq<Event>, e: Event, hash: string -> int, t: State)
    requires After(s, events, hash) == Some(t) && Enabled(t, e)
    ensures After(s, events + [e], hash) == Some(Next(t, e, hash))
  {
    assert (events + [e])[..|events + [e]| - 1] == events;
  }

  // A commit takes the named paths as the files hold them and leaves every other path as it was; older
  // commits stay.
  lemma {:induction false} CommitTakesTheNamedPaths(db: Shared, paths: set<Path>, path: Path)
    ensures var after := CommitPaths(db, paths);
            && db.commits <= after.commits && |after.commits| <= |db.commits| + 1
            && after == db.(commits := after.commits)
            && Content(Head(after), path)
            == if path in paths && path in db.files then Some(db.files[path]) else Content(Head(db), path)
  {
    var tree := Head(db) + (map p | p in paths && p in db.files :: db.files[p]);
    assert tree == Head(db) ==> Content(tree, path) == Content(Head(db), path);
  }

  lemma {:induction false} CommitHolds(db: Shared, paths: set<Path>, path: Path)
    requires path in paths && path in db.files
    ensures var after := CommitPaths(db, paths);
            after.commits != [] && after.files == db.files && Holds(after, path, |after.commits| - 1)
  {
    var tree := Head(db) + (map p | p in paths && p in db.files :: db.files[p]);
    assert path in tree && tree[path] == db.files[path];
  }

  // How far an undisturbed call has come.
  predicate CallStands(t: State, c: CallId, call: Call, db: Shared) {
    c in t.calls && t.calls[c] == call && t.holder == Some(c) && t.db == db
  }

  lemma {:induction false} AnswerIsBegun(s: State, c: CallId, r: RequestId, option: string,
                                         hash: string -> int) returns (t: State)
    requires c !in s.calls && s.holder == None && Pending(s.db, r) && option in s.db.requests[r].allowed
    ensures After(s, [] + [Ask(c, r, option)] + [Enter(c)], hash) == Some(t) && t.tasks == s.tasks
    ensures CallStands(t, c, Call(r, option, Quiescing(SessionOf(s, r).turn)), s.db)
  {
    OneMore(s, [], Ask(c, r, option), hash, s);
    var asked := Next(s, Ask(c, r, option), hash);
    OneMore(s, [] + [Ask(c, r, option)], Enter(c), hash, asked);
    t := Next(asked, Enter(c), hash);
  }

  lemma {:induction false} AnswerIsWritten(s: State, c: CallId, r: RequestId, option: string, artifact: string,
                                           hash: string -> int) returns (t: State)
    requires c !in s.calls && s.holder == None && Pending(s.db, r) && option in s.db.requests[r].allowed
    requires IsOver(s, SessionOf(s, r).turn)
    ensures After(s, [] + [Ask(c, r, option)] + [Enter(c)] + [Proceed(c, artifact)], hash) == Some(t)
    ensures CallStands(t, c, Call(r, option, Written(TranscriptFile(r) in s.db.files)),
                       WithFile(s.db, AnswerFile(r), artifact))
  {
    var begun := AnswerIsBegun(s, c, r, option, hash);
    OneMore(s, [] + [Ask(c, r, option)] + [Enter(c)], Proceed(c, artifact), hash, begun);
    t := Next(begun, Proceed(c, artifact), hash);
  }

  lemma {:induction false} AnswerIsPinned(s: State, c: CallId, r: RequestId, option: string, events: seq<Event>,
                                          transcript: bool, hash: string -> int, written: State) returns (t: State)
    requires After(s, events, hash) == Some(written)
    requires CallStands(written, c, Call(r, option, Written(transcript)), written.db)
    requires CanRegister(written.db, r, transcript)
    ensures After(s, events + [Commit(c)] + [Pin(c)], hash) == Some(t)
    ensures t.db.commits != []
    ensures CallStands(t, c, Call(r, option, Pinned(transcript, |t.db.commits| - 1)),
                       CommitPaths(written.db, PathsOf(r, transcript)))
    ensures Holds(t.db, AnswerFile(r), |t.db.commits| - 1)
    ensures transcript ==> Holds(t.db, TranscriptFile(r), |t.db.commits| - 1)
  {
    assert AnswerFile(r) in PathsOf(r, transcript);
    CommitHolds(written.db, PathsOf(r, transcript), AnswerFile(r));
    if transcript {
      assert TranscriptFile(r) in PathsOf(r, transcript);
      CommitHolds(written.db, PathsOf(r, transcript), TranscriptFile(r));
    }
    OneMore(s, events, Commit(c), hash, written);
    var committed := Next(written, Commit(c), hash);
    OneMore(s, events + [Commit(c)], Pin(c), hash, committed);
    t := Next(committed, Pin(c), hash);
  }

  // The recording, on a database where only files and commits are newer than in `db`.
  lemma {:induction false} RecordingRecords(db: Shared, pinned: Shared, hash: string -> int, r: RequestId,
                                            answer: string, artifact: string, caller: Caller, transcript: bool,
                                            sha: CommitId)
    requires pinned.requests == db.requests && pinned.log == db.log && pinned.refs == db.refs
    requires r in pinned.requests && CanRegister(pinned, r, transcript)
    requires Content(pinned.files, AnswerFile(r)) == Some(artifact) && Holds(pinned, AnswerFile(r), sha)
    ensures IsRecorded(db, Recorded(pinned, hash, r, answer, caller, transcript, sha), hash, r, answer, artifact,
                       caller)
  {
    var tkey := if transcript then Some(KeyNow(pinned, hash, TranscriptFile(r))) else None;
    assert transcript ==> TranscriptFile(r) in PathsOf(r, transcript);
    assert db.log + [DecisionAnswered(r, answer, caller, tkey)]
        == Recorded(pinned, hash, r, answer, caller, transcript, sha).log;
  }

  // Nobody else at it: an allowed answer to a pending request goes through, step by step, to its recording.
  lemma {:induction false} UndisturbedAnswerIsRecorded(s: State, c: CallId, r: RequestId, option: string,
                                                       artifact: string, hash: string -> int) returns (t: State)
    requires c !in s.calls && s.holder == None && Pending(s.db, r) && option in s.db.requests[r].allowed
    requires IsOver(s, SessionOf(s, r).turn)
    ensures After(s, AnswerSteps(c, r, option, artifact), hash) == Some(t)
    ensures c in t.calls && t.calls[c].at == Ended(Answered(option)) && t.holder == None && r !in t.answering
    ensures IsRecorded(s.db, t.db, hash, r, option, artifact, Dashboard(c))
  {
    var begun := [] + [Ask(c, r, option)] + [Enter(c)] + [Proceed(c, artifact)];
    var transcript := TranscriptFile(r) in s.db.files;
    var written := AnswerIsWritten(s, c, r, option, artifact, hash);
    var pinned := AnswerIsPinned(s, c, r, option, begun, transcript, hash, written);
    assert begun + [Commit(c)] + [Pin(c)] + [Record(c)] == AnswerSteps(c, r, option, artifact);
    t := AnswerEnds(s, c, r, option, artifact, begun + [Commit(c)] + [Pin(c)], transcript, hash, pinned);
  }

  lemma {:induction false} AnswerEnds(s: State, c: CallId, r: RequestId, option: string, artifact: string,
                                      events: seq<Event>, transcript: bool, hash: string -> int,
                                      pinned: State) returns (t: State)
    requires After(s, events, hash) == Some(pinned) && pinned.db.commits != [] && Pending(s.db, r)
    requires var sha := |pinned.db.commits| - 1;
             && CallStands(pinned, c, Call(r, option, Pinned(transcript, sha)), pinned.db)
             && Holds(pinned.db, AnswerFile(r), sha) && CanRegister(pinned.db, r, transcript)
    requires pinned.db.requests == s.db.requests && pinned.db.log == s.db.log && pinned.db.refs == s.db.refs
    requires Content(pinned.db.files, AnswerFile(r)) == Some(artifact)
    ensures After(s, events + [Record(c)], hash) == Some(t)
    ensures c in t.calls && t.calls[c].at == Ended(Answered(option)) && t.holder == None && r !in t.answering
    ensures IsRecorded(s.db, t.db, hash, r, option, artifact, Dashboard(c))
  {
    OneMore(s, events, Record(c), hash, pinned);
    t := Next(pinned, Record(c), hash);
    RecordingRecords(s.db, pinned.db, hash, r, option, artifact, Dashboard(c), transcript, |pinned.db.commits| - 1);
  }

  predicate RunStands(t: State, k: RunId, run: Decide, db: Shared) {
    k in t.runs && t.runs[k] == run && t.db == db
  }

  lemma {:induction false} DecideIsWritten(s: State, k: RunId, r: RequestId, answer: string, artifact: string,
                                           hash: string -> int) returns (t: State)
    requires k !in s.runs && Pending(s.db, r) && answer != ""
    ensures After(s, [] + [Start(k, r, answer)] + [RunWrite(k, artifact)], hash) == Some(t)
    ensures RunStands(t, k, Decide(r, answer, RunWritten), WithFile(s.db, AnswerFile(r), artifact))
  {
    OneMore(s, [], Start(k, r, answer), hash, s);
    var started := Next(s, Start(k, r, answer), hash);
    OneMore(s, [] + [Start(k, r, answer)], RunWrite(k, artifact), hash, started);
    t := Next(started, RunWrite(k, artifact), hash);
  }

  lemma {:induction false} DecideIsPinned(s: State, k: RunId, r: RequestId, answer: string, events: seq<Event>,
                                          hash: string -> int, written: State) returns (t: State)
    requires After(s, events, hash) == Some(written) && AnswerFile(r) in written.db.files
    requires RunStands(written, k, Decide(r, answer, RunWritten), written.db)
    ensures After(s, events + [RunCommit(k)] + [RunPin(k)], hash) == Some(t)
    ensures t.db.commits != [] && Holds(t.db, AnswerFile(r), |t.db.commits| - 1)
    ensures RunStands(t, k, Decide(r, answer, RunPinned(|t.db.commits| - 1)),
                      CommitPaths(written.db, PathsOf(r, false)))
  {
    CommitHolds(written.db, PathsOf(r, false), AnswerFile(r));
    OneMore(s, events, RunCommit(k), hash, written);
    var committed := Next(written, RunCommit(k), hash);
    OneMore(s, events + [RunCommit(k)], RunPin(k), hash, committed);
    t := Next(committed, RunPin(k), hash);
  }

  // The same for `decide` on the command line.
  lemma {:induction false} UndisturbedDecideIsRecorded(s: State, k: RunId, r: RequestId, answer: string,
                                                       artifact: string, hash: string -> int) returns (t: State)
    requires k !in s.runs && Pending(s.db, r) && answer != ""
    ensures After(s, DecideSteps(k, r, answer, artifact), hash) == Some(t)
    ensures k in t.runs && t.runs[k].at == RunEnded(true)
    ensures IsRecorded(s.db, t.db, hash, r, answer, artifact, Cli(k))
  {
    var begun := [] + [Start(k, r, answer)] + [RunWrite(k, artifact)];
    var written := DecideIsWritten(s, k, r, answer, artifact, hash);
    var pinned := DecideIsPinned(s, k, r, answer, begun, hash, written);
    OneMore(s, begun + [RunCommit(k)] + [RunPin(k)], RunRecord(k), hash, pinned);
    assert begun + [RunCommit(k)] + [RunPin(k)] + [RunRecord(k)] == DecideSteps(k, r, answer, artifact);
    t := Next(pinned, RunRecord(k), hash);
    RecordingRecords(s.db, pinned.db, hash, r, answer, artifact, Cli(k), false, |pinned.db.commits| - 1);
  }

  // An answer that comes too late is told what is stored.
  lemma {:induction false} LoserIsTold(s: State, c: CallId, r: RequestId, option: string, transcript: bool,
                                       sha: CommitId, hash: string -> int, stored: string) returns (t: State)
    requires CallStands(s, c, Call(r, option, Pinned(transcript, sha)), s.db)
    requires r in s.db.requests && s.db.requests[r].answer == Some(stored)
    ensures !Enabled(s, Record(c)) && After(s, [Rollback(c), Reread(c)], hash) == Some(t)
    ensures c in t.calls && t.calls[c].at == Ended(Already(stored)) && t.db == s.db
    ensures t.holder == None && r !in t.answering
  {
    OneMore(s, [], Rollback(c), hash, s);
    var lost := Next(s, Rollback(c), hash);
    OneMore(s, [Rollback(c)], Reread(c), hash, lost);
    t := Next(lost, Reread(c), hash);
  }
}
