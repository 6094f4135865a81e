// What every run of the decision protocol keeps.
module DecisionSafety {
  import opened Options
  import opened Decisions
  import opened Transcript

  // ---------------------------------------------------------------- answers, events and callers

  function EventsFor(log: seq<Entry>, r: RequestId): (es: seq<Entry>)
    ensures forall e :: e in es <==> e in log && e.r == r
  {
    if log == [] then []
    else
      var init, last := EventsFor(log[..|log| - 1], r), log[|log| - 1];
      assert log == log[..|log| - 1] + [last];
      if last.r == r then init + [last] else init
  }

  // One event for an answered request, with the stored answer; none for any other.
  predicate OneEvent(requests: map<RequestId, Request>, log: seq<Entry>, r: RequestId) {
    if r in requests && requests[r].answer.Some?
    then |EventsFor(log, r)| == 1 && EventsFor(log, r)[0].answer == requests[r].answer.value
    else EventsFor(log, r) == []
  }

  // The caller that recorded an event ended as the winner, and a dashboard caller chose an allowed answer.
  predicate WinnerFits(requests: map<RequestId, Request>, calls: map<CallId, Call>, runs: map<RunId, Decide>,
                       e: Entry) {
    match e.caller
    case Dashboard(c) =>
      c in calls && calls[c] == Call(e.r, e.answer, Ended(Answered(e.answer))) && e.r in requests
          && e.answer in requests[e.r].allowed
    case Cli(k) => k in runs && runs[k] == Decide(e.r, e.answer, RunEnded(true))
  }

  predicate Recorder(log: seq<Entry>, caller: Caller) {
    exists e :: e in log && e.caller == caller
  }

  predicate CallFits(requests: map<RequestId, Request>, log: seq<Entry>, c: CallId, call: Call) {
    match call.at
    case Ended(Answered(_)) => Recorder(log, Dashboard(c))
    case Ended(Already(a)) => call.r in requests && requests[call.r].answer == Some(a)
    case Ended(_) => true
    case Waiting => true
    case _ => call.r in requests && call.option in requests[call.r].allowed
  }

  predicate RunFits(log: seq<Entry>, k: RunId, run: Decide) {
    run.at == RunEnded(true) ==> Recorder(log, Cli(k))
  }

  ghost predicate AnswerInv(requests: map<RequestId, Request>, log: seq<Entry>, calls: map<CallId, Call>,
                            runs: map<RunId, Decide>) {
    && (forall r :: OneEvent(requests, log, r))
    && (forall e :: e in log ==> WinnerFits(requests, calls, runs, e))
    && (forall c :: c in calls ==> CallFits(requests, log, c, calls[c]))
    && (forall k :: k in runs ==> RunFits(log, k, runs[k]))
  }

  ghost predicate Answers(s: State) {
    AnswerInv(s.db.requests, s.db.log, s.calls, s.runs)
  }

  lemma {:induction false} CallKeepsAnswers(requests: map<RequestId, Request>, log: seq<Entry>,
                                            calls: map<CallId, Call>, runs: map<RunId, Decide>, c: CallId, call: Call)
    requires AnswerInv(requests, log, calls, runs) && CallFits(requests, log, c, call)
    requires c in calls ==> !calls[c].at.Ended?
    ensures AnswerInv(requests, log, calls[c := call], runs)
  {
  }

  lemma {:induction false} RunKeepsAnswers(requests: map<RequestId, Request>, log: seq<Entry>,
                                           calls: map<CallId, Call>, runs: map<RunId, Decide>, k: RunId, run: Decide)
    requires AnswerInv(requests, log, calls, runs) && RunFits(log, k, run)
    requires k in runs ==> !runs[k].at.RunEnded?
    ensures AnswerInv(requests, log, calls, runs[k := run])
  {
  }

  lemma {:induction false} CreateKeepsAnswers(requests: map<RequestId, Request>, log: seq<Entry>,
                                              calls: map<CallId, Call>, runs: map<RunId, Decide>, r: RequestId,
                                              allowed: set<string>)
    requires AnswerInv(requests, log, calls, runs) && r !in requests
    ensures AnswerInv(requests[r := Request(allowed, None)], log, calls, runs)
  {
    var grown := requests[r := Request(allowed, None)];
    assert OneEvent(requests, log, r);
    forall q
      ensures OneEvent(grown, log, q)
    {
      assert OneEvent(requests, log, q);
    }
  }

  lemma {:induction false} OneMoreEvent(requests: map<RequestId, Request>, log: seq<Entry>, e: Entry, q: RequestId)
    requires OneEvent(requests, log, q)
    requires e.r in requests && requests[e.r].answer.None?
    ensures OneEvent(requests[e.r := requests[e.r].(answer := Some(e.answer))], log + [e], q)
  {
    assert (log + [e])[..|log|] == log;
  }

  lemma {:induction false} RecorderStays(log: seq<Entry>, e: Entry, caller: Caller)
    ensures Recorder(log + [e], caller) <==> Recorder(log, caller) || e.caller == caller
  {
    if e.caller == caller {
      assert e in log + [e];
    }
    if Recorder(log, caller) {
      var d :| d in log && d.caller == caller;
      assert d in log + [e];
    }
  }

  // The recording transaction, with its caller's new state already in place.
  lemma {:induction false} RecordKeepsAnswers(requests: map<RequestId, Request>, log: seq<Entry>,
                                              calls: map<CallId, Call>, runs: map<RunId, Decide>, e: Entry)
    requires forall r :: OneEvent(requests, log, r)
    requires forall d :: d in log ==> WinnerFits(requests, calls, runs, d)
    requires forall c :: c in calls && e.caller != Dashboard(c) ==> CallFits(requests, log, c, calls[c])
    requires forall k :: k in runs && e.caller != Cli(k) ==> RunFits(log, k, runs[k])
    requires e.r in requests && requests[e.r].answer.None? && WinnerFits(requests, calls, runs, e)
    ensures AnswerInv(requests[e.r := requests[e.r].(answer := Some(e.answer))], log + [e], calls, runs)
  {
    var after := requests[e.r := requests[e.r].(answer := Some(e.answer))];
    forall q
      ensures OneEvent(after, log + [e], q)
    {
      OneMoreEvent(requests, log, e, q);
    }
    forall d | d in log + [e]
      ensures WinnerFits(after, calls, runs, d)
    {
    }
    forall c | c in calls
      ensures CallFits(after, log + [e], c, calls[c])
    {
      RecorderStays(log, e, Dashboard(c));
    }
    forall k | k in runs
      ensures RunFits(log + [e], k, runs[k])
    {
      RecorderStays(log, e, Cli(k));
    }
  }

  lemma {:induction false} DashboardRecordKeepsAnswers(s: State, c: CallId, hash: string -> int)
    requires Answers(s) && Enabled(s, Record(c))
    ensures Answers(Next(s, Record(c), hash))
  {
    var t := Next(s, Record(c), hash);
    var e := t.db.log[|s.db.log|];
    assert CallFits(s.db.requests, s.db.log, c, s.calls[c]);
    forall d | d in s.db.log
      ensures WinnerFits(s.db.requests, t.calls, s.runs, d)
    {
      assert WinnerFits(s.db.requests, s.calls, s.runs, d);
    }
    RecordKeepsAnswers(s.db.requests, s.db.log, t.calls, s.runs, e);
  }

  lemma {:induction false} CliRecordKeepsAnswers(s: State, k: RunId, hash: string -> int)
    requires Answers(s) && Enabled(s, RunRecord(k))
    ensures Answers(Next(s, RunRecord(k), hash))
  {
    var t := Next(s, RunRecord(k), hash);
    var e := t.db.log[|s.db.log|];
    forall d | d in s.db.log
      ensures WinnerFits(s.db.requests, s.calls, t.runs, d)
    {
      assert WinnerFits(s.db.requests, s.calls, s.runs, d);
    }
    RecordKeepsAnswers(s.db.requests, s.db.log, s.calls, t.runs, e);
  }

  lemma {:induction false} RestartKeepsAnswers(s: State)
    requires Answers(s)
    ensures Answers(Restarted(s))
  {
    var t := Restarted(s);
    forall e | e in s.db.log
      ensures WinnerFits(s.db.requests, t.calls, s.runs, e)
    {
      assert WinnerFits(s.db.requests, s.calls, s.runs, e);
    }
    forall c | c in t.calls
      ensures CallFits(s.db.requests, s.db.log, c, t.calls[c])
    {
      assert CallFits(s.db.requests, s.db.log, c, s.calls[c]);
    }
  }

  lemma {:induction false} CallEventKeepsAnswers(s: State, e: Event, hash: string -> int)
    requires Answers(s) && Enabled(s, e) && IsCallEvent(e) && !e.Record?
    ensures Answers(Next(s, e, hash))
  {
    assert CallFits(s.db.requests, s.db.log, e.c, s.calls[e.c]);
    var call := Next(s, e, hash).calls[e.c];
    CallKeepsAnswers(s.db.requests, s.db.log, s.calls, s.runs, e.c, call);
  }

  lemma {:induction false} StepKeepsAnswers(s: State, e: Event, hash: string -> int)
    requires Answers(s) && Enabled(s, e)
    ensures Answers(Next(s, e, hash))
  {
    if e.Record? {
      DashboardRecordKeepsAnswers(s, e.c, hash);
    } else if IsCallEvent(e) {
      CallEventKeepsAnswers(s, e, hash);
    } else {
      match e
      case Create(r, allowed) => CreateKeepsAnswers(s.db.requests, s.db.log, s.calls, s.runs, r, allowed);
      case Ask(c, r, option) => CallKeepsAnswers(s.db.requests, s.db.log, s.calls, s.runs, c, Call(r, option, Waiting));
      case Start(k, r, answer) => RunKeepsAnswers(s.db.requests, s.db.log, s.calls, s.runs, k,
          Decide(r, answer, Chosen));
      case RunWrite(k, _) => RunKeepsAnswers(s.db.requests, s.db.log, s.calls, s.runs, k, s.runs[k].(at := RunWritten));
      case RunCommit(k) => RunKeepsAnswers(s.db.requests, s.db.log, s.calls, s.runs, k, s.runs[k].(at := RunCommitted));
      case RunPin(k) => RunKeepsAnswers(s.db.requests, s.db.log, s.calls, s.runs, k,
          s.runs[k].(at := RunPinned(|s.db.commits| - 1)));
      case RunFail(k) => RunKeepsAnswers(s.db.requests, s.db.log, s.calls, s.runs, k,
          s.runs[k].(at := RunEnded(false)));
      case RunRecord(k) => CliRecordKeepsAnswers(s, k, hash);
      case Restart => RestartKeepsAnswers(s);
      case _ =>
    }
  }

  // ---------------------------------------------------------------- references and commits

  // From the commit on, the transcript's present content is in the repository.
  predicate CallPinned(db: Shared, call: Call) {
    var path := TranscriptFile(call.r);
    match call.at
    case Written(w) => w == (path in db.files)
    case Committed(w) => w == (path in db.files) && (w ==> Content(Head(db), path) == Content(db.files, path))
    case Pinned(w, sha) =>
      w == (path in db.files) && sha < |db.commits| && (w ==> Content(db.commits[sha], path) == Content(db.files, path))
    case _ => true
  }

  // The digest is that of the file as the recorded commit has it.
  predicate RefFits(db: Shared, hash: string -> int, key: RefKey) {
    && key in db.refs && db.refs[key] < |db.commits| && key.path in db.commits[db.refs[key]]
    && hash(db.commits[db.refs[key]][key.path]) == key.digest
  }

  // A transcript named by an event is registered, under the request's own path.
  predicate EntryFits(db: Shared, e: Entry) {
    e.transcript.Some? ==> e.transcript.value in db.refs && e.transcript.value.path == TranscriptFile(e.r)
  }

  predicate RepoInv(db: Shared, calls: map<CallId, Call>, hash: string -> int) {
    && (forall c :: c in calls ==> CallPinned(db, calls[c]))
    && (forall key :: key in db.refs && key.path.TranscriptFile? ==> RefFits(db, hash, key))
    && (forall e :: e in db.log ==> EntryFits(db, e))
  }

  predicate Repo(s: State, hash: string -> int) {
    RepoInv(s.db, s.calls, hash)
  }

  predicate CommitsGrow(db: Shared, later: Shared) {
    |db.commits| <= |later.commits| && later.commits[..|db.commits|] == db.commits
  }

  lemma {:induction false} CommitStays(db: Shared, later: Shared, sha: CommitId)
    requires CommitsGrow(db, later) && sha < |db.commits|
    ensures later.commits[sha] == db.commits[sha]
  {
    assert later.commits[..|db.commits|][sha] == later.commits[sha];
  }

  lemma {:induction false} CallStaysPinned(db: Shared, later: Shared, call: Call)
    requires CallPinned(db, call) && CommitsGrow(db, later)
    requires Quiet(call) ==> Content(later.files, TranscriptFile(call.r)) == Content(db.files, TranscriptFile(call.r))
    requires Quiet(call) ==> Content(Head(later), TranscriptFile(call.r)) == Content(Head(db), TranscriptFile(call.r))
    ensures CallPinned(later, call)
  {
    if call.at.Pinned? {
      CommitStays(db, later, call.at.sha);
    }
  }

  lemma {:induction false} RefStaysFit(db: Shared, later: Shared, hash: string -> int, key: RefKey)
    requires RefFits(db, hash, key) && CommitsGrow(db, later) && key in later.refs && later.refs[key] == db.refs[key]
    ensures RefFits(later, hash, key)
  {
    CommitStays(db, later, db.refs[key]);
  }

  // Steps of others: the repository and the files may grow, but not where it matters.
  lemma {:induction false} FrameKeepsRepo(db: Shared, later: Shared, calls: map<CallId, Call>, hash: string -> int)
    requires RepoInv(db, calls, hash) && CommitsGrow(db, later) && later.refs == db.refs && later.log == db.log
    requires forall c :: c in calls && Quiet(calls[c]) ==>
      && Content(later.files, TranscriptFile(calls[c].r)) == Content(db.files, TranscriptFile(calls[c].r))
      && Content(Head(later), TranscriptFile(calls[c].r)) == Content(Head(db), TranscriptFile(calls[c].r))
    ensures RepoInv(later, calls, hash)
  {
    forall c | c in calls
      ensures CallPinned(later, calls[c])
    {
      CallStaysPinned(db, later, calls[c]);
    }
    forall key | key in db.refs && key.path.TranscriptFile?
      ensures RefFits(later, hash, key)
    {
      RefStaysFit(db, later, hash, key);
    }
  }

  lemma {:induction false} CommitPathsGrows(db: Shared, paths: set<Path>)
    ensures CommitsGrow(db, CommitPaths(db, paths))
    ensures forall p :: p in paths && p in db.files ==> Content(Head(CommitPaths(db, paths)), p) == Content(db.files, p)
    ensures forall p :: p !in paths ==> Content(Head(CommitPaths(db, paths)), p) == Content(Head(db), p)
    ensures CommitPaths(db, paths) == db.(commits := CommitPaths(db, paths).commits)
  {
    var tree := Head(db) + (map p | p in paths && p in db.files :: db.files[p]);
    assert Head(CommitPaths(db, paths)) == tree;
  }

  lemma {:induction false} CallKeepsRepo(db: Shared, calls: map<CallId, Call>, hash: string -> int, c: CallId,
                                         call: Call)
    requires RepoInv(db, calls, hash) && CallPinned(db, call)
    ensures RepoInv(db, calls[c := call], hash)
  {
  }

  lemma {:induction false} CommitKeepsRepo(s: State, c: CallId, hash: string -> int)
    requires LockInv(s) && Repo(s, hash) && Enabled(s, Commit(c))
    ensures Repo(Next(s, Commit(c), hash), hash)
  {
    var call := s.calls[c];
    var later := CommitPaths(s.db, PathsOf(call.r, call.at.transcript));
    CommitPathsGrows(s.db, PathsOf(call.r, call.at.transcript));
    assert CallPinned(s.db, call);
    var next := call.(at := Committed(call.at.transcript));
    assert CallPinned(later, next);
    // With this call set aside, nobody is quiet.
    var others := s.calls[c := call.(at := Waiting)];
    CallKeepsRepo(s.db, s.calls, hash, c, call.(at := Waiting));
    assert forall d :: d in others && d != c ==> !InFlight(others[d]);
    FrameKeepsRepo(s.db, later, others, hash);
    CallKeepsRepo(later, others, hash, c, next);
    assert others[c := next] == s.calls[c := next];
  }

  lemma {:induction false} RegisterKeepsRefs(db: Shared, later: Shared, hash: string -> int, key: RefKey,
                                             sha: CommitId)
    requires forall k :: k in db.refs && k.path.TranscriptFile? ==> RefFits(db, hash, k)
    requires later.commits == db.commits && later.refs == Register(db.refs, key, sha)
    requires key.path.TranscriptFile? ==>
      sha < |db.commits| && key.path in db.commits[sha] && hash(db.commits[sha][key.path]) == key.digest
    ensures forall k :: k in later.refs && k.path.TranscriptFile? ==> RefFits(later, hash, k)
  {
    forall k | k in later.refs && k.path.TranscriptFile?
      ensures RefFits(later, hash, k)
    {
      if k in db.refs {
        assert RefFits(db, hash, k);
      }
    }
  }

  // Recording registers the transcript with the commit that holds it.
  lemma {:induction false} RecordedKeepsRefs(db: Shared, hash: string -> int, r: RequestId, answer: string,
                                             caller: Caller, transcript: bool, sha: CommitId)
    requires r in db.requests && CanRegister(db, r, transcript)
    requires forall k :: k in db.refs && k.path.TranscriptFile? ==> RefFits(db, hash, k)
    requires forall e :: e in db.log ==> EntryFits(db, e)
    requires transcript ==>
            sha < |db.commits| && Content(db.commits[sha], TranscriptFile(r)) == Content(db.files, TranscriptFile(r))
    ensures forall calls :: (forall c :: c in calls ==> CallPinned(db, calls[c])) ==>
      RepoInv(Recorded(db, hash, r, answer, caller, transcript, sha), calls, hash)
  {
    var later := Recorded(db, hash, r, answer, caller, transcript, sha);
    assert AnswerFile(r) in PathsOf(r, transcript);
    var akey := KeyNow(db, hash, AnswerFile(r));
    var mid := db.(refs := Register(db.refs, akey, sha));
    RegisterKeepsRefs(db, mid, hash, akey, sha);
    if transcript {
      assert TranscriptFile(r) in PathsOf(r, transcript);
      RegisterKeepsRefs(mid, later, hash, KeyNow(db, hash, TranscriptFile(r)), sha);
    } else {
      assert forall k :: RefFits(mid, hash, k) ==> RefFits(later, hash, k);
    }
    assert forall call :: CallPinned(db, call) ==> CallPinned(later, call);
  }

  lemma {:induction false} DashboardRecordKeepsRepo(s: State, c: CallId, hash: string -> int)
    requires Repo(s, hash) && Enabled(s, Record(c))
    ensures Repo(Next(s, Record(c), hash), hash)
  {
    var call := s.calls[c];
    assert CallPinned(s.db, call);
    RecordedKeepsRefs(s.db, hash, call.r, call.option, Dashboard(c), call.at.transcript, call.at.sha);
    CallKeepsRepo(s.db, s.calls, hash, c, call.(at := Ended(Answered(call.option))));
  }

  lemma {:induction false} CliRecordKeepsRepo(s: State, k: RunId, hash: string -> int)
    requires Repo(s, hash) && Enabled(s, RunRecord(k))
    ensures Repo(Next(s, RunRecord(k), hash), hash)
  {
    RecordedKeepsRefs(s.db, hash, s.runs[k].r, s.runs[k].answer, Cli(k), false, s.runs[k].at.sha);
  }

  lemma {:induction false} ProceedKeepsRepo(s: State, c: CallId, artifact: string, hash: string -> int)
    requires LockInv(s) && Repo(s, hash) && Enabled(s, Proceed(c, artifact))
    ensures Repo(Next(s, Proceed(c, artifact), hash), hash)
  {
    var t := Next(s, Proceed(c, artifact), hash);
    var others := s.calls[c := s.calls[c].(at := Waiting)];
    CallKeepsRepo(s.db, s.calls, hash, c, s.calls[c].(at := Waiting));
    FrameKeepsRepo(s.db, t.db, others, hash);
    CallKeepsRepo(t.db, others, hash, c, t.calls[c]);
    assert others[c := t.calls[c]] == t.calls;
  }

  lemma {:induction false} CallEventKeepsRepo(s: State, e: Event, hash: string -> int)
    requires Repo(s, hash) && Enabled(s, e) && IsCallEvent(e) && !e.Record? && !e.Commit? && !e.Proceed?
    ensures Repo(Next(s, e, hash), hash)
  {
    assert CallPinned(s.db, s.calls[e.c]);
    CallKeepsRepo(s.db, s.calls, hash, e.c, Next(s, e, hash).calls[e.c]);
  }

  // Steps that are no caller's: none touches a transcript at the head, or a still one on disk.
  lemma {:induction false} OtherStepKeepsRepo(s: State, e: Event, hash: string -> int)
    requires LockInv(s) && TaskInv(s) && Repo(s, hash) && Enabled(s, e) && !IsCallEvent(e) && !e.RunRecord?
            && !e.Ask? && !e.Restart?
    ensures Repo(Next(s, e, hash), hash)
  {
    var t := Next(s, e, hash);
    if e.RunCommit? {
      CommitPathsGrows(s.db, PathsOf(s.runs[e.k].r, false));
    }
    forall c | c in s.calls && Quiet(s.calls[c])
      ensures Content(t.db.files, TranscriptFile(s.calls[c].r)) == Content(s.db.files, TranscriptFile(s.calls[c].r))
      ensures Content(Head(t.db), TranscriptFile(s.calls[c].r)) == Content(Head(s.db), TranscriptFile(s.calls[c].r))
    {
      TranscriptIsStill(s, e, hash, c);
    }
    FrameKeepsRepo(s.db, t.db, s.calls, hash);
  }

  lemma {:induction false} RestartKeepsRepo(s: State, hash: string -> int)
    requires Repo(s, hash)
    ensures Repo(Restarted(s), hash)
  {
    forall c | c in s.calls
      ensures CallPinned(s.db, Restarted(s).calls[c])
    {
      assert CallPinned(s.db, s.calls[c]);
    }
  }

  lemma {:induction false} StepKeepsRepo(s: State, e: Event, hash: string -> int)
    requires LockInv(s) && TaskInv(s) && Repo(s, hash) && Enabled(s, e)
    ensures Repo(Next(s, e, hash), hash)
  {
    if e.Commit? {
      CommitKeepsRepo(s, e.c, hash);
    } else if e.Proceed? {
      ProceedKeepsRepo(s, e.c, e.artifact, hash);
    } else if e.Record? {
      DashboardRecordKeepsRepo(s, e.c, hash);
    } else if IsCallEvent(e) {
      CallEventKeepsRepo(s, e, hash);
    } else if e.RunRecord? {
      CliRecordKeepsRepo(s, e.k, hash);
    } else if e.Ask? {
      CallKeepsRepo(s.db, s.calls, hash, e.c, Call(e.r, e.option, Waiting));
    } else if e.Restart? {
      RestartKeepsRepo(s, hash);
    } else {
      OtherStepKeepsRepo(s, e, hash);
    }
  }

  // ---------------------------------------------------------------- every run

  ghost predicate Inv(s: State, hash: string -> int) {
    LockInv(s) && TaskInv(s) && Answers(s) && Repo(s, hash)
  }

  lemma {:induction false} RunKeepsInv(states: seq<State>, events: seq<Event>, hash: string -> int, i: nat)
    requires IsRun(states, events, hash) && i < |states|
    ensures Inv(states[i], hash)
  {
    if i > 0 {
      RunKeepsInv(states, events, hash, i - 1);
      assert states[(i - 1) + 1] == Next(states[i - 1], events[i - 1], hash);
      StepKeepsLock(states[i - 1], events[i - 1], hash);
      StepKeepsTasks(states[i - 1], events[i - 1], hash);
      StepKeepsAnswers(states[i - 1], events[i - 1], hash);
      StepKeepsRepo(states[i - 1], events[i - 1], hash);
    }
  }

  // ---------------------------------------------------------------- exactly one answer

  lemma {:induction false} OneAnswerPerRequest(states: seq<State>, events: seq<Event>, hash: string -> int, i: nat,
                                               r: RequestId)
    requires IsRun(states, events, hash) && i < |states|
    ensures OneEvent(states[i].db.requests, states[i].db.log, r)
  {
    RunKeepsInv(states, events, hash, i);
  }

  predicate RecordedBy(log: seq<Entry>, caller: Caller, r: RequestId, answer: string) {
    exists e :: e in log && e.caller == caller && e.r == r && e.answer == answer
  }

  // ANSWERED is what the caller sees whose transaction committed, and nobody else.
  lemma {:induction false} OnlyTheRecorderWins(states: seq<State>, events: seq<Event>, hash: string -> int, i: nat,
                                               c: CallId, call: Call)
    requires IsRun(states, events, hash) && i < |states| && call.at.Ended? && call.at.outcome.Answered?
    ensures c in states[i].calls && states[i].calls[c] == call <==>
      call.option == call.at.outcome.answer && RecordedBy(states[i].db.log, Dashboard(c), call.r, call.option)
  {
    RunKeepsInv(states, events, hash, i);
    var s := states[i];
    if c in s.calls && s.calls[c] == call {
      assert CallFits(s.db.requests, s.db.log, c, call);
      var e :| e in s.db.log && e.caller == Dashboard(c);
      assert WinnerFits(s.db.requests, s.calls, s.runs, e);
    }
    if call.option == call.at.outcome.answer && RecordedBy(s.db.log, Dashboard(c), call.r, call.option) {
      var e :| e in s.db.log && e.caller == Dashboard(c) && e.r == call.r && e.answer == call.option;
      assert WinnerFits(s.db.requests, s.calls, s.runs, e);
    }
  }

  lemma {:induction false} OnlyTheRecorderReports(states: seq<State>, events: seq<Event>, hash: string -> int, i: nat,
                                                  k: RunId, r: RequestId, answer: string)
    requires IsRun(states, events, hash) && i < |states|
    ensures k in states[i].runs && states[i].runs[k] == Decide(r, answer, RunEnded(true)) <==>
      RecordedBy(states[i].db.log, Cli(k), r, answer)
  {
    RunKeepsInv(states, events, hash, i);
    var s := states[i];
    if k in s.runs && s.runs[k] == Decide(r, answer, RunEnded(true)) {
      assert RunFits(s.db.log, k, s.runs[k]);
      var e :| e in s.db.log && e.caller == Cli(k);
      assert WinnerFits(s.db.requests, s.calls, s.runs, e);
    }
    if RecordedBy(s.db.log, Cli(k), r, answer) {
      var e :| e in s.db.log && e.caller == Cli(k) && e.r == r && e.answer == answer;
      assert WinnerFits(s.db.requests, s.calls, s.runs, e);
    }
  }

  // Two winners for one request are the same caller.
  lemma {:induction false} OneWinner(states: seq<State>, events: seq<Event>, hash: string -> int, i: nat, d: Entry,
                                     e: Entry)
    requires IsRun(states, events, hash) && i < |states|
    requires d in states[i].db.log && e in states[i].db.log && d.r == e.r
    ensures d == e && d.r in states[i].db.requests && states[i].db.requests[d.r].answer == Some(d.answer)
  {
    RunKeepsInv(states, events, hash, i);
    OneEventIsOne(states[i].db.requests, states[i].db.log, d, e);
  }

  lemma {:induction false} OneEventIsOne(requests: map<RequestId, Request>, log: seq<Entry>, d: Entry, e: Entry)
    requires OneEvent(requests, log, d.r) && d in log && e in log && d.r == e.r
    ensures d == e && d.r in requests && requests[d.r].answer == Some(d.answer)
  {
    assert d in EventsFor(log, d.r) && e in EventsFor(log, d.r);
  }

  // A dashboard caller told "already answered" was told the stored answer; a winner's was allowed.
  lemma {:induction false} LosersSeeTheStoredAnswer(states: seq<State>, events: seq<Event>, hash: string -> int,
                                                    i: nat, c: CallId)
    requires IsRun(states, events, hash) && i < |states| && c in states[i].calls
    ensures forall a :: states[i].calls[c].at == Ended(Already(a)) || states[i].calls[c].at == Ended(Answered(a)) ==>
      states[i].calls[c].r in states[i].db.requests && states[i].db.requests[states[i].calls[c].r].answer == Some(a)
    ensures forall a :: states[i].calls[c].at == Ended(Answered(a)) ==>
            a in states[i].db.requests[states[i].calls[c].r].allowed
  {
    RunKeepsInv(states, events, hash, i);
    var s := states[i];
    assert CallFits(s.db.requests, s.db.log, c, s.calls[c]);
    if s.calls[c].at.Ended? && s.calls[c].at.outcome.Answered? {
      var e :| e in s.db.log && e.caller == Dashboard(c);
      assert WinnerFits(s.db.requests, s.calls, s.runs, e);
      OneWinner(states, events, hash, i, e, e);
    }
  }

  predicate SameAnswer(s: State, t: State, r: RequestId) {
    r in s.db.requests && r in t.db.requests && t.db.requests[r].answer == s.db.requests[r].answer
  }

  lemma {:induction false} AnswerStaysInRun(states: seq<State>, events: seq<Event>, hash: string -> int, i: nat,
                                            r: RequestId)
    requires IsRun(states, events, hash) && i < |events|
    requires r in states[i].db.requests && states[i].db.requests[r].answer.Some?
    ensures SameAnswer(states[i], states[i + 1], r)
  {
    AnswerStays(states[i], events[i], hash, r);
  }

  lemma {:induction false} AnswerStays(s: State, e: Event, hash: string -> int, r: RequestId)
    requires Enabled(s, e) && r in s.db.requests && s.db.requests[r].answer.Some?
    ensures SameAnswer(s, Next(s, e, hash), r)
  {
    if !e.Create? && !e.Record? && !e.RunRecord? {
      OtherStepsKeepAnswers(s, e, hash);
    }
  }

  lemma {:induction false} AnswersAreFinal(states: seq<State>, events: seq<Event>, hash: string -> int, i: nat,
                                           j: nat, r: RequestId)
    requires IsRun(states, events, hash) && i <= j < |states|
    requires r in states[i].db.requests && states[i].db.requests[r].answer.Some?
    ensures SameAnswer(states[i], states[j], r)
  {
    if i < j {
      AnswersAreFinal(states, events, hash, i, j - 1, r);
      AnswerStaysInRun(states, events, hash, j - 1, r);
    }
  }

  // ---------------------------------------------------------------- flag, transcript, references

  // The flag is up exactly while an answer to the request is in flight, however that answer ends.
  lemma {:induction false} FlagIsExact(states: seq<State>, events: seq<Event>, hash: string -> int, i: nat,
                                       r: RequestId)
    requires IsRun(states, events, hash) && i < |states|
    ensures r in states[i].answering <==> exists c :: CallAt(states[i], c) && states[i].calls[c].r == r
  {
    RunKeepsInv(states, events, hash, i);
    var s := states[i];
    if s.holder.Some? {
      assert CallAt(s, s.holder.value);
    }
  }

  function Rank(call: Call): nat {
    if call.at.Ended? then 3 else if call.at.Waiting? then 0 else if call.at.Quiescing? then 1 else 2
  }

  lemma {:induction false} CallsMoveOn(s: State, e: Event, hash: string -> int, c: CallId)
    requires Enabled(s, e) && c in s.calls
    ensures c in Next(s, e, hash).calls && Next(s, e, hash).calls[c].r == s.calls[c].r
    ensures Rank(Next(s, e, hash).calls[c]) >= Rank(s.calls[c])
  {
    if !IsCallEvent(e) && !e.Ask? && !e.Restart? {
      OtherStepsKeepCalls(s, e, hash);
    }
  }

  // One step of a call that is past its quiesce: it stays past it, and its transcript stays.
  lemma {:induction false} QuietCallStep(s: State, e: Event, hash: string -> int, c: CallId)
    requires Inv(s, hash) && Enabled(s, e) && c in s.calls && Rank(s.calls[c]) >= 2
    ensures StillFrom(s, Next(s, e, hash), c)
  {
    CallsMoveOn(s, e, hash, c);
    if Quiet(s.calls[c]) {
      TranscriptIsStill(s, e, hash, c);
    }
  }

  // The call goes on, and as long as it is in flight its transcript is the same.
  predicate StillFrom(s: State, t: State, c: CallId) {
    && c in s.calls && c in t.calls && t.calls[c].r == s.calls[c].r && Rank(t.calls[c]) >= Rank(s.calls[c])
    && (Quiet(s.calls[c]) && Quiet(t.calls[c]) ==>
          Content(t.db.files, TranscriptFile(s.calls[c].r)) == Content(s.db.files, TranscriptFile(s.calls[c].r)))
  }

  lemma {:induction false} StillIsTransitive(s: State, t: State, u: State, c: CallId)
    requires StillFrom(s, t, c) && StillFrom(t, u, c) && Quiet(s.calls[c])
    ensures StillFrom(s, u, c)
  {
  }

  // From the end of the quiesce until the answer is out, the transcript does not change.
  lemma {:induction false} TranscriptStaysStill(states: seq<State>, events: seq<Event>, hash: string -> int, i: nat,
                                                j: nat, c: CallId)
    requires IsRun(states, events, hash) && i <= j < |states|
    requires c in states[i].calls && Quiet(states[i].calls[c])
    ensures StillFrom(states[i], states[j], c)
  {
    if i < j {
      TranscriptStaysStill(states, events, hash, i, j - 1, c);
      RunKeepsInv(states, events, hash, j - 1);
      QuietCallStep(states[j - 1], events[j - 1], hash, c);
      assert states[(j - 1) + 1] == Next(states[j - 1], events[j - 1], hash);
      StillIsTransitive(states[i], states[j - 1], states[j], c);
    }
  }

  // A registered transcript's digest is that of the file in the commit registered with it.
  lemma {:induction false} RegisteredTranscriptsResolve(states: seq<State>, events: seq<Event>, hash: string -> int,
                                                        i: nat, key: RefKey)
    requires IsRun(states, events, hash) && i < |states|
    ensures key in states[i].db.refs && key.path.TranscriptFile? ==> RefFits(states[i].db, hash, key)
    ensures (exists e :: e in states[i].db.log && e.transcript == Some(key)) ==>
            key in states[i].db.refs && key.path.TranscriptFile?
  {
    RunKeepsInv(states, events, hash, i);
  }

  // ---------------------------------------------------------------- the turn limit

  // No session has more replies than turns allowed, and none at the limit has a turn under way.
  predicate WithinLimits(s: State) {
    && (forall r :: r in s.sessions ==> s.sessions[r].replies <= s.limits.turns)
    && (forall t :: t in s.tasks && Live(s.tasks[t]) && s.tasks[t].r in s.sessions ==>
          s.sessions[s.tasks[t].r].replies < s.limits.turns)
  }

  lemma {:induction false} TurnEndStaysWithinLimits(s: State, e: Event, hash: string -> int)
    requires TaskInv(s) && WithinLimits(s) && Enabled(s, e) && e.TurnEnd?
    ensures WithinLimits(Next(s, e, hash))
  {
    var u := Next(s, e, hash);
    var r := s.tasks[e.t].r;
    forall t | t in u.tasks && Live(u.tasks[t]) && u.tasks[t].r in u.sessions
      ensures u.sessions[u.tasks[t].r].replies < u.limits.turns
    {
      assert Live(s.tasks[e.t]) && t != e.t;
      assert u.tasks[t].r != r;
    }
  }

  lemma {:induction false} PostStaysWithinLimits(s: State, e: Event, hash: string -> int)
    requires WithinLimits(s) && Enabled(s, e) && e.PostMessage?
    ensures WithinLimits(Next(s, e, hash))
  {
  }

  lemma {:induction false} StepStaysWithinLimits(s: State, e: Event, hash: string -> int)
    requires TaskInv(s) && WithinLimits(s) && Enabled(s, e)
    ensures WithinLimits(Next(s, e, hash)) && Next(s, e, hash).limits == s.limits
  {
    LimitsAreFixed(s, e, hash);
    if e.TurnEnd? {
      TurnEndStaysWithinLimits(s, e, hash);
    } else if e.PostMessage? {
      PostStaysWithinLimits(s, e, hash);
    } else if TouchesSessions(e) {
      TouchStaysWithinLimits(s, e, hash);
    } else {
      OtherStepsKeepSessions(s, e, hash);
    }
  }

  predicate TouchesSessions(e: Event) {
    e.Exhaust? || e.TurnStart? || e.TurnDropped? || e.Restart?
  }

  lemma {:induction false} LimitsAreFixed(s: State, e: Event, hash: string -> int)
    requires Enabled(s, e)
    ensures Next(s, e, hash).limits == s.limits
  {
  }

  lemma {:induction false} TouchStaysWithinLimits(s: State, e: Event, hash: string -> int)
    requires TaskInv(s) && WithinLimits(s) && Enabled(s, e) && TouchesSessions(e)
    ensures WithinLimits(Next(s, e, hash))
  {
  }

  predicate SameSessions(s: State, t: State) {
    t.sessions == s.sessions && t.tasks == s.tasks
  }

  lemma {:induction false} CallStepsKeepSessions(s: State, e: Event, hash: string -> int)
    requires Enabled(s, e) && IsCallEvent(e)
    ensures SameSessions(s, Next(s, e, hash))
  {
  }

  lemma {:induction false} RunStepsKeepSessions(s: State, e: Event, hash: string -> int)
    requires Enabled(s, e) && IsRunEvent(e)
    ensures SameSessions(s, Next(s, e, hash))
  {
  }

  lemma {:induction false} OtherStepsKeepSessions(s: State, e: Event, hash: string -> int)
    requires Enabled(s, e) && !e.TurnEnd? && !e.PostMessage? && !TouchesSessions(e)
    ensures SameSessions(s, Next(s, e, hash))
  {
    if IsCallEvent(e) {
      CallStepsKeepSessions(s, e, hash);
    } else if IsRunEvent(e) {
      RunStepsKeepSessions(s, e, hash);
    }
  }

  // In every run, between two restarts no session gets more agent replies than it has turns.
  lemma {:induction false} RepliesStayWithinLimits(states: seq<State>, events: seq<Event>, hash: string -> int, i: nat)
    requires IsRun(states, events, hash) && i < |states|
    ensures WithinLimits(states[i]) && states[i].limits == states[0].limits
  {
    if i > 0 {
      RepliesStayWithinLimits(states, events, hash, i - 1);
      RunKeepsInv(states, events, hash, i - 1);
      StepStaysWithinLimits(states[i - 1], events[i - 1], hash);
      assert states[(i - 1) + 1] == Next(states[i - 1], events[i - 1], hash);
    }
  }
}
