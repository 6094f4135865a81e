// The code between suspension points: the recording transaction, and the dashboard's own sections.
module DecisionServer {
  import opened Options
  import opened Transcript
  import opened Decisions

  class Database {
    var shared: Shared

    constructor (shared: Shared)
      ensures this.shared == shared
    {
      this.shared := shared;
    }

    // Hash the file and get or create its reference. A missing file cannot be hashed; the source raises
    // that as an error of the family the answer path catches, like a refused answer.
    method RegisterArtifact(hash: string -> int, path: Path, sha: CommitId) returns (key: Option<RefKey>)
      modifies this
      ensures key.Some? <==> path in old(shared.files)
      ensures key.Some? ==> key.value == KeyNow(old(shared), hash, path) && key.value in shared.refs
      ensures shared
           == old(shared).(refs := if key.Some? then Register(old(shared.refs), key.value, sha) else old(shared.refs))
    {
      if path !in shared.files {
        return None;
      }
      var found := RefKey(path, hash(shared.files[path]));
      if found !in shared.refs {
        shared := shared.(refs := shared.refs[found := sha]);
      }
      key := Some(found);
    }

    // Answers a pending request; anything else is refused.
    method AnswerDecision(r: RequestId, answer: string) returns (ok: bool)
      modifies this
      ensures ok == Pending(old(shared), r)
      ensures !ok ==> shared == old(shared)
      ensures ok ==>
                shared == old(shared).(
                  requests := old(shared.requests)[r := old(shared.requests)[r].(answer := Some(answer))])
    {
      ok := r in shared.requests && shared.requests[r].answer.None?;
      if ok {
        shared := shared.(requests := shared.requests[r := shared.requests[r].(answer := Some(answer))]);
      }
    }

    // One transaction: the references, the answer, the event. Rolled back as a whole.
    method RecordAnswer(hash: string -> int, r: RequestId, answer: string, caller: Caller, transcript: bool,
                        sha: CommitId) returns (ok: bool)
      modifies this
      ensures ok <==> && r in old(shared.requests) && old(shared.requests[r].answer) == None
                      && AnswerFile(r) in old(shared.files) && (transcript ==> TranscriptFile(r) in old(shared.files))
      ensures shared.files == old(shared.files) && shared.commits == old(shared.commits)
      ensures ok ==> shared.requests == old(shared.requests)[r := old(shared.requests[r]).(answer := Some(answer))]
      ensures ok ==> RefKey(AnswerFile(r), hash(shared.files[AnswerFile(r)])) in shared.refs
      ensures ok && !transcript ==> shared.log == old(shared.log) + [DecisionAnswered(r, answer, caller, None)]
      ensures ok && transcript ==>
                var key := RefKey(TranscriptFile(r), hash(shared.files[TranscriptFile(r)]));
                && key in shared.refs
                && shared.log == old(shared.log) + [DecisionAnswered(r, answer, caller, Some(key))]
      ensures forall k :: k in old(shared.refs) ==> k in shared.refs && shared.refs[k] == old(shared.refs)[k]
      ensures forall k :: k in shared.refs && k !in old(shared.refs) ==>
                shared.refs[k] == sha && k.path in PathsOf(r, transcript)
      ensures ok ==> shared == Recorded(old(shared), hash, r, answer, caller, transcript, sha)
      ensures !ok ==> shared == old(shared)
    {
      var before := shared;
      assert AnswerFile(r) in PathsOf(r, transcript) && (transcript ==> TranscriptFile(r) in PathsOf(r, transcript));
      var ref := RegisterArtifact(hash, AnswerFile(r), sha);
      if ref.None? {
        shared := before;
        return false;
      }
      var tref := None;
      if transcript {
        tref := RegisterArtifact(hash, TranscriptFile(r), sha);
        if tref.None? {
          shared := before;
          return false;
        }
      }
      ok := AnswerDecision(r, answer);
      if !ok {
        shared := before;
        return;
      }
      shared := shared.(log := shared.log + [DecisionAnswered(r, answer, caller, tref)]);
    }
  }

  // What the recording section leaves: the winner's state, or the loser's with the stored answer.
  function Finished(s: State, c: CallId, hash: string -> int): State
    requires c in s.calls && s.calls[c].at.Pinned?
  {
    var call := s.calls[c];
    if Pending(s.db, call.r) && CanRegister(s.db, call.r, call.at.transcript) then
      Leave(s, c, Answered(call.option)).(
        db := Recorded(s.db, hash, call.r, call.option, Dashboard(c), call.at.transcript, call.at.sha))
    else if call.r in s.db.requests && s.db.requests[call.r].answer.Some? then
      Leave(s, c, Already(s.db.requests[call.r].answer.value))
    else Leave(s, c, Error)
  }

  // It is one step of the protocol, or two.
  lemma {:induction false} FinishIsSteps(s: State, c: CallId, hash: string -> int)
    requires c in s.calls && s.calls[c].at.Pinned?
    ensures Enabled(s, Record(c)) ==> Finished(s, c, hash) == Next(s, Record(c), hash)
    ensures Enabled(s, Rollback(c)) && Enabled(Next(s, Rollback(c), hash), Reread(c))
    ensures !Enabled(s, Record(c)) ==> Finished(s, c, hash) == Next(Next(s, Rollback(c), hash), Reread(c), hash)
  {
    LosingIsTwoSteps(s, c, hash);
  }

  lemma {:induction false} LosingIsTwoSteps(s: State, c: CallId, hash: string -> int)
    requires c in s.calls && s.calls[c].at.Pinned?
    ensures Enabled(s, Rollback(c)) && Enabled(Next(s, Rollback(c), hash), Reread(c))
    ensures !Enabled(s, Record(c)) ==> Finished(s, c, hash) == Next(Next(s, Rollback(c), hash), Reread(c), hash)
  {
    assert Next(s, Rollback(c), hash) == Move(s, c, Lost);
  }

  class Server {
    const db: Database
    const limits: Limits
    var serving: bool
    var holder: Option<CallId>
    var answering: set<RequestId>
    var sessions: map<RequestId, Decisions.Session>
    var tasks: map<TaskId, Task>
    var calls: map<CallId, Call>

    // The other processes' runs are seen only through the database.
    function Snapshot(runs: map<RunId, Decide>): State
      reads this, db
    {
      State(db.shared, limits, holder, answering, sessions, tasks, calls, runs)
    }

    constructor (db: Database, limits: Limits)
      ensures this.db == db && this.limits == limits && !serving && holder == None && answering == {}
              && sessions == map[] && tasks == map[] && calls == map[]
    {
      this.db, this.limits, serving := db, limits, false;
      holder, answering, sessions, tasks, calls := None, {}, map[], map[], map[];
    }

    function Remembered(r: RequestId): Decisions.Session
      reads this
    {
      if r in sessions then sessions[r] else Decisions.Session(false, false, None, 0, 0)
    }

    method AppendTranscript(r: RequestId, title: string, turn: Turn)
      modifies db
      ensures db.shared == old(db.shared).(files := AppendTurns(old(db.shared.files), r, title, [turn]))
      ensures TurnIsAdded(old(db.shared.files), db.shared.files, r, title, turn)
    {
      AppendAddsTurn(db.shared.files, r, title, turn);
      var path := TranscriptFile(r);
      var file := if path in db.shared.files then db.shared.files[path] else title + "\n";
      db.shared := db.shared.(files := db.shared.files[path := Append(file, turn.author, turn.text, turn.at)]);
      assert [turn][..0] == [];
    }

    // A founder's message starts one agent turn, unless it is empty, an answer is in flight, the request
    // is answered, the session is busy or locked or has used up a limit, or nobody serves turns. Running
    // into a limit locks the session; any other refusal changes nothing.
    method Post(r: RequestId, t: TaskId, title: string, turn: Turn, ghost hash: string -> int,
                ghost runs: map<RunId, Decide>) returns (ok: bool)
      requires t !in tasks
      modifies this, db
      ensures var was := old(Remembered(r));
              ok <==> && serving && turn.text != "" && r !in old(answering)
                      && r in old(db.shared.requests) && old(db.shared.requests[r].answer) == None
                      && !was.busy && !was.locked && was.replies < limits.turns && was.tokens < limits.tokens
      ensures ok ==> && TurnIsAdded(old(db.shared.files), db.shared.files, r, title, turn)
                     && db.shared == old(db.shared).(files := db.shared.files)
      ensures ok ==> && sessions == old(sessions)[r := old(Remembered(r)).(busy := true, turn := Some(t))]
                     && tasks == old(tasks)[t := Task(r, Scheduled)]
      ensures !ok ==> db.shared == old(db.shared) && tasks == old(tasks)
      ensures var was := old(Remembered(r));
              var atLimit := && turn.text != "" && r !in old(answering)
                             && r in old(db.shared.requests) && old(db.shared.requests[r].answer) == None
                             && !was.busy && !was.locked
                             && (was.replies >= limits.turns || was.tokens >= limits.tokens);
              !ok ==> sessions == if atLimit then old(sessions)[r := was.(locked := true)] else old(sessions)
      ensures answering == old(answering) && holder == old(holder) && calls == old(calls)
      ensures ok <==> serving && old(Enabled(Snapshot(runs), PostMessage(r, t, title, turn)))
      ensures ok ==> Snapshot(runs) == Next(old(Snapshot(runs)), PostMessage(r, t, title, turn), hash)
      ensures !ok ==> Snapshot(runs) == if turn.text != "" && old(Enabled(Snapshot(runs), Exhaust(r)))
                                        then Next(old(Snapshot(runs)), Exhaust(r), hash) else old(Snapshot(runs))
      ensures serving == old(serving)
    {
      if turn.text == "" {
        return false;
      }
      if r in answering {
        return false;
      }
      if r !in db.shared.requests || db.shared.requests[r].answer.Some? {
        return false;
      }
      var session := if r in sessions then sessions[r] else NewSession;
      if session.busy || session.locked {
        return false;
      }
      if session.replies >= limits.turns || session.tokens >= limits.tokens {
        sessions := sessions[r := session.(locked := true)];
        return false;
      }
      if !serving {
        return false;
      }
      AppendTranscript(r, title, turn);
      sessions := sessions[r := session.(busy := true, turn := Some(t))];
      tasks := tasks[t := Task(r, Scheduled)];
      ok := true;
    }

    method CloseTurn(session: Decisions.Session, tokens: nat, answered: bool) returns (after: Decisions.Session)
      ensures !after.busy && after.turn == None && after.tokens == session.tokens + tokens
      ensures after.replies == if answered then session.replies + 1 else session.replies
      ensures after.locked <==>
              session.locked || (answered && (after.replies >= limits.turns || after.tokens >= limits.tokens))
      ensures after == AfterTurn(limits, session, tokens, answered)
    {
      after := session.(tokens := session.tokens + tokens);
      if answered {
        after := after.(replies := after.replies + 1);
        if after.replies >= limits.turns || after.tokens >= limits.tokens {
          after := after.(locked := true);
        }
      }
      after := after.(busy := false, turn := None);
    }

    // The end of an agent turn: its reply, or a notice that it failed.
    method EndTurn(t: TaskId, title: string, reply: Option<Turn>, notice: Turn, tokens: nat,
                   ghost hash: string -> int, ghost runs: map<RunId, Decide>)
      requires t in tasks && tasks[t].at == Running
      modifies this, db
      ensures TurnIsAdded(old(db.shared.files), db.shared.files, old(tasks[t].r), title,
                          if reply.Some? then reply.value else notice)
      ensures db.shared == old(db.shared).(files := db.shared.files)
      ensures var r, was := old(tasks[t].r), old(Remembered(tasks[t].r));
              var now := Remembered(r);
              && sessions == old(sessions)[r := now] && tasks == old(tasks)[t := Task(r, Over)]
              && !now.busy && now.turn == None && now.tokens == was.tokens + tokens
              && now.replies == (if reply.Some? then was.replies + 1 else was.replies)
              && now.locked == (was.locked
                 || (reply.Some? && (now.replies >= limits.turns || now.tokens >= limits.tokens)))
      ensures answering == old(answering) && holder == old(holder) && calls == old(calls) && serving == old(serving)
      ensures Snapshot(runs)
           == Next(old(Snapshot(runs)),
                   TurnEnd(t, title, [if reply.Some? then reply.value else notice], tokens, reply.Some?), hash)
    {
      var r := tasks[t].r;
      var session := if r in sessions then sessions[r] else NewSession;
      AppendTranscript(r, title, if reply.Some? then reply.value else notice);
      session := CloseTurn(session, tokens, reply.Some?);
      sessions := sessions[r := session];
      tasks := tasks[t := Task(r, Over)];
    }

    // Under the lock: validate, then flag the request and pick up the turn to wait for.
    method BeginAnswer(c: CallId, ghost hash: string -> int, ghost runs: map<RunId, Decide>)
      requires c in calls && calls[c].at == Waiting && holder == None
      modifies this
      ensures sessions == old(sessions) && tasks == old(tasks) && c in calls
              && calls == old(calls)[c := old(calls[c]).(at := calls[c].at)]
      ensures var r, requests := old(calls[c].r), db.shared.requests;
              && (r !in requests ==> calls[c].at == Ended(Unknown))
              && (r in requests && requests[r].answer.Some? ==>
                    calls[c].at == Ended(Already(requests[r].answer.value)))
              && (r in requests && requests[r].answer.None? && old(calls[c].option) !in requests[r].allowed ==>
                    calls[c].at == Ended(Invalid))
              && (r in requests && requests[r].answer.None? && old(calls[c].option) in requests[r].allowed ==>
                    calls[c].at == Quiescing(Remembered(r).turn))
      ensures if calls[c].at.Quiescing? then holder == Some(c) && answering == old(answering) + {old(calls[c].r)}
              else holder == old(holder) && answering == old(answering)
      ensures Snapshot(runs) == Next(old(Snapshot(runs)), Enter(c), hash)
    {
      var r := calls[c].r;
      if r !in db.shared.requests {
        calls := calls[c := calls[c].(at := Ended(Unknown))];
        return;
      }
      var request := db.shared.requests[r];
      if request.answer.Some? {
        calls := calls[c := calls[c].(at := Ended(Already(request.answer.value)))];
        return;
      }
      if calls[c].option !in request.allowed {
        calls := calls[c := calls[c].(at := Ended(Invalid))];
        return;
      }
      holder := Some(c);
      answering := answering + {r};
      var turn := if r in sessions then sessions[r].turn else None;
      calls := calls[c := calls[c].(at := Quiescing(turn))];
    }

    // Clears the flag and gives up the lock.
    method EndAnswer(c: CallId, outcome: Outcome)
      requires c in calls
      modifies this
      ensures Snapshot(map[]) == Leave(old(Snapshot(map[])), c, outcome)
    {
      answering := answering - {calls[c].r};
      holder := None;
      calls := calls[c := calls[c].(at := Ended(outcome))];
    }

    // The recording section: the winner's step, or a rollback and a second look at the request.
    method FinishAnswer(c: CallId, hash: string -> int, ghost runs: map<RunId, Decide>)
      requires c in calls && calls[c].at.Pinned?
      modifies this, db
      ensures var r, before := old(calls[c].r), old(db.shared);
              var won := && r in before.requests && before.requests[r].answer == None && AnswerFile(r) in before.files
                         && (old(calls[c].at.transcript) ==> TranscriptFile(r) in before.files);
              && c in calls && calls == old(calls)[c := old(calls[c]).(at := calls[c].at)]
              && (won ==> calls[c].at == Ended(Answered(old(calls[c].option))) && r in db.shared.requests
                          && db.shared.requests[r].answer == Some(old(calls[c].option)))
              && (!won ==> db.shared == before)
              && (r in before.requests && before.requests[r].answer.Some? ==>
                    calls[c].at == Ended(Already(before.requests[r].answer.value)))
              && (!won && (r in before.requests ==> before.requests[r].answer == None) ==> calls[c].at == Ended(Error))
      ensures holder == None && answering == old(answering) - {old(calls[c].r)}
      ensures sessions == old(sessions) && tasks == old(tasks) && db.shared.files == old(db.shared.files)
      ensures Snapshot(runs) == Finished(old(Snapshot(runs)), c, hash)
    {
      var call := calls[c];
      var ok := db.RecordAnswer(hash, call.r, call.option, Dashboard(c), call.at.transcript, call.at.sha);
      var outcome := Answered(call.option);
      if !ok {
        outcome := Error;
        if call.r in db.shared.requests && db.shared.requests[call.r].answer.Some? {
          outcome := Already(db.shared.requests[call.r].answer.value);
        }
      }
      EndAnswer(c, outcome);
    }
  }
}
