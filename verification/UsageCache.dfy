// Independent processes share one usage cache file. A call serves a fresh cache, fetches under a
// non-blocking file lock, or falls back to what it has. Times are whole seconds.
module UsageCache {
  import opened Options

  type CallId = nat
  type Raw = string

  datatype Entry = Entry(at: int, raw: Raw)

  // One call's arguments and what it finds outside the shared files.
  datatype Call = Call(now: int, freshTtl: int, maxStale: int, hasToken: bool, lockFileOpens: bool)

  datatype Answer =
    | Fetched(raw: Raw)
    | Fresh(entry: Entry)
    | StaleNoToken(entry: Entry)
    | StaleNoLockFile(entry: Entry)
    | StaleFetchFailed(entry: Entry)
    | LockBusy(entry: Entry)
    | Nothing

  // Where a call stands; `seen` is its local copy of the cache.
  datatype Phase =
    | Looked(call: Call, seen: Option<Entry>)
    | Locked(call: Call)
    | Fetching(call: Call, seen: Option<Entry>)
    | Writing(call: Call, seen: Option<Entry>, raw: Raw)
    | Releasing(call: Call, answer: Answer)
    | Returned(call: Call, answer: Answer)
    | Died

  datatype Write = Write(entry: Entry, freshTtl: int)

  datatype State = State(
    cache: Option<Entry>,
    lock: Option<CallId>,
    calls: map<CallId, Phase>,
    writes: seq<Write>,
    fetched: nat,
    lostWrites: nat)

  datatype Event =
    | Start(c: CallId, call: Call)
    | TryLock(c: CallId)
    | Reread(c: CallId)
    | FetchFails(c: CallId)
    | FetchSucceeds(c: CallId, raw: Raw)
    | WriteBack(c: CallId, ok: bool)
    | Release(c: CallId)
    | Die(c: CallId)

  predicate IsFresh(call: Call, seen: Option<Entry>) {
    seen.Some? && call.now - seen.value.at < call.freshTtl
  }

  predicate IsUsable(call: Call, seen: Option<Entry>) {
    seen.Some? && call.now - seen.value.at < call.maxStale
  }

  // The part of a call before the lock: the first look at the cache and the ways out that need no lock.
  function FirstLook(call: Call, cache: Option<Entry>): Phase {
    if IsFresh(call, cache) then Returned(call, Fresh(cache.value))
    else if !call.hasToken then
      Returned(call, if IsUsable(call, cache) then StaleNoToken(cache.value) else Nothing)
    else if !call.lockFileOpens then
      Returned(call, if IsUsable(call, cache) then StaleNoLockFile(cache.value) else Nothing)
    else Looked(call, cache)
  }

  function Step(s: State, e: Event): State {
    if e.Start? then
      if e.c in s.calls then s
      else s.(calls := s.calls[e.c := FirstLook(e.call, s.cache)])
    else if e.c !in s.calls then s
    else
      var phase := s.calls[e.c];
      match e
      case TryLock(c) =>
        if !phase.Looked? then s
        else if s.lock == None then s.(lock := Some(c), calls := s.calls[c := Locked(phase.call)])
        else s.(calls := s.calls[c := Returned(phase.call, if phase.seen.Some? then LockBusy(phase.seen.value)
            else Nothing)])
      case Reread(c) =>
        if !phase.Locked? then s
        else if IsFresh(phase.call, s.cache) then s.(calls := s.calls[c := Releasing(phase.call, Fresh(s.cache.value))])
        else s.(calls := s.calls[c := Fetching(phase.call, s.cache)])
      case FetchFails(c) =>
        if !phase.Fetching? then s
        else
          var answer := if IsUsable(phase.call, phase.seen) then StaleFetchFailed(phase.seen.value) else Nothing;
          s.(calls := s.calls[c := Releasing(phase.call, answer)])
      case FetchSucceeds(c, raw) =>
        if !phase.Fetching? then s
        else s.(fetched := s.fetched + 1, calls := s.calls[c := Writing(phase.call, phase.seen, raw)])
      case WriteBack(c, ok) =>
        if !phase.Writing? then s
        else
          var next := s.(calls := s.calls[c := Releasing(phase.call, Fetched(phase.raw))]);
          var entry := Entry(phase.call.now, phase.raw);
          if ok then next.(cache := Some(entry), writes := s.writes + [Write(entry, phase.call.freshTtl)])
          else next.(lostWrites := s.lostWrites + 1)
      case Release(c) =>
        if !phase.Releasing? then s
        else s.(lock := None, calls := s.calls[c := Returned(phase.call, phase.answer)])
      case Die(c) =>
        if phase.Returned? || phase.Died? then s
        else s.(lock := if s.lock == Some(c) then None else s.lock,
                lostWrites := s.lostWrites + if phase.Writing? then 1 else 0,
                calls := s.calls[c := Died])
  }

  function Run(s: State, es: seq<Event>): State {
    if es == [] then s else Step(Run(s, es[..|es| - 1]), es[|es| - 1])
  }

  predicate Initial(s: State) {
    s.lock == None && s.calls == map[] && s.writes == [] && s.fetched == 0 && s.lostWrites == 0
  }

  // ---------------------------------------------------------------- what every step keeps

  predicate HoldsLock(phase: Phase) {
    phase.Locked? || phase.Fetching? || phase.Writing? || phase.Releasing?
  }

  ghost predicate Known(first: Option<Entry>, s: State, entry: Entry) {
    first == Some(entry) || exists i :: 0 <= i < |s.writes| && s.writes[i].entry == entry
  }

  predicate FromCache(a: Answer) {
    !a.Fetched? && !a.Nothing?
  }

  // An answer taken from the cache is as young as its path promises.
  predicate YoungEnough(call: Call, a: Answer) {
    match a
    case Fresh(entry) => call.now - entry.at < call.freshTtl
    case StaleNoToken(entry) => !call.hasToken && call.now - entry.at < call.maxStale
    case StaleNoLockFile(entry) => !call.lockFileOpens && call.now - entry.at < call.maxStale
    case StaleFetchFailed(entry) => call.now - entry.at < call.maxStale
    case _ => true
  }

  ghost predicate PhaseOk(first: Option<Entry>, s: State, c: CallId, phase: Phase) {
    && (HoldsLock(phase) <==> s.lock == Some(c))
    && (phase.Looked? && phase.seen.Some? ==> Known(first, s, phase.seen.value))
    && (phase.Fetching? || phase.Writing? ==> phase.seen == s.cache && !IsFresh(phase.call, phase.seen))
    && (phase.Releasing? ==> !phase.answer.LockBusy?)
    && (phase.Releasing? || phase.Returned? ==>
          && YoungEnough(phase.call, phase.answer)
          && (FromCache(phase.answer) ==> Known(first, s, phase.answer.entry)))
  }

  ghost predicate Spaced(writes: seq<Write>) {
    forall i :: 0 <= i < |writes| - 1 ==>
      writes[i + 1].entry.at - writes[i].entry.at >= writes[i + 1].freshTtl
  }

  ghost predicate Inv(first: Option<Entry>, s: State) {
    && (s.lock.Some? ==> s.lock.value in s.calls)
    && (forall c :: c in s.calls ==> PhaseOk(first, s, c, s.calls[c]))
    && (s.cache == if s.writes == [] then first else Some(s.writes[|s.writes| - 1].entry))
    && Spaced(s.writes)
    && s.fetched == |s.writes| + s.lostWrites + (if s.lock.Some? && s.calls[s.lock.value].Writing? then 1 else 0)
  }

  // Steps that leave the cache file alone: it is enough that the stepping call's own phase stays right.
  lemma {:induction false} OneCallMoves(first: Option<Entry>, s: State, t: State, c: CallId)
    requires Inv(first, s)
    requires t.cache == s.cache && t.writes == s.writes && c in t.calls && t.calls == s.calls[c := t.calls[c]]
    requires PhaseOk(first, t, c, t.calls[c])
    requires t.lock == s.lock || (s.lock == None && t.lock == Some(c)) || (s.lock == Some(c) && t.lock == None)
    requires t.fetched == |t.writes| + t.lostWrites + (if t.lock.Some? && t.calls[t.lock.value].Writing? then 1 else 0)
    ensures Inv(first, t)
  {
    assert forall entry :: Known(first, t, entry) == Known(first, s, entry);
    forall d | d in t.calls ensures PhaseOk(first, t, d, t.calls[d]) {
      assert d != c ==> PhaseOk(first, s, d, s.calls[d]);
    }
  }

  lemma {:induction false} StartKeepsInv(first: Option<Entry>, s: State, c: CallId, call: Call)
    requires Inv(first, s)
    ensures Inv(first, Step(s, Start(c, call)))
  {
    var t := Step(s, Start(c, call));
    if t != s {
      assert forall entry :: Known(first, t, entry) == Known(first, s, entry);
      CacheIsKnown(first, s);
      OneCallMoves(first, s, t, c);
    }
  }

  lemma {:induction false} QuietStepKeepsInv(first: Option<Entry>, s: State, e: Event)
    requires Inv(first, s) && !e.WriteBack? && !e.Start?
    ensures Inv(first, Step(s, e))
  {
    var t := Step(s, e);
    if t != s {
      assert forall entry :: Known(first, t, entry) == Known(first, s, entry);
      CacheIsKnown(first, s);
      assert PhaseOk(first, s, e.c, s.calls[e.c]);
      assert s.lock.Some? ==> PhaseOk(first, s, s.lock.value, s.calls[s.lock.value]);
      OneCallMoves(first, s, t, e.c);
    }
  }

  lemma {:induction false} CacheIsKnown(first: Option<Entry>, s: State)
    requires Inv(first, s)
    ensures s.cache.Some? ==> Known(first, s, s.cache.value)
  {
    if s.writes != [] {
      assert s.writes[|s.writes| - 1].entry == s.cache.value;
    }
  }

  lemma {:induction false} WriteBackKeepsInv(first: Option<Entry>, s: State, c: CallId, ok: bool)
    requires Inv(first, s)
    ensures Inv(first, Step(s, WriteBack(c, ok)))
  {
    var t := Step(s, WriteBack(c, ok));
    if c in s.calls && s.calls[c].Writing? {
      assert PhaseOk(first, s, c, s.calls[c]);
      forall entry | Known(first, s, entry) ensures Known(first, t, entry) {
        if first != Some(entry) {
          var i :| 0 <= i < |s.writes| && s.writes[i].entry == entry;
          assert t.writes[i].entry == entry;
        }
      }
      forall d | d in t.calls ensures PhaseOk(first, t, d, t.calls[d]) {
        assert PhaseOk(first, s, d, s.calls[d]);
      }
    }
  }

  lemma {:induction false} RunKeepsInv(s: State, es: seq<Event>)
    requires Initial(s)
    ensures Inv(s.cache, Run(s, es))
  {
    if es != [] {
      var r, e := Run(s, es[..|es| - 1]), es[|es| - 1];
      RunKeepsInv(s, es[..|es| - 1]);
      if e.WriteBack? {
        WriteBackKeepsInv(s.cache, r, e.c, e.ok);
      } else if e.Start? {
        StartKeepsInv(s.cache, r, e.c, e.call);
      } else {
        QuietStepKeepsInv(s.cache, r, e);
      }
    }
  }

  // ---------------------------------------------------------------- the promises

  // At most one call fetches at a time.
  lemma {:induction false} OneFetchInFlight(s: State, es: seq<Event>, c: CallId, d: CallId)
    requires Initial(s)
    requires c in Run(s, es).calls && Run(s, es).calls[c].Fetching?
    requires d in Run(s, es).calls && Run(s, es).calls[d].Fetching?
    ensures c == d
  {
    RunKeepsInv(s, es);
    assert PhaseOk(s.cache, Run(s, es), c, Run(s, es).calls[c]);
    assert PhaseOk(s.cache, Run(s, es), d, Run(s, es).calls[d]);
  }

  lemma {:induction false} SpacingAddsUp(writes: seq<Write>, i: nat, j: nat, ttl: nat)
    requires Spaced(writes) && i <= j < |writes|
    requires forall k :: i <= k <= j ==> writes[k].freshTtl >= ttl
    ensures (j - i) * ttl <= writes[j].entry.at - writes[i].entry.at
    decreases j
  {
    if i < j {
      SpacingAddsUp(writes, i, j - 1, ttl);
      assert writes[(j - 1) + 1].freshTtl >= ttl;
      assert (j - i) * ttl == (j - 1 - i) * ttl + ttl;
    }
  }

  // Rate bound: writes whose timestamps span at most `span` seconds number at most span / ttl + 1.
  lemma {:induction false} WriteRate(s: State, es: seq<Event>, i: nat, j: nat, ttl: nat, span: int)
    requires Initial(s) && i <= j < |Run(s, es).writes| && ttl > 0
    requires forall k :: i <= k <= j ==> Run(s, es).writes[k].freshTtl >= ttl
    requires Run(s, es).writes[j].entry.at - Run(s, es).writes[i].entry.at <= span
    ensures j - i + 1 <= span / ttl + 1
  {
    RunKeepsInv(s, es);
    SpacingAddsUp(Run(s, es).writes, i, j, ttl);
    QuotientBound(j - i, ttl, span);
  }

  lemma {:induction false} QuotientBound(n: nat, ttl: nat, span: int)
    requires ttl > 0 && n * ttl <= span
    ensures n <= span / ttl
  {
    var q := span / ttl;
    assert n > q ==> n * ttl >= (q + 1) * ttl;
  }

  // With no lost write and no fetch result still in hand, the same bound holds for successful fetches.
  lemma {:induction false} FetchRate(s: State, es: seq<Event>, ttl: nat, span: int)
    requires Initial(s) && ttl > 0
    requires var r := Run(s, es);
             && r.lostWrites == 0 && (r.lock.Some? && r.lock.value in r.calls ==> !r.calls[r.lock.value].Writing?)
             && (forall k :: 0 <= k < |r.writes| ==> r.writes[k].freshTtl >= ttl)
             && r.writes != [] && r.writes[|r.writes| - 1].entry.at - r.writes[0].entry.at <= span
    ensures Run(s, es).fetched <= span / ttl + 1
  {
    RunKeepsInv(s, es);
    WriteRate(s, es, 0, |Run(s, es).writes| - 1, ttl, span);
  }

  // What a call returns was just fetched, or stood in the cache file and is as young as its path promises.
  lemma {:induction false} AnswersAreHonest(s: State, es: seq<Event>, c: CallId)
    requires Initial(s) && c in Run(s, es).calls && Run(s, es).calls[c].Returned?
    ensures var r := Run(s, es);
            var answer := r.calls[c].answer;
            && YoungEnough(r.calls[c].call, answer)
            && (FromCache(answer) ==> Known(s.cache, r, answer.entry))
  {
    RunKeepsInv(s, es);
    assert PhaseOk(s.cache, Run(s, es), c, Run(s, es).calls[c]);
  }

  // A failed fetch never blinds a caller that holds a value young enough for it.
  lemma {:induction false} FailedFetchIsBridged(s: State, c: CallId, call: Call, entry: Entry)
    requires c in s.calls && s.calls[c] == Fetching(call, Some(entry)) && call.now - entry.at < call.maxStale
    ensures Step(s, FetchFails(c)).calls[c] == Releasing(call, StaleFetchFailed(entry))
    ensures Step(Step(s, FetchFails(c)), Release(c)).calls[c] == Returned(call, StaleFetchFailed(entry))
  {
  }

  // At one of the steps of call `c` the cache file held nothing young enough for `call`.
  ghost predicate WasBare(s: State, es: seq<Event>, c: CallId, call: Call) {
    exists i :: 0 <= i < |es| && BareAt(s, es, i, c, call)
  }

  ghost predicate BareAt(s: State, es: seq<Event>, i: nat, c: CallId, call: Call)
    requires i < |es|
  {
    var t := Run(s, es[..i]);
    && es[i].c == c && (es[i].Start? || c in t.calls)
    && (t.cache == None || call.now - t.cache.value.at >= call.maxStale)
  }

  lemma {:induction false} WasBareStays(s: State, es: seq<Event>, e: Event, c: CallId, call: Call)
    requires WasBare(s, es, c, call)
    ensures WasBare(s, es + [e], c, call)
  {
    var i :| 0 <= i < |es| && BareAt(s, es, i, c, call);
    assert (es + [e])[..i] == es[..i];
    assert BareAt(s, es + [e], i, c, call);
  }

  // A call that has nothing to serve, now or if the lock is busy.
  predicate EmptyHanded(phase: Phase) {
    || (phase.Looked? && phase.seen == None)
    || ((phase.Releasing? || phase.Returned?) && phase.answer.Nothing?)
  }

  lemma {:induction false} BecomesEmptyHanded(first: Option<Entry>, s: State, e: Event, c: CallId)
    requires Inv(first, s) && c in Step(s, e).calls && EmptyHanded(Step(s, e).calls[c])
    requires c in s.calls ==> !EmptyHanded(s.calls[c])
    ensures e.c == c && (e.Start? || c in s.calls)
    ensures var call := Step(s, e).calls[c].call;
            s.cache == None || call.now - s.cache.value.at >= call.maxStale
  {
    if c in s.calls {
      assert PhaseOk(first, s, c, s.calls[c]);
    }
  }

  lemma {:induction false} CallsKeepTheirArguments(s: State, e: Event, c: CallId)
    requires c in s.calls && !Step(s, e).calls[c].Died?
    ensures !s.calls[c].Died? && Step(s, e).calls[c].call == s.calls[c].call
  {
  }

  lemma {:induction false} EmptyHandsSawABareCache(s: State, es: seq<Event>, c: CallId)
    requires Initial(s) && c in Run(s, es).calls && EmptyHanded(Run(s, es).calls[c])
    ensures WasBare(s, es, c, Run(s, es).calls[c].call)
  {
    if es != [] {
      var init, e := es[..|es| - 1], es[|es| - 1];
      var r := Run(s, init);
      var call := Step(r, e).calls[c].call;
      assert es == init + [e];
      RunKeepsInv(s, init);
      if c in r.calls && EmptyHanded(r.calls[c]) {
        EmptyHandsSawABareCache(s, init, c);
        CallsKeepTheirArguments(r, e, c);
        WasBareStays(s, init, e, c, call);
      } else {
        BecomesEmptyHanded(s.cache, r, e, c);
        assert es[..|init|] == init && BareAt(s, es, |init|, c, call);
      }
    }
  }

  // No caller is blinded without need: over every run, a call that returns nothing met, at one of its own
  // steps, a cache without a value young enough for it.
  lemma {:induction false} NothingOnlyFromABareCache(s: State, es: seq<Event>, c: CallId) returns (i: nat)
    requires Initial(s) && c in Run(s, es).calls && Run(s, es).calls[c].Returned?
    requires Run(s, es).calls[c].answer.Nothing?
    ensures i < |es| && es[i].c == c && (es[i].Start? || c in Run(s, es[..i]).calls)
    ensures var call, cache := Run(s, es).calls[c].call, Run(s, es[..i]).cache;
            cache == None || call.now - cache.value.at >= call.maxStale
  {
    EmptyHandsSawABareCache(s, es, c);
    var call := Run(s, es).calls[c].call;
    i :| 0 <= i < |es| && BareAt(s, es, i, c, call);
  }

  // An answer from the cache at or beyond the age a caller accepts.
  predicate TooOld(call: Call, a: Answer) {
    FromCache(a) && call.now - a.entry.at >= call.maxStale
  }

  // What a caller can see beforehand: a token, a lock file, another holder of the lock, and a cache that old.
  predicate OldWhileBusy(call: Call, seen: Option<Entry>, busy: bool) {
    busy && call.hasToken && call.lockFileOpens && seen.Some? && call.now - seen.value.at >= call.maxStale
  }

  // One step of a call that found the cache `seen`: asking for the lock returns an answer that is too old
  // exactly when somebody holds the lock and `seen` is that old.
  lemma {:induction false} BusyLockReturnsTooOld(s: State, c: CallId, call: Call, seen: Option<Entry>)
    requires c in s.calls && s.calls[c] == Looked(call, seen)
    ensures var phase := Step(s, TryLock(c)).calls[c];
            (phase.Returned? && TooOld(call, phase.answer)) <==>
              s.lock.Some? && seen.Some? && call.now - seen.value.at >= call.maxStale
  {
  }

  predicate ReturnsTooOld(s: State, c: CallId) {
    c in s.calls && s.calls[c].Returned? && TooOld(s.calls[c].call, s.calls[c].answer)
  }

  // No other step of any run does, for callers that accept what counts as fresh: an answer becomes too
  // old exactly on asking for a lock somebody holds, with a cache that old in hand.
  lemma {:induction false} OnlyBusyLocksAge(s: State, es: seq<Event>, e: Event, c: CallId)
    requires Initial(s) && !ReturnsTooOld(Run(s, es), c)
    requires c in Step(Run(s, es), e).calls && Step(Run(s, es), e).calls[c].Returned?
    requires var call := Step(Run(s, es), e).calls[c].call;
             call.freshTtl <= call.maxStale
    ensures var r := Run(s, es);
            ReturnsTooOld(Step(r, e), c) <==>
              && e == TryLock(c) && c in r.calls && r.calls[c].Looked? && r.lock.Some?
              && r.calls[c].seen.Some? && r.calls[c].call.now - r.calls[c].seen.value.at >= r.calls[c].call.maxStale
  {
    var r := Run(s, es);
    RunKeepsInv(s, es);
    if c in r.calls {
      assert PhaseOk(s.cache, r, c, r.calls[c]);
    }
    if e == TryLock(c) && c in r.calls && r.calls[c].Looked? {
      BusyLockReturnsTooOld(r, c, r.calls[c].call, r.calls[c].seen);
    } else if c in r.calls && r.calls[c].Returned? {
      assert Step(r, e).calls[c] == r.calls[c];
    } else {
      OtherWaysAreYoung(s.cache, r, e, c);
    }
  }

  lemma {:induction false} OtherWaysAreYoung(first: Option<Entry>, s: State, e: Event, c: CallId)
    requires Inv(first, s) && c in Step(s, e).calls && Step(s, e).calls[c].Returned?
    requires c in s.calls ==> !s.calls[c].Returned? && !(e == TryLock(c) && s.calls[c].Looked?)
    ensures YoungEnough(Step(s, e).calls[c].call, Step(s, e).calls[c].answer)
    ensures !Step(s, e).calls[c].answer.LockBusy?
  {
    if c in s.calls {
      assert PhaseOk(first, s, c, s.calls[c]);
    }
  }

  // Only the lock-busy path has no age bound: whatever the bound, some run returns an older value.
  lemma {:induction false} LockBusyIsUnbounded(call: Call, raw: Raw, age: nat) returns (s: State, es: seq<Event>)
    requires call.hasToken && call.lockFileOpens && age >= call.freshTtl
    ensures Initial(s)
    ensures 1 in Run(s, es).calls && Run(s, es).calls[1].Returned?
    ensures var answer := Run(s, es).calls[1].answer;
            answer.LockBusy? && call.now - answer.entry.at == age
  {
    s := State(Some(Entry(call.now - age, raw)), None, map[], [], 0, 0);
    es := [Start(0, call), Start(1, call), TryLock(0), TryLock(1)];
    assert es[..3] == [Start(0, call), Start(1, call), TryLock(0)] && es[..3][..2] == [Start(0, call), Start(1, call)]
           && es[..3][..2][..1] == [Start(0, call)] && es[..3][..2][..1][..0] == [];
    var a := Step(s, Start(0, call));
    assert Run(s, [Start(0, call)]) == a;
    var b := Step(a, Start(1, call));
    assert Run(s, es[..3][..2]) == b;
    var d := Step(b, TryLock(0));
    assert Run(s, es[..3]) == d;
    assert Run(s, es) == Step(d, TryLock(1));
  }

  // ---------------------------------------------------------------- one call, start to finish

  // The steps of a call that nobody interrupts. A step that does not apply changes nothing, so the one
  // list covers every path through the function.
  function CallSteps(c: CallId, call: Call, fetched: Option<Raw>, writeOk: bool): seq<Event> {
    [Start(c, call), TryLock(c), Reread(c),
     if fetched.Some? then FetchSucceeds(c, fetched.value) else FetchFails(c),
     WriteBack(c, writeOk), Release(c)]
  }

  function Steps(s: State, c: CallId, call: Call, fetched: Option<Raw>, writeOk: bool): State {
    var s1 := Step(s, Start(c, call));
    var s2 := Step(s1, TryLock(c));
    var s3 := Step(s2, Reread(c));
    var s4 := Step(s3, if fetched.Some? then FetchSucceeds(c, fetched.value) else FetchFails(c));
    Step(Step(s4, WriteBack(c, writeOk)), Release(c))
  }

  lemma {:induction false} StepsAreARun(s: State, c: CallId, call: Call, fetched: Option<Raw>, writeOk: bool)
    ensures Run(s, CallSteps(c, call, fetched, writeOk)) == Steps(s, c, call, fetched, writeOk)
  {
    var es := CallSteps(c, call, fetched, writeOk);
    assert es[..5][..4] == es[..4] && es[..4][..3] == es[..3] && es[..3][..2] == es[..2] && es[..2][..1] == es[..1];
    assert es[..1][..0] == [];
    assert Run(s, es[..1]) == Step(s, es[0]);
    assert Run(s, es[..2]) == Step(Run(s, es[..1]), es[1]);
    assert Run(s, es[..3]) == Step(Run(s, es[..2]), es[2]);
    assert Run(s, es[..4]) == Step(Run(s, es[..3]), es[3]);
    assert Run(s, es[..5]) == Step(Run(s, es[..4]), es[4]);
    assert Run(s, es) == Step(Run(s, es[..5]), es[5]);
  }

  function ServeFresh(seen: Option<Entry>): Answer {
    if seen.Some? then Fresh(seen.value) else Nothing
  }

  function AnswerTo(cache: Option<Entry>, busy: bool, call: Call, result: Option<Raw>): Answer {
    if IsFresh(call, cache) then Fresh(cache.value)
    else if !call.hasToken then if IsUsable(call, cache) then StaleNoToken(cache.value) else Nothing
    else if !call.lockFileOpens then if IsUsable(call, cache) then StaleNoLockFile(cache.value) else Nothing
    else if busy then if cache.Some? then LockBusy(cache.value) else Nothing
    else if result.Some? then Fetched(result.value)
    else if IsUsable(call, cache) then StaleFetchFailed(cache.value)
    else Nothing
  }

  // A whole call returns a value that is too old exactly when the caller has a token and a lock file,
  // somebody holds the lock, and the cache is that old; or when the caller's own limits contradict each
  // other and the cache counts as fresh although it is that old.
  lemma {:induction false} TooOldExactlyWhenBusy(cache: Option<Entry>, busy: bool, call: Call, result: Option<Raw>)
    ensures TooOld(call, AnswerTo(cache, busy, call, result)) <==>
              OldWhileBusy(call, cache, busy) || (IsFresh(call, cache) && !IsUsable(call, cache))
    ensures call.freshTtl <= call.maxStale ==>
              (TooOld(call, AnswerTo(cache, busy, call, result)) <==> OldWhileBusy(call, cache, busy))
  {
  }

  // A whole call, seen from outside.
  function Served(s: State, c: CallId, call: Call, result: Option<Raw>, writeOk: bool): State {
    var answer := AnswerTo(s.cache, s.lock != None, call, result);
    var t := s.(calls := s.calls[c := Returned(call, answer)]);
    var entry := Entry(call.now, if result.Some? then result.value else "");
    if !answer.Fetched? then t
    else if writeOk then
      t.(fetched := s.fetched + 1, cache := Some(entry), writes := s.writes + [Write(entry, call.freshTtl)])
    else t.(fetched := s.fetched + 1, lostWrites := s.lostWrites + 1)
  }

  lemma {:induction false} EarlyReturn(s: State, c: CallId, call: Call, result: Option<Raw>, writeOk: bool)
    requires c !in s.calls && (FirstLook(call, s.cache).Returned? || s.lock != None)
    ensures Served(s, c, call, result, writeOk) == Steps(s, c, call, result, writeOk)
  {
    var s2 := Step(Step(s, Start(c, call)), TryLock(c));
    assert s2.calls == s.calls[c := Returned(call, AnswerTo(s.cache, s.lock != None, call, result))];
  }

  lemma {:induction false} UnderLock(s: State, c: CallId, call: Call, result: Option<Raw>, writeOk: bool)
    requires c !in s.calls && FirstLook(call, s.cache).Looked? && s.lock == None
    ensures Served(s, c, call, result, writeOk) == Steps(s, c, call, result, writeOk)
  {
    var s3 := Step(Step(Step(s, Start(c, call)), TryLock(c)), Reread(c));
    assert s3 == s.(lock := Some(c), calls := s.calls[c := Fetching(call, s.cache)]);
    var end := Steps(s, c, call, result, writeOk);
    assert end.calls == s.calls[c := Returned(call, AnswerTo(s.cache, false, call, result))];
  }

  // An uninterrupted call is a run of the protocol, so the promises above cover it.
  lemma {:induction false} ServedIsARun(s: State, c: CallId, call: Call, result: Option<Raw>, writeOk: bool)
    requires c !in s.calls
    ensures Served(s, c, call, result, writeOk) == Run(s, CallSteps(c, call, result, writeOk))
  {
    StepsAreARun(s, c, call, result, writeOk);
    if FirstLook(call, s.cache).Returned? || s.lock != None {
      EarlyReturn(s, c, call, result, writeOk);
    } else {
      UnderLock(s, c, call, result, writeOk);
    }
  }

  class SharedCache {
    var cache: Option<Entry>
    var lock: Option<CallId>
    var calls: map<CallId, Phase>
    var writes: seq<Write>
    var fetched: nat
    var lostWrites: nat

    constructor (found: Option<Entry>)
      ensures Initial(Now()) && cache == found
    {
      cache, lock, calls, writes, fetched, lostWrites := found, None, map[], [], 0, 0;
    }

    function Now(): State
      reads this
    {
      State(cache, lock, calls, writes, fetched, lostWrites)
    }

    // `get_usage` for one caller: `result` is what the endpoint would answer, absent on failure.
    method GetUsage(c: CallId, call: Call, result: Option<Raw>, writeOk: bool) returns (answer: Answer)
      requires c !in calls
      modifies this
      ensures answer.Fresh? <==> old(cache).Some? && call.now - old(cache).value.at < call.freshTtl
      ensures answer.Fetched? <==> && !answer.Fresh? && call.hasToken && call.lockFileOpens && old(lock) == None
                                   && result.Some?
      ensures answer.Fetched? ==> answer.raw == result.value
      ensures old(cache).Some? && call.now - old(cache).value.at < call.maxStale ==> !answer.Nothing?
      ensures var busy := call.hasToken && call.lockFileOpens && old(lock).Some?;
              answer.Nothing? <==>
                && !answer.Fetched? && !answer.Fresh?
                && (old(cache).Some? ==> !busy && call.now - old(cache).value.at >= call.maxStale)
      ensures FromCache(answer) ==> old(cache) == Some(answer.entry)
      ensures cache == if answer.Fetched? && writeOk then Some(Entry(call.now, result.value)) else old(cache)
      ensures lock == old(lock) && calls == old(calls)[c := Returned(call, answer)]
      ensures Now() == Served(old(Now()), c, call, result, writeOk)
      ensures answer == AnswerTo(old(cache), old(lock) != None, call, result)
    {
      var seen := cache;
      if IsFresh(call, seen) {
        answer := Fresh(seen.value);
      } else if !call.hasToken {
        answer := if IsUsable(call, seen) then StaleNoToken(seen.value) else Nothing;
      } else if !call.lockFileOpens {
        answer := if IsUsable(call, seen) then StaleNoLockFile(seen.value) else Nothing;
      } else if lock != None {
        answer := if seen.Some? then LockBusy(seen.value) else Nothing;
      } else {
        lock := Some(c);
        seen := cache;
        if IsFresh(call, seen) {
          answer := ServeFresh(seen);
        } else if result.None? {
          answer := if IsUsable(call, seen) then StaleFetchFailed(seen.value) else Nothing;
        } else {
          fetched := fetched + 1;
          var entry := Entry(call.now, result.value);
          if writeOk {
            cache, writes := Some(entry), writes + [Write(entry, call.freshTtl)];
          } else {
            lostWrites := lostWrites + 1;
          }
          answer := Fetched(result.value);
        }
        lock := None;
      }
      calls := calls[c := Returned(call, answer)];
    }
  }
}
