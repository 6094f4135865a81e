// Live settings: overrides over the configuration file, and the form that edits them.
module Settings {
  import opened Options
  import opened Text

  datatype Value = Flag(on: bool) | Whole(n: int) | Percent(x: real)

  datatype Setting =
    | DrainManual
    | Autodrain
    | MaxParallel
    | AgentTimeout
    | BudgetOf(risk: string)
    | FiveHour
    | SevenDay

  datatype Config = Config(
    maxParallel: int,
    timeout: int,
    classes: seq<string>,
    budgets: map<string, int>,
    fiveHour: real,
    sevenDay: real,
    proactive: bool
  )

  type Overrides = map<string, Value>

  // ---------------------------------------------------------------- keys

  function KeyOf(s: Setting): string {
    match s
    case DrainManual => "drain.manual"
    case Autodrain => "governor.autodrenaj"
    case MaxParallel => "max_parallel_agents"
    case AgentTimeout => "agent_timeout_s"
    case BudgetOf(risk) => "budget." + risk
    case FiveHour => "governor.five_hour_threshold_pct"
    case SevenDay => "governor.seven_day_threshold_pct"
  }

  predicate IsWritable(key: string) {
    || key in {"max_parallel_agents", "agent_timeout_s", "governor.five_hour_threshold_pct",
               "governor.seven_day_threshold_pct", "governor.autodrenaj", "drain.manual"}
    || StartsWith(key, "budget.")
  }

  // The first two letters and the last one tell the fixed keys apart.
  lemma {:induction false} KeysDiffer(s: Setting, t: Setting)
    ensures KeyOf(s) == KeyOf(t) <==> s == t
    ensures IsWritable(KeyOf(s))
  {
    BudgetKey(s);
    BudgetKey(t);
    if s.BudgetOf? {
      assert KeyOf(s)[..7] == "budget.";
      if t.BudgetOf? {
        assert KeyOf(s)[7..] == s.risk && KeyOf(t)[7..] == t.risk;
      }
    } else if !t.BudgetOf? && s != t {
      FixedKeysDiffer(s, t);
    }
  }

  lemma {:induction false} BudgetKey(s: Setting)
    ensures (KeyOf(s)[0] == 'b') == s.BudgetOf?
  {
  }

  lemma {:induction false} FixedKeysDiffer(s: Setting, t: Setting)
    requires !s.BudgetOf? && !t.BudgetOf? && s != t
    ensures KeyOf(s) != KeyOf(t)
  {
    assert |KeyOf(DrainManual)| == 12 && |KeyOf(Autodrain)| == 19 && |KeyOf(MaxParallel)| == 19;
    assert |KeyOf(AgentTimeout)| == 15 && |KeyOf(FiveHour)| == 32 && |KeyOf(SevenDay)| == 32;
    assert KeyOf(Autodrain)[0] == 'g' && KeyOf(MaxParallel)[0] == 'm';
    assert KeyOf(FiveHour)[9] == 'f' && KeyOf(SevenDay)[9] == 's';
  }

  // ---------------------------------------------------------------- effective values

  // Python's conversions of a stored value.
  function AsInt(v: Value): int {
    match v
    case Flag(on) => if on then 1 else 0
    case Whole(n) => n
    case Percent(x) => if x >= 0.0 then x.Floor else -(-x).Floor
  }

  function AsFloat(v: Value): real {
    match v
    case Percent(x) => x
    case Whole(n) => n as real
    case Flag(on) => if on then 1.0 else 0.0
  }

  function AsBool(v: Value): bool {
    match v
    case Flag(on) => on
    case Whole(n) => n != 0
    case Percent(x) => x != 0.0
  }

  // A stored override wins over the file's value. A class in neither has no budget.
  function Effective(o: Overrides, cfg: Config, s: Setting): Option<Value> {
    var stored := if KeyOf(s) in o then Some(o[KeyOf(s)]) else None;
    match s
    case DrainManual => Some(Flag(stored.Some? && AsBool(stored.value)))
    case Autodrain => Some(Flag(if stored.Some? then AsBool(stored.value) else cfg.proactive))
    case MaxParallel => Some(Whole(if stored.Some? then AsInt(stored.value) else cfg.maxParallel))
    case AgentTimeout => Some(Whole(if stored.Some? then AsInt(stored.value) else cfg.timeout))
    case BudgetOf(risk) =>
      if stored.Some? then Some(Whole(AsInt(stored.value)))
      else if risk in cfg.budgets then Some(Whole(cfg.budgets[risk]))
      else None
    case FiveHour => Some(Percent(if stored.Some? then AsFloat(stored.value) else cfg.fiveHour))
    case SevenDay => Some(Percent(if stored.Some? then AsFloat(stored.value) else cfg.sevenDay))
  }

  // ---------------------------------------------------------------- one submitted form

  // What the guards look at, and how the form's numbers are read.
  datatype Env = Env(
    running: int,
    consumed: map<string, int>,
    readInt: string -> Option<int>,
    readFloat: string -> Option<real>
  )

  type Form = map<string, string>

  datatype Refusal =
    | NotPositive(s: Setting, raw: string)
    | BelowRunning(wanted: int, running: int)
    | BelowConsumed(risk: string, wanted: int, consumed: int)
    | NotPercent(s: Setting, raw: string)
    | UnknownKey(key: string)

  datatype Submission = Absent | Refused(why: Refusal) | Wanted(value: Value)

  function ParsePositive(env: Env, raw: string): Option<int> {
    var v := env.readInt(raw);
    if v.Some? && v.value > 0 then v else None
  }

  function ParsePercent(env: Env, raw: string): Option<real> {
    var v := env.readFloat(raw);
    if v.Some? && 0.0 < v.value <= 100.0 then v else None
  }

  // What the form says about one setting.
  function Submitted(form: Form, env: Env, s: Setting): Submission {
    match s
    case DrainManual =>
      if "drain_manual" in form then Wanted(Flag(form["drain_manual"] == "drenaj")) else Absent
    case Autodrain =>
      if "autodrenaj_submitted" in form then Wanted(Flag("autodrenaj" in form)) else Absent
    case MaxParallel => SubmittedParallel(form, env)
    case AgentTimeout => SubmittedTimeout(form, env)
    case BudgetOf(risk) => SubmittedBudget(form, env, risk)
    case FiveHour => SubmittedPercent(form, env, s, "gov_5h")
    case SevenDay => SubmittedPercent(form, env, s, "gov_7d")
  }

  function SubmittedParallel(form: Form, env: Env): Submission {
    if "max_parallel" !in form then Absent
    else
      match ParsePositive(env, form["max_parallel"])
      case None => Refused(NotPositive(MaxParallel, form["max_parallel"]))
      case Some(v) => if v < env.running then Refused(BelowRunning(v, env.running)) else Wanted(Whole(v))
  }

  function SubmittedTimeout(form: Form, env: Env): Submission {
    if "agent_timeout" !in form then Absent
    else
      match ParsePositive(env, form["agent_timeout"])
      case None => Refused(NotPositive(AgentTimeout, form["agent_timeout"]))
      case Some(v) => Wanted(Whole(v))
  }

  function SubmittedBudget(form: Form, env: Env, risk: string): Submission {
    if "budget_" + risk !in form then Absent
    else
      match ParsePositive(env, form["budget_" + risk])
      case None => Refused(NotPositive(BudgetOf(risk), form["budget_" + risk]))
      case Some(v) =>
        if risk in env.consumed && v < env.consumed[risk] then Refused(BelowConsumed(risk, v, env.consumed[risk]))
        else Wanted(Whole(v))
  }

  function SubmittedPercent(form: Form, env: Env, s: Setting, field: string): Submission {
    if field !in form then Absent
    else
      match ParsePercent(env, form[field])
      case None => Refused(NotPercent(s, form[field]))
      case Some(x) => Wanted(Percent(x))
  }

  // ---------------------------------------------------------------- what a form leads to

  datatype Write = Write(key: string, value: Value)

  // The settings a form can touch, in the order they are checked.
  function Budgets(classes: seq<string>): seq<Setting> {
    if classes == [] then [] else Budgets(classes[..|classes| - 1]) + [BudgetOf(classes[|classes| - 1])]
  }

  function AllSettings(cfg: Config): seq<Setting> {
    [DrainManual, Autodrain, MaxParallel, AgentTimeout] + Budgets(cfg.classes) + [FiveHour] + [SevenDay]
  }

  function RefusalOf(form: Form, env: Env, s: Setting): seq<Refusal> {
    match Submitted(form, env, s) case Refused(why) => [why] case _ => []
  }

  // Only a change against the value in force is written.
  function WriteOf(form: Form, env: Env, o: Overrides, cfg: Config, s: Setting): seq<Write> {
    match Submitted(form, env, s)
    case Wanted(v) => if Some(v) == Effective(o, cfg, s) then [] else [Write(KeyOf(s), v)]
    case _ => []
  }

  function Refusals(form: Form, env: Env, settings: seq<Setting>): seq<Refusal> {
    if settings == [] then []
    else Refusals(form, env, settings[..|settings| - 1]) + RefusalOf(form, env, settings[|settings| - 1])
  }

  function Writes(form: Form, env: Env, o: Overrides, cfg: Config, settings: seq<Setting>): seq<Write> {
    if settings == [] then []
    else Writes(form, env, o, cfg, settings[..|settings| - 1]) + WriteOf(form, env, o, cfg, settings[|settings| - 1])
  }

  // ---------------------------------------------------------------- table and audit log

  datatype Audit = Audit(key: string, was: Option<Value>, now: Value)

  function Get(o: Overrides, key: string): Option<Value> {
    if key in o then Some(o[key]) else None
  }

  function Applied(o: Overrides, writes: seq<Write>): Overrides {
    if writes == [] then o
    else Applied(o, writes[..|writes| - 1])[writes[|writes| - 1].key := writes[|writes| - 1].value]
  }

  // The events of one submission quote the values from before it.
  function AuditsOf(o: Overrides, writes: seq<Write>): (r: seq<Audit>)
    ensures |r| == |writes|
  {
    if writes == [] then []
    else
      var last := writes[|writes| - 1];
      AuditsOf(o, writes[..|writes| - 1]) + [Audit(last.key, Get(o, last.key), last.value)]
  }

  function Replay(log: seq<Audit>): Overrides {
    if log == [] then map[] else Replay(log[..|log| - 1])[log[|log| - 1].key := log[|log| - 1].now]
  }

  // The latest new value recorded for a key.
  function LatestNew(log: seq<Audit>, key: string): Option<Value> {
    if log == [] then None
    else if log[|log| - 1].key == key then Some(log[|log| - 1].now)
    else LatestNew(log[..|log| - 1], key)
  }

  predicate Chained(log: seq<Audit>) {
    forall i :: 0 <= i < |log| ==> log[i].was == LatestNew(log[..i], log[i].key)
  }

  datatype State = State(table: Overrides, log: seq<Audit>)

  predicate Inv(s: State) {
    s.table == Replay(s.log) && Chained(s.log)
  }

  function Posted(s: State, form: Form, env: Env, cfg: Config): State {
    if Refusals(form, env, AllSettings(cfg)) != [] then s
    else
      var writes := Writes(form, env, s.table, cfg, AllSettings(cfg));
      State(Applied(s.table, writes), s.log + AuditsOf(s.table, writes))
  }

  // ---------------------------------------------------------------- no two writes share a key

  predicate DistinctSettings(settings: seq<Setting>) {
    forall i, j :: 0 <= i < j < |settings| ==> settings[i] != settings[j]
  }

  predicate DistinctKeys(writes: seq<Write>) {
    forall i, j :: 0 <= i < j < |writes| ==> writes[i].key != writes[j].key
  }

  predicate SoundConfig(cfg: Config) {
    forall i, j :: 0 <= i < j < |cfg.classes| ==> cfg.classes[i] != cfg.classes[j]
  }

  lemma {:induction false} BudgetAt(classes: seq<string>)
    ensures |Budgets(classes)| == |classes|
    ensures forall i :: 0 <= i < |classes| ==> Budgets(classes)[i] == BudgetOf(classes[i])
  {
    if classes != [] {
      BudgetAt(classes[..|classes| - 1]);
    }
  }

  lemma {:induction false} SettingsAreDistinct(cfg: Config)
    requires SoundConfig(cfg)
    ensures DistinctSettings(AllSettings(cfg))
  {
    BudgetAt(cfg.classes);
  }

  lemma {:induction false} WritesFit(form: Form, env: Env, o: Overrides, cfg: Config, settings: seq<Setting>,
                                     w: Write)
    ensures w in Writes(form, env, o, cfg, settings)
            <==> exists s :: s in settings && w in WriteOf(form, env, o, cfg, s)
  {
    if settings != [] {
      var init, last := settings[..|settings| - 1], settings[|settings| - 1];
      assert settings == init + [last];
      WritesFit(form, env, o, cfg, init, w);
    }
  }

  lemma {:induction false} OtherKey(form: Form, env: Env, o: Overrides, cfg: Config, settings: seq<Setting>,
                                    t: Setting, w: Write)
    requires w in Writes(form, env, o, cfg, settings) && t !in settings
    ensures w.key != KeyOf(t)
  {
    WritesFit(form, env, o, cfg, settings, w);
    var s :| s in settings && w in WriteOf(form, env, o, cfg, s);
    KeysDiffer(s, t);
  }

  lemma {:induction false} KeysStayDistinct(form: Form, env: Env, o: Overrides, cfg: Config, settings: seq<Setting>)
    requires DistinctSettings(settings)
    ensures DistinctKeys(Writes(form, env, o, cfg, settings))
  {
    if settings != [] {
      var init, last := settings[..|settings| - 1], settings[|settings| - 1];
      KeysStayDistinct(form, env, o, cfg, init);
      var before := Writes(form, env, o, cfg, init);
      forall i | 0 <= i < |before|
        ensures before[i].key != KeyOf(last)
      {
        OtherKey(form, env, o, cfg, init, last, before[i]);
      }
    }
  }

  // ---------------------------------------------------------------- effects of one submission

  lemma {:induction false} AppliedAt(o: Overrides, writes: seq<Write>, key: string)
    requires DistinctKeys(writes)
    ensures forall w :: w in writes && w.key == key ==> Get(Applied(o, writes), key) == Some(w.value)
    ensures (forall w :: w in writes ==> w.key != key) ==> Get(Applied(o, writes), key) == Get(o, key)
  {
    if writes != [] {
      var init, last := writes[..|writes| - 1], writes[|writes| - 1];
      assert writes == init + [last];
      AppliedAt(o, init, key);
    }
  }

  lemma {:induction false} WantedTakesEffect(form: Form, env: Env, o: Overrides, cfg: Config, s: Setting)
    requires Submitted(form, env, s).Wanted?
    requires Get(o, KeyOf(s)) == Some(Submitted(form, env, s).value)
    ensures Effective(o, cfg, s) == Some(Submitted(form, env, s).value)
  {
  }

  lemma {:induction false} OnlyOwnKeyMatters(o: Overrides, p: Overrides, cfg: Config, s: Setting)
    requires Get(o, KeyOf(s)) == Get(p, KeyOf(s))
    ensures Effective(o, cfg, s) == Effective(p, cfg, s)
  {
  }

  lemma {:induction false} OwnWrite(form: Form, env: Env, o: Overrides, cfg: Config, s: Setting, w: Write)
    requires w in Writes(form, env, o, cfg, AllSettings(cfg)) && w.key == KeyOf(s)
    ensures s in AllSettings(cfg) && w in WriteOf(form, env, o, cfg, s)
  {
    WritesFit(form, env, o, cfg, AllSettings(cfg), w);
    var t :| t in AllSettings(cfg) && w in WriteOf(form, env, o, cfg, t);
    KeysDiffer(s, t);
  }

  // What the table holds under a setting's key after the writes.
  lemma {:induction false} StoredAfter(form: Form, env: Env, o: Overrides, cfg: Config, s: Setting)
    requires SoundConfig(cfg)
    ensures Get(Applied(o, Writes(form, env, o, cfg, AllSettings(cfg))), KeyOf(s))
         == if s in AllSettings(cfg) && WriteOf(form, env, o, cfg, s) != [] then Some(Submitted(form, env, s).value)
            else Get(o, KeyOf(s))
  {
    var writes := Writes(form, env, o, cfg, AllSettings(cfg));
    SettingsAreDistinct(cfg);
    KeysStayDistinct(form, env, o, cfg, AllSettings(cfg));
    AppliedAt(o, writes, KeyOf(s));
    if s in AllSettings(cfg) && WriteOf(form, env, o, cfg, s) != [] {
      WritesFit(form, env, o, cfg, AllSettings(cfg), WriteOf(form, env, o, cfg, s)[0]);
    } else {
      forall w | w in writes
        ensures w.key != KeyOf(s)
      {
        if w.key == KeyOf(s) {
          OwnWrite(form, env, o, cfg, s, w);
        }
      }
    }
  }

  lemma {:induction false} EffectiveAfter(form: Form, env: Env, o: Overrides, after: Overrides, cfg: Config,
                                          s: Setting, known: bool)
    requires Get(after, KeyOf(s))
          == if known && WriteOf(form, env, o, cfg, s) != [] then Some(Submitted(form, env, s).value)
              else Get(o, KeyOf(s))
    ensures Effective(after, cfg, s)
         == if known && Submitted(form, env, s).Wanted? then Some(Submitted(form, env, s).value)
             else Effective(o, cfg, s)
  {
    if known && WriteOf(form, env, o, cfg, s) != [] {
      WantedTakesEffect(form, env, after, cfg, s);
    } else {
      OnlyOwnKeyMatters(o, after, cfg, s);
    }
  }

  // The value in force after an accepted form: the submitted one where one was submitted,
  // the old one everywhere else.
  lemma {:induction false} AcceptedFormTakesEffect(st: State, form: Form, env: Env, cfg: Config, s: Setting)
    requires SoundConfig(cfg) && Refusals(form, env, AllSettings(cfg)) == []
    ensures Effective(Posted(st, form, env, cfg).table, cfg, s)
         == if s in AllSettings(cfg) && Submitted(form, env, s).Wanted? then Some(Submitted(form, env, s).value)
            else Effective(st.table, cfg, s)
  {
    StoredAfter(form, env, st.table, cfg, s);
    EffectiveAfter(form, env, st.table, Posted(st, form, env, cfg).table, cfg, s, s in AllSettings(cfg));
  }

  lemma {:induction false} NothingToWrite(form: Form, env: Env, o: Overrides, cfg: Config, settings: seq<Setting>)
    requires forall s :: s in settings && Submitted(form, env, s).Wanted? ==>
            Effective(o, cfg, s) == Some(Submitted(form, env, s).value)
    ensures Writes(form, env, o, cfg, settings) == []
  {
    if settings != [] {
      assert settings[|settings| - 1] in settings;
      NothingToWrite(form, env, o, cfg, settings[..|settings| - 1]);
    }
  }

  // Numbers are read the same way both times; the guards may look at other loads.
  ghost predicate SameReading(a: Env, b: Env) {
    forall raw :: a.readInt(raw) == b.readInt(raw) && a.readFloat(raw) == b.readFloat(raw)
  }

  lemma {:induction false} SameValueWanted(form: Form, a: Env, b: Env, s: Setting)
    requires SameReading(a, b) && Submitted(form, a, s).Wanted? && Submitted(form, b, s).Wanted?
    ensures Submitted(form, a, s) == Submitted(form, b, s)
  {
  }

  lemma {:induction false} NoRefusals(form: Form, env: Env, settings: seq<Setting>, s: Setting)
    requires Refusals(form, env, settings) == [] && s in settings
    ensures !Submitted(form, env, s).Refused?
  {
    var init, last := settings[..|settings| - 1], settings[|settings| - 1];
    assert settings == init + [last];
    if s != last {
      NoRefusals(form, env, init, s);
    }
  }

  lemma {:induction false} AbsenceIsInTheForm(form: Form, a: Env, b: Env, s: Setting)
    ensures Submitted(form, a, s).Absent? <==> Submitted(form, b, s).Absent?
  {
  }

  // Sending an accepted form again writes nothing, whatever the load is by then.
  lemma {:induction false} RepeatWritesNothing(st: State, form: Form, env: Env, later: Env, cfg: Config)
    requires SoundConfig(cfg) && Refusals(form, env, AllSettings(cfg)) == [] && SameReading(env, later)
    ensures Posted(Posted(st, form, env, cfg), form, later, cfg) == Posted(st, form, env, cfg)
  {
    var once := Posted(st, form, env, cfg);
    forall s | s in AllSettings(cfg) && Submitted(form, later, s).Wanted?
      ensures Effective(once.table, cfg, s) == Some(Submitted(form, later, s).value)
    {
      AcceptedFormTakesEffect(st, form, env, cfg, s);
      NoRefusals(form, env, AllSettings(cfg), s);
      AbsenceIsInTheForm(form, env, later, s);
      SameValueWanted(form, env, later, s);
    }
    NothingToWrite(form, later, once.table, cfg, AllSettings(cfg));
  }

  // ---------------------------------------------------------------- the log over any sequence of submissions

  lemma {:induction false} LatestIsReplayed(log: seq<Audit>, key: string)
    ensures LatestNew(log, key) == Get(Replay(log), key)
  {
    if log != [] {
      LatestIsReplayed(log[..|log| - 1], key);
    }
  }

  lemma {:induction false} OneMoreAudit(log: seq<Audit>, a: Audit)
    requires Chained(log) && a.was == Get(Replay(log), a.key)
    ensures Chained(log + [a]) && Replay(log + [a]) == Replay(log)[a.key := a.now]
  {
    assert (log + [a])[..|log|] == log;
    LatestIsReplayed(log, a.key);
    assert forall i :: 0 <= i < |log| ==> (log + [a])[..i] == log[..i];
  }

  lemma {:induction false} AuditsKeepInv(s: State, writes: seq<Write>)
    requires Inv(s) && DistinctKeys(writes)
    ensures Inv(State(Applied(s.table, writes), s.log + AuditsOf(s.table, writes)))
  {
    if writes == [] {
      assert s.log + [] == s.log;
    } else {
      var init, last := writes[..|writes| - 1], writes[|writes| - 1];
      AuditsKeepInv(s, init);
      AppliedAt(s.table, init, last.key);
      var log, a := s.log + AuditsOf(s.table, init), Audit(last.key, Get(s.table, last.key), last.value);
      OneMoreAudit(log, a);
      assert s.log + AuditsOf(s.table, writes) == log + [a];
    }
  }

  lemma {:induction false} PostedKeepsInv(s: State, form: Form, env: Env, cfg: Config)
    requires Inv(s) && SoundConfig(cfg)
    ensures Inv(Posted(s, form, env, cfg))
  {
    SettingsAreDistinct(cfg);
    KeysStayDistinct(form, env, s.table, cfg, AllSettings(cfg));
    AuditsKeepInv(s, Writes(form, env, s.table, cfg, AllSettings(cfg)));
  }

  // One submission: the form, the load it met, the configuration in force, whether its transaction committed.
  datatype Post = Post(form: Form, env: Env, cfg: Config, committed: bool)

  function After(posts: seq<Post>): State {
    if posts == [] then State(map[], [])
    else
      var s, p := After(posts[..|posts| - 1]), posts[|posts| - 1];
      if p.committed then Posted(s, p.form, p.env, p.cfg) else s
  }

  // Any sequence of submissions, with restarts on other configurations and failed transactions
  // between them: the audit events chain, and replaying them gives the override table.
  lemma {:induction false} LogReplaysToTable(posts: seq<Post>)
    requires forall p :: p in posts ==> SoundConfig(p.cfg)
    ensures Chained(After(posts).log) && Replay(After(posts).log) == After(posts).table
  {
    if posts != [] {
      var s, p := After(posts[..|posts| - 1]), posts[|posts| - 1];
      assert p in posts;
      LogReplaysToTable(posts[..|posts| - 1]);
      PostedKeepsInv(s, p.form, p.env, p.cfg);
    }
  }

  // ---------------------------------------------------------------- the guards and the values, spelled out

  // A field that is sent holds a number of at least `least`, and a positive one.
  predicate WholeGuard(form: Form, env: Env, field: string, least: int) {
    field in form ==>
      && env.readInt(form[field]).Some? && env.readInt(form[field]).value > 0
      && env.readInt(form[field]).value >= least
  }

  predicate PercentGuard(form: Form, env: Env, field: string) {
    field in form ==> env.readFloat(form[field]).Some? && 0.0 < env.readFloat(form[field]).value <= 100.0
  }

  // What a class has consumed, or nothing to guard.
  function ConsumedBy(env: Env, risk: string): int {
    if risk in env.consumed then env.consumed[risk] else 1
  }

  lemma {:induction false} RefusalsJoin(form: Form, env: Env, settings: seq<Setting>)
    ensures Refusals(form, env, settings) == [] <==>
            forall s :: s in settings ==> !Submitted(form, env, s).Refused?
  {
    if settings != [] {
      var init, last := settings[..|settings| - 1], settings[|settings| - 1];
      assert settings == init + [last];
      RefusalsJoin(form, env, init);
    }
  }

  lemma {:induction false} SettingsOf(cfg: Config, s: Setting)
    ensures s in AllSettings(cfg) <==> s.BudgetOf? ==> s.risk in cfg.classes
  {
    BudgetAt(cfg.classes);
    if s.BudgetOf? && s.risk in cfg.classes {
      var i :| 0 <= i < |cfg.classes| && cfg.classes[i] == s.risk;
      assert AllSettings(cfg)[4 + i] == s;
    }
    var all := AllSettings(cfg);
    assert all[0] == DrainManual && all[1] == Autodrain && all[2] == MaxParallel && all[3] == AgentTimeout;
    assert all[4 + |cfg.classes|] == FiveHour && all[5 + |cfg.classes|] == SevenDay;
  }

  // The guard on each setting.
  predicate InOrder(form: Form, env: Env, s: Setting) {
    match s
    case MaxParallel => WholeGuard(form, env, "max_parallel", env.running)
    case AgentTimeout => WholeGuard(form, env, "agent_timeout", 1)
    case BudgetOf(risk) => WholeGuard(form, env, "budget_" + risk, ConsumedBy(env, risk))
    case FiveHour => PercentGuard(form, env, "gov_5h")
    case SevenDay => PercentGuard(form, env, "gov_7d")
    case _ => true
  }

  lemma {:induction false} RefusedOutOfOrder(form: Form, env: Env, s: Setting)
    ensures Submitted(form, env, s).Refused? <==> !InOrder(form, env, s)
  {
  }

  lemma {:induction false} AllInOrder(form: Form, env: Env, cfg: Config)
    ensures Refusals(form, env, AllSettings(cfg)) == [] <==>
            forall s: Setting :: (s.BudgetOf? ==> s.risk in cfg.classes) ==> InOrder(form, env, s)
  {
    RefusalsJoin(form, env, AllSettings(cfg));
    forall s: Setting
      ensures s in AllSettings(cfg) <==> s.BudgetOf? ==> s.risk in cfg.classes
      ensures Submitted(form, env, s).Refused? <==> !InOrder(form, env, s)
    {
      SettingsOf(cfg, s);
      RefusedOutOfOrder(form, env, s);
    }
  }

  // A form goes through exactly when every number sent is readable and in range, the parallelism is not
  // below what runs, and no budget is below what a running stage of its class has consumed.
  lemma {:induction false} AcceptedExactly(form: Form, env: Env, cfg: Config)
    ensures Refusals(form, env, AllSettings(cfg)) == [] <==>
              && WholeGuard(form, env, "max_parallel", env.running) && WholeGuard(form, env, "agent_timeout", 1)
              && (forall risk :: risk in cfg.classes ==>
                    WholeGuard(form, env, "budget_" + risk, ConsumedBy(env, risk)))
              && PercentGuard(form, env, "gov_5h") && PercentGuard(form, env, "gov_7d")
  {
    AllInOrder(form, env, cfg);
    assert InOrder(form, env, MaxParallel) <==> WholeGuard(form, env, "max_parallel", env.running);
    assert InOrder(form, env, AgentTimeout) <==> WholeGuard(form, env, "agent_timeout", 1);
    assert InOrder(form, env, FiveHour) <==> PercentGuard(form, env, "gov_5h");
    assert InOrder(form, env, SevenDay) <==> PercentGuard(form, env, "gov_7d");
    assert forall risk :: InOrder(form, env, BudgetOf(risk)) <==>
                          WholeGuard(form, env, "budget_" + risk, ConsumedBy(env, risk));
  }

  // What is in force without an override is what the file says; a manual drain is then off.
  lemma {:induction false} FileValues(cfg: Config, risk: string)
    ensures Effective(map[], cfg, MaxParallel) == Some(Whole(cfg.maxParallel))
    ensures Effective(map[], cfg, AgentTimeout) == Some(Whole(cfg.timeout))
    ensures Effective(map[], cfg, FiveHour) == Some(Percent(cfg.fiveHour))
    ensures Effective(map[], cfg, SevenDay) == Some(Percent(cfg.sevenDay))
    ensures Effective(map[], cfg, Autodrain) == Some(Flag(cfg.proactive))
    ensures Effective(map[], cfg, DrainManual) == Some(Flag(false))
    ensures Effective(map[], cfg, BudgetOf(risk))
         == if risk in cfg.budgets then Some(Whole(cfg.budgets[risk])) else None
  {
  }

  // What an accepted form puts in force, field by field.
  lemma {:induction false} SubmittedValues(st: State, form: Form, env: Env, cfg: Config, risk: string)
    requires SoundConfig(cfg) && Refusals(form, env, AllSettings(cfg)) == [] && risk in cfg.classes
    ensures var now := Posted(st, form, env, cfg).table;
            && ("max_parallel" in form ==>
                  env.readInt(form["max_parallel"]).Some?
                  && Effective(now, cfg, MaxParallel) == Some(Whole(env.readInt(form["max_parallel"]).value)))
            && ("agent_timeout" in form ==>
                  env.readInt(form["agent_timeout"]).Some?
                  && Effective(now, cfg, AgentTimeout) == Some(Whole(env.readInt(form["agent_timeout"]).value)))
            && ("budget_" + risk in form ==>
                  env.readInt(form["budget_" + risk]).Some?
                  && Effective(now, cfg, BudgetOf(risk)) == Some(Whole(env.readInt(form["budget_" + risk]).value)))
            && ("gov_5h" in form ==>
                  env.readFloat(form["gov_5h"]).Some?
                  && Effective(now, cfg, FiveHour) == Some(Percent(env.readFloat(form["gov_5h"]).value)))
            && ("gov_7d" in form ==>
                  env.readFloat(form["gov_7d"]).Some?
                  && Effective(now, cfg, SevenDay) == Some(Percent(env.readFloat(form["gov_7d"]).value)))
            && ("drain_manual" in form ==>
                  Effective(now, cfg, DrainManual) == Some(Flag(form["drain_manual"] == "drenaj")))
            && ("autodrenaj_submitted" in form ==>
                  Effective(now, cfg, Autodrain) == Some(Flag("autodrenaj" in form)))
  {
    AcceptedExactly(form, env, cfg);
    forall s: Setting | s.BudgetOf? ==> s.risk == risk
      ensures Submitted(form, env, s).Wanted? ==>
                Effective(Posted(st, form, env, cfg).table, cfg, s) == Some(Submitted(form, env, s).value)
      ensures !Submitted(form, env, s).Refused?
    {
      SettingsOf(cfg, s);
      AcceptedFormTakesEffect(st, form, env, cfg, s);
      RefusalsJoin(form, env, AllSettings(cfg));
    }
    var parallel, timeout := Submitted(form, env, MaxParallel), Submitted(form, env, AgentTimeout);
    var budget, five := Submitted(form, env, BudgetOf(risk)), Submitted(form, env, FiveHour);
    var seven := Submitted(form, env, SevenDay);
    assert "max_parallel" in form ==> parallel == Wanted(Whole(env.readInt(form["max_parallel"]).value));
    assert "agent_timeout" in form ==> timeout == Wanted(Whole(env.readInt(form["agent_timeout"]).value));
    assert "budget_" + risk in form ==> budget == Wanted(Whole(env.readInt(form["budget_" + risk]).value));
    assert "gov_5h" in form ==> five == Wanted(Percent(env.readFloat(form["gov_5h"]).value));
    assert "gov_7d" in form ==> seven == Wanted(Percent(env.readFloat(form["gov_7d"]).value));
  }
}
