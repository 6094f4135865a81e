// The write path of the settings form: check every field, then write the changes in one transaction.
module SettingsForm {
  import opened Options
  import opened Settings

  // What has been collected once `seen` is checked.
  ghost predicate Collected(form: Form, env: Env, o: Overrides, cfg: Config, seen: seq<Setting>, errors: seq<Refusal>,
                            writes: seq<Write>) {
    errors == Refusals(form, env, seen) && writes == Writes(form, env, o, cfg, seen)
  }

  lemma {:induction false} OneMoreField(form: Form, env: Env, o: Overrides, cfg: Config, seen: seq<Setting>,
                                        s: Setting, errors: seq<Refusal>, writes: seq<Write>)
    requires Collected(form, env, o, cfg, seen, errors, writes)
    ensures Collected(form, env, o, cfg, seen + [s], errors + RefusalOf(form, env, s),
                      writes + WriteOf(form, env, o, cfg, s))
  {
    assert (seen + [s])[..|seen|] == seen;
  }

  lemma {:induction false} Associative<T>(a: seq<T>, b: seq<T>, c: seq<T>)
    ensures (a + b) + c == a + (b + c)
  {
  }

  lemma {:induction false} TwoMoreFields(form: Form, env: Env, o: Overrides, cfg: Config, seen: seq<Setting>,
                                         s: Setting, t: Setting, errors: seq<Refusal>, writes: seq<Write>)
    requires Collected(form, env, o, cfg, seen, errors, writes)
    ensures Collected(form, env, o, cfg, seen + [s, t],
                      errors + (RefusalOf(form, env, s) + RefusalOf(form, env, t)),
                      writes + (WriteOf(form, env, o, cfg, s) + WriteOf(form, env, o, cfg, t)))
  {
    var e, f := RefusalOf(form, env, s), RefusalOf(form, env, t);
    var w, x := WriteOf(form, env, o, cfg, s), WriteOf(form, env, o, cfg, t);
    OneMoreField(form, env, o, cfg, seen, s, errors, writes);
    OneMoreField(form, env, o, cfg, seen + [s], t, errors + e, writes + w);
    Associative(seen, [s], [t]);
    assert [s] + [t] == [s, t];
    Associative(errors, e, f);
    Associative(writes, w, x);
  }

  lemma {:induction false} WritesAreWritable(form: Form, env: Env, o: Overrides, cfg: Config, settings: seq<Setting>)
    ensures forall w :: w in Writes(form, env, o, cfg, settings) ==> IsWritable(w.key)
  {
    if settings != [] {
      KeysDiffer(settings[|settings| - 1], settings[|settings| - 1]);
      WritesAreWritable(form, env, o, cfg, settings[..|settings| - 1]);
    }
  }

  lemma {:induction false} OneMoreBudget(classes: seq<string>, i: nat, seen: seq<Setting>)
    requires i < |classes|
    ensures seen + Budgets(classes[..i + 1]) == (seen + Budgets(classes[..i])) + [BudgetOf(classes[i])]
  {
    assert classes[..i + 1][..i] == classes[..i];
  }

  class SettingsDesk {
    const cfg: Config
    var table: Overrides
    var log: seq<Audit>

    constructor (cfg: Config)
      ensures this.cfg == cfg && Snapshot() == State(map[], []) && Inv(Snapshot())
    {
      this.cfg := cfg;
      table := map[];
      log := [];
      new;
      assert Inv(State(map[], []));
    }

    function Snapshot(): State
      reads this
    {
      State(table, log)
    }

    method CheckSwitches(form: Form, env: Env) returns (writes: seq<Write>)
      ensures Collected(form, env, table, cfg, [DrainManual, Autodrain], [], writes)
    {
      writes := [];
      if "drain_manual" in form {
        var wanted := Flag(form["drain_manual"] == "drenaj");
        if Some(wanted) != Effective(table, cfg, DrainManual) {
          writes := writes + [Write("drain.manual", wanted)];
        }
      }
      OneMoreField(form, env, table, cfg, [], DrainManual, [], []);
      ghost var first := writes;
      if "autodrenaj_submitted" in form {
        var wanted := Flag("autodrenaj" in form);
        if Some(wanted) != Effective(table, cfg, Autodrain) {
          writes := writes + [Write("governor.autodrenaj", wanted)];
        }
      }
      assert [] + [DrainManual] == [DrainManual];
      OneMoreField(form, env, table, cfg, [DrainManual], Autodrain, [], first);
      assert [DrainManual] + [Autodrain] == [DrainManual, Autodrain];
    }

    method CheckLimits(form: Form, env: Env) returns (errors: seq<Refusal>, writes: seq<Write>)
      ensures errors == RefusalOf(form, env, MaxParallel) + RefusalOf(form, env, AgentTimeout)
      ensures writes == WriteOf(form, env, table, cfg, MaxParallel) + WriteOf(form, env, table, cfg, AgentTimeout)
    {
      errors, writes := [], [];
      if "max_parallel" in form {
        var value := ParsePositive(env, form["max_parallel"]);
        if value.None? {
          errors := errors + [NotPositive(MaxParallel, form["max_parallel"])];
        } else if value.value < env.running {
          errors := errors + [BelowRunning(value.value, env.running)];
        } else if Some(Whole(value.value)) != Effective(table, cfg, MaxParallel) {
          writes := writes + [Write("max_parallel_agents", Whole(value.value))];
        }
      }
      if "agent_timeout" in form {
        var value := ParsePositive(env, form["agent_timeout"]);
        if value.None? {
          errors := errors + [NotPositive(AgentTimeout, form["agent_timeout"])];
        } else if Some(Whole(value.value)) != Effective(table, cfg, AgentTimeout) {
          writes := writes + [Write("agent_timeout_s", Whole(value.value))];
        }
      }
    }

    // One risk class's budget: not below what a running stage of the class has consumed.
    method CheckBudget(form: Form, env: Env, risk: string) returns (errors: seq<Refusal>, writes: seq<Write>)
      ensures errors == RefusalOf(form, env, BudgetOf(risk))
      ensures writes == WriteOf(form, env, table, cfg, BudgetOf(risk))
    {
      errors, writes := [], [];
      var field := "budget_" + risk;
      if field !in form {
        return;
      }
      var value := ParsePositive(env, form[field]);
      if value.None? {
        errors := [NotPositive(BudgetOf(risk), form[field])];
        return;
      }
      if risk in env.consumed && value.value < env.consumed[risk] {
        errors := [BelowConsumed(risk, value.value, env.consumed[risk])];
        return;
      }
      if Some(Whole(value.value)) != Effective(table, cfg, BudgetOf(risk)) {
        writes := [Write(KeyOf(BudgetOf(risk)), Whole(value.value))];
      }
    }

    method CheckPercent(form: Form, env: Env, field: string, s: Setting)
      returns (errors: seq<Refusal>, writes: seq<Write>)
      requires (s == FiveHour && field == "gov_5h") || (s == SevenDay && field == "gov_7d")
      ensures errors == RefusalOf(form, env, s) && writes == WriteOf(form, env, table, cfg, s)
    {
      errors, writes := [], [];
      if field !in form {
        return;
      }
      var value := ParsePercent(env, form[field]);
      if value.None? {
        errors := [NotPercent(s, form[field])];
      } else if Some(Percent(value.value)) != Effective(table, cfg, s) {
        writes := [Write(KeyOf(s), Percent(value.value))];
      }
    }

    method CheckFixed(form: Form, env: Env) returns (errors: seq<Refusal>, writes: seq<Write>)
      ensures Collected(form, env, table, cfg, [DrainManual, Autodrain, MaxParallel, AgentTimeout], errors, writes)
    {
      writes := CheckSwitches(form, env);
      var moreWrites;
      errors, moreWrites := CheckLimits(form, env);
      TwoMoreFields(form, env, table, cfg, [DrainManual, Autodrain], MaxParallel, AgentTimeout, [], writes);
      assert [DrainManual, Autodrain] + [MaxParallel, AgentTimeout]
          == [DrainManual, Autodrain, MaxParallel, AgentTimeout];
      assert [] + errors == errors;
      writes := writes + moreWrites;
    }

    method CheckBudgets(form: Form, env: Env, ghost seen: seq<Setting>, errors: seq<Refusal>, writes: seq<Write>)
      returns (allErrors: seq<Refusal>, allWrites: seq<Write>)
      requires Collected(form, env, table, cfg, seen, errors, writes)
      ensures Collected(form, env, table, cfg, seen + Budgets(cfg.classes), allErrors, allWrites)
    {
      allErrors, allWrites := errors, writes;
      assert seen + [] == seen;
      for i := 0 to |cfg.classes|
        invariant Collected(form, env, table, cfg, seen + Budgets(cfg.classes[..i]), allErrors, allWrites)
      {
        var more, changes := CheckBudget(form, env, cfg.classes[i]);
        ghost var before := seen + Budgets(cfg.classes[..i]);
        OneMoreField(form, env, table, cfg, before, BudgetOf(cfg.classes[i]), allErrors, allWrites);
        OneMoreBudget(cfg.classes, i, seen);
        allErrors, allWrites := allErrors + more, allWrites + changes;
      }
      assert cfg.classes[..|cfg.classes|] == cfg.classes;
    }

    method CheckForm(form: Form, env: Env) returns (errors: seq<Refusal>, writes: seq<Write>)
      ensures Collected(form, env, table, cfg, AllSettings(cfg), errors, writes)
    {
      errors, writes := CheckFixed(form, env);
      ghost var seen := [DrainManual, Autodrain, MaxParallel, AgentTimeout];
      errors, writes := CheckBudgets(form, env, seen, errors, writes);
      seen := seen + Budgets(cfg.classes);
      var fiveHour, writeFive := CheckPercent(form, env, "gov_5h", FiveHour);
      OneMoreField(form, env, table, cfg, seen, FiveHour, errors, writes);
      var sevenDay, writeSeven := CheckPercent(form, env, "gov_7d", SevenDay);
      OneMoreField(form, env, table, cfg, seen + [FiveHour], SevenDay, errors + fiveHour, writes + writeFive);
      errors, writes := errors + fiveHour + sevenDay, writes + writeFive + writeSeven;
    }

    // The allow-list, whatever was posted.
    method CheckKeys(writes: seq<Write>) returns (errors: seq<Refusal>)
      ensures errors == [] <==> forall w :: w in writes ==> IsWritable(w.key)
    {
      errors := [];
      for i := 0 to |writes|
        invariant errors == [] <==> forall j :: 0 <= j < i ==> IsWritable(writes[j].key)
      {
        if !IsWritable(writes[i].key) {
          errors := errors + [UnknownKey(writes[i].key)];
        }
      }
    }

    // The writes of one transaction, each with its event; the events quote the values from before it.
    method WriteAll(writes: seq<Write>)
      modifies this
      ensures table == Applied(old(table), writes) && log == old(log) + AuditsOf(old(table), writes)
    {
      var overrides := table;
      for i := 0 to |writes|
        invariant table == Applied(overrides, writes[..i]) && log == old(log) + AuditsOf(overrides, writes[..i])
      {
        assert writes[..i + 1][..i] == writes[..i];
        table := table[writes[i].key := writes[i].value];
        log := log + [Audit(writes[i].key, Get(overrides, writes[i].key), writes[i].value)];
      }
      assert writes[..|writes|] == writes;
    }

    // All or nothing: with any error the table and the log stay as they are.
    method UpdateSettings(form: Form, env: Env) returns (changed: nat, errors: seq<Refusal>)
      modifies this
      ensures errors == [] <==>
                && WholeGuard(form, env, "max_parallel", env.running) && WholeGuard(form, env, "agent_timeout", 1)
                && (forall risk :: risk in cfg.classes ==>
                      WholeGuard(form, env, "budget_" + risk, ConsumedBy(env, risk)))
                && PercentGuard(form, env, "gov_5h") && PercentGuard(form, env, "gov_7d")
      ensures errors != [] ==> table == old(table) && log == old(log)
      ensures errors == Refusals(form, env, AllSettings(cfg))
      ensures Snapshot() == Posted(old(Snapshot()), form, env, cfg)
      ensures changed == |log| - |old(log)|
      ensures SoundConfig(cfg) && old(Inv(Snapshot())) ==> Inv(Snapshot())
    {
      var writes;
      AcceptedExactly(form, env, cfg);
      errors, writes := CheckForm(form, env);
      WritesAreWritable(form, env, table, cfg, AllSettings(cfg));
      var unknown := CheckKeys(writes);
      errors := errors + unknown;
      changed := 0;
      if errors != [] {
        return;
      }
      WriteAll(writes);
      changed := |writes|;
      if SoundConfig(cfg) && old(Inv(Snapshot())) {
        PostedKeepsInv(old(Snapshot()), form, env, cfg);
      }
    }
  }
}
