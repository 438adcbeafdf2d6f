/** The log does not tell whether a call that was let through has run: beside a run that
    was killed in front of an effect stands one, with the same log, that was killed
    behind it. So what the log shows is all there is to go by before a rejection. */
module Siblings {
  import opened Events
  import opened Tools
  import opened Approvals
  import opened Reducer
  import opened ReducerSpec
  import opened Pipeline
  import opened Footprint
  import opened Invariants
  import opened Exclusivity
  import opened Justification
  import opened Attribution
  import opened Ordering
  import opened Deciding
  import opened Runs
  import opened Agreement
  import opened Boundaries
  import opened Gates

  // ---------------------------------------------------- one effect more, no more

  /** The same log and rows, and one effect more under `key`. */
  ghost predicate Twin(d: Durable, t: Durable, key: Key) {
    && t.log == d.log && t.rows == d.rows && t.dedup.Keys == d.dedup.Keys
    && forall k :: Count(t.ledger, k) == Count(d.ledger, k) + if k == key then 1 else 0
  }

  lemma {:induction false} ApplyTwin(d: Durable, t: Durable, key: Key, c: Commit)
    requires Twin(d, t, key)
    ensures Twin(Apply(d, c), Apply(t, c), key)
  {
    if c.ApplyEffect? {
      var e := EffectRow(c.key, c.operation, c.payload);
      forall k
        ensures Count(t.ledger + [e], k) == Count(d.ledger + [e], k) + if k == key then 1 else 0
      {
        CountAppend(d.ledger, e, k);
        CountAppend(t.ledger, e, k);
      }
    }
  }

  lemma {:induction false} ApplyAllTwin(d: Durable, t: Durable, key: Key, cs: seq<Commit>)
    requires Twin(d, t, key)
    ensures Twin(ApplyAll(d, cs), ApplyAll(t, cs), key)
    decreases |cs|
  {
    if cs != [] {
      ApplyTwin(d, t, key, cs[0]);
      ApplyAllTwin(Apply(d, cs[0]), Apply(t, cs[0]), key, cs[1..]);
    }
  }

  /** Log and rows are all that a call looks at. */
  lemma {:induction false} RowPlanReadsLogAndRows(cfg: Config, d: Durable, t: Durable, req: Request, env: Env)
    requires req.tool in cfg.registry && t.log == d.log && t.rows == d.rows
    ensures RowPlan(cfg, t, req, env) == RowPlan(cfg, d, req, env)
  {}

  lemma {:induction false} PlanReadsLogAndRows(cfg: Config, d: Durable, t: Durable, req: Request, env: Env)
    requires t.log == d.log && t.rows == d.rows
    ensures ExecutePlan(cfg, t, req, env) == ExecutePlan(cfg, d, req, env)
  {
    if req.tool in cfg.registry {
      var noted := if req.call in Reduce(d.log).open then [] else [Append(CallEvent(req))];
      ApplyOne(d, Append(CallEvent(req)));
      ApplyOne(t, Append(CallEvent(req)));
      RowPlanReadsLogAndRows(cfg, ApplyAll(d, noted), ApplyAll(t, noted), req, env);
    }
  }

  // ------------------------------------------------------------ the rest of a run

  function Quiet(env: Env): Env {
    env.(probe := Inconclusive)
  }

  /** The same action, with a read-back that says nothing about the call. */
  function Hushed(a: Action, c: CallId): Action {
    if a.Execute? && a.req.call == c then Execute(a.req, Quiet(a.env), a.cut) else a
  }

  function HushedAll(actions: seq<Action>, c: CallId): seq<Action> {
    if actions == [] then [] else [Hushed(actions[0], c)] + HushedAll(actions[1..], c)
  }

  /** Where there is no read-back, what it would say does not matter. */
  lemma {:induction false} RowIsDeaf(cfg: Config, d: Durable, req: Request, env: Env)
    requires req.tool in cfg.registry && !cfg.registry[req.tool].hasProbe
    ensures RowPlan(cfg, d, req, Quiet(env)) == RowPlan(cfg, d, req, env)
  {
    assert GatePlan(cfg, d, req, false, Quiet(env)) == GatePlan(cfg, d, req, false, env);
    assert GatePlan(cfg, d, req, true, Quiet(env)) == GatePlan(cfg, d, req, true, env);
  }

  lemma {:induction false} PlanIsDeaf(cfg: Config, d: Durable, req: Request, env: Env)
    requires req.call !in Reduce(d.log).closed ==>
               req.tool in cfg.registry && !cfg.registry[req.tool].hasProbe
    ensures ExecutePlan(cfg, d, req, Quiet(env)) == ExecutePlan(cfg, d, req, env)
  {
    if req.call !in Reduce(d.log).closed {
      var noted := if req.call in Reduce(d.log).open then [] else [Append(CallEvent(req))];
      RowIsDeaf(cfg, ApplyAll(d, noted), req, env);
    }
  }

  /** The call is on record for a tool that cannot be read back. */
  ghost predicate Unreadable(cfg: Config, log: Log, c: CallId) {
    && FirstCall(log, c).Some? && FirstCall(log, c).value.tool in cfg.registry
    && !cfg.registry[FirstCall(log, c).value.tool].hasProbe
  }

  lemma {:induction false} TwinExecutes(cfg: Config, d: Durable, t: Durable, c: CallId, req: Request, env: Env, cut: nat)
    requires Twin(d, t, cfg.KeyOf(c)) && Unreadable(cfg, d.log, c)
    requires AgreeAllowed(cfg, d, Execute(req, env, cut))
    ensures var a := Execute(req, env, cut);
            AgreeAllowed(cfg, t, Hushed(a, c)) && CommitsOf(cfg, t, Hushed(a, c)) == CommitsOf(cfg, d, a)
  {
    PlanReadsLogAndRows(cfg, d, t, req, env);
    if req.call == c {
      PlanIsDeaf(cfg, t, req, env);
    }
  }

  lemma {:induction false} TwinActs(cfg: Config, d: Durable, t: Durable, c: CallId, a: Action)
    requires Twin(d, t, cfg.KeyOf(c)) && Unreadable(cfg, d.log, c) && AgreeAllowed(cfg, d, a)
    ensures AgreeAllowed(cfg, t, Hushed(a, c))
    ensures Twin(Act(cfg, d, a), Act(cfg, t, Hushed(a, c)), cfg.KeyOf(c))
    ensures Unreadable(cfg, Act(cfg, d, a).log, c)
  {
    if a.Execute? {
      TwinExecutes(cfg, d, t, c, a.req, a.env, a.cut);
    }
    var cs := CommitsOf(cfg, d, a);
    var made := if a.Note? then cs else Cut(cs, a.cut);
    ApplyAllTwin(d, t, cfg.KeyOf(c), made);
    StillLogged(d, made, c);
  }

  lemma {:induction false} TwinRuns(cfg: Config, d: Durable, t: Durable, c: CallId, actions: seq<Action>)
    requires Twin(d, t, cfg.KeyOf(c)) && Unreadable(cfg, d.log, c) && AgreedRun(cfg, d, actions)
    ensures AgreedRun(cfg, t, HushedAll(actions, c))
    ensures Twin(Run(cfg, d, actions), Run(cfg, t, HushedAll(actions, c)), cfg.KeyOf(c))
    decreases |actions|
  {
    if actions != [] {
      var a, h := actions[0], Hushed(actions[0], c);
      var rest := HushedAll(actions[1..], c);
      TwinActs(cfg, d, t, c, a);
      TwinRuns(cfg, Act(cfg, d, a), Act(cfg, t, h), c, actions[1..]);
      assert HushedAll(actions, c)[0] == h && HushedAll(actions, c)[1..] == rest;
    }
  }

  // --------------------------------------------------- killed one commit later

  lemma {:induction false} LedgerGrows(d: Durable, cs: seq<Commit>, key: Key)
    ensures Count(ApplyAll(d, cs).ledger, key) >= Count(d.ledger, key)
    decreases |cs|
  {
    if cs != [] {
      if cs[0].ApplyEffect? {
        CountAppend(d.ledger, EffectRow(cs[0].key, cs[0].operation, cs[0].payload), key);
      }
      LedgerGrows(Apply(d, cs[0]), cs[1..], key);
    }
  }

  lemma {:induction false} EffectMakesATwin(d: Durable, effect: Commit)
    requires effect.ApplyEffect? && !effect.idempotent
    ensures Twin(d, Apply(d, effect), effect.key)
  {
    forall k {
      CountAppend(d.ledger, EffectRow(effect.key, effect.operation, effect.payload), k);
    }
  }

  /** What was made up to the intent, what came behind it, and an effect in between. */
  lemma {:induction false} TwinBehindTheIntent(d: Durable, pre: seq<Commit>, effect: Commit, rest: seq<Commit>)
    requires effect.ApplyEffect? && !effect.idempotent
    ensures Twin(ApplyAll(d, pre + rest), ApplyAll(d, pre + ([effect] + rest)), effect.key)
  {
    var s := ApplyAll(d, pre);
    ApplyAllConcat(d, pre, rest);
    ApplyAllConcat(d, pre, [effect] + rest);
    ApplyAllConcat(s, [effect], rest);
    ApplyOne(s, effect);
    EffectMakesATwin(s, effect);
    ApplyAllTwin(s, Apply(s, effect), effect.key, rest);
  }

  /** A writer's commits up to its intent. */
  function UpToTheIntent(cfg: Config, d: Durable, req: Request): seq<Commit> {
    (if req.call in Reduce(d.log).open then [] else [Append(CallEvent(req))])
    + [InsertRow(cfg.KeyOf(req.call), Row(req.call, req.tool, Sha(req.args), RowPending, None))]
  }

  /** The call is on record, and the gate looks at the same approvals as before. */
  lemma {:induction false} NotedForTheGate(cfg: Config, d: Durable, req: Request, env: Env, noted: seq<Commit>)
    requires req.tool in cfg.registry && req.call !in Reduce(d.log).closed && cfg.KeyOf(req.call) !in d.rows
    requires noted == if req.call in Reduce(d.log).open then [] else [Append(CallEvent(req))]
    ensures var d' := ApplyAll(d, noted);
            && d'.rows == d.rows
            && (LetIn(cfg, d'.log, req, env) <==> LetIn(cfg, d.log, req, env))
            && ExecutePlan(cfg, d, req, env).commits == noted + GatePlan(cfg, d', req, false, env).commits
  {
    var d' := ApplyAll(d, noted);
    if noted != [] {
      ApplyOne(d, noted[0]);
      BestAppend(d.log, CallEvent(req), req.call, req.tool);
    }
    assert RowPlan(cfg, d', req, env) == GatePlan(cfg, d', req, false, env);
  }

  predicate WritesNoRow(cs: seq<Commit>) {
    forall i :: 0 <= i < |cs| ==> !cs[i].InsertRow?
  }

  lemma {:induction false} NoRowWritten(d: Durable, cs: seq<Commit>, key: Key)
    requires WritesNoRow(cs) && key !in d.rows
    ensures key !in ApplyAll(d, cs).rows
    decreases |cs|
  {
    if cs != [] {
      assert !cs[0].InsertRow?;
      forall i | 0 <= i < |cs[1..]| ensures !cs[1..][i].InsertRow? {
        assert cs[1..][i] == cs[i + 1];
      }
      NoRowWritten(Apply(d, cs[0]), cs[1..], key);
    }
  }

  lemma {:induction false} ShutOutWritesNoRow(cfg: Config, d: Durable, req: Request, env: Env)
    requires req.tool in cfg.registry && !LetIn(cfg, d.log, req, env)
    ensures WritesNoRow(GatePlan(cfg, d, req, false, env).commits)
  {}

  /** A call that is not let in writes no intent; nor does one killed before it. */
  lemma {:induction false} NoIntentYet(cfg: Config, d: Durable, req: Request, env: Env, n: nat)
    requires cfg.Nonidempotent(req.tool) && req.call !in Reduce(d.log).closed && cfg.KeyOf(req.call) !in d.rows
    requires !LetIn(cfg, d.log, req, env) || n < |UpToTheIntent(cfg, d, req)|
    ensures cfg.KeyOf(req.call) !in ApplyAll(d, Cut(ExecutePlan(cfg, d, req, env).commits, n)).rows
  {
    var cs := ExecutePlan(cfg, d, req, env).commits;
    var noted := if req.call in Reduce(d.log).open then [] else [Append(CallEvent(req))];
    NotedForTheGate(cfg, d, req, env, noted);
    if LetIn(cfg, d.log, req, env) {
      assert Cut(cs, n) == Cut(noted, n);
      NoRowWritten(d, Cut(noted, n), cfg.KeyOf(req.call));
    } else {
      ShutOutWritesNoRow(cfg, ApplyAll(d, noted), req, env);
      NoRowWritten(d, Cut(cs, n), cfg.KeyOf(req.call));
    }
  }

  /** A writer whose intent is written was let in, and has come at least that far. */
  lemma {:induction false} IntentMeansLetIn(cfg: Config, d: Durable, req: Request, env: Env, n: nat)
    requires cfg.Nonidempotent(req.tool) && req.call !in Reduce(d.log).closed && cfg.KeyOf(req.call) !in d.rows
    requires cfg.KeyOf(req.call) in ApplyAll(d, Cut(ExecutePlan(cfg, d, req, env).commits, n)).rows
    ensures n >= |UpToTheIntent(cfg, d, req)|
    ensures LetIn(cfg, d.log, req, env)
  {
    if !LetIn(cfg, d.log, req, env) || n < |UpToTheIntent(cfg, d, req)| {
      NoIntentYet(cfg, d, req, env, n);
    }
  }

  lemma {:induction false} LetInCommits(cfg: Config, d: Durable, req: Request, env: Env)
    requires cfg.outbox && cfg.Nonidempotent(req.tool) && req.call !in Reduce(d.log).closed
    requires cfg.KeyOf(req.call) !in d.rows && ActualArgs(req, env) == req.args && LetIn(cfg, d.log, req, env)
    ensures ExecutePlan(cfg, d, req, env).commits ==
            UpToTheIntent(cfg, d, req)
            + (EffectCommits(cfg, req, req.args, env) + RecordPlan(cfg, req, req.args, env).commits)
  {
    var noted := if req.call in Reduce(d.log).open then [] else [Append(CallEvent(req))];
    NotedForTheGate(cfg, d, req, env, noted);
    LetInMeans(cfg, ApplyAll(d, noted), req, false, env);
    var intent := IntentCommits(cfg, req, false, req.args);
    var rest := EffectCommits(cfg, req, req.args, env) + RecordPlan(cfg, req, req.args, env).commits;
    assert ExecutePlan(cfg, d, req, env).commits == noted + (intent + rest);
    assert noted + (intent + rest) == (noted + intent) + rest;
  }

  /** Only a call that is driven writes its row. */
  lemma {:induction false} RowsComeFromTheirCall(cfg: Config, d: Durable, a: Action, c: CallId)
    requires cfg.KeyOf(c) !in d.rows && cfg.KeyOf(c) in Act(cfg, d, a).rows
    ensures a.Execute? && a.req.call == c && c !in Reduce(d.log).closed
  {
    var cs := CommitsOf(cfg, d, a);
    if a.Execute? {
      ACallWritesOnlyItsOwn(cfg, d, a.req, a.env);
      var made := Cut(cs, a.cut);
      forall i | 0 <= i < |made| ensures IsOwn(cfg, a.req, a.env, made[i]) {
        assert IsOwn(cfg, a.req, a.env, cs[i]);
      }
      if a.req.call != c {
        OtherKeysStay(cfg, d, a.req, a.env, made, cfg.KeyOf(c));
      }
    } else {
      NoRowWritten(d, if a.Note? then cs else Cut(cs, a.cut), cfg.KeyOf(c));
    }
  }

  function TheEffect(cfg: Config, req: Request): Commit {
    ApplyEffect(cfg.KeyOf(req.call), req.tool, req.args, false)
  }

  lemma {:induction false} CutBehind(pre: seq<Commit>, more: seq<Commit>, n: nat)
    requires n >= |pre|
    ensures Cut(pre + more, n) == pre + Cut(more, n - |pre|)
  {}

  /** What a writer that was let in commits, up to a kill behind its intent. */
  lemma {:induction false} CutWriter(cfg: Config, d: Durable, req: Request, env: Env, n: nat)
    requires cfg.outbox && cfg.Nonidempotent(req.tool) && req.call !in Reduce(d.log).closed
    requires cfg.KeyOf(req.call) !in d.rows && ActualArgs(req, env) == req.args && LetIn(cfg, d.log, req, env)
    requires n >= |UpToTheIntent(cfg, d, req)|
    ensures var pre, record := UpToTheIntent(cfg, d, req), RecordPlan(cfg, req, req.args, env).commits;
            Cut(ExecutePlan(cfg, d, req, env).commits, n) ==
            pre + Cut((if env.fn.RaisesBefore? then [] else [TheEffect(cfg, req)]) + record, n - |pre|)
  {
    LetInCommits(cfg, d, req, env);
    CutBehind(UpToTheIntent(cfg, d, req),
              EffectCommits(cfg, req, req.args, env) + RecordPlan(cfg, req, req.args, env).commits, n);
  }

  /** A tool that raised in front of its effect could as well have raised behind it. */
  lemma {:induction false} RaisedBehind(cfg: Config, d: Durable, req: Request, env: Env, n: nat)
    requires cfg.outbox && cfg.Nonidempotent(req.tool) && req.call !in Reduce(d.log).closed
    requires cfg.KeyOf(req.call) !in d.rows && ActualArgs(req, env) == req.args && LetIn(cfg, d.log, req, env)
    requires n >= |UpToTheIntent(cfg, d, req)| && env.fn.RaisesBefore?
    ensures var late := env.(fn := RaisesAfter(env.fn.error));
            Twin(Act(cfg, d, Execute(req, env, n)), Act(cfg, d, Execute(req, late, n + 1)), cfg.KeyOf(req.call))
  {
    var late := env.(fn := RaisesAfter(env.fn.error));
    var pre, record := UpToTheIntent(cfg, d, req), RecordPlan(cfg, req, req.args, env).commits;
    var effect := TheEffect(cfg, req);
    CutWriter(cfg, d, req, env, n);
    CutWriter(cfg, d, req, late, n + 1);
    assert [] + record == record;
    CutBehind([effect], record, n + 1 - |pre|);
    TwinBehindTheIntent(d, pre, effect, Cut(record, n - |pre|));
  }

  /** A call killed right behind its intent could as well have been killed behind its effect. */
  lemma {:induction false} KilledOneLater(cfg: Config, d: Durable, req: Request, env: Env)
    requires cfg.outbox && cfg.Nonidempotent(req.tool) && req.call !in Reduce(d.log).closed
    requires cfg.KeyOf(req.call) !in d.rows && ActualArgs(req, env) == req.args && LetIn(cfg, d.log, req, env)
    requires !env.fn.RaisesBefore?
    ensures var m := |UpToTheIntent(cfg, d, req)|;
            Twin(Act(cfg, d, Execute(req, env, m)), Act(cfg, d, Execute(req, env, m + 1)), cfg.KeyOf(req.call))
  {
    var pre, effect := UpToTheIntent(cfg, d, req), TheEffect(cfg, req);
    CutWriter(cfg, d, req, env, |pre|);
    CutWriter(cfg, d, req, env, |pre| + 1);
    assert [effect] + [] == [effect];
    CutBehind([effect], RecordPlan(cfg, req, req.args, env).commits, 1);
    TwinBehindTheIntent(d, pre, effect, []);
  }

  /** Killed any later, it has had its effect. */
  lemma {:induction false} LaterHasTheEffect(cfg: Config, d: Durable, req: Request, env: Env, n: nat)
    requires cfg.outbox && cfg.Nonidempotent(req.tool) && req.call !in Reduce(d.log).closed
    requires cfg.KeyOf(req.call) !in d.rows && ActualArgs(req, env) == req.args && LetIn(cfg, d.log, req, env)
    requires n > |UpToTheIntent(cfg, d, req)| && !env.fn.RaisesBefore?
    ensures Count(Act(cfg, d, Execute(req, env, n)).ledger, cfg.KeyOf(req.call)) > 0
  {
    var pre, record := UpToTheIntent(cfg, d, req), RecordPlan(cfg, req, req.args, env).commits;
    var effect := TheEffect(cfg, req);
    CutWriter(cfg, d, req, env, n);
    CutBehind([effect], record, n - |pre|);
    TwinBehindTheIntent(d, pre, effect, Cut(record, n - |pre| - 1));
  }

  /** Where a kill or an error left an intent without its effect, it could have left it
      with one, and the same log. */
  lemma {:induction false} KilledBehind(cfg: Config, d: Durable, req: Request, env: Env, n: nat) returns (a: Action)
    requires cfg.outbox && cfg.Nonidempotent(req.tool) && req.call !in Reduce(d.log).closed
    requires cfg.KeyOf(req.call) !in d.rows && AgreeAllowed(cfg, d, Execute(req, env, n))
    requires var d1 := Act(cfg, d, Execute(req, env, n));
             cfg.KeyOf(req.call) in d1.rows && Count(d1.ledger, cfg.KeyOf(req.call)) == 0
    ensures AgreeAllowed(cfg, d, a)
    ensures Twin(Act(cfg, d, Execute(req, env, n)), Act(cfg, d, a), cfg.KeyOf(req.call))
  {
    var m := |UpToTheIntent(cfg, d, req)|;
    IntentMeansLetIn(cfg, d, req, env, n);
    if env.fn.RaisesBefore? {
      RaisedBehind(cfg, d, req, env, n);
      a := Execute(req, env.(fn := RaisesAfter(env.fn.error)), n + 1);
    } else {
      if n > m {
        LaterHasTheEffect(cfg, d, req, env, n);
      }
      KilledOneLater(cfg, d, req, env);
      a := Execute(req, env, m + 1);
    }
  }

  lemma {:induction false} EffectsStay(cfg: Config, d: Durable, actions: seq<Action>, key: Key)
    ensures Count(Run(cfg, d, actions).ledger, key) >= Count(d.ledger, key)
    decreases |actions|
  {
    if actions != [] {
      var cs := CommitsOf(cfg, d, actions[0]);
      LedgerGrows(d, if actions[0].Note? then cs else Cut(cs, actions[0].cut), key);
      EffectsStay(cfg, Act(cfg, d, actions[0]), actions[1..], key);
    }
  }

  lemma {:induction false} NamesStay(cfg: Config, d: Durable, actions: seq<Action>, c: CallId)
    requires FirstCall(d.log, c).Some?
    ensures FirstCall(Run(cfg, d, actions).log, c) == FirstCall(d.log, c)
    decreases |actions|
  {
    if actions != [] {
      var cs := CommitsOf(cfg, d, actions[0]);
      StillLogged(d, if actions[0].Note? then cs else Cut(cs, actions[0].cut), c);
      NamesStay(cfg, Act(cfg, d, actions[0]), actions[1..], c);
    }
  }

  /** An intent without its effect, of a call that cannot be read back, is still open. */
  ghost predicate OpenIntent(cfg: Config, d: Durable, c: CallId) {
    && cfg.KeyOf(c) in d.rows && Count(d.ledger, cfg.KeyOf(c)) == 0
    && c !in Reduce(d.log).closed && OfWriter(cfg, d.log, c) && Unreadable(cfg, d.log, c)
  }

  /** Beside a run that leaves an open intent stands one with the same log and its effect. */
  lemma {:induction false} OpenIntentHasATwin(cfg: Config, d: Durable, actions: seq<Action>, c: CallId)
    returns (others: seq<Action>)
    requires cfg.outbox && Upheld(cfg, d) && AgreedRun(cfg, d, actions) && cfg.KeyOf(c) !in d.rows
    requires OpenIntent(cfg, Run(cfg, d, actions), c)
    ensures AgreedRun(cfg, d, others) && Twin(Run(cfg, d, actions), Run(cfg, d, others), cfg.KeyOf(c))
    decreases |actions|
  {
    var a, rest := actions[0], actions[1..];
    var d1, key := Act(cfg, d, a), cfg.KeyOf(c);
    ActKeepsUpheld(cfg, d, a);
    if key !in d1.rows {
      var more := OpenIntentHasATwin(cfg, d1, rest, c);
      others := [a] + more;
      assert others[0] == a && others[1..] == more;
    } else {
      RowsComeFromTheirCall(cfg, d, a, c);
      assert RowAccounted(cfg, d1, key);
      NamesStay(cfg, d1, rest, c);
      EffectsStay(cfg, d1, rest, key);
      NamedAsDriven(cfg, d, a.req, a.env, a.cut);
      var b := KilledBehind(cfg, d, a.req, a.env, a.cut);
      TwinRuns(cfg, d1, Act(cfg, d, b), c, rest);
      others := [b] + HushedAll(rest, c);
      assert others[0] == b && others[1..] == HushedAll(rest, c);
    }
  }

  // -------------------------------------------------- or driven once more, unseen

  lemma {:induction false} RunAppend(cfg: Config, d: Durable, actions: seq<Action>, a: Action)
    requires AgreedRun(cfg, d, actions) && AgreeAllowed(cfg, Run(cfg, d, actions), a)
    ensures AgreedRun(cfg, d, actions + [a]) && Run(cfg, d, actions + [a]) == Act(cfg, Run(cfg, d, actions), a)
    decreases |actions|
  {
    var more := actions + [a];
    if actions == [] {
      assert more == [a] && more[1..] == [];
    } else {
      assert more[0] == actions[0] && more[1..] == actions[1..] + [a];
      RunAppend(cfg, Act(cfg, d, actions[0]), actions[1..], a);
    }
  }

  lemma {:induction false} RunKeepsUnvetoed(cfg: Config, d: Durable, actions: seq<Action>)
    requires cfg.outbox && Upheld(cfg, d) && Inv(Unvetoed, cfg, d) && AgreedRun(cfg, d, actions)
    ensures Upheld(cfg, Run(cfg, d, actions)) && Inv(Unvetoed, cfg, Run(cfg, d, actions))
    decreases |actions|
  {
    if actions != [] {
      ActKeepsUpheld(cfg, d, actions[0]);
      ActKeepsUnvetoed(cfg, d, actions[0]);
      RunKeepsUnvetoed(cfg, Act(cfg, d, actions[0]), actions[1..]);
    }
  }

  /** The interrupted call of a writer, unanswered, let through and without effect. */
  ghost predicate MayRunUnseen(cfg: Config, d: Durable, asked: Body) {
    && PendingInterrupt(d.log) == Some(asked) && asked.gated !in Reduce(d.log).closed
    && !Reduce(d.log).terminal && cfg.Nonidempotent(asked.tool)
    && MayHaveRun(cfg, d.log, asked) && Count(d.ledger, cfg.KeyOf(asked.gated)) == 0
  }

  lemma {:induction false} WaitingCallIsOpen(cfg: Config, d: Durable, asked: Body)
    requires Upheld(cfg, d) && MayRunUnseen(cfg, d, asked)
    ensures asked.gated in Reduce(d.log).open
    ensures FirstCall(d.log, asked.gated) == Some(Request(asked.gated, asked.tool, asked.args))
    ensures cfg.KeyOf(asked.gated) in d.rows ==>
              var row := d.rows[cfg.KeyOf(asked.gated)];
              row.status == RowPending && row.sha == Sha(asked.args)
  {
    PendingIsAsCalled(cfg, d);
    CleanMeans(d.log);
    FirstCallMeans(d.log, asked.gated);
    assert OfWriter(cfg, d.log, asked.gated) && CallAgreed(cfg, d, asked.gated);
    if cfg.KeyOf(asked.gated) in d.rows {
      assert RowOrdered(cfg, d, cfg.KeyOf(asked.gated));
    }
  }

  /** With no row yet, it writes its intent and has its effect before it is killed. */
  lemma {:induction false} DrivenWithoutARow(cfg: Config, d: Durable, asked: Body) returns (a: Action)
    requires cfg.outbox && Upheld(cfg, d) && Inv(Unvetoed, cfg, d) && MayRunUnseen(cfg, d, asked)
    requires cfg.KeyOf(asked.gated) !in d.rows
    ensures AgreeAllowed(cfg, d, a) && Act(cfg, d, a).log == d.log
    ensures Count(Act(cfg, d, a).ledger, cfg.KeyOf(asked.gated)) == 1
  {
    var req := Request(asked.gated, asked.tool, asked.args);
    WaitingCallIsOpen(cfg, d, asked);
    OpenIsNotClosed(d.log, req.call);
    var env := ApprovedIsLetIn(cfg, d, Env(0.0, None, Inconclusive, Returns(""), NewId(d.log)));
    LongIdsAreNew(d.log, env.interruptId);
    OpenWriterRuns(cfg, d, req, env);
    a := Execute(req, env, 2);
  }

  lemma {:induction false} OpenWriterRuns(cfg: Config, d: Durable, req: Request, env: Env)
    requires cfg.outbox && cfg.Nonidempotent(req.tool) && LetIn(cfg, d.log, req, env)
    requires cfg.KeyOf(req.call) !in d.rows && env.tampered.None? && env.fn.Returns?
    requires req.call in Reduce(d.log).open && req.call !in Reduce(d.log).closed
    ensures var d' := Act(cfg, d, Execute(req, env, 2)); var key := cfg.KeyOf(req.call);
            d'.log == d.log && Count(d'.ledger, key) == Count(d.ledger, key) + 1
  {
    OpenCallPlan(cfg, d, req, env);
    WriterCommits(cfg, d, req, env);
    OneMoreEffect(d, TheEffect(cfg, req));
  }

  /** With an intent that a truthful read-back finds without effect, it runs again. */
  lemma {:induction false} DrivenFromItsIntent(cfg: Config, d: Durable, asked: Body) returns (a: Action)
    requires cfg.outbox && Upheld(cfg, d) && Inv(Unvetoed, cfg, d) && MayRunUnseen(cfg, d, asked)
    requires cfg.KeyOf(asked.gated) in d.rows && cfg.registry[asked.tool].hasProbe
    ensures AgreeAllowed(cfg, d, a) && Act(cfg, d, a).log == d.log
    ensures Count(Act(cfg, d, a).ledger, cfg.KeyOf(asked.gated)) == 1
  {
    var req, effect := Request(asked.gated, asked.tool, asked.args), TheEffect(cfg, Request(asked.gated, asked.tool, asked.args));
    WaitingCallIsOpen(cfg, d, asked);
    var env := ApprovedIsLetIn(cfg, d, Env(0.0, None, NotApplied, Returns(""), NewId(d.log)));
    LongIdsAreNew(d.log, env.interruptId);
    DeniedIntentRunsAgain(cfg, d, req, env);
    var record := RecordPlan(cfg, req, req.args, env).commits;
    assert ExecutePlan(cfg, d, req, env).commits == [effect] + record;
    assert Cut([effect] + record, 1) == [effect];
    ApplyOne(d, effect);
    OneMoreEffect(d, effect);
    a := Execute(req, env, 1);
  }

  /** Beside every run whose log shows an approval for the call that waits stands one, as
      orderly and with the same log, in which that call has had its effect. */
  lemma {:induction false} SameLogWithItsEffect(cfg: Config, actions: seq<Action>, asked: Body)
    returns (others: seq<Action>)
    requires cfg.outbox && AgreedRun(cfg, EMPTY, actions)
    requires MayRunUnseen(cfg, Run(cfg, EMPTY, actions), asked)
    ensures AgreedRun(cfg, EMPTY, others) && Run(cfg, EMPTY, others).log == Run(cfg, EMPTY, actions).log
    ensures Count(Run(cfg, EMPTY, others).ledger, cfg.KeyOf(asked.gated)) == 1
  {
    var d, c := Run(cfg, EMPTY, actions), asked.gated;
    EmptyIsUpheld(cfg);
    RunKeepsUnvetoed(cfg, EMPTY, actions);
    WaitingCallIsOpen(cfg, d, asked);
    if cfg.KeyOf(c) !in d.rows {
      var a := DrivenWithoutARow(cfg, d, asked);
      RunAppend(cfg, EMPTY, actions, a);
      others := actions + [a];
    } else if cfg.registry[asked.tool].hasProbe {
      var a := DrivenFromItsIntent(cfg, d, asked);
      RunAppend(cfg, EMPTY, actions, a);
      others := actions + [a];
    } else {
      others := OpenIntentHasATwin(cfg, EMPTY, actions, c);
    }
  }

  lemma {:induction false} EmptyIsUpheld(cfg: Config)
    ensures Upheld(cfg, EMPTY) && Inv(Unvetoed, cfg, EMPTY)
  {
    assert Reduce([]) == INIT && Report([]) == [];
  }

  /** MAIN (one decision at the end of any run): the log alone settles whether a safe
      decision keeps log and ledger in agreement, and it does so exactly when the
      interrupted call was never let through. Then no run with this log has an effect of
      the call; otherwise one has, and the decision would record `rejected` or
      `superseded` for a call that ran. */
  lemma {:induction false} DecisionsAgreeExactlyWhenNeverLetThrough(cfg: Config, actions: seq<Action>, dec: Decision)
    requires cfg.outbox && AgreedRun(cfg, EMPTY, actions)
    requires OrderAllowed(cfg, Run(cfg, EMPTY, actions), Decide(dec, 0))
    requires DecidePlan(Run(cfg, EMPTY, actions), dec).Accepted?
    ensures var log := Run(cfg, EMPTY, actions).log;
            NeverLetThrough(cfg, log, dec) <==>
            forall others :: AgreedRun(cfg, EMPTY, others) && Run(cfg, EMPTY, others).log == log ==>
              AgreesAfter(cfg, Run(cfg, EMPTY, others), dec)
  {
    var d := Run(cfg, EMPTY, actions);
    EmptyIsUpheld(cfg);
    if NeverLetThrough(cfg, d.log, dec) {
      forall others | AgreedRun(cfg, EMPTY, others) && Run(cfg, EMPTY, others).log == d.log
        ensures AgreesAfter(cfg, Run(cfg, EMPTY, others), dec)
      {
        RunKeepsUpheld(cfg, EMPTY, others);
        GuardedDecisionAgrees(cfg, Run(cfg, EMPTY, others), dec);
      }
    } else {
      LetThroughCanDisagree(cfg, actions, dec);
    }
  }

  ghost predicate AgreesAfter(cfg: Config, d: Durable, dec: Decision) {
    Inv(Agreed, cfg, ApplyAll(d, DecideCommits(d, dec)))
  }

  lemma {:induction false} GuardedDecisionAgrees(cfg: Config, d: Durable, dec: Decision)
    requires Upheld(cfg, d) && DecideSafe(d, dec) && NeverLetThrough(cfg, d.log, dec)
    ensures AgreesAfter(cfg, d, dec)
  {
    NeverLetThroughLeavesNothing(cfg, d, dec);
    DecideAgreed(cfg, d, dec);
    KeepsAtEveryCut(Agreed, cfg, d, DecideCommits(d, dec), |DecideCommits(d, dec)|);
  }

  lemma {:induction false} LetThroughCanDisagree(cfg: Config, actions: seq<Action>, dec: Decision)
    requires cfg.outbox && AgreedRun(cfg, EMPTY, actions)
    requires OrderAllowed(cfg, Run(cfg, EMPTY, actions), Decide(dec, 0))
    requires DecidePlan(Run(cfg, EMPTY, actions), dec).Accepted?
    requires !NeverLetThrough(cfg, Run(cfg, EMPTY, actions).log, dec)
    ensures exists others :: AgreedRun(cfg, EMPTY, others)
              && Run(cfg, EMPTY, others).log == Run(cfg, EMPTY, actions).log
              && !AgreesAfter(cfg, Run(cfg, EMPTY, others), dec)
  {
    var d := Run(cfg, EMPTY, actions);
    var asked := PendingInterrupt(d.log).value;
    var others := actions;
    EmptyIsUpheld(cfg);
    if Count(d.ledger, cfg.KeyOf(asked.gated)) == 0 {
      others := SameLogWithItsEffect(cfg, actions, asked);
    }
    RunKeepsUpheld(cfg, EMPTY, others);
    var t := Run(cfg, EMPTY, others);
    assert DecidePlan(t, dec) == DecidePlan(d, dec);
    ClosingAnEffectDisagrees(cfg, t, dec);
    assert !AgreesAfter(cfg, t, dec);
  }
}
