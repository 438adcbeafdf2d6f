/** How often an effect can be repeated when no intent is written ahead of it. */
module OutboxOff {
  import opened Events
  import opened Tools
  import opened Approvals
  import opened Reducer
  import opened Pipeline
  import opened Invariants
  import opened Footprint
  import opened Ordering
  import opened Deciding
  import opened Runs

  function EffectsIn(cs: seq<Commit>, key: Key): nat {
    if cs == [] then 0
    else (if cs[0].ApplyEffect? && cs[0].key == key then 1 else 0) + EffectsIn(cs[1..], key)
  }

  lemma {:induction false} EffectsInConcat(a: seq<Commit>, b: seq<Commit>, key: Key)
    ensures EffectsIn(a + b, key) == EffectsIn(a, key) + EffectsIn(b, key)
  {
    if a == [] {
      assert a + b == b;
    } else {
      assert (a + b)[0] == a[0] && (a + b)[1..] == a[1..] + b;
      EffectsInConcat(a[1..], b, key);
    }
  }

  lemma {:induction false} EffectsInCut(cs: seq<Commit>, n: nat, key: Key)
    ensures EffectsIn(Cut(cs, n), key) <= EffectsIn(cs, key)
  {
    if n < |cs| {
      assert cs == cs[..n] + cs[n..];
      EffectsInConcat(cs[..n], cs[n..], key);
    }
  }

  lemma {:induction false} CountGrows(d: Durable, cs: seq<Commit>, key: Key)
    ensures Count(d.ledger, key) <= Count(ApplyAll(d, cs).ledger, key)
    ensures Count(ApplyAll(d, cs).ledger, key) <= Count(d.ledger, key) + EffectsIn(cs, key)
    decreases |cs|
  {
    if cs != [] {
      if cs[0].ApplyEffect? {
        CountAppend(d.ledger, EffectRow(cs[0].key, cs[0].operation, cs[0].payload), key);
      }
      CountGrows(Apply(d, cs[0]), cs[1..], key);
    }
  }

  lemma {:induction false} NoEffects(cs: seq<Commit>, key: Key)
    requires forall i :: 0 <= i < |cs| ==> !cs[i].ApplyEffect? || cs[i].key != key
    ensures EffectsIn(cs, key) == 0
  {
    if cs != [] {
      NoEffects(cs[1..], key);
    }
  }

  lemma {:induction false} EffectPlanHasOne(cfg: Config, req: Request, existing: bool, args: Args, env: Env, key: Key)
    requires req.tool in cfg.registry
    ensures var n := EffectsIn(EffectPlan(cfg, req, existing, args, env).commits, key);
            n <= 1 && (key != cfg.KeyOf(req.call) ==> n == 0)
  {
    var intent := IntentCommits(cfg, req, existing, args);
    var effect := EffectCommits(cfg, req, args, env);
    var record := RecordPlan(cfg, req, args, env).commits;
    NoEffects(intent, key);
    NoEffects(record, key);
    if effect != [] {
      NoEffects(effect[1..], key);
    }
    EffectsInConcat(effect, record, key);
    EffectsInConcat(intent, effect + record, key);
  }

  lemma {:induction false} GatePlanHasOne(cfg: Config, d: Durable, req: Request, existing: bool, env: Env, key: Key)
    requires req.tool in cfg.registry
    ensures var n := EffectsIn(GatePlan(cfg, d, req, existing, env).commits, key);
            n <= 1 && (key != cfg.KeyOf(req.call) ==> n == 0)
  {
    var p := GatePlan(cfg, d, req, existing, env);
    EffectPlanHasOne(cfg, req, existing, ActualArgs(req, env), env, key);
    if p != EffectPlan(cfg, req, existing, ActualArgs(req, env), env) {
      NoEffects(p.commits, key);
    }
  }

  lemma {:induction false} RowPlanHasOne(cfg: Config, d: Durable, req: Request, env: Env, key: Key)
    requires req.tool in cfg.registry
    ensures var n := EffectsIn(RowPlan(cfg, d, req, env).commits, key);
            n <= 1 && (key != cfg.KeyOf(req.call) ==> n == 0)
  {
    var p := RowPlan(cfg, d, req, env);
    if p == GatePlan(cfg, d, req, false, env) {
      GatePlanHasOne(cfg, d, req, false, env, key);
    } else if p == GatePlan(cfg, d, req, true, env) {
      GatePlanHasOne(cfg, d, req, true, env, key);
    } else {
      NoEffects(p.commits, key);
    }
  }

  lemma {:induction false} ExecutePlanHasOne(cfg: Config, d: Durable, req: Request, env: Env, key: Key)
    ensures var n := EffectsIn(ExecutePlan(cfg, d, req, env).commits, key);
            n <= 1 && (key != cfg.KeyOf(req.call) ==> n == 0)
  {
    var p := ExecutePlan(cfg, d, req, env);
    if req.call in Reduce(d.log).closed || req.tool !in cfg.registry {
      NoEffects(p.commits, key);
    } else {
      var noted := if req.call in Reduce(d.log).open then [] else [Append(CallEvent(req))];
      var d' := ApplyAll(d, noted);
      RowPlanHasOne(cfg, d', req, env, key);
      NoEffects(noted, key);
      EffectsInConcat(noted, RowPlan(cfg, d', req, env).commits, key);
    }
  }

  // ------------------------------------------------------------- lost results

  /** The call's effect reached the ledger, and the kill came before its result
      reached the log. */
  predicate LostResult(cfg: Config, d: Durable, a: Action, c: CallId) {
    var d' := Act(cfg, d, a);
    && a.Execute? && a.req.call == c
    && Count(d'.ledger, cfg.KeyOf(c)) > Count(d.ledger, cfg.KeyOf(c))
    && c !in Reduce(d'.log).closed
  }

  function LostResults(cfg: Config, d: Durable, actions: seq<Action>, c: CallId): nat
    decreases |actions|
  {
    if actions == [] then 0
    else (if LostResult(cfg, d, actions[0], c) then 1 else 0)
         + LostResults(cfg, Act(cfg, d, actions[0]), actions[1..], c)
  }

  function Closings(d: Durable, c: CallId): nat {
    if c in Reduce(d.log).closed then 1 else 0
  }

  lemma {:induction false} ClosedStays(d: Durable, cs: seq<Commit>, c: CallId)
    requires c in Reduce(d.log).closed
    ensures c in Reduce(ApplyAll(d, cs).log).closed
    decreases |cs|
  {
    if cs != [] {
      if cs[0].Append? {
        ReduceAppend(d.log, cs[0].event);
      }
      ClosedStays(Apply(d, cs[0]), cs[1..], c);
    }
  }

  lemma {:induction false} ActRepeats(cfg: Config, d: Durable, a: Action, c: CallId)
    ensures var key, d' := cfg.KeyOf(c), Act(cfg, d, a);
            Count(d'.ledger, key) + Closings(d, c)
              <= Count(d.ledger, key) + Closings(d', c) + if LostResult(cfg, d, a, c) then 1 else 0
  {
    var key, cs := cfg.KeyOf(c), CommitsOf(cfg, d, a);
    var done := if a.Note? then cs else Cut(cs, a.cut);
    if c in Reduce(d.log).closed {
      ClosedStays(d, done, c);
    }
    CountGrows(d, done, key);
    if a.Execute? {
      ExecutePlanHasOne(cfg, d, a.req, a.env, key);
    } else {
      NoEffects(cs, key);
    }
    if !a.Note? {
      EffectsInCut(cs, a.cut, key);
    }
  }

  /** MAIN: whatever the configuration, a key has at most one effect more than
      the kills that fell between its effect and its result; none more while the
      call is unanswered. */
  lemma {:induction false} EffectsAreBoundedByLostResults(
    cfg: Config, d: Durable, actions: seq<Action>, c: CallId)
    ensures var d' := Run(cfg, d, actions);
            Count(d'.ledger, cfg.KeyOf(c)) + Closings(d, c)
              <= Count(d.ledger, cfg.KeyOf(c)) + LostResults(cfg, d, actions, c) + Closings(d', c)
    decreases |actions|
  {
    if actions != [] {
      ActRepeats(cfg, d, actions[0], c);
      EffectsAreBoundedByLostResults(cfg, Act(cfg, d, actions[0]), actions[1..], c);
    }
  }

  /** Where the log is in order, only a kill loses a result. */
  lemma {:induction false} OnlyAKillLosesAResult(cfg: Config, d: Durable, a: Action, c: CallId)
    requires Inv(Ordered, cfg, d) && OrderAllowed(cfg, d, a) && LostResult(cfg, d, a, c)
    ensures a.cut < |CommitsOf(cfg, d, a)|
  {
    var p := ExecutePlan(cfg, d, a.req, a.env);
    ExecuteOrdered(cfg, d, a.req, a.env);
    if a.cut >= |p.commits| && !p.out.Done? {
      InterruptedHasNoEffect(cfg, d, a.req, a.env);
      CountGrows(d, p.commits, cfg.KeyOf(c));
    }
  }

  lemma {:induction false} GateInterrupted(cfg: Config, d: Durable, req: Request, existing: bool, env: Env)
    requires req.tool in cfg.registry && !GatePlan(cfg, d, req, existing, env).out.Done?
    ensures GatePlan(cfg, d, req, existing, env) == InterruptPlan(d, req, env)
  {}

  lemma {:induction false} RowInterrupted(cfg: Config, d: Durable, req: Request, env: Env)
    requires req.tool in cfg.registry && !RowPlan(cfg, d, req, env).out.Done?
    ensures RowPlan(cfg, d, req, env) == InterruptPlan(d, req, env)
  {
    if !GatePlan(cfg, d, req, false, env).out.Done? {
      GateInterrupted(cfg, d, req, false, env);
    }
    if !GatePlan(cfg, d, req, true, env).out.Done? {
      GateInterrupted(cfg, d, req, true, env);
    }
  }

  lemma {:induction false} InterruptedHasNoEffect(cfg: Config, d: Durable, req: Request, env: Env)
    requires !ExecutePlan(cfg, d, req, env).out.Done?
    ensures EffectsIn(ExecutePlan(cfg, d, req, env).commits, cfg.KeyOf(req.call)) == 0
  {
    var noted := if req.call in Reduce(d.log).open then [] else [Append(CallEvent(req))];
    RowInterrupted(cfg, ApplyAll(d, noted), req, env);
    var rest := InterruptPlan(ApplyAll(d, noted), req, env).commits;
    NoEffects(noted + rest, cfg.KeyOf(req.call));
  }

  lemma {:induction false} RepeatsFromTheStart(cfg: Config, actions: seq<Action>, c: CallId)
    ensures Count(Run(cfg, EMPTY, actions).ledger, cfg.KeyOf(c)) <= LostResults(cfg, EMPTY, actions, c) + 1
  {
    EffectsAreBoundedByLostResults(cfg, EMPTY, actions, c);
  }

  // ------------------------------------------------------- the bound is attained

  const WRITER: Tool := Tool(WriteNonidempotent, false, false, None)
  const ENV: Env := Env(0.0, None, Inconclusive, Returns("ok"), "int")

  function BareConfig(dedup: bool): Config {
    Config("run", "branch", map["write" := WRITER], dedup, false)
  }

  const REQUEST: Request := Request("call", "write", map[])

  function Attempts(a: Action, n: nat): seq<Action> {
    if n == 0 then [] else [a] + Attempts(a, n - 1)
  }

  /** The call is on record, nothing else is, and `n` effects are in the ledger. */
  predicate Repeated(cfg: Config, d: Durable, n: nat) {
    && d.log == [CallEvent(REQUEST)] && d.rows == map[]
    && Count(d.ledger, cfg.KeyOf("call")) == n
  }

  /** What is left to do once the call is on record. */
  function BareCommits(cfg: Config): seq<Commit> {
    var key, result := cfg.KeyOf("call"), Some(Returned("ok"));
    [ApplyEffect(key, "write", map[], false),
     Append(ResultEvent("call", Executed, result, "")),
     InsertRow(key, Row("call", "write", Sha(map[]), RowExecuted, result))]
  }

  lemma {:induction false} BareReduced(log: Log)
    requires log == [CallEvent(REQUEST)]
    ensures "call" in Reduce(log).open && Reduce(log).closed == [] && !Reduce(log).terminal
    ensures Best(log, "call", "write").None?
  {
    assert log == [] + [CallEvent(REQUEST)];
    ReduceAppend([], CallEvent(REQUEST));
    BestAppend([], CallEvent(REQUEST), "call", "write");
  }

  lemma {:induction false} BarePlan(dedup: bool, d: Durable, n: nat)
    requires Repeated(BareConfig(dedup), d, n)
    ensures ExecutePlan(BareConfig(dedup), d, REQUEST, ENV).commits == BareCommits(BareConfig(dedup))
  {
    var cfg := BareConfig(dedup);
    BareReduced(d.log);
    assert ApplyAll(d, []) == d;
    assert RowPlan(cfg, d, REQUEST, ENV) == GatePlan(cfg, d, REQUEST, false, ENV);
    assert GatePlan(cfg, d, REQUEST, false, ENV) == EffectPlan(cfg, REQUEST, false, map[], ENV);
  }

  lemma {:induction false} OneAttempt(dedup: bool, d: Durable, n: nat)
    requires Repeated(BareConfig(dedup), d, n)
    ensures var cfg := BareConfig(dedup);
            && Repeated(cfg, Act(cfg, d, Execute(REQUEST, ENV, 1)), n + 1)
            && LostResult(cfg, d, Execute(REQUEST, ENV, 1), "call")
  {
    var cfg := BareConfig(dedup);
    BarePlan(dedup, d, n);
    BareReduced(d.log);
    var effect := BareCommits(cfg)[0];
    assert Cut(BareCommits(cfg), 1) == [effect];
    CountAppend(d.ledger, EffectRow(effect.key, "write", map[]), effect.key);
    ApplyOne(d, effect);
  }

  /** The attempt that is allowed to write its result. */
  lemma {:induction false} LastAttempt(dedup: bool, d: Durable, n: nat)
    requires Repeated(BareConfig(dedup), d, n)
    ensures var cfg := BareConfig(dedup);
            var d' := Act(cfg, d, Execute(REQUEST, ENV, 2));
            Count(d'.ledger, cfg.KeyOf("call")) == n + 1 && "call" in Reduce(d'.log).closed
  {
    var cfg := BareConfig(dedup);
    BarePlan(dedup, d, n);
    BareReduced(d.log);
    var effect, answer := BareCommits(cfg)[0], BareCommits(cfg)[1];
    assert Cut(BareCommits(cfg), 2) == [effect, answer];
    EffectThenAnswer(d, effect, answer);
  }

  /** One more effect of a key, and the answer to an open call. */
  lemma {:induction false} EffectThenAnswer(d: Durable, effect: Commit, answer: Commit)
    requires effect.ApplyEffect? && !effect.idempotent && answer.Append? && answer.event.ToolResult?
    requires answer.event.call.Some? && answer.event.call.value in Reduce(d.log).open
    requires answer.event.call.value !in Reduce(d.log).closed && !Reduce(d.log).terminal
    ensures var d' := ApplyAll(d, [effect, answer]);
            && Count(d'.ledger, effect.key) == Count(d.ledger, effect.key) + 1
            && answer.event.call.value in Reduce(d'.log).closed
  {
    CountAppend(d.ledger, EffectRow(effect.key, effect.operation, effect.payload), effect.key);
    assert [effect, answer][1..] == [answer];
    ApplyOne(Apply(d, effect), answer);
    ReduceAppend(d.log, answer.event);
  }

  /** The first attempt, killed once the call is on record. */
  lemma {:induction false} FirstAttempt(dedup: bool)
    ensures Repeated(BareConfig(dedup), Act(BareConfig(dedup), EMPTY, Execute(REQUEST, ENV, 1)), 0)
  {
    var cfg := BareConfig(dedup);
    var cs := ExecutePlan(cfg, EMPTY, REQUEST, ENV).commits;
    assert Reduce([]) == INIT;
    assert cs[0] == Append(CallEvent(REQUEST));
    var d0 := Apply(EMPTY, cs[0]);
    ApplyOne(EMPTY, cs[0]);
    assert cs[1..] == RowPlan(cfg, d0, REQUEST, ENV).commits;
    assert Repeated(cfg, d0, 0);
    assert Cut(cs, 1) == [cs[0]];
  }

  /** Wherever a call has had its effect any number of times, `a` adds one and loses the result. */
  ghost predicate AlwaysRepeats(cfg: Config, a: Action) {
    forall d, n: nat :: Repeated(cfg, d, n) ==>
      Repeated(cfg, Act(cfg, d, a), n + 1) && LostResult(cfg, d, a, "call")
  }

  /** An action that always adds one effect and loses its result does so `k` times. */
  lemma {:induction false} AttemptsAddUp(cfg: Config, d: Durable, n: nat, k: nat, a: Action)
    requires Repeated(cfg, d, n) && AlwaysRepeats(cfg, a)
    ensures Repeated(cfg, Run(cfg, d, Attempts(a, k)), n + k)
    ensures LostResults(cfg, d, Attempts(a, k), "call") == k
    decreases k
  {
    if k != 0 {
      AttemptsAddUp(cfg, Act(cfg, d, a), n + 1, k - 1, a);
      AttemptsUnfold(cfg, d, k, a);
    }
  }

  lemma {:induction false} AttemptsUnfold(cfg: Config, d: Durable, k: nat, a: Action)
    requires k > 0
    ensures var d' := Act(cfg, d, a);
            && Run(cfg, d, Attempts(a, k)) == Run(cfg, d', Attempts(a, k - 1))
            && LostResults(cfg, d, Attempts(a, k), "call")
            == (if LostResult(cfg, d, a, "call") then 1 else 0) + LostResults(cfg, d', Attempts(a, k - 1), "call")
  {
    assert Attempts(a, k)[0] == a && Attempts(a, k)[1..] == Attempts(a, k - 1);
  }

  /** One attempt to get on record, `n` that lose their result, one that keeps it. */
  function WorstRun(n: nat): seq<Action> {
    [Execute(REQUEST, ENV, 1)] + (Attempts(Execute(REQUEST, ENV, 1), n) + [Execute(REQUEST, ENV, 2)])
  }

  /** MAIN: for every number of lost results there is a run that repeats the
      effect that often and once more, with deduplication on as with it off. */
  lemma {:induction false} TheBoundIsAttained(dedup: bool, n: nat)
    ensures var cfg := BareConfig(dedup);
            && LostResults(cfg, EMPTY, WorstRun(n), "call") == n
            && Count(Run(cfg, EMPTY, WorstRun(n)).ledger, cfg.KeyOf("call")) == n + 1
  {
    var cfg := BareConfig(dedup);
    var first, last := Execute(REQUEST, ENV, 1), Execute(REQUEST, ENV, 2);
    var d0 := Act(cfg, EMPTY, first);
    FirstAttempt(dedup);
    forall d, k: nat | Repeated(cfg, d, k)
      ensures Repeated(cfg, Act(cfg, d, first), k + 1) && LostResult(cfg, d, first, "call")
    {
      OneAttempt(dedup, d, k);
    }
    AttemptsAddUp(cfg, d0, 0, n, first);
    var d1 := Run(cfg, d0, Attempts(first, n));
    LastAttempt(dedup, d1, n);
    RunConcat(cfg, d0, Attempts(first, n), [last], "call");
    assert WorstRun(n)[0] == first && WorstRun(n)[1..] == Attempts(first, n) + [last];
    assert [last][1..] == [];
  }

  lemma {:induction false} RunConcat(cfg: Config, d: Durable, a: seq<Action>, b: seq<Action>, c: CallId)
    ensures Run(cfg, d, a + b) == Run(cfg, Run(cfg, d, a), b)
    ensures LostResults(cfg, d, a + b, c)
         == LostResults(cfg, d, a, c) + LostResults(cfg, Run(cfg, d, a), b, c)
    decreases |a|
  {
    if a == [] {
      assert a + b == b;
    } else {
      assert (a + b)[0] == a[0] && (a + b)[1..] == a[1..] + b;
      RunConcat(cfg, Act(cfg, d, a[0]), a[1..], b, c);
    }
  }

  // ------------------------------------------------ deduplication changes nothing

  ghost predicate NoIntents(d: Durable) {
    forall key :: key in d.rows ==> d.rows[key].status != RowPending
  }

  lemma {:induction false} StillNoIntents(d: Durable, cs: seq<Commit>)
    requires NoIntents(d)
    requires forall i :: 0 <= i < |cs| && cs[i].InsertRow? ==> cs[i].row.status != RowPending
    ensures NoIntents(ApplyAll(d, cs))
    decreases |cs|
  {
    if cs != [] {
      StillNoIntents(Apply(d, cs[0]), cs[1..]);
    }
  }

  predicate WritesNoIntent(cs: seq<Commit>) {
    forall i :: 0 <= i < |cs| && cs[i].InsertRow? ==> cs[i].row.status != RowPending
  }

  lemma {:induction false} ExecuteWritesNoIntent(cfg: Config, d: Durable, req: Request, env: Env)
    requires !cfg.outbox
    ensures WritesNoIntent(ExecutePlan(cfg, d, req, env).commits)
  {
    ACallWritesOnlyItsOwn(cfg, d, req, env);
    var cs := ExecutePlan(cfg, d, req, env).commits;
    forall i | 0 <= i < |cs| && cs[i].InsertRow? ensures cs[i].row.status != RowPending {
      assert IsOwn(cfg, req, env, cs[i]);
    }
  }

  /** A row is consulted only for a call the log has not answered, and without
      intents there is no such row. */
  lemma {:induction false} DedupChangesNoPlan(cfg: Config, d: Durable, req: Request, env: Env)
    requires !cfg.outbox && Inv(Ordered, cfg, d) && NoIntents(d)
    ensures ExecutePlan(cfg, d, req, env) == ExecutePlan(cfg.(dedup := !cfg.dedup), d, req, env)
  {
    var cfg' := cfg.(dedup := !cfg.dedup);
    var key := cfg.KeyOf(req.call);
    if req.call !in Reduce(d.log).closed && req.tool in cfg.registry {
      assert key in d.rows ==> RowOrdered(cfg, d, key);
      ApplyOne(d, Append(CallEvent(req)));
      var noted := if req.call in Reduce(d.log).open then [] else [Append(CallEvent(req))];
      var d' := ApplyAll(d, noted);
      assert d'.rows == d.rows;
      SameGate(cfg, d', req, false, env);
    }
  }

  lemma {:induction false} SameGate(cfg: Config, d: Durable, req: Request, existing: bool, env: Env)
    requires !cfg.outbox && req.tool in cfg.registry
    ensures GatePlan(cfg, d, req, existing, env)
         == GatePlan(cfg.(dedup := !cfg.dedup), d, req, existing, env)
  {}

  /** MAIN: with the outbox off, the deduplication switch changes no run. */
  lemma {:induction false} DedupChangesNoRun(cfg: Config, d: Durable, actions: seq<Action>)
    requires !cfg.outbox && Inv(Ordered, cfg, d) && NoIntents(d) && OrderedRun(cfg, d, actions)
    ensures Run(cfg, d, actions) == Run(cfg.(dedup := !cfg.dedup), d, actions)
    decreases |actions|
  {
    if actions != [] {
      var a := actions[0];
      var d' := Act(cfg, d, a);
      if a.Execute? {
        DedupChangesNoPlan(cfg, d, a.req, a.env);
        ExecuteWritesNoIntent(cfg, d, a.req, a.env);
      }
      StillNoIntents(d, if a.Note? then CommitsOf(cfg, d, a) else Cut(CommitsOf(cfg, d, a), a.cut));
      ActKeepsOrdered(cfg, d, a);
      DedupChangesNoRun(cfg, d', actions[1..]);
    }
  }
}
