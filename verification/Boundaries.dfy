/** Where the pipeline's promises end, stated exactly: what an unregistered tool and a
    read-back that lies cost. */
module Boundaries {
  import opened Events
  import opened Tools
  import opened Approvals
  import opened Reducer
  import opened ReducerSpec
  import opened Pipeline
  import opened Invariants
  import opened Ordering
  import opened Deciding
  import opened Exclusivity
  import opened Justification

  lemma {:induction false} UnregisteredCommits(cfg: Config, d: Durable, req: Request, env: Env)
    requires req.tool !in cfg.registry && req.call !in Reduce(d.log).closed
    ensures ExecutePlan(cfg, d, req, env).commits ==
            [Append(CallEvent(req)), Append(Error("unknown_tool", false)),
             Append(ResultEvent(req.call, Failed, None, "unknown_tool"))]
  {}

  lemma {:induction false} ThreeAppends(d: Durable, a: Body, b: Body, c: Body)
    ensures ApplyAll(d, [Append(a), Append(b), Append(c)]).log == d.log + [a] + [b] + [c]
  {
    assert [Append(a), Append(b), Append(c)][1..] == [Append(b), Append(c)];
    assert [Append(b), Append(c)][1..] == [Append(c)];
    ApplyOne(Apply(Apply(d, Append(a)), Append(b)), Append(c));
  }

  /** A call that is noted where it must not be is flagged for good. */
  lemma {:induction false} NotedWronglyIsFlagged(log: Log, req: Request, more: Log)
    requires Reduce(log).terminal || req.call in Reduce(log).open
    ensures Report(log + [CallEvent(req)] + more) != []
  {
    ReduceAppend(log, CallEvent(req));
    ViolationsStay(log + [CallEvent(req)], more);
  }

  /** A new call that is noted, and answered with an error, leaves no violation. */
  lemma {:induction false} NewAndAnsweredIsClean(cfg: Config, d: Durable, req: Request, env: Env)
    requires Inv(Ordered, cfg, d) && req.tool !in cfg.registry && !Reduce(d.log).terminal
    requires req.call !in Reduce(d.log).closed && req.call !in Reduce(d.log).open
    ensures Report(ApplyAll(d, ExecutePlan(cfg, d, req, env).commits).log) == []
  {
    var cs := ExecutePlan(cfg, d, req, env).commits;
    var call, closing := [Append(CallEvent(req))], Close(req.call, Failed, "unknown_tool", "unknown_tool").commits;
    CallIsNoted(cfg, d, req, call);
    CloseKeeps(cfg, WithCall(d, req), req.call, Failed, "unknown_tool", "unknown_tool");
    KeepsBehind(cfg, d, call, WithCall(d, req), closing);
    KeepsAtEveryCut(Ordered, cfg, d, call + closing, |call + closing|);
    assert cs == call + closing;
  }

  /** MAIN: a call of an unregistered tool is noted without asking whether it already
      was, so it leaves the log clean exactly when it is replayed or when the call is new
      and the run has not ended. Killed before its result and driven again, it breaks INV-001. */
  lemma {:induction false} UnregisteredIsSafeExactlyWhenNew(cfg: Config, d: Durable, req: Request, env: Env)
    requires Inv(Ordered, cfg, d) && req.tool !in cfg.registry
    ensures var s := Reduce(d.log);
            Report(ApplyAll(d, ExecutePlan(cfg, d, req, env).commits).log) == [] <==>
            req.call in s.closed || (!s.terminal && req.call !in s.open)
  {
    if req.call in Reduce(d.log).closed {
    } else if Reduce(d.log).terminal || req.call in Reduce(d.log).open {
      var e, f, g := CallEvent(req), Error("unknown_tool", false), ResultEvent(req.call, Failed, None, "unknown_tool");
      UnregisteredCommits(cfg, d, req, env);
      ThreeAppends(d, e, f, g);
      NotedWronglyIsFlagged(d.log, req, [f] + [g]);
      assert d.log + [e] + ([f] + [g]) == d.log + [e] + [f] + [g];
    } else {
      NewAndAnsweredIsClean(cfg, d, req, env);
    }
  }

  /** An intent waits for an open call, and its tool can be read back. */
  ghost predicate IntentWaits(cfg: Config, d: Durable, req: Request) {
    var key := cfg.KeyOf(req.call);
    && cfg.outbox && cfg.Nonidempotent(req.tool) && cfg.registry[req.tool].hasProbe
    && req.call in Reduce(d.log).open && req.call !in Reduce(d.log).closed
    && key in d.rows && d.rows[key].status == RowPending && d.rows[key].sha == Sha(req.args)
  }

  lemma {:induction false} LetInMeans(cfg: Config, d: Durable, req: Request, existing: bool, env: Env)
    requires req.tool in cfg.registry && LetIn(cfg, d.log, req, env)
    ensures GatePlan(cfg, d, req, existing, env) == EffectPlan(cfg, req, existing, ActualArgs(req, env), env)
  {}

  lemma {:induction false} CutTwo(d: Durable, a: Commit, b: Commit, rest: seq<Commit>)
    ensures ApplyAll(d, Cut([a, b] + rest, 2)) == Apply(Apply(d, a), b)
  {
    assert Cut([a, b] + rest, 2) == [a, b];
    assert [a, b][1..] == [b];
    ApplyOne(Apply(d, a), b);
  }

  /** A call that is open and let in, with no row to its name, runs. */
  lemma {:induction false} OpenCallPlan(cfg: Config, d: Durable, req: Request, env: Env)
    requires req.tool in cfg.registry && LetIn(cfg, d.log, req, env) && cfg.KeyOf(req.call) !in d.rows
    requires req.call in Reduce(d.log).open && req.call !in Reduce(d.log).closed
    ensures ExecutePlan(cfg, d, req, env).commits ==
            EffectPlan(cfg, req, false, ActualArgs(req, env), env).commits
  {
    LetInMeans(cfg, d, req, false, env);
    assert RowPlan(cfg, d, req, env) == GatePlan(cfg, d, req, false, env);
    assert ApplyAll(d, []) == d;
  }

  /** What a writer commits first: its intent, then its effect. */
  lemma {:induction false} WriterCommits(cfg: Config, d: Durable, req: Request, env: Env)
    requires cfg.outbox && cfg.Nonidempotent(req.tool) && env.tampered.None? && !env.fn.RaisesBefore?
    ensures var key := cfg.KeyOf(req.call);
            ApplyAll(d, Cut(EffectPlan(cfg, req, false, req.args, env).commits, 2)) ==
            Apply(Apply(d, InsertRow(key, Row(req.call, req.tool, Sha(req.args), RowPending, None))),
                  ApplyEffect(key, req.tool, req.args, false))
  {
    var key := cfg.KeyOf(req.call);
    var intent := InsertRow(key, Row(req.call, req.tool, Sha(req.args), RowPending, None));
    var effect := ApplyEffect(key, req.tool, req.args, false);
    var record := RecordPlan(cfg, req, req.args, env).commits;
    assert EffectPlan(cfg, req, false, req.args, env).commits == [intent] + ([effect] + record);
    assert [intent] + ([effect] + record) == [intent, effect] + record;
    CutTwo(d, intent, effect, record);
  }

  lemma {:induction false} DeniedIntentRunsAgain(cfg: Config, d: Durable, req: Request, env: Env)
    requires IntentWaits(cfg, d, req) && LetIn(cfg, d.log, req, env) && env.probe.NotApplied?
    ensures ExecutePlan(cfg, d, req, env) == EffectPlan(cfg, req, true, ActualArgs(req, env), env)
  {
    LetInMeans(cfg, d, req, true, env);
    assert RowPlan(cfg, d, req, env) == GatePlan(cfg, d, req, true, env);
    assert ApplyAll(d, []) == d;
  }

  /** Only the tool itself moves the ledger. */
  lemma {:induction false} NoEffectNoCount(d: Durable, cs: seq<Commit>, key: Key)
    requires !HasEffect(cs)
    ensures Count(ApplyAll(d, cs).ledger, key) == Count(d.ledger, key)
    decreases |cs|
  {
    if cs != [] {
      assert !cs[0].ApplyEffect? && forall i :: 0 <= i < |cs[1..]| ==> cs[1..][i] == cs[i + 1];
      NoEffectNoCount(Apply(d, cs[0]), cs[1..], key);
    }
  }

  lemma {:induction false} RecordHasNoEffect(cfg: Config, req: Request, args: Args, env: Env)
    requires req.tool in cfg.registry
    ensures !HasEffect(RecordPlan(cfg, req, args, env).commits)
  {}

  lemma {:induction false} OneMoreEffect(d: Durable, c: Commit)
    requires c.ApplyEffect? && !c.idempotent
    ensures Count(Apply(d, c).ledger, c.key) == Count(d.ledger, c.key) + 1
  {
    CountAppend(d.ledger, EffectRow(c.key, c.operation, c.payload), c.key);
  }

  lemma {:induction false} EffectCounts(cfg: Config, d: Durable, req: Request, args: Args, env: Env)
    requires cfg.Nonidempotent(req.tool)
    ensures Count(ApplyAll(d, EffectCommits(cfg, req, args, env)).ledger, cfg.KeyOf(req.call)) ==
            Count(d.ledger, cfg.KeyOf(req.call)) + if env.fn.RaisesBefore? then 0 else 1
  {
    var key := cfg.KeyOf(req.call);
    var effect := ApplyEffect(key, req.tool, args, false);
    if env.fn.RaisesBefore? {
      assert EffectCommits(cfg, req, args, env) == [];
    } else {
      assert EffectCommits(cfg, req, args, env) == [effect];
      ApplyOne(d, effect);
      OneMoreEffect(d, effect);
    }
  }

  lemma {:induction false} AnotherEffect(cfg: Config, d: Durable, req: Request, args: Args, env: Env)
    requires cfg.outbox && cfg.Nonidempotent(req.tool)
    ensures Count(ApplyAll(d, EffectPlan(cfg, req, true, args, env).commits).ledger, cfg.KeyOf(req.call)) ==
            Count(d.ledger, cfg.KeyOf(req.call)) + if env.fn.RaisesBefore? then 0 else 1
  {
    var effect, record := EffectCommits(cfg, req, args, env), RecordPlan(cfg, req, args, env).commits;
    assert EffectPlan(cfg, req, true, args, env).commits == effect + record;
    EffectCounts(cfg, d, req, args, env);
    ApplyAllConcat(d, effect, record);
    RecordHasNoEffect(cfg, req, args, env);
    NoEffectNoCount(ApplyAll(d, effect), record, cfg.KeyOf(req.call));
  }

  /** MAIN: when a read-back denies the effect of a waiting intent and the call is let
      through again, a tool that reaches the outside runs once more. Two effects come
      of it exactly when the denial was a lie. */
  lemma {:induction false} OnceExactlyWhenTheProbeIsHonest(cfg: Config, d: Durable, req: Request, env: Env)
    requires IntentWaits(cfg, d, req) && LetIn(cfg, d.log, req, env) && env.probe.NotApplied?
    ensures var key := cfg.KeyOf(req.call);
            var after := Count(ApplyAll(d, ExecutePlan(cfg, d, req, env).commits).ledger, key);
            && after == Count(d.ledger, key) + (if env.fn.RaisesBefore? then 0 else 1)
            && (!env.fn.RaisesBefore? ==> (after <= 1 <==> HonestProbe(cfg, d, req.call, env)))
  {
    DeniedIntentRunsAgain(cfg, d, req, env);
    AnotherEffect(cfg, d, req, ActualArgs(req, env), env);
  }
}
