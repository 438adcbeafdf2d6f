/** The promise the outbox is for, in the affirmative: a writer's call that is let in and
    not killed ends executed, with one effect, whatever was killed before. */
module ExactlyOnce {
  import opened Events
  import opened Tools
  import opened Approvals
  import opened Reducer
  import opened ReducerSpec
  import opened Pipeline
  import opened Invariants
  import opened Exclusivity
  import opened Justification
  import opened Attribution
  import opened Ordering
  import opened Runs
  import opened Agreement
  import opened Boundaries

  predicate NoResultIn(cs: seq<Commit>, c: CallId) {
    forall i :: 0 <= i < |cs| && cs[i].Append? ==> !IsResultOf(cs[i].event, c)
  }

  lemma {:induction false} StillUnanswered(d: Durable, cs: seq<Commit>, c: CallId)
    requires FirstResult(d.log, c).None? && NoResultIn(cs, c)
    ensures FirstResult(ApplyAll(d, cs).log, c).None?
    decreases |cs|
  {
    if cs != [] {
      if cs[0].Append? {
        FirstResultAppend(d.log, cs[0].event, c);
      }
      forall i | 0 <= i < |cs[1..]| && cs[1..][i].Append? ensures !IsResultOf(cs[1..][i].event, c) {
        assert cs[1..][i] == cs[i + 1];
      }
      StillUnanswered(Apply(d, cs[0]), cs[1..], c);
    }
  }

  /** The first result that is written is the one the call has from then on. */
  lemma {:induction false} AnsweredWith(d: Durable, before: seq<Commit>, e: Body, behind: seq<Commit>, c: CallId)
    requires FirstResult(d.log, c).None? && NoResultIn(before, c) && IsResultOf(e, c)
    ensures FirstResult(ApplyAll(d, before + ([Append(e)] + behind)).log, c) == Some(e)
  {
    var d1 := ApplyAll(d, before);
    var d2 := Apply(d1, Append(e));
    StillUnanswered(d, before, c);
    FirstResultAppend(d1.log, e, c);
    ApplyAllConcat(d, before, [Append(e)] + behind);
    ApplyAllConcat(d1, [Append(e)], behind);
    ApplyOne(d1, Append(e));
    CommitsKeepResult(d2, behind, c);
  }

  /** If an intent is found, the read-back settles what became of it. */
  ghost predicate Decisive(cfg: Config, d: Durable, req: Request, env: Env)
    requires req.tool in cfg.registry
  {
    cfg.KeyOf(req.call) in d.rows ==> cfg.registry[req.tool].hasProbe && !env.probe.Inconclusive?
  }

  /** How such a call answers: it notes at most what is not a result, then `executed`. */
  ghost predicate AnswersExecuted(p: Exec, c: CallId) {
    && p.out.Done? && p.out.status == Executed
    && exists before: seq<Commit>, result: Option<Payload>, behind: seq<Commit> ::
         && p.commits == before + ([Append(ResultEvent(c, Executed, result, ""))] + behind)
         && NoResultIn(before, c)
  }

  lemma {:induction false} EffectAnswers(cfg: Config, req: Request, existing: bool, args: Args, env: Env)
    requires req.tool in cfg.registry && env.fn.Returns?
    ensures AnswersExecuted(EffectPlan(cfg, req, existing, args, env), req.call)
  {
    var before := IntentCommits(cfg, req, existing, args) + EffectCommits(cfg, req, args, env);
    var p, record := EffectPlan(cfg, req, existing, args, env), RecordPlan(cfg, req, args, env).commits;
    assert p.commits == before + ([record[0]] + [record[1]]);
    assert NoResultIn(before, req.call);
  }

  /** An intent is found: what the read-back says is put on record, or the tool runs again. */
  lemma {:induction false} IntentAnswers(cfg: Config, d: Durable, req: Request, env: Env)
    requires cfg.outbox && cfg.Nonidempotent(req.tool) && LetIn(cfg, d.log, req, env) && env.fn.Returns?
    requires var key := cfg.KeyOf(req.call);
             key in d.rows && d.rows[key].status == RowPending && d.rows[key].sha == Sha(req.args)
    requires Decisive(cfg, d, req, env)
    ensures AnswersExecuted(RowPlan(cfg, d, req, env), req.call)
  {
    var p := RowPlan(cfg, d, req, env);
    if env.probe.NotApplied? {
      LetInMeans(cfg, d, req, true, env);
      EffectAnswers(cfg, req, true, ActualArgs(req, env), env);
      assert p == EffectPlan(cfg, req, true, ActualArgs(req, env), env);
    } else {
      var result := Some(Reconstructed(req.tool, env.probe.detail));
      assert p.commits == [] + ([Append(ResultEvent(req.call, Executed, result, ""))] + [p.commits[1]]);
      assert NoResultIn([], req.call);
    }
  }

  lemma {:induction false} RowAnswers(cfg: Config, d: Durable, req: Request, env: Env)
    requires cfg.outbox && cfg.Nonidempotent(req.tool) && LetIn(cfg, d.log, req, env) && env.fn.Returns?
    requires var key := cfg.KeyOf(req.call);
             key in d.rows ==> d.rows[key].status == RowPending && d.rows[key].sha == Sha(req.args)
    requires Decisive(cfg, d, req, env)
    ensures AnswersExecuted(RowPlan(cfg, d, req, env), req.call)
  {
    if cfg.KeyOf(req.call) in d.rows {
      IntentAnswers(cfg, d, req, env);
    } else {
      LetInMeans(cfg, d, req, false, env);
      EffectAnswers(cfg, req, false, ActualArgs(req, env), env);
    }
  }

  lemma {:induction false} AnswersBehind(p: Exec, noted: seq<Commit>, c: CallId)
    requires AnswersExecuted(p, c) && NoResultIn(noted, c)
    ensures AnswersExecuted(p.After(noted), c)
  {
    var before: seq<Commit>, result: Option<Payload>, behind: seq<Commit> :|
      && p.commits == before + ([Append(ResultEvent(c, Executed, result, ""))] + behind)
      && NoResultIn(before, c);
    var rest := [Append(ResultEvent(c, Executed, result, ""))] + behind;
    assert noted + (before + rest) == (noted + before) + rest;
    assert NoResultIn(noted + before, c);
  }

  /** What the rows say of a call that is not answered. */
  lemma {:induction false} OpenRowIsAnIntent(cfg: Config, d: Durable, req: Request, env: Env)
    requires Upheld(cfg, d) && OneRequest(d, req, env) && cfg.Nonidempotent(req.tool)
    requires req.call !in Reduce(d.log).closed && cfg.KeyOf(req.call) in d.rows
    ensures d.rows[cfg.KeyOf(req.call)].status == RowPending && d.rows[cfg.KeyOf(req.call)].sha == Sha(req.args)
  {
    assert RowOrdered(cfg, d, cfg.KeyOf(req.call));
    assert RowAccounted(cfg, d, cfg.KeyOf(req.call));
    assert OfWriter(cfg, d.log, req.call) && CallAgreed(cfg, d, req.call);
  }

  lemma {:induction false} ExecuteAnswers(cfg: Config, d: Durable, req: Request, env: Env)
    requires cfg.outbox && Upheld(cfg, d) && Trusted(cfg, d, req, env) && cfg.Nonidempotent(req.tool)
    requires req.call !in Reduce(d.log).closed && LetIn(cfg, d.log, req, env) && env.fn.Returns?
    requires Decisive(cfg, d, req, env)
    ensures AnswersExecuted(ExecutePlan(cfg, d, req, env), req.call)
  {
    var noted := if req.call in Reduce(d.log).open then [] else [Append(CallEvent(req))];
    var d' := ApplyAll(d, noted);
    if noted != [] {
      ApplyOne(d, noted[0]);
      BestAppend(d.log, CallEvent(req), req.call, req.tool);
    }
    if cfg.KeyOf(req.call) in d.rows {
      OpenRowIsAnIntent(cfg, d, req, env);
    }
    RowAnswers(cfg, d', req, env);
    AnswersBehind(RowPlan(cfg, d', req, env), noted, req.call);
  }

  /** MAIN: from any state a run may have left behind, a writer's call that is not yet
      answered, is let in, finds a read-back that settles its intent if it has one, and is
      driven to its end with a tool that returns, is recorded as executed and has exactly
      one effect. */
  lemma {:induction false} LetInRunsExactlyOnce(cfg: Config, d: Durable, req: Request, env: Env)
    requires cfg.outbox && Upheld(cfg, d) && OrderAllowed(cfg, d, Execute(req, env, 0)) && Trusted(cfg, d, req, env)
    requires cfg.Nonidempotent(req.tool) && req.call !in Reduce(d.log).closed
    requires LetIn(cfg, d.log, req, env) && Decisive(cfg, d, req, env) && env.fn.Returns?
    ensures var p := ExecutePlan(cfg, d, req, env);
            var end := ApplyAll(d, p.commits);
            && p.out.Done? && p.out.status == Executed
            && FirstResult(end.log, req.call).Some? && FirstResult(end.log, req.call).value.status == Executed
            && Count(end.ledger, cfg.KeyOf(req.call)) == 1
  {
    var p, c := ExecutePlan(cfg, d, req, env), req.call;
    var end := ApplyAll(d, p.commits);
    ExecuteAnswers(cfg, d, req, env);
    var before: seq<Commit>, result: Option<Payload>, behind: seq<Commit> :|
      && p.commits == before + ([Append(ResultEvent(c, Executed, result, ""))] + behind)
      && NoResultIn(before, c);
    CleanMeans(d.log);
    FirstResultMeans(d.log, c);
    AnsweredWith(d, before, ResultEvent(c, Executed, result, ""), behind, c);
    EndsAgreed(cfg, d, req, env);
    AnsweredWasCalled(cfg, end, c);
    DrivenIsOnRecord(cfg, d, req, env);
    assert CallAgreed(cfg, end, c);
  }

  lemma {:induction false} EndsAgreed(cfg: Config, d: Durable, req: Request, env: Env)
    requires cfg.outbox && Upheld(cfg, d) && OrderAllowed(cfg, d, Execute(req, env, 0)) && Trusted(cfg, d, req, env)
    ensures var end := ApplyAll(d, ExecutePlan(cfg, d, req, env).commits);
            Inv(Agreed, cfg, end) && Inv(Ordered, cfg, end)
  {
    var cs := ExecutePlan(cfg, d, req, env).commits;
    ExecuteAgreed(cfg, d, req, env);
    ExecuteOrdered(cfg, d, req, env);
    KeepsAtEveryCut(Agreed, cfg, d, cs, |cs|);
    KeepsAtEveryCut(Ordered, cfg, d, cs, |cs|);
  }

  lemma {:induction false} AnsweredWasCalled(cfg: Config, d: Durable, c: CallId)
    requires Inv(Ordered, cfg, d) && FirstResult(d.log, c).Some?
    ensures FirstCall(d.log, c).Some?
  {
    CleanMeans(d.log);
    FirstCallMeans(d.log, c);
    FirstResultMeans(d.log, c);
  }

  /** A call that is on record at its end is so with the request it was driven with. */
  lemma {:induction false} DrivenIsOnRecord(cfg: Config, d: Durable, req: Request, env: Env)
    requires req.call !in Reduce(d.log).closed && OneRequest(d, req, env)
    requires FirstCall(ApplyAll(d, ExecutePlan(cfg, d, req, env).commits).log, req.call).Some?
    ensures FirstCall(ApplyAll(d, ExecutePlan(cfg, d, req, env).commits).log, req.call) == Some(req)
  {
    var cs := ExecutePlan(cfg, d, req, env).commits;
    assert Cut(cs, |cs|) == cs;
    NamedAsDriven(cfg, d, req, env, |cs|);
  }
}
