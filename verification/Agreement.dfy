/** Recorded outcomes against the outside ledger, for non-idempotent writers with
    the outbox on, when nothing swaps arguments and read-backs tell the truth. */
module Agreement {
  import opened Events
  import opened Tools
  import opened Approvals
  import opened Reducer
  import opened ReducerSpec
  import opened Pipeline
  import opened Invariants
  import opened Exclusivity
  import opened Justification
  import opened Attribution
  import opened Ordering
  import opened Deciding
  import opened Runs

  ghost predicate Upheld(cfg: Config, d: Durable) {
    && Inv(Ordered, cfg, d) && Inv(AtMostOnce, cfg, d) && Inv(Agreed, cfg, d)
    && Inv(Justified, cfg, d) && Inv(Attributed, cfg, d)
  }

  /** An unanswered call stands for one request, the hook leaves its arguments alone, and
      a read-back neither denies an effect nor invents one. */
  ghost predicate Trusted(cfg: Config, d: Durable, req: Request, env: Env) {
    && OneRequest(d, req, env)
    && HonestProbe(cfg, d, req.call, env)
    && (req.call !in Reduce(d.log).closed && env.probe.Applied? ==> Count(d.ledger, cfg.KeyOf(req.call)) >= 1)
  }

  /** What an operator can read off the log before rejecting or editing the call of a
      writer: it was never let through. A plain approval needs no such look. */
  ghost predicate NeverLetThrough(cfg: Config, log: Log, dec: Decision) {
    var asked := PendingInterrupt(log);
    asked.Some? && ClosingCommits(asked.value, dec) != [] && cfg.Nonidempotent(asked.value.tool) ==>
      !MayHaveRun(cfg, log, asked.value)
  }

  ghost predicate AgreeAllowed(cfg: Config, d: Durable, a: Action) {
    && OrderAllowed(cfg, d, a)
    && (a.Execute? ==> Trusted(cfg, d, a.req, a.env))
    && (a.Decide? ==> NeverLetThrough(cfg, d.log, a.dec))
  }

  /** The ledger holds no effect of a writer's call that a decision would close. */
  ghost predicate NothingToUndo(cfg: Config, d: Durable, dec: Decision) {
    var asked := PendingInterrupt(d.log);
    asked.Some? && ClosingCommits(asked.value, dec) != [] && cfg.Nonidempotent(asked.value.tool) ==>
      Count(d.ledger, cfg.KeyOf(asked.value.gated)) == 0
  }

  ghost predicate OfWriter(cfg: Config, log: Log, c: CallId) {
    FirstCall(log, c).Some? && cfg.Nonidempotent(FirstCall(log, c).value.tool)
  }

  ghost predicate AgreeLicensed(cfg: Config, d: Durable, c: Commit) {
    match c
    case Append(e) =>
      && (e.ToolCall? && e.call.Some? && FirstCall(d.log, e.call.value).None? ==>
            FirstResult(d.log, e.call.value).None? && cfg.KeyOf(e.call.value) !in d.rows)
      && (e.ToolResult? && e.call.Some? && OfWriter(cfg, d.log, e.call.value) ==>
            StatusFits(e.status, Count(d.ledger, cfg.KeyOf(e.call.value))))
    case InsertRow(key, row) =>
      key in d.rows || (OfWriter(cfg, d.log, key.call) ==>
                          row.sha == Sha(FirstCall(d.log, key.call).value.args))
    case ApplyEffect(key, _, _, idempotent) =>
      (idempotent && key in d.dedup)
      || (OfWriter(cfg, d.log, key.call) ==> FirstResult(d.log, key.call).None?)
    case _ => true
  }

  lemma {:induction false} CommitAgreed(cfg: Config, d: Durable, c: Commit)
    requires Inv(Agreed, cfg, d) && AgreeLicensed(cfg, d, c)
    ensures Inv(Agreed, cfg, Apply(d, c))
  {
    var d' := Apply(d, c);
    forall x | OfWriter(cfg, d'.log, x)
      ensures CallAgreed(cfg, d', x)
    {
      assert OfWriter(cfg, d.log, x) ==> CallAgreed(cfg, d, x);
      match c
      case Append(e) =>
        FirstCallAppend(d.log, e, x);
        FirstResultAppend(d.log, e, x);
      case ApplyEffect(key, operation, payload, idempotent) =>
        CountAppend(d.ledger, EffectRow(key, operation, payload), cfg.KeyOf(x));
      case _ =>
    }
  }

  /** The call is recorded as requested and not yet answered. */
  ghost predicate Asked(cfg: Config, d: Durable, req: Request) {
    && Inv(Agreed, cfg, d)
    && FirstCall(d.log, req.call) == Some(req)
    && FirstResult(d.log, req.call).None?
  }

  lemma {:induction false} NotedStillAsked(cfg: Config, d: Durable, req: Request, e: Body)
    requires Asked(cfg, d, req) && !e.ToolCall? && !e.ToolResult?
    ensures Asked(cfg, Apply(d, Append(e)), req)
  {
    CommitAgreed(cfg, d, Append(e));
    FirstCallAppend(d.log, e, req.call);
    FirstResultAppend(d.log, e, req.call);
  }

  lemma {:induction false} AnswerAgreed(cfg: Config, d: Durable, req: Request, status: ResultStatus,
                     result: Option<Payload>, error: string)
    requires Asked(cfg, d, req)
    requires cfg.Nonidempotent(req.tool) ==> StatusFits(status, Count(d.ledger, cfg.KeyOf(req.call)))
    ensures var d' := Apply(d, Append(ResultEvent(req.call, status, result, error)));
            Inv(Agreed, cfg, d') && FirstCall(d'.log, req.call) == Some(req)
  {
    CommitAgreed(cfg, d, Append(ResultEvent(req.call, status, result, error)));
    FirstCallAppend(d.log, ResultEvent(req.call, status, result, error), req.call);
  }

  lemma {:induction false} CloseAgreed(cfg: Config, d: Durable, req: Request, status: ResultStatus, error: string, noted: string)
    requires Asked(cfg, d, req)
    requires cfg.Nonidempotent(req.tool) ==> StatusFits(status, Count(d.ledger, cfg.KeyOf(req.call)))
    ensures Keeps(Agreed, cfg, d, Close(req.call, status, error, noted).commits)
    ensures FirstCall(ApplyAll(d, Close(req.call, status, error, noted).commits).log, req.call) == Some(req)
  {
    NotedStillAsked(cfg, d, req, Error(noted, false));
    AnswerAgreed(cfg, Apply(d, Append(Error(noted, false))), req, status, None, error);
    KeepsTwo(Agreed, cfg, d, Append(Error(noted, false)), Append(ResultEvent(req.call, status, None, error)));
  }

  /** A list that agrees, followed by one more row write. */
  lemma {:induction false} ThenRowAgreed(cfg: Config, d: Durable, cs: seq<Commit>, req: Request, last: Commit)
    requires Keeps(Agreed, cfg, d, cs)
    requires FirstCall(ApplyAll(d, cs).log, req.call) == Some(req)
    requires last.CompleteRow? || last.MarkUnknown?
             || (last.InsertRow? && last.key == cfg.KeyOf(req.call) && last.row.sha == Sha(req.args))
    ensures Keeps(Agreed, cfg, d, cs + [last])
  {
    KeepsAtEveryCut(Agreed, cfg, d, cs, |cs|);
    var d' := ApplyAll(d, cs);
    CommitAgreed(cfg, d', last);
    KeepsOne(Agreed, cfg, d', last);
    KeepsConcat(Agreed, cfg, d, cs, [last]);
  }

  lemma {:induction false} RecordAgreed(cfg: Config, d: Durable, req: Request, env: Env)
    requires cfg.outbox && req.tool in cfg.registry && Asked(cfg, d, req)
    requires cfg.Nonidempotent(req.tool) ==>
               && Count(d.ledger, cfg.KeyOf(req.call)) <= 1
               && (env.fn.Returns? ==> Count(d.ledger, cfg.KeyOf(req.call)) == 1)
    ensures Keeps(Agreed, cfg, d, RecordPlan(cfg, req, req.args, env).commits)
  {
    var cs := RecordPlan(cfg, req, req.args, env).commits;
    if env.fn.Returns? {
      var result := Some(Returned(env.fn.text));
      AnswerAgreed(cfg, d, req, Executed, result, "");
      KeepsOne(Agreed, cfg, d, cs[0]);
      ThenRowAgreed(cfg, d, [cs[0]], req, cs[1]);
      assert cs == [cs[0]] + [cs[1]];
    } else {
      var status := if OnOutboxPath(cfg, req.tool) then Unknown else Failed;
      CloseAgreed(cfg, d, req, status, env.fn.error, env.fn.error);
      ThenRowAgreed(cfg, d, Close(req.call, status, env.fn.error, env.fn.error).commits, req, cs[2]);
    }
  }

  /** At the gate of a writer the ledger is still empty for the key. */
  ghost predicate Untouched(cfg: Config, d: Durable, req: Request) {
    cfg.Nonidempotent(req.tool) ==> Count(d.ledger, cfg.KeyOf(req.call)) == 0
  }

  lemma {:induction false} EffectAgreed(cfg: Config, d: Durable, req: Request, existing: bool, env: Env)
    requires cfg.outbox && req.tool in cfg.registry && Asked(cfg, d, req) && Untouched(cfg, d, req)
    ensures Keeps(Agreed, cfg, d, EffectPlan(cfg, req, existing, req.args, env).commits)
  {
    var intent := IntentCommits(cfg, req, existing, req.args);
    var effect := EffectCommits(cfg, req, req.args, env);
    var record := RecordPlan(cfg, req, req.args, env).commits;
    if intent != [] {
      CommitAgreed(cfg, d, intent[0]);
      KeepsOne(Agreed, cfg, d, intent[0]);
    }
    var d1 := ApplyAll(d, intent);
    assert d1.log == d.log && d1.ledger == d.ledger && d1.dedup == d.dedup;
    if effect != [] {
      CommitAgreed(cfg, d1, effect[0]);
      KeepsOne(Agreed, cfg, d1, effect[0]);
      CountAppend(d1.ledger, EffectRow(cfg.KeyOf(req.call), req.tool, req.args), cfg.KeyOf(req.call));
    }
    var d2 := ApplyAll(d1, effect);
    assert d2.log == d.log;
    RecordAgreed(cfg, d2, req, env);
    KeepsConcat(Agreed, cfg, d1, effect, record);
    KeepsConcat(Agreed, cfg, d, intent, effect + record);
  }

  lemma {:induction false} CheckAgreed(cfg: Config, d: Durable, req: Request, existing: bool, binding: Option<Binding>, env: Env)
    requires cfg.outbox && req.tool in cfg.registry && Asked(cfg, d, req) && Untouched(cfg, d, req)
    requires ActualArgs(req, env) == req.args
    ensures Keeps(Agreed, cfg, d, CheckPlan(cfg, req, existing, binding, env).commits)
  {
    if binding.Some? && Sha(req.args) != binding.value.approvedSha {
      CloseAgreed(cfg, d, req, Rejected, "args_sha256_mismatch", "args_sha256_mismatch");
    } else if !PolicyAdmits(cfg.registry[req.tool], req.args) {
      CloseAgreed(cfg, d, req, Rejected, "arg_policy_violation", "arg_policy_violation");
    } else {
      EffectAgreed(cfg, d, req, existing, env);
    }
  }

  lemma {:induction false} GateAgreed(cfg: Config, d: Durable, req: Request, existing: bool, env: Env)
    requires cfg.outbox && req.tool in cfg.registry && Asked(cfg, d, req) && Untouched(cfg, d, req)
    requires ActualArgs(req, env) == req.args
    ensures Keeps(Agreed, cfg, d, GatePlan(cfg, d, req, existing, env).commits)
  {
    var binding := Best(d.log, req.call, req.tool);
    if binding.Some? {
      var answer := Validate(binding.value, req.call, req.tool, Sha(req.args), env.now);
      if LetsThrough(answer) {
        CheckAgreed(cfg, d, req, existing, binding, env);
      } else {
        CloseAgreed(cfg, d, req, Rejected, ReasonOf(answer), ReasonOf(answer));
      }
    } else if cfg.registry[req.tool].requiresApproval {
      var p := InterruptPlan(d, req, env);
      if p.commits != [] {
        NotedStillAsked(cfg, d, req, p.commits[0].event);
        KeepsOne(Agreed, cfg, d, p.commits[0]);
      }
    } else {
      CheckAgreed(cfg, d, req, existing, binding, env);
    }
  }

  lemma {:induction false} RowAgreed(cfg: Config, d: Durable, req: Request, env: Env)
    requires cfg.outbox && req.tool in cfg.registry && Asked(cfg, d, req)
    requires Inv(AtMostOnce, cfg, d) && Ready(cfg, d, req.call) && Trusted(cfg, d, req, env)
    ensures Keeps(Agreed, cfg, d, RowPlan(cfg, d, req, env).commits)
  {
    var key, c := cfg.KeyOf(req.call), req.call;
    OpenIsNotClosed(d.log, c);
    assert Count(d.ledger, key) == 1 ==> EffectAccounted(cfg, d, key);
    assert cfg.Nonidempotent(req.tool) ==> OfWriter(cfg, d.log, c) && CallAgreed(cfg, d, c);
    if key !in d.rows {
      GateAgreed(cfg, d, req, false, env);
    } else {
      assert RowOrdered(cfg, d, key);
      if d.rows[key].sha != Sha(req.args) {
        CloseAgreed(cfg, d, req, Rejected, "args_sha256_mismatch", "args_sha256_mismatch");
      } else if cfg.registry[req.tool].hasProbe && env.probe.NotApplied? {
        GateAgreed(cfg, d, req, true, env);
      } else if cfg.registry[req.tool].hasProbe && env.probe.Applied? {
        var result := Some(Reconstructed(req.tool, env.probe.detail));
        var answer := Append(ResultEvent(c, Executed, result, ""));
        AnswerAgreed(cfg, d, req, Executed, result, "");
        KeepsOne(Agreed, cfg, d, answer);
        ThenRowAgreed(cfg, d, [answer], req, CompleteRow(key, result));
        assert [answer] + [CompleteRow(key, result)] == [answer, CompleteRow(key, result)];
      } else {
        CloseAgreed(cfg, d, req, Unknown, "unknown_effect", "unknown_effect");
        ThenRowAgreed(cfg, d, Close(c, Unknown, "unknown_effect", "unknown_effect").commits, req,
                      MarkUnknown(key));
      }
    }
  }

  /** MAIN (one call). */
  lemma {:induction false} ExecuteAgreed(cfg: Config, d: Durable, req: Request, env: Env)
    requires cfg.outbox && Upheld(cfg, d)
    requires OrderAllowed(cfg, d, Execute(req, env, 0)) && Trusted(cfg, d, req, env)
    ensures Keeps(Agreed, cfg, d, ExecutePlan(cfg, d, req, env).commits)
  {
    var s, c := Reduce(d.log), req.call;
    if c !in s.closed {
      var noted := if c in s.open then [] else [Append(CallEvent(req))];
      CleanMeans(d.log);
      FirstCallMeans(d.log, c);
      FirstResultMeans(d.log, c);
      if noted != [] {
        assert FirstCall(d.log, c).None?;
        assert cfg.KeyOf(c) in d.rows ==> RowAccounted(cfg, d, cfg.KeyOf(c));
        CommitAgreed(cfg, d, noted[0]);
        KeepsOne(Agreed, cfg, d, noted[0]);
        CommitOnce(cfg, d, noted[0]);
        ReduceAppend(d.log, CallEvent(req));
        CommitOrdered(cfg, d, noted[0]);
        FirstCallAppend(d.log, CallEvent(req), c);
        FirstResultAppend(d.log, CallEvent(req), c);
      }
      var d' := ApplyAll(d, noted);
      assert d'.ledger == d.ledger;
      if req.tool in cfg.registry {
        RowAgreed(cfg, d', req, env);
        KeepsConcat(Agreed, cfg, d, noted, RowPlan(cfg, d', req, env).commits);
      } else {
        CloseAgreed(cfg, d', req, Failed, "unknown_tool", "unknown_tool");
        KeepsConcat(Agreed, cfg, d, noted, Close(req.call, Failed, "unknown_tool", "unknown_tool").commits);
      }
    }
  }

  lemma {:induction false} PlainAgreed(cfg: Config, d: Durable, cs: seq<Commit>)
    requires Inv(Agreed, cfg, d)
    requires forall i :: 0 <= i < |cs| ==>
               cs[i].Append? && !cs[i].event.ToolCall? && !cs[i].event.ToolResult?
    ensures Keeps(Agreed, cfg, d, cs)
    decreases |cs|
  {
    if cs != [] {
      CommitAgreed(cfg, d, cs[0]);
      PlainAgreed(cfg, Apply(d, cs[0]), cs[1..]);
    }
  }

  lemma {:induction false} ClosingAgreed(cfg: Config, d: Durable, asked: Body, dec: Decision)
    requires Upheld(cfg, d) && PendingInterrupt(d.log) == Some(asked)
    requires DecideSafe(d, dec) && NothingToUndo(cfg, d, dec)
    ensures Keeps(Agreed, cfg, d, ClosingCommits(asked, dec))
  {
    var cs := ClosingCommits(asked, dec);
    if cs != [] {
      PendingIsAsCalled(cfg, d);
      CommitAgreed(cfg, d, cs[0]);
      KeepsOne(Agreed, cfg, d, cs[0]);
      if |cs| == 2 {
        var d1, x := Apply(d, cs[0]), EditId(asked.gated);
        CleanMeans(d.log);
        FirstCallMeans(d.log, x);
        FirstResultMeans(d.log, x);
        assert |x| > |asked.gated|;
        FirstCallAppend(d.log, cs[0].event, x);
        FirstResultAppend(d.log, cs[0].event, x);
        assert forall key :: key in d.rows ==> RowAccounted(cfg, d, key);
        CommitAgreed(cfg, d1, cs[1]);
        KeepsTwo(Agreed, cfg, d, cs[0], cs[1]);
      }
    }
  }

  lemma {:induction false} DecideAgreed(cfg: Config, d: Durable, dec: Decision)
    requires Upheld(cfg, d) && DecideSafe(d, dec) && NothingToUndo(cfg, d, dec)
    ensures Keeps(Agreed, cfg, d, DecideCommits(d, dec))
  {
    if DecidePlan(d, dec).Accepted? {
      var asked := PendingInterrupt(d.log).value;
      var closing := ClosingCommits(asked, dec);
      var rest := DecideCommits(d, dec)[|closing|..];
      ClosingAgreed(cfg, d, asked, dec);
      KeepsAtEveryCut(Agreed, cfg, d, closing, |closing|);
      PlainAgreed(cfg, ApplyAll(d, closing), rest);
      KeepsConcat(Agreed, cfg, d, closing, rest);
      assert DecideCommits(d, dec) == closing + rest;
    }
  }

  lemma {:induction false} CommitsKeepResult(d: Durable, cs: seq<Commit>, c: CallId)
    requires FirstResult(d.log, c).Some?
    ensures FirstResult(ApplyAll(d, cs).log, c) == FirstResult(d.log, c)
    decreases |cs|
  {
    if cs != [] {
      if cs[0].Append? {
        FirstResultAppend(d.log, cs[0].event, c);
      }
      CommitsKeepResult(Apply(d, cs[0]), cs[1..], c);
    }
  }

  lemma {:induction false} AppendsLeaveTheLedger(d: Durable, cs: seq<Commit>)
    requires forall i :: 0 <= i < |cs| ==> cs[i].Append?
    ensures ApplyAll(d, cs).ledger == d.ledger
    decreases |cs|
  {
    if cs != [] {
      AppendsLeaveTheLedger(Apply(d, cs[0]), cs[1..]);
    }
  }

  lemma {:induction false} NeverLetThroughLeavesNothing(cfg: Config, d: Durable, dec: Decision)
    requires Upheld(cfg, d) && NeverLetThrough(cfg, d.log, dec)
    ensures NothingToUndo(cfg, d, dec)
  {
    if PendingInterrupt(d.log).Some? && !MayHaveRun(cfg, d.log, PendingInterrupt(d.log).value) {
      NeverLetThroughHasNoEffect(cfg, d);
    }
  }

  lemma {:induction false} ClosingAnswers(cfg: Config, d: Durable, asked: Body, dec: Decision)
    requires Inv(Ordered, cfg, d) && DecidePlan(d, dec).Accepted? && DecideSafe(d, dec)
    requires PendingInterrupt(d.log) == Some(asked) && ClosingCommits(asked, dec) != []
    ensures var r := FirstResult(ApplyAll(d, DecideCommits(d, dec)).log, asked.gated);
            r.Some? && (r.value.status == Rejected || r.value.status == Superseded)
  {
    var cs, c := DecideCommits(d, dec), asked.gated;
    CleanMeans(d.log);
    FirstResultMeans(d.log, c);
    FirstResultAppend(d.log, cs[0].event, c);
    assert cs == [cs[0]] + cs[1..];
    CommitsKeepResult(Apply(d, cs[0]), cs[1..], c);
  }

  /** Closing a writer's call that has had its effect is where log and ledger part. */
  lemma {:induction false} ClosingAnEffectDisagrees(cfg: Config, d: Durable, dec: Decision)
    requires Upheld(cfg, d) && DecidePlan(d, dec).Accepted? && DecideSafe(d, dec)
    requires !NothingToUndo(cfg, d, dec)
    ensures !Inv(Agreed, cfg, ApplyAll(d, DecideCommits(d, dec)))
  {
    var cs := DecideCommits(d, dec);
    var end := ApplyAll(d, cs);
    var asked := PendingInterrupt(d.log).value;
    PendingIsAsCalled(cfg, d);
    ClosingAnswers(cfg, d, asked, dec);
    StillLogged(d, cs, asked.gated);
    AppendsLeaveTheLedger(d, cs);
    assert OfWriter(cfg, end.log, asked.gated) && !CallAgreed(cfg, end, asked.gated);
  }

  lemma {:induction false} ExecuteKeepsAgreement(cfg: Config, d: Durable, req: Request, env: Env, cut: nat)
    requires cfg.outbox && Upheld(cfg, d) && AgreeAllowed(cfg, d, Execute(req, env, cut))
    ensures var d' := Act(cfg, d, Execute(req, env, cut)); Inv(Agreed, cfg, d') && Inv(Attributed, cfg, d')
  {
    var cs := ExecutePlan(cfg, d, req, env).commits;
    ExecuteAgreed(cfg, d, req, env);
    ExecuteAttributed(cfg, d, req, env);
    KeepsAtEveryCut(Agreed, cfg, d, cs, cut);
    KeepsAtEveryCut(Attributed, cfg, d, cs, cut);
  }

  lemma {:induction false} DecideKeepsAgreement(cfg: Config, d: Durable, dec: Decision, cut: nat)
    requires Upheld(cfg, d) && AgreeAllowed(cfg, d, Decide(dec, cut))
    ensures var d' := Act(cfg, d, Decide(dec, cut)); Inv(Agreed, cfg, d') && Inv(Attributed, cfg, d')
  {
    var cs := DecideCommits(d, dec);
    if DecidePlan(d, dec).Accepted? {
      NeverLetThroughLeavesNothing(cfg, d, dec);
      DecideAgreed(cfg, d, dec);
    }
    PlainAttributed(cfg, d, cs);
    KeepsAtEveryCut(Agreed, cfg, d, cs, cut);
    KeepsAtEveryCut(Attributed, cfg, d, cs, cut);
  }

  lemma {:induction false} NoteKeepsAgreement(cfg: Config, d: Durable, e: Body)
    requires Upheld(cfg, d) && IsLoopEvent(e)
    ensures var d' := Act(cfg, d, Note(e)); Inv(Agreed, cfg, d') && Inv(Attributed, cfg, d')
  {
    CommitAgreed(cfg, d, Append(e));
    CommitAttributed(cfg, d, Append(e));
    ApplyOne(d, Append(e));
  }

  lemma {:induction false} ActKeepsUpheld(cfg: Config, d: Durable, a: Action)
    requires cfg.outbox && Upheld(cfg, d) && AgreeAllowed(cfg, d, a)
    ensures Upheld(cfg, Act(cfg, d, a))
  {
    ActKeepsOrdered(cfg, d, a);
    ActKeepsOnce(cfg, d, a);
    ActKeepsJustified(cfg, d, a);
    match a
    case Execute(req, env, cut) => ExecuteKeepsAgreement(cfg, d, req, env, cut);
    case Decide(dec, cut) => DecideKeepsAgreement(cfg, d, dec, cut);
    case Note(e) => NoteKeepsAgreement(cfg, d, e);
  }

  ghost predicate AgreedRun(cfg: Config, d: Durable, actions: seq<Action>)
    decreases |actions|
  {
    actions != [] ==>
      AgreeAllowed(cfg, d, actions[0]) && AgreedRun(cfg, Act(cfg, d, actions[0]), actions[1..])
  }

  lemma {:induction false} RunKeepsUpheld(cfg: Config, d: Durable, actions: seq<Action>)
    requires cfg.outbox && Upheld(cfg, d) && AgreedRun(cfg, d, actions)
    ensures Upheld(cfg, Run(cfg, d, actions))
    decreases |actions|
  {
    if actions != [] {
      ActKeepsUpheld(cfg, d, actions[0]);
      RunKeepsUpheld(cfg, Act(cfg, d, actions[0]), actions[1..]);
    }
  }

  /** MAIN: what the log says happened is what happened. `executed` stands for
      exactly one effect; `rejected`, `superseded` and `failed` for none, then and
      ever after; `unknown` for at most one. */
  lemma {:induction false} RecordedOutcomesAgreeWithTheLedger(cfg: Config, actions: seq<Action>, c: CallId)
    requires cfg.outbox && AgreedRun(cfg, EMPTY, actions)
    ensures var d := Run(cfg, EMPTY, actions);
            var r := FirstResult(d.log, c);
            OfWriter(cfg, d.log, c) && r.Some? ==>
              StatusFits(r.value.status, Count(d.ledger, cfg.KeyOf(c)))
  {
    assert Report([]) == [];
    assert Upheld(cfg, EMPTY);
    RunKeepsUpheld(cfg, EMPTY, actions);
    var d := Run(cfg, EMPTY, actions);
    assert OfWriter(cfg, d.log, c) ==> CallAgreed(cfg, d, c);
  }
}
