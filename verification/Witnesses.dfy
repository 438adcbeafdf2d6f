/** Runs that the hypotheses of the main claims keep out, each from the empty store: a
    late rejection of an approved call, a read-back that lies, a call id used twice. */
module Witnesses {
  import opened Events
  import opened Tools
  import opened Approvals
  import opened Reducer
  import opened Pipeline
  import opened Invariants
  import opened Exclusivity
  import opened Justification
  import opened Attribution
  import opened Ordering
  import opened Deciding
  import opened Runs
  import opened Agreement
  import opened Boundaries

  /** A writer behind the outbox whose policy admits the call. */
  predicate Writes(cfg: Config, req: Request, approval: bool) {
    && cfg.outbox && cfg.Nonidempotent(req.tool)
    && cfg.registry[req.tool].requiresApproval == approval
    && PolicyAdmits(cfg.registry[req.tool], req.args)
  }

  lemma {:induction false} ReduceOne(e: Body)
    ensures Reduce([e]) == Step(INIT, e, 0)
  {
    ReduceAppend([], e);
    assert [] + [e] == [e];
  }

  lemma {:induction false} FirstOfOne(req: Request, c: CallId)
    ensures FirstCall([CallEvent(req)], c) == if c == req.call then Some(req) else None
  {
    FirstCallAppend([], CallEvent(req), c);
    assert [] + [CallEvent(req)] == [CallEvent(req)];
  }

  lemma {:induction false} NothingYet(log: Log, call: CallId, tool: string)
    requires forall i :: 0 <= i < |log| ==> !log[i].Approval?
    ensures Best(log, call, tool).None?
  {
    BestIsBest(log, call, tool);
  }

  lemma {:induction false} CallMeans(req: Request)
    ensures Reduce([CallEvent(req)]) == State(Running, 0, map[req.call := 0], [], None, None, false, [])
    ensures Best([CallEvent(req)], req.call, req.tool).None?
  {
    ReduceOne(CallEvent(req));
    NothingYet([CallEvent(req)], req.call, req.tool);
  }

  /** A call that is new is noted, and goes on as any call that is. */
  lemma {:induction false} NewCallPlan(cfg: Config, req: Request, env: Env)
    requires req.tool in cfg.registry
    ensures ExecutePlan(cfg, EMPTY, req, env).commits ==
            [Append(CallEvent(req))] + RowPlan(cfg, Durable([CallEvent(req)], map[], [], map[]), req, env).commits
  {
    assert Reduce([]) == INIT;
    ApplyOne(EMPTY, Append(CallEvent(req)));
    assert [] + [CallEvent(req)] == [CallEvent(req)];
  }

  lemma {:induction false} CutThree(d: Durable, a: Commit, b: Commit, c: Commit, rest: seq<Commit>)
    ensures ApplyAll(d, Cut([a] + ([b] + ([c] + rest)), 3)) == Apply(Apply(Apply(d, a), b), c)
  {
    assert Cut([a] + ([b] + ([c] + rest)), 3) == [a, b, c];
    assert [a, b, c][1..] == [b, c] && [b, c][1..] == [c];
    ApplyOne(Apply(Apply(d, a), b), c);
  }

  lemma {:induction false} TwoActions(cfg: Config, a: Action, b: Action)
    ensures Run(cfg, EMPTY, [a, b]) == Act(cfg, Act(cfg, EMPTY, a), b)
  {
    assert [a, b][1..] == [b] && [b][1..] == [];
    assert Run(cfg, Act(cfg, EMPTY, a), [b]) == Act(cfg, Act(cfg, EMPTY, a), b);
  }

  lemma {:induction false} ThreeActions(cfg: Config, a: Action, b: Action, c: Action)
    ensures var d1 := Act(cfg, EMPTY, a);
            var d2 := Act(cfg, d1, b);
            && Run(cfg, EMPTY, [a, b, c]) == Act(cfg, d2, c)
            && (AgreeAllowed(cfg, EMPTY, a) && AgreeAllowed(cfg, d1, b) && AgreeAllowed(cfg, d2, c) ==>
                  AgreedRun(cfg, EMPTY, [a, b, c]))
  {
    var d2 := Act(cfg, Act(cfg, EMPTY, a), b);
    assert [a, b, c][1..] == [b, c] && [b, c][1..] == [c] && [c][1..] == [];
    assert Run(cfg, d2, [c]) == Act(cfg, d2, c);
    assert AgreeAllowed(cfg, d2, c) ==> AgreedRun(cfg, d2, [c]);
  }

  // ---------------------------------------------- a late rejection of what ran

  function Ask(req: Request, iid: string): Body {
    Interrupt(Some(iid), Some(0), req.call, req.tool, req.args)
  }

  /** The call waits for a human. */
  function Waiting(req: Request, iid: string): Durable {
    Durable([CallEvent(req), Ask(req, iid)], map[], [], map[])
  }

  /** It was approved, and the approval was killed before it opened the gate. */
  function HalfApproved(req: Request, iid: string, b: Binding): Durable {
    Durable([CallEvent(req), Ask(req, iid), Approval(b)], map[], [], map[])
  }

  /** It was driven once more and killed between its effect and its result. */
  function RanUnseen(cfg: Config, req: Request, iid: string, b: Binding): Durable {
    var key := cfg.KeyOf(req.call);
    Durable([CallEvent(req), Ask(req, iid), Approval(b)],
            map[key := Row(req.call, req.tool, Sha(req.args), RowPending, None)],
            [EffectRow(key, req.tool, req.args)], map[])
  }

  lemma {:induction false} WaitingMeans(req: Request, iid: string)
    ensures var log := Waiting(req, iid).log;
            && Reduce(log) == State(WaitingHuman, 0, map[req.call := 0], [], Some(ById(iid)), Some(0), false, [])
            && PendingInterrupt(log) == Some(Ask(req, iid))
            && FirstCall(log, req.call) == Some(req)
  {
    var call, ask := CallEvent(req), Ask(req, iid);
    assert [call] + [ask] == [call, ask];
    ReduceOne(call);
    ReduceAppend([call], ask);
    FirstOfOne(req, req.call);
    FirstCallAppend([call], ask, req.call);
    FirstInterruptAppend([], call, iid);
    assert [] + [call] == [call];
    FirstInterruptAppend([call], ask, iid);
  }

  lemma {:induction false} HalfApprovedMeans(req: Request, iid: string, b: Binding)
    ensures var log := HalfApproved(req, iid, b).log;
            && Reduce(log) == Reduce(Waiting(req, iid).log)
            && PendingInterrupt(log) == Some(Ask(req, iid))
            && FirstCall(log, req.call) == Some(req)
            && (b.call == req.call ==> Best(log, req.call, req.tool) == Some(b))
  {
    var before := Waiting(req, iid).log;
    WaitingMeans(req, iid);
    assert before + [Approval(b)] == HalfApproved(req, iid, b).log;
    ReduceAppend(before, Approval(b));
    FirstInterruptAppend(before, Approval(b), iid);
    FirstCallAppend(before, Approval(b), req.call);
    NothingYet(before, req.call, req.tool);
    BestAppend(before, Approval(b), req.call, req.tool);
  }

  /** The gate asks when no approval speaks for the call. */
  lemma {:induction false} GateAsks(cfg: Config, req: Request, env: Env)
    requires Writes(cfg, req, true)
    ensures RowPlan(cfg, Durable([CallEvent(req)], map[], [], map[]), req, env).commits == [Append(Ask(req, env.interruptId))]
  {
    var call := CallEvent(req);
    CallMeans(req);
    assert InterruptCount([call]) == 0 by { assert [call][..0] == []; }
  }

  /** The first attempt stops at the gate. */
  lemma {:induction false} FirstAttemptWaits(cfg: Config, req: Request, env: Env)
    requires Writes(cfg, req, true)
    ensures Act(cfg, EMPTY, Execute(req, env, 2)) == Waiting(req, env.interruptId)
  {
    var call, ask := Append(CallEvent(req)), Append(Ask(req, env.interruptId));
    assert [] + [CallEvent(req)] == [CallEvent(req)];
    assert [CallEvent(req)] + [Ask(req, env.interruptId)] == Waiting(req, env.interruptId).log;
    ApplyOne(EMPTY, call);
    GateAsks(cfg, req, env);
    NewCallPlan(cfg, req, env);
    assert [call] + [ask] == [call, ask] + [];
    CutTwo(EMPTY, call, ask, []);
  }

  lemma {:induction false} HalfAnApproval(cfg: Config, req: Request, iid: string, dec: Decision)
    requires dec.verdict == Approve && dec.approvedArgs.None?
    ensures var d := Waiting(req, iid);
            && DecidePlan(d, dec).Accepted? && DecideSafe(d, dec)
            && Act(cfg, d, Decide(dec, 1)) == HalfApproved(req, iid, DecidedBinding(Ask(req, iid), dec))
  {
    var d := Waiting(req, iid);
    WaitingMeans(req, iid);
    var b := DecidedBinding(Ask(req, iid), dec);
    var cs := DecideCommits(d, dec);
    assert cs == [Append(Approval(b)), Append(Resume(Some(iid), Some(0), Approve, b.call))];
    assert Cut(cs, 1) == [Append(Approval(b))];
    ApplyOne(d, Append(Approval(b)));
  }

  /** The gate looks for an approval before it looks whether one is being asked for. */
  lemma {:induction false} ApprovedRunsBeforeResume(cfg: Config, req: Request, iid: string, b: Binding, env: Env)
    requires Writes(cfg, req, true) && env.tampered.None? && env.fn.Returns?
    requires b.call == req.call && b.decision == Approve && b.approvedSha == Sha(req.args) && env.now < b.expiresAt
    ensures Act(cfg, HalfApproved(req, iid, b), Execute(req, env, 2)) == RanUnseen(cfg, req, iid, b)
  {
    var d := HalfApproved(req, iid, b);
    WaitingMeans(req, iid);
    HalfApprovedMeans(req, iid, b);
    OpenCallPlan(cfg, d, req, env);
    WriterCommits(cfg, d, req, env);
    assert [] + [EffectRow(cfg.KeyOf(req.call), req.tool, req.args)] == RanUnseen(cfg, req, iid, b).ledger;
  }

  lemma {:induction false} RunIsAllowed(cfg: Config, req: Request, ask: Env, env: Env, ok: Decision)
    requires Writes(cfg, req, true) && ok.verdict == Approve && ok.approvedArgs.None?
    requires ask.tampered.None? && env.tampered.None? && ask.probe.Inconclusive? && env.probe.Inconclusive?
    requires env.interruptId != ask.interruptId
    ensures var d1 := Waiting(req, ask.interruptId);
            && AgreeAllowed(cfg, EMPTY, Execute(req, ask, 2))
            && AgreeAllowed(cfg, d1, Decide(ok, 1))
            && AgreeAllowed(cfg, HalfApproved(req, ask.interruptId, DecidedBinding(Ask(req, ask.interruptId), ok)),
                            Execute(req, env, 2))
  {
    var iid := ask.interruptId;
    var b := DecidedBinding(Ask(req, iid), ok);
    assert Reduce([]) == INIT;
    WaitingMeans(req, iid);
    HalfApprovedMeans(req, iid, b);
    var d2 := HalfApproved(req, iid, b);
    NotThatInterrupt(d2.log, env.interruptId);
  }

  lemma {:induction false} NotThatInterrupt(log: Log, iid: string)
    requires forall i :: 0 <= i < |log| && log[i].Interrupt? ==> log[i].iid != Some(iid)
    ensures FirstInterrupt(log, iid).None?
  {
    if log != [] {
      NotThatInterrupt(log[..|log| - 1], iid);
    }
  }

  lemma {:induction false} RejectionOfWhatRan(cfg: Config, req: Request, iid: string, b: Binding, no: Decision)
    requires Writes(cfg, req, true) && no.verdict == Reject && no.approvedArgs.None?
    requires b.call == req.call && b.decision == Approve && b.approvedSha == Sha(req.args)
    ensures var d := RanUnseen(cfg, req, iid, b);
            var d' := ApplyAll(d, DecideCommits(d, no));
            && DecidePlan(d, no).Accepted? && DecideSafe(d, no) && !NeverLetThrough(cfg, d.log, no)
            && Count(d'.ledger, cfg.KeyOf(req.call)) == 1
            && FirstResult(d'.log, req.call).Some? && FirstResult(d'.log, req.call).value.status == Rejected
  {
    var d, key := RanUnseen(cfg, req, iid, b), cfg.KeyOf(req.call);
    WaitingMeans(req, iid);
    HalfApprovedMeans(req, iid, b);
    assert Approval(b) in d.log;
    assert HasApproval(d.log, key, req.tool, req.args);
    var cs := DecideCommits(d, no);
    assert cs == [cs[0]] + cs[1..];
    AppendsLeaveTheLedger(d, cs);
    NoResultYet(d.log, req.call);
    FirstResultAppend(d.log, cs[0].event, req.call);
    CommitsKeepResult(Apply(d, cs[0]), cs[1..], req.call);
    assert d.ledger == [] + [EffectRow(key, req.tool, req.args)];
    CountAppend([], EffectRow(key, req.tool, req.args), key);
  }

  lemma {:induction false} NoResultYet(log: Log, c: CallId)
    requires forall i :: 0 <= i < |log| ==> !log[i].ToolResult?
    ensures FirstResult(log, c).None?
  {
    if log != [] {
      NoResultYet(log[..|log| - 1], c);
    }
  }

  /** MAIN: a run of safe actions with truthful read-backs and untouched arguments at
      whose end a safe rejection closes a call that has had its effect. */
  lemma {:induction false} LateRejectionOfWhatRan(cfg: Config, req: Request, ask: Env, env: Env, ok: Decision, no: Decision)
    requires Writes(cfg, req, true)
    requires ok.verdict == Approve && ok.approvedArgs.None? && no.verdict == Reject && no.approvedArgs.None?
    requires ask.tampered.None? && env.tampered.None? && ask.probe.Inconclusive? && env.probe.Inconclusive?
    requires env.fn.Returns? && env.now < ok.now + ok.ttl && env.interruptId != ask.interruptId
    ensures var run := [Execute(req, ask, 2), Decide(ok, 1), Execute(req, env, 2)];
            var d := Run(cfg, EMPTY, run);
            var d' := ApplyAll(d, DecideCommits(d, no));
            && AgreedRun(cfg, EMPTY, run)
            && DecidePlan(d, no).Accepted? && DecideSafe(d, no) && !NeverLetThrough(cfg, d.log, no)
            && Count(d'.ledger, cfg.KeyOf(req.call)) == 1
            && FirstResult(d'.log, req.call).Some? && FirstResult(d'.log, req.call).value.status == Rejected
  {
    var iid, key := ask.interruptId, cfg.KeyOf(req.call);
    var b := DecidedBinding(Ask(req, iid), ok);
    var d1, d2, d3 := Waiting(req, iid), HalfApproved(req, iid, b), RanUnseen(cfg, req, iid, b);
    var run := [Execute(req, ask, 2), Decide(ok, 1), Execute(req, env, 2)];
    FirstAttemptWaits(cfg, req, ask);
    HalfAnApproval(cfg, req, iid, ok);
    ApprovedRunsBeforeResume(cfg, req, iid, b, env);
    WaitingMeans(req, iid);
    HalfApprovedMeans(req, iid, b);
    RunIsAllowed(cfg, req, ask, env, ok);
    RejectionOfWhatRan(cfg, req, iid, b, no);
    ThreeActions(cfg, run[0], run[1], run[2]);
  }

  // --------------------------------------------------------- a read-back that lies

  /** A call that was killed between its effect and its result. */
  function Unanswered(cfg: Config, req: Request): Durable {
    var key := cfg.KeyOf(req.call);
    Durable([CallEvent(req)], map[key := Row(req.call, req.tool, Sha(req.args), RowPending, None)],
            [EffectRow(key, req.tool, req.args)], map[])
  }

  lemma {:induction false} KilledBehindItsEffect(cfg: Config, req: Request, env: Env)
    requires Writes(cfg, req, false) && env.tampered.None? && !env.fn.RaisesBefore?
    ensures Act(cfg, EMPTY, Execute(req, env, 3)) == Unanswered(cfg, req)
  {
    var call, key := CallEvent(req), cfg.KeyOf(req.call);
    var d1 := Durable([call], map[], [], map[]);
    var intent := InsertRow(key, Row(req.call, req.tool, Sha(req.args), RowPending, None));
    var effect := ApplyEffect(key, req.tool, req.args, false);
    var record := RecordPlan(cfg, req, req.args, env).commits;
    CallMeans(req);
    assert [] + [call] == [call];
    LetInMeans(cfg, d1, req, false, env);
    NewCallPlan(cfg, req, env);
    assert RowPlan(cfg, d1, req, env).commits == [intent] + ([effect] + record);
    CutThree(EMPTY, Append(call), intent, effect, record);
  }

  /** MAIN: a call killed behind its effect, then a read-back that denies it: the key has
      two effects, and nothing but the denial was out of order. */
  lemma {:induction false} LyingProbeRunsTwice(cfg: Config, req: Request, env: Env, lie: Env)
    requires Writes(cfg, req, false) && cfg.registry[req.tool].hasProbe
    requires env.tampered.None? && !env.fn.RaisesBefore? && env.probe.Inconclusive?
    requires lie.tampered.None? && !lie.fn.RaisesBefore? && lie.probe.NotApplied?
    ensures var d := Act(cfg, EMPTY, Execute(req, env, 3));
            && AgreeAllowed(cfg, EMPTY, Execute(req, env, 3))
            && OrderAllowed(cfg, d, Execute(req, lie, 1)) && OneRequest(d, req, lie) && !HonestProbe(cfg, d, req.call, lie)
            && Count(Run(cfg, EMPTY, [Execute(req, env, 3), Execute(req, lie, 1)]).ledger, cfg.KeyOf(req.call)) == 2
  {
    var d, key := Unanswered(cfg, req), cfg.KeyOf(req.call);
    var again := EffectRow(key, req.tool, req.args);
    KilledBehindItsEffect(cfg, req, env);
    CallMeans(req);
    FirstOfOne(req, req.call);
    NotThatInterrupt(d.log, lie.interruptId);
    assert Reduce([]) == INIT;
    CountAppend([], again, key);
    assert d.ledger == [] + [again];
    CountAppend(d.ledger, again, key);
    DeniedIntentRunsAgain(cfg, d, req, lie);
    var record := RecordPlan(cfg, req, req.args, lie).commits;
    var effect := ApplyEffect(key, req.tool, req.args, false);
    assert ExecutePlan(cfg, d, req, lie).commits == [effect] + record;
    assert Cut([effect] + record, 1) == [effect];
    ApplyOne(d, effect);
    TwoActions(cfg, Execute(req, env, 3), Execute(req, lie, 1));
  }

  // ----------------------------------------------- an open id with other arguments

  /** An intent that was written for other arguments closes the call as rejected. */
  lemma {:induction false} OtherArgumentsAreRejected(cfg: Config, req: Request, other: Request, env: Env)
    requires Writes(cfg, req, false) && other.call == req.call && other.tool == req.tool && other.args != req.args
    ensures ExecutePlan(cfg, Unanswered(cfg, req), other, env).commits ==
            Close(req.call, Rejected, "args_sha256_mismatch", "args_sha256_mismatch").commits
  {
    CallMeans(req);
    assert ApplyAll(Unanswered(cfg, req), []) == Unanswered(cfg, req);
  }

  /** MAIN: a call killed behind its effect, and its id driven again for the same tool with
      other arguments: the log says rejected, the ledger holds the effect, and nothing else
      was out of order. */
  lemma {:induction false} ReusedArgumentsHideAnEffect(cfg: Config, req: Request, other: Request, env: Env, again: Env)
    requires Writes(cfg, req, false) && other.call == req.call && other.tool == req.tool && other.args != req.args
    requires env.tampered.None? && !env.fn.RaisesBefore? && env.probe.Inconclusive?
    requires again.tampered.None? && again.probe.Inconclusive?
    ensures var d := Act(cfg, EMPTY, Execute(req, env, 3));
            var end := Run(cfg, EMPTY, [Execute(req, env, 3), Execute(other, again, 2)]);
            && AgreeAllowed(cfg, EMPTY, Execute(req, env, 3))
            && OrderAllowed(cfg, d, Execute(other, again, 2)) && SameTool(d, other)
            && HonestProbe(cfg, d, other.call, again) && !OneRequest(d, other, again)
            && FirstResult(end.log, req.call).Some? && FirstResult(end.log, req.call).value.status == Rejected
            && Count(end.ledger, cfg.KeyOf(req.call)) == 1
  {
    var d, key := Unanswered(cfg, req), cfg.KeyOf(req.call);
    var noted := Error("args_sha256_mismatch", false);
    var answer := ResultEvent(req.call, Rejected, None, "args_sha256_mismatch");
    KilledBehindItsEffect(cfg, req, env);
    CallMeans(req);
    FirstOfOne(req, req.call);
    NotThatInterrupt(d.log, again.interruptId);
    assert Reduce([]) == INIT;
    OtherArgumentsAreRejected(cfg, req, other, again);
    assert Cut([Append(noted), Append(answer)], 2) == [Append(noted), Append(answer)];
    TwoActions(cfg, Execute(req, env, 3), Execute(other, again, 2));
    AppendBoth(d, noted, answer);
    AppendsLeaveTheLedger(d, [Append(noted), Append(answer)]);
    NoResultYet(d.log + [noted], req.call);
    FirstResultAppend(d.log + [noted], answer, req.call);
    assert d.ledger == [] + [d.ledger[0]];
    CountAppend([], d.ledger[0], key);
  }

  // ------------------------------------------------------- a call id used twice

  /** An effect that the downstream filed under its key, and no result. */
  function FiledUnder(cfg: Config, noted: Request, ran: Request): Durable {
    var key := cfg.KeyOf(ran.call);
    Durable([CallEvent(noted)], map[], [EffectRow(key, ran.tool, ran.args)], map[key := 0])
  }

  predicate FilesByKey(cfg: Config, req: Request) {
    && req.tool in cfg.registry && cfg.registry[req.tool].effect == WriteIdempotent
    && !cfg.registry[req.tool].requiresApproval && PolicyAdmits(cfg.registry[req.tool], req.args)
  }

  /** An idempotent writer under an open id, killed behind its effect. */
  lemma {:induction false} IdempotentRuns(cfg: Config, noted: Request, ran: Request, env: Env)
    requires FilesByKey(cfg, ran) && noted.call == ran.call
    requires env.tampered.None? && !env.fn.RaisesBefore?
    ensures Act(cfg, Durable([CallEvent(noted)], map[], [], map[]), Execute(ran, env, 1)) == FiledUnder(cfg, noted, ran)
  {
    var d, key := Durable([CallEvent(noted)], map[], [], map[]), cfg.KeyOf(ran.call);
    var effect := ApplyEffect(key, ran.tool, ran.args, true);
    var record := RecordPlan(cfg, ran, ran.args, env).commits;
    CallMeans(noted);
    NothingYet(d.log, ran.call, ran.tool);
    OpenCallPlan(cfg, d, ran, env);
    assert EffectPlan(cfg, ran, false, ran.args, env).commits == [effect] + record;
    assert Cut([effect] + record, 1) == [effect];
    ApplyOne(d, effect);
  }

  /** A writer that finds no intent under its id runs, whatever the ledger holds. */
  lemma {:induction false} WriterRunsOnTop(cfg: Config, noted: Request, other: Request, req: Request, env: Env)
    requires Writes(cfg, req, false) && noted.call == other.call == req.call
    requires env.tampered.None? && !env.fn.RaisesBefore?
    ensures Count(Act(cfg, FiledUnder(cfg, noted, other), Execute(req, env, 2)).ledger, cfg.KeyOf(req.call)) == 2
  {
    var d, key := FiledUnder(cfg, noted, other), cfg.KeyOf(req.call);
    CallMeans(noted);
    NothingYet(d.log, req.call, req.tool);
    OpenCallPlan(cfg, d, req, env);
    WriterCommits(cfg, d, req, env);
    CountAppend([], d.ledger[0], key);
    assert d.ledger == [] + [d.ledger[0]];
    CountAppend(d.ledger, EffectRow(key, req.tool, req.args), key);
  }

  lemma {:induction false} OnlyNoted(cfg: Config, req: Request, env: Env)
    requires req.tool in cfg.registry
    ensures Act(cfg, EMPTY, Execute(req, env, 1)) == Durable([CallEvent(req)], map[], [], map[])
  {
    var cs := ExecutePlan(cfg, EMPTY, req, env).commits;
    assert Reduce([]) == INIT;
    assert cs[0] == Append(CallEvent(req)) && Cut(cs, 1) == [cs[0]];
    ApplyOne(EMPTY, cs[0]);
    assert [] + [CallEvent(req)] == [CallEvent(req)];
  }

  /** MAIN: one call id for two tools gives a key two effects, whichever of them the log
      named first: the idempotent one leaves no row for the other to find. */
  lemma {:induction false} ReusedIdRunsTwice(cfg: Config, req: Request, other: Request, env: Env)
    requires Writes(cfg, req, false) && FilesByKey(cfg, other) && other.call == req.call
    requires env.tampered.None? && !env.fn.RaisesBefore?
    ensures Count(Run(cfg, EMPTY, [Execute(other, env, 1), Execute(other, env, 1), Execute(req, env, 2)]).ledger,
                  cfg.KeyOf(req.call)) == 2
    ensures Count(Run(cfg, EMPTY, [Execute(req, env, 1), Execute(other, env, 1), Execute(req, env, 2)]).ledger,
                  cfg.KeyOf(req.call)) == 2
  {
    OnlyNoted(cfg, other, env);
    OnlyNoted(cfg, req, env);
    IdempotentRuns(cfg, other, other, env);
    IdempotentRuns(cfg, req, other, env);
    WriterRunsOnTop(cfg, other, other, req, env);
    WriterRunsOnTop(cfg, req, other, req, env);
    ThreeActions(cfg, Execute(other, env, 1), Execute(other, env, 1), Execute(req, env, 2));
    ThreeActions(cfg, Execute(req, env, 1), Execute(other, env, 1), Execute(req, env, 2));
  }
}
