/** What approvals may be on record for a call while it waits at the gate: only such as
    were given for it, so the newest of them lets it through until it expires. */
module Gates {
  import opened Events
  import opened Tools
  import opened Approvals
  import opened Reducer
  import opened ReducerSpec
  import opened Pipeline
  import opened Invariants
  import opened Justification
  import opened Attribution
  import opened Ordering
  import opened Deciding
  import opened Runs

  lemma {:induction false} OtherEventUnvetoed(log: Log, e: Body)
    requires UnvetoedInv(log) && !e.Interrupt? && !e.Resume? && !e.Approval?
    ensures UnvetoedInv(log + [e])
  {
    EventLeavesTheGate(log, e);
    var more := log + [e];
    assert more[|log|] == e && forall i :: 0 <= i < |log| ==> more[i] == log[i];
  }

  /** A new interrupt is only written where no approval applies to its call. */
  lemma {:induction false} InterruptUnvetoed(log: Log, e: Body)
    requires e.Interrupt? && e.iid.Some? && FirstInterrupt(log, e.iid.value).None?
    requires !Reduce(log).terminal && Reduce(log).pending.None? && Best(log, e.gated, e.tool).None?
    ensures UnvetoedInv(log + [e])
  {
    var more := log + [e];
    ReduceAppend(log, e);
    FirstInterruptAppend(log, e, e.iid.value);
    BestIsBest(log, e.gated, e.tool);
    assert more[|log|] == e && forall i :: 0 <= i < |log| ==> more[i] == log[i];
  }

  lemma {:induction false} ApprovalUnvetoed(log: Log, b: Binding)
    requires UnvetoedInv(log)
    requires var asked := PendingInterrupt(log);
             asked.Some? && asked.value.gated !in Reduce(log).closed ==> SpeaksFor(b, asked.value)
    ensures UnvetoedInv(log + [Approval(b)])
  {
    EventLeavesTheGate(log, Approval(b));
    ReduceAppend(log, Approval(b));
    var more := log + [Approval(b)];
    assert more[|log|] == Approval(b) && forall i :: 0 <= i < |log| ==> more[i] == log[i];
  }

  predicate LeavesApprovals(c: Commit) {
    c.Append? ==> !c.event.Interrupt? && !c.event.Resume? && !c.event.Approval?
  }

  lemma {:induction false} PlainUnvetoed(cfg: Config, d: Durable, cs: seq<Commit>)
    requires Inv(Unvetoed, cfg, d) && forall i :: 0 <= i < |cs| ==> LeavesApprovals(cs[i])
    ensures Keeps(Unvetoed, cfg, d, cs)
    decreases |cs|
  {
    if cs != [] {
      assert LeavesApprovals(cs[0]);
      if cs[0].Append? {
        OtherEventUnvetoed(d.log, cs[0].event);
      }
      forall i | 0 <= i < |cs[1..]| ensures LeavesApprovals(cs[1..][i]) {
        assert cs[1..][i] == cs[i + 1];
      }
      PlainUnvetoed(cfg, Apply(d, cs[0]), cs[1..]);
    }
  }

  // ------------------------------------------------------------------ one call

  lemma {:induction false} EffectLeavesApprovals(cfg: Config, req: Request, existing: bool, args: Args, env: Env)
    requires req.tool in cfg.registry
    ensures forall i :: 0 <= i < |EffectPlan(cfg, req, existing, args, env).commits| ==>
              LeavesApprovals(EffectPlan(cfg, req, existing, args, env).commits[i])
  {
    var intent, effect := IntentCommits(cfg, req, existing, args), EffectCommits(cfg, req, args, env);
    var record := RecordPlan(cfg, req, args, env).commits;
    assert forall i :: 0 <= i < |intent| ==> LeavesApprovals(intent[i]);
    assert forall i :: 0 <= i < |effect| ==> LeavesApprovals(effect[i]);
    assert forall i :: 0 <= i < |record| ==> LeavesApprovals(record[i]);
    assert EffectPlan(cfg, req, existing, args, env).commits == intent + (effect + record);
  }

  lemma {:induction false} GateLeavesApprovals(cfg: Config, d: Durable, req: Request, existing: bool, env: Env)
    requires req.tool in cfg.registry
    requires Best(d.log, req.call, req.tool).Some? || !cfg.registry[req.tool].requiresApproval
    ensures forall i :: 0 <= i < |GatePlan(cfg, d, req, existing, env).commits| ==>
              LeavesApprovals(GatePlan(cfg, d, req, existing, env).commits[i])
  {
    EffectLeavesApprovals(cfg, req, existing, ActualArgs(req, env), env);
  }

  lemma {:induction false} AskingUnvetoed(cfg: Config, d: Durable, req: Request, env: Env)
    requires Inv(Unvetoed, cfg, d) && Best(d.log, req.call, req.tool).None?
    requires !Reduce(d.log).terminal && FirstInterrupt(d.log, env.interruptId).None?
    ensures Keeps(Unvetoed, cfg, d, InterruptPlan(d, req, env).commits)
  {
    var cs := InterruptPlan(d, req, env).commits;
    if cs != [] {
      InterruptUnvetoed(d.log, cs[0].event);
      KeepsOne(Unvetoed, cfg, d, cs[0]);
    }
  }

  /** What the gate writes of its own is an interrupt, and only without an approval. */
  lemma {:induction false} GateUnvetoed(cfg: Config, d: Durable, req: Request, existing: bool, env: Env)
    requires req.tool in cfg.registry && Inv(Unvetoed, cfg, d)
    requires !Reduce(d.log).terminal && FirstInterrupt(d.log, env.interruptId).None?
    ensures Keeps(Unvetoed, cfg, d, GatePlan(cfg, d, req, existing, env).commits)
  {
    var plan := GatePlan(cfg, d, req, existing, env);
    if Best(d.log, req.call, req.tool).None? && cfg.registry[req.tool].requiresApproval {
      assert plan == InterruptPlan(d, req, env);
      AskingUnvetoed(cfg, d, req, env);
    } else {
      GateLeavesApprovals(cfg, d, req, existing, env);
      PlainUnvetoed(cfg, d, plan.commits);
    }
  }

  lemma {:induction false} RowUnvetoed(cfg: Config, d: Durable, req: Request, env: Env)
    requires req.tool in cfg.registry && Inv(Unvetoed, cfg, d)
    requires !Reduce(d.log).terminal && FirstInterrupt(d.log, env.interruptId).None?
    ensures Keeps(Unvetoed, cfg, d, RowPlan(cfg, d, req, env).commits)
  {
    var plan := RowPlan(cfg, d, req, env);
    if plan == GatePlan(cfg, d, req, false, env) {
      GateUnvetoed(cfg, d, req, false, env);
    } else if plan == GatePlan(cfg, d, req, true, env) {
      GateUnvetoed(cfg, d, req, true, env);
    } else {
      PlainUnvetoed(cfg, d, plan.commits);
    }
  }

  lemma {:induction false} ExecuteUnvetoed(cfg: Config, d: Durable, req: Request, env: Env)
    requires Inv(Unvetoed, cfg, d) && !Reduce(d.log).terminal && FirstInterrupt(d.log, env.interruptId).None?
    ensures Keeps(Unvetoed, cfg, d, ExecutePlan(cfg, d, req, env).commits)
  {
    if req.call in Reduce(d.log).closed || req.tool !in cfg.registry {
      PlainUnvetoed(cfg, d, ExecutePlan(cfg, d, req, env).commits);
    } else {
      var noted := if req.call in Reduce(d.log).open then [] else [Append(CallEvent(req))];
      var d' := ApplyAll(d, noted);
      PlainUnvetoed(cfg, d, noted);
      KeepsAtEveryCut(Unvetoed, cfg, d, noted, |noted|);
      if noted != [] {
        ApplyOne(d, noted[0]);
        ReduceAppend(d.log, CallEvent(req));
        FirstInterruptAppend(d.log, CallEvent(req), env.interruptId);
      }
      RowUnvetoed(cfg, d', req, env);
      KeepsConcat(Unvetoed, cfg, d, noted, RowPlan(cfg, d', req, env).commits);
    }
  }

  // -------------------------------------------------------------- one decision

  /** Where the interrupted call is answered already, no approval can speak wrongly. */
  lemma {:induction false} AnsweredUnvetoed(cfg: Config, d: Durable, cs: seq<Commit>)
    requires PendingInterrupt(d.log).Some? && PendingInterrupt(d.log).value.gated in Reduce(d.log).closed
    requires forall i :: 0 <= i < |cs| ==> LeavesTheGate(cs[i])
    ensures Keeps(Unvetoed, cfg, d, cs)
    decreases |cs|
  {
    if cs != [] {
      assert LeavesTheGate(cs[0]);
      EventLeavesTheGate(d.log, cs[0].event);
      forall i | 0 <= i < |cs[1..]| ensures LeavesTheGate(cs[1..][i]) {
        assert cs[1..][i] == cs[i + 1];
      }
      AnsweredUnvetoed(cfg, Apply(d, cs[0]), cs[1..]);
    }
  }

  lemma {:induction false} ResumeUnvetoed(cfg: Config, d: Durable, c: Commit)
    requires Inv(Unvetoed, cfg, d) && c.Append? && Reduce(Apply(d, c).log).pending.None?
    ensures Keeps(Unvetoed, cfg, d, [c])
  {
    KeepsOne(Unvetoed, cfg, d, c);
  }

  /** What a decision writes before its resume. */
  lemma {:induction false} BeforeTheResume(cfg: Config, d: Durable, dec: Decision, cs: seq<Commit>)
    requires Inv(Ordered, cfg, d) && !Reduce(d.log).terminal && Inv(Unvetoed, cfg, d)
    requires DecidePlan(d, dec).Accepted? && DecideSafe(d, dec)
    requires cs == DecideCommits(d, dec)[..|DecideCommits(d, dec)| - 1]
    ensures Keeps(Unvetoed, cfg, d, cs)
  {
    var asked := PendingInterrupt(d.log).value;
    if ClosingCommits(asked, dec) == [] {
      var b := DecidedBinding(asked, dec);
      assert cs == [Append(Approval(b))];
      ApprovalUnvetoed(d.log, b);
      KeepsOne(Unvetoed, cfg, d, cs[0]);
    } else {
      var d1, rest := Apply(d, cs[0]), cs[1..];
      PendingIsReady(cfg, d);
      ClosedByTheFirst(d, dec);
      EventLeavesTheGate(d.log, cs[0].event);
      OnlyTheLastResumes(d, dec, |cs|);
      forall i | 0 <= i < |rest| ensures LeavesTheGate(rest[i]) {
        assert rest[i] == DecideCommits(d, dec)[i + 1];
      }
      AnsweredUnvetoed(cfg, d1, rest);
    }
  }

  lemma {:induction false} DecideUnvetoed(cfg: Config, d: Durable, dec: Decision)
    requires Inv(Ordered, cfg, d) && !Reduce(d.log).terminal && Inv(Unvetoed, cfg, d)
    requires DecidePlan(d, dec).Accepted? && DecideSafe(d, dec)
    ensures Keeps(Unvetoed, cfg, d, DecideCommits(d, dec))
  {
    var cs := DecideCommits(d, dec);
    var n := |cs| - 1;
    assert cs == cs[..n] + [cs[n]];
    BeforeTheResume(cfg, d, dec, cs[..n]);
    KeepsAtEveryCut(Unvetoed, cfg, d, cs[..n], n);
    SafeDecisionKeeps(cfg, d, dec);
    ApplyAllConcat(d, cs[..n], [cs[n]]);
    ApplyOne(ApplyAll(d, cs[..n]), cs[n]);
    ResumeUnvetoed(cfg, ApplyAll(d, cs[..n]), cs[n]);
    KeepsConcat(Unvetoed, cfg, d, cs[..n], [cs[n]]);
  }

  lemma {:induction false} ActKeepsUnvetoed(cfg: Config, d: Durable, a: Action)
    requires Inv(Ordered, cfg, d) && Inv(Unvetoed, cfg, d) && OrderAllowed(cfg, d, a)
    ensures Inv(Unvetoed, cfg, Act(cfg, d, a))
  {
    match a
    case Execute(req, env, cut) =>
      ExecuteUnvetoed(cfg, d, req, env);
      KeepsAtEveryCut(Unvetoed, cfg, d, CommitsOf(cfg, d, a), cut);
    case Decide(dec, cut) =>
      if DecidePlan(d, dec).Accepted? {
        DecideUnvetoed(cfg, d, dec);
      }
      KeepsAtEveryCut(Unvetoed, cfg, d, CommitsOf(cfg, d, a), cut);
    case Note(e) =>
      OtherEventUnvetoed(d.log, e);
      ApplyOne(d, Append(e));
  }

  // ------------------------------------------------------------ let in, in time

  /** MAIN: an approval on record for a call that waits lets it in, for anyone who drives
      it before that approval expires. */
  lemma {:induction false} ApprovedIsLetIn(cfg: Config, d: Durable, env: Env) returns (inTime: Env)
    requires Inv(Unvetoed, cfg, d) && PendingInterrupt(d.log).Some?
    requires PendingInterrupt(d.log).value.gated !in Reduce(d.log).closed
    requires MayHaveRun(cfg, d.log, PendingInterrupt(d.log).value)
    ensures var asked := PendingInterrupt(d.log).value;
            && inTime == env.(now := inTime.now, tampered := None)
            && LetIn(cfg, d.log, Request(asked.gated, asked.tool, asked.args), inTime)
  {
    var asked := PendingInterrupt(d.log).value;
    var b :| Approval(b) in d.log && b.decision == Approve
             && b.approvedSha == Sha(asked.args) && AppliesTo(b, asked.gated, asked.tool);
    var i :| 0 <= i < |d.log| && d.log[i] == Approval(b);
    assert IsCandidate(d.log[i], asked.gated, asked.tool) && SpeaksFor(b, asked);
    ExactApprovalIsNotVetoed(d.log, i, asked.gated, asked.tool);
    var r := Best(d.log, asked.gated, asked.tool).value;
    var k :| 0 <= k < |d.log| && d.log[k] == Approval(r);
    assert IsCandidate(d.log[k], asked.gated, asked.tool);
    inTime := env.(now := r.expiresAt - 1.0, tampered := None);
  }
}
