/** No effect without an approval of exactly the arguments applied, whatever the
    hook between approval and execution does and wherever a kill falls. */
module Justification {
  import opened Events
  import opened Tools
  import opened Approvals
  import opened Reducer
  import opened Pipeline
  import opened Invariants

  lemma {:induction false} CommitJustified(cfg: Config, d: Durable, c: Commit)
    requires Inv(Justified, cfg, d)
    requires c.ApplyEffect? ==>
               EffectJustified(cfg, d.log, EffectRow(c.key, c.operation, c.payload))
    ensures Inv(Justified, cfg, Apply(d, c))
  {
    var d' := Apply(d, c);
    forall i | 0 <= i < |d'.ledger|
      ensures EffectJustified(cfg, d'.log, d'.ledger[i])
    {
      var e := d'.ledger[i];
      assert EffectJustified(cfg, d.log, e);
      if cfg.registry[e.operation].requiresApproval {
        var b :| Approval(b) in d.log && b.decision == Approve
                 && b.approvedSha == Sha(e.payload) && AppliesTo(b, e.key.call, e.operation);
        assert Approval(b) in d'.log;
      }
    }
  }

  lemma {:induction false} NoEffectKeeps(cfg: Config, d: Durable, cs: seq<Commit>)
    requires Inv(Justified, cfg, d)
    requires forall i :: 0 <= i < |cs| ==> !cs[i].ApplyEffect?
    ensures Keeps(Justified, cfg, d, cs)
    decreases |cs|
  {
    if cs != [] {
      CommitJustified(cfg, d, cs[0]);
      NoEffectKeeps(cfg, Apply(d, cs[0]), cs[1..]);
    }
  }

  lemma {:induction false} EffectJustifiedInPlan(cfg: Config, d: Durable, req: Request, existing: bool, args: Args, env: Env)
    requires req.tool in cfg.registry && Inv(Justified, cfg, d)
    requires EffectJustified(cfg, d.log, EffectRow(cfg.KeyOf(req.call), req.tool, args))
    ensures Keeps(Justified, cfg, d, EffectPlan(cfg, req, existing, args, env).commits)
  {
    var intent := IntentCommits(cfg, req, existing, args);
    var effect := EffectCommits(cfg, req, args, env);
    var record := RecordPlan(cfg, req, args, env).commits;
    NoEffectKeeps(cfg, d, intent);
    KeepsAtEveryCut(Justified, cfg, d, intent, |intent|);
    var d1 := ApplyAll(d, intent);
    assert d1.log == d.log by {
      if intent != [] { KeepsOne(Justified, cfg, d, intent[0]); }
    }
    if effect != [] {
      CommitJustified(cfg, d1, effect[0]);
      KeepsOne(Justified, cfg, d1, effect[0]);
    }
    var d2 := ApplyAll(d1, effect);
    NoEffectKeeps(cfg, d2, record);
    KeepsConcat(Justified, cfg, d1, effect, record);
    KeepsConcat(Justified, cfg, d, intent, effect + record);
  }

  lemma {:induction false} GateJustified(cfg: Config, d: Durable, req: Request, existing: bool, env: Env)
    requires req.tool in cfg.registry && Inv(Justified, cfg, d)
    ensures Keeps(Justified, cfg, d, GatePlan(cfg, d, req, existing, env).commits)
  {
    var plan := GatePlan(cfg, d, req, existing, env);
    var binding := Best(d.log, req.call, req.tool);
    var args := ActualArgs(req, env);
    var passed :=
      if binding.Some? then
        LetsThrough(Validate(binding.value, req.call, req.tool, Sha(req.args), env.now))
        && Sha(args) == binding.value.approvedSha
      else !cfg.registry[req.tool].requiresApproval;
    if passed && PolicyAdmits(cfg.registry[req.tool], args) {
      if binding.Some? {
        assert HasApproval(d.log, cfg.KeyOf(req.call), req.tool, args);
      }
      EffectJustifiedInPlan(cfg, d, req, existing, args, env);
    } else {
      NoEffectKeeps(cfg, d, plan.commits);
    }
  }

  lemma {:induction false} RowJustified(cfg: Config, d: Durable, req: Request, env: Env)
    requires req.tool in cfg.registry && Inv(Justified, cfg, d)
    ensures Keeps(Justified, cfg, d, RowPlan(cfg, d, req, env).commits)
  {
    var plan := RowPlan(cfg, d, req, env);
    if plan == GatePlan(cfg, d, req, false, env) {
      GateJustified(cfg, d, req, false, env);
    } else if plan == GatePlan(cfg, d, req, true, env) {
      GateJustified(cfg, d, req, true, env);
    } else {
      NoEffectKeeps(cfg, d, plan.commits);
    }
  }

  /** MAIN (one call): any request, any hook, any answer from outside, any kill. */
  lemma {:induction false} ExecuteJustified(cfg: Config, d: Durable, req: Request, env: Env)
    requires Inv(Justified, cfg, d)
    ensures Keeps(Justified, cfg, d, ExecutePlan(cfg, d, req, env).commits)
  {
    var s := Reduce(d.log);
    if req.call in s.closed || req.tool !in cfg.registry {
      NoEffectKeeps(cfg, d, ExecutePlan(cfg, d, req, env).commits);
    } else {
      var noted := if req.call in s.open then [] else [Append(CallEvent(req))];
      NoEffectKeeps(cfg, d, noted);
      KeepsAtEveryCut(Justified, cfg, d, noted, |noted|);
      RowJustified(cfg, ApplyAll(d, noted), req, env);
      KeepsConcat(Justified, cfg, d, noted, RowPlan(cfg, ApplyAll(d, noted), req, env).commits);
    }
  }

  /** Gate, hash check and policy let the call through. */
  predicate LetIn(cfg: Config, log: Log, req: Request, env: Env)
    requires req.tool in cfg.registry
  {
    var binding, args := Best(log, req.call, req.tool), ActualArgs(req, env);
    && (if binding.Some? then
          && LetsThrough(Validate(binding.value, req.call, req.tool, Sha(req.args), env.now))
          && Sha(args) == binding.value.approvedSha
        else !cfg.registry[req.tool].requiresApproval)
    && PolicyAdmits(cfg.registry[req.tool], args)
  }

  predicate HasEffect(cs: seq<Commit>) {
    exists i :: 0 <= i < |cs| && cs[i].ApplyEffect?
  }

  lemma {:induction false} GateEffectsAreLetIn(cfg: Config, d: Durable, req: Request, existing: bool, env: Env)
    requires req.tool in cfg.registry && HasEffect(GatePlan(cfg, d, req, existing, env).commits)
    ensures LetIn(cfg, d.log, req, env)
  {}

  lemma {:induction false} RowEffectsAreLetIn(cfg: Config, d: Durable, req: Request, env: Env)
    requires req.tool in cfg.registry && HasEffect(RowPlan(cfg, d, req, env).commits)
    ensures LetIn(cfg, d.log, req, env)
  {
    if HasEffect(GatePlan(cfg, d, req, false, env).commits) {
      GateEffectsAreLetIn(cfg, d, req, false, env);
    }
    if HasEffect(GatePlan(cfg, d, req, true, env).commits) {
      GateEffectsAreLetIn(cfg, d, req, true, env);
    }
  }

  /** MAIN (one call): an effect only ever follows an approval that was still valid when
      the gate looked at it: not expired, given for these arguments, and for this call or
      for its tool for the session; or the tool needs none and none was given or refused. */
  lemma {:induction false} NoEffectUnderAnExpiredApproval(cfg: Config, d: Durable, req: Request, env: Env)
    requires HasEffect(ExecutePlan(cfg, d, req, env).commits)
    ensures req.tool in cfg.registry && LetIn(cfg, d.log, req, env)
    ensures var b := Best(d.log, req.call, req.tool);
            if b.None? then !cfg.registry[req.tool].requiresApproval
            else && b.value.decision == Approve && env.now < b.value.expiresAt
                 && b.value.approvedSha == Sha(req.args) == Sha(ActualArgs(req, env))
                 && AppliesTo(b.value, req.call, req.tool)
  {
    var noted := if req.call in Reduce(d.log).open then [] else [Append(CallEvent(req))];
    var d' := ApplyAll(d, noted);
    if noted != [] {
      ApplyOne(d, noted[0]);
      BestAppend(d.log, CallEvent(req), req.call, req.tool);
    }
    if req.tool in cfg.registry {
      var rest := RowPlan(cfg, d', req, env).commits;
      var i :| 0 <= i < |noted + rest| && (noted + rest)[i].ApplyEffect?;
      assert rest[i - |noted|].ApplyEffect?;
      RowEffectsAreLetIn(cfg, d', req, env);
    }
  }

  lemma {:induction false} ActKeepsJustified(cfg: Config, d: Durable, a: Action)
    requires Inv(Justified, cfg, d)
    ensures Inv(Justified, cfg, Act(cfg, d, a))
  {
    match a
    case Execute(req, env, cut) =>
      ExecuteJustified(cfg, d, req, env);
      KeepsAtEveryCut(Justified, cfg, d, CommitsOf(cfg, d, a), cut);
    case Decide(dec, cut) =>
      NoEffectKeeps(cfg, d, CommitsOf(cfg, d, a));
      KeepsAtEveryCut(Justified, cfg, d, CommitsOf(cfg, d, a), cut);
    case Note(event) =>
      NoEffectKeeps(cfg, d, CommitsOf(cfg, d, a));
      KeepsOne(Justified, cfg, d, Append(event));
  }

  /** MAIN (every run): after any calls, decisions and loop events, each killed
      anywhere, every effect in the ledger is justified by the log. The log only
      grows and no effect writes to it, so the approval was there first. */
  lemma {:induction false} EveryEffectIsJustified(cfg: Config, d: Durable, actions: seq<Action>)
    requires Inv(Justified, cfg, d)
    ensures Inv(Justified, cfg, Run(cfg, d, actions))
    decreases |actions|
  {
    if actions != [] {
      ActKeepsJustified(cfg, d, actions[0]);
      EveryEffectIsJustified(cfg, Act(cfg, d, actions[0]), actions[1..]);
    }
  }
}
