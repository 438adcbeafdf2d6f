/** What one call may write, whatever it meets: its own call, result, interrupt and
    row, and an effect under its own key. */
module Footprint {
  import opened Events
  import opened Tools
  import opened Approvals
  import opened Reducer
  import opened Pipeline

  /** Only a call whose tool needs approval asks for one, and it asks for itself. */
  predicate Asks(cfg: Config, req: Request, e: Body) {
    && e.Interrupt? && e.gated == req.call && e.tool == req.tool && e.args == req.args
    && req.tool in cfg.registry && cfg.registry[req.tool].requiresApproval
  }

  predicate IsOwnEvent(cfg: Config, req: Request, env: Env, e: Body) {
    || e == CallEvent(req)
    || IsResultOf(e, req.call)
    || (e.Error? && !e.fatal)
    || (Asks(cfg, req, e) && e.iid == Some(env.interruptId))
  }

  /** An intent is only ever written for a non-idempotent writer with the outbox on. */
  predicate IsOwnRow(cfg: Config, req: Request, row: Row) {
    row.call == req.call && (row.status == RowPending ==> cfg.outbox && cfg.Nonidempotent(req.tool))
  }

  predicate IsOwn(cfg: Config, req: Request, env: Env, c: Commit) {
    match c
    case Append(e) => IsOwnEvent(cfg, req, env, e)
    case InsertRow(key, row) => key == cfg.KeyOf(req.call) && IsOwnRow(cfg, req, row)
    case CompleteRow(key, _) => key == cfg.KeyOf(req.call)
    case MarkUnknown(key) => key == cfg.KeyOf(req.call)
    case ApplyEffect(key, operation, payload, _) =>
      key == cfg.KeyOf(req.call) && operation == req.tool && payload == ActualArgs(req, env)
  }

  predicate AllOwn(cfg: Config, req: Request, env: Env, cs: seq<Commit>) {
    forall i :: 0 <= i < |cs| ==> IsOwn(cfg, req, env, cs[i])
  }

  lemma {:induction false} EffectIsOwn(cfg: Config, req: Request, existing: bool, args: Args, env: Env)
    requires req.tool in cfg.registry && args == ActualArgs(req, env)
    ensures AllOwn(cfg, req, env, EffectPlan(cfg, req, existing, args, env).commits)
  {
    assert AllOwn(cfg, req, env, IntentCommits(cfg, req, existing, args));
    assert AllOwn(cfg, req, env, EffectCommits(cfg, req, args, env));
    assert AllOwn(cfg, req, env, RecordPlan(cfg, req, args, env).commits);
  }

  lemma {:induction false} GateIsOwn(cfg: Config, d: Durable, req: Request, existing: bool, env: Env)
    requires req.tool in cfg.registry
    ensures AllOwn(cfg, req, env, GatePlan(cfg, d, req, existing, env).commits)
  {
    EffectIsOwn(cfg, req, existing, ActualArgs(req, env), env);
  }

  lemma {:induction false} RowIsOwn(cfg: Config, d: Durable, req: Request, env: Env)
    requires req.tool in cfg.registry
    ensures AllOwn(cfg, req, env, RowPlan(cfg, d, req, env).commits)
  {
    GateIsOwn(cfg, d, req, false, env);
    GateIsOwn(cfg, d, req, true, env);
  }

  /** MAIN: a call writes under its own id and key only. */
  lemma {:induction false} ACallWritesOnlyItsOwn(cfg: Config, d: Durable, req: Request, env: Env)
    ensures AllOwn(cfg, req, env, ExecutePlan(cfg, d, req, env).commits)
  {
    if req.tool in cfg.registry {
      var noted := if req.call in Reduce(d.log).open then [] else [Append(CallEvent(req))];
      RowIsOwn(cfg, ApplyAll(d, noted), req, env);
    }
  }

  /** So nothing filed under another key moves, wherever the call is killed. */
  lemma {:induction false} OtherKeysStay(cfg: Config, d: Durable, req: Request, env: Env, cs: seq<Commit>, key: Key)
    requires AllOwn(cfg, req, env, cs) && key != cfg.KeyOf(req.call)
    ensures var d' := ApplyAll(d, cs);
            && (key in d'.rows <==> key in d.rows)
            && (key in d.rows ==> d'.rows[key] == d.rows[key])
            && Count(d'.ledger, key) == Count(d.ledger, key)
    decreases |cs|
  {
    if cs != [] {
      var d1 := Apply(d, cs[0]);
      if cs[0].ApplyEffect? && d1.ledger != d.ledger {
        assert d1.ledger[..|d.ledger|] == d.ledger;
      }
      OtherKeysStay(cfg, d1, req, env, cs[1..], key);
    }
  }
}
