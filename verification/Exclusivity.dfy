/** With the outbox on, no key ever has two effects. */
module Exclusivity {
  import opened Events
  import opened Tools
  import opened Approvals
  import opened Reducer
  import opened Pipeline
  import opened Invariants

  /** A read-back never denies an effect that the ledger holds. It may be unable
      to tell, and a tool may have no read-back at all. */
  ghost predicate HonestProbe(cfg: Config, d: Durable, c: CallId, env: Env) {
    c !in Reduce(d.log).closed && env.probe.NotApplied? ==> Count(d.ledger, cfg.KeyOf(c)) == 0
  }

  /** A call that was named and not answered is driven again for the tool it was named
      with. An id that was answered may be proposed again for any: the log answers. */
  ghost predicate SameTool(d: Durable, req: Request) {
    req.call !in Reduce(d.log).closed && FirstCall(d.log, req.call).Some? ==> LoggedAs(d.log, req.call, req.tool)
  }

  ghost predicate OnceAllowed(cfg: Config, d: Durable, a: Action) {
    a.Execute? ==> SameTool(d, a.req) && HonestProbe(cfg, d, a.req.call, a.env)
  }

  /** When a commit may be made without putting the claim at risk. */
  ghost predicate OnceLicensed(cfg: Config, d: Durable, c: Commit) {
    match c
    case InsertRow(key, row) =>
      key in d.rows
      || (&& key == cfg.KeyOf(key.call)
          && FirstCall(d.log, key.call).Some?
          && (cfg.Nonidempotent(FirstCall(d.log, key.call).value.tool) ==> row.status != RowFailed))
    case ApplyEffect(key, operation, _, idempotent) =>
      (idempotent && key in d.dedup)
      || (&& Count(d.ledger, key) == 0
          && key == cfg.KeyOf(key.call)
          && LoggedAs(d.log, key.call, operation)
          && operation in cfg.registry && cfg.registry[operation].effect != Read
          && (idempotent <==> cfg.registry[operation].effect == WriteIdempotent)
          && (!idempotent ==> key in d.rows))
    case _ => true
  }

  lemma {:induction false} CommitOnce(cfg: Config, d: Durable, c: Commit)
    requires Inv(AtMostOnce, cfg, d) && OnceLicensed(cfg, d, c)
    ensures Inv(AtMostOnce, cfg, Apply(d, c))
  {
    var d' := Apply(d, c);
    match c
    case Append(event) =>
      forall x: CallId { FirstCallAppend(d.log, event, x); }
      forall key | Count(d'.ledger, key) == 1 ensures EffectAccounted(cfg, d', key) {
        assert EffectAccounted(cfg, d, key);
      }
      forall key | key in d'.rows ensures RowAccounted(cfg, d', key) {
        assert RowAccounted(cfg, d, key);
      }
    case ApplyEffect(k, operation, payload, idempotent) =>
      if !(idempotent && k in d.dedup) {
        forall key { CountAppend(d.ledger, EffectRow(k, operation, payload), key); }
        forall key | Count(d'.ledger, key) == 1 ensures EffectAccounted(cfg, d', key) {
          assert key != k ==> EffectAccounted(cfg, d, key);
        }
        forall key | key in d'.rows ensures RowAccounted(cfg, d', key) {
          assert RowAccounted(cfg, d, key);
        }
      }
    case _ =>
      forall key | Count(d'.ledger, key) == 1 ensures EffectAccounted(cfg, d', key) {
        assert EffectAccounted(cfg, d, key);
      }
      forall key | key in d'.rows ensures RowAccounted(cfg, d', key) {
        assert key in d.rows ==> RowAccounted(cfg, d, key);
      }
  }

  /** Appends and updates of existing rows are always licensed. */
  lemma {:induction false} PlainKeeps(cfg: Config, d: Durable, cs: seq<Commit>)
    requires Inv(AtMostOnce, cfg, d)
    requires forall i :: 0 <= i < |cs| ==> cs[i].Append? || cs[i].CompleteRow? || cs[i].MarkUnknown?
    ensures Keeps(AtMostOnce, cfg, d, cs)
    decreases |cs|
  {
    if cs != [] {
      CommitOnce(cfg, d, cs[0]);
      PlainKeeps(cfg, Apply(d, cs[0]), cs[1..]);
    }
  }

  lemma {:induction false} ReducedWasCalled(log: Log, c: CallId)
    requires c in Reduce(log).open || c in Reduce(log).closed
    ensures FirstCall(log, c).Some?
  {
    var init, b := log[..|log| - 1], log[|log| - 1];
    if c in Reduce(init).open || c in Reduce(init).closed {
      ReducedWasCalled(init, c);
    }
  }

  /** What the gate may rely on: an existing row has no effect behind it yet, and
      for a non-idempotent writer `existing` tells the truth about the row. */
  ghost predicate GateReady(cfg: Config, d: Durable, req: Request, existing: bool) {
    var key := cfg.KeyOf(req.call);
    && req.tool in cfg.registry
    && LoggedAs(d.log, req.call, req.tool)
    && (cfg.registry[req.tool].effect == WriteNonidempotent ==>
          && (existing <==> key in d.rows)
          && Count(d.ledger, key) == 0)
  }

  lemma {:induction false} EffectOnce(cfg: Config, d: Durable, req: Request, existing: bool, args: Args, env: Env)
    requires cfg.outbox && Inv(AtMostOnce, cfg, d) && GateReady(cfg, d, req, existing)
    ensures Keeps(AtMostOnce, cfg, d, EffectPlan(cfg, req, existing, args, env).commits)
  {
    var intent := IntentCommits(cfg, req, existing, args);
    var effect := EffectCommits(cfg, req, args, env);
    var record := RecordPlan(cfg, req, args, env).commits;
    if intent != [] {
      CommitOnce(cfg, d, intent[0]);
      KeepsOne(AtMostOnce, cfg, d, intent[0]);
    }
    var d1 := ApplyAll(d, intent);
    assert d1.log == d.log && d1.ledger == d.ledger && d1.dedup == d.dedup;
    if effect != [] {
      var key := cfg.KeyOf(req.call);
      assert Count(d.ledger, key) == 1 ==> EffectAccounted(cfg, d, key);
      CommitOnce(cfg, d1, effect[0]);
      KeepsOne(AtMostOnce, cfg, d1, effect[0]);
    }
    var d2 := ApplyAll(d1, effect);
    assert d2.log == d.log && d2.rows == d1.rows;
    RecordOnce(cfg, d2, req, args, env);
    KeepsConcat(AtMostOnce, cfg, d1, effect, record);
    KeepsConcat(AtMostOnce, cfg, d, intent, effect + record);
  }

  lemma {:induction false} RecordOnce(cfg: Config, d: Durable, req: Request, args: Args, env: Env)
    requires cfg.outbox && Inv(AtMostOnce, cfg, d)
    requires req.tool in cfg.registry && LoggedAs(d.log, req.call, req.tool)
    ensures Keeps(AtMostOnce, cfg, d, RecordPlan(cfg, req, args, env).commits)
  {
    var cs := RecordPlan(cfg, req, args, env).commits;
    var n := |cs| - 1;
    PlainKeeps(cfg, d, cs[..n]);
    KeepsAtEveryCut(AtMostOnce, cfg, d, cs[..n], n);
    var d' := ApplyAll(d, cs[..n]);
    assert cs == cs[..n] + [cs[n]];
    assert LoggedAs(d'.log, req.call, req.tool) by {
      StillLogged(d, cs[..n], req.call);
    }
    CommitOnce(cfg, d', cs[n]);
    KeepsOne(AtMostOnce, cfg, d', cs[n]);
    KeepsConcat(AtMostOnce, cfg, d, cs[..n], [cs[n]]);
  }

  lemma {:induction false} GateOnce(cfg: Config, d: Durable, req: Request, existing: bool, env: Env)
    requires cfg.outbox && Inv(AtMostOnce, cfg, d) && GateReady(cfg, d, req, existing)
    ensures Keeps(AtMostOnce, cfg, d, GatePlan(cfg, d, req, existing, env).commits)
  {
    var plan := GatePlan(cfg, d, req, existing, env);
    EffectOnce(cfg, d, req, existing, ActualArgs(req, env), env);
    if plan != EffectPlan(cfg, req, existing, ActualArgs(req, env), env) {
      PlainKeeps(cfg, d, plan.commits);
    }
  }

  lemma {:induction false} RowOnce(cfg: Config, d: Durable, req: Request, env: Env)
    requires cfg.outbox && Inv(AtMostOnce, cfg, d)
    requires req.tool in cfg.registry && LoggedAs(d.log, req.call, req.tool)
    requires req.call !in Reduce(d.log).closed && HonestProbe(cfg, d, req.call, env)
    ensures Keeps(AtMostOnce, cfg, d, RowPlan(cfg, d, req, env).commits)
  {
    var key := cfg.KeyOf(req.call);
    var plan := RowPlan(cfg, d, req, env);
    assert Count(d.ledger, key) == 1 ==> EffectAccounted(cfg, d, key);
    if key !in d.rows {
      GateOnce(cfg, d, req, false, env);
    } else {
      assert RowAccounted(cfg, d, key);
      if d.rows[key].sha == Sha(req.args)
         && (|| d.rows[key].status == RowFailed
             || (&& d.rows[key].status == RowPending
                 && cfg.registry[req.tool].hasProbe && env.probe.NotApplied?)) {
        GateOnce(cfg, d, req, true, env);
      } else {
        PlainKeeps(cfg, d, plan.commits);
      }
    }
  }

  /** The call is put on record, and nothing else moves. */
  lemma {:induction false} NotedOnce(cfg: Config, d: Durable, req: Request, noted: seq<Commit>)
    requires Inv(AtMostOnce, cfg, d) && SameTool(d, req) && req.call !in Reduce(d.log).closed
    requires noted == if req.call in Reduce(d.log).open then [] else [Append(CallEvent(req))]
    ensures Keeps(AtMostOnce, cfg, d, noted)
    ensures var d' := ApplyAll(d, noted);
            && Inv(AtMostOnce, cfg, d') && LoggedAs(d'.log, req.call, req.tool)
            && d'.ledger == d.ledger && req.call !in Reduce(d'.log).closed
  {
    PlainKeeps(cfg, d, noted);
    KeepsAtEveryCut(AtMostOnce, cfg, d, noted, |noted|);
    if req.call in Reduce(d.log).open {
      ReducedWasCalled(d.log, req.call);
    } else {
      FirstCallAppend(d.log, CallEvent(req), req.call);
      ReduceAppend(d.log, CallEvent(req));
      ApplyOne(d, noted[0]);
    }
  }

  /** MAIN (one call). */
  lemma {:induction false} ExecuteOnce(cfg: Config, d: Durable, req: Request, env: Env)
    requires cfg.outbox && Inv(AtMostOnce, cfg, d)
    requires SameTool(d, req) && HonestProbe(cfg, d, req.call, env)
    ensures Keeps(AtMostOnce, cfg, d, ExecutePlan(cfg, d, req, env).commits)
  {
    var s := Reduce(d.log);
    var plan := ExecutePlan(cfg, d, req, env);
    if req.call in s.closed || req.tool !in cfg.registry {
      PlainKeeps(cfg, d, plan.commits);
    } else {
      var noted := if req.call in s.open then [] else [Append(CallEvent(req))];
      NotedOnce(cfg, d, req, noted);
      var d' := ApplyAll(d, noted);
      RowOnce(cfg, d', req, env);
      KeepsConcat(AtMostOnce, cfg, d, noted, RowPlan(cfg, d', req, env).commits);
    }
  }

  lemma {:induction false} ActKeepsOnce(cfg: Config, d: Durable, a: Action)
    requires cfg.outbox && Inv(AtMostOnce, cfg, d) && OnceAllowed(cfg, d, a)
    ensures Inv(AtMostOnce, cfg, Act(cfg, d, a))
  {
    match a
    case Execute(req, env, cut) =>
      ExecuteOnce(cfg, d, req, env);
      KeepsAtEveryCut(AtMostOnce, cfg, d, CommitsOf(cfg, d, a), cut);
    case Decide(dec, cut) =>
      PlainKeeps(cfg, d, CommitsOf(cfg, d, a));
      KeepsAtEveryCut(AtMostOnce, cfg, d, CommitsOf(cfg, d, a), cut);
    case Note(event) =>
      CommitOnce(cfg, d, Append(event));
      KeepsOne(AtMostOnce, cfg, d, Append(event));
  }

  ghost predicate OnceRun(cfg: Config, d: Durable, actions: seq<Action>)
    decreases |actions|
  {
    actions != [] ==>
      OnceAllowed(cfg, d, actions[0]) && OnceRun(cfg, Act(cfg, d, actions[0]), actions[1..])
  }

  lemma {:induction false} RunKeepsOnce(cfg: Config, d: Durable, actions: seq<Action>)
    requires cfg.outbox && Inv(AtMostOnce, cfg, d) && OnceRun(cfg, d, actions)
    ensures Inv(AtMostOnce, cfg, Run(cfg, d, actions))
    decreases |actions|
  {
    if actions != [] {
      ActKeepsOnce(cfg, d, actions[0]);
      RunKeepsOnce(cfg, Act(cfg, d, actions[0]), actions[1..]);
    }
  }

  /** MAIN (every run): calls, decisions and loop events in any order, each killed
      between any two commits, with any arguments swapped in on the way. */
  lemma {:induction false} NoKeyHasTwoEffects(cfg: Config, actions: seq<Action>, key: Key)
    requires cfg.outbox && OnceRun(cfg, EMPTY, actions)
    ensures Count(Run(cfg, EMPTY, actions).ledger, key) <= 1
  {
    assert Inv(AtMostOnce, cfg, EMPTY);
    RunKeepsOnce(cfg, EMPTY, actions);
  }
}
