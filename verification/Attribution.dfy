/** What an interrupt asks for and what an effect carries out is the request that the
    log first recorded for the call; so a call that was never approved has no effect. */
module Attribution {
  import opened Events
  import opened Tools
  import opened Approvals
  import opened Reducer
  import opened Pipeline
  import opened Footprint
  import opened Invariants
  import opened Exclusivity

  /** A call that was named and not answered is driven again with the request it was
      named with, and the hook leaves its arguments alone. */
  ghost predicate OneRequest(d: Durable, req: Request, env: Env) {
    req.call !in Reduce(d.log).closed ==>
      && (FirstCall(d.log, req.call).Some? ==> FirstCall(d.log, req.call).value == req)
      && ActualArgs(req, env) == req.args
  }

  ghost predicate AttributedLicensed(cfg: Config, d: Durable, c: Commit) {
    && (c.Append? && c.event.Interrupt? ==> AskedAsCalled(cfg, d.log, c.event))
    && (c.ApplyEffect? ==> AsCalled(d.log, c.key.call, c.operation, c.payload))
  }

  lemma {:induction false} CommitAttributed(cfg: Config, d: Durable, c: Commit)
    requires Inv(Attributed, cfg, d) && AttributedLicensed(cfg, d, c)
    ensures Inv(Attributed, cfg, Apply(d, c))
  {
    var d' := Apply(d, c);
    if c.Append? {
      forall x: CallId {
        FirstCallAppend(d.log, c.event, x);
      }
      forall i | 0 <= i < |d'.log| && d'.log[i].Interrupt? ensures AskedAsCalled(cfg, d'.log, d'.log[i]) {
        assert i < |d.log| ==> AskedAsCalled(cfg, d.log, d.log[i]);
      }
    }
    forall i | 0 <= i < |d'.ledger| ensures AppliedAsCalled(d'.log, d'.ledger[i]) {
      assert i < |d.ledger| ==> AppliedAsCalled(d.log, d.ledger[i]);
    }
  }

  lemma {:induction false} PlainAttributed(cfg: Config, d: Durable, cs: seq<Commit>)
    requires Inv(Attributed, cfg, d)
    requires forall i :: 0 <= i < |cs| ==> !cs[i].ApplyEffect? && (cs[i].Append? ==> !cs[i].event.Interrupt?)
    ensures Keeps(Attributed, cfg, d, cs)
    decreases |cs|
  {
    if cs != [] {
      CommitAttributed(cfg, d, cs[0]);
      PlainAttributed(cfg, Apply(d, cs[0]), cs[1..]);
    }
  }

  lemma {:induction false} OwnAttributed(cfg: Config, d: Durable, req: Request, env: Env, cs: seq<Commit>)
    requires Inv(Attributed, cfg, d) && AllOwn(cfg, req, env, cs)
    requires FirstCall(d.log, req.call) == Some(req) && ActualArgs(req, env) == req.args
    ensures Keeps(Attributed, cfg, d, cs)
    decreases |cs|
  {
    if cs != [] {
      assert IsOwn(cfg, req, env, cs[0]);
      CommitAttributed(cfg, d, cs[0]);
      StillLogged(d, [cs[0]], req.call);
      ApplyOne(d, cs[0]);
      OwnAttributed(cfg, Apply(d, cs[0]), req, env, cs[1..]);
    }
  }

  lemma {:induction false} ExecuteAttributed(cfg: Config, d: Durable, req: Request, env: Env)
    requires Inv(Attributed, cfg, d) && OneRequest(d, req, env)
    ensures Keeps(Attributed, cfg, d, ExecutePlan(cfg, d, req, env).commits)
  {
    var cs := ExecutePlan(cfg, d, req, env).commits;
    ACallWritesOnlyItsOwn(cfg, d, req, env);
    if req.call !in Reduce(d.log).closed {
      if req.call in Reduce(d.log).open && req.tool in cfg.registry {
        ReducedWasCalled(d.log, req.call);
        OwnAttributed(cfg, d, req, env, cs);
      } else {
        assert cs[0] == Append(CallEvent(req));
        CommitAttributed(cfg, d, cs[0]);
        FirstCallAppend(d.log, CallEvent(req), req.call);
        OwnAttributed(cfg, Apply(d, cs[0]), req, env, cs[1..]);
      }
    }
  }

  /** A call that is driven, unanswered, is on record with the request it is driven with. */
  lemma {:induction false} NamedAsDriven(cfg: Config, d: Durable, req: Request, env: Env, n: nat)
    requires req.call !in Reduce(d.log).closed && OneRequest(d, req, env)
    requires FirstCall(ApplyAll(d, Cut(ExecutePlan(cfg, d, req, env).commits, n)).log, req.call).Some?
    ensures FirstCall(ApplyAll(d, Cut(ExecutePlan(cfg, d, req, env).commits, n)).log, req.call) == Some(req)
  {
    var made := Cut(ExecutePlan(cfg, d, req, env).commits, n);
    if FirstCall(d.log, req.call).Some? {
      StillLogged(d, made, req.call);
    } else {
      if req.call in Reduce(d.log).open {
        ReducedWasCalled(d.log, req.call);
      }
      if made != [] {
        assert made[0] == Append(CallEvent(req));
        FirstCallAppend(d.log, CallEvent(req), req.call);
        StillLogged(Apply(d, made[0]), made[1..], req.call);
      }
    }
  }

  // ----------------------------------------------- what an approval is needed for

  /** Read off the log and the registry: the interrupted call may have been let through
      before, because an approval of exactly its arguments is on record and its tool's
      policy admits them. */
  ghost predicate MayHaveRun(cfg: Config, log: Log, asked: Body)
    requires asked.Interrupt?
  {
    && asked.tool in cfg.registry && PolicyAdmits(cfg.registry[asked.tool], asked.args)
    && HasApproval(log, cfg.KeyOf(asked.gated), asked.tool, asked.args)
  }

  /** The plainest such look: no approval speaks for the call at all. */
  lemma {:induction false} NoApprovalOnRecordIsEnough(cfg: Config, log: Log, asked: Body)
    requires asked.Interrupt? && Best(log, asked.gated, asked.tool).None?
    ensures !MayHaveRun(cfg, log, asked)
  {
    BestIsBest(log, asked.gated, asked.tool);
    forall b | Approval(b) in log ensures !AppliesTo(b, asked.gated, asked.tool) {
      var i :| 0 <= i < |log| && log[i] == Approval(b);
      assert !IsCandidate(log[i], asked.gated, asked.tool);
    }
  }

  lemma {:induction false} CountedIsThere(ledger: seq<EffectRow>, key: Key)
    requires Count(ledger, key) > 0
    ensures exists i :: 0 <= i < |ledger| && ledger[i].key == key
  {
    var n := |ledger| - 1;
    if ledger[n].key != key {
      CountedIsThere(ledger[..n], key);
      var i :| 0 <= i < n && ledger[..n][i].key == key;
      assert ledger[i].key == key;
    }
  }

  lemma {:induction false} FirstInterruptIsThere(log: Log, iid: string)
    requires FirstInterrupt(log, iid).Some?
    ensures exists i :: 0 <= i < |log| && log[i] == FirstInterrupt(log, iid).value
  {
    var n := |log| - 1;
    if FirstInterrupt(log[..n], iid).Some? {
      FirstInterruptIsThere(log[..n], iid);
      var i :| 0 <= i < n && log[..n][i] == FirstInterrupt(log, iid).value;
      assert log[i] == FirstInterrupt(log, iid).value;
    } else {
      assert log[n] == FirstInterrupt(log, iid).value;
    }
  }

  lemma {:induction false} PendingIsAsCalled(cfg: Config, d: Durable)
    requires Inv(Attributed, cfg, d) && PendingInterrupt(d.log).Some?
    ensures AskedAsCalled(cfg, d.log, PendingInterrupt(d.log).value)
  {
    var iid := Reduce(d.log).pending.value.iid;
    FirstInterruptIsThere(d.log, iid);
    var i :| 0 <= i < |d.log| && d.log[i] == FirstInterrupt(d.log, iid).value;
    assert AskedAsCalled(cfg, d.log, d.log[i]);
  }

  /** MAIN: an interrupted call that no approval on record lets through has had no
      effect, whatever was killed where. */
  lemma {:induction false} NeverLetThroughHasNoEffect(cfg: Config, d: Durable)
    requires Inv(Justified, cfg, d) && Inv(Attributed, cfg, d) && PendingInterrupt(d.log).Some?
    requires !MayHaveRun(cfg, d.log, PendingInterrupt(d.log).value)
    ensures Count(d.ledger, cfg.KeyOf(PendingInterrupt(d.log).value.gated)) == 0
  {
    var asked := PendingInterrupt(d.log).value;
    var key := cfg.KeyOf(asked.gated);
    PendingIsAsCalled(cfg, d);
    forall i | 0 <= i < |d.ledger| ensures d.ledger[i].key != key {
      assert AppliedAsCalled(d.log, d.ledger[i]);
      assert EffectJustified(cfg, d.log, d.ledger[i]);
    }
    if Count(d.ledger, key) > 0 {
      CountedIsThere(d.ledger, key);
    }
  }
}
