/** Every log the pipeline writes is free of violations, and no row is ahead of
    the event it records, at every point where a kill may fall. */
module Ordering {
  import opened Events
  import opened Tools
  import opened Approvals
  import opened Reducer
  import opened ReducerSpec
  import opened Pipeline
  import opened Invariants

  /** The call is recorded, unanswered, and the run has not ended. */
  ghost predicate Ready(cfg: Config, d: Durable, c: CallId) {
    && Inv(Ordered, cfg, d)
    && c in Reduce(d.log).open
    && !Reduce(d.log).terminal
  }

  ghost predicate OrderedLicensed(cfg: Config, d: Durable, c: Commit) {
    var s := Reduce(d.log);
    match c
    case Append(e) =>
      && Step(s, e, |d.log|).violations == []
      && (IsFinal(e) ==> s.open == map[])
      && (e.Interrupt? ==>
            && e.iid.Some? && FirstInterrupt(d.log, e.iid.value).None?
            && (e.gated in s.open || e.gated in s.closed))
    case InsertRow(key, row) =>
      key in d.rows
      || (&& key == cfg.KeyOf(key.call)
          && (row.status == RowPending ==> key.call in s.open || key.call in s.closed)
          && (row.status != RowPending ==> key.call in s.closed))
    case CompleteRow(key, _) => key.call in s.closed
    case MarkUnknown(key) => key.call in s.closed
    case ApplyEffect(_, _, _, _) => true
  }

  lemma {:induction false} CommitOrdered(cfg: Config, d: Durable, c: Commit)
    requires Inv(Ordered, cfg, d) && OrderedLicensed(cfg, d, c)
    ensures Inv(Ordered, cfg, Apply(d, c))
    ensures !c.Append? ==> Apply(d, c).log == d.log
  {
    var d' := Apply(d, c);
    if c.Append? {
      EventOrdered(cfg, d, c.event);
    } else {
      forall key | key in d'.rows ensures RowOrdered(cfg, d', key) {
        assert key in d.rows ==> RowOrdered(cfg, d, key);
      }
    }
  }

  lemma {:induction false} EventOrdered(cfg: Config, d: Durable, e: Body)
    requires Inv(Ordered, cfg, d) && OrderedLicensed(cfg, d, Append(e))
    ensures Inv(Ordered, cfg, Apply(d, Append(e)))
  {
    var d' := Apply(d, Append(e));
    var s, s' := Reduce(d.log), Reduce(d'.log);
    ReduceAppend(d.log, e);
    TerminalStatus(d.log);
    assert forall x :: x in s.closed ==> x in s'.closed;
    assert forall x :: x in s.open ==> x in s'.open || x in s'.closed;
    forall key | key in d'.rows ensures RowOrdered(cfg, d', key) {
      assert RowOrdered(cfg, d, key);
    }
    GateStaysOrdered(d.log, e);
  }

  lemma {:induction false} GateStaysOrdered(log: Log, e: Body)
    requires GateOrdered(log) && Step(Reduce(log), e, |log|).violations == []
    requires e.Interrupt? ==>
               && e.iid.Some? && FirstInterrupt(log, e.iid.value).None?
               && (e.gated in Reduce(log).open || e.gated in Reduce(log).closed)
    ensures GateOrdered(log + [e])
  {
    ReduceAppend(log, e);
    var s' := Reduce(log + [e]);
    if s'.pending.Some? {
      FirstInterruptAppend(log, e, s'.pending.value.iid);
    }
  }

  /** The call has been answered, once, and nothing else about the calls moved. */
  ghost predicate Answers(before: Log, after: Log, c: CallId) {
    var s, t := Reduce(before), Reduce(after);
    && t.closed == s.closed + [c]
    && t.open == s.open - {c}
    && t.pending == s.pending && t.pendingIndex == s.pendingIndex
    && t.terminal == s.terminal
  }

  lemma {:induction false} NoteErrorKeeps(cfg: Config, d: Durable, c: CallId, noted: string)
    requires Ready(cfg, d, c)
    ensures Ready(cfg, Apply(d, Append(Error(noted, false))), c)
    ensures Reduce(Apply(d, Append(Error(noted, false))).log) == Reduce(d.log)
  {
    ReduceAppend(d.log, Error(noted, false));
    CommitOrdered(cfg, d, Append(Error(noted, false)));
  }

  lemma {:induction false} AnswerKeeps(cfg: Config, d: Durable, c: CallId, status: ResultStatus,
                    result: Option<Payload>, error: string)
    requires Ready(cfg, d, c)
    ensures var d' := Apply(d, Append(ResultEvent(c, status, result, error)));
            Inv(Ordered, cfg, d') && Answers(d.log, d'.log, c)
  {
    var e := ResultEvent(c, status, result, error);
    ReduceAppend(d.log, e);
    assert c !in Reduce(d.log).closed by { OpenIsNotClosed(d.log, c); }
    CommitOrdered(cfg, d, Append(e));
  }

  lemma {:induction false} OpenIsNotClosed(log: Log, c: CallId)
    requires c in Reduce(log).open
    ensures c !in Reduce(log).closed
  {
    var init := log[..|log| - 1];
    if c in Reduce(init).open {
      OpenIsNotClosed(init, c);
    }
  }

  /** Answer the call, then close its row. */
  lemma {:induction false} AnswerThenRowKeeps(cfg: Config, d: Durable, c: CallId, status: ResultStatus,
                           result: Option<Payload>, error: string, last: Commit)
    requires Ready(cfg, d, c)
    requires last.CompleteRow? || last.MarkUnknown? || (last.InsertRow? && last.row.status != RowPending)
    requires last.key == cfg.KeyOf(c)
    ensures Keeps(Ordered, cfg, d, [Append(ResultEvent(c, status, result, error)), last])
    ensures Answers(d.log, ApplyAll(d, [Append(ResultEvent(c, status, result, error)), last]).log, c)
  {
    var answer := Append(ResultEvent(c, status, result, error));
    AnswerKeeps(cfg, d, c, status, result, error);
    CommitOrdered(cfg, Apply(d, answer), last);
    KeepsTwo(Ordered, cfg, d, answer, last);
  }

  lemma {:induction false} CloseKeeps(cfg: Config, d: Durable, c: CallId, status: ResultStatus, error: string, noted: string)
    requires Ready(cfg, d, c)
    ensures Keeps(Ordered, cfg, d, Close(c, status, error, noted).commits)
    ensures Answers(d.log, ApplyAll(d, Close(c, status, error, noted).commits).log, c)
  {
    NoteErrorKeeps(cfg, d, c, noted);
    AnswerKeeps(cfg, Apply(d, Append(Error(noted, false))), c, status, None, error);
    KeepsTwo(Ordered, cfg, d, Append(Error(noted, false)), Append(ResultEvent(c, status, None, error)));
  }

  /** Note the error, answer the call, then close its row. */
  lemma {:induction false} CloseThenRowKeeps(cfg: Config, d: Durable, c: CallId, status: ResultStatus,
                          error: string, noted: string, last: Commit)
    requires Ready(cfg, d, c)
    requires last.MarkUnknown? || (last.InsertRow? && last.row.status != RowPending)
    requires last.key == cfg.KeyOf(c)
    ensures Keeps(Ordered, cfg, d, Close(c, status, error, noted).commits + [last])
    ensures Answers(d.log, ApplyAll(d, Close(c, status, error, noted).commits + [last]).log, c)
  {
    var first := Append(Error(noted, false));
    NoteErrorKeeps(cfg, d, c, noted);
    KeepsOne(Ordered, cfg, d, first);
    AnswerThenRowKeeps(cfg, Apply(d, first), c, status, None, error, last);
    var rest := [Append(ResultEvent(c, status, None, error)), last];
    KeepsConcat(Ordered, cfg, d, [first], rest);
    ApplyAllConcat(d, [first], rest);
    assert Close(c, status, error, noted).commits + [last] == [first] + rest;
  }

  /** How a call that was open when it started, and ran to its end, leaves the log. */
  ghost predicate Settled(before: Log, after: Log, c: CallId, out: Outcome) {
    var s, t := Reduce(before), Reduce(after);
    if out.Done? then Answers(before, after, c)
    else
      && out.Interrupted?
      && t.closed == s.closed && t.open == s.open && t.terminal == s.terminal
      && t.pending.Some?
  }

  lemma {:induction false} EffectOrdered(cfg: Config, d: Durable, req: Request, existing: bool, args: Args, env: Env)
    requires req.tool in cfg.registry && Ready(cfg, d, req.call)
    ensures var p := EffectPlan(cfg, req, existing, args, env);
            Keeps(Ordered, cfg, d, p.commits) && Settled(d.log, ApplyAll(d, p.commits).log, req.call, p.out)
  {
    var intent := IntentCommits(cfg, req, existing, args);
    var effect := EffectCommits(cfg, req, args, env);
    var record := RecordPlan(cfg, req, args, env).commits;
    if intent != [] {
      CommitOrdered(cfg, d, intent[0]);
      KeepsOne(Ordered, cfg, d, intent[0]);
    }
    var d1 := ApplyAll(d, intent);
    assert d1.log == d.log && Inv(Ordered, cfg, d1);
    if effect != [] {
      CommitOrdered(cfg, d1, effect[0]);
      KeepsOne(Ordered, cfg, d1, effect[0]);
    }
    var d2 := ApplyAll(d1, effect);
    assert d2.log == d.log && Ready(cfg, d2, req.call);
    if env.fn.Returns? {
      AnswerThenRowKeeps(cfg, d2, req.call, Executed, Some(Returned(env.fn.text)), "", record[1]);
    } else {
      var status := if OnOutboxPath(cfg, req.tool) then Unknown else Failed;
      CloseThenRowKeeps(cfg, d2, req.call, status, env.fn.error, env.fn.error, record[2]);
    }
    KeepsConcat(Ordered, cfg, d1, effect, record);
    KeepsConcat(Ordered, cfg, d, intent, effect + record);
    ApplyAllConcat(d1, effect, record);
    ApplyAllConcat(d, intent, effect + record);
  }

  lemma {:induction false} CheckOrdered(cfg: Config, d: Durable, req: Request, existing: bool, binding: Option<Binding>, env: Env)
    requires req.tool in cfg.registry && Ready(cfg, d, req.call)
    ensures var p := CheckPlan(cfg, req, existing, binding, env);
            Keeps(Ordered, cfg, d, p.commits) && Settled(d.log, ApplyAll(d, p.commits).log, req.call, p.out)
  {
    var args := ActualArgs(req, env);
    if binding.Some? && Sha(args) != binding.value.approvedSha {
      CloseKeeps(cfg, d, req.call, Rejected, "args_sha256_mismatch", "args_sha256_mismatch");
    } else if !PolicyAdmits(cfg.registry[req.tool], args) {
      CloseKeeps(cfg, d, req.call, Rejected, "arg_policy_violation", "arg_policy_violation");
    } else {
      EffectOrdered(cfg, d, req, existing, args, env);
    }
  }

  lemma {:induction false} InterruptOrdered(cfg: Config, d: Durable, req: Request, env: Env)
    requires Ready(cfg, d, req.call)
    requires FirstInterrupt(d.log, env.interruptId).None?
    ensures var p := InterruptPlan(d, req, env);
            Keeps(Ordered, cfg, d, p.commits) && Settled(d.log, ApplyAll(d, p.commits).log, req.call, p.out)
  {
    var p := InterruptPlan(d, req, env);
    if p.commits != [] {
      ReduceAppend(d.log, p.commits[0].event);
      CommitOrdered(cfg, d, p.commits[0]);
      KeepsOne(Ordered, cfg, d, p.commits[0]);
    }
  }

  lemma {:induction false} GateOrderedPlan(cfg: Config, d: Durable, req: Request, existing: bool, env: Env)
    requires req.tool in cfg.registry && Ready(cfg, d, req.call)
    requires FirstInterrupt(d.log, env.interruptId).None?
    ensures var p := GatePlan(cfg, d, req, existing, env);
            Keeps(Ordered, cfg, d, p.commits) && Settled(d.log, ApplyAll(d, p.commits).log, req.call, p.out)
  {
    var binding := Best(d.log, req.call, req.tool);
    if binding.Some? {
      var answer := Validate(binding.value, req.call, req.tool, Sha(req.args), env.now);
      if LetsThrough(answer) {
        CheckOrdered(cfg, d, req, existing, binding, env);
      } else {
        CloseKeeps(cfg, d, req.call, Rejected, ReasonOf(answer), ReasonOf(answer));
      }
    } else if cfg.registry[req.tool].requiresApproval {
      InterruptOrdered(cfg, d, req, env);
    } else {
      CheckOrdered(cfg, d, req, existing, binding, env);
    }
  }

  lemma {:induction false} RowOrderedPlan(cfg: Config, d: Durable, req: Request, env: Env)
    requires req.tool in cfg.registry && Ready(cfg, d, req.call)
    requires FirstInterrupt(d.log, env.interruptId).None?
    ensures var p := RowPlan(cfg, d, req, env);
            Keeps(Ordered, cfg, d, p.commits) && Settled(d.log, ApplyAll(d, p.commits).log, req.call, p.out)
  {
    var key, c := cfg.KeyOf(req.call), req.call;
    OpenIsNotClosed(d.log, c);
    if !((cfg.dedup || cfg.outbox) && key in d.rows) {
      GateOrderedPlan(cfg, d, req, false, env);
    } else {
      assert RowOrdered(cfg, d, key);
      if d.rows[key].sha != Sha(req.args) {
        CloseKeeps(cfg, d, c, Rejected, "args_sha256_mismatch", "args_sha256_mismatch");
      } else if cfg.registry[req.tool].hasProbe && env.probe.NotApplied? {
        GateOrderedPlan(cfg, d, req, true, env);
      } else if cfg.registry[req.tool].hasProbe && env.probe.Applied? {
        var result := Some(Reconstructed(req.tool, env.probe.detail));
        AnswerThenRowKeeps(cfg, d, c, Executed, result, "", CompleteRow(key, result));
      } else {
        CloseThenRowKeeps(cfg, d, c, Unknown, "unknown_effect", "unknown_effect", MarkUnknown(key));
      }
    }
  }

  /** Where the pipeline's own bookkeeping starts: the call is in the log. */
  function WithCall(d: Durable, req: Request): Durable {
    if req.call in Reduce(d.log).open then d else Apply(d, Append(CallEvent(req)))
  }

  /** Any call of a registered tool may be driven. A call of a tool that is not registered
      is noted without asking whether it already was, so it must not stand open. */
  predicate Drivable(cfg: Config, log: Log, req: Request) {
    req.tool in cfg.registry || req.call !in Reduce(log).open
  }

  /** MAIN (one call): no kill leaves a violation behind; a call that runs to its
      end is answered, exactly once, or stands open at the gate. */
  lemma {:induction false} ExecuteOrdered(cfg: Config, d: Durable, req: Request, env: Env)
    requires Inv(Ordered, cfg, d) && !Reduce(d.log).terminal
    requires Drivable(cfg, d.log, req) && FirstInterrupt(d.log, env.interruptId).None?
    ensures var p := ExecutePlan(cfg, d, req, env);
            && Keeps(Ordered, cfg, d, p.commits)
            && (req.call !in Reduce(d.log).closed ==>
                  Settled(WithCall(d, req).log, ApplyAll(d, p.commits).log, req.call, p.out))
            && (req.call in Reduce(d.log).closed ==> p.commits == [])
  {
    if req.call !in Reduce(d.log).closed {
      var noted := if req.call in Reduce(d.log).open then [] else [Append(CallEvent(req))];
      CallIsNoted(cfg, d, req, noted);
      FirstInterruptAppend(d.log, CallEvent(req), env.interruptId);
      var d' := WithCall(d, req);
      if req.tool in cfg.registry {
        RowOrderedPlan(cfg, d', req, env);
        KeepsBehind(cfg, d, noted, d', RowPlan(cfg, d', req, env).commits);
      } else {
        CloseKeeps(cfg, d', req.call, Failed, "unknown_tool", "unknown_tool");
        KeepsBehind(cfg, d, noted, d', Close(req.call, Failed, "unknown_tool", "unknown_tool").commits);
      }
    }
  }

  lemma {:induction false} CallIsNoted(cfg: Config, d: Durable, req: Request, noted: seq<Commit>)
    requires Inv(Ordered, cfg, d) && !Reduce(d.log).terminal && req.call !in Reduce(d.log).closed
    requires noted == if req.call in Reduce(d.log).open then [] else [Append(CallEvent(req))]
    ensures Keeps(Ordered, cfg, d, noted) && ApplyAll(d, noted) == WithCall(d, req)
    ensures Ready(cfg, WithCall(d, req), req.call)
  {
    if noted != [] {
      ReduceAppend(d.log, CallEvent(req));
      CommitOrdered(cfg, d, noted[0]);
      KeepsOne(Ordered, cfg, d, noted[0]);
    }
  }

  lemma {:induction false} KeepsBehind(cfg: Config, d: Durable, a: seq<Commit>, d': Durable, b: seq<Commit>)
    requires Keeps(Ordered, cfg, d, a) && ApplyAll(d, a) == d' && Keeps(Ordered, cfg, d', b)
    ensures Keeps(Ordered, cfg, d, a + b) && ApplyAll(d, a + b) == ApplyAll(d', b)
  {
    KeepsConcat(Ordered, cfg, d, a, b);
    ApplyAllConcat(d, a, b);
  }

  /** The branches that would answer a call from an already closed row are never
      taken: such a row's call is closed in the log, and the log answers first. */
  lemma {:induction false} ClosedRowsAreAnsweredByTheLog(cfg: Config, d: Durable, req: Request, env: Env)
    requires Inv(Ordered, cfg, d)
    requires cfg.KeyOf(req.call) in d.rows && d.rows[cfg.KeyOf(req.call)].status != RowPending
    ensures ExecutePlan(cfg, d, req, env) == Exec([], ReplayOutcome(d.log, req.call))
    ensures FirstResult(d.log, req.call).Some?
  {
    assert RowOrdered(cfg, d, cfg.KeyOf(req.call));
    ClosedHasResult(d.log, req.call);
  }

  lemma {:induction false} ClosedHasResult(log: Log, c: CallId)
    requires c in Reduce(log).closed
    ensures FirstResult(log, c).Some?
  {
    var init := log[..|log| - 1];
    if c in Reduce(init).closed {
      ClosedHasResult(init, c);
    }
  }
}
