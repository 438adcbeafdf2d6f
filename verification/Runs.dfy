/** Whole runs of one branch, and the recovery pass over its open calls. */
module Runs {
  import opened Events
  import opened Tools
  import opened Approvals
  import opened Reducer
  import opened ReducerSpec
  import opened Pipeline
  import opened Invariants
  import opened Ordering
  import opened Deciding

  /** What the loop itself, rather than the pipeline, writes into the log. */
  predicate IsLoopEvent(e: Body) {
    || e.UserMessage? || e.AgentMessage? || e.Error? || e.Compaction?
    || e.BudgetUpdate? || e.Lease? || e.StateUpdate?
  }

  /** What a caller of the runtime must respect for the log to stay in order:
      the run has not ended, an open call's tool is registered, interrupt ids are
      new, decisions are safe, and a final message is sent with nothing open. */
  ghost predicate OrderAllowed(cfg: Config, d: Durable, a: Action) {
    var s := Reduce(d.log);
    match a
    case Execute(req, env, _) =>
      !s.terminal && Drivable(cfg, d.log, req) && FirstInterrupt(d.log, env.interruptId).None?
    case Decide(dec, _) => DecidePlan(d, dec).Accepted? ==> !s.terminal && DecideSafe(d, dec)
    case Note(e) =>
      IsLoopEvent(e) && (IsTree(e) ==> !s.terminal) && (IsFinal(e) ==> s.open == map[])
  }

  lemma {:induction false} NoteOrdered(cfg: Config, d: Durable, e: Body)
    requires Inv(Ordered, cfg, d) && OrderAllowed(cfg, d, Note(e))
    ensures Inv(Ordered, cfg, Apply(d, Append(e)))
  {
    ReduceAppend(d.log, e);
    CommitOrdered(cfg, d, Append(e));
  }

  lemma {:induction false} ActKeepsOrdered(cfg: Config, d: Durable, a: Action)
    requires Inv(Ordered, cfg, d) && OrderAllowed(cfg, d, a)
    ensures Inv(Ordered, cfg, Act(cfg, d, a))
  {
    match a
    case Execute(req, env, cut) =>
      ExecuteOrdered(cfg, d, req, env);
      KeepsAtEveryCut(Ordered, cfg, d, CommitsOf(cfg, d, a), cut);
    case Decide(dec, cut) =>
      if DecidePlan(d, dec).Accepted? {
        SafeDecisionKeeps(cfg, d, dec);
      }
      KeepsAtEveryCut(Ordered, cfg, d, CommitsOf(cfg, d, a), cut);
    case Note(e) =>
      NoteOrdered(cfg, d, e);
      ApplyOne(d, Append(e));
  }

  ghost predicate OrderedRun(cfg: Config, d: Durable, actions: seq<Action>)
    decreases |actions|
  {
    actions != [] ==>
      OrderAllowed(cfg, d, actions[0]) && OrderedRun(cfg, Act(cfg, d, actions[0]), actions[1..])
  }

  lemma {:induction false} RunKeepsOrdered(cfg: Config, d: Durable, actions: seq<Action>)
    requires Inv(Ordered, cfg, d) && OrderedRun(cfg, d, actions)
    ensures Inv(Ordered, cfg, Run(cfg, d, actions))
    decreases |actions|
  {
    if actions != [] {
      ActKeepsOrdered(cfg, d, actions[0]);
      RunKeepsOrdered(cfg, Act(cfg, d, actions[0]), actions[1..]);
    }
  }

  /** MAIN: with or without outbox and deduplication, whatever tools, probes and
      hooks do, and wherever each call and decision is killed, the log is well
      formed and no outbox row is ahead of it. */
  lemma {:induction false} EveryRunIsWellFormed(cfg: Config, actions: seq<Action>)
    requires OrderedRun(cfg, EMPTY, actions)
    ensures var d := Run(cfg, EMPTY, actions);
            && WellFormed(d.log)
            && (forall key :: key in d.rows ==>
                  if d.rows[key].status == RowPending then Called(d.log, key.call)
                  else Answered(d.log, key.call))
  {
    assert Reduce([]).open == map[];
    assert Inv(Ordered, cfg, EMPTY);
    RunKeepsOrdered(cfg, EMPTY, actions);
    var d := Run(cfg, EMPTY, actions);
    ReportsExactlyTheIllFormed(d.log);
    CleanMeans(d.log);
    forall key | key in d.rows
      ensures if d.rows[key].status == RowPending then Called(d.log, key.call)
              else Answered(d.log, key.call)
    {
      assert RowOrdered(cfg, d, key);
    }
  }

  // --------------------------------------------------------------- a new id

  function Longest(log: Log): nat {
    if log == [] then 0
    else
      var before, e := Longest(log[..|log| - 1]), log[|log| - 1];
      if e.Interrupt? && e.iid.Some? && |e.iid.value| > before then |e.iid.value| else before
  }

  /** An interrupt id no event carries. */
  function NewId(log: Log): (id: string)
    ensures |id| == Longest(log) + 1
  {
    seq(Longest(log) + 1, _ => 'i')
  }

  lemma {:induction false} LongIdsAreNew(log: Log, id: string)
    requires |id| > Longest(log)
    ensures FirstInterrupt(log, id).None?
  {
    if log != [] {
      LongIdsAreNew(log[..|log| - 1], id);
    }
  }

  // ---------------------------------------------------------- the recovery pass

  /** Call ids in the order the log first names them. */
  function CallsInOrder(log: Log): seq<CallId> {
    if log == [] then []
    else
      var before := CallsInOrder(log[..|log| - 1]);
      var e := log[|log| - 1];
      if e.ToolCall? && e.call.Some? && e.call.value != "" && e.call.value !in before
      then before + [e.call.value] else before
  }

  function Keep(ids: seq<CallId>, open: map<CallId, nat>): seq<CallId> {
    if ids == [] then []
    else (if ids[0] in open then [ids[0]] else []) + Keep(ids[1..], open)
  }

  /** Open calls as the log orders them. An empty id is passed over by the scan
      of the log and joins at the end. */
  function OpenInOrder(log: Log): seq<CallId> {
    var open := Reduce(log).open;
    Keep(CallsInOrder(log), open) + if "" in open then [""] else []
  }

  predicate Distinct(ids: seq<CallId>) {
    forall i, j :: 0 <= i < j < |ids| ==> ids[i] != ids[j]
  }

  lemma {:induction false} CallsInOrderMeans(log: Log)
    ensures Distinct(CallsInOrder(log)) && "" !in CallsInOrder(log)
    ensures forall c :: FirstCall(log, c).Some? && c != "" <==> c in CallsInOrder(log)
  {
    if log != [] {
      CallsInOrderMeans(log[..|log| - 1]);
    }
  }

  lemma {:induction false} KeepMeans(ids: seq<CallId>, open: map<CallId, nat>)
    requires Distinct(ids)
    ensures Distinct(Keep(ids, open))
    ensures forall c :: c in Keep(ids, open) <==> c in ids && c in open
  {
    if ids != [] {
      KeepMeans(ids[1..], open);
    }
  }

  /** The recovery pass visits every open call once, and nothing else. */
  lemma {:induction false} OpenInOrderIsOpen(log: Log)
    ensures Distinct(OpenInOrder(log))
    ensures forall c :: c in OpenInOrder(log) <==> c in Reduce(log).open
  {
    CallsInOrderMeans(log);
    KeepMeans(CallsInOrder(log), Reduce(log).open);
    forall c | c in Reduce(log).open ensures c in OpenInOrder(log) {
      OpenWasCalled(log, c);
    }
  }

  lemma {:induction false} OpenWasCalled(log: Log, c: CallId)
    requires c in Reduce(log).open
    ensures FirstCall(log, c).Some?
  {
    var init := log[..|log| - 1];
    if c in Reduce(init).open {
      OpenWasCalled(init, c);
    }
  }

  /** How a recovery pass came to its end: it drove every call, stopped at a call that
      waits for a human, or raised because the waiting interrupt is nowhere in the log. */
  datatype PassEnd = WentThrough | AtGate | NoGate

  function PassEndOf(out: Outcome): PassEnd {
    if out.Interrupted? then AtGate else if out.GateLost? then NoGate else WentThrough
  }

  /** Commits of a recovery pass over `ids`, the calls it answered, and how it ended. */
  datatype Recovery = Recovery(commits: seq<Commit>, answered: nat, ending: PassEnd)

  function ResumePlan(cfg: Config, d: Durable, ids: seq<CallId>, envs: seq<Env>): Recovery
    requires |envs| == |ids|
    decreases |ids|
  {
    if ids == [] then Recovery([], 0, WentThrough)
    else if FirstCall(d.log, ids[0]).None? then ResumePlan(cfg, d, ids[1..], envs[1..])
    else
      var p := ExecutePlan(cfg, d, FirstCall(d.log, ids[0]).value, envs[0]);
      if !p.out.Done? then Recovery(p.commits, 0, PassEndOf(p.out))
      else
        var rest := ResumePlan(cfg, ApplyAll(d, p.commits), ids[1..], envs[1..]);
        Recovery(p.commits + rest.commits, 1 + rest.answered, rest.ending)
  }

  ghost predicate ResumeReady(cfg: Config, d: Durable, ids: seq<CallId>, envs: seq<Env>)
  {
    && |envs| == |ids|
    && Inv(Ordered, cfg, d) && !Reduce(d.log).terminal
    && Distinct(ids)
    && (forall k :: 0 <= k < |ids| ==>
          && ids[k] in Reduce(d.log).open
          && FirstCall(d.log, ids[k]).Some?
          && FirstCall(d.log, ids[k]).value.call == ids[k]
          && FirstCall(d.log, ids[k]).value.tool in cfg.registry
          && FirstInterrupt(d.log, envs[k].interruptId).None?)
  }

  lemma {:induction false} NoInterruptCommitted(d: Durable, cs: seq<Commit>, iid: string)
    requires FirstInterrupt(d.log, iid).None?
    requires NoInterruptIn(cs)
    ensures FirstInterrupt(ApplyAll(d, cs).log, iid).None?
    decreases |cs|
  {
    if cs != [] {
      if cs[0].Append? {
        FirstInterruptAppend(d.log, cs[0].event, iid);
      }
      NoInterruptCommitted(Apply(d, cs[0]), cs[1..], iid);
    }
  }

  predicate NoInterruptIn(cs: seq<Commit>) {
    forall i :: 0 <= i < |cs| && cs[i].Append? ==> !cs[i].event.Interrupt?
  }

  lemma {:induction false} EffectWritesNoInterrupt(cfg: Config, req: Request, existing: bool, args: Args, env: Env)
    requires req.tool in cfg.registry
    ensures NoInterruptIn(EffectPlan(cfg, req, existing, args, env).commits)
  {
    assert NoInterruptIn(IntentCommits(cfg, req, existing, args));
    assert NoInterruptIn(EffectCommits(cfg, req, args, env));
    assert NoInterruptIn(RecordPlan(cfg, req, args, env).commits);
  }

  lemma {:induction false} GateWritesNoInterrupt(cfg: Config, d: Durable, req: Request, existing: bool, env: Env)
    requires req.tool in cfg.registry
    ensures var p := GatePlan(cfg, d, req, existing, env); p.out.Done? ==> NoInterruptIn(p.commits)
  {
    EffectWritesNoInterrupt(cfg, req, existing, ActualArgs(req, env), env);
  }

  lemma {:induction false} RowWritesNoInterrupt(cfg: Config, d: Durable, req: Request, env: Env)
    requires req.tool in cfg.registry
    ensures var p := RowPlan(cfg, d, req, env); p.out.Done? ==> NoInterruptIn(p.commits)
  {
    GateWritesNoInterrupt(cfg, d, req, false, env);
    GateWritesNoInterrupt(cfg, d, req, true, env);
  }

  lemma {:induction false} DoneWritesNoInterrupt(cfg: Config, d: Durable, req: Request, env: Env)
    ensures var p := ExecutePlan(cfg, d, req, env); p.out.Done? ==> NoInterruptIn(p.commits)
  {
    if req.tool in cfg.registry {
      var noted := if req.call in Reduce(d.log).open then [] else [Append(CallEvent(req))];
      RowWritesNoInterrupt(cfg, ApplyAll(d, noted), req, env);
    }
  }

  /** One call of the pass, run to its end: the rest of the pass is still ready. */
  lemma {:induction false} StepStaysReady(cfg: Config, d: Durable, ids: seq<CallId>, envs: seq<Env>)
    requires ids != [] && ResumeReady(cfg, d, ids, envs)
    requires ExecutePlan(cfg, d, FirstCall(d.log, ids[0]).value, envs[0]).out.Done?
    ensures var d' := ApplyAll(d, ExecutePlan(cfg, d, FirstCall(d.log, ids[0]).value, envs[0]).commits);
            ResumeReady(cfg, d', ids[1..], envs[1..]) && Answers(d.log, d'.log, ids[0])
  {
    var req := FirstCall(d.log, ids[0]).value;
    var p := ExecutePlan(cfg, d, req, envs[0]);
    OpenIsNotClosed(d.log, ids[0]);
    ExecuteOrdered(cfg, d, req, envs[0]);
    KeepsAtEveryCut(Ordered, cfg, d, p.commits, |p.commits|);
    DoneWritesNoInterrupt(cfg, d, req, envs[0]);
    var d' := ApplyAll(d, p.commits);
    assert WithCall(d, req) == d;
    forall k | 0 <= k < |ids[1..]|
      ensures var c := ids[1..][k];
              && c in Reduce(d'.log).open
              && FirstCall(d'.log, c) == FirstCall(d.log, c)
              && FirstInterrupt(d'.log, envs[1..][k].interruptId).None?
    {
      StillLogged(d, p.commits, ids[k + 1]);
      NoInterruptCommitted(d, p.commits, envs[k + 1].interruptId);
    }
  }

  function Besides(open: map<CallId, nat>, ids: seq<CallId>): map<CallId, nat> {
    map c | c in open && c !in ids :: open[c]
  }

  /** What a recovery pass that is not killed has done to the calls. */
  ghost predicate Recovered(before: Log, after: Log, ids: seq<CallId>, r: Recovery) {
    var s, t := Reduce(before), Reduce(after);
    && r.answered <= |ids|
    && t.closed == s.closed + ids[..r.answered]
    && t.open == Besides(s.open, ids[..r.answered])
    && !t.terminal
    && r.ending != NoGate
    && (if r.ending == AtGate then r.answered < |ids| && t.pending.Some?
        else r.answered == |ids| && t.pending == s.pending)
  }

  lemma {:induction false} RecoveredStep(before: Log, mid: Log, after: Log, ids: seq<CallId>, r: Recovery, cs: seq<Commit>)
    requires ids != [] && Answers(before, mid, ids[0]) && Recovered(mid, after, ids[1..], r)
    ensures Recovered(before, after, ids, Recovery(cs + r.commits, 1 + r.answered, r.ending))
  {
    assert ids[..1 + r.answered] == [ids[0]] + ids[1..][..r.answered];
    assert Besides(Reduce(mid).open, ids[1..][..r.answered])
        == Besides(Reduce(before).open, ids[..1 + r.answered]);
  }

  /** MAIN: a recovery pass that is not killed answers a prefix of its calls, in
      their order and once each, and leaves the others as they were; it stops
      short only at the gate. Killed anywhere, it leaves no violation. */
  lemma {:induction false} ResumeAnswersAPrefix(cfg: Config, d: Durable, ids: seq<CallId>, envs: seq<Env>)
    requires ResumeReady(cfg, d, ids, envs)
    ensures var r := ResumePlan(cfg, d, ids, envs);
            Keeps(Ordered, cfg, d, r.commits) && Recovered(d.log, ApplyAll(d, r.commits).log, ids, r)
    decreases |ids|
  {
    var open := Reduce(d.log).open;
    if ids == [] {
      assert Besides(open, []) == open;
    } else {
      var req := FirstCall(d.log, ids[0]).value;
      var p := ExecutePlan(cfg, d, req, envs[0]);
      OpenIsNotClosed(d.log, ids[0]);
      ExecuteOrdered(cfg, d, req, envs[0]);
      if !p.out.Done? {
        assert Besides(open, ids[..0]) == open;
      } else {
        StepStaysReady(cfg, d, ids, envs);
        var d' := ApplyAll(d, p.commits);
        ResumeAnswersAPrefix(cfg, d', ids[1..], envs[1..]);
        var rest := ResumePlan(cfg, d', ids[1..], envs[1..]);
        KeepsConcat(Ordered, cfg, d, p.commits, rest.commits);
        ApplyAllConcat(d, p.commits, rest.commits);
        RecoveredStep(d.log, d'.log, ApplyAll(d', rest.commits).log, ids, rest, p.commits);
      }
    }
  }

  /** Every open call's tool is registered. */
  ghost predicate Registered(cfg: Config, log: Log) {
    forall c :: c in Reduce(log).open && FirstCall(log, c).Some? ==> FirstCall(log, c).value.tool in cfg.registry
  }

  lemma {:induction false} RecoveryIsReady(cfg: Config, d: Durable, envs: seq<Env>)
    requires Inv(Ordered, cfg, d) && !Reduce(d.log).terminal && Registered(cfg, d.log)
    requires |envs| == |OpenInOrder(d.log)|
    requires forall k :: 0 <= k < |envs| ==> FirstInterrupt(d.log, envs[k].interruptId).None?
    ensures ResumeReady(cfg, d, OpenInOrder(d.log), envs)
  {
    var ids := OpenInOrder(d.log);
    OpenInOrderIsOpen(d.log);
    forall k | 0 <= k < |ids|
      ensures ids[k] in Reduce(d.log).open && FirstCall(d.log, ids[k]).Some? && FirstCall(d.log, ids[k]).value.call == ids[k]
    {
      assert ids[k] in ids;
      OpenWasCalled(d.log, ids[k]);
      FirstCallMeans(d.log, ids[k]);
    }
  }

  lemma {:induction false} RestIsOpen(open: map<CallId, nat>, ids: seq<CallId>, n: nat)
    requires n <= |ids| && Distinct(ids) && forall c :: c in ids <==> c in open
    ensures forall c :: c in Besides(open, ids[..n]) <==> c in ids[n..]
  {
    assert ids == ids[..n] + ids[n..];
    forall c | c in ids[..n] ensures c !in ids[n..] {
      var i :| 0 <= i < n && ids[..n][i] == c;
      forall j | 0 <= j < |ids| - n ensures ids[n..][j] != c {
        assert ids[n..][j] == ids[n + j] && ids[i] == c;
      }
    }
  }

  /** MAIN: with every open call's tool registered, an unkilled recovery closes
      everything or stops at the gate having closed exactly the calls before it. */
  lemma {:induction false} RecoveryClosesOrStopsAtTheGate(cfg: Config, d: Durable, envs: seq<Env>)
    requires Inv(Ordered, cfg, d) && !Reduce(d.log).terminal && Registered(cfg, d.log)
    requires |envs| == |OpenInOrder(d.log)|
    requires forall k :: 0 <= k < |envs| ==> FirstInterrupt(d.log, envs[k].interruptId).None?
    ensures var ids := OpenInOrder(d.log);
            var r := ResumePlan(cfg, d, ids, envs);
            var s, t := Reduce(d.log), Reduce(ApplyAll(d, r.commits).log);
            && Keeps(Ordered, cfg, d, r.commits)
            && r.answered <= |ids|
            && t.closed == s.closed + ids[..r.answered]
            && r.ending != NoGate
            && (r.ending == WentThrough ==> t.open == map[])
            && (r.ending == AtGate ==>
                  && r.answered < |ids|
                  && t.pending.Some?
                  && forall c :: c in t.open <==> c in ids[r.answered..])
  {
    var ids := OpenInOrder(d.log);
    OpenInOrderIsOpen(d.log);
    RecoveryIsReady(cfg, d, envs);
    ResumeAnswersAPrefix(cfg, d, ids, envs);
    RestIsOpen(Reduce(d.log).open, ids, ResumePlan(cfg, d, ids, envs).answered);
  }

  // ------------------------------------------------------ where an edit queues up

  lemma {:induction false} KeepAppend(ids: seq<CallId>, x: CallId, open: map<CallId, nat>)
    ensures Keep(ids + [x], open) == Keep(ids, open) + if x in open then [x] else []
  {
    if ids == [] {
      assert [] + [x] == [x] && [x][1..] == [];
    } else {
      assert (ids + [x])[1..] == ids[1..] + [x];
      KeepAppend(ids[1..], x, open);
    }
  }

  lemma {:induction false} CallsInOrderAppend(log: Log, e: Body)
    ensures CallsInOrder(log + [e]) ==
            CallsInOrder(log) + if e.ToolCall? && e.call.Some? && e.call.value != ""
                                   && e.call.value !in CallsInOrder(log) then [e.call.value] else []
  {
    assert (log + [e])[..|log|] == log;
  }

  lemma {:induction false} EditWrites(d: Durable, dec: Decision)
    requires DecidePlan(d, dec).Accepted? && dec.verdict != Reject && IsEdited(PendingInterrupt(d.log).value, dec)
    ensures var asked := PendingInterrupt(d.log).value;
            var b := DecidedBinding(asked, dec);
            ApplyAll(d, DecideCommits(d, dec)).log ==
            d.log + [ResultEvent(asked.gated, Superseded, None, "superseded_by_edit")]
                  + [CallEvent(Request(EditId(asked.gated), asked.tool, dec.approvedArgs.value))]
                  + [Approval(b)] + [Resume(asked.iid, asked.index, dec.verdict, b.call)]
  {
    var asked := PendingInterrupt(d.log).value;
    var closing := ClosingCommits(asked, dec);
    var rest := DecideCommits(d, dec)[2..];
    assert DecideCommits(d, dec) == closing + rest;
    ApplyAllConcat(d, closing, rest);
    AppendBoth(d, closing[0].event, closing[1].event);
    AppendBoth(ApplyAll(d, closing), rest[0].event, rest[1].event);
  }

  /** MAIN: an edit writes its new call at the end of the log, so a recovery pass comes to
      it last, behind every call that was queued at the gate (but for the empty id, which
      the scan of the log puts at the end). Approved or not, it waits until those are
      decided. */
  lemma {:induction false} EditedCallWaitsBehindTheQueue(cfg: Config, d: Durable, dec: Decision)
    requires Inv(Ordered, cfg, d) && !Reduce(d.log).terminal && DecideSafe(d, dec)
    requires DecidePlan(d, dec).Accepted? && dec.verdict != Reject && IsEdited(PendingInterrupt(d.log).value, dec)
    ensures var x := EditId(PendingInterrupt(d.log).value.gated);
            var after := ApplyAll(d, DecideCommits(d, dec)).log;
            var ahead := Keep(CallsInOrder(d.log), Reduce(after).open);
            && OpenInOrder(after) == ahead + [x] + (if "" in Reduce(after).open then [""] else [])
            && forall c :: c in Reduce(after).open && c != "" && c != x ==> c in ahead
  {
    var asked := PendingInterrupt(d.log).value;
    var x, b := EditId(asked.gated), DecidedBinding(asked, dec);
    var after := ApplyAll(d, DecideCommits(d, dec)).log;
    var superseded := ResultEvent(asked.gated, Superseded, None, "superseded_by_edit");
    var call := CallEvent(Request(x, asked.tool, dec.approvedArgs.value));
    var resume := Resume(asked.iid, asked.index, dec.verdict, b.call);
    EditWrites(d, dec);
    EditedIsNew(cfg, d, x);
    assert |x| > |asked.gated|;
    CallsInOrderAppend(d.log, superseded);
    CallsInOrderAppend(d.log + [superseded], call);
    CallsInOrderAppend(d.log + [superseded] + [call], Approval(b));
    CallsInOrderAppend(d.log + [superseded] + [call] + [Approval(b)], resume);
    assert CallsInOrder(after) == CallsInOrder(d.log) + [x];
    EditedIsOpen(cfg, d, dec);
    KeepAppend(CallsInOrder(d.log), x, Reduce(after).open);
    OpenInOrderIsOpen(after);
    forall c | c in Reduce(after).open && c != "" && c != x
      ensures c in Keep(CallsInOrder(d.log), Reduce(after).open)
    {
      assert c in OpenInOrder(after);
    }
  }

  lemma {:induction false} EditedIsNew(cfg: Config, d: Durable, x: CallId)
    requires Inv(Ordered, cfg, d) && x !in Reduce(d.log).open && x !in Reduce(d.log).closed
    ensures x !in CallsInOrder(d.log)
  {
    CleanMeans(d.log);
    FirstCallMeans(d.log, x);
    CallsInOrderMeans(d.log);
  }

  lemma {:induction false} EditedIsOpen(cfg: Config, d: Durable, dec: Decision)
    requires Inv(Ordered, cfg, d) && !Reduce(d.log).terminal && DecideSafe(d, dec)
    requires DecidePlan(d, dec).Accepted? && dec.verdict != Reject && IsEdited(PendingInterrupt(d.log).value, dec)
    ensures EditId(PendingInterrupt(d.log).value.gated) in Reduce(ApplyAll(d, DecideCommits(d, dec)).log).open
  {
    var asked := PendingInterrupt(d.log).value;
    var x, b := EditId(asked.gated), DecidedBinding(asked, dec);
    var superseded := ResultEvent(asked.gated, Superseded, None, "superseded_by_edit");
    var call := CallEvent(Request(x, asked.tool, dec.approvedArgs.value));
    EditWrites(d, dec);
    assert |x| > |asked.gated|;
    PendingIsReady(cfg, d);
    ReduceAppend(d.log, superseded);
    ReduceAppend(d.log + [superseded], call);
    ReduceAppend(d.log + [superseded] + [call], Approval(b));
    ReduceAppend(d.log + [superseded] + [call] + [Approval(b)], Resume(asked.iid, asked.index, dec.verdict, b.call));
  }
}
