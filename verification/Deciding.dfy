/** Human decisions: exactly when they keep the log in order, and what a kill in
    the middle of one leaves behind. */
module Deciding {
  import opened Events
  import opened Tools
  import opened Approvals
  import opened Reducer
  import opened ReducerSpec
  import opened Pipeline
  import opened Invariants
  import opened Ordering

  /** What a caller can check before deciding: a rejection or an edit needs the
      interrupted call still unanswered, and an edit an id nobody has used. */
  ghost predicate DecideSafe(d: Durable, dec: Decision) {
    var s := Reduce(d.log);
    var asked := PendingInterrupt(d.log);
    asked.Some? ==>
      && (dec.verdict == Reject || IsEdited(asked.value, dec) ==> asked.value.gated !in s.closed)
      && (dec.verdict != Reject && IsEdited(asked.value, dec) ==>
            EditId(asked.value.gated) !in s.open && EditId(asked.value.gated) !in s.closed)
  }

  lemma {:induction false} ViolationsStay(log: Log, more: Log)
    ensures |Reduce(log + more).violations| >= |Reduce(log).violations|
  {
    if more == [] {
      assert log + more == log;
    } else {
      var init := more[..|more| - 1];
      assert log + more == (log + init) + [more[|more| - 1]];
      ReduceAppend(log + init, more[|more| - 1]);
      ViolationsStay(log, init);
    }
  }

  /** Approval and resume, in an order that no kill can spoil. */
  lemma {:induction false} ApprovalKeeps(cfg: Config, d: Durable, binding: Binding, asked: Body, verdict: Verdict, target: CallId)
    requires Inv(Ordered, cfg, d) && !Reduce(d.log).terminal
    requires asked.Interrupt? && Reduce(d.log).pending.Some?
    requires asked.index == Reduce(d.log).pendingIndex
    ensures var cs := [Append(Approval(binding)), Append(Resume(asked.iid, asked.index, verdict, target))];
            && Keeps(Ordered, cfg, d, cs)
            && Reduce(ApplyAll(d, cs).log).pending.None?
            && Reduce(ApplyAll(d, cs).log).open == Reduce(d.log).open
            && Reduce(ApplyAll(d, cs).log).closed == Reduce(d.log).closed
            && !Reduce(ApplyAll(d, cs).log).terminal
  {
    var first := Append(Approval(binding));
    var second := Append(Resume(asked.iid, asked.index, verdict, target));
    ReduceAppend(d.log, first.event);
    CommitOrdered(cfg, d, first);
    var d1 := Apply(d, first);
    ReduceAppend(d1.log, second.event);
    CommitOrdered(cfg, d1, second);
    KeepsTwo(Ordered, cfg, d, first, second);
  }

  lemma {:induction false} PendingIsReady(cfg: Config, d: Durable)
    requires Inv(Ordered, cfg, d) && !Reduce(d.log).terminal && PendingInterrupt(d.log).Some?
    ensures var c := PendingInterrupt(d.log).value.gated;
            c in Reduce(d.log).closed || Ready(cfg, d, c)
  {}

  lemma {:induction false} EditKeeps(cfg: Config, d: Durable, asked: Body, edited: CallId, args: Args)
    requires asked.Interrupt? && Ready(cfg, d, asked.gated) && edited != asked.gated
    requires edited !in Reduce(d.log).open && edited !in Reduce(d.log).closed
    ensures var first := Append(ResultEvent(asked.gated, Superseded, None, "superseded_by_edit"));
            var second := Append(CallEvent(Request(edited, asked.tool, args)));
            && Keeps(Ordered, cfg, d, [first, second])
            && var t := Reduce(ApplyAll(d, [first, second]).log);
            && t.pending == Reduce(d.log).pending
            && t.pendingIndex == Reduce(d.log).pendingIndex
            && !t.terminal
  {
    var first := Append(ResultEvent(asked.gated, Superseded, None, "superseded_by_edit"));
    var second := Append(CallEvent(Request(edited, asked.tool, args)));
    AnswerKeeps(cfg, d, asked.gated, Superseded, None, "superseded_by_edit");
    var d1 := Apply(d, first);
    ReduceAppend(d1.log, second.event);
    CommitOrdered(cfg, d1, second);
    KeepsTwo(Ordered, cfg, d, first, second);
  }

  lemma {:induction false} ClosingKeeps(cfg: Config, d: Durable, asked: Body, dec: Decision)
    requires Inv(Ordered, cfg, d) && !Reduce(d.log).terminal
    requires PendingInterrupt(d.log) == Some(asked) && DecideSafe(d, dec)
    ensures var cs := ClosingCommits(asked, dec);
            && Keeps(Ordered, cfg, d, cs)
            && var t := Reduce(ApplyAll(d, cs).log);
            && t.pending == Reduce(d.log).pending
            && t.pendingIndex == Reduce(d.log).pendingIndex
            && !t.terminal
  {
    PendingIsReady(cfg, d);
    if dec.verdict == Reject {
      AnswerKeeps(cfg, d, asked.gated, Rejected, None, "approval_rejected");
      KeepsOne(Ordered, cfg, d, ClosingCommits(asked, dec)[0]);
    } else if IsEdited(asked, dec) {
      assert |EditId(asked.gated)| > |asked.gated|;
      EditKeeps(cfg, d, asked, EditId(asked.gated), dec.approvedArgs.value);
    }
  }

  /** A safe decision keeps every invariant at every cut and opens the gate. */
  lemma {:induction false} SafeDecisionKeeps(cfg: Config, d: Durable, dec: Decision)
    requires Inv(Ordered, cfg, d) && !Reduce(d.log).terminal
    requires DecidePlan(d, dec).Accepted? && DecideSafe(d, dec)
    ensures Keeps(Ordered, cfg, d, DecideCommits(d, dec))
    ensures Reduce(ApplyAll(d, DecideCommits(d, dec)).log).pending.None?
  {
    var asked := PendingInterrupt(d.log).value;
    var binding := DecidedBinding(asked, dec);
    var closing := ClosingCommits(asked, dec);
    var rest := [Append(Approval(binding)), Append(Resume(asked.iid, asked.index, dec.verdict, binding.call))];
    ClosingKeeps(cfg, d, asked, dec);
    KeepsAtEveryCut(Ordered, cfg, d, closing, |closing|);
    ApprovalKeeps(cfg, ApplyAll(d, closing), binding, asked, dec.verdict, binding.call);
    KeepsConcat(Ordered, cfg, d, closing, rest);
    ApplyAllConcat(d, closing, rest);
  }

  lemma {:induction false} CommitsOnlyAppend(d: Durable, cs: seq<Commit>)
    ensures |ApplyAll(d, cs).log| >= |d.log| && ApplyAll(d, cs).log[..|d.log|] == d.log
    decreases |cs|
  {
    if cs != [] {
      CommitsOnlyAppend(Apply(d, cs[0]), cs[1..]);
    }
  }

  lemma {:induction false} FlaggedStays(d: Durable, cs: seq<Commit>)
    requires Reduce(d.log).violations != []
    ensures Reduce(ApplyAll(d, cs).log).violations != []
  {
    CommitsOnlyAppend(d, cs);
    var end := ApplyAll(d, cs).log;
    assert end == d.log + end[|d.log|..];
    ViolationsStay(d.log, end[|d.log|..]);
  }

  lemma {:induction false} SecondAnswerIsFlagged(d: Durable, c: CallId, status: ResultStatus, error: string)
    requires c in Reduce(d.log).closed && !Reduce(d.log).terminal
    ensures Reduce(Apply(d, Append(ResultEvent(c, status, None, error))).log).violations != []
  {
    ReduceAppend(d.log, ResultEvent(c, status, None, error));
  }

  lemma {:induction false} SecondCallIsFlagged(d: Durable, req: Request)
    requires req.call in Reduce(d.log).open || req.call in Reduce(d.log).closed
    requires !Reduce(d.log).terminal
    ensures Reduce(Apply(d, Append(CallEvent(req))).log).violations != []
  {
    ReduceAppend(d.log, CallEvent(req));
  }

  lemma {:induction false} UnsafeDecisionIsFlagged(cfg: Config, d: Durable, dec: Decision)
    requires Inv(Ordered, cfg, d) && !Reduce(d.log).terminal
    requires DecidePlan(d, dec).Accepted? && !DecideSafe(d, dec)
    ensures Reduce(ApplyAll(d, DecideCommits(d, dec)).log).violations != []
  {
    var asked := PendingInterrupt(d.log).value;
    var cs := DecideCommits(d, dec);
    assert cs == [cs[0]] + cs[1..];
    ApplyOne(d, cs[0]);
    ApplyAllConcat(d, [cs[0]], cs[1..]);
    var d1 := Apply(d, cs[0]);
    PendingIsReady(cfg, d);
    if asked.gated in Reduce(d.log).closed {
      SecondAnswerIsFlagged(d, asked.gated, cs[0].event.status, cs[0].event.error);
      FlaggedStays(d1, cs[1..]);
    } else {
      AnswerKeeps(cfg, d, asked.gated, Superseded, None, "superseded_by_edit");
      assert |EditId(asked.gated)| > |asked.gated|;
      SecondCallIsFlagged(d1, Request(EditId(asked.gated), asked.tool, dec.approvedArgs.value));
      assert cs[1..] == [cs[1]] + cs[2..];
      ApplyOne(d1, cs[1]);
      ApplyAllConcat(d1, [cs[1]], cs[2..]);
      FlaggedStays(Apply(d1, cs[1]), cs[2..]);
    }
  }

  lemma {:induction false} EndedStays(d: Durable, cs: seq<Commit>)
    requires Reduce(d.log).terminal
    ensures Reduce(ApplyAll(d, cs).log).terminal
  {
    CommitsOnlyAppend(d, cs);
    var end := ApplyAll(d, cs).log;
    assert end == d.log + end[|d.log|..];
    TerminalFreezes(d.log, end[|d.log|..]);
  }

  lemma {:induction false} LateEventIsFlagged(d: Durable, e: Body)
    requires Reduce(d.log).terminal && IsTree(e)
    ensures Reduce(ApplyAll(d, [Append(e)]).log).violations != []
  {
    ApplyOne(d, Append(e));
    ReduceAppend(d.log, e);
  }

  /** In a run that has ended the gate can still be pending, and `decide` asks for no
      more than that; but a resume may not join the tree any more. */
  lemma {:induction false} LateDecisionIsFlagged(d: Durable, dec: Decision)
    requires Reduce(d.log).terminal && DecidePlan(d, dec).Accepted?
    ensures Reduce(ApplyAll(d, DecideCommits(d, dec)).log).violations != []
  {
    var cs := DecideCommits(d, dec);
    var n := |cs| - 1;
    var resume := cs[n].event;
    assert cs == cs[..n] + [Append(resume)];
    EndedStays(d, cs[..n]);
    ApplyAllConcat(d, cs[..n], [Append(resume)]);
    LateEventIsFlagged(ApplyAll(d, cs[..n]), resume);
  }

  /** MAIN: a decision leaves a log without violations exactly when the run has not
      ended and the decision is safe; and then no kill inside it leaves one either. */
  lemma {:induction false} DecisionsAreSafeExactlyWhenOpen(cfg: Config, d: Durable, dec: Decision)
    requires Inv(Ordered, cfg, d) && DecidePlan(d, dec).Accepted?
    ensures Report(ApplyAll(d, DecideCommits(d, dec)).log) == [] <==>
            !Reduce(d.log).terminal && DecideSafe(d, dec)
    ensures !Reduce(d.log).terminal && DecideSafe(d, dec) ==> Keeps(Ordered, cfg, d, DecideCommits(d, dec))
  {
    if Reduce(d.log).terminal {
      LateDecisionIsFlagged(d, dec);
    } else if DecideSafe(d, dec) {
      SafeDecisionKeeps(cfg, d, dec);
      KeepsAtEveryCut(Ordered, cfg, d, DecideCommits(d, dec), |DecideCommits(d, dec)|);
    } else {
      UnsafeDecisionIsFlagged(cfg, d, dec);
    }
  }

  /** An approval written twice and resumed from once is no more than one. */
  lemma {:induction false} ApprovalTwice(d: Durable, binding: Binding, asked: Body, verdict: Verdict, target: CallId)
    requires asked.Interrupt? && Reduce(d.log).violations == [] && !Reduce(d.log).terminal
    requires Reduce(d.log).pending.Some? && asked.index == Reduce(d.log).pendingIndex
    ensures var approval := Append(Approval(binding));
            var cs := [approval, Append(Resume(asked.iid, asked.index, verdict, target))];
            Reduce(ApplyAll(Apply(d, approval), cs).log) == Reduce(ApplyAll(d, cs).log)
  {
    var a, r := Approval(binding), Resume(asked.iid, asked.index, verdict, target);
    AppendBoth(d, a, r);
    AppendBoth(Apply(d, Append(a)), a, r);
    ReduceAppend(d.log, a);
    ReduceAppend(d.log + [a], r);
    ReduceAppend(d.log + [a], a);
    ReduceAppend(d.log + [a] + [a], r);
  }

  lemma {:induction false} AppendBoth(d: Durable, a: Body, b: Body)
    ensures ApplyAll(d, [Append(a), Append(b)]).log == d.log + [a] + [b]
  {
    assert [Append(a), Append(b)][1..] == [Append(b)];
    ApplyOne(Apply(d, Append(a)), Append(b));
  }

  /** MAIN: a plain approval leaves the log clean exactly when the run has not ended;
      and killed before its resume, it can be given again with the same result. */
  lemma {:induction false} PlainApprovalCanBeRepeated(cfg: Config, d: Durable, dec: Decision, n: nat)
    requires Inv(Ordered, cfg, d) && DecidePlan(d, dec).Accepted?
    requires ClosingCommits(PendingInterrupt(d.log).value, dec) == []
    ensures Report(ApplyAll(d, DecideCommits(d, dec)).log) == [] <==> !Reduce(d.log).terminal
    ensures var d' := ApplyAll(d, Cut(DecideCommits(d, dec), n));
            !Reduce(d.log).terminal && n < |DecideCommits(d, dec)| ==>
              && DecidePlan(d', dec) == DecidePlan(d, dec)
              && Keeps(Ordered, cfg, d', DecideCommits(d', dec))
              && Reduce(ApplyAll(d', DecideCommits(d', dec)).log) == Reduce(ApplyAll(d, DecideCommits(d, dec)).log)
  {
    DecisionsAreSafeExactlyWhenOpen(cfg, d, dec);
    if !Reduce(d.log).terminal && n < |DecideCommits(d, dec)| {
      var asked := PendingInterrupt(d.log).value;
      var binding := DecidedBinding(asked, dec);
      var approval := Append(Approval(binding));
      var resume := Append(Resume(asked.iid, asked.index, dec.verdict, binding.call));
      assert DecideCommits(d, dec) == [approval, resume];
      if n == 0 {
        assert Cut([approval, resume], 0) == [];
      } else {
        var d1 := Apply(d, approval);
        assert Cut([approval, resume], n) == [approval];
        ApplyOne(d, approval);
        KeepsAtEveryCut(Ordered, cfg, d, [approval, resume], n);
        ReduceAppend(d.log, approval.event);
        FirstInterruptAppend(d.log, approval.event, Reduce(d.log).pending.value.iid);
        assert DecidePlan(d1, dec) == DecidePlan(d, dec);
        DecisionsAreSafeExactlyWhenOpen(cfg, d1, dec);
        ApprovalTwice(d, binding, asked, dec.verdict, binding.call);
      }
    }
  }

  predicate LeavesTheGate(c: Commit) {
    c.Append? && !c.event.Interrupt? && !c.event.Resume?
  }

  /** The interrupt that waits is the same, and no answered call is unanswered. */
  ghost predicate GateStays(before: Log, after: Log) {
    && Reduce(after).pending == Reduce(before).pending
    && PendingInterrupt(after) == PendingInterrupt(before)
    && forall c :: c in Reduce(before).closed ==> c in Reduce(after).closed
  }

  lemma {:induction false} EventLeavesTheGate(log: Log, e: Body)
    requires !e.Interrupt? && !e.Resume?
    ensures GateStays(log, log + [e])
  {
    var pending := Reduce(log).pending;
    ReduceAppend(log, e);
    if pending.Some? && pending.value.ById? {
      FirstInterruptAppend(log, e, pending.value.iid);
    }
  }

  /** Events that neither ask nor resume leave the gate as it is. */
  lemma {:induction false} CommitsLeaveTheGate(d: Durable, cs: seq<Commit>)
    requires forall i :: 0 <= i < |cs| ==> LeavesTheGate(cs[i])
    ensures GateStays(d.log, ApplyAll(d, cs).log)
    decreases |cs|
  {
    if cs != [] {
      assert LeavesTheGate(cs[0]);
      forall i | 0 <= i < |cs[1..]| ensures LeavesTheGate(cs[1..][i]) {
        assert cs[1..][i] == cs[i + 1];
      }
      EventLeavesTheGate(d.log, cs[0].event);
      CommitsLeaveTheGate(Apply(d, cs[0]), cs[1..]);
    }
  }

  lemma {:induction false} ClosedByTheFirst(d: Durable, dec: Decision)
    requires Clean(d.log) && !Reduce(d.log).terminal && DecidePlan(d, dec).Accepted?
    requires ClosingCommits(PendingInterrupt(d.log).value, dec) != []
    requires PendingInterrupt(d.log).value.gated in Reduce(d.log).open
    ensures PendingInterrupt(d.log).value.gated in Reduce(Apply(d, DecideCommits(d, dec)[0]).log).closed
  {
    OpenIsNotClosed(d.log, PendingInterrupt(d.log).value.gated);
    ReduceAppend(d.log, DecideCommits(d, dec)[0].event);
  }

  /** All but the last commit of a decision leave the gate. */
  lemma {:induction false} OnlyTheLastResumes(d: Durable, dec: Decision, n: nat)
    requires DecidePlan(d, dec).Accepted? && n < |DecideCommits(d, dec)|
    ensures forall i :: 0 <= i < n ==> LeavesTheGate(DecideCommits(d, dec)[i])
  {}

  /** Killed between its first commit and its last, a rejection or an edit has answered the
      call and left the gate as it was. */
  lemma {:induction false} CutClosingStillWaits(d: Durable, dec: Decision, n: nat)
    requires Clean(d.log) && !Reduce(d.log).terminal && DecidePlan(d, dec).Accepted?
    requires ClosingCommits(PendingInterrupt(d.log).value, dec) != []
    requires PendingInterrupt(d.log).value.gated in Reduce(d.log).open
    requires 1 <= n < |DecideCommits(d, dec)|
    ensures var d' := ApplyAll(d, Cut(DecideCommits(d, dec), n));
            && GateStays(d.log, d'.log)
            && PendingInterrupt(d.log).value.gated in Reduce(d'.log).closed
  {
    var cs := DecideCommits(d, dec);
    var d1, rest := Apply(d, cs[0]), cs[1..n];
    ClosedByTheFirst(d, dec);
    OnlyTheLastResumes(d, dec, n);
    assert LeavesTheGate(cs[0]);
    assert Cut(cs, n) == [cs[0]] + rest;
    ApplyAllConcat(d, [cs[0]], rest);
    ApplyOne(d, cs[0]);
    forall i | 0 <= i < |rest| ensures LeavesTheGate(rest[i]) {
      assert rest[i] == cs[i + 1];
    }
    EventLeavesTheGate(d.log, cs[0].event);
    CommitsLeaveTheGate(d1, rest);
  }

  lemma {:induction false} AnsweredIsUnsafe(d: Durable, d': Durable, dec: Decision)
    requires DecidePlan(d, dec).Accepted? && GateStays(d.log, d'.log)
    requires ClosingCommits(PendingInterrupt(d.log).value, dec) != []
    requires PendingInterrupt(d.log).value.gated in Reduce(d'.log).closed
    ensures DecidePlan(d', dec).Accepted? && !DecideSafe(d', dec)
  {}

  /** A rejection or an edit killed anywhere between its first commit and its last is
      still waiting, and repeating it would break the log: only a plain approval gets
      past it. */
  lemma {:induction false} CutClosingMustNotBeRepeated(cfg: Config, d: Durable, dec: Decision, n: nat)
    requires Inv(Ordered, cfg, d) && !Reduce(d.log).terminal
    requires DecidePlan(d, dec).Accepted? && DecideSafe(d, dec)
    requires ClosingCommits(PendingInterrupt(d.log).value, dec) != []
    requires 1 <= n < |DecideCommits(d, dec)|
    ensures var d' := ApplyAll(d, Cut(DecideCommits(d, dec), n));
            && Inv(Ordered, cfg, d') && DecidePlan(d', dec).Accepted?
            && !DecideSafe(d', dec)
            && Report(ApplyAll(d', DecideCommits(d', dec)).log) != []
  {
    var d' := ApplyAll(d, Cut(DecideCommits(d, dec), n));
    SafeDecisionKeeps(cfg, d, dec);
    KeepsAtEveryCut(Ordered, cfg, d, DecideCommits(d, dec), n);
    PendingIsReady(cfg, d);
    CutClosingStillWaits(d, dec, n);
    AnsweredIsUnsafe(d, d', dec);
    DecisionsAreSafeExactlyWhenOpen(cfg, d', dec);
  }
}
