/** The fold against a quantified description of a well-formed log. */
module ReducerSpec {
  import opened Events
  import opened Reducer

  ghost predicate Clean(log: Log) {
    Reduce(log).violations == []
  }

  lemma {:induction false} CalledAppend(log: Log, b: Body, c: CallId)
    ensures Called(log + [b], c) <==> Called(log, c) || IsCallOf(b, c)
    ensures Answered(log + [b], c) <==> Answered(log, c) || IsResultOf(b, c)
  {
    var more := log + [b];
    if Called(log, c) {
      var i :| 0 <= i < |log| && IsCallOf(log[i], c);
      assert IsCallOf(more[i], c);
    }
    if Answered(log, c) {
      var i :| 0 <= i < |log| && IsResultOf(log[i], c);
      assert IsResultOf(more[i], c);
    }
    assert more[|log|] == b;
  }

  lemma {:induction false} TerminatedAppend(log: Log, b: Body)
    ensures Terminated(log + [b], |log| + 1) <==> Terminated(log, |log|) || Ends(b)
  {
    var more := log + [b];
    if Terminated(log, |log|) {
      var j :| 0 <= j < |log| && Ends(log[j]);
      assert Ends(more[j]);
    }
    assert more[|log|] == b;
  }

  predicate NoResumeIn(log: Log, from: nat, to: nat)
    requires to <= |log|
  {
    forall k :: from <= k < to ==> !log[k].Resume?
  }

  lemma {:induction false} NoResumeAppend(log: Log, b: Body, from: nat)
    requires from <= |log|
    ensures NoResumeIn(log + [b], from, |log| + 1) <==> NoResumeIn(log, from, |log|) && !b.Resume?
  {
    var more := log + [b];
    assert more[|log|] == b;
    assert forall k :: 0 <= k < |log| ==> more[k] == log[k];
  }

  lemma {:induction false} WaitingAppend(log: Log, b: Body, j: nat)
    ensures WaitingAt(log + [b], j, |log| + 1) <==>
            (WaitingAt(log, j, |log|) && !b.Resume?) || (j == |log| && b.Interrupt?)
  {
    var more := log + [b];
    if j < |log| {
      NoResumeAppend(log, b, j + 1);
      assert WaitingAt(log, j, |log|) <==> log[j].Interrupt? && NoResumeIn(log, j + 1, |log|);
      assert WaitingAt(more, j, |log| + 1) <==> more[j].Interrupt? && NoResumeIn(more, j + 1, |log| + 1);
      assert more[j] == log[j];
    } else if j == |log| {
      assert more[j] == b;
    }
  }

  lemma {:induction false} TerminalMeaning(log: Log)
    ensures Reduce(log).terminal <==> Terminated(log, |log|)
  {
    if log != [] {
      var init, b := log[..|log| - 1], log[|log| - 1];
      assert log == init + [b];
      TerminalMeaning(init);
      TerminatedAppend(init, b);
    }
  }

  /** What the folded state says about the calls of a clean log. */
  ghost predicate CallsMean(log: Log, s: State) {
    && (forall c :: c in s.open <==> Called(log, c) && !Answered(log, c))
    && (forall c :: c in s.closed <==> Answered(log, c))
    && (forall c :: Answered(log, c) ==> Called(log, c))
  }

  /** What it says about the interrupts. */
  ghost predicate GateMeans(log: Log, s: State) {
    && (s.pending.None? <==> forall j: nat :: !WaitingAt(log, j, |log|))
    && (forall j: nat :: WaitingAt(log, j, |log|) ==> log[j].index == s.pendingIndex)
  }

  ghost predicate Means(log: Log, s: State) {
    CallsMean(log, s) && GateMeans(log, s)
  }

  /** Given what the state means, one more event is flagged exactly when it may not follow. */
  lemma {:induction false} StepFlags(log: Log, b: Body)
    requires Means(log, Reduce(log)) && Clean(log)
    ensures Clean(log + [b]) <==> MayFollow(log, b)
  {
    ReduceAppend(log, b);
    TerminalMeaning(log);
    var s := Reduce(log);
    if b.Resume? && s.pending.Some? && !s.terminal {
      var j: nat :| WaitingAt(log, j, |log|);
    }
  }

  lemma {:induction false} StepCallsMean(log: Log, b: Body)
    requires Means(log, Reduce(log)) && Clean(log) && Clean(log + [b])
    ensures CallsMean(log + [b], Reduce(log + [b]))
  {
    StepFlags(log, b);
    ReduceAppend(log, b);
    TerminalMeaning(log);
    forall c {
      CalledAppend(log, b, c);
    }
  }

  lemma {:induction false} StepGateMeans(log: Log, b: Body)
    requires Means(log, Reduce(log)) && Clean(log) && Clean(log + [b])
    ensures GateMeans(log + [b], Reduce(log + [b]))
  {
    StepFlags(log, b);
    ReduceAppend(log, b);
    TerminalMeaning(log);
    GateMoves(log, b, Reduce(log), Reduce(log + [b]));
  }

  /** An interrupt starts waiting, and is the only one that does. */
  lemma {:induction false} InterruptWaits(log: Log, b: Body, s: State, t: State)
    requires GateMeans(log, s) && b.Interrupt?
    requires s.pending.None? && t.pending.Some? && t.pendingIndex == b.index
    ensures GateMeans(log + [b], t)
  {
    var more, n := log + [b], |log|;
    assert |more| == n + 1 && more[n] == b;
    forall j: nat | WaitingAt(more, j, |more|) ensures more[j].index == t.pendingIndex {
      WaitingAppend(log, b, j);
      assert !WaitingAt(log, j, n);
    }
    WaitingAppend(log, b, n);
    assert WaitingAt(more, n, |more|);
  }

  /** Behind a resume nothing waits. */
  lemma {:induction false} ResumeEndsTheWait(log: Log, b: Body, t: State)
    requires b.Resume? && t.pending.None?
    ensures GateMeans(log + [b], t)
  {
    var more := log + [b];
    assert |more| == |log| + 1;
    forall j: nat ensures !WaitingAt(more, j, |more|) {
      WaitingAppend(log, b, j);
    }
  }

  /** Nothing else moves what waits. */
  lemma {:induction false} OthersLeaveTheWait(log: Log, b: Body, s: State, t: State)
    requires GateMeans(log, s) && !b.Interrupt? && !b.Resume?
    requires t.pending == s.pending && t.pendingIndex == s.pendingIndex
    ensures GateMeans(log + [b], t)
  {
    var more, n := log + [b], |log|;
    assert |more| == n + 1;
    forall j: nat ensures WaitingAt(more, j, |more|) <==> WaitingAt(log, j, n) {
      WaitingAppend(log, b, j);
    }
    forall j: nat | WaitingAt(more, j, |more|) ensures more[j].index == t.pendingIndex {
      assert WaitingAt(log, j, n) && more[j] == log[j];
    }
  }

  /** One event at the gate. */
  lemma {:induction false} GateMoves(log: Log, b: Body, s: State, t: State)
    requires GateMeans(log, s)
    requires b.Interrupt? ==> s.pending.None? && t.pending.Some? && t.pendingIndex == b.index
    requires b.Resume? ==> t.pending.None?
    requires !b.Interrupt? && !b.Resume? ==> t.pending == s.pending && t.pendingIndex == s.pendingIndex
    ensures GateMeans(log + [b], t)
  {
    if b.Interrupt? {
      InterruptWaits(log, b, s, t);
    } else if b.Resume? {
      ResumeEndsTheWait(log, b, t);
    } else {
      OthersLeaveTheWait(log, b, s, t);
    }
  }

  lemma {:induction false} CleanMeans(log: Log)
    requires Clean(log)
    ensures Means(log, Reduce(log))
  {
    if log == [] {
      assert forall c :: !Called(log, c) && !Answered(log, c);
    } else {
      var init, b := log[..|log| - 1], log[|log| - 1];
      assert log == init + [b];
      ReduceAppend(init, b);
      CleanMeans(init);
      StepCallsMean(init, b);
      StepGateMeans(init, b);
    }
  }

  lemma {:induction false} OrderlyAppend(log: Log, b: Body)
    ensures Orderly(log + [b]) <==> Orderly(log) && MayFollow(log, b)
  {
    var more, n := log + [b], |log|;
    assert forall i :: 0 <= i < n ==> more[i] == log[i];
    assert forall i :: 0 <= i <= n ==> more[..i] == log[..i];
    assert log[..n] == log && more[n] == b;
    forall i | 0 <= i <= n
      ensures Terminated(more, i) <==> Terminated(log, i)
    {}
    forall i, j: nat | 0 <= i <= n
      ensures WaitingAt(more, j, i) <==> WaitingAt(log, j, i)
    {}
    QuietAppend(log, b);
    CallsAppend(log, b);
    ResultsAppend(log, b);
    InterruptsAppend(log, b);
    ResumesAppend(log, b);
  }

  lemma {:induction false} QuietAppend(log: Log, b: Body)
    ensures QuietAfterEnd(log + [b]) <==>
            QuietAfterEnd(log) && (IsTree(b) ==> !Terminated(log, |log|))
  {
    var more, n := log + [b], |log|;
    assert forall i :: 0 <= i < n ==> more[i] == log[i];
    assert more[n] == b;
    forall i | 0 <= i <= n
      ensures Terminated(more, i) <==> Terminated(log, i)
    {}
  }

  lemma {:induction false} CallsAppend(log: Log, b: Body)
    ensures CallsNamedOnce(log + [b]) <==>
            CallsNamedOnce(log) && (b.ToolCall? ==> b.call.Some? && !Called(log, b.call.value))
  {
    var more, n := log + [b], |log|;
    assert forall i :: 0 <= i < n ==> more[i] == log[i];
    assert more[n] == b;
    if CallsNamedOnce(log) && b.ToolCall? && b.call.Some? && !Called(log, b.call.value) {
      forall j | 0 <= j < n && more[j].ToolCall?
        ensures more[j].call != b.call
      {
        assert !IsCallOf(log[j], b.call.value);
      }
    }
  }

  lemma {:induction false} ResultsAppend(log: Log, b: Body)
    ensures ResultsAnswerOnce(log + [b]) <==>
            ResultsAnswerOnce(log)
            && (b.ToolResult? ==>
                  b.call.Some? && Called(log, b.call.value) && !Answered(log, b.call.value))
  {
    var more, n := log + [b], |log|;
    assert forall i :: 0 <= i < n ==> more[i] == log[i];
    assert forall i :: 0 <= i <= n ==> more[..i] == log[..i];
    assert log[..n] == log && more[n] == b;
  }

  lemma {:induction false} InterruptsAppend(log: Log, b: Body)
    ensures OneInterruptAtATime(log + [b]) <==>
            OneInterruptAtATime(log) && (b.Interrupt? ==> forall j: nat :: !WaitingAt(log, j, |log|))
  {
    var more, n := log + [b], |log|;
    assert forall i :: 0 <= i < n ==> more[i] == log[i];
    assert more[n] == b;
    forall i, j: nat | 0 <= i <= n
      ensures WaitingAt(more, j, i) <==> WaitingAt(log, j, i)
    {}
  }

  lemma {:induction false} ResumesAppend(log: Log, b: Body)
    ensures ResumesMatch(log + [b]) <==>
            ResumesMatch(log)
            && (b.Resume? ==>
                  exists j: nat :: WaitingAt(log, j, |log|) && !IndexClash(log[j].index, b.index))
  {
    var more, n := log + [b], |log|;
    assert forall i :: 0 <= i < n ==> more[i] == log[i];
    assert more[n] == b;
    forall i, j: nat | 0 <= i <= n
      ensures WaitingAt(more, j, i) <==> WaitingAt(log, j, i)
    {}
    if ResumesMatch(log)
       && (b.Resume? ==> exists j: nat :: WaitingAt(log, j, n) && !IndexClash(log[j].index, b.index)) {
      forall i | 0 <= i <= n && more[i].Resume?
        ensures exists j: nat :: WaitingAt(more, j, i) && !IndexClash(more[j].index, more[i].index)
      {
        var j: nat :| WaitingAt(log, j, i) && !IndexClash(log[j].index, more[i].index);
        assert WaitingAt(more, j, i);
      }
    }
    if ResumesMatch(more) {
      forall i | 0 <= i <= n && more[i].Resume?
        ensures exists j: nat :: WaitingAt(log, j, i) && !IndexClash(log[j].index, more[i].index)
      {
        var j: nat :| WaitingAt(more, j, i) && !IndexClash(more[j].index, more[i].index);
        assert WaitingAt(log, j, i);
      }
    }
  }

  lemma {:induction false} CleanIffOrderly(log: Log)
    ensures Clean(log) <==> Orderly(log)
  {
    if log != [] {
      var init, b := log[..|log| - 1], log[|log| - 1];
      assert log == init + [b];
      ReduceAppend(init, b);
      CleanIffOrderly(init);
      OrderlyAppend(init, b);
      if Clean(init) {
        CleanMeans(init);
        StepFlags(init, b);
      }
    }
  }

  /** The status is `Completed` exactly when a final message was the last word. */
  lemma {:induction false} CompletedMeans(log: Log)
    requires Clean(log)
    ensures Reduce(log).status == Completed <==>
            (exists i :: 0 <= i < |log| && IsFinal(log[i]))
            && (forall i :: 0 <= i < |log| ==> !IsFatal(log[i]))
  {
    if log != [] {
      var init, b := log[..|log| - 1], log[|log| - 1];
      assert log == init + [b];
      ReduceAppend(init, b);
      CompletedMeans(init);
      TerminalMeaning(init);
      CleanIffOrderly(log);
      var n := |init|;
      assert forall i :: 0 <= i < n ==> log[i] == init[i];
      assert (forall i :: 0 <= i < |log| ==> !IsFatal(log[i])) <==>
             (forall i :: 0 <= i < n ==> !IsFatal(init[i])) && !IsFatal(b);
      if exists i :: 0 <= i < n && IsFinal(init[i]) {
        var i :| 0 <= i < n && IsFinal(init[i]);
        assert IsFinal(log[i]) && Ends(init[i]);
      }
      if IsFinal(b) {
        assert IsFinal(log[n]);
        assert !Terminated(init, n);
        forall i | 0 <= i < n ensures !IsFatal(init[i]) {
          assert !Ends(init[i]);
        }
      }
    }
  }

  /** MAIN: the reducer reports nothing exactly when the log is well formed. */
  lemma {:induction false} ReportsExactlyTheIllFormed(log: Log)
    ensures Report(log) == [] <==> WellFormed(log)
  {
    CleanIffOrderly(log);
    if Clean(log) {
      CompletedMeans(log);
      CleanMeans(log);
      var s := Reduce(log);
      if s.open == map[] {
        assert forall c :: c !in s.open;
      } else {
        var c :| c in s.open;
        assert Called(log, c) && !Answered(log, c);
      }
    }
  }

  /** MAIN: once a prefix is terminal, no extension changes what it decided; the
      status may only move within the two terminal ones. */
  lemma {:induction false} TerminalFreezes(prefix: Log, more: Log)
    requires Reduce(prefix).terminal
    ensures var s, t := Reduce(prefix), Reduce(prefix + more);
            && t.terminal
            && t.step == s.step && t.open == s.open && t.closed == s.closed
            && t.pending == s.pending && t.pendingIndex == s.pendingIndex
            && t.status in {Completed, FailedRun}
            && (s.status == FailedRun ==> t.status == FailedRun)
  {
    if more == [] {
      assert prefix + more == prefix;
      TerminalStatus(prefix);
    } else {
      var init, b := more[..|more| - 1], more[|more| - 1];
      assert prefix + more == (prefix + init) + [b];
      TerminalFreezes(prefix, init);
      ReduceAppend(prefix + init, b);
    }
  }

  lemma {:induction false} TerminalStatus(log: Log)
    ensures Reduce(log).terminal <==> Reduce(log).status in {Completed, FailedRun}
  {
    if log != [] {
      TerminalStatus(log[..|log| - 1]);
    }
  }

  /** MAIN: only the set of terminal statuses is absorbing, not each status: a run that
      has ended keeps its status exactly when it had failed or nothing fatal follows. */
  lemma {:induction false} EndedStatusStaysExactlyWithoutAFatalError(prefix: Log, more: Log)
    requires Reduce(prefix).terminal
    ensures Reduce(prefix + more).status == Reduce(prefix).status <==>
            Reduce(prefix).status == FailedRun || forall i :: 0 <= i < |more| ==> !IsFatal(more[i])
  {
    TerminalStatus(prefix);
    if more == [] {
      assert prefix + more == prefix;
    } else {
      var init, b := more[..|more| - 1], more[|more| - 1];
      assert prefix + more == (prefix + init) + [b];
      EndedStatusStaysExactlyWithoutAFatalError(prefix, init);
      TerminalFreezes(prefix, init);
      ReduceAppend(prefix + init, b);
      assert forall i :: 0 <= i < |init| ==> init[i] == more[i];
    }
  }

  /** Such a run: completed by its last message, failed by an error behind it. */
  lemma {:induction false} CompletedMayStillFail()
    ensures exists p, q :: Reduce(p).status == Completed && Reduce(p + q).status == FailedRun
  {
    var p, q := [AgentMessage("", true)], [Error("late", true)];
    ReduceAppend([], p[0]);
    assert [] + [p[0]] == p;
    ReduceAppend(p, q[0]);
    assert Reduce(p).status == Completed && Reduce(p + q).status == FailedRun;
  }
}
