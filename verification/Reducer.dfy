/** `reduce_events`: the one fold that turns an event log into a run's status,
    its open and closed calls, and the list of broken invariants. */
module Reducer {
  import opened Events

  datatype RunStatus = Running | WaitingHuman | Completed | FailedRun

  datatype Code = Inv001 | Inv002 | Inv003 | Inv004 | Inv005 | Inv006 | Inv007

  /** `CompletedWithOpen` is the one violation that no single event carries. */
  datatype Violation = At(code: Code, position: nat) | CompletedWithOpen

  /** What the pending interrupt is known by: its own id, or the event's. */
  datatype InterruptRef = ById(iid: string) | ByEvent(position: nat)

  datatype State = State(
    status: RunStatus,
    step: nat,
    open: map<CallId, nat>,
    closed: seq<CallId>,
    pending: Option<InterruptRef>,
    pendingIndex: Option<int>,
    terminal: bool,
    violations: seq<Violation>)

  const INIT: State := State(Running, 0, map[], [], None, None, false, [])

  function Flag(s: State, code: Code, i: nat): State {
    s.(violations := s.violations + [At(code, i)])
  }

  /** The effect of the event at position `i` on the folded state. */
  function Step(s: State, b: Body, i: nat): State {
    if !IsTree(b) then
      if IsFatal(b) then s.(status := FailedRun, terminal := true) else s
    else if s.terminal then Flag(s, Inv006, i)
    else match b
      case UserMessage(_) => s
      case AgentMessage(_, final) =>
        if final then s.(step := s.step + 1, status := Completed, terminal := true)
        else s.(step := s.step + 1)
      case ToolCall(call, _, _) =>
        if call.None? then Flag(s, Inv001, i)
        else if call.value in s.open || call.value in s.closed then Flag(s, Inv001, i)
        else s.(open := s.open[call.value := i])
      case ToolResult(call, _, _, _) =>
        if call.Some? && call.value in s.closed then Flag(s, Inv003, i)
        else if call.Some? && call.value in s.open then
          s.(open := s.open - {call.value}, closed := s.closed + [call.value])
        else Flag(s, Inv002, i)
      case Interrupt(iid, index, _, _, _) =>
        if s.pending.Some? then Flag(s, Inv004, i)
        else s.(pending := Some(if iid.Some? then ById(iid.value) else ByEvent(i)),
                pendingIndex := index,
                status := WaitingHuman)
      case Resume(_, index, _, _) =>
        if s.pending.None? then Flag(s, Inv005, i)
        else
          var t := if IndexClash(s.pendingIndex, index) then Flag(s, Inv007, i) else s;
          t.(pending := None, pendingIndex := None,
             status := if s.status == WaitingHuman then Running else s.status)
  }

  predicate IndexClash(asked: Option<int>, answer: Option<int>) {
    asked.Some? && answer.Some? && asked.value != answer.value
  }

  function Reduce(log: Log): State {
    if log == [] then INIT
    else Step(Reduce(log[..|log| - 1]), log[|log| - 1], |log| - 1)
  }

  /** All violations, with the check made once the whole log has been read. */
  function Report(log: Log): seq<Violation> {
    var s := Reduce(log);
    if s.status == Completed && s.open != map[] then s.violations + [CompletedWithOpen]
    else s.violations
  }

  lemma {:induction false} ReduceAppend(log: Log, b: Body)
    ensures Reduce(log + [b]) == Step(Reduce(log), b, |log|)
  {
    assert (log + [b])[..|log|] == log;
  }

  /** The source's loop, over its own local variables. */
  method ReduceEvents(events: Log) returns (state: State, violations: seq<Violation>)
    ensures state == Reduce(events)
    ensures violations == Report(events)
  {
    var status, step := Running, 0;
    var open: map<CallId, nat>, closed: seq<CallId> := map[], [];
    var pending: Option<InterruptRef>, pendingIndex: Option<int> := None, None;
    var terminal := false;
    violations := [];
    for i := 0 to |events|
      invariant Reduce(events[..i]) ==
                State(status, step, open, closed, pending, pendingIndex, terminal, violations)
    {
      var event := events[i];
      assert events[..i + 1] == events[..i] + [event];
      ReduceAppend(events[..i], event);
      if !IsTree(event) {
        if event.Error? && event.fatal {
          status, terminal := FailedRun, true;
        }
        continue;
      }
      if terminal {
        violations := violations + [At(Inv006, i)];
        continue;
      }
      match event {
        case UserMessage(_) =>
        case AgentMessage(_, final) =>
          step := step + 1;
          if final {
            status, terminal := Completed, true;
          }
        case ToolCall(call, _, _) =>
          if call.None? || call.value in open || call.value in closed {
            violations := violations + [At(Inv001, i)];
          } else {
            open := open[call.value := i];
          }
        case ToolResult(call, _, _, _) =>
          if call.Some? && call.value in closed {
            violations := violations + [At(Inv003, i)];
          } else if call.Some? && call.value in open {
            open := open - {call.value};
            closed := closed + [call.value];
          } else {
            violations := violations + [At(Inv002, i)];
          }
        case Interrupt(iid, index, _, _, _) =>
          if pending.Some? {
            violations := violations + [At(Inv004, i)];
          } else {
            pending := Some(if iid.Some? then ById(iid.value) else ByEvent(i));
            pendingIndex := index;
            status := WaitingHuman;
          }
        case Resume(_, index, _, _) =>
          if pending.None? {
            violations := violations + [At(Inv005, i)];
          } else {
            if IndexClash(pendingIndex, index) {
              violations := violations + [At(Inv007, i)];
            }
            pending, pendingIndex := None, None;
            if status == WaitingHuman {
              status := Running;
            }
          }
      }
    }
    assert events[..|events|] == events;
    state := State(status, step, open, closed, pending, pendingIndex, terminal, violations);
    if status == Completed && open != map[] {
      violations := violations + [CompletedWithOpen];
    }
  }

  // ------------------------------------------------ what a well-formed log is

  predicate Ends(b: Body) {
    IsFatal(b) || IsFinal(b)
  }

  ghost predicate Terminated(log: Log, n: nat)
    requires n <= |log|
  {
    exists j :: 0 <= j < n && Ends(log[j])
  }

  /** INV-006, first half: nothing joins the tree once the run has ended. */
  ghost predicate QuietAfterEnd(log: Log) {
    forall i :: 0 <= i < |log| && IsTree(log[i]) ==> !Terminated(log, i)
  }

  /** INV-001. */
  ghost predicate CallsNamedOnce(log: Log) {
    forall i :: 0 <= i < |log| && log[i].ToolCall? ==>
      && log[i].call.Some?
      && forall j :: 0 <= j < i && log[j].ToolCall? ==> log[j].call != log[i].call
  }

  /** INV-002 and INV-003. */
  ghost predicate ResultsAnswerOnce(log: Log) {
    forall i :: 0 <= i < |log| && log[i].ToolResult? ==>
      && log[i].call.Some?
      && Called(log[..i], log[i].call.value)
      && !Answered(log[..i], log[i].call.value)
  }

  /** The interrupt at `j` is still waiting when the log has length `n`. */
  ghost predicate WaitingAt(log: Log, j: nat, n: nat)
    requires n <= |log|
  {
    j < n && log[j].Interrupt? && forall k :: j < k < n ==> !log[k].Resume?
  }

  /** INV-004. */
  ghost predicate OneInterruptAtATime(log: Log) {
    forall i, j: nat :: 0 <= i < |log| && log[i].Interrupt? ==> !WaitingAt(log, j, i)
  }

  /** INV-005 and INV-007. */
  ghost predicate ResumesMatch(log: Log) {
    forall i :: 0 <= i < |log| && log[i].Resume? ==>
      exists j: nat :: WaitingAt(log, j, i) && !IndexClash(log[j].index, log[i].index)
  }

  /** INV-006, second half: a run that declared itself complete left nothing open. */
  ghost predicate NothingOpenAtCompletion(log: Log) {
    (exists i :: 0 <= i < |log| && IsFinal(log[i]))
    && (forall i :: 0 <= i < |log| ==> !IsFatal(log[i]))
    ==> forall c :: Called(log, c) ==> Answered(log, c)
  }

  /** The invariants a single event can break. */
  ghost predicate Orderly(log: Log) {
    && QuietAfterEnd(log)
    && CallsNamedOnce(log)
    && ResultsAnswerOnce(log)
    && OneInterruptAtATime(log)
    && ResumesMatch(log)
  }

  ghost predicate WellFormed(log: Log) {
    Orderly(log) && NothingOpenAtCompletion(log)
  }

  /** Whether `b` may follow `log`. */
  ghost predicate MayFollow(log: Log, b: Body) {
    && (IsTree(b) ==> !Terminated(log, |log|))
    && (b.ToolCall? ==> b.call.Some? && !Called(log, b.call.value))
    && (b.ToolResult? ==> b.call.Some? && Called(log, b.call.value) && !Answered(log, b.call.value))
    && (b.Interrupt? ==> forall j: nat :: !WaitingAt(log, j, |log|))
    && (b.Resume? ==> exists j: nat :: WaitingAt(log, j, |log|) && !IndexClash(log[j].index, b.index))
  }
}
