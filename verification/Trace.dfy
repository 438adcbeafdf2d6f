/** The trace: spans read off the log, for eyes that look at a run from outside. It
    is only as good as its agreement with what the reducer says. */
module Tracing {
  import opened Events
  import opened Tools
  import opened Reducer
  import opened ReducerSpec
  import opened Pipeline
  import opened Invariants
  import opened Ordering
  import opened Deciding
  import opened Runs

  datatype SpanKind = ChatSpan | ToolSpan | ApprovalSpan | CompactSpan | ErrorSpan

  /** A span, placed by the events it starts and ends with. `key` is the id of the
      call or interrupt it is about. */
  datatype Span = Span(
    kind: SpanKind,
    at: nat,
    end: Option<nat>,
    key: string,
    pending: bool,
    status: Option<ResultStatus>,
    decision: Option<Verdict>)

  /** The root's children, where the span of each call and interrupt is among them,
      and how many events no span is made of. */
  datatype Trace = Trace(children: seq<Span>, calls: map<string, nat>, gates: map<string, nat>, unhandled: nat)
  {
    ghost predicate Valid() {
      (forall c :: c in calls ==> calls[c] < |children|) && (forall g :: g in gates ==> gates[g] < |children|)
    }
  }

  function TextOf(id: Option<string>): string {
    if id.Some? then id.value else "None"
  }

  function Closed(kind: SpanKind, i: nat): Span {
    Span(kind, i, Some(i), "", false, None, None)
  }

  function Project(t: Trace, e: Body, i: nat): (r: Trace)
    requires t.Valid()
    ensures r.Valid()
  {
    var n := |t.children|;
    match e
    case AgentMessage(_, _) => t.(children := t.children + [Closed(ChatSpan, i)])
    case ToolCall(call, _, _) =>
      t.(children := t.children + [Span(ToolSpan, i, None, TextOf(call), false, None, None)],
         calls := t.calls[TextOf(call) := n])
    case ToolResult(call, status, _, _) =>
      if TextOf(call) in t.calls then
        var k := t.calls[TextOf(call)];
        t.(children := t.children[k := t.children[k].(end := Some(i), status := Some(status))])
      else t
    case Interrupt(iid, _, _, _, _) =>
      t.(children := t.children + [Span(ApprovalSpan, i, None, TextOf(iid), true, None, None)],
         gates := t.gates[TextOf(iid) := n])
    case Resume(resumed, _, verdict, _) =>
      if TextOf(resumed) in t.gates then
        var k := t.gates[TextOf(resumed)];
        t.(children := t.children[k := t.children[k].(end := Some(i), pending := false, decision := Some(verdict))])
      else t
    case Compaction(_) => t.(children := t.children + [Closed(CompactSpan, i)])
    case Error(_, _) => t.(children := t.children + [Closed(ErrorSpan, i)])
    case Approval(_) => t
    case BudgetUpdate => t
    case _ => t.(unhandled := t.unhandled + 1)
  }

  function TraceOf(log: Log): (t: Trace)
    ensures t.Valid()
  {
    if log == [] then Trace([], map[], map[], 0)
    else Project(TraceOf(log[..|log| - 1]), log[|log| - 1], |log| - 1)
  }

  lemma {:induction false} TraceAppend(log: Log, e: Body)
    ensures TraceOf(log + [e]) == Project(TraceOf(log), e, |log|)
  {
    assert (log + [e])[..|log|] == log;
  }

  method NoteInTrace(before: Trace, e: Body, i: nat) returns (t: Trace)
    requires before.Valid()
    ensures t == Project(before, e, i)
  {
    t := before;
    match e {
      case AgentMessage(_, _) =>
        t := t.(children := t.children + [Closed(ChatSpan, i)]);
      case ToolCall(call, _, _) =>
        t := t.(calls := t.calls[TextOf(call) := |t.children|],
                children := t.children + [Span(ToolSpan, i, None, TextOf(call), false, None, None)]);
      case ToolResult(call, status, _, _) =>
        if TextOf(call) in t.calls {
          var k := t.calls[TextOf(call)];
          var span := t.children[k].(end := Some(i), status := Some(status));
          t := t.(children := t.children[k := span]);
        }
      case Interrupt(iid, _, _, _, _) =>
        t := t.(gates := t.gates[TextOf(iid) := |t.children|],
                children := t.children + [Span(ApprovalSpan, i, None, TextOf(iid), true, None, None)]);
      case Resume(resumed, _, verdict, _) =>
        if TextOf(resumed) in t.gates {
          var k := t.gates[TextOf(resumed)];
          var span := t.children[k].(end := Some(i), pending := false, decision := Some(verdict));
          t := t.(children := t.children[k := span]);
        }
      case Compaction(_) =>
        t := t.(children := t.children + [Closed(CompactSpan, i)]);
      case Error(_, _) =>
        t := t.(children := t.children + [Closed(ErrorSpan, i)]);
      case Approval(_) =>
      case BudgetUpdate =>
      case _ =>
        t := t.(unhandled := t.unhandled + 1);
    }
  }

  method BuildTrace(log: Log) returns (t: Trace)
    ensures t == TraceOf(log)
  {
    t := Trace([], map[], map[], 0);
    for i := 0 to |log|
      invariant t == TraceOf(log[..i])
    {
      assert log[..i + 1] == log[..i] + [log[i]];
      TraceAppend(log[..i], log[i]);
      t := NoteInTrace(t, log[i], i);
    }
    assert log[..|log|] == log;
  }

  // ------------------------------------------------------------ one span each

  predicate MakesSpan(e: Body) {
    e.AgentMessage? || e.ToolCall? || e.Interrupt? || e.Compaction? || e.Error?
  }

  function KindOf(e: Body): SpanKind
    requires MakesSpan(e)
  {
    match e
    case AgentMessage(_, _) => ChatSpan
    case ToolCall(_, _, _) => ToolSpan
    case Interrupt(_, _, _, _, _) => ApprovalSpan
    case Compaction(_) => CompactSpan
    case _ => ErrorSpan
  }

  /** Positions of the events a span is made of. */
  function SpanEvents(log: Log): (r: seq<nat>)
    ensures forall k :: 0 <= k < |r| ==> r[k] < |log| && MakesSpan(log[r[k]])
  {
    if log == [] then []
    else
      var n := |log| - 1;
      SpanEvents(log[..n]) + if MakesSpan(log[n]) then [n] else []
  }

  /** MAIN: each message of the model, call, interrupt, compaction and error yields
      exactly one span, in the log's order, and nothing else yields any. */
  lemma {:induction false} OneSpanEach(log: Log)
    ensures var cs, at := TraceOf(log).children, SpanEvents(log);
            && |cs| == |at|
            && forall k :: 0 <= k < |cs| ==> cs[k].at == at[k] && cs[k].kind == KindOf(log[at[k]])
  {
    if log != [] {
      var n := |log| - 1;
      OneSpanEach(log[..n]);
      var at := SpanEvents(log[..n]);
      assert forall k :: 0 <= k < |at| ==> log[..n][at[k]] == log[at[k]];
      SpanOfEvent(TraceOf(log[..n]), log[n], n);
    }
  }

  /** An event adds its span, if it makes one, and moves none. */
  lemma {:induction false} SpanOfEvent(t: Trace, e: Body, i: nat)
    requires t.Valid()
    ensures var cs, n := Project(t, e, i).children, |t.children|;
            && |cs| == n + (if MakesSpan(e) then 1 else 0)
            && (forall k :: 0 <= k < n ==> cs[k].at == t.children[k].at && cs[k].kind == t.children[k].kind)
            && (MakesSpan(e) ==> cs[n].at == i && cs[n].kind == KindOf(e))
  {}

  // ------------------------------------------------------------ open and pending

  /** A call's span is filed under its id and open as long as the call is. */
  predicate CallSpanFits(x: Span, k: nat, calls: map<string, nat>, open: set<string>) {
    x.kind == ToolSpan ==>
      x.key in calls && calls[x.key] == k && (x.end.None? <==> x.key in open)
  }

  /** Spans of calls, read against the reducer's open calls. */
  ghost predicate CallsAgree(t: Trace, s: State) {
    && t.Valid()
    && (forall k :: 0 <= k < |t.children| ==> CallSpanFits(t.children[k], k, t.calls, s.open.Keys))
    && (forall c :: c in t.calls ==>
          && t.children[t.calls[c]].kind == ToolSpan && t.children[t.calls[c]].key == c
          && (c in s.open || c in s.closed))
    && (forall c :: c in s.open ==> c in t.calls)
  }

  lemma {:induction false} CallSpanJoins(t: Trace, s: State, e: Body, i: nat, s': State)
    requires CallsAgree(t, s) && e.ToolCall? && e.call.Some?
    requires e.call.value !in s.open && e.call.value !in s.closed
    requires s'.closed == s.closed && s'.open == s.open[e.call.value := i]
    ensures CallsAgree(Project(t, e, i), s')
  {
    var r, n := Project(t, e, i), |t.children|;
    forall k | 0 <= k < |r.children| ensures CallSpanFits(r.children[k], k, r.calls, s'.open.Keys) {
      if k < n {
        assert r.children[k] == t.children[k] && CallSpanFits(t.children[k], k, t.calls, s.open.Keys);
      }
    }
  }

  lemma {:induction false} CallSpanEnds(t: Trace, s: State, e: Body, i: nat, s': State)
    requires CallsAgree(t, s) && e.ToolResult? && e.call.Some? && e.call.value in s.open
    requires s'.closed == s.closed + [e.call.value] && s'.open == s.open - {e.call.value}
    ensures CallsAgree(Project(t, e, i), s')
  {
    var r := Project(t, e, i);
    forall k | 0 <= k < |r.children| ensures CallSpanFits(r.children[k], k, r.calls, s'.open.Keys) {
      assert CallSpanFits(t.children[k], k, t.calls, s.open.Keys);
    }
  }

  /** Any other event leaves calls and their spans alone. */
  lemma {:induction false} CallSpansStay(t: Trace, s: State, r: Trace, s': State)
    requires CallsAgree(t, s) && r.Valid() && r.calls == t.calls && s'.open == s.open && s'.closed == s.closed
    requires |t.children| <= |r.children|
    requires forall k :: 0 <= k < |t.children| && (t.children[k].kind == ToolSpan || r.children[k].kind == ToolSpan) ==>
               r.children[k] == t.children[k]
    requires forall k :: |t.children| <= k < |r.children| ==> r.children[k].kind != ToolSpan
    ensures CallsAgree(r, s')
  {
    forall k | 0 <= k < |r.children| ensures CallSpanFits(r.children[k], k, r.calls, s'.open.Keys) {
      assert k < |t.children| ==> CallSpanFits(t.children[k], k, t.calls, s.open.Keys);
    }
  }

  ghost predicate GatesAreGates(t: Trace) {
    t.Valid() && forall g :: g in t.gates ==> t.children[t.gates[g]].kind == ApprovalSpan
  }

  lemma {:induction false} ProjectCallsAgree(t: Trace, s: State, e: Body, i: nat)
    requires CallsAgree(t, s) && GatesAreGates(t) && Step(s, e, i).violations == [] && s.violations == []
    ensures CallsAgree(Project(t, e, i), Step(s, e, i))
  {
    if e.ToolCall? {
      CallSpanJoins(t, s, e, i, Step(s, e, i));
    } else if e.ToolResult? {
      CallSpanEnds(t, s, e, i, Step(s, e, i));
    } else {
      OtherEventsKeepCallSpans(t, e, i);
      CallSpansStay(t, s, Project(t, e, i), Step(s, e, i));
    }
  }

  lemma {:induction false} OtherEventsKeepCallSpans(t: Trace, e: Body, i: nat)
    requires GatesAreGates(t) && !e.ToolCall? && !e.ToolResult?
    ensures var r := Project(t, e, i);
            && r.calls == t.calls && |t.children| <= |r.children|
            && (forall k :: 0 <= k < |t.children| && (t.children[k].kind == ToolSpan || r.children[k].kind == ToolSpan) ==>
                  r.children[k] == t.children[k])
            && (forall k :: |t.children| <= k < |r.children| ==> r.children[k].kind != ToolSpan)
  {}

  lemma {:induction false} GatesStayGates(t: Trace, e: Body, i: nat)
    requires GatesAreGates(t)
    ensures GatesAreGates(Project(t, e, i))
  {}

  lemma {:induction false} TraceCallsAgree(log: Log)
    requires Clean(log)
    ensures CallsAgree(TraceOf(log), Reduce(log)) && GatesAreGates(TraceOf(log))
  {
    if log != [] {
      var n := |log| - 1;
      assert log == log[..n] + [log[n]];
      ReduceAppend(log[..n], log[n]);
      TraceCallsAgree(log[..n]);
      GatesStayGates(TraceOf(log[..n]), log[n], n);
      ProjectCallsAgree(TraceOf(log[..n]), Reduce(log[..n]), log[n], n);
    }
  }

  /** No interrupt is filed under this name yet. */
  ghost predicate FreshName(log: Log, name: string) {
    forall i :: 0 <= i < |log| && log[i].Interrupt? ==> TextOf(log[i].iid) != name
  }

  lemma {:induction false} FreshAppend(log: Log, e: Body, name: string)
    ensures FreshName(log + [e], name) <==> FreshName(log, name) && (e.Interrupt? ==> TextOf(e.iid) != name)
  {
    var more := log + [e];
    assert more[|log|] == e;
    assert forall i :: 0 <= i < |log| ==> more[i] == log[i];
  }

  /** An interrupt has an id of its own, and a resume names the interrupt that waits. */
  ghost predicate MayName(log: Log, e: Body) {
    && (e.Interrupt? ==> e.iid.Some? && FreshName(log, e.iid.value))
    && (e.Resume? ==> Reduce(log).pending == Some(ById(TextOf(e.resumed))))
  }

  ghost predicate WellNamed(log: Log) {
    forall i :: 0 <= i < |log| ==> MayName(log[..i], log[i])
  }

  lemma {:induction false} WellNamedAppend(log: Log, e: Body)
    ensures WellNamed(log + [e]) <==> WellNamed(log) && MayName(log, e)
  {
    var more, n := log + [e], |log|;
    forall i | 0 <= i < n ensures more[..i] == log[..i] && more[i] == log[i] {}
    assert more[..n] == log && more[n] == e;
    if WellNamed(more) {
      assert MayName(more[..n], more[n]);
      forall i | 0 <= i < n ensures MayName(log[..i], log[i]) {
        assert MayName(more[..i], more[i]);
      }
    }
    if WellNamed(log) && MayName(log, e) {
      forall i | 0 <= i < |more| ensures MayName(more[..i], more[i]) {
        assert i < n ==> MayName(log[..i], log[i]);
      }
    }
  }

  /** An interrupt's span is filed under its id and pending as long as it waits. */
  predicate GateSpanFits(x: Span, k: nat, gates: map<string, nat>, waiting: Option<InterruptRef>) {
    x.kind == ApprovalSpan ==>
      && x.key in gates && gates[x.key] == k
      && (x.pending <==> waiting == Some(ById(x.key)))
      && (x.end.None? <==> x.pending)
  }

  /** Spans of interrupts, read against the reducer's pending one. */
  ghost predicate GatesAgree(t: Trace, waiting: Option<InterruptRef>, log: Log) {
    && t.Valid()
    && (forall k :: 0 <= k < |t.children| ==> GateSpanFits(t.children[k], k, t.gates, waiting))
    && (forall g :: g in t.gates ==>
          t.children[t.gates[g]].kind == ApprovalSpan && t.children[t.gates[g]].key == g)
    && (forall g :: g in t.gates <==> !FreshName(log, g))
    && (waiting.Some? ==> waiting.value.ById? && waiting.value.iid in t.gates)
  }

  lemma {:induction false} GateSpanJoins(log: Log, t: Trace, e: Body, i: nat)
    requires GatesAgree(t, None, log) && e.Interrupt? && e.iid.Some? && FreshName(log, e.iid.value)
    ensures GatesAgree(Project(t, e, i), Some(ById(e.iid.value)), log + [e])
  {
    var r, n := Project(t, e, i), |t.children|;
    forall k | 0 <= k < |r.children|
      ensures GateSpanFits(r.children[k], k, r.gates, Some(ById(e.iid.value)))
    {
      if k < n {
        assert r.children[k] == t.children[k] && GateSpanFits(t.children[k], k, t.gates, None);
      }
    }
    forall g ensures g in r.gates <==> !FreshName(log + [e], g) {
      FreshAppend(log, e, g);
    }
  }

  lemma {:induction false} GateSpanEnds(log: Log, t: Trace, e: Body, i: nat)
    requires e.Resume? && GatesAgree(t, Some(ById(TextOf(e.resumed))), log)
    ensures GatesAgree(Project(t, e, i), None, log + [e])
  {
    var r := Project(t, e, i);
    forall k | 0 <= k < |r.children| ensures GateSpanFits(r.children[k], k, r.gates, None) {
      assert GateSpanFits(t.children[k], k, t.gates, Some(ById(TextOf(e.resumed))));
    }
    forall g ensures g in r.gates <==> !FreshName(log + [e], g) {
      FreshAppend(log, e, g);
    }
  }

  /** Any other event leaves interrupts and their spans alone. */
  lemma {:induction false} GateSpansStay(log: Log, t: Trace, waiting: Option<InterruptRef>, r: Trace, e: Body)
    requires GatesAgree(t, waiting, log) && r.Valid() && r.gates == t.gates
    requires |t.children| <= |r.children|
    requires forall k :: 0 <= k < |t.children| && (t.children[k].kind == ApprovalSpan || r.children[k].kind == ApprovalSpan) ==>
               r.children[k] == t.children[k]
    requires forall k :: |t.children| <= k < |r.children| ==> r.children[k].kind != ApprovalSpan
    requires !e.Interrupt?
    ensures GatesAgree(r, waiting, log + [e])
  {
    forall k | 0 <= k < |r.children| ensures GateSpanFits(r.children[k], k, r.gates, waiting) {
      assert k < |t.children| ==> GateSpanFits(t.children[k], k, t.gates, waiting);
    }
    forall g ensures g in r.gates <==> !FreshName(log + [e], g) {
      FreshAppend(log, e, g);
    }
  }

  ghost predicate CallsAreCalls(t: Trace) {
    t.Valid() && forall c :: c in t.calls ==> t.children[t.calls[c]].kind == ToolSpan
  }

  lemma {:induction false} OtherEventsKeepGateSpans(t: Trace, e: Body, i: nat)
    requires CallsAreCalls(t) && !e.Interrupt? && !e.Resume?
    ensures var r := Project(t, e, i);
            && r.gates == t.gates && |t.children| <= |r.children|
            && (forall k :: 0 <= k < |t.children| && (t.children[k].kind == ApprovalSpan || r.children[k].kind == ApprovalSpan) ==>
                  r.children[k] == t.children[k])
            && (forall k :: |t.children| <= k < |r.children| ==> r.children[k].kind != ApprovalSpan)
  {}

  /** Only interrupts and resumes move what waits. */
  lemma {:induction false} OthersLeaveTheGate(s: State, e: Body, i: nat)
    requires !e.Interrupt? && !e.Resume?
    ensures Step(s, e, i).pending == s.pending
  {}

  lemma {:induction false} ProjectGatesAgree(log: Log, t: Trace, s: State, e: Body)
    requires GatesAgree(t, s.pending, log) && s == Reduce(log) && MayName(log, e)
    requires CallsAreCalls(t) && Step(s, e, |log|).violations == [] && s.violations == []
    ensures GatesAgree(Project(t, e, |log|), Step(s, e, |log|).pending, log + [e])
  {
    if e.Interrupt? {
      GateSpanJoins(log, t, e, |log|);
    } else if e.Resume? {
      GateSpanEnds(log, t, e, |log|);
    } else {
      OtherEventsKeepGateSpans(t, e, |log|);
      OthersLeaveTheGate(s, e, |log|);
      GateSpansStay(log, t, s.pending, Project(t, e, |log|), e);
    }
  }

  lemma {:induction false} TraceGatesAgree(log: Log)
    requires Clean(log) && WellNamed(log)
    ensures GatesAgree(TraceOf(log), Reduce(log).pending, log)
  {
    if log != [] {
      var n := |log| - 1;
      var init := log[..n];
      assert log == init + [log[n]];
      ReduceAppend(init, log[n]);
      WellNamedAppend(init, log[n]);
      TraceGatesAgree(init);
      TraceCallsAgree(init);
      ProjectGatesAgree(init, TraceOf(init), Reduce(init), log[n]);
    }
  }

  /** The trace shows what the reducer says: a call's span is unended exactly when the
      call is open, an approval is pending exactly when its interrupt is the one that waits. */
  ghost predicate Agree(log: Log) {
    var t, s := TraceOf(log), Reduce(log);
    forall k :: 0 <= k < |t.children| ==> SpanShows(t.children[k], s)
  }

  predicate SpanShows(x: Span, s: State) {
    && (x.kind == ToolSpan ==> (x.end.None? <==> x.key in s.open))
    && (x.kind == ApprovalSpan ==> (x.pending <==> s.pending == Some(ById(x.key))))
  }

  lemma {:induction false} NamedAgrees(log: Log)
    requires Clean(log) && GatesAgree(TraceOf(log), Reduce(log).pending, log)
    ensures Agree(log)
  {
    TraceCallsAgree(log);
    var t, s := TraceOf(log), Reduce(log);
    forall k | 0 <= k < |t.children| ensures SpanShows(t.children[k], s) {
      assert CallSpanFits(t.children[k], k, t.calls, s.open.Keys);
      assert GateSpanFits(t.children[k], k, t.gates, s.pending);
    }
  }

  /** An interrupt without an id, or under a name already used, is not shown as what waits. */
  lemma {:induction false} UnnamedInterruptShowsWrong(log: Log, e: Body)
    requires Clean(log) && Clean(log + [e]) && GatesAgree(TraceOf(log), Reduce(log).pending, log)
    requires e.Interrupt? && !MayName(log, e)
    ensures !Agree(log + [e])
  {
    ReduceAppend(log, e);
    TraceAppend(log, e);
    var t, r := TraceOf(log), TraceOf(log + [e]);
    var k := if e.iid.Some? then t.gates[e.iid.value] else |t.children|;
    assert k < |t.children| ==> GateSpanFits(t.children[k], k, t.gates, Reduce(log).pending);
    assert !SpanShows(r.children[k], Reduce(log + [e]));
  }

  /** A resume that names another interrupt leaves the span of the one it answers pending. */
  lemma {:induction false} MisnamedResumeShowsWrong(log: Log, e: Body)
    requires Clean(log) && Clean(log + [e]) && GatesAgree(TraceOf(log), Reduce(log).pending, log)
    requires e.Resume? && !MayName(log, e)
    ensures !Agree(log + [e])
  {
    ReduceAppend(log, e);
    TraceAppend(log, e);
    var t, r := TraceOf(log), TraceOf(log + [e]);
    var k := t.gates[Reduce(log).pending.value.iid];
    assert GateSpanFits(t.children[k], k, t.gates, Reduce(log).pending);
    assert r.children[k] == t.children[k];
    assert !SpanShows(r.children[k], Reduce(log + [e]));
  }

  /** One more event: trace and reducer still agree exactly when it is named well. */
  lemma {:induction false} StillAgreeExactlyWhenNamed(log: Log, e: Body)
    requires Clean(log) && Clean(log + [e]) && WellNamed(log)
    ensures Agree(log + [e]) <==> MayName(log, e)
  {
    TraceGatesAgree(log);
    if MayName(log, e) {
      WellNamedAppend(log, e);
      TraceGatesAgree(log + [e]);
      NamedAgrees(log + [e]);
    } else if e.Interrupt? {
      UnnamedInterruptShowsWrong(log, e);
    } else {
      MisnamedResumeShowsWrong(log, e);
    }
  }

  lemma {:induction false} CleanBefore(log: Log, n: nat)
    requires Clean(log) && n <= |log|
    ensures Clean(log[..n])
  {
    if n == |log| {
      assert log[..n] == log;
    } else {
      var init := log[..|log| - 1];
      assert init[..n] == log[..n];
      CleanBefore(init, n);
    }
  }

  /** MAIN: on a clean log trace and reducer agree after every event exactly when each
      interrupt has an id of its own and each resume names the interrupt it answers. The
      reducer asks for neither: it lets any resume with the right index close the gate. */
  lemma {:induction false} AgreeThroughoutExactlyWhenNamed(log: Log)
    requires Clean(log)
    ensures (forall n :: 0 <= n <= |log| ==> Agree(log[..n])) <==> WellNamed(log)
  {
    if log != [] {
      var m := |log| - 1;
      var init, e := log[..m], log[m];
      assert log == init + [e] && log[..|log|] == log;
      CleanBefore(log, m);
      AgreeThroughoutExactlyWhenNamed(init);
      WellNamedAppend(init, e);
      forall n | 0 <= n <= m ensures log[..n] == init[..n] {}
      if WellNamed(init) {
        StillAgreeExactlyWhenNamed(init, e);
      }
      assert (forall n :: 0 <= n <= m ==> Agree(log[..n])) <==> WellNamed(init);
    }
  }

  /** MAIN: on any clean log there is one span for every open call, no two calls share
      one, and it is unended exactly when its call is open. */
  lemma {:induction false} OneSpanACall(log: Log)
    requires Clean(log)
    ensures var t, s := TraceOf(log), Reduce(log);
            && (forall k :: 0 <= k < |t.children| && t.children[k].kind == ToolSpan ==>
                  (t.children[k].end.None? <==> t.children[k].key in s.open))
            && (forall c :: c in s.open ==>
                  exists k :: 0 <= k < |t.children| && t.children[k].kind == ToolSpan && t.children[k].key == c)
            && (forall j, k :: 0 <= j < k < |t.children| && t.children[j].kind == ToolSpan == t.children[k].kind ==>
                  t.children[j].key != t.children[k].key)
  {
    TraceCallsAgree(log);
    var t, s := TraceOf(log), Reduce(log);
    forall k | 0 <= k < |t.children|
      ensures CallSpanFits(t.children[k], k, t.calls, s.open.Keys)
    {}
    forall c | c in s.open
      ensures exists k :: 0 <= k < |t.children| && t.children[k].kind == ToolSpan && t.children[k].key == c
    {
      assert t.children[t.calls[c]].key == c;
    }
  }

  // ----------------------------------------------------------- over whole runs

  /** Every event the commits append may be named as it is. */
  ghost predicate NamesWell(d: Durable, cs: seq<Commit>)
    decreases |cs|
  {
    cs != [] ==>
      && (cs[0].Append? ==> MayName(d.log, cs[0].event))
      && NamesWell(Apply(d, cs[0]), cs[1..])
  }

  lemma {:induction false} NamesWellKeeps(d: Durable, cs: seq<Commit>, n: nat)
    requires WellNamed(d.log) && NamesWell(d, cs)
    ensures WellNamed(ApplyAll(d, Cut(cs, n)).log)
    decreases |cs|
  {
    if cs != [] && n > 0 {
      if cs[0].Append? {
        WellNamedAppend(d.log, cs[0].event);
      }
      NamesWellKeeps(Apply(d, cs[0]), cs[1..], n - 1);
      assert Cut(cs, n)[0] == cs[0] && Cut(cs, n)[1..] == Cut(cs[1..], n - 1);
    }
  }

  predicate NoGateEventsIn(cs: seq<Commit>) {
    forall i :: 0 <= i < |cs| && cs[i].Append? ==> !cs[i].event.Interrupt? && !cs[i].event.Resume?
  }

  lemma {:induction false} NoGateNamesWell(d: Durable, cs: seq<Commit>)
    requires NoGateEventsIn(cs)
    ensures NamesWell(d, cs)
    decreases |cs|
  {
    if cs != [] {
      NoGateNamesWell(Apply(d, cs[0]), cs[1..]);
    }
  }

  lemma {:induction false} NamesConcat(d: Durable, a: seq<Commit>, b: seq<Commit>)
    requires NamesWell(d, a) && NamesWell(ApplyAll(d, a), b)
    ensures NamesWell(d, a + b)
    decreases |a|
  {
    if a == [] {
      assert a + b == b;
    } else {
      assert (a + b)[0] == a[0] && (a + b)[1..] == a[1..] + b;
      NamesConcat(Apply(d, a[0]), a[1..], b);
    }
  }

  lemma {:induction false} EffectHasNoGate(cfg: Config, req: Request, existing: bool, args: Args, env: Env)
    requires req.tool in cfg.registry
    ensures NoGateEventsIn(EffectPlan(cfg, req, existing, args, env).commits)
  {
    assert NoGateEventsIn(IntentCommits(cfg, req, existing, args));
    assert NoGateEventsIn(EffectCommits(cfg, req, args, env));
    assert NoGateEventsIn(RecordPlan(cfg, req, args, env).commits);
  }

  /** The gate writes nothing of its own, or one interrupt that is new. */
  predicate GateWrites(cs: seq<Commit>, env: Env) {
    NoGateEventsIn(cs) || (|cs| == 1 && cs[0].Append? && cs[0].event.Interrupt? && cs[0].event.iid == Some(env.interruptId))
  }

  lemma {:induction false} GateNames(cfg: Config, d: Durable, req: Request, existing: bool, env: Env)
    requires req.tool in cfg.registry
    ensures GateWrites(GatePlan(cfg, d, req, existing, env).commits, env)
  {
    EffectHasNoGate(cfg, req, existing, ActualArgs(req, env), env);
  }

  lemma {:induction false} RowNames(cfg: Config, d: Durable, req: Request, env: Env)
    requires req.tool in cfg.registry
    ensures GateWrites(RowPlan(cfg, d, req, env).commits, env)
  {
    GateNames(cfg, d, req, false, env);
    GateNames(cfg, d, req, true, env);
  }

  lemma {:induction false} ExecuteNames(cfg: Config, d: Durable, req: Request, env: Env)
    requires FreshName(d.log, env.interruptId)
    ensures NamesWell(d, ExecutePlan(cfg, d, req, env).commits)
  {
    if req.call in Reduce(d.log).closed {
    } else if req.tool !in cfg.registry {
      NoGateNamesWell(d, ExecutePlan(cfg, d, req, env).commits);
    } else {
      var noted := if req.call in Reduce(d.log).open then [] else [Append(CallEvent(req))];
      var d' := ApplyAll(d, noted);
      if noted != [] {
        ApplyOne(d, noted[0]);
        FreshAppend(d.log, CallEvent(req), env.interruptId);
      }
      RowNames(cfg, d', req, env);
      var rest := RowPlan(cfg, d', req, env).commits;
      if NoGateEventsIn(rest) {
        NoGateNamesWell(d', rest);
      } else {
        assert rest[1..] == [];
      }
      NoGateNamesWell(d, noted);
      NamesConcat(d, noted, rest);
    }
  }

  lemma {:induction false} ClosingLeavesTheGate(cfg: Config, d: Durable, dec: Decision)
    requires Inv(Ordered, cfg, d) && !Reduce(d.log).terminal
    requires DecidePlan(d, dec).Accepted? && DecideSafe(d, dec)
    ensures NamesWell(d, DecideCommits(d, dec))
  {
    var asked := PendingInterrupt(d.log).value;
    var closing := ClosingCommits(asked, dec);
    ClosingKeeps(cfg, d, asked, dec);
    NoGateNamesWell(d, closing);
    var d1 := ApplyAll(d, closing);
    var binding := DecidedBinding(asked, dec);
    var approval, resume := Append(Approval(binding)), Append(Resume(asked.iid, asked.index, dec.verdict, binding.call));
    AnswerNames(d1, approval, resume);
    NamesConcat(d, closing, [approval, resume]);
  }

  lemma {:induction false} AnswerNames(d: Durable, approval: Commit, resume: Commit)
    requires approval.Append? && approval.event.Approval?
    requires resume.Append? && resume.event.Resume? && resume.event.resumed.Some?
    requires Reduce(d.log).pending == Some(ById(resume.event.resumed.value))
    ensures NamesWell(d, [approval, resume])
  {
    ReduceAppend(d.log, approval.event);
    assert [approval, resume][1..] == [resume] && [resume][1..] == [];
  }

  /** Where every interrupt has an id, one that cannot be found is a fresh name. */
  lemma {:induction false} NotFoundIsFresh(log: Log, id: string)
    requires WellNamed(log) && FirstInterrupt(log, id).None?
    ensures FreshName(log, id)
  {
    if log != [] {
      var init, e := log[..|log| - 1], log[|log| - 1];
      assert log == init + [e];
      WellNamedAppend(init, e);
      FirstInterruptAppend(init, e, id);
      NotFoundIsFresh(init, id);
      FreshAppend(init, e, id);
    }
  }

  lemma {:induction false} ActNames(cfg: Config, d: Durable, a: Action)
    requires Inv(Ordered, cfg, d) && WellNamed(d.log) && OrderAllowed(cfg, d, a)
    ensures WellNamed(Act(cfg, d, a).log)
  {
    match a
    case Execute(req, env, cut) =>
      NotFoundIsFresh(d.log, env.interruptId);
      ExecuteNames(cfg, d, req, env);
      NamesWellKeeps(d, CommitsOf(cfg, d, a), cut);
    case Decide(dec, cut) =>
      if DecidePlan(d, dec).Accepted? {
        ClosingLeavesTheGate(cfg, d, dec);
      }
      NamesWellKeeps(d, CommitsOf(cfg, d, a), cut);
    case Note(e) =>
      ApplyOne(d, Append(e));
      WellNamedAppend(d.log, e);
  }

  lemma {:induction false} RunNames(cfg: Config, d: Durable, actions: seq<Action>)
    requires Inv(Ordered, cfg, d) && WellNamed(d.log) && OrderedRun(cfg, d, actions)
    ensures Inv(Ordered, cfg, Run(cfg, d, actions)) && WellNamed(Run(cfg, d, actions).log)
    decreases |actions|
  {
    if actions != [] {
      ActKeepsOrdered(cfg, d, actions[0]);
      ActNames(cfg, d, actions[0]);
      RunNames(cfg, Act(cfg, d, actions[0]), actions[1..]);
    }
  }

  /** MAIN: after any run, with kills anywhere, the trace and the reducer agree on
      which calls are open and which interrupt waits, and so they did all along. */
  lemma {:induction false} EveryTraceAgrees(cfg: Config, actions: seq<Action>)
    requires OrderedRun(cfg, EMPTY, actions)
    ensures var log := Run(cfg, EMPTY, actions).log;
            Agree(log) && forall n :: 0 <= n <= |log| ==> Agree(log[..n])
  {
    assert Reduce([]).open == map[];
    assert Inv(Ordered, cfg, EMPTY);
    RunNames(cfg, EMPTY, actions);
    var log := Run(cfg, EMPTY, actions).log;
    AgreeThroughoutExactlyWhenNamed(log);
    assert log[..|log|] == log;
  }

  lemma {:induction false} MisnamedIsClean(ask: Body, answer: Body)
    requires ask.Interrupt? && answer.Resume? && ask.index == answer.index
    ensures Report([ask]) == [] && Report([ask, answer]) == []
    ensures Reduce([ask]).pending == Some(if ask.iid.Some? then ById(ask.iid.value) else ByEvent(0))
  {
    assert [] + [ask] == [ask] && [ask] + [answer] == [ask, answer];
    ReduceAppend([], ask);
    ReduceAppend([ask], answer);
  }

  lemma {:induction false} OneInterruptIsNamed(ask: Body)
    requires ask.Interrupt? && ask.iid.Some?
    ensures WellNamed([ask])
  {
    assert WellNamed([]) && FreshName([], ask.iid.value);
    WellNamedAppend([], ask);
    assert [] + [ask] == [ask];
  }

  /** A log that the reducer finds clean and whose trace it does not agree with. */
  lemma {:induction false} MisnamedResumeSplitsThem()
    ensures exists log :: Report(log) == [] && !Agree(log)
  {
    var ask, answer := Interrupt(Some("a"), Some(0), "c", "t", map[]), Resume(Some("b"), Some(0), Approve, "c");
    assert [ask] + [answer] == [ask, answer];
    MisnamedIsClean(ask, answer);
    OneInterruptIsNamed(ask);
    StillAgreeExactlyWhenNamed([ask], answer);
    assert Report([ask, answer]) == [] && !Agree([ask, answer]);
  }
}
