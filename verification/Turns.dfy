/** The views the loop builds: in a log whose turns end with every call answered, a
    view is faultless, and stays so when compaction takes whole turns away. */
module Turns {
  import opened Events
  import opened Reducer
  import opened ReducerSpec
  import opened View
  import opened Compaction

  /** Whoever speaks next finds every call answered. */
  ghost predicate TurnsEndClosed(log: Log) {
    forall i :: 0 <= i < |log| && IsBoundary(log[i]) ==> Reduce(log[..i]).open == map[]
  }

  lemma {:induction false} TurnsAppend(log: Log, e: Body)
    ensures TurnsEndClosed(log + [e]) <==>
            TurnsEndClosed(log) && (IsBoundary(e) ==> Reduce(log).open == map[])
  {
    var more, n := log + [e], |log|;
    assert more[n] == e && more[..n] == log;
    forall i | 0 <= i < n ensures more[i] == log[i] && more[..i] == log[..i] {}
    if TurnsEndClosed(more) && IsBoundary(e) {
      assert Reduce(more[..n]).open == map[];
    }
  }

  /** How the renderer's open batch mirrors the reducer's open calls. */
  ghost predicate Mirrors(s: State, d: Draft)
    requires AreCalls(d.batch)
  {
    && d.faults == []
    && (forall c :: c in s.open ==> InBatch(d.batch, c) && c !in d.results)
    && (forall c :: c in d.results ==> c in s.closed)
    && (forall k :: 0 <= k < |d.batch| ==>
          CallText(d.batch[k].body) in s.open || CallText(d.batch[k].body) in d.results)
  }

  lemma {:induction false} CallJoins(s: State, d: Draft, e: Item, t: State)
    requires AreCalls(d.batch) && Mirrors(s, d) && e.body.ToolCall? && e.body.call.Some?
    requires e.body.call.value !in s.open && e.body.call.value !in s.closed
    requires t.closed == s.closed && t.open.Keys == s.open.Keys + {e.body.call.value}
    ensures Mirrors(t, Advance(d, e))
  {
    var r := Advance(d, e);
    forall c | c in t.open ensures InBatch(r.batch, c) && c !in r.results {
      if c == e.body.call.value {
        assert CallText(r.batch[|d.batch|].body) == c;
      } else {
        var k :| 0 <= k < |d.batch| && CallText(d.batch[k].body) == c;
        assert r.batch[k] == d.batch[k];
      }
    }
  }

  lemma {:induction false} ResultJoins(s: State, d: Draft, e: Item, t: State)
    requires AreCalls(d.batch) && Mirrors(s, d) && e.body.ToolResult? && e.body.call.Some?
    requires e.body.call.value in s.open
    requires t.closed == s.closed + [e.body.call.value] && t.open == s.open - {e.body.call.value}
    ensures Mirrors(t, Advance(d, e))
  {}

  lemma {:induction false} TurnCloses(s: State, d: Draft, e: Item)
    requires AreCalls(d.batch) && Mirrors(s, d) && IsBoundary(e.body) && s.open == map[]
    requires d.batch == [] ==> d.results == map[]
    ensures Mirrors(s, Advance(d, e))
  {
    assert Complete(d.batch, d.results);
  }

  lemma {:induction false} TreeStepMirrors(s: State, d: Draft, e: Item, t: State)
    requires AreCalls(d.batch) && Mirrors(s, d) && (d.batch == [] ==> d.results == map[])
    requires IsTree(e.body) && t == Step(s, e.body, e.id) && t.violations == [] && s.violations == []
    requires IsBoundary(e.body) ==> s.open == map[]
    ensures Mirrors(t, Advance(d, e))
  {
    if e.body.ToolCall? {
      CallJoins(s, d, e, t);
    } else if e.body.ToolResult? {
      ResultJoins(s, d, e, t);
    } else if IsBoundary(e.body) {
      TurnCloses(s, d, e);
    }
  }

  lemma {:induction false} StepMirrors(log: Log, e: Body)
    requires Clean(log + [e]) && Clean(log) && Mirrors(Reduce(log), Sketch(TreeItems(log)))
    requires IsBoundary(e) ==> Reduce(log).open == map[]
    ensures Mirrors(Reduce(log + [e]), Sketch(TreeItems(log + [e])))
  {
    ReduceAppend(log, e);
    TreeItemsAppend(log, e);
    if IsTree(e) {
      SketchAppend(TreeItems(log), Item(|log|, e));
      NoBatchNoResults(TreeItems(log));
      TreeStepMirrors(Reduce(log), Sketch(TreeItems(log)), Item(|log|, e), Reduce(log + [e]));
    }
  }

  lemma {:induction false} TreeItemsAppend(log: Log, e: Body)
    ensures TreeItems(log + [e]) ==
            if IsTree(e) then TreeItems(log) + [Item(|log|, e)] else TreeItems(log)
  {
    assert (log + [e])[..|log|] == log;
  }

  /** Reading a clean log whose turns end closed, the renderer meets no fault. */
  lemma {:induction false} ClosedTurnsMirror(log: Log)
    requires Clean(log) && TurnsEndClosed(log)
    ensures Mirrors(Reduce(log), Sketch(TreeItems(log)))
  {
    if log != [] {
      var init, e := log[..|log| - 1], log[|log| - 1];
      assert log == init + [e];
      ReduceAppend(init, e);
      TurnsAppend(init, e);
      ClosedTurnsMirror(init);
      StepMirrors(init, e);
    }
  }

  lemma {:induction false} ClosedTurnsRender(log: Log)
    requires Clean(log) && TurnsEndClosed(log) && Reduce(log).open == map[]
    ensures Rendered(TreeItems(log)).faults == []
  {
    ClosedTurnsMirror(log);
    var d := Sketch(TreeItems(log));
    assert Complete(d.batch, d.results);
  }

  // ------------------------------------------------------- groups render alone

  ghost predicate Faultless(items: seq<Item>) {
    Rendered(items).faults == []
  }

  ghost predicate Opens(gs: seq<seq<Item>>) {
    && (forall k :: 0 <= k < |gs| ==> gs[k] != [])
    && (forall k :: 0 < k < |gs| ==> IsBoundary(gs[k][0].body))
  }

  lemma {:induction false} RenderLast(gs: seq<seq<Item>>)
    requires gs != [] && Opens(gs)
    ensures var n := |gs| - 1;
            Faultless(Flat(gs)) <==> Faultless(Flat(gs[..n])) && Faultless(gs[n])
  {
    var n := |gs| - 1;
    if n == 0 {
      assert gs == [gs[0]];
      OneGroup(gs[0]);
    } else {
      RenderingIsIncremental(Flat(gs[..n]), gs[n]);
    }
  }

  ghost predicate EachFaultless(gs: seq<seq<Item>>) {
    forall k :: 0 <= k < |gs| ==> Faultless(gs[k])
  }

  lemma {:induction false} EachSplits(gs: seq<seq<Item>>)
    requires gs != []
    ensures var n := |gs| - 1; EachFaultless(gs) <==> EachFaultless(gs[..n]) && Faultless(gs[n])
  {
    var n := |gs| - 1;
    assert forall k :: 0 <= k < n ==> gs[..n][k] == gs[k];
    if EachFaultless(gs[..n]) && Faultless(gs[n]) {
      forall k | 0 <= k < |gs| ensures Faultless(gs[k]) {
        assert k < n ==> Faultless(gs[..n][k]);
      }
    }
  }

  /** A list of turns is faultless exactly when each turn is. */
  lemma {:induction false} FaultlessByGroup(gs: seq<seq<Item>>)
    requires Opens(gs)
    ensures Faultless(Flat(gs)) <==> EachFaultless(gs)
  {
    if gs != [] {
      RenderLast(gs);
      FaultlessByGroup(gs[..|gs| - 1]);
      EachSplits(gs);
    }
  }

  /** A live group is one of the groups, no earlier than its own place. */
  lemma {:induction false} LiveIsThere(gs: seq<seq<Item>>, gone: set<nat>, j: nat)
    requires j < |Live(gs, gone)|
    ensures exists k :: j <= k < |gs| && gs[k] == Live(gs, gone)[j] && !Touches(gs[k], gone)
  {
    var n := |gs| - 1;
    LiveIsShort(gs[..n], gone);
    if j < |Live(gs[..n], gone)| {
      LiveIsThere(gs[..n], gone, j);
      var k :| j <= k < n && gs[..n][k] == Live(gs[..n], gone)[j] && !Touches(gs[..n][k], gone);
      assert gs[k] == Live(gs, gone)[j];
    } else {
      assert gs[n] == Live(gs, gone)[j];
    }
  }

  lemma {:induction false} LiveIsShort(gs: seq<seq<Item>>, gone: set<nat>)
    ensures |Live(gs, gone)| <= |gs|
  {
    if gs != [] {
      LiveIsShort(gs[..|gs| - 1], gone);
    }
  }

  lemma {:induction false} LiveOpens(gs: seq<seq<Item>>, gone: set<nat>)
    requires Opens(gs)
    ensures Opens(Live(gs, gone))
  {
    forall j | 0 <= j < |Live(gs, gone)|
      ensures Live(gs, gone)[j] != [] && (j > 0 ==> IsBoundary(Live(gs, gone)[j][0].body))
    {
      LiveIsThere(gs, gone, j);
    }
  }

  /** Compaction has taken whole turns, and never the first. */
  ghost predicate WholeTurnsGone(log: Log) {
    && (forall k :: 0 <= k < |Groups(log)| ==> IsWhole(Groups(log)[k], Gone(log)))
    && (Groups(log) != [] ==> !Touches(Groups(log)[0], Gone(log)))
  }

  /** MAIN: a view of a clean log with every call answered, compacted or not, has no
      fault and drops nothing: each event that was not replaced is in exactly one block. */
  lemma {:induction false} ViewIsFaultless(log: Log)
    requires Clean(log) && TurnsEndClosed(log) && WholeTurnsGone(log) && Reduce(log).open == map[]
    ensures Rendered(Kept(log)).faults == [] && Rendered(Kept(log)).dropped == []
  {
    var gs, gone := Groups(log), Gone(log);
    ClosedTurnsRender(log);
    GroupsAreTheTree(log);
    FaultlessByGroup(gs);
    LiveOpens(gs, gone);
    FaultlessByGroup(Live(gs, gone));
    forall j | 0 <= j < |Live(gs, gone)| ensures Faultless(Live(gs, gone)[j]) {
      LiveIsThere(gs, gone, j);
    }
    KeptIsLive(gs, gone);
    NoFaultNothingDropped(Kept(log));
  }

  // --------------------------------------------------------- ids of groups

  /** Ids grow along the log, so no id is in two places. */
  ghost predicate IdsBelow(gs: seq<seq<Item>>, n: nat) {
    forall a, x :: 0 <= a < |gs| && 0 <= x < |gs[a]| ==> gs[a][x].id < n
  }

  ghost predicate OnePlaceEach(gs: seq<seq<Item>>) {
    forall a, x, b, y ::
      (0 <= a < |gs| && 0 <= x < |gs[a]| && 0 <= b < |gs| && 0 <= y < |gs[b]| && gs[a][x].id == gs[b][y].id) ==>
        a == b && x == y
  }

  lemma {:induction false} JoinedIds(gs: seq<seq<Item>>, e: Item)
    requires IdsBelow(gs, e.id) && OnePlaceEach(gs)
    ensures IdsBelow(Joined(gs, e), e.id + 1) && OnePlaceEach(Joined(gs, e))
  {
    var r := Joined(gs, e);
    forall a, x | 0 <= a < |r| && 0 <= x < |r[a]|
      ensures if a < |gs| && x < |gs[a]| then r[a][x] == gs[a][x] && r[a][x].id < e.id
              else a == |r| - 1 && x == |r[a]| - 1 && r[a][x] == e
    {}
  }

  lemma {:induction false} GroupIds(log: Log)
    ensures IdsBelow(Groups(log), |log|) && OnePlaceEach(Groups(log))
  {
    if log != [] {
      var n := |log| - 1;
      GroupIds(log[..n]);
      JoinedIds(Groups(log[..n]), Item(n, log[n]));
    }
  }
}
