/** Runs as the loop drives them: it speaks only when nothing is open, starts calls
    only in the turn it has just opened, and compacts only in between. */
module LoopRuns {
  import opened Events
  import opened Tools
  import opened Reducer
  import opened ReducerSpec
  import opened Pipeline
  import opened Invariants
  import opened Footprint
  import opened Ordering
  import opened Runs
  import opened View
  import opened Compaction
  import opened Turns

  /** The newest turn was taken away by a compaction. */
  ghost predicate NewestGone(log: Log) {
    var gs := Groups(log);
    gs != [] && Touches(gs[|gs| - 1], Gone(log))
  }

  /** No call is open and no one is being asked. */
  predicate AtRest(log: Log) {
    Reduce(log).open == map[] && Reduce(log).pending.None?
  }

  predicate CompactsAs(log: Log, keep: int, e: Body)
    requires e.Compaction?
  {
    e.replaced == Ids(Flat(Victims(log, keep)))
  }

  ghost predicate LoopAllowed(cfg: Config, keep: int, d: Durable, a: Action) {
    && OrderAllowed(cfg, d, a)
    && match a
       case Execute(req, _, _) =>
         req.call in Reduce(d.log).closed || req.call in Reduce(d.log).open || !NewestGone(d.log)
       case Decide(_, _) => true
       case Note(e) =>
         && (IsBoundary(e) || e.Compaction? ==> AtRest(d.log))
         && (e.Compaction? ==> CompactsAs(d.log, keep, e))
  }

  ghost predicate LoopRun(cfg: Config, keep: int, d: Durable, actions: seq<Action>)
    decreases |actions|
  {
    actions != [] ==>
      LoopAllowed(cfg, keep, d, actions[0]) && LoopRun(cfg, keep, Act(cfg, d, actions[0]), actions[1..])
  }

  /** What the loop keeps about turns. */
  ghost predicate TurnsKept(log: Log) {
    && TurnsEndClosed(log)
    && WholeTurnsGone(log)
    && (NewestGone(log) ==> AtRest(log))
    && (forall x :: x in Gone(log) ==> x < |log|)
  }

  // ------------------------------------------------------------ one more event

  lemma {:induction false} GroupsAppend(log: Log, e: Body)
    ensures Groups(log + [e]) == Joined(Groups(log), Item(|log|, e))
    ensures Gone(log + [e]) == Gone(log) + if e.Compaction? then AsSet(e.replaced) else {}
  {
    assert (log + [e])[..|log|] == log;
  }

  lemma {:induction false} NewIdNotGone(log: Log, e: Body)
    requires forall x :: x in Gone(log) ==> x < |log|
    ensures !Touches([Item(|log|, e)], Gone(log))
  {}

  /** An event outside the tree, no compaction: nothing moves. */
  lemma {:induction false} ArtifactKeeps(log: Log, e: Body)
    requires TurnsKept(log) && !IsTree(e) && !e.Compaction?
    ensures TurnsKept(log + [e]) && (NewestGone(log + [e]) <==> NewestGone(log))
  {
    GroupsAppend(log, e);
    TurnsAppend(log, e);
    ReduceAppend(log, e);
  }

  /** A message opens a new turn, which is not gone. */
  lemma {:induction false} BoundaryKeeps(log: Log, e: Body)
    requires TurnsKept(log) && IsBoundary(e) && Reduce(log).open == map[]
    ensures TurnsKept(log + [e]) && !NewestGone(log + [e])
  {
    var gs, gone := Groups(log), Gone(log);
    GroupsAppend(log, e);
    TurnsAppend(log, e);
    NewIdNotGone(log, e);
    var more := gs + [[Item(|log|, e)]];
    assert Groups(log + [e]) == more && Gone(log + [e]) == gone;
    forall k | 0 <= k < |more| ensures IsWhole(more[k], gone) {
      assert k < |gs| ==> more[k] == gs[k] && IsWhole(gs[k], gone);
    }
    assert !Touches(more[0], gone);
  }

  lemma {:induction false} GrownGroup(g: seq<Item>, e: Item, gone: set<nat>)
    requires !Touches(g, gone) && e.id !in gone
    ensures !Touches(g + [e], gone)
  {
    forall k | 0 <= k < |g + [e]| ensures (g + [e])[k].id !in gone {}
  }

  /** Anything else joins the newest turn, which must still be there. */
  lemma {:induction false} JoiningKeeps(log: Log, e: Body)
    requires TurnsKept(log) && IsTree(e) && !IsBoundary(e) && !NewestGone(log)
    ensures TurnsKept(log + [e]) && !NewestGone(log + [e])
  {
    var gs, gone, item := Groups(log), Gone(log), Item(|log|, e);
    GroupsAppend(log, e);
    TurnsAppend(log, e);
    NewIdNotGone(log, e);
    var more := Joined(gs, item);
    assert Groups(log + [e]) == more && Gone(log + [e]) == gone;
    if gs != [] {
      GrownGroup(gs[|gs| - 1], item, gone);
    }
    assert !Touches(more[|more| - 1], gone);
    forall k | 0 <= k < |more| ensures IsWhole(more[k], gone) {
      assert k < |more| - 1 ==> more[k] == gs[k] && IsWhole(gs[k], gone);
    }
    assert !Touches(more[0], gone);
  }

  // ------------------------------------------------------------- a compaction

  lemma {:induction false} IdsHold(items: seq<Item>)
    ensures forall x :: x in Ids(items) <==> exists k :: 0 <= k < |items| && items[k].id == x
  {
    if items != [] {
      var n := |items| - 1;
      IdsHold(items[..n]);
      assert items == items[..n] + [items[n]];
      forall x ensures x in Ids(items) <==> exists k :: 0 <= k < |items| && items[k].id == x {
        if x in Ids(items[..n]) {
          var k :| 0 <= k < n && items[..n][k].id == x;
          assert items[k].id == x;
        }
        if exists k :: 0 <= k < |items| && items[k].id == x {
          var k :| 0 <= k < |items| && items[k].id == x;
          assert k < n ==> items[..n][k].id == x;
        }
      }
    }
  }

  predicate InGroup(g: seq<Item>, x: nat) {
    exists k :: 0 <= k < |g| && g[k].id == x
  }

  lemma {:induction false} FlatIds(gs: seq<seq<Item>>)
    ensures forall x :: x in Ids(Flat(gs)) <==> exists a :: 0 <= a < |gs| && InGroup(gs[a], x)
  {
    if gs != [] {
      var n := |gs| - 1;
      FlatIds(gs[..n]);
      IdsConcat(Flat(gs[..n]), gs[n]);
      IdsHold(gs[n]);
      forall x ensures x in Ids(Flat(gs)) <==> exists a :: 0 <= a < |gs| && InGroup(gs[a], x) {
        if x in Ids(Flat(gs[..n])) {
          var a :| 0 <= a < n && InGroup(gs[..n][a], x);
          assert InGroup(gs[a], x);
        }
        if exists a :: 0 <= a < |gs| && InGroup(gs[a], x) {
          var a :| 0 <= a < |gs| && InGroup(gs[a], x);
          assert a < n ==> InGroup(gs[..n][a], x);
        }
      }
    }
  }

  /** A victim is a group of the log other than the first, and was not gone before. */
  lemma {:induction false} VictimIsAGroup(log: Log, keep: int, j: nat)
    requires j < |Victims(log, keep)|
    ensures exists k :: 0 < k < |Groups(log)| && Groups(log)[k] == Victims(log, keep)[j]
                        && !Touches(Groups(log)[k], Gone(log))
  {
    var live := Live(Groups(log), Gone(log));
    assert Victims(log, keep)[j] == live[j + 1];
    LiveIsThere(Groups(log), Gone(log), j + 1);
  }

  /** Of each group, a compaction takes all or nothing. */
  lemma {:induction false} VictimsAreWhole(log: Log, keep: int, k: nat, x: nat)
    requires k < |Groups(log)| && x < |Groups(log)[k]|
    requires Groups(log)[k][x].id in Ids(Flat(Victims(log, keep)))
    ensures k > 0 && !Touches(Groups(log)[k], Gone(log))
    ensures forall y :: 0 <= y < |Groups(log)[k]| ==> Groups(log)[k][y].id in Ids(Flat(Victims(log, keep)))
  {
    var gs: seq<seq<Item>>, vs: seq<seq<Item>> := Groups(log), Victims(log, keep);
    var id := gs[k][x].id;
    FlatIds(vs);
    var j :| 0 <= j < |vs| && InGroup(vs[j], id);
    VictimIsAGroup(log, keep, j);
    var i :| 0 < i < |gs| && gs[i] == vs[j] && !Touches(gs[i], Gone(log));
    GroupIds(log);
    SameGroup(gs, k, x, i);
    forall y | 0 <= y < |gs[k]| ensures gs[k][y].id in Ids(Flat(vs)) {
      assert InGroup(vs[j], gs[k][y].id);
    }
  }

  lemma {:induction false} SameGroup(gs: seq<seq<Item>>, k: nat, x: nat, i: nat)
    requires OnePlaceEach(gs) && k < |gs| && x < |gs[k]| && i < |gs| && InGroup(gs[i], gs[k][x].id)
    ensures i == k
  {}

  /** MAIN: what a compaction takes is whole turns, never the first, and nothing that
      was taken before. */
  lemma {:induction false} VictimsAreFreshWholeTurns(log: Log, keep: int)
    ensures forall id :: id in Ids(Flat(Victims(log, keep))) ==> id !in Gone(log) && id < |log|
    ensures forall k :: 0 <= k < |Groups(log)| ==>
              IsWhole(Groups(log)[k], AsSet(Ids(Flat(Victims(log, keep)))))
    ensures Groups(log) != [] ==> !Touches(Groups(log)[0], AsSet(Ids(Flat(Victims(log, keep)))))
  {
    var gs, vs := Groups(log), Victims(log, keep);
    var ids := Ids(Flat(vs));
    FlatIds(vs);
    GroupIds(log);
    forall id | id in ids ensures id !in Gone(log) && id < |log| {
      var j :| 0 <= j < |vs| && InGroup(vs[j], id);
      VictimIsAGroup(log, keep, j);
      var i :| 0 < i < |gs| && gs[i] == vs[j] && !Touches(gs[i], Gone(log));
      var y :| 0 <= y < |gs[i]| && gs[i][y].id == id;
    }
    forall k | 0 <= k < |gs| && Touches(gs[k], AsSet(ids))
      ensures k > 0 && IsWhole(gs[k], AsSet(ids))
    {
      var x :| 0 <= x < |gs[k]| && gs[k][x].id in AsSet(ids);
      VictimsAreWhole(log, keep, k, x);
    }
  }

  lemma {:induction false} WholeUnion(g: seq<Item>, a: set<nat>, b: set<nat>)
    requires IsWhole(g, a) && IsWhole(g, b)
    ensures IsWhole(g, a + b)
    ensures Touches(g, a + b) <==> Touches(g, a) || Touches(g, b)
  {
    if Touches(g, a + b) {
      var k :| 0 <= k < |g| && g[k].id in a + b;
      assert g[k].id in a || g[k].id in b;
    }
  }

  lemma {:induction false} CompactionKeeps(log: Log, keep: int, e: Body)
    requires TurnsKept(log) && e.Compaction? && CompactsAs(log, keep, e) && AtRest(log)
    ensures TurnsKept(log + [e])
  {
    var gs, gone, ids := Groups(log), Gone(log), AsSet(e.replaced);
    GroupsAppend(log, e);
    TurnsAppend(log, e);
    ReduceAppend(log, e);
    VictimsAreFreshWholeTurns(log, keep);
    forall k | 0 <= k < |gs| ensures IsWhole(gs[k], gone + ids) {
      WholeUnion(gs[k], gone, ids);
    }
    if gs != [] {
      WholeUnion(gs[0], gone, ids);
    }
  }

  // ------------------------------------------------------------------ no-op

  lemma {:induction false} LiveConcat(a: seq<seq<Item>>, b: seq<seq<Item>>, gone: set<nat>)
    ensures Live(a + b, gone) == Live(a, gone) + Live(b, gone)
  {
    if b == [] {
      assert a + b == a;
    } else {
      assert (a + b)[..|a + b| - 1] == a + b[..|b| - 1];
      LiveConcat(a, b[..|b| - 1], gone);
    }
  }

  /** Dropping some groups from the live ones is what a larger `gone` does. */
  lemma {:induction false} LiveTwice(gs: seq<seq<Item>>, gone: set<nat>, more: set<nat>)
    requires forall k :: 0 <= k < |gs| ==> IsWhole(gs[k], gone) && IsWhole(gs[k], more)
    ensures Live(gs, gone + more) == Live(Live(gs, gone), more)
  {
    if gs != [] {
      var n := |gs| - 1;
      LiveTwice(gs[..n], gone, more);
      WholeUnion(gs[n], gone, more);
      LiveConcat(Live(gs[..n], gone), if Touches(gs[n], gone) then [] else [gs[n]], more);
      assert [gs[n]][..0] == [];
    }
  }

  lemma {:induction false} LiveNone(gs: seq<seq<Item>>, gone: set<nat>)
    requires forall k :: 0 <= k < |gs| ==> Touches(gs[k], gone)
    ensures Live(gs, gone) == []
  {
    if gs != [] {
      LiveNone(gs[..|gs| - 1], gone);
    }
  }

  lemma {:induction false} LiveAtMost(gs: seq<seq<Item>>, gone: set<nat>, m: nat)
    requires m < |gs| && forall k :: 1 <= k < 1 + m ==> Touches(gs[k], gone)
    ensures |Live(gs, gone)| <= |gs| - m
  {
    var taken := gs[1..1 + m];
    assert gs == [gs[0]] + (taken + gs[1 + m..]);
    LiveConcat([gs[0]], taken + gs[1 + m..], gone);
    LiveConcat(taken, gs[1 + m..], gone);
    assert forall k :: 0 <= k < |taken| ==> taken[k] == gs[1 + k];
    LiveNone(taken, gone);
    LiveIsShort([gs[0]], gone);
    LiveIsShort(gs[1 + m..], gone);
  }

  /** What was live before a compaction and is not the first turn or one that it took. */
  lemma {:induction false} TakenAreTouched(log: Log, keep: int, ids: set<nat>)
    requires ids == AsSet(Ids(Flat(Victims(log, keep))))
    ensures var live, m := Live(Groups(log), Gone(log)), |Victims(log, keep)|;
            (m > 0 ==> m < |live|) && forall k :: 1 <= k < 1 + m ==> Touches(live[k], ids)
  {
    var live, vs := Live(Groups(log), Gone(log)), Victims(log, keep);
    FlatIds(vs);
    LiveOpens(Groups(log), Gone(log));
    forall k | 1 <= k < 1 + |vs| ensures Touches(live[k], ids) {
      assert live[k] == vs[k - 1] && live[k] != [];
      assert InGroup(vs[k - 1], vs[k - 1][0].id);
      assert live[k][0].id in ids;
    }
  }

  /** How many turns are live behind a compaction. */
  lemma {:induction false} LiveBehind(log: Log, keep: int, e: Body)
    requires WholeTurnsGone(log) && e.Compaction? && CompactsAs(log, keep, e)
    ensures |Live(Groups(log + [e]), Gone(log + [e]))| <= |Live(Groups(log), Gone(log))| - |Victims(log, keep)|
  {
    var gs, gone, ids := Groups(log), Gone(log), AsSet(e.replaced);
    var live, m := Live(gs, gone), |Victims(log, keep)|;
    GroupsAppend(log, e);
    VictimsAreFreshWholeTurns(log, keep);
    LiveTwice(gs, gone, ids);
    TakenAreTouched(log, keep, ids);
    if m > 0 {
      LiveAtMost(live, ids, m);
    } else {
      LiveIsShort(live, ids);
    }
  }

  /** MAIN: compacting again without a new turn finds nothing to do. */
  lemma {:induction false} CompactingTwiceIsOnce(log: Log, keep: int, e: Body, before: nat, after: nat)
    requires WholeTurnsGone(log) && e.Compaction? && CompactsAs(log, keep, e)
    ensures CompactionOf(log + [e], keep, before, after).Nothing?
  {
    LiveBehind(log, keep, e);
    assert Victims(log + [e], keep) == [];
  }

  lemma {:induction false} NothingTaken(live: seq<seq<Item>>)
    ensures Live(live, {}) == live
    decreases |live|
  {
    if live != [] {
      NothingTaken(live[..|live| - 1]);
      assert !Touches(live[|live| - 1], {});
    }
  }

  // --------------------------------------------------------------- whole runs

  /** The pipeline itself neither speaks nor compacts. */
  predicate NoTurnEventsIn(cs: seq<Commit>) {
    forall i :: 0 <= i < |cs| && cs[i].Append? ==> !IsBoundary(cs[i].event) && !cs[i].event.Compaction?
  }

  lemma {:induction false} PipelineWritesNoTurns(cfg: Config, d: Durable, a: Action)
    requires !a.Note?
    ensures NoTurnEventsIn(CommitsOf(cfg, d, a))
  {
    if a.Execute? {
      ACallWritesOnlyItsOwn(cfg, d, a.req, a.env);
      var cs := CommitsOf(cfg, d, a);
      forall i | 0 <= i < |cs| && cs[i].Append? ensures !IsBoundary(cs[i].event) && !cs[i].event.Compaction? {
        assert IsOwn(cfg, a.req, a.env, cs[i]);
      }
    }
  }

  lemma {:induction false} CommitsKeepTurns(d: Durable, cs: seq<Commit>)
    requires TurnsKept(d.log) && !NewestGone(d.log) && NoTurnEventsIn(cs)
    ensures TurnsKept(ApplyAll(d, cs).log) && !NewestGone(ApplyAll(d, cs).log)
    decreases |cs|
  {
    if cs != [] {
      if cs[0].Append? {
        if IsTree(cs[0].event) {
          JoiningKeeps(d.log, cs[0].event);
        } else {
          ArtifactKeeps(d.log, cs[0].event);
        }
      }
      CommitsKeepTurns(Apply(d, cs[0]), cs[1..]);
    }
  }

  /** When the newest turn is gone the pipeline has nothing to do. */
  lemma {:induction false} RestingMeansIdle(cfg: Config, keep: int, d: Durable, a: Action)
    requires TurnsKept(d.log) && NewestGone(d.log) && LoopAllowed(cfg, keep, d, a) && !a.Note?
    ensures CommitsOf(cfg, d, a) == []
  {}

  lemma {:induction false} ActKeepsTurns(cfg: Config, keep: int, d: Durable, a: Action)
    requires TurnsKept(d.log) && LoopAllowed(cfg, keep, d, a)
    ensures TurnsKept(Act(cfg, d, a).log)
  {
    if a.Note? {
      ApplyOne(d, Append(a.event));
      if IsBoundary(a.event) {
        BoundaryKeeps(d.log, a.event);
      } else if a.event.Compaction? {
        CompactionKeeps(d.log, keep, a.event);
      } else {
        ArtifactKeeps(d.log, a.event);
      }
    } else if NewestGone(d.log) {
      RestingMeansIdle(cfg, keep, d, a);
    } else {
      PipelineWritesNoTurns(cfg, d, a);
      CommitsKeepTurns(d, Cut(CommitsOf(cfg, d, a), a.cut));
    }
  }

  lemma {:induction false} LoopRunKeeps(cfg: Config, keep: int, d: Durable, actions: seq<Action>)
    requires Inv(Ordered, cfg, d) && TurnsKept(d.log) && LoopRun(cfg, keep, d, actions)
    ensures Inv(Ordered, cfg, Run(cfg, d, actions)) && TurnsKept(Run(cfg, d, actions).log)
    decreases |actions|
  {
    if actions != [] {
      ActKeepsOrdered(cfg, d, actions[0]);
      ActKeepsTurns(cfg, keep, d, actions[0]);
      LoopRunKeeps(cfg, keep, Act(cfg, d, actions[0]), actions[1..]);
    }
  }

  /** MAIN: over any run of the loop, with any number of compactions, decisions and
      kills, compactions have taken whole turns and never the first; and whenever no
      call is open, the view is faultless and shows every event that was not
      replaced exactly once. */
  lemma {:induction false} EveryLoopViewIsFaultless(cfg: Config, keep: int, actions: seq<Action>)
    requires LoopRun(cfg, keep, EMPTY, actions)
    ensures var log := Run(cfg, EMPTY, actions).log;
            && WholeTurnsGone(log)
            && (Reduce(log).open == map[] ==>
                  && Rendered(Kept(log)).faults == []
                  && multiset(BlockIds(Rendered(Kept(log)).blocks)) == multiset(Ids(Kept(log))))
  {
    EmptyKeeps(cfg);
    LoopRunKeeps(cfg, keep, EMPTY, actions);
    var log := Run(cfg, EMPTY, actions).log;
    ReportsExactlyTheIllFormed(log);
    CleanIffOrderly(log);
    if Reduce(log).open == map[] {
      ViewIsFaultless(log);
      KeptAreDistinct(log);
      RenderingConservesEvents(Kept(log));
      assert multiset(Rendered(Kept(log)).dropped) == multiset{};
    }
  }

  lemma {:induction false} EmptyKeeps(cfg: Config)
    ensures Inv(Ordered, cfg, EMPTY) && TurnsKept([])
  {
    assert Reduce([]).open == map[];
  }

  lemma {:induction false} TreeCallsAreCalled(log: Log, c: string)
    requires Clean(log) && HasCall(TreeItems(log), c)
    ensures c in Reduce(log).open || c in Reduce(log).closed
  {
    var n := |log| - 1;
    var init, e := log[..n], log[n];
    assert log == init + [e];
    ReduceAppend(init, e);
    TreeItemsAppend(init, e);
    if IsTree(e) {
      HasCallAppend(TreeItems(init), Item(n, e), c);
    }
    if HasCall(TreeItems(init), c) {
      TreeCallsAreCalled(init, c);
    }
  }

  lemma {:induction false} TreeCallsAreDistinct(log: Log)
    requires Clean(log)
    ensures DistinctCalls(TreeItems(log)) && AllTree(TreeItems(log))
  {
    if log != [] {
      var n := |log| - 1;
      var init, e := log[..n], log[n];
      assert log == init + [e];
      ReduceAppend(init, e);
      TreeItemsAppend(init, e);
      TreeCallsAreDistinct(init);
      if IsTree(e) {
        DistinctAppend(TreeItems(init), Item(n, e));
        if e.ToolCall? && HasCall(TreeItems(init), CallText(e)) {
          TreeCallsAreCalled(init, CallText(e));
        }
      }
    }
  }

  lemma {:induction false} KeptAreDistinct(log: Log)
    requires Clean(log)
    ensures DistinctCalls(Kept(log)) && AllTree(Kept(log))
  {
    TreeCallsAreDistinct(log);
    KeptComesFrom(TreeItems(log), Gone(log));
  }
}
