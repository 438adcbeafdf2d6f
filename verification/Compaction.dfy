/** Compaction: the oldest turns give way to a summary by an event at the log's end;
    the events themselves stay where they are. */
module Compaction {
  import opened Events
  import opened View

  /** The tree events of a log, each with its id. */
  function TreeItems(log: Log): seq<Item> {
    if log == [] then []
    else
      var n := |log| - 1;
      TreeItems(log[..n]) + if IsTree(log[n]) then [Item(n, log[n])] else []
  }

  /** Everything some compaction has replaced. */
  function Gone(log: Log): set<nat> {
    if log == [] then {}
    else
      var e := log[|log| - 1];
      Gone(log[..|log| - 1]) + if e.Compaction? then AsSet(e.replaced) else {}
  }

  function AsSet(ids: seq<nat>): set<nat> {
    set x | x in ids
  }

  predicate Touches(g: seq<Item>, gone: set<nat>) {
    exists k :: 0 <= k < |g| && g[k].id in gone
  }

  /** The events a view is rendered from. */
  function Without(items: seq<Item>, gone: set<nat>): seq<Item> {
    if items == [] then []
    else
      var n := |items| - 1;
      Without(items[..n], gone) + if items[n].id in gone then [] else [items[n]]
  }

  function Kept(log: Log): seq<Item> {
    Without(TreeItems(log), Gone(log))
  }

  /** Tree events by turn: an agent or user message opens the next one. */
  function Groups(log: Log): (gs: seq<seq<Item>>)
    ensures forall k :: 0 <= k < |gs| ==> gs[k] != []
    ensures forall k :: 0 < k < |gs| ==> IsBoundary(gs[k][0].body)
  {
    if log == [] then []
    else
      var n := |log| - 1;
      Joined(Groups(log[..n]), Item(n, log[n]))
  }

  function Joined(gs: seq<seq<Item>>, e: Item): seq<seq<Item>> {
    if !IsTree(e.body) then gs
    else if IsBoundary(e.body) || gs == [] then gs + [[e]]
    else gs[..|gs| - 1] + [gs[|gs| - 1] + [e]]
  }

  function Live(gs: seq<seq<Item>>, gone: set<nat>): seq<seq<Item>> {
    if gs == [] then []
    else
      var n := |gs| - 1;
      Live(gs[..n], gone) + if Touches(gs[n], gone) then [] else [gs[n]]
  }

  function Flat(gs: seq<seq<Item>>): seq<Item> {
    if gs == [] then [] else Flat(gs[..|gs| - 1]) + gs[|gs| - 1]
  }

  /** How many turns behind the first one give way. */
  function VictimCount(live: nat, keep: int): nat {
    if live <= keep + 1 || live == 0 then 0
    else if keep <= 0 then live - 1
    else live - 1 - keep
  }

  function Victims(log: Log, keep: int): (vs: seq<seq<Item>>)
  {
    var live := Live(Groups(log), Gone(log));
    var m := VictimCount(|live|, keep);
    if m == 0 then [] else live[1..1 + m]
  }

  datatype Compacted = Nothing | NoGain | Compacted(ids: seq<nat>)

  /** `before` and `after` are the token counts of what is replaced and of the summary. */
  function CompactionOf(log: Log, keep: int, before: nat, after: nat): Compacted {
    var ids := Ids(Flat(Victims(log, keep)));
    if ids == [] then Nothing
    else if after >= before then NoGain
    else Compacted(ids)
  }

  method IterGroups(log: Log) returns (gs: seq<seq<Item>>)
    ensures gs == Groups(log)
  {
    gs := [];
    for n := 0 to |log|
      invariant gs == Groups(log[..n])
    {
      assert log[..n + 1][..n] == log[..n];
      var e := log[n];
      if !IsTree(e) {
        continue;
      }
      if IsBoundary(e) || gs == [] {
        gs := gs + [[Item(n, e)]];
      } else {
        gs := gs[|gs| - 1 := gs[|gs| - 1] + [Item(n, e)]];
      }
    }
    assert log[..|log|] == log;
  }

  method AlreadyReplaced(log: Log) returns (gone: set<nat>)
    ensures gone == Gone(log)
  {
    gone := {};
    for n := 0 to |log|
      invariant gone == Gone(log[..n])
    {
      assert log[..n + 1][..n] == log[..n];
      if log[n].Compaction? {
        gone := gone + AsSet(log[n].replaced);
      }
    }
    assert log[..|log|] == log;
  }

  method Compact(log: Log, keep: int, before: nat, after: nat) returns (r: Compacted)
    ensures r == CompactionOf(log, keep, before, after)
  {
    var gone := AlreadyReplaced(log);
    var all := IterGroups(log);
    var groups: seq<seq<Item>> := [];
    for k := 0 to |all|
      invariant groups == Live(all[..k], gone)
    {
      assert all[..k + 1][..k] == all[..k];
      if !Touches(all[k], gone) {
        groups := groups + [all[k]];
      }
    }
    assert all[..|all|] == all;
    if |groups| <= keep + 1 {
      assert Victims(log, keep) == [];
      return Nothing;
    }
    var eligible := if groups == [] then [] else groups[1..];
    var count := if |eligible| - keep > 0 then |eligible| - keep else 0;
    var victims := if count < |eligible| then eligible[..count] else eligible;
    assert victims == Victims(log, keep);
    var ids := Ids(Flat(victims));
    if ids == [] {
      return Nothing;
    }
    r := if after >= before then NoGain else Compacted(ids);
  }

  // ----------------------------------------------------------------- structure

  lemma {:induction false} FlatConcat(a: seq<seq<Item>>, b: seq<seq<Item>>)
    ensures Flat(a + b) == Flat(a) + Flat(b)
  {
    if b == [] {
      assert a + b == a;
    } else {
      assert (a + b)[..|a + b| - 1] == a + b[..|b| - 1];
      FlatConcat(a, b[..|b| - 1]);
    }
  }

  lemma {:induction false} OneGroup(g: seq<Item>)
    ensures Flat([g]) == g
  {
    assert [g][..0] == [];
  }

  lemma {:induction false} JoinedFlat(gs: seq<seq<Item>>, e: Item)
    ensures Flat(Joined(gs, e)) == Flat(gs) + if IsTree(e.body) then [e] else []
  {
    if IsTree(e.body) {
      OneGroup([e]);
      FlatConcat(gs, [[e]]);
      if gs != [] {
        var n := |gs| - 1;
        OneGroup(gs[n] + [e]);
        FlatConcat(gs[..n], [gs[n] + [e]]);
      }
    }
  }

  /** The turns are the tree events, cut but not changed. */
  lemma {:induction false} GroupsAreTheTree(log: Log)
    ensures Flat(Groups(log)) == TreeItems(log)
  {
    if log != [] {
      var n := |log| - 1;
      GroupsAreTheTree(log[..n]);
      JoinedFlat(Groups(log[..n]), Item(n, log[n]));
    }
  }

  /** A group is all gone or not gone at all. */
  predicate IsWhole(g: seq<Item>, gone: set<nat>) {
    Touches(g, gone) ==> forall k :: 0 <= k < |g| ==> g[k].id in gone
  }

  lemma {:induction false} WithoutConcat(a: seq<Item>, b: seq<Item>, gone: set<nat>)
    ensures Without(a + b, gone) == Without(a, gone) + Without(b, gone)
  {
    if b == [] {
      assert a + b == a;
    } else {
      assert (a + b)[..|a + b| - 1] == a + b[..|b| - 1];
      WithoutConcat(a, b[..|b| - 1], gone);
    }
  }

  lemma {:induction false} WithoutGroup(g: seq<Item>, gone: set<nat>)
    ensures (forall k :: 0 <= k < |g| ==> g[k].id in gone) ==> Without(g, gone) == []
    ensures (forall k :: 0 <= k < |g| ==> g[k].id !in gone) ==> Without(g, gone) == g
  {
    if g != [] {
      WithoutGroup(g[..|g| - 1], gone);
      assert g == g[..|g| - 1] + [g[|g| - 1]];
    }
  }

  /** When compaction has only taken whole groups, a view shows exactly the groups left. */
  lemma {:induction false} KeptIsLive(gs: seq<seq<Item>>, gone: set<nat>)
    requires forall k :: 0 <= k < |gs| ==> IsWhole(gs[k], gone)
    ensures Without(Flat(gs), gone) == Flat(Live(gs, gone))
    decreases |gs|
  {
    if gs != [] {
      var n := |gs| - 1;
      KeptIsLive(gs[..n], gone);
      assert IsWhole(gs[n], gone);
      OneMoreGroupKept(gs, gone);
    }
  }

  lemma {:induction false} OneMoreGroupKept(gs: seq<seq<Item>>, gone: set<nat>)
    requires gs != [] && IsWhole(gs[|gs| - 1], gone)
    requires Without(Flat(gs[..|gs| - 1]), gone) == Flat(Live(gs[..|gs| - 1], gone))
    ensures Without(Flat(gs), gone) == Flat(Live(gs, gone))
  {
    var init, g := gs[..|gs| - 1], gs[|gs| - 1];
    WithoutConcat(Flat(init), g, gone);
    WithoutWhole(g, gone);
    if Touches(g, gone) {
      assert Live(gs, gone) == Live(init, gone);
    } else {
      OneGroup(g);
      FlatConcat(Live(init, gone), [g]);
    }
  }

  lemma {:induction false} WithoutWhole(g: seq<Item>, gone: set<nat>)
    requires IsWhole(g, gone)
    ensures Without(g, gone) == if Touches(g, gone) then [] else g
  {
    WithoutGroup(g, gone);
  }

  lemma {:induction false} KeptComesFrom(items: seq<Item>, gone: set<nat>)
    ensures AllTree(items) ==> AllTree(Without(items, gone))
    ensures forall c :: HasCall(Without(items, gone), c) ==> HasCall(items, c)
    ensures DistinctCalls(items) ==> DistinctCalls(Without(items, gone))
  {
    if items != [] {
      var init, e := items[..|items| - 1], items[|items| - 1];
      assert items == init + [e];
      KeptComesFrom(init, gone);
      DistinctAppend(init, e);
      DistinctAppend(Without(init, gone), e);
      forall c | HasCall(Without(items, gone), c) ensures HasCall(items, c) {
        HasCallAppend(init, e, c);
        HasCallAppend(Without(init, gone), e, c);
      }
      assert Without(init, gone) + [] == Without(init, gone);
    }
  }
}
