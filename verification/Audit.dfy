/** The offline audit: every branch that holds events is checked against the chain
    it continues, parents before children. */
module Audit {
  import opened Events
  import opened Chain
  import opened Store
  import opened Branching

  datatype Finding = ForkWithoutHash(branch: string) | ChainBreak(branch: string, found: Break)

  /** Branch ids in the order the event table first names them. */
  function Named(events: seq<Event>): seq<string> {
    if events == [] then []
    else
      var n := |events| - 1;
      var before := Named(events[..n]);
      if events[n].record.branch in before then before else before + [events[n].record.branch]
  }

  /** Steps up to the root; a branch met twice counts as 99. */
  function DepthBelow(branches: seq<Branch>, id: string, seen: set<string>): nat
    decreases Ids(branches) - seen
  {
    var row := BranchAt(branches, id);
    if row.None? then 0
    else if id in seen then 99
    else if branches[row.value].fork.None? then 0
    else
      assert id in Ids(branches) - seen;
      DepthBelow(branches, branches[row.value].fork.value.parent, seen + {id}) + 1
  }

  function InsertByDepth(branches: seq<Branch>, ids: seq<string>, id: string): seq<string> {
    if ids == [] || DepthBelow(branches, ids[|ids| - 1], {}) <= DepthBelow(branches, id, {}) then ids + [id]
    else InsertByDepth(branches, ids[..|ids| - 1], id) + [ids[|ids| - 1]]
  }

  function SortedByDepth(branches: seq<Branch>, ids: seq<string>): seq<string> {
    if ids == [] then []
    else InsertByDepth(branches, SortedByDepth(branches, ids[..|ids| - 1]), ids[|ids| - 1])
  }

  /** The hash a branch's first event must point at; `None` if its fork point has none. */
  function StartOf(db: Db, branch: string): Option<Hash> {
    var row := BranchAt(db.branches, branch);
    if row.None? || db.branches[row.value].fork.None? then Some(Genesis)
    else
      var at := Seek(db.events, db.branches[row.value].fork.value.event);
      if at.None? || db.events[at.value].hash == NoHash then None else Some(db.events[at.value].hash)
  }

  function Placed(branch: string, breaks: seq<Break>): seq<Finding> {
    if breaks == [] then []
    else Placed(branch, breaks[..|breaks| - 1]) + [ChainBreak(branch, breaks[|breaks| - 1])]
  }

  function AuditBranch(db: Db, branch: string): seq<Finding> {
    var start := StartOf(db, branch);
    (if start.None? then [ForkWithoutHash(branch)] else [])
    + Placed(branch, Verify(Own(db.events, branch), start))
  }

  function AuditEach(db: Db, ids: seq<string>): seq<Finding> {
    if ids == [] then []
    else AuditEach(db, ids[..|ids| - 1]) + AuditBranch(db, ids[|ids| - 1])
  }

  function AuditAll(db: Db): seq<Finding> {
    AuditEach(db, SortedByDepth(db.branches, Named(db.events)))
  }

  method NamedBranches(events: seq<Event>) returns (names: seq<string>)
    ensures names == Named(events)
  {
    names := [];
    for k := 0 to |events|
      invariant names == Named(events[..k])
    {
      assert events[..k + 1][..k] == events[..k];
      if events[k].record.branch !in names {
        names := names + [events[k].record.branch];
      }
    }
    assert events[..|events|] == events;
  }

  method CheckBranch(db: Db, branch: string) returns (findings: seq<Finding>)
    ensures findings == AuditBranch(db, branch)
  {
    var start := StartOf(db, branch);
    var breaks := VerifyChain(Own(db.events, branch), start);
    var placed: seq<Finding> := [];
    for j := 0 to |breaks|
      invariant placed == Placed(branch, breaks[..j])
    {
      assert breaks[..j + 1][..j] == breaks[..j];
      placed := placed + [ChainBreak(branch, breaks[j])];
    }
    assert breaks[..|breaks|] == breaks;
    findings := (if start.None? then [ForkWithoutHash(branch)] else []) + placed;
  }

  method RunAudit(db: Db) returns (findings: seq<Finding>)
    ensures findings == AuditAll(db)
  {
    var names := NamedBranches(db.events);
    var order := SortedByDepth(db.branches, names);
    findings := [];
    for k := 0 to |order|
      invariant findings == AuditEach(db, order[..k])
    {
      OneMoreBranch(db, order, k);
      var found := CheckBranch(db, order[k]);
      findings := findings + found;
    }
    assert order[..|order|] == order;
  }

  lemma {:induction false} OneMoreBranch(db: Db, ids: seq<string>, k: nat)
    requires k < |ids|
    ensures AuditEach(db, ids[..k + 1]) == AuditEach(db, ids[..k]) + AuditBranch(db, ids[k])
  {
    assert ids[..k + 1][..k] == ids[..k];
  }

  // ------------------------------------------------------------------ meaning

  lemma {:induction false} NamedMeans(events: seq<Event>)
    ensures forall id :: id in Named(events) <==> exists k :: 0 <= k < |events| && events[k].record.branch == id
  {
    if events != [] {
      var n := |events| - 1;
      NamedMeans(events[..n]);
      forall id
        ensures id in Named(events) <==> exists k :: 0 <= k < |events| && events[k].record.branch == id
      {
        if exists k :: 0 <= k < n && events[k].record.branch == id {
          var k :| 0 <= k < n && events[k].record.branch == id;
          assert events[..n][k].record.branch == id;
        }
      }
    }
  }

  lemma {:induction false} InsertKeeps(branches: seq<Branch>, ids: seq<string>, id: string)
    ensures forall x :: x in InsertByDepth(branches, ids, id) <==> x in ids || x == id
  {
    if ids != [] && DepthBelow(branches, ids[|ids| - 1], {}) > DepthBelow(branches, id, {}) {
      InsertKeeps(branches, ids[..|ids| - 1], id);
      assert ids == ids[..|ids| - 1] + [ids[|ids| - 1]];
    }
  }

  lemma {:induction false} SortingKeeps(branches: seq<Branch>, ids: seq<string>)
    ensures forall x :: x in SortedByDepth(branches, ids) <==> x in ids
  {
    if ids != [] {
      var init := ids[..|ids| - 1];
      SortingKeeps(branches, init);
      InsertKeeps(branches, SortedByDepth(branches, init), ids[|ids| - 1]);
      assert ids == init + [ids[|ids| - 1]];
    }
  }

  ghost predicate AllSilent(db: Db, ids: seq<string>) {
    forall id :: id in ids ==> AuditBranch(db, id) == []
  }

  lemma {:induction false} AllSilentLast(db: Db, init: seq<string>, last: string)
    ensures AllSilent(db, init + [last]) <==> AllSilent(db, init) && AuditBranch(db, last) == []
  {
    assert forall id :: id in init + [last] <==> id in init || id == last;
  }

  lemma {:induction false} AuditEachLast(db: Db, init: seq<string>, last: string)
    ensures AuditEach(db, init + [last]) == [] <==> AuditEach(db, init) == [] && AuditBranch(db, last) == []
  {
    assert (init + [last])[..|init|] == init;
  }

  lemma {:induction false} SilentEach(db: Db, ids: seq<string>)
    ensures AuditEach(db, ids) == [] <==> AllSilent(db, ids)
    decreases |ids|
  {
    if ids != [] {
      var init, last := ids[..|ids| - 1], ids[|ids| - 1];
      assert ids == init + [last];
      SilentEach(db, init);
      AuditEachLast(db, init, last);
      AllSilentLast(db, init, last);
    }
  }

  lemma {:induction false} SilentAll(db: Db)
    ensures AuditAll(db) == [] <==>
            forall k :: 0 <= k < |db.events| ==> AuditBranch(db, db.events[k].record.branch) == []
  {
    NamedMeans(db.events);
    SortingKeeps(db.branches, Named(db.events));
    SilentEach(db, SortedByDepth(db.branches, Named(db.events)));
  }

  lemma {:induction false} PlacedNothing(branch: string, breaks: seq<Break>)
    ensures Placed(branch, breaks) == [] <==> breaks == []
  {}

  lemma {:induction false} SilentMeans(db: Db, branch: string)
    ensures AuditBranch(db, branch) == [] <==>
            StartOf(db, branch).Some? && IsChain(Own(db.events, branch), StartOf(db, branch).value)
  {
    var start := StartOf(db, branch);
    PlacedNothing(branch, Verify(Own(db.events, branch), start));
    VerifiesExactlyTheChains(Own(db.events, branch), start);
  }

  /** In a store laid out as a tree, one branch is found clean exactly when it
      continues the chain it inherits. */
  lemma {:induction false} SilentBranch(db: Db, i: nat)
    requires Laid(db) && i < |db.branches|
    ensures AuditBranch(db, db.branches[i].id) == [] ==>
              IsChain(OwnOf(db, i), Head(Shared(db, i), Genesis))
    ensures Hashed(db) ==> AuditBranch(db, db.branches[i].id) == []
  {
    RowOfBranch(db.branches, i);
    SilentMeans(db, db.branches[i].id);
    if db.branches[i].fork.Some? {
      var id := db.branches[i].fork.value.event;
      ForkRow(db, i, id);
      if Hashed(db) {
        ForkPointIsStored(db, i, id);
      }
    }
  }

  /** MAIN: on a store laid out as a tree the audit is silent exactly when every
      branch continues its chain: it raises no false alarm and misses no break. */
  lemma {:induction false} AuditFindsExactlyTheBrokenStores(db: Db)
    requires Laid(db)
    ensures AuditAll(db) == [] <==> Hashed(db)
  {
    SilentAll(db);
    if AuditAll(db) == [] {
      forall i | 0 <= i < |db.branches|
        ensures IsChain(OwnOf(db, i), Head(Shared(db, i), Genesis))
      {
        if OwnOf(db, i) != [] {
          OwnMeans(db.events, db.branches[i].id);
          assert OwnOf(db, i)[0] in OwnOf(db, i);
          SilentBranch(db, i);
        }
      }
    }
    if Hashed(db) {
      forall k | 0 <= k < |db.events|
        ensures AuditBranch(db, db.events[k].record.branch) == []
      {
        SilentBranch(db, BranchAt(db.branches, db.events[k].record.branch).value);
      }
    }
  }

  /** MAIN: whatever a store has been asked to do, the audit has nothing to report. */
  lemma {:induction false} EveryStoreAuditsClean(asks: seq<Ask>)
    ensures AuditAll(ServedAll(Db([], []), asks)) == []
  {
    EveryStoreIsSound(asks);
    AuditFindsExactlyTheBrokenStores(ServedAll(Db([], []), asks));
  }
}
