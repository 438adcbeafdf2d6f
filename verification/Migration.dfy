/** The migration that gives an old store its hash chain: rows are rehashed in
    place, branch by branch, parents before the branches that fork from them. */
module Migration {
  import opened Events
  import opened Chain
  import opened Store
  import opened Branching

  datatype Outcome = Migrated(events: seq<Event>) | Cyclic(branch: string) | ForkNotHashed(event: string)

  /** Steps up to the root; none when the climb meets a branch twice. */
  function DepthOf(branches: seq<Branch>, id: string, seen: set<string>): Option<nat>
    decreases Ids(branches) - seen
  {
    var row := BranchAt(branches, id);
    if id in seen then None
    else if row.None? || branches[row.value].fork.None? then Some(0)
    else
      assert id in Ids(branches) - seen;
      var up := DepthOf(branches, branches[row.value].fork.value.parent, seen + {id});
      if up.None? then None else Some(up.value + 1)
  }

  predicate Within(rows: seq<nat>, n: nat) {
    forall k :: 0 <= k < |rows| ==> rows[k] < n
  }

  predicate NoRepeats(rows: seq<nat>) {
    forall a, b :: 0 <= a < b < |rows| ==> rows[a] != rows[b]
  }

  /** Puts row `i` behind the last row whose key is not greater. */
  function Insert(keys: seq<int>, rows: seq<nat>, i: nat): (r: seq<nat>)
    requires i < |keys| && Within(rows, |keys|)
    ensures Within(r, |keys|)
  {
    if rows == [] || keys[rows[|rows| - 1]] <= keys[i] then rows + [i]
    else Insert(keys, rows[..|rows| - 1], i) + [rows[|rows| - 1]]
  }

  /** The first `n` rows by depth; rows of equal depth stay in table order. */
  function Sorted(depths: seq<int>, n: nat): (r: seq<nat>)
    requires n <= |depths|
    ensures Within(r, |depths|)
  {
    if n == 0 then [] else Insert(depths, Sorted(depths, n - 1), n - 1)
  }

  // ------------------------------------------------------------- row numbers

  function Seqs(events: seq<Event>): (r: seq<int>)
    ensures |r| == |events| && forall k :: 0 <= k < |r| ==> r[k] == events[k].record.number
  {
    seq(|events|, k requires 0 <= k < |events| => events[k].record.number)
  }

  /** Row numbers of one branch's events, among the first `n` rows, ordered by seq. */
  function OwnRows(events: seq<Event>, branch: string, n: nat): (r: seq<nat>)
    requires n <= |events|
    ensures Within(r, |events|)
  {
    if n == 0 then []
    else
      var before := OwnRows(events, branch, n - 1);
      if events[n - 1].record.branch == branch then Insert(Seqs(events), before, n - 1) else before
  }

  function Pick(events: seq<Event>, rows: seq<nat>): (r: seq<Event>)
    requires Within(rows, |events|)
    ensures |r| == |rows| && forall k :: 0 <= k < |rows| ==> r[k] == events[rows[k]]
  {
    seq(|rows|, k requires 0 <= k < |rows| => events[rows[k]])
  }

  /** Two tables that differ in nothing but hashes. */
  ghost predicate SameRecords(a: seq<Event>, b: seq<Event>) {
    |a| == |b| && forall k :: 0 <= k < |a| ==> a[k].record == b[k].record
  }

  // -------------------------------------------------------------- the migration

  ghost predicate Noted(hashes: map<string, Hash>, e: Event) {
    e.record.id in hashes && hashes[e.record.id] == e.hash
  }

  /** The first `k` rows have their new hashes, noted; nothing else has changed. */
  ghost predicate RowsDone(events: seq<Event>, out: seq<Event>, rows: seq<nat>, k: nat,
                           known: map<string, Hash>, hashes: map<string, Hash>)
    requires Within(rows, |events|) && k <= |rows|
  {
    && SameRecords(events, out)
    && (forall x :: 0 <= x < |events| && (forall j :: 0 <= j < k ==> rows[j] != x) ==> out[x] == events[x])
    && (forall j :: 0 <= j < k ==> Noted(hashes, out[rows[j]]))
    && (forall id :: id in known && (forall j :: 0 <= j < k ==> events[rows[j]].record.id != id) ==>
          id in hashes && hashes[id] == known[id])
  }

  lemma {:induction false} OneMoreRow(events: seq<Event>, out: seq<Event>, rows: seq<nat>, k: nat,
                                      known: map<string, Hash>, hashes: map<string, Hash>, e: Event)
    requires Within(rows, |events|) && NoRepeats(rows) && EventsAreDistinct(events) && k < |rows|
    requires RowsDone(events, out, rows, k, known, hashes) && e.record == events[rows[k]].record
    ensures RowsDone(events, out[rows[k] := e], rows, k + 1, known, hashes[e.record.id := e.hash])
  {
    var out', hashes' := out[rows[k] := e], hashes[e.record.id := e.hash];
    forall j | 0 <= j < k + 1 ensures Noted(hashes', out'[rows[j]]) {
      DistinctRows(events, rows, j, k);
      assert j < k ==> Noted(hashes, out[rows[j]]);
    }
  }

  /** Rehashes the rows of one branch in place, and notes each new hash. */
  method RehashBranch(events: seq<Event>, rows: seq<nat>, start: Hash, known: map<string, Hash>)
    returns (out: seq<Event>, hashes: map<string, Hash>)
    requires Within(rows, |events|) && NoRepeats(rows) && EventsAreDistinct(events)
    ensures RowsDone(events, out, rows, |rows|, known, hashes)
    ensures IsChain(Pick(out, rows), start)
  {
    out, hashes := events, known;
    var prev := start;
    for k := 0 to |rows|
      invariant RowsDone(events, out, rows, k, known, hashes)
      invariant IsChain(Pick(out, rows[..k]), start) && prev == Head(Pick(out, rows[..k]), start)
    {
      var record := events[rows[k]].record;
      var event := Event(record, prev, Digest(prev, record));
      PickOneMore(out, out[rows[k] := event], rows, k, event, start);
      OneMoreRow(events, out, rows, k, known, hashes, event);
      out := out[rows[k] := event];
      hashes := hashes[record.id := event.hash];
      prev := event.hash;
    }
    assert rows[..|rows|] == rows;
  }

  lemma {:induction false} PickOneMore(events: seq<Event>, out: seq<Event>, rows: seq<nat>, k: nat, e: Event, start: Hash)
    requires Within(rows, |events|) && NoRepeats(rows) && k < |rows| && out == events[rows[k] := e]
    requires IsChain(Pick(events, rows[..k]), start)
    requires e.prev == Head(Pick(events, rows[..k]), start) && e.hash == Digest(e.prev, e.record)
    ensures IsChain(Pick(out, rows[..k + 1]), start) && Head(Pick(out, rows[..k + 1]), start) == e.hash
  {
    assert Pick(out, rows[..k + 1]) == Pick(events, rows[..k]) + [e];
    ChainAppend(Pick(events, rows[..k]), e, start);
  }

  lemma {:induction false} DistinctRows(events: seq<Event>, rows: seq<nat>, j: nat, k: nat)
    requires Within(rows, |events|) && NoRepeats(rows) && EventsAreDistinct(events)
    requires j <= k < |rows|
    ensures events[rows[j]].record.id == events[rows[k]].record.id <==> j == k
  {
    if j < k {
      var a, b := rows[j], rows[k];
      assert a != b;
      assert if a < b then events[a].record.id != events[b].record.id else events[b].record.id != events[a].record.id;
    }
  }

  // -------------------------------------------------------- what rows are picked

  predicate Ascending(keys: seq<int>, rows: seq<nat>)
    requires Within(rows, |keys|)
  {
    forall a, b :: 0 <= a < b < |rows| ==> keys[rows[a]] <= keys[rows[b]]
  }

  lemma {:induction false} InsertHolds(keys: seq<int>, rows: seq<nat>, i: nat)
    requires i < |keys| && Within(rows, |keys|)
    ensures forall x: nat :: x in Insert(keys, rows, i) <==> x in rows || x == i
  {
    if rows != [] && keys[rows[|rows| - 1]] > keys[i] {
      InsertHolds(keys, rows[..|rows| - 1], i);
      assert rows == rows[..|rows| - 1] + [rows[|rows| - 1]];
    }
  }

  lemma {:induction false} AppendRow(keys: seq<int>, rows: seq<nat>, last: nat)
    requires Within(rows, |keys|) && last < |keys|
    requires NoRepeats(rows) && Ascending(keys, rows)
    requires forall x :: x in rows ==> x != last && x < |keys| && keys[x] <= keys[last]
    ensures NoRepeats(rows + [last]) && Ascending(keys, rows + [last])
  {
    var r := rows + [last];
    forall a, b | 0 <= a < b < |r| ensures r[a] != r[b] && keys[r[a]] <= keys[r[b]] {
      assert r[a] in rows;
    }
  }

  lemma {:induction false} InsertMeans(keys: seq<int>, rows: seq<nat>, i: nat)
    requires i < |keys| && Within(rows, |keys|)
    requires NoRepeats(rows) && i !in rows && Ascending(keys, rows)
    ensures NoRepeats(Insert(keys, rows, i)) && Ascending(keys, Insert(keys, rows, i))
  {
    if rows == [] {
    } else {
      var init, last := rows[..|rows| - 1], rows[|rows| - 1];
      if keys[last] <= keys[i] {
        AppendRow(keys, rows, i);
      } else {
        InsertMeans(keys, init, i);
        InsertHolds(keys, init, i);
        AppendRow(keys, Insert(keys, init, i), last);
      }
    }
  }

  lemma {:induction false} SortedHolds(depths: seq<int>, n: nat)
    requires n <= |depths|
    ensures forall x: nat :: x in Sorted(depths, n) <==> x < n
  {
    if n > 0 {
      SortedHolds(depths, n - 1);
      InsertHolds(depths, Sorted(depths, n - 1), n - 1);
    }
  }

  lemma {:induction false} SortedMeans(depths: seq<int>, n: nat)
    requires n <= |depths|
    ensures NoRepeats(Sorted(depths, n)) && Ascending(depths, Sorted(depths, n))
    decreases n
  {
    if n > 0 {
      var rows := Sorted(depths, n - 1);
      SortedMeans(depths, n - 1);
      assert n - 1 !in rows by {
        SortedHolds(depths, n - 1);
      }
      InsertMeans(depths, rows, n - 1);
    }
  }

  lemma {:induction false} OwnRowsHold(events: seq<Event>, branch: string, n: nat)
    requires n <= |events|
    ensures forall x: nat :: x in OwnRows(events, branch, n) <==> x < n && events[x].record.branch == branch
  {
    if n > 0 {
      OwnRowsHold(events, branch, n - 1);
      InsertHolds(Seqs(events), OwnRows(events, branch, n - 1), n - 1);
    }
  }

  lemma {:induction false} OwnRowsMean(events: seq<Event>, branch: string, n: nat)
    requires n <= |events|
    ensures NoRepeats(OwnRows(events, branch, n)) && Ascending(Seqs(events), OwnRows(events, branch, n))
  {
    if n > 0 {
      OwnRowsMean(events, branch, n - 1);
      OwnRowsHold(events, branch, n - 1);
      if events[n - 1].record.branch == branch {
        InsertMeans(Seqs(events), OwnRows(events, branch, n - 1), n - 1);
      }
    }
  }

  lemma {:induction false} InsertPicks(events: seq<Event>, rows: seq<nat>, i: nat)
    requires i < |events| && Within(rows, |events|)
    ensures Pick(events, Insert(Seqs(events), rows, i)) == InsertBySeq(Pick(events, rows), events[i])
  {
    if rows != [] && Seqs(events)[rows[|rows| - 1]] > Seqs(events)[i] {
      var init := rows[..|rows| - 1];
      InsertPicks(events, init, i);
      assert Pick(events, rows)[..|rows| - 1] == Pick(events, init);
    }
  }

  /** The events of a branch are the rows picked for it. */
  lemma {:induction false} OwnIsPicked(events: seq<Event>, branch: string, n: nat)
    requires n <= |events|
    ensures Own(events[..n], branch) == Pick(events, OwnRows(events, branch, n))
  {
    if n > 0 {
      assert events[..n][..n - 1] == events[..n - 1];
      OwnIsPicked(events, branch, n - 1);
      InsertPicks(events, OwnRows(events, branch, n - 1), n - 1);
    }
  }

  lemma {:induction false} SameRowsPicked(a: seq<Event>, b: seq<Event>, branch: string, n: nat)
    requires SameRecords(a, b) && n <= |a|
    ensures OwnRows(a, branch, n) == OwnRows(b, branch, n)
  {
    assert Seqs(a) == Seqs(b);
    if n > 0 {
      SameRowsPicked(a, b, branch, n - 1);
    }
  }

  function RowsOf(db: Db, i: nat): (r: seq<nat>)
    requires i < |db.branches|
    ensures Within(r, |db.events|)
  {
    OwnRows(db.events, db.branches[i].id, |db.events|)
  }

  lemma {:induction false} OwnOfIsPicked(db: Db, i: nat)
    requires i < |db.branches|
    ensures OwnOf(db, i) == Pick(db.events, RowsOf(db, i))
  {
    OwnIsPicked(db.events, db.branches[i].id, |db.events|);
    assert db.events[..|db.events|] == db.events;
  }

  // ------------------------------------------------- the layout is in the records

  /** Two stores that differ in nothing but hashes. */
  ghost predicate SameLayout(a: Db, b: Db) {
    a.branches == b.branches && SameRecords(a.events, b.events)
  }

  lemma {:induction false} SameOwn(a: Db, b: Db, i: nat)
    requires SameLayout(a, b) && i < |a.branches|
    ensures SameRecords(OwnOf(a, i), OwnOf(b, i))
  {
    OwnOfIsPicked(a, i);
    OwnOfIsPicked(b, i);
    SameRowsPicked(a.events, b.events, a.branches[i].id, |a.events|);
  }

  lemma {:induction false} SameSeek(a: seq<Event>, b: seq<Event>, id: string)
    requires SameRecords(a, b)
    ensures Seek(a, id) == Seek(b, id)
  {
    if a != [] {
      SameSeek(a[..|a| - 1], b[..|b| - 1], id);
    }
  }

  lemma {:induction false} SameLogs(a: Db, b: Db, i: nat)
    requires SameLayout(a, b) && i < |a.branches|
    ensures SameRecords(Shared(a, i), Shared(b, i)) && SameRecords(Effective(a, i), Effective(b, i))
    decreases i
  {
    SameOwn(a, b, i);
    var p := ParentRow(a.branches, i);
    if p.Some? {
      SameLogs(a, b, p.value);
      SameSeek(Effective(a, p.value), Effective(b, p.value), a.branches[i].fork.value.event);
    }
  }

  /** Whether a store is laid out as a tree does not depend on its hashes. */
  lemma {:induction false} LayoutIsInTheRecords(a: Db, b: Db)
    requires SameLayout(a, b) && Laid(a)
    ensures Laid(b)
  {
    forall i | 0 <= i < |b.branches| ensures ForkHolds(b, i) && Counted(b, i) {
      assert ForkHolds(a, i) && Counted(a, i);
      SameOwn(a, b, i);
      SameLogs(a, b, i);
      var p := ParentRow(a.branches, i);
      if p.Some? {
        SameLogs(a, b, p.value);
        SameSeek(Effective(a, p.value), Effective(b, p.value), a.branches[i].fork.value.event);
      }
    }
  }

  // ----------------------------------------------------------- hashes determined

  lemma {:induction false} ChainIsDetermined(a: seq<Event>, b: seq<Event>, start: Hash)
    requires IsChain(a, start) && IsChain(b, start) && SameRecords(a, b)
    ensures a == b
  {
    if a != [] {
      var n := |a| - 1;
      assert a == a[..n] + [a[n]] && b == b[..n] + [b[n]];
      ChainAppend(a[..n], a[n], start);
      ChainAppend(b[..n], b[n], start);
      ChainIsDetermined(a[..n], b[..n], start);
    }
  }

  lemma {:induction false} LogsAreDetermined(a: Db, b: Db, i: nat)
    requires SameLayout(a, b) && Sound(a) && Sound(b) && i < |a.branches|
    ensures OwnOf(a, i) == OwnOf(b, i) && Effective(a, i) == Effective(b, i)
    decreases i
  {
    SameOwn(a, b, i);
    var p := ParentRow(a.branches, i);
    if p.Some? {
      LogsAreDetermined(a, b, p.value);
    }
    assert Shared(a, i) == Shared(b, i);
    ChainIsDetermined(OwnOf(a, i), OwnOf(b, i), Head(Shared(a, i), Genesis));
  }

  /** MAIN: the records leave no choice of hashes: two sound stores with the same
      branches and records are the same store. */
  lemma {:induction false} HashesAreDetermined(a: Db, b: Db)
    requires SameLayout(a, b) && Sound(a) && Sound(b)
    ensures a == b
  {
    forall x | 0 <= x < |a.events| ensures a.events[x] == b.events[x] {
      var i := BranchAt(a.branches, a.events[x].record.branch).value;
      LogsAreDetermined(a, b, i);
      OwnOfIsPicked(a, i);
      OwnOfIsPicked(b, i);
      SameRowsPicked(a.events, b.events, a.branches[i].id, |a.events|);
      OwnRowsHold(a.events, a.branches[i].id, |a.events|);
      var k :| 0 <= k < |RowsOf(a, i)| && RowsOf(a, i)[k] == x;
      assert Pick(a.events, RowsOf(a, i))[k] == Pick(b.events, RowsOf(a, i))[k];
    }
  }

  // ------------------------------------------------------ the migration's own walk

  lemma {:induction false} DepthClimbs(db: Db, i: nat, seen: set<string>)
    requires Laid(db) && i < |db.branches|
    requires forall j :: 0 <= j <= i ==> db.branches[j].id !in seen
    ensures DepthOf(db.branches, db.branches[i].id, seen) == Some(TreeDepth(db.branches, i))
    decreases i
  {
    RowOfBranch(db.branches, i);
    assert ForkHolds(db, i);
    var p := ParentRow(db.branches, i);
    if p.Some? {
      DepthClimbs(db, p.value, seen + {db.branches[i].id});
    }
  }

  function TreeDepth(branches: seq<Branch>, i: nat): nat
    requires i < |branches|
    decreases i
  {
    var p := ParentRow(branches, i);
    if p.None? then 0 else TreeDepth(branches, p.value) + 1
  }

  /** The logs of the rows in `done` are chains whose hashes are noted, and no row
      was done before its parent. */
  ghost predicate Rehashed(db: Db, hashes: map<string, Hash>, done: set<nat>) {
    forall j :: j in done ==> RowRehashed(db, hashes, done, j)
  }

  ghost predicate RowRehashed(db: Db, hashes: map<string, Hash>, done: set<nat>, j: nat) {
    && j < |db.branches|
    && (ParentRow(db.branches, j).Some? ==> ParentRow(db.branches, j).value in done)
    && IsChain(OwnOf(db, j), Head(Shared(db, j), Genesis))
    && forall e :: e in Effective(db, j) ==> Noted(hashes, e)
  }

  lemma {:induction false} SharedIsInherited(db: Db, i: nat, p: nat)
    requires i < |db.branches| && ForkHolds(db, i) && ParentRow(db.branches, i) == Some(p)
    ensures Shared(db, i) != [] && Shared(db, i) <= Effective(db, p)
    ensures Shared(db, i)[|Shared(db, i)| - 1].record.id == db.branches[i].fork.value.event
  {}

  /** Where the next branch must start is already noted. */
  lemma {:induction false} StartIsNoted(db: Db, hashes: map<string, Hash>, done: set<nat>, i: nat, p: nat)
    requires i < |db.branches| && ForkHolds(db, i) && ParentRow(db.branches, i) == Some(p)
    requires p in done && Rehashed(db, hashes, done)
    ensures var id := db.branches[i].fork.value.event;
            id in hashes && hashes[id] == Head(Shared(db, i), Genesis)
  {
    SharedIsInherited(db, i, p);
    var log, shared := Effective(db, p), Shared(db, i);
    assert shared[|shared| - 1] == log[|shared| - 1];
    assert log[|shared| - 1] in log;
  }

  /** Rehashing one branch touches no log it does not lie on. */
  lemma {:induction false} OthersUntouched(a: Db, b: Db, i: nat, j: nat)
    requires SameLayout(a, b) && i < |a.branches| && j < |a.branches|
    requires BranchesAreDistinct(a.branches) && i != j
    requires forall x :: 0 <= x < |a.events| && a.events[x].record.branch != a.branches[i].id ==>
                           b.events[x] == a.events[x]
    ensures OwnOf(b, j) == OwnOf(a, j)
  {
    OwnOfIsPicked(a, j);
    OwnOfIsPicked(b, j);
    SameRowsPicked(a.events, b.events, a.branches[j].id, |a.events|);
    var rows := RowsOf(a, j);
    OwnRowsHold(a.events, a.branches[j].id, |a.events|);
    forall k | 0 <= k < |rows| ensures b.events[rows[k]] == a.events[rows[k]] {
      assert rows[k] in rows;
      assert a.events[rows[k]].record.branch == a.branches[j].id;
    }
  }

  lemma {:induction false} DoneLogsStay(a: Db, b: Db, done: set<nat>, j: nat)
    requires a.branches == b.branches && j < |a.branches|
    requires forall k :: k in done ==>
               && k < |a.branches| && OwnOf(b, k) == OwnOf(a, k)
               && (ParentRow(a.branches, k).Some? ==> ParentRow(a.branches, k).value in done)
    requires ParentRow(a.branches, j).Some? ==> ParentRow(a.branches, j).value in done
    ensures Shared(b, j) == Shared(a, j)
    ensures j in done ==> Effective(b, j) == Effective(a, j)
    decreases j
  {
    var p := ParentRow(a.branches, j);
    if p.Some? {
      DoneLogsStay(a, b, done, p.value);
    }
  }

  /** What rehashing the rows of branch `i` from `start` leaves behind. */
  ghost predicate RehashedOne(a: Db, b: Db, i: nat, start: Hash, known: map<string, Hash>, hashes: map<string, Hash>)
    requires i < |a.branches|
  {
    && SameLayout(a, b)
    && (forall x :: 0 <= x < |a.events| && a.events[x].record.branch != a.branches[i].id ==>
          b.events[x] == a.events[x])
    && IsChain(OwnOf(b, i), start)
    && (forall e :: e in OwnOf(b, i) ==> Noted(hashes, e))
    && (forall e :: Noted(known, e) && e in a.events && e.record.branch != a.branches[i].id ==> Noted(hashes, e))
  }

  lemma {:induction false} DoneEventsAreElsewhere(db: Db, done: set<nat>, i: nat, j: nat, e: Event)
    requires Laid(db) && i < |db.branches| && i !in done && j < |db.branches|
    requires forall k :: k in done ==>
               && k < |db.branches|
               && (ParentRow(db.branches, k).Some? ==> ParentRow(db.branches, k).value in done)
    requires j in done && e in Effective(db, j)
    ensures e in db.events && e.record.branch != db.branches[i].id
    decreases j
  {
    EffectiveIsStored(db, j);
    if e in OwnOf(db, j) {
      OwnMeans(db.events, db.branches[j].id);
      RowOfBranch(db.branches, i);
      RowOfBranch(db.branches, j);
    } else {
      assert e in Shared(db, j);
      DoneEventsAreElsewhere(db, done, i, ParentRow(db.branches, j).value, e);
    }
  }

  lemma {:induction false} DoneRowStays(a: Db, b: Db, i: nat, start: Hash, known: map<string, Hash>,
                                        hashes: map<string, Hash>, done: set<nat>, j: nat)
    requires Laid(a) && i < |a.branches| && i !in done && j in done
    requires Rehashed(a, known, done) && RehashedOne(a, b, i, start, known, hashes)
    ensures j < |a.branches| && Effective(b, j) == Effective(a, j) && Shared(b, j) == Shared(a, j)
    ensures OwnOf(b, j) == OwnOf(a, j)
    ensures forall e :: e in Effective(b, j) ==> Noted(hashes, e)
  {
    forall k | k in done ensures OwnOf(b, k) == OwnOf(a, k) {
      OthersUntouched(a, b, i, k);
    }
    DoneLogsStay(a, b, done, j);
    forall e | e in Effective(a, j) ensures Noted(hashes, e) {
      DoneEventsAreElsewhere(a, done, i, j, e);
    }
  }

  lemma {:induction false} OneMoreRehashed(a: Db, b: Db, i: nat, start: Hash, known: map<string, Hash>,
                                           hashes: map<string, Hash>, done: set<nat>)
    requires Laid(a) && i < |a.branches| && i !in done
    requires Rehashed(a, known, done) && RehashedOne(a, b, i, start, known, hashes)
    requires ParentRow(a.branches, i).Some? ==> ParentRow(a.branches, i).value in done
    requires start == Head(Shared(a, i), Genesis)
    ensures Rehashed(b, hashes, done + {i})
  {
    forall j | j in done
      ensures j < |a.branches| && OwnOf(b, j) == OwnOf(a, j)
      ensures RowRehashed(b, hashes, done, j)
    {
      DoneRowStays(a, b, i, start, known, hashes, done, j);
    }
    DoneLogsStay(a, b, done, i);
    NewRowIsNoted(b, i, hashes);
    RowsRehashed(b, hashes, done, i);
  }

  lemma {:induction false} RowsRehashed(db: Db, hashes: map<string, Hash>, done: set<nat>, i: nat)
    requires forall j :: j in done ==> RowRehashed(db, hashes, done, j)
    requires RowRehashed(db, hashes, done, i)
    ensures Rehashed(db, hashes, done + {i})
  {
    forall j | j in done + {i} ensures RowRehashed(db, hashes, done, j) {}
  }

  /** What a branch inherits is noted with its parent; its own events were just now. */
  lemma {:induction false} NewRowIsNoted(b: Db, i: nat, hashes: map<string, Hash>)
    requires i < |b.branches|
    requires ParentRow(b.branches, i).Some? ==>
               forall e :: e in Effective(b, ParentRow(b.branches, i).value) ==> Noted(hashes, e)
    requires forall e :: e in OwnOf(b, i) ==> Noted(hashes, e)
    ensures forall e :: e in Effective(b, i) ==> Noted(hashes, e)
  {
    forall e | e in Effective(b, i) ensures Noted(hashes, e) {
      if e in Shared(b, i) {
        assert e in Effective(b, ParentRow(b.branches, i).value);
      }
    }
  }

  lemma {:induction false} AllRehashed(db: Db, hashes: map<string, Hash>, done: set<nat>)
    requires Rehashed(db, hashes, done) && forall i: nat :: i < |db.branches| ==> i in done
    ensures Hashed(db)
  {
    forall i | 0 <= i < |db.branches| ensures IsChain(OwnOf(db, i), Head(Shared(db, i), Genesis)) {
      assert RowRehashed(db, hashes, done, i);
    }
  }

  /** When row `n` of the order comes up, its parent has been dealt with. */
  lemma {:induction false} ParentsComeFirst(db: Db, depths: seq<int>, n: nat)
    requires Laid(db) && |depths| == |db.branches|
    requires forall i :: 0 <= i < |depths| ==> depths[i] == TreeDepth(db.branches, i)
    requires n < |Sorted(depths, |depths|)|
    ensures var order := Sorted(depths, |depths|);
            var p := ParentRow(db.branches, order[n]);
            p.Some? ==> p.value in order[..n]
  {
    var order := Sorted(depths, |depths|);
    SortedHolds(depths, |depths|);
    SortedMeans(depths, |depths|);
    var p := ParentRow(db.branches, order[n]);
    if p.Some? {
      assert p.value in order;
      var k :| 0 <= k < |order| && order[k] == p.value;
      assert k < n;
      assert order[..n][k] == p.value;
    }
  }

  /** The old rows have no hash columns; adding them leaves every hash empty. */
  function Blank(events: seq<Event>): (r: seq<Event>)
    ensures SameRecords(events, r)
  {
    seq(|events|, k requires 0 <= k < |events| => Event(events[k].record, NoHash, NoHash))
  }

  function DepthsOf(branches: seq<Branch>, n: nat): Option<seq<int>>
    requires n <= |branches|
  {
    if n == 0 then Some([])
    else
      var before := DepthsOf(branches, n - 1);
      var depth := DepthOf(branches, branches[n - 1].id, {});
      if before.None? || depth.None? then None else Some(before.value + [depth.value])
  }

  lemma {:induction false} DepthsAreTreeDepths(db: Db, n: nat)
    requires Laid(db) && n <= |db.branches|
    ensures var d := DepthsOf(db.branches, n);
            && d.Some? && |d.value| == n
            && forall i :: 0 <= i < n ==> d.value[i] == TreeDepth(db.branches, i)
  {
    if n > 0 {
      DepthsAreTreeDepths(db, n - 1);
      DepthClimbs(db, n - 1, {});
    }
  }

  lemma {:induction false} OneRehashed(a: Db, out: seq<Event>, i: nat, start: Hash, known: map<string, Hash>,
                                       hashes: map<string, Hash>)
    requires i < |a.branches| && EventsAreDistinct(a.events) && |out| == |a.events|
    requires RowsDone(a.events, out, RowsOf(a, i), |RowsOf(a, i)|, known, hashes)
    requires IsChain(Pick(out, RowsOf(a, i)), start)
    ensures RehashedOne(a, Db(a.branches, out), i, start, known, hashes)
  {
    var b, branch, rows := Db(a.branches, out), a.branches[i].id, RowsOf(a, i);
    OwnOfIsPicked(b, i);
    SameRowsPicked(a.events, out, branch, |out|);
    OwnRowsHold(a.events, branch, |out|);
    forall x | 0 <= x < |out| && a.events[x].record.branch != branch ensures out[x] == a.events[x] {
      forall j | 0 <= j < |rows| ensures rows[j] != x {
        assert rows[j] in rows;
      }
    }
    forall e | e in OwnOf(b, i) ensures Noted(hashes, e) {
      var j :| 0 <= j < |rows| && OwnOf(b, i)[j] == e;
      assert e == out[rows[j]];
    }
    forall e | Noted(known, e) && e in a.events && e.record.branch != branch ensures Noted(hashes, e) {
      var x :| 0 <= x < |a.events| && a.events[x] == e;
      forall j | 0 <= j < |rows| ensures a.events[rows[j]].record.id != e.record.id {
        assert rows[j] in rows;
        var y := rows[j];
        assert a.events[y].record.branch == branch && x != y;
        assert if x < y then a.events[x].record.id != a.events[y].record.id
               else a.events[y].record.id != a.events[x].record.id;
      }
    }
  }

  function AsSet(rows: seq<nat>): set<nat> {
    set x | x in rows
  }

  /** How far the walk has come: the first `n` branches of the order are rehashed. */
  ghost predicate Walked(given: Db, out: seq<Event>, hashes: map<string, Hash>, order: seq<nat>, n: nat)
    requires n <= |order|
  {
    && SameRecords(given.events, out)
    && (Laid(given) ==> Rehashed(Db(given.branches, out), hashes, AsSet(order[..n])))
  }

  /** The order a store laid out as a tree is walked in. */
  ghost predicate InDepthOrder(given: Db, depths: seq<int>, order: seq<nat>) {
    && DepthsOf(given.branches, |given.branches|) == Some(depths)
    && order == Sorted(depths, |depths|)
  }

  /** At its turn a branch is new, its parent is done, and its start is noted. */
  lemma {:induction false} WalkTurn(given: Db, out: seq<Event>, hashes: map<string, Hash>,
                                    depths: seq<int>, order: seq<nat>, n: nat)
    requires n < |order| && Laid(given) && InDepthOrder(given, depths, order)
    requires Walked(given, out, hashes, order, n)
    ensures var db, i := Db(given.branches, out), order[n];
            && i < |db.branches| && Laid(db)
            && i !in AsSet(order[..n])
            && (ParentRow(db.branches, i).Some? ==> ParentRow(db.branches, i).value in AsSet(order[..n]))
            && (db.branches[i].fork.Some? ==> db.branches[i].fork.value.event in hashes)
            && Head(Shared(db, i), Genesis) ==
               if db.branches[i].fork.Some? then hashes[db.branches[i].fork.value.event] else Genesis
  {
    var db, i := Db(given.branches, out), order[n];
    LayoutIsInTheRecords(given, db);
    DepthsAreTreeDepths(given, |given.branches|);
    SortedMeans(depths, |depths|);
    ParentsComeFirst(db, depths, n);
    assert ForkHolds(db, i);
    if db.branches[i].fork.Some? {
      StartIsNoted(db, hashes, AsSet(order[..n]), i, ParentRow(db.branches, i).value);
    }
  }

  lemma {:induction false} WalkStep(given: Db, before: seq<Event>, out: seq<Event>, known: map<string, Hash>,
                                    hashes: map<string, Hash>, depths: seq<int>, order: seq<nat>, n: nat, start: Hash)
    requires n < |order| && Laid(given) && InDepthOrder(given, depths, order)
    requires Walked(given, before, known, order, n) && SameRecords(before, out)
    requires order[n] < |given.branches|
    requires start == Head(Shared(Db(given.branches, before), order[n]), Genesis)
    requires RehashedOne(Db(given.branches, before), Db(given.branches, out), order[n], start, known, hashes)
    ensures Walked(given, out, hashes, order, n + 1)
  {
    WalkTurn(given, before, known, depths, order, n);
    var a, b := Db(given.branches, before), Db(given.branches, out);
    OneMoreRehashed(a, b, order[n], start, known, hashes, AsSet(order[..n]));
    AsSetGrows(order, n);
    SameRecordsTwice(given.events, before, out);
  }

  lemma {:induction false} AsSetGrows(rows: seq<nat>, n: nat)
    requires n < |rows|
    ensures AsSet(rows[..n + 1]) == AsSet(rows[..n]) + {rows[n]}
  {
    assert rows[..n + 1] == rows[..n] + [rows[n]];
  }

  lemma {:induction false} SameRecordsTwice(a: seq<Event>, b: seq<Event>, c: seq<Event>)
    requires SameRecords(a, b) && SameRecords(b, c)
    ensures SameRecords(a, c)
  {}

  lemma {:induction false} WalkEnd(given: Db, out: seq<Event>, hashes: map<string, Hash>,
                                   depths: seq<int>, order: seq<nat>)
    requires Laid(given) && InDepthOrder(given, depths, order) && Walked(given, out, hashes, order, |order|)
    ensures Sound(Db(given.branches, out))
  {
    LayoutIsInTheRecords(given, Db(given.branches, out));
    DepthsAreTreeDepths(given, |given.branches|);
    SortedHolds(depths, |depths|);
    assert order[..|order|] == order;
    AllRehashed(Db(given.branches, out), hashes, AsSet(order));
  }

  /** Rehashes one branch of a table. */
  method RehashOne(branches: seq<Branch>, i: nat, events: seq<Event>, start: Hash, known: map<string, Hash>)
    returns (out: seq<Event>, hashes: map<string, Hash>)
    requires i < |branches| && EventsAreDistinct(events)
    ensures RehashedOne(Db(branches, events), Db(branches, out), i, start, known, hashes)
  {
    ghost var db := Db(branches, events);
    var rows := OwnRows(events, branches[i].id, |events|);
    OwnRowsMean(events, branches[i].id, |events|);
    out, hashes := RehashBranch(events, rows, start, known);
    assert rows == RowsOf(db, i);
    OneRehashed(db, out, i, start, known, hashes);
  }

  /** Depths of all branches, or the first branch whose climb never ends. */
  method Depths(branches: seq<Branch>) returns (depths: seq<int>, cycle: Option<string>)
    ensures cycle.None? ==> DepthsOf(branches, |branches|) == Some(depths) && |depths| == |branches|
    ensures cycle.Some? ==> DepthsOf(branches, |branches|).None?
  {
    depths, cycle := [], None;
    for n := 0 to |branches|
      invariant DepthsOf(branches, n) == Some(depths) && |depths| == n
    {
      var depth := DepthOf(branches, branches[n].id, {});
      if depth.None? {
        NoDepths(branches, n + 1, |branches|);
        return depths, Some(branches[n].id);
      }
      depths := depths + [depth.value];
    }
  }

  lemma {:induction false} NoDepths(branches: seq<Branch>, n: nat, m: nat)
    requires n <= m <= |branches| && DepthsOf(branches, n).None?
    ensures DepthsOf(branches, m).None?
    decreases m
  {
    if n < m {
      NoDepths(branches, n, m - 1);
    }
  }

  /** MAIN: from any store laid out as a tree the migration finds every fork hash it
      needs, changes no record, and leaves a sound store. Event ids are a primary
      key, whatever else is wrong. */
  method MigrateV3(branches: seq<Branch>, events: seq<Event>) returns (r: Outcome)
    requires EventsAreDistinct(events)
    ensures r.Migrated? ==> SameRecords(events, r.events)
    ensures Laid(Db(branches, events)) ==> r.Migrated? && Sound(Db(branches, r.events))
  {
    ghost var given := Db(branches, events);
    var depths, cycle := Depths(branches);
    if cycle.Some? {
      CyclesAreNotLaid(given);
      return Cyclic(cycle.value);
    }
    var out := Blank(events);
    var order := Sorted(depths, |depths|);
    var hashes: map<string, Hash> := map[];
    for n := 0 to |order|
      invariant Walked(given, out, hashes, order, n)
    {
      var i := order[n];
      var fork := branches[i].fork;
      if Laid(given) {
        WalkTurn(given, out, hashes, depths, order, n);
      }
      if fork.Some? && fork.value.event !in hashes {
        return ForkNotHashed(fork.value.event);
      }
      var start := if fork.Some? then hashes[fork.value.event] else Genesis;
      ghost var before, known := out, hashes;
      DistinctStays(events, out);
      out, hashes := RehashOne(branches, i, out, start, hashes);
      if Laid(given) {
        WalkStep(given, before, out, known, hashes, depths, order, n, start);
      }
    }
    if Laid(given) {
      WalkEnd(given, out, hashes, depths, order);
    }
    r := Migrated(out);
  }

  lemma {:induction false} DistinctStays(a: seq<Event>, b: seq<Event>)
    requires SameRecords(a, b) && EventsAreDistinct(a)
    ensures EventsAreDistinct(b)
  {}

  lemma {:induction false} CyclesAreNotLaid(db: Db)
    requires DepthsOf(db.branches, |db.branches|).None?
    ensures !Laid(db)
  {
    if Laid(db) {
      DepthsAreTreeDepths(db, |db.branches|);
    }
  }

  /** MAIN: migrating a store whose hashes were lost gives back exactly the hashes
      that appending gave it. */
  method MigrateBack(db: Db) returns (r: Outcome)
    requires Sound(db)
    ensures r == Migrated(db.events)
  {
    r := MigrateV3(db.branches, Blank(db.events));
    LayoutIsInTheRecords(db, Db(db.branches, Blank(db.events)));
    if r.Migrated? {
      HashesAreDetermined(db, Db(db.branches, r.events));
    }
  }
}