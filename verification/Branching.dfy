/** What every store that was only ever written through its own operations keeps:
    branches form a tree, positions and sequence numbers agree, and every
    effective log is one hash chain from genesis. */
module Branching {
  import opened Events
  import opened Chain
  import opened Store

  /** Row of the parent branch, which was created earlier. */
  function ParentRow(branches: seq<Branch>, i: nat): (r: Option<nat>)
    requires i < |branches|
    ensures r.Some? ==> r.value < i
  {
    if branches[i].fork.None? then None else BranchAt(branches[..i], branches[i].fork.value.parent)
  }

  /** What a branch inherits: its parent's log up to the fork point. */
  function Shared(db: Db, i: nat): seq<Event>
    requires i < |db.branches|
    decreases i, 0
  {
    var p := ParentRow(db.branches, i);
    if p.None? then []
    else
      var up := Upto(Effective(db, p.value), db.branches[i].fork.value.event);
      if up.Ok? then up.value else []
  }

  /** The effective log of the branch in row `i`. */
  function Effective(db: Db, i: nat): seq<Event>
    requires i < |db.branches|
    decreases i, 1
  {
    Shared(db, i) + OwnOf(db, i)
  }

  function OwnOf(db: Db, i: nat): seq<Event>
    requires i < |db.branches|
  {
    Own(db.events, db.branches[i].id)
  }

  // ---------------------------------------------------------- what is kept

  ghost predicate BranchesAreDistinct(branches: seq<Branch>) {
    forall i, j :: 0 <= i < j < |branches| ==> branches[i].id != branches[j].id
  }

  ghost predicate EventsAreDistinct(events: seq<Event>) {
    forall i, j :: 0 <= i < j < |events| ==> events[i].record.id != events[j].record.id
  }

  ghost predicate ForkHolds(db: Db, i: nat)
    requires i < |db.branches|
  {
    db.branches[i].fork.Some? ==>
      && ParentRow(db.branches, i).Some?
      && Seek(Effective(db, ParentRow(db.branches, i).value), db.branches[i].fork.value.event).Some?
  }

  ghost predicate Counted(db: Db, i: nat)
    requires i < |db.branches|
  {
    forall k :: 0 <= k < |OwnOf(db, i)| ==> OwnOf(db, i)[k].record.number == |Shared(db, i)| + k
  }

  /** Rows are laid out as a tree of branches with contiguous sequence numbers. */
  ghost predicate Laid(db: Db) {
    && BranchesAreDistinct(db.branches)
    && EventsAreDistinct(db.events)
    && (forall k :: 0 <= k < |db.events| ==> BranchAt(db.branches, db.events[k].record.branch).Some?)
    && (forall i :: 0 <= i < |db.branches| ==> ForkHolds(db, i) && Counted(db, i))
  }

  /** Each branch continues the chain of what it inherits. */
  ghost predicate Hashed(db: Db) {
    forall i :: 0 <= i < |db.branches| ==> IsChain(OwnOf(db, i), Head(Shared(db, i), Genesis))
  }

  ghost predicate Sound(db: Db) {
    Laid(db) && Hashed(db)
  }

  // ------------------------------------------------------------------ queries

  lemma {:induction false} BranchAtPrefix(branches: seq<Branch>, n: nat, id: string)
    requires n <= |branches| && BranchAt(branches[..n], id).Some?
    ensures BranchAt(branches, id) == BranchAt(branches[..n], id)
    decreases |branches| - n
  {
    if n == |branches| {
      assert branches[..n] == branches;
    } else {
      assert branches[..n + 1][..n] == branches[..n];
      BranchAtPrefix(branches, n + 1, id);
    }
  }

  lemma {:induction false} BranchAtMeans(branches: seq<Branch>, id: string)
    ensures BranchAt(branches, id).None? <==> forall i :: 0 <= i < |branches| ==> branches[i].id != id
  {
    if branches != [] {
      BranchAtMeans(branches[..|branches| - 1], id);
    }
  }

  lemma {:induction false} RowOfBranch(branches: seq<Branch>, i: nat)
    requires i < |branches| && BranchesAreDistinct(branches)
    ensures BranchAt(branches, branches[i].id) == Some(i)
  {
    BranchAtMeans(branches, branches[i].id);
  }

  lemma {:induction false} SeekMeans(log: seq<Event>, id: string)
    ensures Seek(log, id).None? <==> forall i :: 0 <= i < |log| ==> log[i].record.id != id
  {
    if log != [] {
      SeekMeans(log[..|log| - 1], id);
    }
  }

  lemma {:induction false} SeekPrefix(log: seq<Event>, more: seq<Event>, id: string)
    requires Seek(log, id).Some?
    ensures Seek(log + more, id) == Seek(log, id)
    decreases |more|
  {
    if more == [] {
      assert log + more == log;
    } else {
      var init := more[..|more| - 1];
      assert (log + more)[..|log + more| - 1] == log + init;
      SeekPrefix(log, init, id);
    }
  }

  lemma {:induction false} InsertMeans(log: seq<Event>, e: Event)
    ensures forall x :: x in InsertBySeq(log, e) <==> x in log || x == e
    ensures |InsertBySeq(log, e)| == |log| + 1
  {
    if log != [] && log[|log| - 1].record.number > e.record.number {
      InsertMeans(log[..|log| - 1], e);
      assert log == log[..|log| - 1] + [log[|log| - 1]];
    }
  }

  lemma {:induction false} OwnMeans(events: seq<Event>, branch: string)
    ensures forall e :: e in Own(events, branch) <==> e in events && e.record.branch == branch
  {
    if events != [] {
      var n := |events| - 1;
      OwnMeans(events[..n], branch);
      InsertMeans(Own(events[..n], branch), events[n]);
      assert events == events[..n] + [events[n]];
    }
  }

  lemma {:induction false} OwnAppend(events: seq<Event>, e: Event, branch: string)
    ensures Own(events + [e], branch) ==
            if e.record.branch == branch then InsertBySeq(Own(events, branch), e) else Own(events, branch)
  {
    assert (events + [e])[..|events|] == events;
  }

  /** Every event of an effective log is a row of the table. */
  lemma {:induction false} EffectiveIsStored(db: Db, i: nat)
    requires i < |db.branches|
    ensures forall e :: e in Effective(db, i) ==> e in db.events
    ensures forall e :: e in Shared(db, i) ==> e in db.events
    decreases i
  {
    OwnMeans(db.events, db.branches[i].id);
    var p := ParentRow(db.branches, i);
    if p.Some? {
      EffectiveIsStored(db, p.value);
    }
  }

  // ------------------------------------------------- the code finds these logs

  /** The branches from the root down to row `i`. */
  function Line(branches: seq<Branch>, i: nat): seq<Branch>
    requires i < |branches|
    decreases i
  {
    var p := ParentRow(branches, i);
    (if p.None? then [] else Line(branches, p.value)) + [branches[i]]
  }

  lemma {:induction false} ClimbFindsTheLine(db: Db, i: nat, seen: set<string>)
    requires Laid(db) && i < |db.branches|
    requires forall j :: 0 <= j <= i ==> db.branches[j].id !in seen
    ensures Climb(db.branches, db.branches[i].id, seen) == Ok(Line(db.branches, i))
    decreases i
  {
    RowOfBranch(db.branches, i);
    assert ForkHolds(db, i);
    var p := ParentRow(db.branches, i);
    if p.Some? {
      BranchAtPrefix(db.branches, i, db.branches[i].fork.value.parent);
      ClimbFindsTheLine(db, p.value, seen + {db.branches[i].id});
    } else {
      assert [] + [db.branches[i]] == [db.branches[i]];
    }
  }

  lemma {:induction false} UnrollFindsTheLog(db: Db, i: nat)
    requires Laid(db) && i < |db.branches|
    ensures Unroll(db.events, Line(db.branches, i)) == Ok(Effective(db, i))
    decreases i
  {
    assert ForkHolds(db, i);
    var p, line := ParentRow(db.branches, i), Line(db.branches, i);
    if p.Some? {
      UnrollFindsTheLog(db, p.value);
      assert line[..|line| - 1] == Line(db.branches, p.value);
    } else {
      assert [] + OwnOf(db, i) == OwnOf(db, i);
    }
  }

  /** MAIN: in a store laid out as a tree the climb to the root ends without a
      cycle, and unrolling it yields the effective log. */
  lemma {:induction false} LineageEndsAndUnrolls(db: Db, i: nat)
    requires Laid(db) && i < |db.branches|
    ensures LineageOf(db.branches, db.branches[i].id) == Ok(Line(db.branches, i))
    ensures EffectiveOf(db, db.branches[i].id) == Ok(Effective(db, i))
  {
    ClimbFindsTheLine(db, i, {});
    UnrollFindsTheLog(db, i);
  }

  /** MAIN: an event's sequence number is its position in every effective log that
      holds it. */
  lemma {:induction false} SeqIsPosition(db: Db, i: nat)
    requires Laid(db) && i < |db.branches|
    ensures forall k :: 0 <= k < |Effective(db, i)| ==> Effective(db, i)[k].record.number == k
    decreases i
  {
    assert Counted(db, i);
    var p := ParentRow(db.branches, i);
    if p.Some? {
      SeqIsPosition(db, p.value);
    }
  }

  /** MAIN: every effective log, forks and all, is one chain from genesis. */
  lemma {:induction false} EffectiveIsOneChain(db: Db, i: nat)
    requires Sound(db) && i < |db.branches|
    ensures IsChain(Shared(db, i), Genesis)
    ensures IsChain(Effective(db, i), Genesis)
    ensures Verify(Effective(db, i), None) == []
    decreases i
  {
    var p := ParentRow(db.branches, i);
    if p.Some? {
      EffectiveIsOneChain(db, p.value);
      var log := Effective(db, p.value);
      var cut := Seek(log, db.branches[i].fork.value.event);
      if cut.Some? {
        ChainSlice(log, Genesis, cut.value + 1);
      }
    }
    ChainConcat(Shared(db, i), OwnOf(db, i), Genesis);
    VerifiesExactlyTheChains(Effective(db, i), None);
  }

  // ------------------------------------------------------------- a new branch

  /** Logs of branches that were there before do not see a new one. */
  lemma {:induction false} BranchLeavesLogsAlone(db: Db, b: Branch, i: nat)
    requires i < |db.branches|
    ensures var db' := Db(db.branches + [b], db.events);
            && ParentRow(db'.branches, i) == ParentRow(db.branches, i)
            && Shared(db', i) == Shared(db, i) && Effective(db', i) == Effective(db, i)
    decreases i
  {
    var db' := Db(db.branches + [b], db.events);
    assert db'.branches[..i] == db.branches[..i];
    var p := ParentRow(db.branches, i);
    if p.Some? {
      BranchLeavesLogsAlone(db, b, p.value);
    }
  }

  lemma {:induction false} Inhabited(log: seq<Event>)
    ensures log != [] ==> exists e :: e in log
  {
    if log != [] {
      assert log[0] in log;
    }
  }

  lemma {:induction false} NewBranchIsEmpty(db: Db, id: string)
    requires Laid(db) && BranchAt(db.branches, id).None?
    ensures Own(db.events, id) == []
  {
    OwnMeans(db.events, id);
    Inhabited(Own(db.events, id));
  }

  lemma {:induction false} NewBranchForks(db: Db, b: Branch)
    requires Laid(db) && b.fork.Some?
    requires EffectiveOf(db, b.fork.value.parent).Ok?
    requires Seek(EffectiveOf(db, b.fork.value.parent).value, b.fork.value.event).Some?
    ensures var db', n := Db(db.branches + [b], db.events), |db.branches|;
            && ForkHolds(db', n)
            && Upto(EffectiveOf(db, b.fork.value.parent).value, b.fork.value.event) == Ok(Shared(db', n))
  {
    var parent := b.fork.value.parent;
    var row := BranchAt(db.branches, parent);
    assert row.Some?;
    LineageEndsAndUnrolls(db, row.value);
    BranchLeavesLogsAlone(db, b, row.value);
    assert (db.branches + [b])[..|db.branches|] == db.branches;
  }

  /** MAIN: forking copies nothing. The new branch starts as its parent's log up to
      the fork point, and no other log changes. */
  lemma {:induction false} CreatingABranchKeepsSound(db: Db, id: string, run: string,
                                                     parent: Option<string>, fork: Option<string>)
    requires Sound(db) && Created(db, id, run, parent, fork).Ok?
    ensures var db' := Db(db.branches + [Created(db, id, run, parent, fork).value], db.events);
            && Sound(db')
            && (forall i :: 0 <= i < |db.branches| ==> Effective(db', i) == Effective(db, i))
            && Ok(Effective(db', |db.branches|)) ==
               if parent.None? then Ok([]) else Upto(EffectiveOf(db, parent.value).value, fork.value)
  {
    var b, n := Created(db, id, run, parent, fork).value, |db.branches|;
    var db' := Db(db.branches + [b], db.events);
    BranchAtMeans(db.branches, id);
    NewBranchStarts(db, b);
    forall i | 0 <= i < n
      ensures Effective(db', i) == Effective(db, i)
      ensures ForkHolds(db', i) && Counted(db', i) && IsChain(OwnOf(db', i), Head(Shared(db', i), Genesis))
    {
      OldBranchStays(db, b, i);
    }
    OwnersStay(db, b);
  }

  /** The new branch holds what it inherits and nothing of its own. */
  lemma {:induction false} NewBranchStarts(db: Db, b: Branch)
    requires Laid(db) && BranchAt(db.branches, b.id).None?
    requires b.fork.Some? ==>
               && EffectiveOf(db, b.fork.value.parent).Ok?
               && Seek(EffectiveOf(db, b.fork.value.parent).value, b.fork.value.event).Some?
    ensures var db', n := Db(db.branches + [b], db.events), |db.branches|;
            && ForkHolds(db', n) && Counted(db', n) && IsChain(OwnOf(db', n), Head(Shared(db', n), Genesis))
            && Ok(Effective(db', n)) ==
               if b.fork.None? then Ok([]) else Upto(EffectiveOf(db, b.fork.value.parent).value, b.fork.value.event)
  {
    var db', n := Db(db.branches + [b], db.events), |db.branches|;
    NewBranchIsEmpty(db, b.id);
    if b.fork.Some? {
      NewBranchForks(db, b);
    }
    assert OwnOf(db', n) == [];
    assert Shared(db', n) + [] == Shared(db', n);
  }

  lemma {:induction false} OwnersStay(db: Db, b: Branch)
    requires Laid(db)
    ensures forall k :: 0 <= k < |db.events| ==>
              BranchAt(db.branches + [b], db.events[k].record.branch).Some?
  {
    forall k | 0 <= k < |db.events| ensures BranchAt(db.branches + [b], db.events[k].record.branch).Some? {
      assert (db.branches + [b])[..|db.branches|] == db.branches;
      BranchAtPrefix(db.branches + [b], |db.branches|, db.events[k].record.branch);
    }
  }

  lemma {:induction false} OldBranchStays(db: Db, b: Branch, i: nat)
    requires i < |db.branches| && ForkHolds(db, i) && Counted(db, i)
    requires IsChain(OwnOf(db, i), Head(Shared(db, i), Genesis))
    ensures var db' := Db(db.branches + [b], db.events);
            && Effective(db', i) == Effective(db, i)
            && ForkHolds(db', i) && Counted(db', i) && IsChain(OwnOf(db', i), Head(Shared(db', i), Genesis))
  {
    BranchLeavesLogsAlone(db, b, i);
    if ParentRow(db.branches, i).Some? {
      BranchLeavesLogsAlone(db, b, ParentRow(db.branches, i).value);
    }
  }

  // ------------------------------------------------------------- a new event

  /** Between the two states the log of row `i` grew by `e` if it is row `m`, and not at all otherwise. */
  ghost predicate Extends(db: Db, db': Db, i: nat, m: nat, e: Event)
    requires db'.branches == db.branches && i < |db.branches|
  {
    && Shared(db', i) == Shared(db, i)
    && OwnOf(db', i) == OwnOf(db, i) + if i == m then [e] else []
  }

  lemma {:induction false} OwnGrows(db: Db, e: Event, m: nat, i: nat)
    requires Laid(db) && m < |db.branches| && i < |db.branches| && e.record.branch == db.branches[m].id
    requires e.record.number == |Effective(db, m)|
    ensures OwnOf(db.(events := db.events + [e]), i) == OwnOf(db, i) + if i == m then [e] else []
  {
    OwnAppend(db.events, e, db.branches[i].id);
    if i == m {
      assert Counted(db, i);
      var own := OwnOf(db, i);
      assert own != [] ==> own[|own| - 1].record.number == |Shared(db, i)| + |own| - 1;
    }
  }

  /** An event goes to the end of its own branch and nowhere else. */
  lemma {:induction false} EventExtendsOneLog(db: Db, e: Event, m: nat, i: nat)
    requires Laid(db) && m < |db.branches| && i < |db.branches| && e.record.branch == db.branches[m].id
    requires e.record.number == |Effective(db, m)|
    ensures Extends(db, db.(events := db.events + [e]), i, m, e)
    decreases i
  {
    var db' := db.(events := db.events + [e]);
    OwnGrows(db, e, m, i);
    var p := ParentRow(db.branches, i);
    if p.Some? {
      EventExtendsOneLog(db, e, m, p.value);
      assert ForkHolds(db, i);
      ForkSurvives(db, db', e, m, i);
    }
  }

  /** A fork point stays where it is when its branch's parent grows. */
  lemma {:induction false} ForkSurvives(db: Db, db': Db, e: Event, m: nat, i: nat)
    requires db'.branches == db.branches && i < |db.branches| && ParentRow(db.branches, i).Some?
    requires Extends(db, db', ParentRow(db.branches, i).value, m, e)
    requires ForkHolds(db, i)
    ensures Shared(db', i) == Shared(db, i) && ForkHolds(db', i)
  {
    var p, at := ParentRow(db.branches, i).value, db.branches[i].fork.value.event;
    var more := if p == m then [e] else [];
    assert Effective(db', p) == Effective(db, p) + more;
    SeekPrefix(Effective(db, p), more, at);
  }

  /** The next sequence number and the hash to hang on are those of the effective
      log's end, wherever that end was written. */
  lemma {:induction false} NextContinuesTheLog(db: Db, m: nat, run: string)
    requires Sound(db) && m < |db.branches|
    ensures var next := NextSeq(db, db.branches[m].id, run);
            next.Ok? ==> next.value == |Effective(db, m)|
    ensures PrevHash(db, db.branches[m].id) == Ok(Head(Effective(db, m), Genesis))
  {
    RowOfBranch(db.branches, m);
    assert Counted(db, m) && ForkHolds(db, m);
    var own := OwnOf(db, m);
    EffectiveIsOneChain(db, m);
    if own != [] {
      assert Linked(own, Head(Shared(db, m), Genesis), |own| - 1);
    } else if db.branches[m].fork.Some? {
      ForkPointIsTheSharedEnd(db, m);
    }
  }

  lemma {:induction false} ForkPointIsTheSharedEnd(db: Db, m: nat)
    requires Sound(db) && m < |db.branches| && db.branches[m].fork.Some? && OwnOf(db, m) == []
    ensures NextSeq(db, db.branches[m].id, db.branches[m].run) == Ok(|Shared(db, m)|)
    ensures PrevHash(db, db.branches[m].id) == Ok(Head(Shared(db, m), Genesis))
  {
    RowOfBranch(db.branches, m);
    ForkPointIsCounted(db, m);
    ForkPointIsStored(db, m, db.branches[m].fork.value.event);
  }

  lemma {:induction false} ForkPointIsCounted(db: Db, m: nat)
    requires Laid(db) && m < |db.branches| && db.branches[m].fork.Some?
    ensures var log := EffectiveOf(db, db.branches[m].fork.value.parent);
            && log.Ok?
            && var at := Seek(log.value, db.branches[m].fork.value.event);
            && at.Some? && log.value[at.value].record.number + 1 == |Shared(db, m)|
  {
    assert ForkHolds(db, m);
    var p := ParentRow(db.branches, m).value;
    LineageEndsAndUnrolls(db, p);
    SeqIsPosition(db, p);
  }

  lemma {:induction false} ForkPointIsStored(db: Db, m: nat, id: string)
    requires Sound(db) && m < |db.branches| && db.branches[m].fork.Some?
    requires id == db.branches[m].fork.value.event
    ensures HashOf(db.events, id) != NoHash && HashOf(db.events, id) == Head(Shared(db, m), Genesis)
  {
    ForkRow(db, m, id);
    EffectiveIsOneChain(db, m);
    HeadIsHashed(Shared(db, m));
  }

  /** The hash stored with an event id. */
  function HashOf(events: seq<Event>, id: string): Hash {
    var at := Seek(events, id);
    if at.None? then NoHash else events[at.value].hash
  }

  lemma {:induction false} HeadIsHashed(log: seq<Event>)
    requires IsChain(log, Genesis)
    ensures log != [] ==> log[|log| - 1].hash != NoHash
  {
    if log != [] {
      ChainHead(log, Genesis);
    }
  }

  /** Looking the fork event up by its id finds the event the shared prefix ends with. */
  lemma {:induction false} ForkRow(db: Db, m: nat, id: string)
    requires Laid(db) && m < |db.branches| && db.branches[m].fork.Some?
    requires id == db.branches[m].fork.value.event
    ensures Seek(db.events, id).Some?
    ensures var shared := Shared(db, m); shared != [] && HashOf(db.events, id) == shared[|shared| - 1].hash
  {
    assert ForkHolds(db, m);
    var shared := Shared(db, m);
    var last := shared[|shared| - 1];
    EffectiveIsStored(db, m);
    assert last in shared && last.record.id == id;
    SeekMeans(db.events, id);
    var k :| 0 <= k < |db.events| && db.events[k] == last;
    var at := Seek(db.events, id).value;
    assert at == k;
  }

  lemma {:induction false} KnownBranch(db: Db, incoming: NewEvent, now: real)
    requires Laid(db) && Stored(db, incoming, now).Ok?
    ensures BranchAt(db.branches, incoming.branch).Some?
  {
    var own := Own(db.events, incoming.branch);
    OwnMeans(db.events, incoming.branch);
    Inhabited(own);
    if own != [] {
      var e :| e in own;
    }
  }

  /** MAIN: an append that succeeds keeps the store sound, puts the event at the end
      of its own branch's log, and leaves every other effective log as it was. */
  lemma {:induction false} AppendingAnEventKeepsSound(db: Db, incoming: NewEvent, now: real)
    requires Sound(db) && Stored(db, incoming, now).Ok?
    ensures BranchAt(db.branches, incoming.branch).Some?
    ensures var e, m := Stored(db, incoming, now).value, BranchAt(db.branches, incoming.branch).value;
            var db' := db.(events := db.events + [e]);
            && Sound(db')
            && forall i :: 0 <= i < |db.branches| ==>
                 Effective(db', i) == if i == m then Effective(db, m) + [e] else Effective(db, i)
  {
    KnownBranch(db, incoming, now);
    var e, m := Stored(db, incoming, now).value, BranchAt(db.branches, incoming.branch).value;
    var db' := db.(events := db.events + [e]);
    NextContinuesTheLog(db, m, incoming.run);
    SeekMeans(db.events, incoming.id);
    assert EventsAreDistinct(db'.events);
    forall i | 0 <= i < |db.branches|
      ensures Effective(db', i) == if i == m then Effective(db, m) + [e] else Effective(db, i)
      ensures ForkHolds(db', i) && Counted(db', i) && IsChain(OwnOf(db', i), Head(Shared(db', i), Genesis))
    {
      assert Counted(db, i) && ForkHolds(db, i);
      EventExtendsOneLog(db, e, m, i);
      ExtendedStaysSound(db, db', e, m, i);
      if ParentRow(db.branches, i).Some? {
        EventExtendsOneLog(db, e, m, ParentRow(db.branches, i).value);
        ForkSurvives(db, db', e, m, i);
      }
    }
  }

  lemma {:induction false} ExtendedStaysSound(db: Db, db': Db, e: Event, m: nat, i: nat)
    requires db'.branches == db.branches && m < |db.branches| && i < |db.branches|
    requires Extends(db, db', i, m, e)
    requires Counted(db, i) && IsChain(OwnOf(db, i), Head(Shared(db, i), Genesis))
    requires e.record.number == |Effective(db, m)|
    requires e.prev == Head(Effective(db, m), Genesis) && e.hash == Digest(e.prev, e.record)
    ensures Effective(db', i) == if i == m then Effective(db, m) + [e] else Effective(db, i)
    ensures Counted(db', i) && IsChain(OwnOf(db', i), Head(Shared(db', i), Genesis))
  {
    var own, shared := OwnOf(db, i), Shared(db, i);
    if i == m {
      LogEndsWith(shared, own, e);
    } else {
      assert own + [] == own;
    }
  }

  lemma {:induction false} LogEndsWith(shared: seq<Event>, own: seq<Event>, e: Event)
    requires IsChain(own, Head(shared, Genesis))
    requires e.prev == Head(shared + own, Genesis) && e.hash == Digest(e.prev, e.record)
    ensures IsChain(own + [e], Head(shared, Genesis))
    ensures shared + (own + [e]) == (shared + own) + [e]
  {
    ChainAppend(own, e, Head(shared, Genesis));
  }

  // --------------------------------------------------------- batches and runs

  /** The logs of `after` are those of `before` with the added events of each branch behind them. */
  ghost predicate GrownBy(before: Db, after: Db, added: seq<Event>) {
    && after == before.(events := before.events + added)
    && forall i :: 0 <= i < |before.branches| ==>
         Effective(after, i) == Effective(before, i) + Of(added, before.branches[i].id)
  }

  lemma {:induction false} OneEventGrows(db: Db, incoming: NewEvent, now: real)
    requires Sound(db) && Stored(db, incoming, now).Ok?
    ensures var e := Stored(db, incoming, now).value;
            var db' := db.(events := db.events + [e]);
            Sound(db') && GrownBy(db, db', [e])
  {
    AppendingAnEventKeepsSound(db, incoming, now);
    var e, m := Stored(db, incoming, now).value, BranchAt(db.branches, incoming.branch).value;
    forall i | 0 <= i < |db.branches|
      ensures Effective(db.(events := db.events + [e]), i) == Effective(db, i) + Of([e], db.branches[i].id)
    {
      RowOfBranch(db.branches, i);
      OneOf(Effective(db, i), e, db.branches[i].id);
    }
  }

  lemma {:induction false} OneOf(log: seq<Event>, e: Event, branch: string)
    ensures log + Of([e], branch) == if e.record.branch == branch then log + [e] else log
  {
    assert [e][1..] == [];
  }

  lemma {:induction false} LogGrowthAddsUp(x: seq<Event>, y: seq<Event>, z: seq<Event>,
                                           e: Event, more: seq<Event>, branch: string)
    requires y == x + Of([e], branch) && z == y + Of(more, branch)
    ensures z == x + Of([e] + more, branch)
  {
    OfSplits(e, more, branch);
  }

  lemma {:induction false} GrowthAddsUp(a: Db, b: Db, c: Db, e: Event, more: seq<Event>)
    requires GrownBy(a, b, [e]) && GrownBy(b, c, more)
    ensures GrownBy(a, c, [e] + more)
  {
    assert c.events == a.events + ([e] + more);
    forall i | 0 <= i < |a.branches|
      ensures Effective(c, i) == Effective(a, i) + Of([e] + more, a.branches[i].id)
    {
      LogGrowthAddsUp(Effective(a, i), Effective(b, i), Effective(c, i), e, more, a.branches[i].id);
    }
  }

  lemma {:induction false} NoGrowth(db: Db)
    ensures db.(events := db.events + []) == db && GrownBy(db, db.(events := db.events + []), [])
  {
    assert db.events + [] == db.events;
    forall i | 0 <= i < |db.branches|
      ensures Effective(db, i) == Effective(db, i) + Of([], db.branches[i].id)
    {}
  }

  /** MAIN: a batch that goes in extends the log of each branch by the batch's events
      for it, in their order. */
  lemma {:induction false} AppendingABatchKeepsSound(db: Db, news: seq<NewEvent>, now: seq<real>)
    requires Sound(db) && |now| == |news| && Appended(db, news, now).Ok?
    ensures var added := Appended(db, news, now).value;
            var db' := db.(events := db.events + added);
            Sound(db') && GrownBy(db, db', added)
    decreases |news|
  {
    if news == [] {
      NoGrowth(db);
    } else {
      var first := Stored(db, news[0], now[0]).value;
      var mid := db.(events := db.events + [first]);
      OneEventGrows(db, news[0], now[0]);
      AppendingABatchKeepsSound(mid, news[1..], now[1..]);
      var rest := Appended(mid, news[1..], now[1..]).value;
      GrowthAddsUp(db, mid, mid.(events := mid.events + rest), first, rest);
      assert mid.events + rest == db.events + ([first] + rest);
    }
  }

  /** The batch is stored as it was handed over, event by event. */
  lemma {:induction false} BatchCarriesItsEvents(db: Db, news: seq<NewEvent>, now: seq<real>)
    requires |now| == |news| && Appended(db, news, now).Ok?
    ensures var added := Appended(db, news, now).value;
            |added| == |news| && forall k :: 0 <= k < |news| ==> Carries(added[k].record, news[k], now[k])
    decreases |news|
  {
    if news != [] {
      var first := Stored(db, news[0], now[0]).value;
      BatchCarriesItsEvents(db.(events := db.events + [first]), news[1..], now[1..]);
    }
  }

  /** The record holds what the caller asked to be written. */
  predicate Carries(record: Record, incoming: NewEvent, now: real) {
    && record.id == incoming.id && record.run == incoming.run && record.branch == incoming.branch
    && record.body == incoming.body && record.source == incoming.source && record.parent == incoming.parent
    && record.createdAt == now
  }

  /** The events of one branch among some, in their order. */
  function Of(events: seq<Event>, branch: string): seq<Event> {
    if events == [] then []
    else (if events[0].record.branch == branch then [events[0]] else []) + Of(events[1..], branch)
  }

  lemma {:induction false} OfSplits(first: Event, rest: seq<Event>, branch: string)
    ensures Of([first] + rest, branch) == Of([first], branch) + Of(rest, branch)
  {
    assert ([first] + rest)[1..] == rest && [first][1..] == [];
  }

  /** What a caller may ask of a store. */
  datatype Ask =
    | AskBranch(id: string, run: string, parent: Option<string>, fork: Option<string>)
    | AskAppend(news: seq<NewEvent>, now: real)

  function Served(db: Db, ask: Ask): Db {
    match ask
    case AskBranch(id, run, parent, fork) =>
      var r := Created(db, id, run, parent, fork);
      if r.Ok? then Db(db.branches + [r.value], db.events) else db
    case AskAppend(news, now) =>
      var r := Appended(db, news, seq(|news|, _ => now));
      if r.Ok? then db.(events := db.events + r.value) else db
  }

  function ServedAll(db: Db, asks: seq<Ask>): Db
    decreases |asks|
  {
    if asks == [] then db else ServedAll(Served(db, asks[0]), asks[1..])
  }

  lemma {:induction false} ServingKeepsSound(db: Db, ask: Ask)
    requires Sound(db)
    ensures var db' := Served(db, ask);
            && Sound(db')
            && db.branches <= db'.branches && db.events <= db'.events
            && forall i :: 0 <= i < |db.branches| ==> Effective(db, i) <= Effective(db', i)
  {
    match ask
    case AskBranch(id, run, parent, fork) =>
      if Created(db, id, run, parent, fork).Ok? {
        CreatingABranchKeepsSound(db, id, run, parent, fork);
      }
    case AskAppend(news, now) =>
      var clock := seq(|news|, _ => now);
      if Appended(db, news, clock).Ok? {
        AppendingABatchKeepsSound(db, news, clock);
      }
  }

  /** MAIN: whatever a store has been asked to do, refused or not, every branch's
      effective log is found, is numbered by position, and is one chain from
      genesis that the checker is silent about. */
  lemma {:induction false} EveryStoreIsSound(asks: seq<Ask>)
    ensures var db := ServedAll(Db([], []), asks);
            && Sound(db)
            && forall i :: 0 <= i < |db.branches| ==>
                 && EffectiveOf(db, db.branches[i].id) == Ok(Effective(db, i))
                 && (forall k :: 0 <= k < |Effective(db, i)| ==> Effective(db, i)[k].record.number == k)
                 && Verify(Effective(db, i), None) == []
  {
    LogsOnlyGrow(Db([], []), asks);
    var db := ServedAll(Db([], []), asks);
    forall i | 0 <= i < |db.branches|
      ensures EffectiveOf(db, db.branches[i].id) == Ok(Effective(db, i))
      ensures forall k :: 0 <= k < |Effective(db, i)| ==> Effective(db, i)[k].record.number == k
      ensures Verify(Effective(db, i), None) == []
    {
      LineageEndsAndUnrolls(db, i);
      SeqIsPosition(db, i);
      EffectiveIsOneChain(db, i);
    }
  }

  /** MAIN: over any further requests an effective log only ever gets longer. */
  lemma {:induction false} LogsOnlyGrow(db: Db, asks: seq<Ask>)
    requires Sound(db)
    ensures var db' := ServedAll(db, asks);
            && Sound(db')
            && |db.branches| <= |db'.branches|
            && forall i :: 0 <= i < |db.branches| ==> Effective(db, i) <= Effective(db', i)
    decreases |asks|
  {
    if asks != [] {
      ServingKeepsSound(db, asks[0]);
      LogsOnlyGrow(Served(db, asks[0]), asks[1..]);
    }
  }

  /** Only a branch's first event is held to the run that owns the branch: any later
      one may name another run. */
  lemma {:induction false} OwnerIsCheckedOnce(db: Db, incoming: NewEvent, now: real)
    requires Sound(db) && BranchAt(db.branches, incoming.branch).Some?
    requires db.branches[BranchAt(db.branches, incoming.branch).value].run != incoming.run
    requires Seek(db.events, incoming.id).None? && incoming.parent.None?
    ensures Stored(db, incoming, now).Ok? <==> Own(db.events, incoming.branch) != []
  {
    NextContinuesTheLog(db, BranchAt(db.branches, incoming.branch).value, incoming.run);
  }
}
