/** The event store: branches that share a prefix by pointing at a fork event, and
    events that are only ever appended. A transaction is one atomic step. */
module Store {
  import opened Events
  import opened Chain

  datatype Fork = Fork(parent: string, event: string)

  datatype Branch = Branch(id: string, run: string, fork: Option<Fork>)

  /** The two tables, rows in the order they were inserted. */
  datatype Db = Db(branches: seq<Branch>, events: seq<Event>)

  /** What a caller hands over; the store adds seq, time and hashes. */
  datatype NewEvent = NewEvent(
    id: string,
    run: string,
    branch: string,
    body: Body,
    source: string,
    parent: Option<string>)

  datatype StoreError =
    | ForkNeedsBoth
    | ForkPointNotInBranch
    | DuplicateBranch
    | UnknownBranch
    | BranchCycle
    | NoForkPoint
    | ForkPointMissing
    | RunDoesNotOwnBranch
    | UnknownParentEvent
    | ParentOnOtherBranch
    | TailWithoutHash
    | DuplicateEvent

  datatype Result<+T> = Ok(value: T) | Err(error: StoreError)

  function Followed<T>(r: Result<seq<T>>, more: seq<T>): Result<seq<T>> {
    if r.Err? then r else Ok(r.value + more)
  }

  function Preceded<T>(some: seq<T>, r: Result<seq<T>>): Result<seq<T>> {
    if r.Err? then r else Ok(some + r.value)
  }

  lemma {:induction false} NothingAdded<T>(r: Result<seq<T>>)
    ensures Followed(r, []) == r && Preceded([], r) == r
  {
    assert r.Ok? ==> r.value + [] == r.value && [] + r.value == r.value;
  }

  lemma {:induction false} FollowedTwice<T>(r: Result<seq<T>>, a: seq<T>, b: seq<T>)
    ensures Followed(Followed(r, a), b) == Followed(r, a + b)
  {
    assert r.Ok? ==> (r.value + a) + b == r.value + (a + b);
  }

  lemma {:induction false} PrecededTwice<T>(a: seq<T>, b: seq<T>, r: Result<seq<T>>)
    ensures Preceded(a, Preceded(b, r)) == Preceded(a + b, r)
  {
    assert r.Ok? ==> a + (b + r.value) == (a + b) + r.value;
  }

  // ----------------------------------------------------------------- queries

  /** Row of the first branch with this id. */
  function BranchAt(branches: seq<Branch>, id: string): (r: Option<nat>)
    ensures r.Some? ==> r.value < |branches| && branches[r.value].id == id
  {
    if branches == [] then None
    else
      var n := |branches| - 1;
      var before := BranchAt(branches[..n], id);
      if before.Some? then before else if branches[n].id == id then Some(n) else None
  }

  /** Position of the first event with this id. */
  function Seek(log: seq<Event>, id: string): (r: Option<nat>)
    ensures r.Some? ==> r.value < |log| && log[r.value].record.id == id
  {
    if log == [] then None
    else
      var n := |log| - 1;
      var before := Seek(log[..n], id);
      if before.Some? then before else if log[n].record.id == id then Some(n) else None
  }

  function InsertBySeq(log: seq<Event>, e: Event): seq<Event> {
    if log == [] || log[|log| - 1].record.number <= e.record.number then log + [e]
    else InsertBySeq(log[..|log| - 1], e) + [log[|log| - 1]]
  }

  /** The events of one branch, ordered by seq. */
  function Own(events: seq<Event>, branch: string): seq<Event> {
    if events == [] then []
    else
      var n := |events| - 1;
      var before := Own(events[..n], branch);
      if events[n].record.branch == branch then InsertBySeq(before, events[n]) else before
  }

  function Ids(branches: seq<Branch>): set<string> {
    set b | b in branches :: b.id
  }

  /** From a branch up to its root, listed from the root down. */
  function Climb(branches: seq<Branch>, id: string, seen: set<string>): Result<seq<Branch>>
    decreases Ids(branches) - seen
  {
    var row := BranchAt(branches, id);
    if row.None? then Ok([])
    else
      var b := branches[row.value];
      if b.id in seen then Err(BranchCycle)
      else if b.fork.None? then Ok([b])
      else
        assert b.id in Ids(branches) - seen;
        Followed(Climb(branches, b.fork.value.parent, seen + {b.id}), [b])
  }

  function LineageOf(branches: seq<Branch>, id: string): Result<seq<Branch>> {
    var up := Climb(branches, id, {});
    if up == Ok([]) then Err(UnknownBranch) else up
  }

  /** The prefix of a log that ends with the event of this id. */
  function Upto(log: seq<Event>, id: string): Result<seq<Event>> {
    var cut := Seek(log, id);
    if cut.None? then Err(ForkPointMissing) else Ok(log[..cut.value + 1])
  }

  /** Each branch of a lineage cuts what it inherits at its fork point and adds its own. */
  function Unroll(events: seq<Event>, lineage: seq<Branch>): Result<seq<Event>> {
    if lineage == [] then Ok([])
    else
      var n := |lineage| - 1;
      var own := Own(events, lineage[n].id);
      var above := Unroll(events, lineage[..n]);
      if n == 0 then Ok(own)
      else if above.Err? then above
      else if lineage[n].fork.None? then Err(NoForkPoint)
      else
        var shared := Upto(above.value, lineage[n].fork.value.event);
        if shared.Err? then shared else Ok(shared.value + own)
  }

  /** The effective log of a branch. */
  function EffectiveOf(db: Db, id: string): Result<seq<Event>> {
    var lineage := LineageOf(db.branches, id);
    if lineage.Err? then Err(lineage.error) else Unroll(db.events, lineage.value)
  }

  // ------------------------------------------------------------------ writes

  function Created(db: Db, id: string, run: string, parent: Option<string>, fork: Option<string>): Result<Branch> {
    if parent.Some? != fork.Some? then Err(ForkNeedsBoth)
    else
      var asked := if parent.Some? then Some(Fork(parent.value, fork.value)) else None;
      var log := if asked.Some? then EffectiveOf(db, asked.value.parent) else Ok([]);
      if log.Err? then Err(log.error)
      else if asked.Some? && Seek(log.value, asked.value.event).None? then Err(ForkPointNotInBranch)
      else if BranchAt(db.branches, id).Some? then Err(DuplicateBranch)
      else Ok(Branch(id, run, asked))
  }

  /** The owner of a branch is looked at for its first event only. */
  function NextSeq(db: Db, branch: string, run: string): Result<int> {
    var own, row := Own(db.events, branch), BranchAt(db.branches, branch);
    if own != [] then Ok(own[|own| - 1].record.number + 1)
    else if row.None? then Err(UnknownBranch)
    else
      var b := db.branches[row.value];
      if b.run != run then Err(RunDoesNotOwnBranch)
      else if b.fork.None? then Ok(0)
      else
        var log := EffectiveOf(db, b.fork.value.parent);
        if log.Err? then Err(log.error)
        else
          var at := Seek(log.value, b.fork.value.event);
          if at.None? then Err(ForkPointMissing) else Ok(log.value[at.value].record.number + 1)
  }

  function PrevHash(db: Db, branch: string): Result<Hash> {
    var own, row := Own(db.events, branch), BranchAt(db.branches, branch);
    if own != [] then
      if own[|own| - 1].hash == NoHash then Err(TailWithoutHash) else Ok(own[|own| - 1].hash)
    else if row.Some? && db.branches[row.value].fork.Some? then
      var at := Seek(db.events, db.branches[row.value].fork.value.event);
      if at.Some? && db.events[at.value].hash != NoHash then Ok(db.events[at.value].hash) else Ok(Genesis)
    else Ok(Genesis)
  }

  function ParentFault(db: Db, incoming: NewEvent): Option<StoreError> {
    if incoming.parent.None? then None
    else
      var at := Seek(db.events, incoming.parent.value);
      if at.None? then Some(UnknownParentEvent)
      else if db.events[at.value].record.branch != incoming.branch then Some(ParentOnOtherBranch)
      else None
  }

  /** The row one new event becomes. */
  function Stored(db: Db, incoming: NewEvent, now: real): Result<Event> {
    var next := NextSeq(db, incoming.branch, incoming.run);
    if next.Err? then Err(next.error)
    else if ParentFault(db, incoming).Some? then Err(ParentFault(db, incoming).value)
    else
      var prev := PrevHash(db, incoming.branch);
      if prev.Err? then Err(prev.error)
      else if Seek(db.events, incoming.id).Some? then Err(DuplicateEvent)
      else
        var record := Record(incoming.id, incoming.run, incoming.branch, next.value, incoming.body, incoming.source, incoming.parent, now);
        Ok(Event(record, prev.value, Digest(prev.value, record)))
  }

  /** A batch goes in as a whole or not at all. */
  function Appended(db: Db, news: seq<NewEvent>, now: seq<real>): Result<seq<Event>>
    requires |now| == |news|
    decreases |news|
  {
    if news == [] then Ok([])
    else
      var first := Stored(db, news[0], now[0]);
      if first.Err? then Err(first.error)
      else
        Preceded([first.value], Appended(db.(events := db.events + [first.value]), news[1..], now[1..]))
  }

  class SqliteStore {
    var branches: seq<Branch>
    var events: seq<Event>

    function Rows(): Db
      reads this
    {
      Db(branches, events)
    }

    constructor ()
      ensures Rows() == Db([], [])
    {
      branches, events := [], [];
    }

    method Lineage(id: string) returns (r: Result<seq<Branch>>)
      ensures r == LineageOf(branches, id)
    {
      var chain: seq<Branch>, seen: set<string> := [], {};
      var row := BranchAt(branches, id);
      ghost var at := id;
      NothingAdded(Climb(branches, id, {}));
      while row.Some?
        invariant row == BranchAt(branches, at)
        invariant Climb(branches, id, {}) == Followed(Climb(branches, at, seen), Reversed(chain))
        decreases Ids(branches) - seen
      {
        var current := branches[row.value];
        if current.id in seen {
          return Err(BranchCycle);
        }
        assert current.id in Ids(branches) - seen;
        ReversedAppend(chain, current);
        FollowedTwice(if current.fork.None? then Ok([])
                      else Climb(branches, current.fork.value.parent, seen + {current.id}),
                      [current], Reversed(chain));
        chain := chain + [current];
        if current.fork.None? {
          assert [] + [current] == [current];
          assert Climb(branches, id, {}) == Ok(Reversed(chain));
          break;
        }
        seen := seen + {current.id};
        at := current.fork.value.parent;
        row := BranchAt(branches, current.fork.value.parent);
      }
      assert [] + Reversed(chain) == Reversed(chain);
      if chain == [] {
        return Err(UnknownBranch);
      }
      r := Ok(Reversed(chain));
    }

    method EffectiveEvents(id: string) returns (r: Result<seq<Event>>)
      ensures r == EffectiveOf(Rows(), id)
    {
      var lineage := Lineage(id);
      if lineage.Err? {
        return Err(lineage.error);
      }
      var chain := lineage.value;
      var out: seq<Event> := [];
      for k := 0 to |chain|
        invariant Unroll(events, chain[..k]) == Ok(out)
      {
        var branch := chain[k];
        UnrollOneMore(events, chain, k, out);
        if k == 0 {
          out := Own(events, branch.id);
          continue;
        }
        if branch.fork.None? {
          UnrollFails(events, chain, k + 1);
          return Err(NoForkPoint);
        }
        var cut := Seek(out, branch.fork.value.event);
        if cut.None? {
          UnrollFails(events, chain, k + 1);
          return Err(ForkPointMissing);
        }
        out := out[..cut.value + 1] + Own(events, branch.id);
      }
      assert chain[..|chain|] == chain;
      r := Ok(out);
    }

    method CreateBranch(id: string, run: string, parent: Option<string>, fork: Option<string>)
      returns (r: Result<Branch>)
      modifies this
      ensures r == Created(old(Rows()), id, run, parent, fork)
      ensures Rows() == if r.Ok? then Db(old(branches) + [r.value], old(events)) else old(Rows())
    {
      if parent.Some? != fork.Some? {
        return Err(ForkNeedsBoth);
      }
      if parent.Some? {
        var log := EffectiveEvents(parent.value);
        if log.Err? {
          return Err(log.error);
        }
        if Seek(log.value, fork.value).None? {
          return Err(ForkPointNotInBranch);
        }
      }
      if BranchAt(branches, id).Some? {
        return Err(DuplicateBranch);
      }
      var branch := Branch(id, run, if parent.Some? then Some(Fork(parent.value, fork.value)) else None);
      branches := branches + [branch];
      r := Ok(branch);
    }

    method AppendOne(incoming: NewEvent, now: real) returns (r: Result<Event>)
      modifies this
      ensures r == Stored(old(Rows()), incoming, now)
      ensures Rows() == if r.Ok? then old(Rows()).(events := old(events) + [r.value]) else old(Rows())
    {
      var next := NextSeq(Rows(), incoming.branch, incoming.run);
      if next.Err? {
        return Err(next.error);
      }
      if incoming.parent.Some? {
        var at := Seek(events, incoming.parent.value);
        if at.None? {
          return Err(UnknownParentEvent);
        }
        if events[at.value].record.branch != incoming.branch {
          return Err(ParentOnOtherBranch);
        }
      }
      var prev := PrevHash(Rows(), incoming.branch);
      if prev.Err? {
        return Err(prev.error);
      }
      if Seek(events, incoming.id).Some? {
        return Err(DuplicateEvent);
      }
      var record := Record(incoming.id, incoming.run, incoming.branch, next.value, incoming.body, incoming.source, incoming.parent, now);
      var event := Event(record, prev.value, Digest(prev.value, record));
      events := events + [event];
      r := Ok(event);
    }

    /** One transaction: the first refusal rolls the whole batch back. */
    method AppendMany(news: seq<NewEvent>, now: seq<real>) returns (r: Result<seq<Event>>)
      requires |now| == |news|
      modifies this
      ensures r == Appended(old(Rows()), news, now)
      ensures Rows() == if r.Ok? then old(Rows()).(events := old(events) + r.value) else old(Rows())
    {
      var before := events;
      var stored: seq<Event> := [];
      assert news[0..] == news && now[0..] == now && before + [] == before;
      NothingAdded(Appended(Rows(), news, now));
      for k := 0 to |news|
        invariant Rows() == old(Rows()).(events := before + stored)
        invariant Appended(old(Rows()), news, now) == Preceded(stored, Appended(Rows(), news[k..], now[k..]))
      {
        assert news[k..][1..] == news[k + 1..] && now[k..][1..] == now[k + 1..];
        var one := AppendOne(news[k], now[k]);
        if one.Err? {
          assert Appended(old(Rows()), news, now) == Err(one.error);
          events := before;
          return Err(one.error);
        }
        PrecededTwice(stored, [one.value], Appended(Rows(), news[k + 1..], now[k + 1..]));
        assert before + stored + [one.value] == before + (stored + [one.value]);
        stored := stored + [one.value];
      }
      assert stored + [] == stored;
      r := Ok(stored);
    }
  }

  function Reversed(s: seq<Branch>): (r: seq<Branch>)
    ensures |r| == |s|
  {
    if s == [] then [] else [s[|s| - 1]] + Reversed(s[..|s| - 1])
  }

  lemma {:induction false} ReversedAppend(s: seq<Branch>, b: Branch)
    ensures Reversed(s + [b]) == [b] + Reversed(s)
  {
    assert (s + [b])[..|s|] == s;
  }

  /** One branch further down a lineage. */
  lemma {:induction false} UnrollOneMore(events: seq<Event>, lineage: seq<Branch>, k: nat, above: seq<Event>)
    requires k < |lineage| && Unroll(events, lineage[..k]) == Ok(above)
    ensures var own := Own(events, lineage[k].id);
            Unroll(events, lineage[..k + 1]) ==
            if k == 0 then Ok(own)
            else if lineage[k].fork.None? then Err(NoForkPoint)
            else
              var shared := Upto(above, lineage[k].fork.value.event);
              if shared.Err? then shared else Ok(shared.value + own)
  {
    assert lineage[..k + 1][..k] == lineage[..k];
  }

  /** A lineage that fails at some branch fails with that error as a whole. */
  lemma {:induction false} UnrollFails(events: seq<Event>, lineage: seq<Branch>, n: nat)
    requires n <= |lineage| && Unroll(events, lineage[..n]).Err?
    ensures Unroll(events, lineage) == Unroll(events, lineage[..n])
    decreases |lineage| - n
  {
    if n == |lineage| {
      assert lineage[..n] == lineage;
    } else {
      assert lineage[..n + 1][..n] == lineage[..n];
      UnrollFails(events, lineage, n + 1);
    }
  }
}
