/** The hash chain over stored events, and the checker that reads it back.

    A hash is kept as the term that produced it, so equal hashes are equal terms:
    the hash function is taken to be injective and never to yield the genesis
    constant, the empty string, or a text that nobody hashed. */
module Chain {
  import opened Events
  import opened Sequences

  /** The ten fields that are hashed; `body` stands for kind, type and payload. */
  datatype Record = Record(
    id: string,
    run: string,
    branch: string,
    number: int,
    body: Body,
    source: string,
    parent: Option<string>,
    createdAt: real)

  /** What a hash column may hold. */
  datatype Hash = NoHash | Genesis | Foreign(text: string) | Digest(prev: Hash, record: Record)

  datatype Event = Event(record: Record, prev: Hash, hash: Hash)

  /** A violation of INV-008, and the event that carries it. */
  datatype Break =
    | WrongStart(id: string)
    | Unhashed(id: string)
    | Unlinked(id: string)
    | Altered(id: string)

  // ------------------------------------------------------------- the checker

  /** What the next event must point at; `None` when there is nothing to compare with. */
  function Expected(events: seq<Event>, start: Option<Hash>): Option<Hash> {
    if events == [] then start
    else if events[|events| - 1].hash == NoHash then None
    else Some(events[|events| - 1].hash)
  }

  predicate IsUnlinked(e: Event, expected: Option<Hash>) {
    expected.Some? && e.prev != expected.value
  }

  predicate IsAltered(e: Event) {
    Digest(e.prev, e.record) != e.hash
  }

  function Check(e: Event, expected: Option<Hash>): seq<Break> {
    if e.hash == NoHash then [Unhashed(e.record.id)]
    else if IsUnlinked(e, expected) && IsAltered(e) then [Unlinked(e.record.id), Altered(e.record.id)]
    else if IsUnlinked(e, expected) then [Unlinked(e.record.id)]
    else if IsAltered(e) then [Altered(e.record.id)]
    else []
  }

  function Breaks(events: seq<Event>, start: Option<Hash>): seq<Break> {
    if events == [] then []
    else
      var n := |events| - 1;
      Breaks(events[..n], start) + Check(events[n], Expected(events[..n], start))
  }

  /** Without a start to compare with, a hashed first event must point at genesis. */
  function StartBreak(events: seq<Event>, start: Option<Hash>): seq<Break> {
    if events != [] && start.None? && events[0].hash != NoHash && events[0].prev != Genesis
    then [WrongStart(events[0].record.id)] else []
  }

  function Verify(events: seq<Event>, start: Option<Hash>): seq<Break> {
    StartBreak(events, start) + Breaks(events, start)
  }

  method CheckEvent(event: Event, expected: Option<Hash>) returns (found: seq<Break>)
    ensures found == Check(event, expected)
  {
    var id := event.record.id;
    found := [];
    if event.hash == NoHash {
      return [Unhashed(id)];
    }
    if expected.Some? && event.prev != expected.value {
      found := [Unlinked(id)];
    }
    if Digest(event.prev, event.record) != event.hash {
      found := found + [Altered(id)];
    }
  }

  method VerifyChain(events: seq<Event>, start: Option<Hash>) returns (breaks: seq<Break>)
    ensures breaks == Verify(events, start)
  {
    breaks := StartBreak(events, start);
    var expected := start;
    for i := 0 to |events|
      invariant expected == Expected(events[..i], start)
      invariant breaks == FoundUpTo(events, start, i)
    {
      FoundOneMore(events, start, i);
      var event := events[i];
      var found := CheckEvent(event, expected);
      breaks := breaks + found;
      expected := if event.hash == NoHash then None else Some(event.hash);
    }
    assert events[..|events|] == events;
  }

  /** What the checker has found when it has read `i` events. */
  function FoundUpTo(events: seq<Event>, start: Option<Hash>, i: nat): seq<Break>
    requires i <= |events|
  {
    StartBreak(events, start) + Breaks(events[..i], start)
  }

  lemma {:induction false} FoundOneMore(events: seq<Event>, start: Option<Hash>, i: nat)
    requires i < |events|
    ensures FoundUpTo(events, start, i + 1) ==
            FoundUpTo(events, start, i) + Check(events[i], Expected(events[..i], start))
    ensures Expected(events[..i + 1], start) == if events[i].hash == NoHash then None else Some(events[i].hash)
  {
    assert events[..i + 1] == events[..i] + [events[i]];
    BreaksAppend(events[..i], events[i], start);
    Regroup(StartBreak(events, start), Breaks(events[..i], start), Check(events[i], Expected(events[..i], start)));
  }

  lemma {:induction false} BreaksAppend(events: seq<Event>, e: Event, start: Option<Hash>)
    ensures Breaks(events + [e], start) ==
            Breaks(events, start) + Check(e, Expected(events, start))
    ensures Expected(events + [e], start) == if e.hash == NoHash then None else Some(e.hash)
  {
    assert (events + [e])[..|events|] == events;
  }

  // ------------------------------------------------- what a sound chain is

  function Before(events: seq<Event>, start: Hash, i: nat): Hash
    requires i <= |events|
  {
    if i == 0 then start else events[i - 1].hash
  }

  /** The hash a chain ends in. */
  function Head(events: seq<Event>, start: Hash): Hash {
    Before(events, start, |events|)
  }

  ghost predicate Linked(events: seq<Event>, start: Hash, i: nat)
    requires i < |events|
  {
    && events[i].prev == Before(events, start, i)
    && events[i].hash == Digest(events[i].prev, events[i].record)
  }

  /** Every event holds the hash of its own record behind the hash before it. */
  ghost predicate IsChain(events: seq<Event>, start: Hash) {
    forall i :: 0 <= i < |events| ==> Linked(events, start, i)
  }

  lemma {:induction false} ChainAppend(events: seq<Event>, e: Event, start: Hash)
    ensures IsChain(events + [e], start) <==>
            && IsChain(events, start)
            && e.prev == Head(events, start) && e.hash == Digest(e.prev, e.record)
    ensures Head(events + [e], start) == e.hash
  {
    var more, n := events + [e], |events|;
    assert forall i :: 0 <= i < n ==> more[i] == events[i];
    if IsChain(more, start) {
      assert Linked(more, start, n);
      forall i | 0 <= i < n ensures Linked(events, start, i) {
        assert Linked(more, start, i);
      }
    }
    if IsChain(events, start) && e.prev == Head(events, start) && e.hash == Digest(e.prev, e.record) {
      forall i | 0 <= i < |more| ensures Linked(more, start, i) {
        assert i < n ==> Linked(events, start, i);
      }
    }
  }

  lemma {:induction false} NoBreaksIffChain(events: seq<Event>, start: Hash)
    requires start != NoHash
    ensures Breaks(events, Some(start)) == [] <==> IsChain(events, start)
    ensures IsChain(events, start) ==> Expected(events, Some(start)) == Some(Head(events, start))
  {
    if events != [] {
      var init, e := events[..|events| - 1], events[|events| - 1];
      assert events == init + [e];
      NoBreaksIffChain(init, start);
      ChainAppend(init, e, start);
      if IsChain(init, start) && e.hash == NoHash {
        assert Breaks(events, Some(start))[0].Unhashed?;
      }
    }
  }

  /** MAIN: the checker is silent exactly on sound chains; a caller who gives no
      start is asking about a chain from genesis. */
  lemma {:induction false} VerifiesExactlyTheChains(events: seq<Event>, start: Option<Hash>)
    requires start != Some(NoHash)
    ensures Verify(events, start) == [] <==>
            IsChain(events, if start.Some? then start.value else Genesis)
  {
    if start.Some? {
      NoBreaksIffChain(events, start.value);
    } else {
      NoBreaksIffChain(events, Genesis);
      SameBreaks(events);
      if IsChain(events, Genesis) && events != [] {
        assert Linked(events, Genesis, 0);
      }
    }
  }

  /** Comparing with genesis and giving no start differ only about the first event. */
  lemma {:induction false} SameBreaks(events: seq<Event>)
    ensures events != [] && (events[0].hash == NoHash || events[0].prev == Genesis) ==>
              Breaks(events, None) == Breaks(events, Some(Genesis))
    ensures events != [] ==> Expected(events, None) == Expected(events, Some(Genesis))
    ensures events != [] && events[0].hash != NoHash && events[0].prev != Genesis ==>
              !IsChain(events, Genesis)
  {
    if events != [] {
      var n := |events| - 1;
      SameBreaks(events[..n]);
      if events[0].prev != Genesis {
        assert !Linked(events, Genesis, 0);
      }
    }
  }

  // ------------------------------------------------------- what tampering shows

  /** MAIN: two chains from genesis that end in the same hash are equal, event for event. */
  lemma {:induction false} EqualHeadsEqualHistories(a: seq<Event>, b: seq<Event>)
    requires IsChain(a, Genesis) && IsChain(b, Genesis)
    requires Head(a, Genesis) == Head(b, Genesis)
    ensures a == b
    decreases |a|
  {
    if a == [] {
      if b != [] {
        ChainHead(b, Genesis);
      }
    } else {
      ChainHead(a, Genesis);
      var a', b' := a[..|a| - 1], b[..|b| - 1];
      assert a == a' + [a[|a| - 1]] && b == b' + [b[|b| - 1]];
      ChainAppend(a', a[|a| - 1], Genesis);
      ChainAppend(b', b[|b| - 1], Genesis);
      EqualHeadsEqualHistories(a', b');
    }
  }

  lemma {:induction false} BreaksOfTail(a: seq<Event>, b: seq<Event>, start: Option<Hash>)
    ensures Breaks(a + b, start) == Breaks(a, start) + Breaks(b, Expected(a, start))
    ensures Expected(a + b, start) == Expected(b, Expected(a, start))
  {
    if b == [] {
      assert a + b == a;
    } else {
      var init, e := b[..|b| - 1], b[|b| - 1];
      assert b == init + [e];
      assert a + b == (a + init) + [e];
      BreaksOfTail(a, init, start);
      BreaksAppend(a + init, e, start);
      BreaksAppend(init, e, Expected(a, start));
      Regroup(Breaks(a, start), Breaks(init, Expected(a, start)), Check(e, Expected(a + init, start)));
    }
  }

  /** MAIN: checking a log in two parts finds what checking it whole finds, the
      second part being started from the last hash of the first. */
  lemma {:induction false} VerifySplits(a: seq<Event>, b: seq<Event>, start: Option<Hash>)
    requires a != [] && a[|a| - 1].hash != NoHash
    ensures Verify(a + b, start) == Verify(a, start) + Verify(b, Some(a[|a| - 1].hash))
  {
    VerifyFront(a, b, start);
  }

  /** When the first part ends without a hash there is nothing to start from, and
      the two parts find what the whole finds exactly when the second part does
      not begin with a hashed event that points elsewhere than genesis. */
  lemma {:induction false} VerifySplitsBlindly(a: seq<Event>, b: seq<Event>, start: Option<Hash>)
    requires a != [] && a[|a| - 1].hash == NoHash
    ensures Verify(a + b, start) == Verify(a, start) + Verify(b, None) <==>
            b == [] || b[0].hash == NoHash || b[0].prev == Genesis
  {
    VerifyFront(a, b, start);
    OnlyWithoutMore(Verify(a, start), StartBreak(b, None), Breaks(b, None));
  }

  lemma {:induction false} VerifyFront(a: seq<Event>, b: seq<Event>, start: Option<Hash>)
    requires a != []
    ensures Verify(a + b, start) == Verify(a, start) + Breaks(b, Expected(a, start))
  {
    BreaksOfTail(a, b, start);
    assert (a + b)[0] == a[0];
    Regroup(StartBreak(a, start), Breaks(a, start), Breaks(b, Expected(a, start)));
  }

  lemma {:induction false} OnlyWithoutMore<T>(x: seq<T>, z: seq<T>, y: seq<T>)
    ensures x + y == x + (z + y) <==> z == []
  {
    if z != [] {
      assert |x + y| < |x + (z + y)|;
    } else {
      assert z + y == y;
    }
  }

  lemma {:induction false} ChainSlice(events: seq<Event>, start: Hash, n: nat)
    requires n <= |events| && IsChain(events, start)
    ensures IsChain(events[..n], start)
    ensures IsChain(events[n..], Before(events, start, n))
  {
    forall i | 0 <= i < n ensures Linked(events[..n], start, i) {
      assert Linked(events, start, i);
    }
    forall i | 0 <= i < |events| - n ensures Linked(events[n..], Before(events, start, n), i) {
      assert Linked(events, start, n + i);
    }
  }

  lemma {:induction false} ChainConcat(a: seq<Event>, b: seq<Event>, start: Hash)
    requires IsChain(a, start) && IsChain(b, Head(a, start))
    ensures IsChain(a + b, start) && Head(a + b, start) == Head(b, Head(a, start))
  {
    forall i | 0 <= i < |a + b| ensures Linked(a + b, start, i) {
      assert if i < |a| then Linked(a, start, i) else Linked(b, Head(a, start), i - |a|);
    }
  }

  lemma {:induction false} ChainHead(events: seq<Event>, start: Hash)
    requires IsChain(events, start) && events != []
    ensures Head(events, start).Digest?
  {
    assert Linked(events, start, |events| - 1);
  }

  /** MAIN: rewriting one record in place, with the stored hashes left alone, is
      reported once and at that event. */
  lemma {:induction false} RewrittenRecordIsTheOnlyBreak(events: seq<Event>, i: nat, record: Record)
    requires IsChain(events, Genesis) && i < |events| && record != events[i].record
    ensures Verify(events[i := events[i].(record := record)], Some(Genesis)) == [Altered(record.id)]
  {
    var e := events[i].(record := record);
    var before, after := events[..i], events[i + 1..];
    assert events[i := e] == (before + [e]) + after;
    ChainSlice(events, Genesis, i);
    ChainSlice(events, Genesis, i + 1);
    assert Linked(events, Genesis, i);
    BreaksOfTail(before + [e], after, Some(Genesis));
    BreaksAppend(before, e, Some(Genesis));
    NoBreaksIffChain(after, e.hash);
    NoBreaksIffChain(before, Genesis);
  }

  /** How many events stand behind a hash. */
  function Height(h: Hash): nat {
    if h.Digest? then 1 + Height(h.prev) else 0
  }

  lemma {:induction false} HeadsClimb(events: seq<Event>, start: Hash)
    requires IsChain(events, start)
    ensures Height(Head(events, start)) == Height(start) + |events|
  {
    if events != [] {
      var init, e := events[..|events| - 1], events[|events| - 1];
      assert events == init + [e];
      ChainAppend(init, e, start);
      HeadsClimb(init, start);
    }
  }

  /** A sound chain started from another hash than its own is flagged at its first event only. */
  lemma {:induction false} WrongStartIsOneBreak(events: seq<Event>, start: Hash, other: Hash)
    requires events != [] && IsChain(events, start) && start != other
    ensures Breaks(events, Some(other)) == [Unlinked(events[0].record.id)]
  {
    var first, rest := events[0], events[1..];
    assert events == [first] + rest && [] + [first] == [first];
    assert Linked(events, start, 0);
    BreaksOfTail([first], rest, Some(other));
    BreaksAppend([], first, Some(other));
    ChainSlice(events, start, 1);
    NoBreaksIffChain(rest, first.hash);
  }

  /** MAIN: cutting events out of the middle and joining the ends is reported once,
      at the first event behind the cut. */
  lemma {:induction false} CutOutEventsBreakTheChainOnce(a: seq<Event>, b: seq<Event>, c: seq<Event>)
    requires IsChain(a + b + c, Genesis) && b != [] && c != []
    ensures Verify(a + c, Some(Genesis)) == [Unlinked(c[0].record.id)]
  {
    var whole := a + b + c;
    ChainSlice(whole, Genesis, |a|);
    ChainSlice(whole, Genesis, |a + b|);
    assert whole[..|a|] == a && whole[..|a + b|] == a + b && whole[|a + b|..] == c;
    HeadsClimb(a, Genesis);
    HeadsClimb(a + b, Genesis);
    NoBreaksIffChain(a, Genesis);
    BreaksOfTail(a, c, Some(Genesis));
    WrongStartIsOneBreak(c, Head(a + b, Genesis), Head(a, Genesis));
  }

  /** What the chain alone cannot see: an older copy of the log verifies, whatever
      was cut off its end. Only a kept head tells the two apart. */
  lemma {:induction false} OlderCopyVerifies(events: seq<Event>, n: nat)
    requires IsChain(events, Genesis) && n <= |events|
    ensures Verify(events[..n], None) == []
    ensures Head(events[..n], Genesis) == Head(events, Genesis) <==> n == |events|
  {
    ChainSlice(events, Genesis, n);
    VerifiesExactlyTheChains(events[..n], None);
    HeadsClimb(events, Genesis);
    HeadsClimb(events[..n], Genesis);
    if n == |events| {
      assert events[..n] == events;
    }
  }
}
