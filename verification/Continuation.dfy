/** How a log goes on behind a view that was built of it: the loop shows a log at rest,
    and the next thing to join the tree is a message, never the rest of an old turn. */
module Continuation {
  import opened Events
  import opened Reducer
  import opened Pipeline
  import opened View
  import opened Compaction
  import opened Turns
  import opened LoopRuns

  predicate HasTree(more: Log) {
    exists i :: 0 <= i < |more| && IsTree(more[i])
  }

  /** The first tree event of what a log gained, if there is one, opens a turn. */
  predicate GoesOnWithATurn(more: Log) {
    forall i :: 0 <= i < |more| && IsTree(more[i]) && !HasTree(more[..i]) ==> IsBoundary(more[i])
  }

  lemma {:induction false} GoesOnAppend(more: Log, e: Body)
    ensures HasTree(more + [e]) <==> HasTree(more) || IsTree(e)
    ensures GoesOnWithATurn(more + [e]) <==>
            GoesOnWithATurn(more) && (IsTree(e) && !HasTree(more) ==> IsBoundary(e))
  {
    var longer, n := more + [e], |more|;
    assert longer[n] == e && longer[..n] == more;
    assert forall i :: 0 <= i < n ==> longer[i] == more[i] && longer[..i] == more[..i];
    if HasTree(more) {
      var i :| 0 <= i < n && IsTree(more[i]);
      assert IsTree(longer[i]);
    }
  }

  /** Artifacts alone disturb no rest. */
  lemma {:induction false} ArtifactsLeaveAtRest(log: Log, more: Log)
    requires !HasTree(more)
    ensures AtRest(log + more) <==> AtRest(log)
  {
    if more == [] {
      assert log + more == log;
    } else {
      var init, e := more[..|more| - 1], more[|more| - 1];
      assert more == init + [e] && log + more == (log + init) + [e];
      GoesOnAppend(init, e);
      ArtifactsLeaveAtRest(log, init);
      ReduceAppend(log + init, e);
    }
  }

  /** The log behind a view, as a later log has it. */
  predicate WentOn(shown: Log, log: Log) {
    shown <= log && AtRest(shown) && GoesOnWithATurn(log[|shown|..])
  }

  predicate AllWentOn(shown: seq<Log>, log: Log) {
    forall k :: 0 <= k < |shown| ==> WentOn(shown[k], log)
  }

  /** Each of the logs shown goes on with a turn, up to any log shown after it and up to
      the present one. */
  predicate ViewsGoOn(shown: seq<Log>, log: Log) {
    AllWentOn(shown, log) && forall k :: 0 <= k < |shown| ==> AllWentOn(shown[..k], shown[k])
  }

  /** Something has joined the tree since any of them was shown. */
  predicate SpokenSince(shown: seq<Log>, log: Log) {
    forall k :: 0 <= k < |shown| ==> shown[k] <= log && HasTree(log[|shown[k]|..])
  }

  lemma {:induction false} ShowingGoesOn(shown: seq<Log>, log: Log)
    requires ViewsGoOn(shown, log) && AtRest(log)
    ensures ViewsGoOn(shown + [log], log)
  {
    var more, n := shown + [log], |shown|;
    assert more[n] == log && more[..n] == shown && log[|log|..] == [];
    forall k | 0 <= k < |more| ensures WentOn(more[k], log) && AllWentOn(more[..k], more[k]) {
      if k < n {
        assert more[k] == shown[k] && more[..k] == shown[..k] && WentOn(shown[k], log);
      }
    }
  }

  lemma {:induction false} WentOnAppend(shown: Log, log: Log, e: Body)
    requires WentOn(shown, log)
    requires IsTree(e) ==> IsBoundary(e) || HasTree(log[|shown|..])
    ensures WentOn(shown, log + [e])
  {
    assert (log + [e])[|shown|..] == log[|shown|..] + [e];
    GoesOnAppend(log[|shown|..], e);
  }

  lemma {:induction false} EventGoesOn(shown: seq<Log>, log: Log, e: Body)
    requires ViewsGoOn(shown, log) && (IsTree(e) ==> IsBoundary(e) || SpokenSince(shown, log))
    ensures ViewsGoOn(shown, log + [e])
    ensures SpokenSince(shown, log) || IsTree(e) ==> SpokenSince(shown, log + [e])
  {
    forall k | 0 <= k < |shown| ensures WentOn(shown[k], log + [e]) {
      WentOnAppend(shown[k], log, e);
    }
    forall k | 0 <= k < |shown|
      ensures HasTree((log + [e])[|shown[k]|..]) <==> HasTree(log[|shown[k]|..]) || IsTree(e)
    {
      assert (log + [e])[|shown[k]|..] == log[|shown[k]|..] + [e];
      GoesOnAppend(log[|shown[k]|..], e);
    }
  }

  lemma {:induction false} CommitsGoOn(shown: seq<Log>, d: Durable, cs: seq<Commit>)
    requires ViewsGoOn(shown, d.log) && SpokenSince(shown, d.log)
    ensures ViewsGoOn(shown, ApplyAll(d, cs).log) && SpokenSince(shown, ApplyAll(d, cs).log)
    decreases |cs|
  {
    if cs != [] {
      if cs[0].Append? {
        EventGoesOn(shown, d.log, cs[0].event);
      }
      CommitsGoOn(shown, Apply(d, cs[0]), cs[1..]);
    }
  }

  /** Where a call is open or someone is being asked, something has joined the tree
      since the last view. */
  lemma {:induction false} UnrestMeansSpoken(shown: seq<Log>, log: Log)
    requires ViewsGoOn(shown, log) && !AtRest(log)
    ensures SpokenSince(shown, log)
  {
    forall k | 0 <= k < |shown| ensures shown[k] <= log && HasTree(log[|shown[k]|..]) {
      assert WentOn(shown[k], log);
      var more := log[|shown[k]|..];
      assert shown[k] + more == log;
      if !HasTree(more) {
        ArtifactsLeaveAtRest(shown[k], more);
      }
    }
  }

  // ------------------------------------------------------------ as items

  /** The tree events a log gains. */
  function Gained(log: Log, more: Log): seq<Item> {
    TreeItemsGrow(log, more);
    TreeItems(log + more)[|TreeItems(log)|..]
  }

  lemma {:induction false} TreeItemsGrow(log: Log, more: Log)
    ensures TreeItems(log) <= TreeItems(log + more)
  {
    if more == [] {
      assert log + more == log;
    } else {
      assert (log + more)[..|log + more| - 1] == log + more[..|more| - 1];
      TreeItemsGrow(log, more[..|more| - 1]);
    }
  }

  lemma {:induction false} GainedOpensATurn(log: Log, more: Log)
    requires GoesOnWithATurn(more)
    ensures Gained(log, more) != [] <==> HasTree(more)
    ensures Gained(log, more) != [] ==> IsBoundary(Gained(log, more)[0].body)
  {
    if more == [] {
      assert log + more == log;
    } else {
      var init, e := more[..|more| - 1], more[|more| - 1];
      assert more == init + [e] && log + more == (log + init) + [e];
      GoesOnAppend(init, e);
      GainedOpensATurn(log, init);
      TreeItemsGrow(log, init);
      TreeItemsAppend(log + init, e);
      assert Gained(log, more) == Gained(log, init) + if IsTree(e) then [Item(|log + init|, e)] else [];
    }
  }
}
