/** The history part of a model request: a log read once, from left to right, into
    blocks. Tool calls of one turn are one batch, which stays or goes as a whole. */
module View {
  import opened Events
  import opened Sequences

  /** An event and its id. */
  datatype Item = Item(id: nat, body: Body)

  datatype Role = RoleUser | RoleAssistant | RoleTool

  /** A block's text is computed from the events it shows, and from nothing else. */
  datatype Block = Block(role: Role, shows: seq<Item>)

  datatype Fault = TornBatch(id: nat) | DuplicateResult(id: nat) | OrphanResult(id: nat)

  /** The renderer's variables. */
  datatype Draft = Draft(
    blocks: seq<Block>,
    faults: seq<Fault>,
    dropped: seq<nat>,
    batch: seq<Item>,
    results: map<string, Item>)

  const BLANK: Draft := Draft([], [], [], [], map[])

  predicate IsBoundary(b: Body) {
    b.AgentMessage? || b.UserMessage?
  }

  /** A call id as the renderer compares it; a missing one reads as a word. */
  function CallText(b: Body): string
    requires b.ToolCall? || b.ToolResult?
  {
    if b.call.Some? then b.call.value else "None"
  }

  predicate AreCalls(items: seq<Item>) {
    forall k :: 0 <= k < |items| ==> items[k].body.ToolCall?
  }

  function Ids(items: seq<Item>): seq<nat> {
    if items == [] then [] else Ids(items[..|items| - 1]) + [items[|items| - 1].id]
  }

  /** The results at hand, in the order of the calls they answer. */
  function ResultsInOrder(batch: seq<Item>, results: map<string, Item>): seq<Item>
    requires AreCalls(batch)
  {
    if batch == [] then []
    else
      var n := |batch| - 1;
      var c := CallText(batch[n].body);
      ResultsInOrder(batch[..n], results) + if c in results then [results[c]] else []
  }

  predicate Complete(batch: seq<Item>, results: map<string, Item>)
    requires AreCalls(batch)
  {
    forall k :: 0 <= k < |batch| ==> CallText(batch[k].body) in results
  }

  predicate InBatch(batch: seq<Item>, c: string)
    requires AreCalls(batch)
  {
    exists k :: 0 <= k < |batch| && CallText(batch[k].body) == c
  }

  function ToolBlocks(answers: seq<Item>): seq<Block> {
    if answers == [] then []
    else ToolBlocks(answers[..|answers| - 1]) + [Block(RoleTool, [answers[|answers| - 1]])]
  }

  /** Closes the batch: all of it becomes blocks, or all of it is dropped. */
  function Flush(d: Draft): Draft
    requires AreCalls(d.batch)
  {
    if d.batch == [] then d
    else if Complete(d.batch, d.results) then
      Draft(d.blocks + [Block(RoleAssistant, d.batch)] + ToolBlocks(ResultsInOrder(d.batch, d.results)),
            d.faults, d.dropped, [], map[])
    else
      Draft(d.blocks, d.faults + [TornBatch(d.batch[0].id)],
            d.dropped + Ids(d.batch) + Ids(ResultsInOrder(d.batch, d.results)), [], map[])
  }

  function Advance(d: Draft, e: Item): (r: Draft)
    requires AreCalls(d.batch)
    ensures AreCalls(r.batch)
  {
    match e.body
    case AgentMessage(_, _) => var f := Flush(d); f.(blocks := f.blocks + [Block(RoleAssistant, [e])])
    case UserMessage(_) => var f := Flush(d); f.(blocks := f.blocks + [Block(RoleUser, [e])])
    case ToolCall(_, _, _) => d.(batch := d.batch + [e])
    case ToolResult(_, _, _, _) =>
      var c := CallText(e.body);
      if c in d.results then d.(faults := d.faults + [DuplicateResult(e.id)], dropped := d.dropped + [e.id])
      else if !InBatch(d.batch, c) then
        d.(faults := d.faults + [OrphanResult(e.id)], dropped := d.dropped + [e.id])
      else d.(results := d.results[c := e])
    case Interrupt(_, _, _, _, _) => d.(blocks := d.blocks + [Block(RoleUser, [e])])
    case Resume(_, _, _, _) => d.(blocks := d.blocks + [Block(RoleUser, [e])])
    case _ => d
  }

  function Sketch(items: seq<Item>): (d: Draft)
    ensures AreCalls(d.batch)
  {
    if items == [] then BLANK else Advance(Sketch(items[..|items| - 1]), items[|items| - 1])
  }

  /** The rendered history, its faults, and what had to be dropped. */
  function Rendered(items: seq<Item>): Draft {
    Flush(Sketch(items))
  }

  lemma {:induction false} SketchAppend(items: seq<Item>, e: Item)
    ensures Sketch(items + [e]) == Advance(Sketch(items), e)
  {
    assert (items + [e])[..|items|] == items;
  }

  // ------------------------------------------------------------------ methods

  method FlushBatch(d: Draft) returns (r: Draft)
    requires AreCalls(d.batch)
    ensures r == Flush(d)
  {
    if d.batch == [] {
      return d;
    }
    var missing := 0;
    for k := 0 to |d.batch|
      invariant missing == 0 <==> Complete(d.batch[..k], d.results)
      invariant missing >= 0
    {
      CompleteUpTo(d.batch, d.results, k);
      if CallText(d.batch[k].body) !in d.results {
        missing := missing + 1;
      }
    }
    assert d.batch[..|d.batch|] == d.batch;
    var answers: seq<Item> := [];
    for k := 0 to |d.batch|
      invariant answers == ResultsInOrder(d.batch[..k], d.results)
    {
      assert d.batch[..k + 1][..k] == d.batch[..k];
      var c := CallText(d.batch[k].body);
      if c in d.results {
        answers := answers + [d.results[c]];
      }
    }
    if missing > 0 {
      return Draft(d.blocks, d.faults + [TornBatch(d.batch[0].id)],
                   d.dropped + Ids(d.batch) + Ids(answers), [], map[]);
    }
    r := Draft(d.blocks + [Block(RoleAssistant, d.batch)] + ToolBlocks(answers), d.faults, d.dropped, [], map[]);
  }

  lemma {:induction false} CompleteUpTo(batch: seq<Item>, results: map<string, Item>, k: nat)
    requires AreCalls(batch) && k < |batch|
    ensures Complete(batch[..k + 1], results) <==>
            Complete(batch[..k], results) && CallText(batch[k].body) in results
  {
    var more, some := batch[..k + 1], batch[..k];
    assert more[k] == batch[k] && forall j :: 0 <= j < k ==> more[j] == some[j];
    if Complete(more, results) {
      assert CallText(more[k].body) in results;
      forall j | 0 <= j < k ensures CallText(some[j].body) in results {
        assert CallText(more[j].body) in results;
      }
    }
  }

  method RenderHistory(items: seq<Item>) returns (blocks: seq<Block>, faults: seq<Fault>, dropped: seq<nat>)
    ensures var r := Rendered(items); blocks == r.blocks && faults == r.faults && dropped == r.dropped
  {
    var d := BLANK;
    for k := 0 to |items|
      invariant d == Sketch(items[..k])
    {
      var e := items[k];
      assert items[..k + 1] == items[..k] + [e];
      SketchAppend(items[..k], e);
      match e.body {
        case AgentMessage(_, _) =>
          d := FlushBatch(d);
          d := d.(blocks := d.blocks + [Block(RoleAssistant, [e])]);
        case UserMessage(_) =>
          d := FlushBatch(d);
          d := d.(blocks := d.blocks + [Block(RoleUser, [e])]);
        case ToolCall(_, _, _) =>
          d := d.(batch := d.batch + [e]);
        case ToolResult(_, _, _, _) =>
          var c := CallText(e.body);
          if c in d.results {
            d := d.(faults := d.faults + [DuplicateResult(e.id)], dropped := d.dropped + [e.id]);
          } else if !InBatch(d.batch, c) {
            d := d.(faults := d.faults + [OrphanResult(e.id)], dropped := d.dropped + [e.id]);
          } else {
            d := d.(results := d.results[c := e]);
          }
        case Interrupt(_, _, _, _, _) =>
          d := d.(blocks := d.blocks + [Block(RoleUser, [e])]);
        case Resume(_, _, _, _) =>
          d := d.(blocks := d.blocks + [Block(RoleUser, [e])]);
        case _ =>
      }
    }
    assert items[..|items|] == items;
    d := FlushBatch(d);
    blocks, faults, dropped := d.blocks, d.faults, d.dropped;
  }

  // ----------------------------------------------------- conservation of events

  function BlockIds(blocks: seq<Block>): seq<nat> {
    if blocks == [] then [] else BlockIds(blocks[..|blocks| - 1]) + Ids(blocks[|blocks| - 1].shows)
  }

  lemma {:induction false} BlockIdsConcat(a: seq<Block>, b: seq<Block>)
    ensures BlockIds(a + b) == BlockIds(a) + BlockIds(b)
  {
    if b == [] {
      assert a + b == a;
    } else {
      var init, last := b[..|b| - 1], b[|b| - 1];
      assert b == init + [last] && a + b == (a + init) + [last];
      BlockIdsConcat(a, init);
      BlockAdded(a + init, last);
      BlockAdded(init, last);
      Regroup(BlockIds(a), BlockIds(init), Ids(last.shows));
    }
  }

  lemma {:induction false} ToolBlockIds(answers: seq<Item>)
    ensures BlockIds(ToolBlocks(answers)) == Ids(answers)
  {
    if answers != [] {
      ToolBlockIds(answers[..|answers| - 1]);
      var last := answers[|answers| - 1];
      assert Ids([last]) == [last.id] by {
        assert [last][..0] == [];
      }
      BlockIdsConcat(ToolBlocks(answers[..|answers| - 1]), [Block(RoleTool, [last])]);
      assert [Block(RoleTool, [last])][..0] == [];
    }
  }

  predicate DistinctCalls(items: seq<Item>) {
    forall i, j :: 0 <= i < j < |items| && items[i].body.ToolCall? && items[j].body.ToolCall? ==>
      CallText(items[i].body) != CallText(items[j].body)
  }

  /** Where every event that was read is now: in a block, dropped, or in the open batch. */
  function Held(d: Draft): multiset<nat>
    requires AreCalls(d.batch)
  {
    multiset(BlockIds(d.blocks)) + multiset(d.dropped)
    + multiset(Ids(d.batch)) + multiset(Ids(ResultsInOrder(d.batch, d.results)))
  }

  lemma {:induction false} IdsConcat(a: seq<Item>, b: seq<Item>)
    ensures Ids(a + b) == Ids(a) + Ids(b)
  {
    if b == [] {
      assert a + b == a;
    } else {
      assert (a + b)[..|a + b| - 1] == a + b[..|b| - 1];
      IdsConcat(a, b[..|b| - 1]);
    }
  }

  lemma {:induction false} OneId(e: Item)
    ensures Ids([e]) == [e.id]
  {
    assert [e][..0] == [];
  }

  lemma {:induction false} BlockAdded(blocks: seq<Block>, b: Block)
    ensures BlockIds(blocks + [b]) == BlockIds(blocks) + Ids(b.shows)
  {
    assert (blocks + [b])[..|blocks|] == blocks;
  }

  lemma {:induction false} FlushHolds(d: Draft)
    requires AreCalls(d.batch)
    ensures Held(Flush(d)) == Held(d)
    ensures d.batch == [] ==> Flush(d) == d
    ensures d.batch != [] ==> Flush(d).results == map[]
  {
    if d.batch != [] && Complete(d.batch, d.results) {
      var answers := ResultsInOrder(d.batch, d.results);
      BlockAdded(d.blocks, Block(RoleAssistant, d.batch));
      BlockIdsConcat(d.blocks + [Block(RoleAssistant, d.batch)], ToolBlocks(answers));
      ToolBlockIds(answers);
    }
  }

  lemma {:induction false} AnswersIgnore(batch: seq<Item>, results: map<string, Item>, c: string, e: Item)
    requires AreCalls(batch) && !InBatch(batch, c)
    ensures ResultsInOrder(batch, results[c := e]) == ResultsInOrder(batch, results)
  {
    if batch != [] {
      InBatchLast(batch, c);
      AnswersIgnore(batch[..|batch| - 1], results, c, e);
    }
  }

  lemma {:induction false} AnswersConcat(a: seq<Item>, b: seq<Item>, results: map<string, Item>)
    requires AreCalls(a) && AreCalls(b)
    ensures ResultsInOrder(a + b, results) == ResultsInOrder(a, results) + ResultsInOrder(b, results)
  {
    if b == [] {
      assert a + b == a;
    } else {
      assert (a + b)[..|a + b| - 1] == a + b[..|b| - 1];
      AnswersConcat(a, b[..|b| - 1], results);
    }
  }

  lemma {:induction false} AnswersAround(a: seq<Item>, call: Item, b: seq<Item>, results: map<string, Item>)
    requires AreCalls(a) && call.body.ToolCall? && AreCalls(b)
    ensures var c := CallText(call.body);
            ResultsInOrder(a + [call] + b, results) ==
            ResultsInOrder(a, results) + (if c in results then [results[c]] else []) + ResultsInOrder(b, results)
  {
    AnswersConcat(a + [call], b, results);
    AnswersConcat(a, [call], results);
    assert [call][..0] == [];
  }

  lemma {:induction false} IdsAround(a: seq<Item>, e: Item, b: seq<Item>)
    ensures multiset(Ids(a + [e] + b)) == multiset(Ids(a + b)) + multiset{e.id}
  {
    IdsConcat(a + [e], b);
    IdsConcat(a, [e]);
    IdsConcat(a, b);
    OneId(e);
  }

  lemma {:induction false} AnswerAddedAt(a: seq<Item>, call: Item, b: seq<Item>, results: map<string, Item>, e: Item)
    requires AreCalls(a) && call.body.ToolCall? && AreCalls(b) && AreCalls(a + [call] + b)
    requires CallText(call.body) !in results
    requires !InBatch(a, CallText(call.body)) && !InBatch(b, CallText(call.body))
    ensures var batch, more := a + [call] + b, results[CallText(call.body) := e];
            multiset(Ids(ResultsInOrder(batch, more))) == multiset(Ids(ResultsInOrder(batch, results))) + multiset{e.id}
  {
    var c := CallText(call.body);
    AnswersAround(a, call, b, results);
    AnswersAround(a, call, b, results[c := e]);
    AnswersIgnore(a, results, c, e);
    AnswersIgnore(b, results, c, e);
    IdsAround(ResultsInOrder(a, results), e, ResultsInOrder(b, results));
    assert ResultsInOrder(a, results) + [] + ResultsInOrder(b, results) == ResultsInOrder(a, results) + ResultsInOrder(b, results);
  }

  lemma {:induction false} CalledOnce(batch: seq<Item>, k: nat)
    requires AreCalls(batch) && DistinctCalls(batch) && k < |batch|
    ensures !InBatch(batch[..k], CallText(batch[k].body)) && !InBatch(batch[k + 1..], CallText(batch[k].body))
  {
    var c := CallText(batch[k].body);
    forall j | 0 <= j < |batch| && j != k ensures CallText(batch[j].body) != c {}
    var after := batch[k + 1..];
    forall j | 0 <= j < |after| ensures CallText(after[j].body) != c {
      assert after[j] == batch[k + 1 + j];
    }
  }

  /** A result joins the batch's answers exactly once when its call is there exactly once. */
  lemma {:induction false} AnswerAdded(batch: seq<Item>, results: map<string, Item>, c: string, e: Item)
    requires AreCalls(batch) && DistinctCalls(batch) && c !in results && InBatch(batch, c)
    ensures multiset(Ids(ResultsInOrder(batch, results[c := e]))) ==
            multiset(Ids(ResultsInOrder(batch, results))) + multiset{e.id}
  {
    var k :| 0 <= k < |batch| && CallText(batch[k].body) == c;
    CalledOnce(batch, k);
    assert batch == batch[..k] + [batch[k]] + batch[k + 1..];
    AnswerAddedAt(batch[..k], batch[k], batch[k + 1..], results, e);
  }

  lemma {:induction false} InBatchLast(batch: seq<Item>, c: string)
    requires AreCalls(batch) && batch != []
    ensures InBatch(batch, c) <==> InBatch(batch[..|batch| - 1], c) || CallText(batch[|batch| - 1].body) == c
  {
    var init := batch[..|batch| - 1];
    if InBatch(init, c) {
      var k :| 0 <= k < |init| && CallText(init[k].body) == c;
      assert batch[k] == init[k];
    }
    if InBatch(batch, c) {
      var k :| 0 <= k < |batch| && CallText(batch[k].body) == c;
      assert k < |init| ==> init[k] == batch[k];
    }
  }

  /** Results are only ever held for calls of the batch at hand. */
  predicate ResultsInBatch(d: Draft)
    requires AreCalls(d.batch)
  {
    forall c :: c in d.results ==> InBatch(d.batch, c)
  }

  lemma {:induction false} CallAdded(d: Draft, e: Item)
    requires AreCalls(d.batch) && ResultsInBatch(d) && e.body.ToolCall? && !InBatch(d.batch, CallText(e.body))
    ensures Held(d.(batch := d.batch + [e])) == Held(d) + multiset{e.id}
  {
    assert (d.batch + [e])[..|d.batch|] == d.batch;
    assert ResultsInOrder(d.batch + [e], d.results) == ResultsInOrder(d.batch, d.results);
    IdsConcat(d.batch, [e]);
    OneId(e);
  }

  lemma {:induction false} AdvanceHolds(d: Draft, e: Item)
    requires AreCalls(d.batch) && DistinctCalls(d.batch) && ResultsInBatch(d) && IsTree(e.body)
    requires e.body.ToolCall? ==> !InBatch(d.batch, CallText(e.body))
    ensures Held(Advance(d, e)) == Held(d) + multiset{e.id}
  {
    OneId(e);
    if IsBoundary(e.body) {
      FlushHolds(d);
      var f := Flush(d);
      BlockAdded(f.blocks, Advance(d, e).blocks[|f.blocks|]);
    } else if e.body.ToolCall? {
      CallAdded(d, e);
    } else if e.body.ToolResult? {
      var c := CallText(e.body);
      if c !in d.results && InBatch(d.batch, c) {
        AnswerAdded(d.batch, d.results, c, e);
      }
    } else {
      BlockAdded(d.blocks, Block(RoleUser, [e]));
    }
  }

  predicate HasCall(items: seq<Item>, c: string) {
    exists k :: 0 <= k < |items| && items[k].body.ToolCall? && CallText(items[k].body) == c
  }

  lemma {:induction false} HasCallAppend(items: seq<Item>, e: Item, c: string)
    ensures HasCall(items + [e], c) <==> HasCall(items, c) || (e.body.ToolCall? && CallText(e.body) == c)
  {
    var more := items + [e];
    if HasCall(items, c) {
      var k :| 0 <= k < |items| && items[k].body.ToolCall? && CallText(items[k].body) == c;
      assert more[k] == items[k];
    }
    assert more[|items|] == e;
  }

  lemma {:induction false} DistinctAppend(items: seq<Item>, e: Item)
    ensures DistinctCalls(items + [e]) <==>
            DistinctCalls(items) && (e.body.ToolCall? ==> !HasCall(items, CallText(e.body)))
  {
    var more, n := items + [e], |items|;
    assert more[n] == e && forall k :: 0 <= k < n ==> more[k] == items[k];
    if e.body.ToolCall? && HasCall(items, CallText(e.body)) {
      var k :| 0 <= k < n && items[k].body.ToolCall? && CallText(items[k].body) == CallText(e.body);
      assert CallText(more[k].body) == CallText(more[n].body);
    }
  }

  lemma {:induction false} InBatchIsHasCall(batch: seq<Item>, c: string)
    requires AreCalls(batch)
    ensures InBatch(batch, c) <==> HasCall(batch, c)
  {}

  /** What holds of the renderer's variables when no call id occurs twice. */
  ghost predicate Tidy(items: seq<Item>, d: Draft)
    requires AreCalls(d.batch)
  {
    && DistinctCalls(d.batch) && ResultsInBatch(d)
    && forall c :: HasCall(d.batch, c) ==> HasCall(items, c)
  }

  lemma {:induction false} AdvanceTidy(items: seq<Item>, d: Draft, e: Item)
    requires AreCalls(d.batch) && Tidy(items, d) && DistinctCalls(items + [e])
    ensures Tidy(items + [e], Advance(d, e))
  {
    DistinctAppend(items, e);
    var r := Advance(d, e);
    forall c | HasCall(r.batch, c) ensures HasCall(items + [e], c) {
      HasCallAppend(items, e, c);
      HasCallAppend(d.batch, e, c);
    }
    if e.body.ToolCall? {
      DistinctAppend(d.batch, e);
      forall c | c in r.results ensures InBatch(r.batch, c) {
        InBatchIsHasCall(d.batch, c);
        HasCallAppend(d.batch, e, c);
        InBatchIsHasCall(r.batch, c);
      }
    }
  }

  predicate AllTree(items: seq<Item>) {
    forall k :: 0 <= k < |items| ==> IsTree(items[k].body)
  }

  lemma {:induction false} SketchHolds(items: seq<Item>)
    requires DistinctCalls(items) && AllTree(items)
    ensures Tidy(items, Sketch(items))
    ensures Held(Sketch(items)) == multiset(Ids(items))
  {
    if items != [] {
      var init, e := items[..|items| - 1], items[|items| - 1];
      assert items == init + [e];
      DistinctAppend(init, e);
      SketchHolds(init);
      AdvanceTidy(init, Sketch(init), e);
      if e.body.ToolCall? {
        InBatchIsHasCall(Sketch(init).batch, CallText(e.body));
      }
      AdvanceHolds(Sketch(init), e);
    } else {
      assert ResultsInOrder([], map[]) == [];
    }
  }

  /** MAIN: nothing is lost and nothing doubled. With call ids used once, every event
      handed to the renderer ends in exactly one block or in the dropped list. */
  lemma {:induction false} RenderingConservesEvents(items: seq<Item>)
    requires DistinctCalls(items) && AllTree(items)
    ensures var r := Rendered(items);
            multiset(BlockIds(r.blocks)) + multiset(r.dropped) == multiset(Ids(items))
  {
    SketchHolds(items);
    var d := Sketch(items);
    FlushHolds(d);
    if d.batch == [] {
      assert Ids(ResultsInOrder(d.batch, d.results)) == [];
    }
    assert Held(Rendered(items)) == multiset(Ids(items));
    assert ResultsInOrder([], Rendered(items).results) == [];
  }

  // ------------------------------------------------------------- whole batches

  /** Block `i` shows calls, and the blocks behind it show their results, one each
      and in the calls' order. */
  ghost predicate BatchAt(blocks: seq<Block>, i: nat)
    requires i < |blocks|
  {
    var calls := blocks[i].shows;
    && i + |calls| < |blocks|
    && AreCalls(calls)
    && forall k :: 0 <= k < |calls| ==> AnswersCall(blocks[i + 1 + k], calls[k])
  }

  predicate AnswersCall(b: Block, call: Item)
    requires call.body.ToolCall?
  {
    && b.role == RoleTool && |b.shows| == 1 && b.shows[0].body.ToolResult?
    && CallText(b.shows[0].body) == CallText(call.body)
  }

  predicate ShowsCalls(b: Block) {
    b.shows != [] && b.shows[0].body.ToolCall?
  }

  /** Every block of calls is followed by its results, and every result stands in
      such a place: the vendor never sees one side of a pair alone. */
  ghost predicate BatchesAreWhole(blocks: seq<Block>) {
    CallsAnswered(blocks) && ResultsOwned(blocks)
  }

  ghost predicate CallsAnswered(blocks: seq<Block>) {
    forall i :: 0 <= i < |blocks| && ShowsCalls(blocks[i]) ==> BatchAt(blocks, i)
  }

  ghost predicate Owned(blocks: seq<Block>, j: nat) {
    exists i :: 0 <= i < j && i < |blocks| && ShowsCalls(blocks[i]) && j <= i + |blocks[i].shows|
  }

  ghost predicate ResultsOwned(blocks: seq<Block>) {
    forall j :: 0 <= j < |blocks| && blocks[j].role == RoleTool ==> Owned(blocks, j)
  }

  lemma {:induction false} CallsConcat(a: seq<Block>, b: seq<Block>)
    requires CallsAnswered(a) && CallsAnswered(b)
    ensures CallsAnswered(a + b)
  {
    var c, n := a + b, |a|;
    forall i | 0 <= i < |c| && ShowsCalls(c[i]) ensures BatchAt(c, i) {
      if i < n {
        assert BatchAt(a, i);
        assert forall j :: 0 <= j < n ==> c[j] == a[j];
      } else {
        assert BatchAt(b, i - n);
        forall k | 0 <= k < |c[i].shows| ensures AnswersCall(c[i + 1 + k], c[i].shows[k]) {
          assert c[i + 1 + k] == b[i - n + 1 + k];
        }
      }
    }
  }

  lemma {:induction false} ResultsConcat(a: seq<Block>, b: seq<Block>)
    requires ResultsOwned(a) && ResultsOwned(b)
    ensures ResultsOwned(a + b)
  {
    var c, n := a + b, |a|;
    forall j | 0 <= j < |c| && c[j].role == RoleTool ensures Owned(c, j) {
      if j < n {
        assert Owned(a, j);
        var i :| 0 <= i < j && i < n && ShowsCalls(a[i]) && j <= i + |a[i].shows|;
        assert c[i] == a[i];
      } else {
        assert Owned(b, j - n);
        var i :| 0 <= i < j - n && i < |b| && ShowsCalls(b[i]) && j - n <= i + |b[i].shows|;
        assert c[n + i] == b[i];
      }
    }
  }

  lemma {:induction false} WholeConcat(a: seq<Block>, b: seq<Block>)
    requires BatchesAreWhole(a) && BatchesAreWhole(b)
    ensures BatchesAreWhole(a + b)
  {
    CallsConcat(a, b);
    ResultsConcat(a, b);
  }

  lemma {:induction false} OneBlockIsWhole(b: Block)
    requires !ShowsCalls(b) && b.role != RoleTool
    ensures BatchesAreWhole([b])
  {}

  /** Held results answer the calls they are filed under. */
  predicate Filed(results: map<string, Item>) {
    forall c :: c in results ==> results[c].body.ToolResult? && CallText(results[c].body) == c
  }

  lemma {:induction false} AnswersInOrder(batch: seq<Item>, results: map<string, Item>)
    requires AreCalls(batch) && Complete(batch, results)
    ensures var r := ResultsInOrder(batch, results);
            |r| == |batch| && forall k :: 0 <= k < |batch| ==> r[k] == results[CallText(batch[k].body)]
  {
    if batch != [] {
      AnswersInOrder(batch[..|batch| - 1], results);
    }
  }

  lemma {:induction false} ToolBlocksShow(answers: seq<Item>)
    ensures var r := ToolBlocks(answers);
            |r| == |answers| && forall k :: 0 <= k < |answers| ==> r[k] == Block(RoleTool, [answers[k]])
  {
    if answers != [] {
      ToolBlocksShow(answers[..|answers| - 1]);
    }
  }

  lemma {:induction false} BatchBlocks(batch: seq<Item>, results: map<string, Item>)
    requires AreCalls(batch) && Complete(batch, results) && Filed(results)
    ensures var tools := ToolBlocks(ResultsInOrder(batch, results));
            && |tools| == |batch|
            && forall k :: 0 <= k < |tools| ==> AnswersCall(tools[k], batch[k]) && !ShowsCalls(tools[k])
  {
    AnswersInOrder(batch, results);
    ToolBlocksShow(ResultsInOrder(batch, results));
  }

  lemma {:induction false} BatchIsWhole(batch: seq<Item>, results: map<string, Item>)
    requires batch != [] && AreCalls(batch) && Complete(batch, results) && Filed(results)
    ensures BatchesAreWhole([Block(RoleAssistant, batch)] + ToolBlocks(ResultsInOrder(batch, results)))
  {
    var tools := ToolBlocks(ResultsInOrder(batch, results));
    BatchBlocks(batch, results);
    CallsThenAnswers(batch, tools);
  }

  lemma {:induction false} CallsThenAnswers(batch: seq<Item>, tools: seq<Block>)
    requires batch != [] && AreCalls(batch) && |tools| == |batch|
    requires forall k :: 0 <= k < |tools| ==> AnswersCall(tools[k], batch[k]) && !ShowsCalls(tools[k])
    ensures BatchesAreWhole([Block(RoleAssistant, batch)] + tools)
  {
    var blocks := [Block(RoleAssistant, batch)] + tools;
    assert blocks[0].shows == batch && ShowsCalls(blocks[0]);
    forall k | 0 <= k < |batch| ensures AnswersCall(blocks[1 + k], batch[k]) {
      assert blocks[1 + k] == tools[k];
    }
    assert BatchAt(blocks, 0);
    forall j | 0 < j < |blocks| ensures !ShowsCalls(blocks[j]) && Owned(blocks, j) {
      assert blocks[j] == tools[j - 1];
    }
  }

  lemma {:induction false} FlushIsWhole(d: Draft)
    requires AreCalls(d.batch) && BatchesAreWhole(d.blocks) && Filed(d.results)
    ensures BatchesAreWhole(Flush(d).blocks) && Filed(Flush(d).results)
  {
    if d.batch != [] && Complete(d.batch, d.results) {
      BatchIsWhole(d.batch, d.results);
      WholeConcat(d.blocks, [Block(RoleAssistant, d.batch)] + ToolBlocks(ResultsInOrder(d.batch, d.results)));
      assert Flush(d).blocks == d.blocks + ([Block(RoleAssistant, d.batch)] + ToolBlocks(ResultsInOrder(d.batch, d.results)));
    }
  }

  lemma {:induction false} SketchIsWhole(items: seq<Item>)
    ensures BatchesAreWhole(Sketch(items).blocks) && Filed(Sketch(items).results)
  {
    if items != [] {
      SketchIsWhole(items[..|items| - 1]);
      AdvanceIsWhole(Sketch(items[..|items| - 1]), items[|items| - 1]);
    }
  }

  lemma {:induction false} AdvanceIsWhole(d: Draft, e: Item)
    requires AreCalls(d.batch) && BatchesAreWhole(d.blocks) && Filed(d.results)
    ensures BatchesAreWhole(Advance(d, e).blocks) && Filed(Advance(d, e).results)
  {
    if IsBoundary(e.body) {
      FlushIsWhole(d);
      var b := Block(if e.body.AgentMessage? then RoleAssistant else RoleUser, [e]);
      OneBlockIsWhole(b);
      WholeConcat(Flush(d).blocks, [b]);
    } else if e.body.Interrupt? || e.body.Resume? {
      OneBlockIsWhole(Block(RoleUser, [e]));
      WholeConcat(d.blocks, [Block(RoleUser, [e])]);
    }
  }

  /** MAIN: whatever the events, every batch that is shown has its results behind it,
      one block a call, in the calls' order; no result stands alone. */
  lemma {:induction false} RenderedBatchesAreWhole(items: seq<Item>)
    ensures BatchesAreWhole(Rendered(items).blocks)
  {
    SketchIsWhole(items);
    FlushIsWhole(Sketch(items));
  }

  // ---------------------------------------------------------- rendering in parts

  /** `d` behind what `before` had already written. */
  function SetBehind(before: Draft, d: Draft): Draft {
    Draft(before.blocks + d.blocks, before.faults + d.faults, before.dropped + d.dropped, d.batch, d.results)
  }

  lemma {:induction false} FlushBehind(before: Draft, d: Draft)
    requires AreCalls(d.batch)
    ensures Flush(SetBehind(before, d)) == SetBehind(before, Flush(d))
  {
    if d.batch != [] {
      if Complete(d.batch, d.results) {
        assert before.blocks + (d.blocks + [Block(RoleAssistant, d.batch)] + ToolBlocks(ResultsInOrder(d.batch, d.results)))
            == (before.blocks + d.blocks) + [Block(RoleAssistant, d.batch)] + ToolBlocks(ResultsInOrder(d.batch, d.results));
      } else {
        assert before.dropped + (d.dropped + Ids(d.batch) + Ids(ResultsInOrder(d.batch, d.results)))
            == (before.dropped + d.dropped) + Ids(d.batch) + Ids(ResultsInOrder(d.batch, d.results));
        assert before.faults + (d.faults + [TornBatch(d.batch[0].id)])
            == (before.faults + d.faults) + [TornBatch(d.batch[0].id)];
      }
    }
  }

  lemma {:induction false} AdvanceBehind(before: Draft, d: Draft, e: Item)
    requires AreCalls(d.batch)
    ensures Advance(SetBehind(before, d), e) == SetBehind(before, Advance(d, e))
  {
    FlushBehind(before, d);
    match e.body
    case AgentMessage(_, _) => Regroup(before.blocks, Flush(d).blocks, [Block(RoleAssistant, [e])]);
    case UserMessage(_) => Regroup(before.blocks, Flush(d).blocks, [Block(RoleUser, [e])]);
    case ToolResult(_, _, _, _) =>
      Regroup(before.dropped, d.dropped, [e.id]);
      Regroup(before.faults, d.faults, [DuplicateResult(e.id)]);
      Regroup(before.faults, d.faults, [OrphanResult(e.id)]);
    case Interrupt(_, _, _, _, _) => Regroup(before.blocks, d.blocks, [Block(RoleUser, [e])]);
    case Resume(_, _, _, _) => Regroup(before.blocks, d.blocks, [Block(RoleUser, [e])]);
    case _ =>
  }

  /** Results never outlive their batch. */
  lemma {:induction false} NoBatchNoResults(items: seq<Item>)
    ensures Sketch(items).batch == [] ==> Sketch(items).results == map[]
  {
    if items != [] {
      NoBatchNoResults(items[..|items| - 1]);
    }
  }

  lemma {:induction false} SketchBehind(a: seq<Item>, b: seq<Item>)
    requires b != [] && IsBoundary(b[0].body)
    ensures Sketch(a + b) == SetBehind(Rendered(a), Sketch(b))
    decreases |b|
  {
    var init, e := b[..|b| - 1], b[|b| - 1];
    assert a + b == (a + init) + [e];
    assert b == init + [e];
    SketchAppend(a + init, e);
    SketchAppend(init, e);
    if init == [] {
      assert a + init == a;
      NoBatchNoResults(a);
      FlushTwice(Sketch(a));
      assert SetBehind(Rendered(a), BLANK) == Rendered(a);
      AdvanceBehind(Rendered(a), BLANK, e);
    } else {
      assert init[0] == b[0];
      SketchBehind(a, init);
      AdvanceBehind(Rendered(a), Sketch(init), e);
    }
  }

  lemma {:induction false} FlushTwice(d: Draft)
    requires AreCalls(d.batch) && (d.batch == [] ==> d.results == map[])
    ensures Flush(d).batch == [] && Flush(d).results == map[] && Flush(Flush(d)) == Flush(d)
  {}

  /** MAIN: rendering is incremental at turn boundaries. A log continued by an agent
      or user message renders as before, with the rest behind it. */
  lemma {:induction false} RenderingIsIncremental(a: seq<Item>, b: seq<Item>)
    requires b != [] && IsBoundary(b[0].body)
    ensures Rendered(a + b) == SetBehind(Rendered(a), Rendered(b))
  {
    SketchBehind(a, b);
    FlushBehind(Rendered(a), Sketch(b));
  }

  /** Only a fault drops anything. */
  lemma {:induction false} NoFaultNothingDropped(items: seq<Item>)
    ensures |Sketch(items).dropped| > 0 ==> |Sketch(items).faults| > 0
    ensures |Rendered(items).dropped| > 0 ==> |Rendered(items).faults| > 0
  {
    if items != [] {
      NoFaultNothingDropped(items[..|items| - 1]);
      DropsWithFaults(Sketch(items[..|items| - 1]), items[|items| - 1]);
    }
  }

  lemma {:induction false} DropsWithFaults(d: Draft, e: Item)
    requires AreCalls(d.batch)
    ensures |Advance(d, e).dropped| > |d.dropped| ==> |Advance(d, e).faults| > |d.faults|
    ensures |Advance(d, e).faults| >= |d.faults|
  {}
}
