/** What every run keeps, stated on the durable state alone, and what it means
    for a list of commits to keep it at every point where a kill may fall. */
module Invariants {
  import opened Events
  import opened Tools
  import opened Approvals
  import opened Reducer
  import opened Pipeline

  datatype Claim = Justified | AtMostOnce | Ordered | Agreed | Attributed | Unvetoed

  ghost predicate Inv(claim: Claim, cfg: Config, d: Durable) {
    match claim
    case Justified => JustifiedInv(cfg, d)
    case AtMostOnce => AtMostOnceInv(cfg, d)
    case Ordered => OrderedInv(cfg, d)
    case Agreed => AgreedInv(cfg, d)
    case Attributed => AttributedInv(cfg, d)
    case Unvetoed => UnvetoedInv(d.log)
  }

  // --------------------------------------------------------------- justified

  ghost predicate HasApproval(log: Log, key: Key, operation: string, payload: Args) {
    exists b :: Approval(b) in log && b.decision == Approve
                && b.approvedSha == Sha(payload) && AppliesTo(b, key.call, operation)
  }

  ghost predicate EffectJustified(cfg: Config, log: Log, e: EffectRow) {
    && e.operation in cfg.registry
    && PolicyAdmits(cfg.registry[e.operation], e.payload)
    && (cfg.registry[e.operation].requiresApproval ==>
          HasApproval(log, e.key, e.operation, e.payload))
  }

  /** Every effect was approved with exactly the arguments that were applied, and
      those lie in the safe domain its tool declares. */
  ghost predicate JustifiedInv(cfg: Config, d: Durable) {
    forall i :: 0 <= i < |d.ledger| ==> EffectJustified(cfg, d.log, d.ledger[i])
  }

  // ------------------------------------------------------------ at most once

  /** The tool the log first recorded for a call. */
  ghost predicate LoggedAs(log: Log, c: CallId, tool: string) {
    FirstCall(log, c).Some? && FirstCall(log, c).value.tool == tool
  }

  ghost predicate EffectAccounted(cfg: Config, d: Durable, key: Key) {
    && key == cfg.KeyOf(key.call)
    && FirstCall(d.log, key.call).Some?
    && var tool := FirstCall(d.log, key.call).value.tool;
    && tool in cfg.registry
    && cfg.registry[tool].effect != Read
    && (cfg.registry[tool].effect == WriteNonidempotent ==> key in d.rows)
    && (cfg.registry[tool].effect == WriteIdempotent ==> key in d.dedup)
  }

  ghost predicate RowAccounted(cfg: Config, d: Durable, key: Key)
    requires key in d.rows
  {
    && key == cfg.KeyOf(key.call)
    && FirstCall(d.log, key.call).Some?
    && (cfg.Nonidempotent(FirstCall(d.log, key.call).value.tool) ==> d.rows[key].status != RowFailed)
  }

  /** No key has two effects, and an effect is never unaccounted for: behind it
      stands an outbox row or the downstream's own record of the key. */
  ghost predicate AtMostOnceInv(cfg: Config, d: Durable) {
    && (forall key :: Count(d.ledger, key) <= 1)
    && (forall key :: Count(d.ledger, key) == 1 ==> EffectAccounted(cfg, d, key))
    && (forall key :: key in d.rows ==> RowAccounted(cfg, d, key))
  }

  // ----------------------------------------------------------------- ordered

  /** A closed row has its result in the log; an intent has its call there. */
  ghost predicate RowOrdered(cfg: Config, d: Durable, key: Key)
    requires key in d.rows
  {
    && key == cfg.KeyOf(key.call)
    && (d.rows[key].status == RowPending ==>
          key.call in Reduce(d.log).open || key.call in Reduce(d.log).closed)
    && (d.rows[key].status != RowPending ==> key.call in Reduce(d.log).closed)
  }

  /** The pending interrupt can be found by its id, with the index the reducer
      remembers, and is about a call the log knows. */
  ghost predicate GateOrdered(log: Log) {
    var s := Reduce(log);
    s.pending.Some? ==>
      && s.pending.value.ById?
      && FirstInterrupt(log, s.pending.value.iid).Some?
      && var asked := FirstInterrupt(log, s.pending.value.iid).value;
      && asked.iid == Some(s.pending.value.iid)
      && asked.index == s.pendingIndex
      && (asked.gated in s.open || asked.gated in s.closed)
  }

  /** The reducer reports nothing, and rows and interrupt agree with the log. */
  ghost predicate OrderedInv(cfg: Config, d: Durable) {
    && Report(d.log) == []
    && (forall key :: key in d.rows ==> RowOrdered(cfg, d, key))
    && GateOrdered(d.log)
  }

  // ------------------------------------------------------------------ agreed

  predicate StatusFits(status: ResultStatus, effects: nat) {
    match status
    case Executed => effects == 1
    case Unknown => effects <= 1
    case _ => effects == 0
  }

  ghost predicate CallAgreed(cfg: Config, d: Durable, c: CallId)
    requires FirstCall(d.log, c).Some?
  {
    var r := FirstResult(d.log, c);
    && (r.Some? ==> StatusFits(r.value.status, Count(d.ledger, cfg.KeyOf(c))))
    && (cfg.KeyOf(c) in d.rows ==> d.rows[cfg.KeyOf(c)].sha == Sha(FirstCall(d.log, c).value.args))
  }

  /** For every call of a non-idempotent writer, the recorded outcome says what
      the outside ledger says. */
  ghost predicate AgreedInv(cfg: Config, d: Durable) {
    forall c :: FirstCall(d.log, c).Some? && cfg.Nonidempotent(FirstCall(d.log, c).value.tool) ==>
      CallAgreed(cfg, d, c)
  }

  // -------------------------------------------------------------- attributed

  ghost predicate AsCalled(log: Log, c: CallId, tool: string, args: Args) {
    FirstCall(log, c) == Some(Request(c, tool, args))
  }

  ghost predicate AskedAsCalled(cfg: Config, log: Log, asked: Body)
    requires asked.Interrupt?
  {
    && AsCalled(log, asked.gated, asked.tool, asked.args)
    && asked.tool in cfg.registry && cfg.registry[asked.tool].requiresApproval
  }

  ghost predicate AppliedAsCalled(log: Log, e: EffectRow) {
    AsCalled(log, e.key.call, e.operation, e.payload)
  }

  /** Every interrupt asks about, and every effect carries out, the request that the
      log first recorded for its call. */
  ghost predicate AttributedInv(cfg: Config, d: Durable) {
    && (forall i :: 0 <= i < |d.log| && d.log[i].Interrupt? ==> AskedAsCalled(cfg, d.log, d.log[i]))
    && (forall i :: 0 <= i < |d.ledger| ==> AppliedAsCalled(d.log, d.ledger[i]))
  }

  // ---------------------------------------------------------------- unvetoed

  /** The binding is for the interrupted call itself, with the arguments it was asked
      about, and does not reject it. */
  predicate SpeaksFor(b: Binding, asked: Body)
    requires asked.Interrupt?
  {
    b.call == asked.gated && b.approvedSha == Sha(asked.args) && b.decision != Reject
  }

  /** As long as an interrupted call is unanswered, whatever approvals apply to it were
      given for it while it waited. */
  ghost predicate UnvetoedInv(log: Log) {
    var asked := PendingInterrupt(log);
    asked.Some? && asked.value.gated !in Reduce(log).closed ==>
      forall i :: 0 <= i < |log| && IsCandidate(log[i], asked.value.gated, asked.value.tool) ==>
        SpeaksFor(log[i].binding, asked.value)
  }

  // ------------------------------------------------- commits that keep a claim

  /** The claim holds now and after every prefix of the commits. */
  ghost predicate Keeps(claim: Claim, cfg: Config, d: Durable, cs: seq<Commit>)
    decreases |cs|
  {
    Inv(claim, cfg, d) && (cs != [] ==> Keeps(claim, cfg, Apply(d, cs[0]), cs[1..]))
  }

  lemma {:induction false} KeepsAtEveryCut(claim: Claim, cfg: Config, d: Durable, cs: seq<Commit>, n: nat)
    requires Keeps(claim, cfg, d, cs)
    ensures Inv(claim, cfg, ApplyAll(d, Cut(cs, n)))
    decreases |cs|
  {
    if n > 0 && cs != [] {
      KeepsAtEveryCut(claim, cfg, Apply(d, cs[0]), cs[1..], n - 1);
      assert Cut(cs, n)[0] == cs[0];
      assert Cut(cs, n)[1..] == Cut(cs[1..], n - 1);
    }
  }

  lemma {:induction false} ApplyAllConcat(d: Durable, a: seq<Commit>, b: seq<Commit>)
    ensures ApplyAll(d, a + b) == ApplyAll(ApplyAll(d, a), b)
    decreases |a|
  {
    if a == [] {
      assert a + b == b;
    } else {
      assert (a + b)[0] == a[0] && (a + b)[1..] == a[1..] + b;
      ApplyAllConcat(Apply(d, a[0]), a[1..], b);
    }
  }

  lemma {:induction false} KeepsConcat(claim: Claim, cfg: Config, d: Durable, a: seq<Commit>, b: seq<Commit>)
    requires Keeps(claim, cfg, d, a)
    requires Keeps(claim, cfg, ApplyAll(d, a), b)
    ensures Keeps(claim, cfg, d, a + b)
    decreases |a|
  {
    if a == [] {
      assert a + b == b;
    } else {
      assert (a + b)[0] == a[0] && (a + b)[1..] == a[1..] + b;
      KeepsConcat(claim, cfg, Apply(d, a[0]), a[1..], b);
    }
  }

  lemma {:induction false} ApplyOne(d: Durable, c: Commit)
    ensures ApplyAll(d, [c]) == Apply(d, c)
  {
    assert [c][1..] == [];
    assert ApplyAll(Apply(d, c), []) == Apply(d, c);
  }

  lemma {:induction false} KeepsOne(claim: Claim, cfg: Config, d: Durable, c: Commit)
    requires Inv(claim, cfg, d) && Inv(claim, cfg, Apply(d, c))
    ensures Keeps(claim, cfg, d, [c]) && ApplyAll(d, [c]) == Apply(d, c)
  {
    ApplyOne(d, c);
    assert [c][1..] == [];
  }

  lemma {:induction false} KeepsTwo(claim: Claim, cfg: Config, d: Durable, c: Commit, c': Commit)
    requires Inv(claim, cfg, d) && Inv(claim, cfg, Apply(d, c))
    requires Inv(claim, cfg, Apply(Apply(d, c), c'))
    ensures Keeps(claim, cfg, d, [c, c']) && ApplyAll(d, [c, c']) == Apply(Apply(d, c), c')
  {
    assert [c, c'][1..] == [c'];
    KeepsOne(claim, cfg, Apply(d, c), c');
  }

  // ------------------------------------------------------ reading after a write

  lemma {:induction false} FirstCallAppend(log: Log, b: Body, c: CallId)
    ensures FirstCall(log + [b], c) ==
            if FirstCall(log, c).Some? then FirstCall(log, c)
            else if IsCallOf(b, c) then Some(Request(c, b.tool, b.args)) else None
  {
    assert (log + [b])[..|log|] == log;
  }

  lemma {:induction false} StillLogged(d: Durable, cs: seq<Commit>, c: CallId)
    requires FirstCall(d.log, c).Some?
    ensures FirstCall(ApplyAll(d, cs).log, c) == FirstCall(d.log, c)
    decreases |cs|
  {
    if cs != [] {
      if cs[0].Append? {
        FirstCallAppend(d.log, cs[0].event, c);
      }
      StillLogged(Apply(d, cs[0]), cs[1..], c);
    }
  }

  lemma {:induction false} FirstResultAppend(log: Log, b: Body, c: CallId)
    ensures FirstResult(log + [b], c) ==
            if FirstResult(log, c).Some? then FirstResult(log, c)
            else if IsResultOf(b, c) then Some(b) else None
  {
    assert (log + [b])[..|log|] == log;
  }

  lemma {:induction false} FirstInterruptAppend(log: Log, b: Body, iid: string)
    ensures FirstInterrupt(log + [b], iid) ==
            if FirstInterrupt(log, iid).Some? then FirstInterrupt(log, iid)
            else if b.Interrupt? && b.iid == Some(iid) then Some(b) else None
  {
    assert (log + [b])[..|log|] == log;
  }

  lemma {:induction false} CountAppend(ledger: seq<EffectRow>, e: EffectRow, key: Key)
    ensures Count(ledger + [e], key) == Count(ledger, key) + if e.key == key then 1 else 0
  {
    assert (ledger + [e])[..|ledger|] == ledger;
  }

  lemma {:induction false} FirstCallMeans(log: Log, c: CallId)
    ensures FirstCall(log, c).Some? <==> Called(log, c)
    ensures FirstCall(log, c).Some? ==> FirstCall(log, c).value.call == c
  {
    if log != [] {
      var init, b := log[..|log| - 1], log[|log| - 1];
      assert log == init + [b];
      FirstCallMeans(init, c);
      if Called(init, c) {
        var i :| 0 <= i < |init| && IsCallOf(init[i], c);
        assert IsCallOf(log[i], c);
      }
    }
  }

  lemma {:induction false} FirstResultMeans(log: Log, c: CallId)
    ensures FirstResult(log, c).Some? <==> Answered(log, c)
  {
    if log != [] {
      var init, b := log[..|log| - 1], log[|log| - 1];
      assert log == init + [b];
      FirstResultMeans(init, c);
      if Answered(init, c) {
        var i :| 0 <= i < |init| && IsResultOf(init[i], c);
        assert IsResultOf(log[i], c);
      }
    }
  }
}
