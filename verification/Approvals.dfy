/** Approvals as checkable facts: when a binding lets a call through, and which
    binding in the log speaks for a call. */
module Approvals {
  import opened Events

  datatype Answer = Ok | SessionReuse | NotApproved | Expired | ShaMismatch | NotForThisCall

  function Validate(b: Binding, call: CallId, tool: string, sha: Digest, now: real): Answer {
    if b.decision != Approve then NotApproved
    else if now >= b.expiresAt then Expired
    else if sha != b.approvedSha then ShaMismatch
    else if call == b.call then Ok
    else if b.scope == Session && tool == b.tool then SessionReuse
    else NotForThisCall
  }

  predicate LetsThrough(a: Answer) {
    a == Ok || a == SessionReuse
  }

  /** What a binding lets through, and the order in which it says why not: a rejection
      outweighs an expiry, an expiry other arguments, those another call. */
  lemma {:induction false} LetsThroughExactly(b: Binding, call: CallId, tool: string, sha: Digest, now: real)
    ensures LetsThrough(Validate(b, call, tool, sha, now)) <==>
            && b.decision == Approve && now < b.expiresAt && sha == b.approvedSha
            && AppliesTo(b, call, tool)
    ensures Validate(b, call, tool, sha, now) == Expired ==> b.decision == Approve
    ensures Validate(b, call, tool, sha, now) == ShaMismatch ==> b.decision == Approve && now < b.expiresAt
  {}

  /** The binding was given for this call, or for this tool for the session. */
  predicate AppliesTo(b: Binding, call: CallId, tool: string) {
    b.call == call || (b.scope == Session && b.tool == tool)
  }

  predicate IsCandidate(e: Body, call: CallId, tool: string) {
    e.Approval? && AppliesTo(e.binding, call, tool)
  }

  /** Exact binding before reusable one, approval before rejection, then the newest. */
  predicate Outranks(b: Binding, c: Binding, call: CallId) {
    var exactB, exactC := b.call == call, c.call == call;
    if exactB != exactC then exactB
    else if (b.decision == Approve) != (c.decision == Approve) then b.decision == Approve
    else b.issuedAt > c.issuedAt
  }

  function Best(log: Log, call: CallId, tool: string): (r: Option<Binding>)
    ensures r.Some? ==> Approval(r.value) in log && AppliesTo(r.value, call, tool)
  {
    if log == [] then None
    else
      var before := Best(log[..|log| - 1], call, tool);
      var e := log[|log| - 1];
      if IsCandidate(e, call, tool) && (before.Some? ==> Outranks(e.binding, before.value, call))
      then Some(e.binding)
      else before
  }

  lemma {:induction false} BestAppend(log: Log, e: Body, call: CallId, tool: string)
    ensures Best(log + [e], call, tool) ==
            if IsCandidate(e, call, tool)
               && (Best(log, call, tool).Some? ==> Outranks(e.binding, Best(log, call, tool).value, call))
            then Some(e.binding) else Best(log, call, tool)
  {
    assert (log + [e])[..|log|] == log;
  }

  /** The chosen binding is one that no candidate in the log outranks; there is
      none exactly when the log holds no candidate. */
  lemma {:induction false} BestIsBest(log: Log, call: CallId, tool: string)
    ensures var r := Best(log, call, tool);
            && (r.None? <==> forall i :: 0 <= i < |log| ==> !IsCandidate(log[i], call, tool))
            && (r.Some? ==> forall i :: 0 <= i < |log| && IsCandidate(log[i], call, tool) ==>
                              !Outranks(log[i].binding, r.value, call))
  {
    if log != [] {
      var init, e := log[..|log| - 1], log[|log| - 1];
      BestIsBest(init, call, tool);
      assert forall i :: 0 <= i < |init| ==> log[i] == init[i];
    }
  }

  /** A rejection that is only reusable never vetoes an approval of the call itself. */
  lemma {:induction false} ExactApprovalIsNotVetoed(log: Log, i: nat, call: CallId, tool: string)
    requires i < |log| && log[i].Approval?
    requires log[i].binding.call == call && log[i].binding.decision == Approve
    ensures var r := Best(log, call, tool);
            r.Some? && r.value.call == call && r.value.decision == Approve
            && r.value.issuedAt >= log[i].binding.issuedAt
  {
    BestIsBest(log, call, tool);
    assert IsCandidate(log[i], call, tool);
  }

  /** The source's two passes: collect the candidates, take the first maximal one. */
  method FindApproval(log: Log, call: CallId, tool: string) returns (r: Option<Binding>)
    ensures r == Best(log, call, tool)
  {
    var candidates: seq<Binding> := [];
    for i := 0 to |log|
      invariant Champion(candidates, call) == Best(log[..i], call, tool)
    {
      assert log[..i + 1] == log[..i] + [log[i]];
      BestAppend(log[..i], log[i], call, tool);
      if IsCandidate(log[i], call, tool) {
        assert (candidates + [log[i].binding])[..|candidates|] == candidates;
        candidates := candidates + [log[i].binding];
      }
    }
    assert log[..|log|] == log;
    r := None;
    for k := 0 to |candidates|
      invariant r == Champion(candidates[..k], call)
    {
      assert candidates[..k + 1][..k] == candidates[..k];
      if r.None? || Outranks(candidates[k], r.value, call) {
        r := Some(candidates[k]);
      }
    }
    assert candidates[..|candidates|] == candidates;
  }

  function Champion(bs: seq<Binding>, call: CallId): Option<Binding> {
    if bs == [] then None
    else
      var before := Champion(bs[..|bs| - 1], call);
      var b := bs[|bs| - 1];
      if before.Some? && !Outranks(b, before.value, call) then before else Some(b)
  }
}
