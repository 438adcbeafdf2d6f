/** The vocabulary of the append-only event log: what a tool call asks for, and
    the payload each kind of event carries.

    An event is named by its position in the effective log of its branch. Module
    `Branching` proves that position and `seq` are the same number, so nothing is
    lost by not carrying the generated id around. */
module Events {
  datatype Option<+T> = None | Some(value: T)

  type CallId = string

  /** A JSON scalar; a nested value is kept as its canonical text. */
  datatype Value =
    | VNull
    | VBool(b: bool)
    | VInt(i: int)
    | VFloat(r: real)
    | VText(s: string)
    | VNested(json: string)

  type Args = map<string, Value>

  /** The hash of canonicalised arguments, taken to be collision free. */
  datatype Digest = Sha(args: Args)

  datatype Request = Request(call: CallId, tool: string, args: Args)

  /** The content of an `executed` result: what the tool returned, or what the
      read-back by key told us about an effect whose result was lost. */
  datatype Payload =
    | Returned(text: string)
    | Reconstructed(tool: string, detail: string)

  datatype ResultStatus = Executed | Failed | Unknown | Rejected | Superseded

  /** What a decision says. It is a free text in the source: any word but the two it
      knows neither answers the call nor lets it through. */
  datatype Verdict = Approve | Reject | OtherWord(word: string)

  datatype Scope = Once | Session

  datatype Binding = Binding(
    call: CallId,
    tool: string,
    requestedSha: Digest,
    approvedSha: Digest,
    decision: Verdict,
    issuedAt: real,
    expiresAt: real,
    scope: Scope)

  /** One event. The fields that the reducer has to type-check because any
      writer may have put anything there are optional: `None` stands for a value
      of the wrong type or a missing one. */
  datatype Body =
    // tree nodes
    | UserMessage(text: string)
    | AgentMessage(text: string, final: bool)
    | ToolCall(call: Option<CallId>, tool: string, args: Args)
    | ToolResult(call: Option<CallId>, status: ResultStatus, result: Option<Payload>, error: string)
    | Interrupt(iid: Option<string>, index: Option<int>, gated: CallId, tool: string, args: Args)
    | Resume(resumed: Option<string>, index: Option<int>, verdict: Verdict, target: CallId)
    // artifacts
    | Error(cause: string, fatal: bool)
    | Approval(binding: Binding)
    | Compaction(replaced: seq<nat>)
    | BudgetUpdate
    | Lease
    | StateUpdate

  type Log = seq<Body>

  predicate IsTree(b: Body) {
    || b.UserMessage? || b.AgentMessage? || b.ToolCall?
    || b.ToolResult? || b.Interrupt? || b.Resume?
  }

  predicate IsFinal(b: Body) {
    b.AgentMessage? && b.final
  }

  predicate IsFatal(b: Body) {
    b.Error? && b.fatal
  }

  predicate IsCallOf(b: Body, c: CallId) {
    b.ToolCall? && b.call == Some(c)
  }

  predicate IsResultOf(b: Body, c: CallId) {
    b.ToolResult? && b.call == Some(c)
  }

  ghost predicate Called(log: Log, c: CallId) {
    exists i :: 0 <= i < |log| && IsCallOf(log[i], c)
  }

  ghost predicate Answered(log: Log, c: CallId) {
    exists i :: 0 <= i < |log| && IsResultOf(log[i], c)
  }
}
