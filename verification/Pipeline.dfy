/** The tool pipeline as the list of durable writes each call would make.

    Nothing survives a kill but what was committed, and every commit is one
    atomic step: an appended event, a write to one outbox row, or one effect in
    the outside world. A call that is killed has made a prefix of its commits. */
module Pipeline {
  import opened Events
  import opened Tools
  import opened Approvals
  import opened Reducer

  datatype Config = Config(
    run: string,
    branch: string,
    registry: Registry,
    dedup: bool,
    outbox: bool)
  {
    function KeyOf(c: CallId): Key {
      Key(run, branch, c)
    }

    predicate Nonidempotent(tool: string) {
      tool in registry && registry[tool].effect == WriteNonidempotent
    }
  }

  // ------------------------------------------------------------ durable state

  datatype RowStatus = RowPending | RowExecuted | RowFailed | RowUnknown

  /** One row of `tool_calls`. */
  datatype Row = Row(call: CallId, tool: string, sha: Digest, status: RowStatus, result: Option<Payload>)

  /** One row of the outside ledger. */
  datatype EffectRow = EffectRow(key: Key, operation: string, payload: Args)

  datatype Durable = Durable(
    log: Log,
    rows: map<Key, Row>,
    ledger: seq<EffectRow>,
    dedup: map<Key, nat>)

  const EMPTY: Durable := Durable([], map[], [], map[])

  datatype Commit =
    | Append(event: Body)
    | InsertRow(key: Key, row: Row)
    | CompleteRow(key: Key, result: Option<Payload>)
    | MarkUnknown(key: Key)
    | ApplyEffect(key: Key, operation: string, payload: Args, idempotent: bool)

  function InsertedRows(rows: map<Key, Row>, key: Key, row: Row): map<Key, Row> {
    if key in rows then rows else rows[key := row]
  }

  function CompletedRows(rows: map<Key, Row>, key: Key, result: Option<Payload>): map<Key, Row> {
    if key in rows then rows[key := rows[key].(status := RowExecuted, result := result)] else rows
  }

  function UnknownRows(rows: map<Key, Row>, key: Key): map<Key, Row> {
    if key in rows then rows[key := rows[key].(status := RowUnknown)] else rows
  }

  function Apply(d: Durable, c: Commit): Durable {
    match c
    case Append(event) => d.(log := d.log + [event])
    case InsertRow(key, row) => d.(rows := InsertedRows(d.rows, key, row))
    case CompleteRow(key, result) => d.(rows := CompletedRows(d.rows, key, result))
    case MarkUnknown(key) => d.(rows := UnknownRows(d.rows, key))
    case ApplyEffect(key, operation, payload, idempotent) =>
      if idempotent && key in d.dedup then d
      else d.(ledger := d.ledger + [EffectRow(key, operation, payload)],
              dedup := if idempotent then d.dedup[key := |d.ledger|] else d.dedup)
  }

  function ApplyAll(d: Durable, cs: seq<Commit>): Durable
    decreases |cs|
  {
    if cs == [] then d else ApplyAll(Apply(d, cs[0]), cs[1..])
  }

  function Count(ledger: seq<EffectRow>, key: Key): nat {
    if ledger == [] then 0
    else Count(ledger[..|ledger| - 1], key) + if ledger[|ledger| - 1].key == key then 1 else 0
  }

  // -------------------------------------------------------- reading the log

  /** The request as the log first recorded it. */
  function FirstCall(log: Log, c: CallId): Option<Request> {
    if log == [] then None
    else
      var before := FirstCall(log[..|log| - 1], c);
      var e := log[|log| - 1];
      if before.Some? then before
      else if IsCallOf(e, c) then Some(Request(c, e.tool, e.args))
      else None
  }

  /** The first result the log holds for a call. */
  function FirstResult(log: Log, c: CallId): (r: Option<Body>)
    ensures r.Some? ==> IsResultOf(r.value, c)
  {
    if log == [] then None
    else
      var before := FirstResult(log[..|log| - 1], c);
      var e := log[|log| - 1];
      if before.Some? then before
      else if IsResultOf(e, c) then Some(e)
      else None
  }

  function FirstInterrupt(log: Log, iid: string): (r: Option<Body>)
    ensures r.Some? ==> r.value.Interrupt? && r.value.iid == Some(iid)
  {
    if log == [] then None
    else
      var before := FirstInterrupt(log[..|log| - 1], iid);
      var e := log[|log| - 1];
      if before.Some? then before
      else if e.Interrupt? && e.iid == Some(iid) then Some(e)
      else None
  }

  function InterruptCount(log: Log): nat {
    if log == [] then 0
    else InterruptCount(log[..|log| - 1]) + if log[|log| - 1].Interrupt? then 1 else 0
  }

  // ----------------------------------------------------------- one tool call

  datatype ProbeAnswer = Applied(detail: string) | NotApplied | Inconclusive

  /** A tool may raise before it touched the outside world or after. */
  datatype FnOutcome = Returns(text: string) | RaisesBefore(error: string) | RaisesAfter(error: string)

  /** What one call meets outside the process: the clock, the hook that may swap
      the arguments between approval and execution, the answer of the read-back,
      what the tool does, and the id drawn for an interrupt. */
  datatype Env = Env(
    now: real,
    tampered: Option<Args>,
    probe: ProbeAnswer,
    fn: FnOutcome,
    interruptId: string)

  /** What a call answers. `GateLost` stands for the error raised when the interrupt that
      waits is nowhere in the log. */
  datatype Outcome =
    | Done(status: ResultStatus, result: Option<Payload>, error: string, replayed: bool)
    | Interrupted
    | GateLost

  /** The commits of an uninterrupted call, and what it answers. */
  datatype Exec = Exec(commits: seq<Commit>, out: Outcome)
  {
    function After(earlier: seq<Commit>): Exec {
      Exec(earlier + commits, out)
    }
  }

  function CallEvent(req: Request): Body {
    ToolCall(Some(req.call), req.tool, req.args)
  }

  function ResultEvent(c: CallId, status: ResultStatus, result: Option<Payload>, error: string): Body {
    ToolResult(Some(c), status, result, error)
  }

  /** Note the error, answer the call, stop. */
  function Close(c: CallId, status: ResultStatus, error: string, noted: string): Exec {
    Exec([Append(Error(noted, false)), Append(ResultEvent(c, status, None, error))],
         Done(status, None, error, false))
  }

  function ReplayOutcome(log: Log, c: CallId): Outcome {
    var r := FirstResult(log, c);
    if r.Some? then Done(r.value.status, r.value.result, r.value.error, true)
    else Done(Unknown, None, "result_missing_from_log", true)
  }

  /** Steps 1 to 3: the log's own answer, the registry, the call event. */
  function ExecutePlan(cfg: Config, d: Durable, req: Request, env: Env): Exec {
    var s := Reduce(d.log);
    if req.call in s.closed then Exec([], ReplayOutcome(d.log, req.call))
    else if req.tool !in cfg.registry then
      Close(req.call, Failed, "unknown_tool", "unknown_tool").After([Append(CallEvent(req))])
    else
      var noted := if req.call in s.open then [] else [Append(CallEvent(req))];
      RowPlan(cfg, ApplyAll(d, noted), req, env).After(noted)
  }

  /** Step 3, second half: what an existing outbox row allows. */
  function RowPlan(cfg: Config, d: Durable, req: Request, env: Env): Exec
    requires req.tool in cfg.registry
  {
    var key := cfg.KeyOf(req.call);
    if !((cfg.dedup || cfg.outbox) && key in d.rows) then GatePlan(cfg, d, req, false, env)
    else if d.rows[key].sha != Sha(req.args) then
      Close(req.call, Rejected, "args_sha256_mismatch", "args_sha256_mismatch")
    else match d.rows[key].status
      case RowExecuted =>
        var result := d.rows[key].result;
        Exec([Append(ResultEvent(req.call, Executed, result, ""))], Done(Executed, result, "", true))
      case RowPending => ResolvePlan(cfg, d, req, env)
      case RowUnknown =>
        var why := "unknown_effect_unresolved";
        Exec([Append(ResultEvent(req.call, Unknown, None, why))], Done(Unknown, None, why, false))
      case RowFailed => GatePlan(cfg, d, req, true, env)
  }

  /** An intent that was written but never closed: read the outside world back. */
  function ResolvePlan(cfg: Config, d: Durable, req: Request, env: Env): Exec
    requires req.tool in cfg.registry
  {
    var key := cfg.KeyOf(req.call);
    if cfg.registry[req.tool].hasProbe && env.probe.NotApplied? then GatePlan(cfg, d, req, true, env)
    else if cfg.registry[req.tool].hasProbe && env.probe.Applied? then
      var result := Some(Reconstructed(req.tool, env.probe.detail));
      Exec([Append(ResultEvent(req.call, Executed, result, "")), CompleteRow(key, result)],
           Done(Executed, result, "", true))
    else
      var closed := Close(req.call, Unknown, "unknown_effect", "unknown_effect");
      closed.(commits := closed.commits + [MarkUnknown(key)])
  }

  function ReasonOf(a: Answer): string {
    match a
    case NotApproved => "approval_rejected"
    case Expired => "approval_expired"
    case ShaMismatch => "args_sha256_mismatch"
    case _ => "approval_not_for_this_call"
  }

  /** Step 4: the approval gate. `existing` says whether a row was found. */
  function GatePlan(cfg: Config, d: Durable, req: Request, existing: bool, env: Env): Exec
    requires req.tool in cfg.registry
  {
    var binding := Best(d.log, req.call, req.tool);
    if binding.Some? then
      var answer := Validate(binding.value, req.call, req.tool, Sha(req.args), env.now);
      if LetsThrough(answer) then CheckPlan(cfg, req, existing, binding, env)
      else Close(req.call, Rejected, ReasonOf(answer), ReasonOf(answer))
    else if cfg.registry[req.tool].requiresApproval then InterruptPlan(d, req, env)
    else CheckPlan(cfg, req, existing, binding, env)
  }

  /** The interrupt that waits, looked up by the id the reducer remembers. */
  function PendingInterrupt(log: Log): (r: Option<Body>)
    ensures r.Some? ==> r.value.Interrupt?
  {
    var pending := Reduce(log).pending;
    if pending.Some? && pending.value.ById? then FirstInterrupt(log, pending.value.iid) else None
  }

  function InterruptPlan(d: Durable, req: Request, env: Env): Exec {
    if Reduce(d.log).pending.Some? then
      Exec([], if PendingInterrupt(d.log).Some? then Interrupted else GateLost)
    else
      var index := InterruptCount(d.log);
      Exec([Append(Interrupt(Some(env.interruptId), Some(index), req.call, req.tool, req.args))],
           Interrupted)
  }

  function ActualArgs(req: Request, env: Env): Args {
    if env.tampered.Some? then env.tampered.value else req.args
  }

  /** Steps 5 and 5b: the arguments about to be used, against the approval and
      against the tool's own safe domain. */
  function CheckPlan(cfg: Config, req: Request, existing: bool, binding: Option<Binding>, env: Env): Exec
    requires req.tool in cfg.registry
  {
    var args := ActualArgs(req, env);
    if binding.Some? && Sha(args) != binding.value.approvedSha then
      Close(req.call, Rejected, "args_sha256_mismatch", "args_sha256_mismatch")
    else if !PolicyAdmits(cfg.registry[req.tool], args) then
      Close(req.call, Rejected, "arg_policy_violation", "arg_policy_violation")
    else EffectPlan(cfg, req, existing, args, env)
  }

  predicate OnOutboxPath(cfg: Config, tool: string)
    requires tool in cfg.registry
  {
    cfg.outbox && cfg.registry[tool].effect == WriteNonidempotent
  }

  /** Step 6: the intent, written before the effect and only once. */
  function IntentCommits(cfg: Config, req: Request, existing: bool, args: Args): seq<Commit>
    requires req.tool in cfg.registry
  {
    if OnOutboxPath(cfg, req.tool) && !existing then
      [InsertRow(cfg.KeyOf(req.call), Row(req.call, req.tool, Sha(args), RowPending, None))]
    else []
  }

  /** Step 7, the tool itself: a reader leaves no trace in the ledger. */
  function EffectCommits(cfg: Config, req: Request, args: Args, env: Env): seq<Commit>
    requires req.tool in cfg.registry
  {
    var effect := cfg.registry[req.tool].effect;
    if effect == Read || env.fn.RaisesBefore? then []
    else [ApplyEffect(cfg.KeyOf(req.call), req.tool, args, effect == WriteIdempotent)]
  }

  /** Step 7, the record: the event first, the row after it. */
  function RecordPlan(cfg: Config, req: Request, args: Args, env: Env): Exec
    requires req.tool in cfg.registry
  {
    var key := cfg.KeyOf(req.call);
    if env.fn.Returns? then
      var result := Some(Returned(env.fn.text));
      Exec([Append(ResultEvent(req.call, Executed, result, "")),
            if OnOutboxPath(cfg, req.tool) then CompleteRow(key, result)
            else InsertRow(key, Row(req.call, req.tool, Sha(args), RowExecuted, result))],
           Done(Executed, result, "", false))
    else
      var status := if OnOutboxPath(cfg, req.tool) then Unknown else Failed;
      var closed := Close(req.call, status, env.fn.error, env.fn.error);
      closed.(commits := closed.commits +
        [if OnOutboxPath(cfg, req.tool) then MarkUnknown(key)
         else InsertRow(key, Row(req.call, req.tool, Sha(args), RowFailed, None))])
  }

  function EffectPlan(cfg: Config, req: Request, existing: bool, args: Args, env: Env): Exec
    requires req.tool in cfg.registry
  {
    RecordPlan(cfg, req, args, env)
      .After(EffectCommits(cfg, req, args, env))
      .After(IntentCommits(cfg, req, existing, args))
  }

  // ------------------------------------------------------------ the decision

  datatype Decision = Decision(
    verdict: Verdict,
    approvedArgs: Option<Args>,
    scope: Scope,
    now: real,
    ttl: real)

  datatype Refusal = NoOpenInterrupt | InterruptNotInLog | RejectionCarriesEdits

  datatype Decided = Refused(why: Refusal) | Accepted(commits: seq<Commit>, binding: Binding)

  function EditId(c: CallId): CallId {
    c + "__edit1"
  }

  predicate IsEdited(asked: Body, dec: Decision)
    requires asked.Interrupt?
  {
    dec.approvedArgs.Some? && Sha(dec.approvedArgs.value) != Sha(asked.args)
  }

  function DecidedBinding(asked: Body, dec: Decision): Binding
    requires asked.Interrupt?
  {
    var edited := IsEdited(asked, dec);
    Binding(
      if dec.verdict != Reject && edited then EditId(asked.gated) else asked.gated,
      asked.tool,
      Sha(asked.args),
      Sha(if edited then dec.approvedArgs.value else asked.args),
      dec.verdict,
      dec.now,
      dec.now + dec.ttl,
      dec.scope)
  }

  /** What answers the interrupted call before the approval is written down. */
  function ClosingCommits(asked: Body, dec: Decision): seq<Commit>
    requires asked.Interrupt?
  {
    if dec.verdict == Reject then
      [Append(ResultEvent(asked.gated, Rejected, None, "approval_rejected"))]
    else if IsEdited(asked, dec) then
      [Append(ResultEvent(asked.gated, Superseded, None, "superseded_by_edit")),
       Append(CallEvent(Request(EditId(asked.gated), asked.tool, dec.approvedArgs.value)))]
    else []
  }

  function DecidePlan(d: Durable, dec: Decision): Decided {
    if Reduce(d.log).pending.None? then Refused(NoOpenInterrupt)
    else if PendingInterrupt(d.log).None? then Refused(InterruptNotInLog)
    else
      var asked := PendingInterrupt(d.log).value;
      if dec.verdict == Reject && IsEdited(asked, dec) then Refused(RejectionCarriesEdits)
      else
        var binding := DecidedBinding(asked, dec);
        Accepted(
          ClosingCommits(asked, dec)
            + [Append(Approval(binding)),
               Append(Resume(asked.iid, asked.index, dec.verdict, binding.call))],
          binding)
  }

  function DecideCommits(d: Durable, dec: Decision): seq<Commit> {
    var r := DecidePlan(d, dec);
    if r.Accepted? then r.commits else []
  }

  // -------------------------------------------------------------------- runs

  /** What may happen to one branch: a call, a decision, or an event written by
      the loop itself. `cut` is how many commits are made before a kill; a call
      that ran to its end has a `cut` at least as long as its plan. */
  datatype Action =
    | Execute(req: Request, env: Env, cut: nat)
    | Decide(dec: Decision, cut: nat)
    | Note(event: Body)

  function CommitsOf(cfg: Config, d: Durable, a: Action): seq<Commit> {
    match a
    case Execute(req, env, _) => ExecutePlan(cfg, d, req, env).commits
    case Decide(dec, _) => DecideCommits(d, dec)
    case Note(event) => [Append(event)]
  }

  function Cut(cs: seq<Commit>, n: nat): seq<Commit> {
    if n < |cs| then cs[..n] else cs
  }

  function Act(cfg: Config, d: Durable, a: Action): Durable {
    var cs := CommitsOf(cfg, d, a);
    ApplyAll(d, if a.Note? then cs else Cut(cs, a.cut))
  }

  function Run(cfg: Config, d: Durable, actions: seq<Action>): Durable
    decreases |actions|
  {
    if actions == [] then d else Run(cfg, Act(cfg, d, actions[0]), actions[1..])
  }
}
