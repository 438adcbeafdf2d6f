/** The tool executor as the source writes it, over mutable tables and a log, with
    a kill that may come between any two commits. Each method's contract names the
    list of commits it makes; modules `Justification`, `Exclusivity`, `Ordering`
    and `Agreement` prove what every prefix of those lists keeps. */
module Executor {
  import opened Events
  import opened Tools
  import opened Approvals
  import opened Reducer
  import opened Pipeline
  import opened Invariants
  import opened Runs
  import opened Tables

  /** A method either comes back or its process was killed on the way. */
  datatype Ending<+T> = Alive(value: T) | Killed {
    predicate IsFailure() {
      Killed?
    }

    function PropagateFailure<U>(): Ending<U>
      requires Killed?
    {
      Killed
    }

    function Extract(): T
      requires Alive?
    {
      value
    }
  }

  /** One commit: it was made, or the process is gone. */
  datatype Fate = Made | Lost {
    predicate IsFailure() {
      Lost?
    }

    function PropagateFailure<U>(): Ending<U>
      requires Lost?
    {
      Killed
    }
  }

  /** What a recovery pass answered, and how it ended. */
  datatype ResumeReport = ResumeReport(outcomes: seq<Outcome>, ending: PassEnd)

  /** The commits written and the ending, given how many commits a kill leaves room for. */
  ghost predicate Wrote<T(!new)>(t0: seq<Commit>, room: nat, cs: seq<Commit>, out: T,
                                 t1: seq<Commit>, left: nat, e: Ending<T>)
  {
    && t1 == t0 + Cut(cs, room)
    && (e.Killed? <==> room < |cs|)
    && (e.Alive? ==> e.value == out && left == room - |cs|)
  }

  lemma {:induction false} WroteAfter<T(!new)>(t0: seq<Commit>, room: nat, earlier: seq<Commit>, t1: seq<Commit>, room1: nat,
                            cs: seq<Commit>, out: T, t2: seq<Commit>, left: nat, e: Ending<T>)
    requires room >= |earlier| && t1 == t0 + earlier && room1 == room - |earlier|
    requires Wrote(t1, room1, cs, out, t2, left, e)
    ensures Wrote(t0, room, earlier + cs, out, t2, left, e)
  {
    assert Cut(earlier + cs, room) == earlier + Cut(cs, room1);
  }

  /** A recovery pass that has made `done` and answered `answered` calls, with `rest` to come. */
  ghost predicate Follows(whole: Recovery, done: seq<Commit>, answered: nat, rest: Recovery) {
    && whole.commits == done + rest.commits
    && whole.answered == answered + rest.answered
    && whole.ending == rest.ending
  }

  /** `todo` is what a recovery pass still has to do from the `k`-th call on. */
  ghost predicate Plans(cfg: Config, d: Durable, ids: seq<CallId>, envs: seq<Env>, k: nat, todo: Recovery)
    requires k <= |ids| == |envs|
  {
    forall cs, es | cs == ids[k..] && es == envs[k..] :: todo == ResumePlan(cfg, d, cs, es)
  }

  /** How a recovery pass ended: the commits it made, the calls it answered, and
      how it ended. */
  ghost predicate ResumedAs(r: Recovery, t0: seq<Commit>, room: nat, t1: seq<Commit>, left: nat,
                            e: Ending<ResumeReport>)
  {
    && t1 == t0 + Cut(r.commits, room)
    && (e.Killed? <==> room < |r.commits|)
    && (e.Alive? ==> && |e.value.outcomes| == r.answered
                     && e.value.ending == r.ending
                     && left == room - |r.commits|)
  }

  lemma {:induction false} AllPlanned(cfg: Config, d: Durable, ids: seq<CallId>, envs: seq<Env>)
    requires |ids| == |envs|
    ensures Plans(cfg, d, ids, envs, 0, ResumePlan(cfg, d, ids, envs))
  {
    assert ids[0..] == ids && envs[0..] == envs;
  }

  lemma {:induction false} NothingPlanned(cfg: Config, d: Durable, ids: seq<CallId>, envs: seq<Env>, todo: Recovery)
    requires |ids| == |envs| && Plans(cfg, d, ids, envs, |ids|, todo)
    ensures todo == Recovery([], 0, WentThrough)
  {
    assert ResumePlan(cfg, d, ids[|ids|..], envs[|ids|..]) == Recovery([], 0, WentThrough);
  }

  lemma {:induction false} ResumeUnfolds(cfg: Config, d: Durable, ids: seq<CallId>, envs: seq<Env>, k: nat)
    requires k < |ids| == |envs|
    ensures var r, c := ResumePlan(cfg, d, ids[k..], envs[k..]), FirstCall(d.log, ids[k]);
            if c.None? then r == ResumePlan(cfg, d, ids[k + 1..], envs[k + 1..])
            else
              var p := ExecutePlan(cfg, d, c.value, envs[k]);
              if !p.out.Done? then r == Recovery(p.commits, 0, PassEndOf(p.out))
              else
                var rest := ResumePlan(cfg, ApplyAll(d, p.commits), ids[k + 1..], envs[k + 1..]);
                r == Recovery(p.commits + rest.commits, 1 + rest.answered, rest.ending)
  {
    assert ids[k..][1..] == ids[k + 1..] && envs[k..][1..] == envs[k + 1..];
  }

  lemma {:induction false} CutInside(t0: seq<Commit>, whole: seq<Commit>, done: seq<Commit>, next: seq<Commit>, rest: seq<Commit>,
                  n: nat)
    requires whole == done + rest && next <= rest && |done| <= n
    ensures n < |done| + |next| ==>
              n < |whole| && t0 + done + Cut(next, n - |done|) == t0 + Cut(whole, n)
    ensures n >= |done| + |next| ==>
              Cut(next, n - |done|) == next && t0 + done + next == t0 + (done + next)
    ensures whole == (done + next) + rest[|next|..]
  {}

  /** Where a kill falls in stages of at most one commit each and a last stage. */
  lemma {:induction false} ThreeStages(a: seq<Commit>, b: seq<Commit>, c: seq<Commit>, n: nat)
    requires |a| <= 1 && |b| <= 1
    ensures a + (b + c) == (a + b) + c
    ensures n < |a| ==> Cut(a + (b + c), n) == []
    ensures |a| <= n < |a| + |b| ==> Cut(a + (b + c), n) == a
  {}

  class ToolExecutor {
    const cfg: Config
    const world: World
    const toolCalls: ToolCallStore
    var log: Log
    /** Commits left before the process is killed. */
    var room: nat
    ghost const start: Durable
    ghost var trace: seq<Commit>

    ghost function D(): Durable
      reads this, world, toolCalls
    {
      Durable(log, toolCalls.rows, world.ledger, world.dedup)
    }

    /** The durable state is what the commits made so far produced. */
    ghost predicate Valid()
      reads this, world, toolCalls
    {
      D() == ApplyAll(start, trace)
    }

    constructor (cfg: Config, world: World, toolCalls: ToolCallStore, log: Log, room: nat)
      ensures Valid() && trace == []
      ensures this.cfg == cfg && this.world == world && this.toolCalls == toolCalls
      ensures this.log == log && this.room == room
    {
      this.cfg, this.world, this.toolCalls, this.log, this.room := cfg, world, toolCalls, log, room;
      this.start := Durable(log, toolCalls.rows, world.ledger, world.dedup);
      this.trace := [];
    }

    ghost predicate Did(before: Durable, t0: seq<Commit>, r0: nat, c: Commit, f: Fate)
      reads this, world, toolCalls
    {
      if r0 == 0 then f.Lost? && D() == before && trace == t0
      else f.Made? && D() == Apply(before, c) && trace == t0 + [c] && room == r0 - 1
    }

    /** Every commit passes through here: it is made whole, or the process is gone. */
    method Spend(ghost c: Commit) returns (f: Fate)
      modifies this`room, this`trace
      ensures if old(room) == 0 then f.Lost? && trace == old(trace)
              else f.Made? && room == old(room) - 1 && trace == old(trace) + [c]
    {
      if room == 0 {
        return Lost;
      }
      room, trace := room - 1, trace + [c];
      f := Made;
    }

    lemma {:induction false} Extended(d: Durable, t: seq<Commit>, c: Commit)
      requires d == ApplyAll(start, t)
      ensures Apply(d, c) == ApplyAll(start, t + [c])
    {
      ApplyAllConcat(start, t, [c]);
      ApplyOne(d, c);
    }

    method AppendEvent(b: Body) returns (f: Fate)
      requires Valid()
      modifies this
      ensures Valid() && Did(old(D()), old(trace), old(room), Append(b), f)
    {
      Extended(D(), trace, Append(b));
      f := Spend(Append(b));
      if f.Lost? {
        return;
      }
      log := log + [b];
    }

    method InsertIntent(key: Key, call: CallId, tool: string, sha: Digest) returns (f: Fate)
      requires Valid()
      modifies this, toolCalls
      ensures Valid()
      ensures Did(old(D()), old(trace), old(room),
                  InsertRow(key, Row(call, tool, sha, RowPending, None)), f)
    {
      Extended(D(), trace, InsertRow(key, Row(call, tool, sha, RowPending, None)));
      f := Spend(InsertRow(key, Row(call, tool, sha, RowPending, None)));
      if f.Lost? {
        return;
      }
      var _ := toolCalls.Begin(key, call, tool, sha);
    }

    method InsertClosed(key: Key, row: Row) returns (f: Fate)
      requires Valid()
      modifies this, toolCalls
      ensures Valid() && Did(old(D()), old(trace), old(room), InsertRow(key, row), f)
    {
      Extended(D(), trace, InsertRow(key, row));
      f := Spend(InsertRow(key, row));
      if f.Lost? {
        return;
      }
      var _ := toolCalls.Record(key, row);
    }

    method CompleteIntent(key: Key, result: Option<Payload>) returns (f: Fate)
      requires Valid()
      modifies this, toolCalls
      ensures Valid() && Did(old(D()), old(trace), old(room), CompleteRow(key, result), f)
    {
      Extended(D(), trace, CompleteRow(key, result));
      f := Spend(CompleteRow(key, result));
      if f.Lost? {
        return;
      }
      toolCalls.Complete(key, result);
    }

    method GiveUpIntent(key: Key) returns (f: Fate)
      requires Valid()
      modifies this, toolCalls
      ensures Valid() && Did(old(D()), old(trace), old(room), MarkUnknown(key), f)
    {
      Extended(D(), trace, MarkUnknown(key));
      f := Spend(MarkUnknown(key));
      if f.Lost? {
        return;
      }
      toolCalls.SetUnknown(key);
    }

    method CauseEffect(key: Key, operation: string, payload: Args, idempotent: bool) returns (f: Fate)
      requires Valid()
      modifies this, world
      ensures Valid()
      ensures Did(old(D()), old(trace), old(room), ApplyEffect(key, operation, payload, idempotent), f)
    {
      Extended(D(), trace, ApplyEffect(key, operation, payload, idempotent));
      f := Spend(ApplyEffect(key, operation, payload, idempotent));
      if f.Lost? {
        return;
      }
      var _, _ := world.Apply(key, operation, payload, idempotent);
    }

    // --------------------------------------------------------- reading the log

    /** The request as the log first recorded it. */
    method ToolRequestFromLog(c: CallId) returns (r: Option<Request>)
      ensures r == FirstCall(log, c)
    {
      for i := 0 to |log|
        invariant FirstCall(log[..i], c).None?
      {
        assert log[..i + 1] == log[..i] + [log[i]];
        FirstCallAppend(log[..i], log[i], c);
        if log[i].ToolCall? && log[i].call == Some(c) {
          FirstCallStays(log, i + 1, c);
          return Some(Request(c, log[i].tool, log[i].args));
        }
      }
      assert log[..|log|] == log;
      r := None;
    }

    /** What the log says a closed call came to; no new event. */
    method ReplayedOutcome(c: CallId) returns (out: Outcome)
      ensures out == ReplayOutcome(log, c)
    {
      for i := 0 to |log|
        invariant FirstResult(log[..i], c).None?
      {
        assert log[..i + 1] == log[..i] + [log[i]];
        FirstResultAppend(log[..i], log[i], c);
        if log[i].ToolResult? && log[i].call == Some(c) {
          FirstResultStays(log, i + 1, c);
          return Done(log[i].status, log[i].result, log[i].error, true);
        }
      }
      assert log[..|log|] == log;
      out := Done(Unknown, None, "result_missing_from_log", true);
    }

    method CountInterrupts() returns (n: nat)
      ensures n == InterruptCount(log)
    {
      n := 0;
      for i := 0 to |log|
        invariant n == InterruptCount(log[..i])
      {
        assert log[..i + 1][..i] == log[..i];
        if log[i].Interrupt? {
          n := n + 1;
        }
      }
      assert log[..|log|] == log;
    }

    method InterruptRequest(iid: string) returns (r: Option<Body>)
      ensures r == FirstInterrupt(log, iid)
    {
      for i := 0 to |log|
        invariant FirstInterrupt(log[..i], iid).None?
      {
        assert log[..i + 1] == log[..i] + [log[i]];
        FirstInterruptAppend(log[..i], log[i], iid);
        if log[i].Interrupt? && log[i].iid == Some(iid) {
          FirstInterruptStays(log, i + 1, iid);
          return Some(log[i]);
        }
      }
      assert log[..|log|] == log;
      r := None;
    }

    /** Open calls in the order the log first names them. */
    method OpenCallsInLogOrder(open: map<CallId, nat>) returns (ids: seq<CallId>)
      requires open == Reduce(log).open
      ensures ids == OpenInOrder(log)
    {
      var ordered: seq<CallId> := [];
      for i := 0 to |log|
        invariant ordered == CallsInOrder(log[..i])
      {
        assert log[..i + 1][..i] == log[..i];
        if log[i].ToolCall? && log[i].call.Some? && log[i].call.value != "" && log[i].call.value !in ordered {
          ordered := ordered + [log[i].call.value];
        }
      }
      assert log[..|log|] == log;
      ids := [];
      for k := 0 to |ordered|
        invariant ids + Keep(ordered[k..], open) == Keep(ordered, open)
      {
        assert ordered[k..][1..] == ordered[k + 1..];
        if ordered[k] in open {
          ids := ids + [ordered[k]];
        }
      }
      if "" in open {
        ids := ids + [""];
      }
    }

    // ------------------------------------------------------------ the pipeline

    method CloseCall(c: CallId, status: ResultStatus, error: string, noted: string)
      returns (e: Ending<Outcome>)
      requires Valid()
      modifies this
      ensures Valid()
      ensures var p := Close(c, status, error, noted);
              Wrote(old(trace), old(room), p.commits, p.out, trace, room, e)
    {
      var answer := ResultEvent(c, status, None, error);
      :- AppendEvent(Error(noted, false));
      :- AppendEvent(answer);
      e := Alive(Done(status, None, error, false));
    }

    /** Steps 1 to 3. */
    method Execute(req: Request, env: Env) returns (e: Ending<Outcome>)
      requires Valid()
      modifies this, world, toolCalls
      ensures Valid()
      ensures var p := ExecutePlan(cfg, old(D()), req, env);
              && Wrote(old(trace), old(room), p.commits, p.out, trace, room, e)
              && D() == ApplyAll(old(D()), Cut(p.commits, old(room)))
    {
      ghost var d0, t0, r0 := D(), trace, room;
      ghost var p := ExecutePlan(cfg, d0, req, env);
      var s, _ := ReduceEvents(log);
      if req.call in s.closed {
        var out := ReplayedOutcome(req.call);
        e := Alive(out);
        assert ApplyAll(d0, []) == d0;
        return;
      }
      if req.tool !in cfg.registry {
        ghost var noted := Append(CallEvent(req));
        var k := AppendEvent(CallEvent(req));
        if k.Lost? {
          CutTrace(d0, t0, p.commits, r0);
          return Killed;
        }
        ghost var t1, r1 := trace, room;
        e := CloseCall(req.call, Failed, "unknown_tool", "unknown_tool");
        ghost var q := Close(req.call, Failed, "unknown_tool", "unknown_tool");
        WroteAfter(t0, r0, [noted], t1, r1, q.commits, q.out, trace, room, e);
        CutTrace(d0, t0, p.commits, r0);
        return;
      }
      ghost var noted := if req.call in s.open then [] else [Append(CallEvent(req))];
      if req.call !in s.open {
        var k := AppendEvent(CallEvent(req));
        if k.Lost? {
          CutTrace(d0, t0, p.commits, r0);
          return Killed;
        }
        ApplyOne(d0, noted[0]);
      }
      ghost var d1, t1, r1 := D(), trace, room;
      assert d1 == ApplyAll(d0, noted);
      e := HandleRow(req, env);
      ghost var q := RowPlan(cfg, d1, req, env);
      WroteAfter(t0, r0, noted, t1, r1, q.commits, q.out, trace, room, e);
      CutTrace(d0, t0, p.commits, r0);
    }

    /** From the trace back to the state. */
    lemma {:induction false} CutTrace(d0: Durable, t0: seq<Commit>, cs: seq<Commit>, n: nat)
      requires d0 == ApplyAll(start, t0)
      ensures ApplyAll(start, t0 + Cut(cs, n)) == ApplyAll(d0, Cut(cs, n))
    {
      ApplyAllConcat(start, t0, Cut(cs, n));
    }

    method HandleRow(req: Request, env: Env) returns (e: Ending<Outcome>)
      requires Valid() && req.tool in cfg.registry
      modifies this, world, toolCalls
      ensures Valid()
      ensures var p := RowPlan(cfg, old(D()), req, env);
              Wrote(old(trace), old(room), p.commits, p.out, trace, room, e)
    {
      var key := cfg.KeyOf(req.call);
      if !((cfg.dedup || cfg.outbox) && key in toolCalls.rows) {
        e := PassGate(req, false, env);
        return;
      }
      var row := toolCalls.rows[key];
      if row.sha != Sha(req.args) {
        e := CloseCall(req.call, Rejected, "args_sha256_mismatch", "args_sha256_mismatch");
        return;
      }
      match row.status {
        case RowExecuted =>
          :- AppendEvent(ResultEvent(req.call, Executed, row.result, ""));
          e := Alive(Done(Executed, row.result, "", true));
        case RowPending =>
          e := ResolvePending(req, env);
        case RowUnknown =>
          :- AppendEvent(ResultEvent(req.call, Unknown, None, "unknown_effect_unresolved"));
          e := Alive(Done(Unknown, None, "unknown_effect_unresolved", false));
        case RowFailed =>
          e := PassGate(req, true, env);
      }
    }

    method ResolvePending(req: Request, env: Env) returns (e: Ending<Outcome>)
      requires Valid() && req.tool in cfg.registry
      modifies this, world, toolCalls
      ensures Valid()
      ensures var p := ResolvePlan(cfg, old(D()), req, env);
              Wrote(old(trace), old(room), p.commits, p.out, trace, room, e)
    {
      var key := cfg.KeyOf(req.call);
      if cfg.registry[req.tool].hasProbe {
        match env.probe {
          case Applied(detail) =>
            var result := Some(Reconstructed(req.tool, detail));
            :- AppendEvent(ResultEvent(req.call, Executed, result, ""));
            :- CompleteIntent(key, result);
            e := Alive(Done(Executed, result, "", true));
            return;
          case NotApplied =>
            e := PassGate(req, true, env);
            return;
          case Inconclusive =>
        }
      }
      ghost var t0, r0 := trace, room;
      ghost var closing := Close(req.call, Unknown, "unknown_effect", "unknown_effect").commits;
      var out := CloseCall(req.call, Unknown, "unknown_effect", "unknown_effect");
      if out.Killed? {
        assert Cut(closing + [MarkUnknown(key)], r0) == Cut(closing, r0);
        return Killed;
      }
      assert trace == t0 + closing;
      var k := GiveUpIntent(key);
      if k.Lost? {
        assert Cut(closing + [MarkUnknown(key)], r0) == closing;
        return Killed;
      }
      e := out;
    }

    method PassGate(req: Request, existing: bool, env: Env) returns (e: Ending<Outcome>)
      requires Valid() && req.tool in cfg.registry
      modifies this, world, toolCalls
      ensures Valid()
      ensures var p := GatePlan(cfg, old(D()), req, existing, env);
              Wrote(old(trace), old(room), p.commits, p.out, trace, room, e)
    {
      var binding := FindApproval(log, req.call, req.tool);
      if binding.Some? {
        var answer := Validate(binding.value, req.call, req.tool, Sha(req.args), env.now);
        if !LetsThrough(answer) {
          e := CloseCall(req.call, Rejected, ReasonOf(answer), ReasonOf(answer));
          return;
        }
      } else if cfg.registry[req.tool].requiresApproval {
        e := RaiseInterrupt(req, env);
        return;
      }
      e := CheckAndRun(req, existing, binding, env);
    }

    method RaiseInterrupt(req: Request, env: Env) returns (e: Ending<Outcome>)
      requires Valid()
      modifies this
      ensures Valid()
      ensures var p := InterruptPlan(old(D()), req, env);
              Wrote(old(trace), old(room), p.commits, p.out, trace, room, e)
    {
      var s, _ := ReduceEvents(log);
      if s.pending.Some? {
        var asked: Option<Body> := None;
        if s.pending.value.ById? {
          asked := InterruptRequest(s.pending.value.iid);
        }
        return Alive(if asked.Some? then Interrupted else GateLost);
      }
      var index := CountInterrupts();
      :- AppendEvent(Interrupt(Some(env.interruptId), Some(index), req.call, req.tool, req.args));
      e := Alive(Interrupted);
    }

    /** Steps 5 and 5b. */
    method CheckAndRun(req: Request, existing: bool, binding: Option<Binding>, env: Env)
      returns (e: Ending<Outcome>)
      requires Valid() && req.tool in cfg.registry
      modifies this, world, toolCalls
      ensures Valid()
      ensures var p := CheckPlan(cfg, req, existing, binding, env);
              Wrote(old(trace), old(room), p.commits, p.out, trace, room, e)
    {
      var args := if env.tampered.Some? then env.tampered.value else req.args;
      if binding.Some? && Sha(args) != binding.value.approvedSha {
        e := CloseCall(req.call, Rejected, "args_sha256_mismatch", "args_sha256_mismatch");
        return;
      }
      if !PolicyAdmits(cfg.registry[req.tool], args) {
        e := CloseCall(req.call, Rejected, "arg_policy_violation", "arg_policy_violation");
        return;
      }
      e := RunTool(req, existing, args, env);
    }

    /** All of a few commits was made, or the first of them already was one too many. */
    ghost predicate AllOrLost(t0: seq<Commit>, r0: nat, cs: seq<Commit>, f: Fate)
      reads this
    {
      if r0 < |cs| then f.Lost? && trace == t0
      else f.Made? && trace == t0 + cs && room == r0 - |cs|
    }

    /** Step 6. */
    method WriteIntent(req: Request, existing: bool, args: Args) returns (f: Fate)
      requires Valid() && req.tool in cfg.registry
      modifies this, toolCalls
      ensures Valid() && AllOrLost(old(trace), old(room), IntentCommits(cfg, req, existing, args), f)
    {
      f := Made;
      if cfg.outbox && cfg.registry[req.tool].effect == WriteNonidempotent && !existing {
        f := InsertIntent(cfg.KeyOf(req.call), req.call, req.tool, Sha(args));
      }
    }

    /** Step 7, what the tool does outside. */
    method TouchWorld(req: Request, args: Args, env: Env) returns (f: Fate)
      requires Valid() && req.tool in cfg.registry
      modifies this, world
      ensures Valid() && AllOrLost(old(trace), old(room), EffectCommits(cfg, req, args, env), f)
    {
      var effect := cfg.registry[req.tool].effect;
      f := Made;
      if effect != Read && !env.fn.RaisesBefore? {
        f := CauseEffect(cfg.KeyOf(req.call), req.tool, args, effect == WriteIdempotent);
      }
    }

    /** Steps 6 and 7: intent, effect, event, row. */
    method RunTool(req: Request, existing: bool, args: Args, env: Env) returns (e: Ending<Outcome>)
      requires Valid() && req.tool in cfg.registry
      modifies this, world, toolCalls
      ensures Valid()
      ensures var p := EffectPlan(cfg, req, existing, args, env);
              Wrote(old(trace), old(room), p.commits, p.out, trace, room, e)
    {
      ghost var t0, r0 := trace, room;
      ghost var intent := IntentCommits(cfg, req, existing, args);
      ghost var effect := EffectCommits(cfg, req, args, env);
      ghost var record := RecordPlan(cfg, req, args, env);
      ThreeStages(intent, effect, record.commits, r0);
      var noted := WriteIntent(req, existing, args);
      if noted.Lost? {
        return Killed;
      }
      var touched := TouchWorld(req, args, env);
      if touched.Lost? {
        return Killed;
      }
      ghost var t1, r1 := trace, room;
      assert t1 == t0 + (intent + effect);
      e := RecordOutcome(req, args, env);
      WroteAfter(t0, r0, intent + effect, t1, r1, record.commits, record.out, trace, room, e);
    }

    method RecordOutcome(req: Request, args: Args, env: Env) returns (e: Ending<Outcome>)
      requires Valid() && req.tool in cfg.registry
      modifies this, toolCalls
      ensures Valid()
      ensures var p := RecordPlan(cfg, req, args, env);
              Wrote(old(trace), old(room), p.commits, p.out, trace, room, e)
    {
      var key := cfg.KeyOf(req.call);
      var outboxPath := cfg.outbox && cfg.registry[req.tool].effect == WriteNonidempotent;
      if env.fn.Returns? {
        var result := Some(Returned(env.fn.text));
        :- AppendEvent(ResultEvent(req.call, Executed, result, ""));
        if outboxPath {
          :- CompleteIntent(key, result);
        } else {
          :- InsertClosed(key, Row(req.call, req.tool, Sha(args), RowExecuted, result));
        }
        e := Alive(Done(Executed, result, "", false));
      } else {
        e := HandleToolFailure(req, args, env.fn.error, outboxPath);
      }
    }

    /** A tool that raised may or may not have had its effect. */
    method HandleToolFailure(req: Request, args: Args, error: string, outboxPath: bool)
      returns (e: Ending<Outcome>)
      requires Valid()
      modifies this, toolCalls
      ensures Valid()
      ensures var key := cfg.KeyOf(req.call);
              var status := if outboxPath then Unknown else Failed;
              var last := if outboxPath then MarkUnknown(key)
                          else InsertRow(key, Row(req.call, req.tool, Sha(args), RowFailed, None));
              var p := Close(req.call, status, error, error);
              Wrote(old(trace), old(room), p.commits + [last], p.out, trace, room, e)
    {
      var key := cfg.KeyOf(req.call);
      var status := if outboxPath then Unknown else Failed;
      :- AppendEvent(Error(error, false));
      :- AppendEvent(ResultEvent(req.call, status, None, error));
      if outboxPath {
        :- GiveUpIntent(key);
      } else {
        :- InsertClosed(key, Row(req.call, req.tool, Sha(args), RowFailed, None));
      }
      e := Alive(Done(status, None, error, false));
    }

    // ------------------------------------------------- recovery and decisions

    /** One call of the recovery pass; a call the log does not hold is passed over. */
    method ResumeOne(ids: seq<CallId>, envs: seq<Env>, k: nat, ghost todo: Recovery)
      returns (e: Ending<Option<Outcome>>, ghost cs: seq<Commit>, ghost rest: Recovery)
      requires Valid() && k < |ids| == |envs| && Plans(cfg, D(), ids, envs, k, todo)
      modifies this, world, toolCalls
      ensures Valid()
      ensures trace == old(trace) + Cut(cs, old(room)) && (e.Killed? <==> old(room) < |cs|)
      ensures e.Alive? ==> room == old(room) - |cs|
      ensures cs <= todo.commits
      ensures e.Alive? ==>
                if e.value.Some? && !e.value.value.Done? then todo == Recovery(cs, 0, PassEndOf(e.value.value))
                else
                  && Plans(cfg, D(), ids, envs, k + 1, rest)
                  && Follows(todo, cs, if e.value.Some? then 1 else 0, rest)
    {
      ResumeUnfolds(cfg, D(), ids, envs, k);
      var request := ToolRequestFromLog(ids[k]);
      cs, rest := [], todo;
      if request.None? {
        return Alive(None), cs, rest;
      }
      cs := ExecutePlan(cfg, D(), request.value, envs[k]).commits;
      var outcome := Execute(request.value, envs[k]);
      if outcome.Killed? {
        return Killed, cs, rest;
      }
      rest := ResumePlan(cfg, D(), ids[k + 1..], envs[k + 1..]);
      e := Alive(Some(outcome.value));
    }

    /** Drives open calls once more, one after the other, up to the first that waits. */
    method ResumeEach(ids: seq<CallId>, envs: seq<Env>, ghost whole: Recovery) returns (e: Ending<ResumeReport>)
      requires Valid() && |envs| == |ids| && Plans(cfg, D(), ids, envs, 0, whole)
      modifies this, world, toolCalls
      ensures Valid() && ResumedAs(whole, old(trace), old(room), trace, room, e)
    {
      ghost var t0, r0 := trace, room;
      ghost var done, rest := [], whole;
      var outcomes: seq<Outcome> := [];
      for k := 0 to |ids|
        invariant Valid() && Plans(cfg, D(), ids, envs, k, rest)
        invariant |done| <= r0 && trace == t0 + done && room == r0 - |done|
        invariant Follows(whole, done, |outcomes|, rest)
      {
        var outcome, cs, more := ResumeOne(ids, envs, k, rest);
        CutInside(t0, whole.commits, done, cs, rest.commits, r0);
        if outcome.Killed? {
          return Killed;
        }
        done := done + cs;
        if outcome.value.Some? && !outcome.value.value.Done? {
          return Alive(ResumeReport(outcomes, PassEndOf(outcome.value.value)));
        }
        rest := more;
        if outcome.value.Some? {
          outcomes := outcomes + [outcome.value.value];
        }
      }
      NothingPlanned(cfg, D(), ids, envs, rest);
      e := Alive(ResumeReport(outcomes, WentThrough));
    }

    /** Drives every call the log holds open once more, in the log's order. */
    method ResumeOpenCalls(envs: seq<Env>) returns (e: Ending<ResumeReport>)
      requires Valid() && |envs| == |OpenInOrder(log)|
      modifies this, world, toolCalls
      ensures Valid()
      ensures ResumedAs(ResumePlan(cfg, old(D()), old(OpenInOrder(log)), envs),
                        old(trace), old(room), trace, room, e)
    {
      var s, _ := ReduceEvents(log);
      var ids := OpenCallsInLogOrder(s.open);
      ghost var whole := ResumePlan(cfg, D(), ids, envs);
      AllPlanned(cfg, D(), ids, envs);
      e := ResumeEach(ids, envs, whole);
    }

    /** A human's decision: answer the call if it is rejected or edited, then the
        approval, then the resume that opens the gate. */
    method DecideOn(dec: Decision) returns (e: Ending<Decided>)
      requires Valid()
      modifies this
      ensures Valid()
      ensures Wrote(old(trace), old(room), DecideCommits(old(D()), dec), DecidePlan(old(D()), dec),
                    trace, room, e)
    {
      ghost var d0, t0, r0 := D(), trace, room;
      var s, _ := ReduceEvents(log);
      if s.pending.None? {
        return Alive(Refused(NoOpenInterrupt));
      }
      var asked: Option<Body> := None;
      if s.pending.value.ById? {
        asked := InterruptRequest(s.pending.value.iid);
      }
      if asked.None? {
        return Alive(Refused(InterruptNotInLog));
      }
      var edited := dec.approvedArgs.Some? && Sha(dec.approvedArgs.value) != Sha(asked.value.args);
      if dec.verdict == Reject && edited {
        return Alive(Refused(RejectionCarriesEdits));
      }
      e := WriteDecision(asked.value, dec);
    }

    method WriteDecision(asked: Body, dec: Decision) returns (e: Ending<Decided>)
      requires Valid() && asked.Interrupt?
      modifies this
      ensures Valid()
      ensures var binding := DecidedBinding(asked, dec);
              var cs := ClosingCommits(asked, dec)
                        + [Append(Approval(binding)),
                           Append(Resume(asked.iid, asked.index, dec.verdict, binding.call))];
              Wrote(old(trace), old(room), cs, Accepted(cs, binding), trace, room, e)
    {
      ghost var t0, r0 := trace, room;
      ghost var closing := ClosingCommits(asked, dec);
      var target := AnswerInterrupted(asked, dec);
      var edited := dec.approvedArgs.Some? && Sha(dec.approvedArgs.value) != Sha(asked.args);
      ghost var binding := DecidedBinding(asked, dec);
      ghost var rest := [Append(Approval(binding)),
                         Append(Resume(asked.iid, asked.index, dec.verdict, binding.call))];
      if target.Killed? {
        assert Cut(closing + rest, r0) == Cut(closing, r0);
        return Killed;
      }
      var effective := if edited then dec.approvedArgs.value else asked.args;
      ghost var t1, r1 := trace, room;
      e := RecordApproval(
        Binding(target.value, asked.tool, Sha(asked.args), Sha(effective), dec.verdict,
                dec.now, dec.now + dec.ttl, dec.scope),
        asked, dec);
      WroteAfter(t0, r0, closing, t1, r1, rest, Accepted(closing + rest, binding), trace, room, e);
    }

    /** Rejection answers the call; an edit supersedes it and opens a new one. */
    method AnswerInterrupted(asked: Body, dec: Decision) returns (e: Ending<CallId>)
      requires Valid() && asked.Interrupt?
      modifies this
      ensures Valid()
      ensures Wrote(old(trace), old(room), ClosingCommits(asked, dec), DecidedBinding(asked, dec).call,
                    trace, room, e)
    {
      if dec.verdict == Reject {
        :- AppendEvent(ResultEvent(asked.gated, Rejected, None, "approval_rejected"));
        e := Alive(asked.gated);
      } else if dec.approvedArgs.Some? && Sha(dec.approvedArgs.value) != Sha(asked.args) {
        var target := EditId(asked.gated);
        :- AppendEvent(ResultEvent(asked.gated, Superseded, None, "superseded_by_edit"));
        :- AppendEvent(CallEvent(Request(target, asked.tool, dec.approvedArgs.value)));
        e := Alive(target);
      } else {
        e := Alive(asked.gated);
      }
    }

    method RecordApproval(binding: Binding, asked: Body, dec: Decision) returns (e: Ending<Decided>)
      requires Valid() && asked.Interrupt?
      modifies this
      ensures Valid()
      ensures var cs := [Append(Approval(binding)),
                         Append(Resume(asked.iid, asked.index, dec.verdict, binding.call))];
              Wrote(old(trace), old(room), cs, Accepted(ClosingCommits(asked, dec) + cs, binding),
                    trace, room, e)
    {
      var approval, resume := Approval(binding), Resume(asked.iid, asked.index, dec.verdict, binding.call);
      :- AppendEvent(approval);
      :- AppendEvent(resume);
      e := Alive(Accepted(ClosingCommits(asked, dec) + [Append(approval), Append(resume)], binding));
    }
  }

  lemma {:induction false} FirstCallStays(log: Log, n: nat, c: CallId)
    requires n <= |log| && FirstCall(log[..n], c).Some?
    ensures FirstCall(log, c) == FirstCall(log[..n], c)
    decreases |log| - n
  {
    if n == |log| {
      assert log[..n] == log;
    } else {
      assert log[..n + 1] == log[..n] + [log[n]];
      FirstCallAppend(log[..n], log[n], c);
      FirstCallStays(log, n + 1, c);
    }
  }

  lemma {:induction false} FirstResultStays(log: Log, n: nat, c: CallId)
    requires n <= |log| && FirstResult(log[..n], c).Some?
    ensures FirstResult(log, c) == FirstResult(log[..n], c)
    decreases |log| - n
  {
    if n == |log| {
      assert log[..n] == log;
    } else {
      assert log[..n + 1] == log[..n] + [log[n]];
      FirstResultAppend(log[..n], log[n], c);
      FirstResultStays(log, n + 1, c);
    }
  }

  lemma {:induction false} FirstInterruptStays(log: Log, n: nat, iid: string)
    requires n <= |log| && FirstInterrupt(log[..n], iid).Some?
    ensures FirstInterrupt(log, iid) == FirstInterrupt(log[..n], iid)
    decreases |log| - n
  {
    if n == |log| {
      assert log[..n] == log;
    } else {
      assert log[..n + 1] == log[..n] + [log[n]];
      FirstInterruptAppend(log[..n], log[n], iid);
      FirstInterruptStays(log, n + 1, iid);
    }
  }
}
