/** The agent loop over the tool executor: it asks the model, notes what it said,
    drives its calls, and commits a checkpoint at every super-step. A kill may come
    at any of its commits; `Resume` then picks up from the log alone. */
module AgentLoop {
  import opened Events
  import opened Tools
  import opened Reducer
  import opened ReducerSpec
  import opened Pipeline
  import opened Invariants
  import opened Footprint
  import opened Exclusivity
  import opened Justification
  import opened Attribution
  import opened Ordering
  import opened Deciding
  import opened Runs
  import opened View
  import opened C = Compaction
  import opened Turns
  import opened LoopRuns
  import opened Continuation
  import opened Tables
  import opened Executor
  import opened Checkpoints

  /** What the model proposes, and what each proposed call will meet. */
  datatype Turn = Turn(text: string, calls: seq<Request>, envs: seq<Env>)

  datatype Reply = Says(turn: Turn) | Overflows | OverBudget

  /** Token counts of what a summary replaces and of the summary. */
  datatype Sizes = Sizes(before: nat, after: nat)

  /** What one step meets outside: whether the view nearly fills the window, the
      model's answer and its answer to a second try, and how summaries come out. */
  datatype StepInput = StepInput(crowded: bool, first: Reply, second: Reply, early: Sizes, late: Sizes)

  /** What a driven run reports. */
  datatype RunOutcome = RunOutcome(status: RunStatus, step: nat, viewFaults: nat, mismatches: nat)

  /** Every proposed call comes with what it will meet. */
  predicate Proper(r: Reply) {
    r.Says? ==> |r.turn.calls| == |r.turn.envs|
  }

  predicate ProperInput(i: StepInput) {
    Proper(i.first) && Proper(i.second)
  }

  function Meeting(env: Env, log: Log): Env {
    env.(interruptId := NewId(log))
  }

  // ------------------------------------------------------- steps of the loop

  /** What holds of the durable state between any two commits of the loop: the log is in
      order and its turns are whole, every effect is justified, and with the outbox on no
      key has two. */
  ghost predicate LoopKeeps(cfg: Config, d: Durable) {
    && Inv(Ordered, cfg, d) && TurnsKept(d.log) && Inv(Justified, cfg, d)
    && (cfg.outbox ==> Inv(AtMostOnce, cfg, d))
  }

  lemma {:induction false} EffectsKept(cfg: Config, d: Durable, a: Action)
    requires LoopKeeps(cfg, d) && (cfg.outbox ==> OnceAllowed(cfg, d, a))
    ensures var d' := Act(cfg, d, a); Inv(Justified, cfg, d') && (cfg.outbox ==> Inv(AtMostOnce, cfg, d'))
  {
    ActKeepsJustified(cfg, d, a);
    if cfg.outbox {
      ActKeepsOnce(cfg, d, a);
    }
  }

  lemma {:induction false} NoteKeeps(cfg: Config, keep: int, d: Durable, e: Body)
    requires LoopKeeps(cfg, d) && LoopAllowed(cfg, keep, d, Action.Note(e))
    ensures LoopKeeps(cfg, Apply(d, Append(e)))
  {
    ActKeepsOrdered(cfg, d, Action.Note(e));
    ActKeepsTurns(cfg, keep, d, Action.Note(e));
    EffectsKept(cfg, d, Action.Note(e));
    ApplyOne(d, Append(e));
  }

  /** An artifact moves neither calls nor gate; only a fatal one ends the run. */
  lemma {:induction false} ArtifactMeans(log: Log, e: Body)
    requires !IsTree(e)
    ensures AtRest(log + [e]) <==> AtRest(log)
    ensures Reduce(log + [e]).terminal <==> Reduce(log).terminal || IsFatal(e)
  {
    ReduceAppend(log, e);
  }

  lemma {:induction false} MessageMeans(log: Log, e: Body)
    requires IsBoundary(e) && AtRest(log) && !Reduce(log).terminal
    ensures AtRest(log + [e])
    ensures Reduce(log + [e]).terminal <==> IsFinal(e)
  {
    ReduceAppend(log, e);
  }

  /** The state in which the next call of a turn may be driven. */
  ghost predicate InTurn(cfg: Config, d: Durable) {
    LoopKeeps(cfg, d) && AtRest(d.log) && !Reduce(d.log).terminal && !NewestGone(d.log)
  }

  /** MAIN: in a turn nothing is open, so an id that the model proposes is new or answered,
      and what the claims about effects ask of it holds by itself: it is driven for no
      other tool and no other request, and no read-back is asked about it. */
  lemma {:induction false} TurnsReuseNoOpenId(cfg: Config, d: Durable, req: Request, env: Env)
    requires Inv(Ordered, cfg, d) && AtRest(d.log)
    ensures SameTool(d, req)
    ensures ActualArgs(req, env) == req.args ==> OneRequest(d, req, env)
    ensures Inv(AtMostOnce, cfg, d) ==> HonestProbe(cfg, d, req.call, env)
  {
    var c := req.call;
    CleanMeans(d.log);
    FirstCallMeans(d.log, c);
    if Inv(AtMostOnce, cfg, d) && c !in Reduce(d.log).closed {
      assert Count(d.ledger, cfg.KeyOf(c)) == 1 ==> EffectAccounted(cfg, d, cfg.KeyOf(c));
    }
  }

  lemma {:induction false} CallKeeps(cfg: Config, d: Durable, req: Request, env: Env, n: nat)
    requires InTurn(cfg, d) && FirstInterrupt(d.log, env.interruptId).None?
    ensures var d' := ApplyAll(d, Cut(ExecutePlan(cfg, d, req, env).commits, n));
            LoopKeeps(cfg, d') && !NewestGone(d'.log)
  {
    var cs := ExecutePlan(cfg, d, req, env).commits;
    ExecuteOrdered(cfg, d, req, env);
    KeepsAtEveryCut(Ordered, cfg, d, cs, n);
    TurnsReuseNoOpenId(cfg, d, req, env);
    EffectsKept(cfg, d, Execute(req, env, n));
    PipelineWritesNoTurns(cfg, d, Execute(req, env, n));
    CommitsKeepTurns(d, Cut(cs, n));
  }

  lemma {:induction false} AnsweredIsAtRest(log: Log, req: Request, after: Log)
    requires AtRest(log) && !Reduce(log).terminal && req.call !in Reduce(log).closed
    requires Answers(log + [CallEvent(req)], after, req.call)
    ensures AtRest(after) && !Reduce(after).terminal
  {
    ReduceAppend(log, CallEvent(req));
  }

  /** How a call ends that was started at rest. */
  ghost predicate EndsWell(out: Outcome, after: Log) {
    if out.Done? then AtRest(after) && !Reduce(after).terminal else out.Interrupted? && Reduce(after).pending.Some?
  }

  lemma {:induction false} SettledEndsWell(d: Durable, req: Request, out: Outcome, after: Log)
    requires AtRest(d.log) && !Reduce(d.log).terminal && req.call !in Reduce(d.log).closed
    requires Settled(WithCall(d, req).log, after, req.call, out)
    ensures EndsWell(out, after)
  {
    if out.Done? {
      AnsweredIsAtRest(d.log, req, after);
    }
  }

  /** A call that ran to its end leaves the turn at rest again, or someone being asked. */
  lemma {:induction false} CallSettles(cfg: Config, d: Durable, req: Request, env: Env, p: Exec)
    requires Inv(Ordered, cfg, d) && AtRest(d.log) && !Reduce(d.log).terminal
    requires FirstInterrupt(d.log, env.interruptId).None?
    requires p == ExecutePlan(cfg, d, req, env)
    ensures EndsWell(p.out, ApplyAll(d, p.commits).log)
  {
    ExecuteOrdered(cfg, d, req, env);
    if req.call !in Reduce(d.log).closed {
      SettledEndsWell(d, req, p.out, ApplyAll(d, p.commits).log);
    }
  }

  /** A recovery pass keeps what the loop keeps, wherever it is killed. */
  lemma {:induction false} RecoveryWritesNoTurns(cfg: Config, d: Durable, ids: seq<CallId>, envs: seq<Env>)
    requires |ids| == |envs|
    ensures NoTurnEventsIn(ResumePlan(cfg, d, ids, envs).commits)
    decreases |ids|
  {
    if ids != [] {
      if FirstCall(d.log, ids[0]).None? {
        RecoveryWritesNoTurns(cfg, d, ids[1..], envs[1..]);
      } else {
        var req := FirstCall(d.log, ids[0]).value;
        var p := ExecutePlan(cfg, d, req, envs[0]);
        PipelineWritesNoTurns(cfg, d, Execute(req, envs[0], 0));
        if p.out.Done? {
          RecoveryWritesNoTurns(cfg, ApplyAll(d, p.commits), ids[1..], envs[1..]);
        }
      }
    }
  }

  lemma {:induction false} KeepNothing(ids: seq<CallId>)
    ensures Keep(ids, map[]) == []
  {
    if ids != [] {
      KeepNothing(ids[1..]);
    }
  }

  lemma {:induction false} RecoveryJustified(cfg: Config, d: Durable, ids: seq<CallId>, envs: seq<Env>)
    requires |envs| == |ids| && Inv(Justified, cfg, d)
    ensures Keeps(Justified, cfg, d, ResumePlan(cfg, d, ids, envs).commits)
    decreases |ids|
  {
    if ids != [] {
      if FirstCall(d.log, ids[0]).None? {
        RecoveryJustified(cfg, d, ids[1..], envs[1..]);
      } else {
        var p := ExecutePlan(cfg, d, FirstCall(d.log, ids[0]).value, envs[0]);
        ExecuteJustified(cfg, d, FirstCall(d.log, ids[0]).value, envs[0]);
        KeepsAtEveryCut(Justified, cfg, d, p.commits, |p.commits|);
        var d' := ApplyAll(d, p.commits);
        if p.out.Done? {
          RecoveryJustified(cfg, d', ids[1..], envs[1..]);
          KeepsConcat(Justified, cfg, d, p.commits, ResumePlan(cfg, d', ids[1..], envs[1..]).commits);
        }
      }
    }
  }

  /** No read-back of a recovery pass denies an effect that the ledger holds. */
  ghost predicate HonestPass(cfg: Config, ledger: seq<EffectRow>, ids: seq<CallId>, envs: seq<Env>) {
    forall k :: 0 <= k < |ids| && k < |envs| && envs[k].probe.NotApplied? ==> Count(ledger, cfg.KeyOf(ids[k])) == 0
  }

  /** Driving one call leaves the read-backs of the others as honest as they were. */
  lemma {:induction false} StillHonest(cfg: Config, d: Durable, ids: seq<CallId>, envs: seq<Env>, req: Request, cs: seq<Commit>)
    requires ids != [] && |envs| == |ids| && Distinct(ids) && HonestPass(cfg, d.ledger, ids, envs)
    requires req.call == ids[0] && AllOwn(cfg, req, envs[0], cs)
    ensures HonestPass(cfg, ApplyAll(d, cs).ledger, ids[1..], envs[1..])
  {
    forall k | 0 <= k < |ids| - 1 && envs[1..][k].probe.NotApplied?
      ensures Count(ApplyAll(d, cs).ledger, cfg.KeyOf(ids[1..][k])) == 0
    {
      assert ids[1..][k] == ids[k + 1] && envs[1..][k] == envs[k + 1];
      OtherKeysStay(cfg, d, req, envs[0], cs, cfg.KeyOf(ids[k + 1]));
    }
  }

  lemma {:induction false} RecoveryOnce(cfg: Config, d: Durable, ids: seq<CallId>, envs: seq<Env>)
    requires cfg.outbox && |envs| == |ids| && Inv(AtMostOnce, cfg, d)
    requires Distinct(ids) && HonestPass(cfg, d.ledger, ids, envs)
    ensures Keeps(AtMostOnce, cfg, d, ResumePlan(cfg, d, ids, envs).commits)
    decreases |ids|
  {
    if ids != [] {
      assert HonestPass(cfg, d.ledger, ids[1..], envs[1..]) by {
        forall k | 0 <= k < |ids| - 1 && envs[1..][k].probe.NotApplied?
          ensures Count(d.ledger, cfg.KeyOf(ids[1..][k])) == 0
        {
          assert envs[k + 1].probe.NotApplied?;
        }
      }
      if FirstCall(d.log, ids[0]).None? {
        RecoveryOnce(cfg, d, ids[1..], envs[1..]);
      } else {
        var req := FirstCall(d.log, ids[0]).value;
        var p := ExecutePlan(cfg, d, req, envs[0]);
        FirstCallMeans(d.log, ids[0]);
        ExecuteOnce(cfg, d, req, envs[0]);
        ACallWritesOnlyItsOwn(cfg, d, req, envs[0]);
        KeepsAtEveryCut(AtMostOnce, cfg, d, p.commits, |p.commits|);
        var d' := ApplyAll(d, p.commits);
        StillHonest(cfg, d, ids, envs, req, p.commits);
        if p.out.Done? {
          RecoveryOnce(cfg, d', ids[1..], envs[1..]);
          KeepsConcat(AtMostOnce, cfg, d, p.commits, ResumePlan(cfg, d', ids[1..], envs[1..]).commits);
        }
      }
    }
  }

  lemma {:induction false} RecoveryKeepsEffects(cfg: Config, d: Durable, envs: seq<Env>, n: nat)
    requires LoopKeeps(cfg, d) && |envs| == |OpenInOrder(d.log)|
    requires cfg.outbox ==> HonestPass(cfg, d.ledger, OpenInOrder(d.log), envs)
    ensures var d' := ApplyAll(d, Cut(ResumePlan(cfg, d, OpenInOrder(d.log), envs).commits, n));
            Inv(Justified, cfg, d') && (cfg.outbox ==> Inv(AtMostOnce, cfg, d'))
  {
    var ids := OpenInOrder(d.log);
    var cs := ResumePlan(cfg, d, ids, envs).commits;
    RecoveryJustified(cfg, d, ids, envs);
    KeepsAtEveryCut(Justified, cfg, d, cs, n);
    if cfg.outbox {
      OpenInOrderIsOpen(d.log);
      RecoveryOnce(cfg, d, ids, envs);
      KeepsAtEveryCut(AtMostOnce, cfg, d, cs, n);
    }
  }

  lemma {:induction false} RecoveryKeeps(cfg: Config, d: Durable, envs: seq<Env>, n: nat)
    requires LoopKeeps(cfg, d) && !Reduce(d.log).terminal && Reduce(d.log).pending.None? && Registered(cfg, d.log)
    requires |envs| == |OpenInOrder(d.log)| && (cfg.outbox ==> HonestPass(cfg, d.ledger, OpenInOrder(d.log), envs))
    requires forall k :: 0 <= k < |envs| ==> FirstInterrupt(d.log, envs[k].interruptId).None?
    ensures LoopKeeps(cfg, ApplyAll(d, Cut(ResumePlan(cfg, d, OpenInOrder(d.log), envs).commits, n)))
  {
    var ids := OpenInOrder(d.log);
    var cs := ResumePlan(cfg, d, ids, envs).commits;
    RecoveryClosesOrStopsAtTheGate(cfg, d, envs);
    KeepsAtEveryCut(Ordered, cfg, d, cs, n);
    RecoveryKeepsEffects(cfg, d, envs, n);
    if NewestGone(d.log) {
      KeepNothing(CallsInOrder(d.log));
      assert cs == [];
    } else {
      RecoveryWritesNoTurns(cfg, d, ids, envs);
      CommitsKeepTurns(d, Cut(cs, n));
    }
  }

  lemma {:induction false} RecoveryGoesOn(cfg: Config, shown: seq<Log>, d: Durable, envs: seq<Env>, n: nat)
    requires ViewsGoOn(shown, d.log) && Reduce(d.log).pending.None? && |envs| == |OpenInOrder(d.log)|
    ensures ViewsGoOn(shown, ApplyAll(d, Cut(ResumePlan(cfg, d, OpenInOrder(d.log), envs).commits, n)).log)
  {
    var cs := ResumePlan(cfg, d, OpenInOrder(d.log), envs).commits;
    if AtRest(d.log) {
      KeepNothing(CallsInOrder(d.log));
      assert cs == [];
    } else {
      UnrestMeansSpoken(shown, d.log);
      CommitsGoOn(shown, d, Cut(cs, n));
    }
  }

  lemma {:induction false} DecisionGoesOn(shown: seq<Log>, d: Durable, dec: Decision, n: nat)
    requires ViewsGoOn(shown, d.log)
    ensures ViewsGoOn(shown, ApplyAll(d, Cut(DecideCommits(d, dec), n)).log)
  {
    if DecideCommits(d, dec) != [] {
      UnrestMeansSpoken(shown, d.log);
      CommitsGoOn(shown, d, Cut(DecideCommits(d, dec), n));
    }
  }

  lemma {:induction false} RecoverySettles(cfg: Config, d: Durable, envs: seq<Env>)
    requires LoopKeeps(cfg, d) && !Reduce(d.log).terminal && Reduce(d.log).pending.None? && Registered(cfg, d.log)
    requires |envs| == |OpenInOrder(d.log)|
    requires forall k :: 0 <= k < |envs| ==> FirstInterrupt(d.log, envs[k].interruptId).None?
    ensures var r := ResumePlan(cfg, d, OpenInOrder(d.log), envs);
            var t := Reduce(ApplyAll(d, r.commits).log);
            && !t.terminal
            && (if r.ending == AtGate then t.pending.Some? else t.open == map[] && t.pending.None?)
  {
    RecoveryIsReady(cfg, d, envs);
    ResumeAnswersAPrefix(cfg, d, OpenInOrder(d.log), envs);
    RecoveryClosesOrStopsAtTheGate(cfg, d, envs);
  }

  /** The checkpoint points at an event the log does not hold. */
  predicate PointsNowhere(latest: Option<Checkpoint>, branch: string, log: Log) {
    && latest.Some? && latest.value.branch == branch
    && latest.value.lastEvent.Some? && latest.value.lastEvent.value >= |log|
  }

  /** No checkpoint of the branch is ahead of its log. */
  ghost predicate NoneAhead(rows: seq<Checkpoint>, branch: string, log: Log) {
    forall k :: 0 <= k < |rows| ==> !PointsNowhere(Some(rows[k]), branch, log)
  }

  lemma {:induction false} NoneAheadLater(rows: seq<Checkpoint>, branch: string, log: Log, more: Log)
    requires NoneAhead(rows, branch, log) && |log| <= |more|
    ensures NoneAhead(rows, branch, more)
  {}

  lemma {:induction false} LatestIsNotAhead(rows: seq<Checkpoint>, branch: string, log: Log, thread: string, ns: string)
    requires NoneAhead(rows, branch, log)
    ensures !PointsNowhere(Latest(rows, thread, ns), branch, log)
  {
    var latest := Latest(rows, thread, ns);
    if latest.Some? {
      var k :| 0 <= k < |rows| && rows[k] == latest.value;
      assert !PointsNowhere(Some(rows[k]), branch, log);
    }
  }

  class Loop {
    const exec: ToolExecutor
    const saver: SqliteCheckpointSaver
    const thread: string
    const ns: string
    const keep: int
    const compacts: bool
    const maxSteps: nat
    /** Faults of the view built last. */
    var viewFaults: nat
    /** The logs behind the views built so far. */
    ghost var shown: seq<Log>

    ghost predicate Valid()
      reads this, exec, exec.world, exec.toolCalls
    {
      exec.Valid() && LoopKeeps(exec.cfg, exec.D()) && viewFaults == 0 && ViewsGoOn(shown, exec.log)
    }

    ghost predicate NotAhead()
      reads exec, saver
    {
      NoneAhead(saver.checkpoints, exec.cfg.branch, exec.log)
    }

    constructor (exec: ToolExecutor, saver: SqliteCheckpointSaver, thread: string, ns: string, keep: int,
                 compacts: bool, maxSteps: nat)
      requires exec.Valid() && LoopKeeps(exec.cfg, exec.D())
      requires NoneAhead(saver.checkpoints, exec.cfg.branch, exec.log)
      ensures Valid() && NotAhead() && this.exec == exec && this.saver == saver
    {
      this.exec, this.saver, this.thread, this.ns, this.keep := exec, saver, thread, ns, keep;
      this.compacts, this.maxSteps, this.viewFaults, this.shown := compacts, maxSteps, 0, [];
    }

    method NoteEvent(e: Body) returns (f: Fate)
      requires Valid() && LoopAllowed(exec.cfg, keep, exec.D(), Action.Note(e))
      modifies exec
      ensures Valid()
      ensures exec.log == if f.Made? then old(exec.log) + [e] else old(exec.log)
      ensures f.Made? && IsTree(e) ==> SpokenSince(shown, exec.log)
    {
      NoteKeeps(exec.cfg, keep, exec.D(), e);
      EventGoesOn(shown, exec.log, e);
      f := exec.AppendEvent(e);
    }

    /** The request's view of the log. */
    method BuildView()
      requires Valid() && AtRest(exec.log)
      modifies this`viewFaults, this`shown
      ensures Valid() && shown == old(shown) + [exec.log]
    {
      ViewIsFaultless(exec.log);
      ShowingGoesOn(shown, exec.log);
      shown := shown + [exec.log];
      var _, faults, _ := RenderHistory(C.Kept(exec.log));
      viewFaults := |faults|;
    }

    method TryCompact(sizes: Sizes) returns (e: Ending<bool>)
      requires Valid() && AtRest(exec.log) && !Reduce(exec.log).terminal
      modifies exec
      ensures Valid() && |old(exec.log)| <= |exec.log|
      ensures e.Alive? ==> AtRest(exec.log) && !Reduce(exec.log).terminal
    {
      var c := Compact(exec.log, keep, sizes.before, sizes.after);
      match c {
        case Nothing =>
          e := Alive(false);
        case NoGain =>
          ArtifactMeans(exec.log, Error("compaction_no_gain", false));
          :- NoteEvent(Error("compaction_no_gain", false));
          e := Alive(false);
        case Compacted(ids) =>
          ArtifactMeans(exec.log, Body.Compaction(ids));
          :- NoteEvent(Body.Compaction(ids));
          e := Alive(true);
      }
    }

    /** A fatal error ends the run. */
    method Fail(cause: string) returns (e: Ending<Option<Turn>>)
      requires Valid()
      modifies exec
      ensures Valid() && |old(exec.log)| <= |exec.log|
      ensures e.Alive? ==> e.value.None? && Reduce(exec.log).terminal
    {
      ArtifactMeans(exec.log, Error(cause, true));
      :- NoteEvent(Error(cause, true));
      e := Alive(None);
    }

    /** One answer of the model, with at most one more try after an overflow. */
    method CallModel(input: StepInput) returns (e: Ending<Option<Turn>>)
      requires Valid() && AtRest(exec.log) && !Reduce(exec.log).terminal && ProperInput(input)
      modifies this`viewFaults, this`shown, exec
      ensures Valid() && |old(exec.log)| <= |exec.log| && old(shown) < shown
      ensures e.Alive? && e.value.None? ==> AtRest(exec.log) || Reduce(exec.log).terminal
      ensures e.Alive? && e.value.Some? ==>
                && AtRest(exec.log) && !Reduce(exec.log).terminal
                && Proper(Says(e.value.value))
    {
      BuildView();
      if compacts && input.crowded {
        var done := TryCompact(input.early);
        if done.Killed? {
          return Killed;
        }
        if done.value {
          BuildView();
        }
      }
      var attempt := 1;
      while attempt <= 2
        invariant 1 <= attempt <= 3
        invariant Valid() && AtRest(exec.log) && !Reduce(exec.log).terminal && |old(exec.log)| <= |exec.log|
        invariant old(shown) < shown
      {
        match if attempt == 1 then input.first else input.second {
          case Says(turn) =>
            return Alive(Some(turn));
          case OverBudget =>
            e := Fail("budget_exceeded");
            return;
          case Overflows =>
            if !compacts || attempt == 2 {
              e := Fail("context_overflow");
              return;
            }
            var done := TryCompact(input.late);
            if done.Killed? {
              return Killed;
            }
            if !done.value {
              e := Fail("context_overflow");
              return;
            }
            BuildView();
        }
        attempt := attempt + 1;
      }
      e := Alive(None);
    }

    /** The state between two calls of a turn. */
    ghost predicate MidTurn()
      reads this, exec, exec.world, exec.toolCalls
    {
      Valid() && InTurn(exec.cfg, exec.D()) && SpokenSince(shown, exec.log)
    }

    method RunCall(req: Request, env: Env) returns (e: Ending<Outcome>)
      requires MidTurn()
      modifies exec, exec.world, exec.toolCalls
      ensures Valid() && |old(exec.log)| <= |exec.log|
      ensures e.Alive? ==> if e.value.Done? then MidTurn() else e.value.Interrupted? && Reduce(exec.log).pending.Some?
    {
      var met := Meeting(env, exec.log);
      LongIdsAreNew(exec.log, met.interruptId);
      ghost var d, n := exec.D(), exec.room;
      ghost var p := ExecutePlan(exec.cfg, d, req, met);
      CallKeeps(exec.cfg, d, req, met, n);
      CallSettles(exec.cfg, d, req, met, p);
      CommitsOnlyAppend(d, Cut(p.commits, n));
      CommitsGoOn(shown, d, Cut(p.commits, n));
      CommitsGoOn(shown, d, p.commits);
      e := exec.Execute(req, met);
    }

    /** Drives the calls of a turn until one has to wait for a human. */
    method RunTurn(turn: Turn) returns (e: Ending<(bool, seq<Write>)>)
      requires MidTurn() && Proper(Says(turn))
      modifies exec, exec.world, exec.toolCalls
      ensures Valid() && |old(exec.log)| <= |exec.log|
      ensures e.Alive? ==> if e.value.0 then Reduce(exec.log).pending.Some? else MidTurn()
    {
      var writes: seq<Write> := [];
      for k := 0 to |turn.calls|
        invariant MidTurn() && |old(exec.log)| <= |exec.log|
      {
        var outcome := RunCall(turn.calls[k], turn.envs[k]);
        if outcome.Killed? {
          return Killed;
        }
        if outcome.value.Interrupted? {
          return Alive((true, writes));
        }
        writes := writes + [Write("tool:" + turn.calls[k].call, 0, "tool_output", turn.calls[k].tool)];
      }
      e := Alive((false, writes));
    }

    /** Writes first, then the snapshot of where the log stands. */
    method Commit(id: string, writes: seq<Write>, now: real)
      requires Valid() && NotAhead()
      modifies saver
      ensures Valid() && NotAhead()
      ensures saver.writes == UpsertedAll(old(saver.writes), thread, ns, id, writes)
      ensures var s := Reduce(exec.log);
              saver.checkpoints == old(saver.checkpoints) + [Checkpoint(
                thread, ns, id,
                if Latest(old(saver.checkpoints), thread, ns).None? then None
                else Some(Latest(old(saver.checkpoints), thread, ns).value.id),
                exec.cfg.branch, s.step, s.status,
                if exec.log == [] then None else Some(|exec.log| - 1), now)]
    {
      saver.PutWrites(thread, ns, id, writes);
      var latest := saver.GetLatest(thread, ns);
      var s, _ := ReduceEvents(exec.log);
      saver.Put(Checkpoint(
        thread, ns, id,
        if latest.None? then None else Some(latest.value.id),
        exec.cfg.branch, s.step, s.status,
        if exec.log == [] then None else Some(|exec.log| - 1), now));
    }

    /** The checkpoint is only ever checked against the log, never the other way. */
    method CheckpointCrossCheck() returns (e: Ending<nat>)
      requires Valid()
      modifies exec
      ensures Valid()
      ensures var off := PointsNowhere(Latest(saver.checkpoints, thread, ns), exec.cfg.branch, old(exec.log));
              && (e.Alive? ==> e.value == if off then 1 else 0)
              && (!off ==> e.Alive? && exec.log == old(exec.log) && exec.D() == old(exec.D()))
    {
      var latest := saver.GetLatest(thread, ns);
      if !PointsNowhere(latest, exec.cfg.branch, exec.log) {
        return Alive(0);
      }
      :- NoteEvent(Error("checkpoint_log_mismatch", false));
      e := Alive(1);
    }

    method Summarize(mismatches: nat) returns (r: RunOutcome)
      requires Valid()
      ensures r == RunOutcome(Reduce(exec.log).status, Reduce(exec.log).step, 0, mismatches)
    {
      var s, _ := ReduceEvents(exec.log);
      r := RunOutcome(s.status, s.step, viewFaults, mismatches);
    }

    /** The model's words open the next turn; without calls they are the last. */
    method Speak(turn: Turn) returns (f: Fate)
      requires Valid() && AtRest(exec.log) && !Reduce(exec.log).terminal
      modifies exec
      ensures Valid() && |old(exec.log)| <= |exec.log|
      ensures f.Made? ==> if turn.calls == [] then Reduce(exec.log).terminal else MidTurn()
    {
      var e := AgentMessage(turn.text, turn.calls == []);
      MessageMeans(exec.log, e);
      BoundaryKeeps(exec.log, e);
      f := NoteEvent(e);
    }

    method Drive(inputs: nat -> StepInput, ids: nat -> string, clock: nat -> real, mismatches: nat)
      returns (e: Ending<RunOutcome>)
      requires Valid() && NotAhead() && (AtRest(exec.log) || Reduce(exec.log).terminal)
      requires forall n: nat :: ProperInput(inputs(n))
      modifies this`viewFaults, this`shown, exec, exec.world, exec.toolCalls, saver
      ensures Valid() && NotAhead() && |old(exec.log)| <= |exec.log| && old(shown) <= shown
      ensures e.Alive? ==> Told(e.value, exec.log, mismatches)
    {
      for k := 0 to maxSteps
        invariant Valid() && NotAhead() && |old(exec.log)| <= |exec.log| && old(shown) <= shown
        invariant AtRest(exec.log) || Reduce(exec.log).terminal
      {
        var s, _ := ReduceEvents(exec.log);
        TerminalStatus(exec.log);
        if s.status == Completed || s.status == FailedRun {
          break;
        }
        ghost var log0 := exec.log;
        var reply := CallModel(inputs(k));
        NoneAheadLater(saver.checkpoints, exec.cfg.branch, log0, exec.log);
        if reply.Killed? {
          return Killed;
        }
        if reply.value.None? {
          break;
        }
        var turn := reply.value.value;
        var step := OneStep(turn, ids(k), clock(k));
        if step.Killed? {
          return Killed;
        }
        if step.value || turn.calls == [] {
          break;
        }
      }
      var r := Summarize(mismatches);
      e := Alive(r);
    }

    /** One super-step: the message, its calls, the commit. */
    method OneStep(turn: Turn, id: string, now: real) returns (e: Ending<bool>)
      requires Valid() && NotAhead() && AtRest(exec.log) && !Reduce(exec.log).terminal
      requires Proper(Says(turn))
      modifies exec, exec.world, exec.toolCalls, saver
      ensures Valid() && NotAhead() && |old(exec.log)| <= |exec.log|
      ensures e.Alive? ==>
                if e.value then Reduce(exec.log).pending.Some?
                else if turn.calls == [] then Reduce(exec.log).terminal
                else AtRest(exec.log) && !Reduce(exec.log).terminal
    {
      ghost var rows, log0 := saver.checkpoints, exec.log;
      var spoke := Speak(turn);
      NoneAheadLater(rows, exec.cfg.branch, log0, exec.log);
      if spoke.Lost? {
        return Killed;
      }
      var interrupted := false;
      var writes := [Write("model", 0, "messages", turn.text)];
      if turn.calls != [] {
        ghost var log1 := exec.log;
        var driven := RunTurn(turn);
        NoneAheadLater(rows, exec.cfg.branch, log1, exec.log);
        if driven.Killed? {
          return Killed;
        }
        interrupted, writes := driven.value.0, writes + driven.value.1;
      }
      Commit(id, writes, now);
      e := Alive(interrupted);
    }

    /** A run starts on an empty branch only. */
    method Start(task: string, inputs: nat -> StepInput, ids: nat -> string, clock: nat -> real)
      returns (e: Ending<Option<RunOutcome>>)
      requires Valid() && NotAhead() && forall n: nat :: ProperInput(inputs(n))
      modifies this`viewFaults, this`shown, exec, exec.world, exec.toolCalls, saver
      ensures Valid() && NotAhead() && |old(exec.log)| <= |exec.log| && old(shown) <= shown
      ensures e.Alive? && e.value.None? <==> old(exec.log) != []
      ensures old(exec.log) != [] ==> exec.log == old(exec.log)
      ensures e.Alive? && e.value.Some? ==> Told(e.value.value, exec.log, 0)
    {
      if exec.log != [] {
        return Alive(None);
      }
      MessageMeans(exec.log, UserMessage(task));
      ghost var log0 := exec.log;
      var noted := NoteEvent(UserMessage(task));
      NoneAheadLater(saver.checkpoints, exec.cfg.branch, log0, exec.log);
      if noted.Lost? {
        return Killed;
      }
      var out := Drive(inputs, ids, clock, 0);
      if out.Killed? {
        return Killed;
      }
      e := Alive(Some(out.value));
    }

    /** Picks a run up from its log: a finished one and one that waits are left alone,
        open calls are driven once more, and then the model goes on. */
    method Resume(envs: seq<Env>, inputs: nat -> StepInput, ids: nat -> string, clock: nat -> real)
      returns (e: Ending<RunOutcome>)
      requires Valid() && NotAhead() && Registered(exec.cfg, exec.log) && |envs| == |OpenInOrder(exec.log)|
      requires exec.cfg.outbox ==> HonestPass(exec.cfg, exec.world.ledger, OpenInOrder(exec.log), envs)
      requires forall k :: 0 <= k < |envs| ==> FirstInterrupt(exec.log, envs[k].interruptId).None?
      requires forall n: nat :: ProperInput(inputs(n))
      modifies this`viewFaults, this`shown, exec, exec.world, exec.toolCalls, saver
      ensures Valid() && NotAhead() && |old(exec.log)| <= |exec.log| && old(shown) <= shown
      ensures e.Alive? ==> Told(e.value, exec.log, 0)
      ensures Reduce(old(exec.log)).terminal || Reduce(old(exec.log)).pending.Some? ==>
                exec.log == old(exec.log) && exec.D() == old(exec.D()) && e.Alive?
    {
      var s, _ := ReduceEvents(exec.log);
      LatestIsNotAhead(saver.checkpoints, exec.cfg.branch, exec.log, thread, ns);
      var off := CheckpointCrossCheck();
      TerminalStatus(exec.log);
      if s.status == Completed || s.status == FailedRun || s.pending.Some? {
        var r := Summarize(off.value);
        return Alive(r);
      }
      ghost var rows, log0 := saver.checkpoints, exec.log;
      var report := DriveOpenCalls(envs);
      NoneAheadLater(rows, exec.cfg.branch, log0, exec.log);
      if report.Killed? {
        return Killed;
      }
      if report.value {
        Commit(ids(0), [], clock(0));
        var r := Summarize(off.value);
        return Alive(r);
      }
      e := Drive(inputs, (n: nat) => ids(n + 1), (n: nat) => clock(n + 1), off.value);
    }

    method DriveOpenCalls(envs: seq<Env>) returns (e: Ending<bool>)
      requires Valid() && !Reduce(exec.log).terminal && Reduce(exec.log).pending.None?
      requires Registered(exec.cfg, exec.log) && |envs| == |OpenInOrder(exec.log)|
      requires exec.cfg.outbox ==> HonestPass(exec.cfg, exec.world.ledger, OpenInOrder(exec.log), envs)
      requires forall k :: 0 <= k < |envs| ==> FirstInterrupt(exec.log, envs[k].interruptId).None?
      modifies exec, exec.world, exec.toolCalls
      ensures Valid() && |old(exec.log)| <= |exec.log|
      ensures e.Alive? ==> if e.value then Reduce(exec.log).pending.Some? else AtRest(exec.log)
    {
      ghost var d, t, n := exec.D(), exec.trace, exec.room;
      ghost var r := ResumePlan(exec.cfg, d, OpenInOrder(d.log), envs);
      RecoveryKeeps(exec.cfg, d, envs, n);
      RecoverySettles(exec.cfg, d, envs);
      CommitsOnlyAppend(d, Cut(r.commits, n));
      RecoveryGoesOn(exec.cfg, shown, d, envs, n);
      exec.CutTrace(d, t, r.commits, n);
      var report := exec.ResumeOpenCalls(envs);
      if report.Killed? {
        return Killed;
      }
      e := Alive(report.value.ending == AtGate);
    }

    /** A human's decision. The log it leaves behind is clean exactly when the run has not
        ended and a rejection or an edit finds its call unanswered. */
    method Approve(dec: Decision) returns (e: Ending<Decided>)
      requires Valid() && NotAhead()
      modifies exec
      ensures exec.Valid() && viewFaults == 0 && NotAhead() && |old(exec.log)| <= |exec.log|
      ensures old(OrderAllowed(exec.cfg, exec.D(), Decide(dec, exec.room))) ==> Valid()
      ensures e.Alive? ==> e.value == DecidePlan(old(exec.D()), dec)
      ensures e.Alive? && e.value.Accepted? ==>
                && (Report(exec.log) == [] <==>
                      old(!Reduce(exec.log).terminal && DecideSafe(exec.D(), dec)))
                && (Report(exec.log) == [] ==> Reduce(exec.log).pending.None?)
    {
      ghost var d, t, n := exec.D(), exec.trace, exec.room;
      ghost var cs := DecideCommits(d, dec);
      if OrderAllowed(exec.cfg, d, Decide(dec, n)) {
        ActKeepsOrdered(exec.cfg, d, Decide(dec, n));
        ActKeepsTurns(exec.cfg, keep, d, Decide(dec, n));
        EffectsKept(exec.cfg, d, Decide(dec, n));
      }
      DecisionGoesOn(shown, d, dec, n);
      CommitsOnlyAppend(d, Cut(cs, n));
      exec.CutTrace(d, t, cs, n);
      if DecidePlan(d, dec).Accepted? {
        DecisionsAreSafeExactlyWhenOpen(exec.cfg, d, dec);
        if !Reduce(d.log).terminal && DecideSafe(d, dec) {
          SafeDecisionKeeps(exec.cfg, d, dec);
        }
      }
      ghost var log0 := exec.log;
      e := exec.DecideOn(dec);
      NoneAheadLater(saver.checkpoints, exec.cfg.branch, log0, exec.log);
    }
  }

  /** What the loop reports when it comes back: the log's own status, no view ever
      faulty, and a run that has ended, waits for a human, or rests. */
  ghost predicate Told(r: RunOutcome, log: Log, mismatches: nat) {
    && r == RunOutcome(Reduce(log).status, Reduce(log).step, 0, mismatches)
    && (Reduce(log).terminal || Reduce(log).pending.Some? || AtRest(log))
  }
}
