/** Checkpoints and the writes that go before them: what a task put out is written
    down first, and counts only once its super-step is committed. */
module Checkpoints {
  import opened Events
  import Reducer

  const IDX_ERROR: int := -1
  const IDX_SCHEDULED: int := -2
  const IDX_INTERRUPT: int := -3
  const IDX_RESUME: int := -4

  /** The whole snapshot of a super-step. */
  datatype Checkpoint = Checkpoint(
    thread: string,
    ns: string,
    id: string,
    parent: Option<string>,
    branch: string,
    step: nat,
    status: Reducer.RunStatus,
    lastEvent: Option<nat>,
    createdAt: real)

  datatype Write = Write(task: string, idx: int, channel: string, payload: string)

  /** A row of `checkpoint_writes`; checkpoint, task and index are its key. */
  datatype WriteRow = WriteRow(thread: string, ns: string, checkpoint: string, write: Write)

  datatype TaskOutcome = TaskError | TaskInterrupted | TaskScheduled | TaskCompleted

  datatype RecoveryPlan = RecoveryPlan(
    checkpoint: Option<Checkpoint>,
    outcomes: map<string, TaskOutcome>,
    replay: seq<Write>)

  // ------------------------------------------------------------------ classes

  function Kind(w: Write): TaskOutcome {
    if w.idx == IDX_ERROR then TaskError
    else if w.idx == IDX_INTERRUPT then TaskInterrupted
    else if w.idx == IDX_SCHEDULED then TaskScheduled
    else TaskCompleted
  }

  function Severity(o: TaskOutcome): nat {
    match o
    case TaskError => 0
    case TaskInterrupted => 1
    case TaskScheduled => 2
    case TaskCompleted => 3
  }

  function Classified(writes: seq<Write>): map<string, TaskOutcome> {
    if writes == [] then map[]
    else
      var before, w := Classified(writes[..|writes| - 1]), writes[|writes| - 1];
      if w.task !in before || Severity(Kind(w)) < Severity(before[w.task]) then before[w.task := Kind(w)]
      else before
  }

  method ClassifyWrites(writes: seq<Write>) returns (outcomes: map<string, TaskOutcome>)
    ensures outcomes == Classified(writes)
  {
    outcomes := map[];
    for k := 0 to |writes|
      invariant outcomes == Classified(writes[..k])
    {
      assert writes[..k + 1][..k] == writes[..k];
      var w := writes[k];
      var candidate := Kind(w);
      if w.task !in outcomes || Severity(candidate) < Severity(outcomes[w.task]) {
        outcomes := outcomes[w.task := candidate];
      }
    }
    assert writes[..|writes|] == writes;
  }

  ghost predicate HasKind(writes: seq<Write>, task: string, o: TaskOutcome) {
    exists k :: 0 <= k < |writes| && writes[k].task == task && Kind(writes[k]) == o
  }

  lemma {:induction false} HasKindLast(writes: seq<Write>, task: string, o: TaskOutcome)
    requires writes != []
    ensures var w := writes[|writes| - 1];
            HasKind(writes, task, o) <==>
            HasKind(writes[..|writes| - 1], task, o) || (w.task == task && Kind(w) == o)
  {
    var init := writes[..|writes| - 1];
    if HasKind(init, task, o) {
      var k :| 0 <= k < |init| && init[k].task == task && Kind(init[k]) == o;
      assert writes[k] == init[k];
    }
    if HasKind(writes, task, o) {
      var k :| 0 <= k < |writes| && writes[k].task == task && Kind(writes[k]) == o;
      assert k < |init| ==> init[k] == writes[k];
    }
  }

  /** MAIN: a task counts as the gravest thing it wrote, whatever the order of its
      writes; it counts as completed exactly when it wrote no control record. */
  lemma {:induction false} TaskIsItsGravestWrite(writes: seq<Write>, task: string)
    ensures task in Classified(writes) <==> exists o :: HasKind(writes, task, o)
    ensures task in Classified(writes) ==>
              HasKind(writes, task, Classified(writes)[task])
              && forall o :: HasKind(writes, task, o) ==> Severity(Classified(writes)[task]) <= Severity(o)
  {
    if writes != [] {
      var init, w := writes[..|writes| - 1], writes[|writes| - 1];
      TaskIsItsGravestWrite(init, task);
      forall o
        ensures HasKind(writes, task, o) <==> HasKind(init, task, o) || (w.task == task && Kind(w) == o)
      {
        HasKindLast(writes, task, o);
      }
      if w.task == task {
        assert HasKind(writes, task, Kind(w));
      } else if task in Classified(init) {
        assert HasKind(writes, task, Classified(init)[task]);
      }
    }
  }

  // ------------------------------------------------------------------- tables

  predicate Here(c: Checkpoint, thread: string, ns: string) {
    c.thread == thread && c.ns == ns
  }

  /** The newest checkpoint of a thread; of equally new ones the one stored last. */
  function Latest(rows: seq<Checkpoint>, thread: string, ns: string): (r: Option<Checkpoint>)
    ensures r.Some? ==> Here(r.value, thread, ns) && r.value in rows
  {
    if rows == [] then None
    else
      var before, c := Latest(rows[..|rows| - 1], thread, ns), rows[|rows| - 1];
      if Here(c, thread, ns) && (before.Some? ==> c.createdAt >= before.value.createdAt) then Some(c) else before
  }

  function Named(rows: seq<Checkpoint>, thread: string, ns: string, id: string): (r: Option<Checkpoint>)
    ensures r.Some? ==> Here(r.value, thread, ns) && r.value.id == id && r.value in rows
  {
    if rows == [] then None
    else
      var before, c := Named(rows[..|rows| - 1], thread, ns, id), rows[|rows| - 1];
      if before.Some? then before else if Here(c, thread, ns) && c.id == id then Some(c) else None
  }

  predicate SameKey(a: WriteRow, b: WriteRow) {
    && a.thread == b.thread && a.ns == b.ns && a.checkpoint == b.checkpoint
    && a.write.task == b.write.task && a.write.idx == b.write.idx
  }

  /** Insert, or overwrite the row that is there. */
  function Upserted(rows: seq<WriteRow>, row: WriteRow): seq<WriteRow> {
    if rows == [] then [row]
    else
      var n := |rows| - 1;
      if SameKey(rows[n], row) then rows[n := row] else Upserted(rows[..n], row) + [rows[n]]
  }

  function UpsertedAll(rows: seq<WriteRow>, thread: string, ns: string, id: string, writes: seq<Write>): seq<WriteRow> {
    if writes == [] then rows
    else
      var n := |writes| - 1;
      Upserted(UpsertedAll(rows, thread, ns, id, writes[..n]), WriteRow(thread, ns, id, writes[n]))
  }

  /** The writes filed under a checkpoint. */
  function Pending(rows: seq<WriteRow>, thread: string, ns: string, id: string): seq<Write> {
    if rows == [] then []
    else
      var n := |rows| - 1;
      Pending(rows[..n], thread, ns, id)
      + if rows[n].thread == thread && rows[n].ns == ns && rows[n].checkpoint == id then [rows[n].write] else []
  }

  function ReplayOf(writes: seq<Write>, outcomes: map<string, TaskOutcome>): seq<Write> {
    if writes == [] then []
    else
      var n := |writes| - 1;
      ReplayOf(writes[..n], outcomes)
      + if writes[n].task in outcomes && outcomes[writes[n].task] == TaskCompleted then [writes[n]] else []
  }

  function PlanFor(checkpoints: seq<Checkpoint>, writes: seq<WriteRow>, thread: string, ns: string, id: Option<string>):
    RecoveryPlan
  {
    var found := if id.None? then Latest(checkpoints, thread, ns) else Named(checkpoints, thread, ns, id.value);
    if found.None? then RecoveryPlan(None, map[], [])
    else
      var pending := Pending(writes, thread, ns, found.value.id);
      RecoveryPlan(found, Classified(pending), ReplayOf(pending, Classified(pending)))
  }

  class SqliteCheckpointSaver {
    var checkpoints: seq<Checkpoint>
    var writes: seq<WriteRow>

    constructor ()
      ensures checkpoints == [] && writes == []
    {
      checkpoints, writes := [], [];
    }

    method Put(c: Checkpoint)
      modifies this`checkpoints
      ensures checkpoints == old(checkpoints) + [c]
    {
      checkpoints := checkpoints + [c];
    }

    method PutWrites(thread: string, ns: string, id: string, items: seq<Write>)
      modifies this`writes
      ensures writes == UpsertedAll(old(writes), thread, ns, id, items)
    {
      for k := 0 to |items|
        invariant writes == UpsertedAll(old(writes), thread, ns, id, items[..k])
      {
        assert items[..k + 1][..k] == items[..k];
        writes := Upserted(writes, WriteRow(thread, ns, id, items[k]));
      }
      assert items[..|items|] == items;
    }

    method GetLatest(thread: string, ns: string) returns (r: Option<Checkpoint>)
      ensures r == Latest(checkpoints, thread, ns)
    {
      r := None;
      for k := 0 to |checkpoints|
        invariant r == Latest(checkpoints[..k], thread, ns)
      {
        assert checkpoints[..k + 1][..k] == checkpoints[..k];
        var c := checkpoints[k];
        if Here(c, thread, ns) && (r.Some? ==> c.createdAt >= r.value.createdAt) {
          r := Some(c);
        }
      }
      assert checkpoints[..|checkpoints|] == checkpoints;
    }

    method PlanRecovery(thread: string, ns: string, id: Option<string>) returns (plan: RecoveryPlan)
      ensures plan == PlanFor(checkpoints, writes, thread, ns, id)
    {
      var found := Named(checkpoints, thread, ns, if id.Some? then id.value else "");
      if id.None? {
        found := GetLatest(thread, ns);
      }
      if found.None? {
        return RecoveryPlan(None, map[], []);
      }
      var pending := Pending(writes, thread, ns, found.value.id);
      var outcomes := ClassifyWrites(pending);
      var replay: seq<Write> := [];
      for k := 0 to |pending|
        invariant replay == ReplayOf(pending[..k], outcomes)
      {
        assert pending[..k + 1][..k] == pending[..k];
        if pending[k].task in outcomes && outcomes[pending[k].task] == TaskCompleted {
          replay := replay + [pending[k]];
        }
      }
      assert pending[..|pending|] == pending;
      plan := RecoveryPlan(found, outcomes, replay);
    }
  }

  // ----------------------------------------------------------- the protocol

  lemma {:induction false} UpsertElsewhere(rows: seq<WriteRow>, row: WriteRow, thread: string, ns: string, id: string)
    requires !(row.thread == thread && row.ns == ns && row.checkpoint == id)
    ensures Pending(Upserted(rows, row), thread, ns, id) == Pending(rows, thread, ns, id)
  {
    if rows == [] {
      assert [row][..0] == [];
    } else {
      var n := |rows| - 1;
      if SameKey(rows[n], row) {
        assert rows[n := row][..n] == rows[..n];
      } else {
        UpsertElsewhere(rows[..n], row, thread, ns, id);
        assert (Upserted(rows[..n], row) + [rows[n]])[..|Upserted(rows[..n], row)|] == Upserted(rows[..n], row);
      }
    }
  }

  lemma {:induction false} WritesElsewhere(rows: seq<WriteRow>, thread: string, ns: string, id: string, items: seq<Write>,
                                           thread': string, ns': string, id': string)
    requires !(thread == thread' && ns == ns' && id == id')
    ensures Pending(UpsertedAll(rows, thread, ns, id, items), thread', ns', id') == Pending(rows, thread', ns', id')
  {
    if items != [] {
      var n := |items| - 1;
      WritesElsewhere(rows, thread, ns, id, items[..n], thread', ns', id');
      UpsertElsewhere(UpsertedAll(rows, thread, ns, id, items[..n]), WriteRow(thread, ns, id, items[n]),
                      thread', ns', id');
    }
  }

  predicate Committed(checkpoints: seq<Checkpoint>, thread: string, ns: string, id: string) {
    exists k :: 0 <= k < |checkpoints| && Here(checkpoints[k], thread, ns) && checkpoints[k].id == id
  }

  /** MAIN: writes whose super-step was never committed change no recovery plan, of
      this thread or any other, for the latest checkpoint or a named one. */
  lemma {:induction false} UncommittedWritesAreInvisible(
    checkpoints: seq<Checkpoint>, writes: seq<WriteRow>, thread: string, ns: string, id: string, items: seq<Write>,
    thread': string, ns': string, id': Option<string>)
    requires !Committed(checkpoints, thread, ns, id)
    ensures PlanFor(checkpoints, UpsertedAll(writes, thread, ns, id, items), thread', ns', id') ==
            PlanFor(checkpoints, writes, thread', ns', id')
  {
    var found := if id'.None? then Latest(checkpoints, thread', ns') else Named(checkpoints, thread', ns', id'.value);
    if found.Some? {
      var k :| 0 <= k < |checkpoints| && checkpoints[k] == found.value;
      assert Here(checkpoints[k], thread', ns');
      WritesElsewhere(writes, thread, ns, id, items, thread', ns', found.value.id);
    }
  }

  lemma {:induction false} LatestIsNewest(rows: seq<Checkpoint>, thread: string, ns: string)
    ensures Latest(rows, thread, ns).None? <==> forall k :: 0 <= k < |rows| ==> !Here(rows[k], thread, ns)
    ensures Latest(rows, thread, ns).Some? ==>
              forall k :: 0 <= k < |rows| && Here(rows[k], thread, ns) ==>
                rows[k].createdAt <= Latest(rows, thread, ns).value.createdAt
  {
    if rows != [] {
      var n := |rows| - 1;
      LatestIsNewest(rows[..n], thread, ns);
      assert forall k :: 0 <= k < n ==> rows[..n][k] == rows[k];
    }
  }

  /** A commit becomes the one recovery starts from exactly when no clock was ahead of it. */
  lemma {:induction false} CommitIsLatestUnlessTheClockWentBack(rows: seq<Checkpoint>, c: Checkpoint)
    ensures Latest(rows + [c], c.thread, c.ns) == Some(c) <==>
            forall k :: 0 <= k < |rows| && Here(rows[k], c.thread, c.ns) ==> rows[k].createdAt <= c.createdAt
  {
    assert (rows + [c])[..|rows|] == rows;
    LatestIsNewest(rows, c.thread, c.ns);
    var before := Latest(rows, c.thread, c.ns);
    if before.Some? {
      var k :| 0 <= k < |rows| && rows[k] == before.value;
    }
  }

  lemma {:induction false} UpsertAgain(rows: seq<WriteRow>, row: WriteRow)
    ensures Upserted(Upserted(rows, row), row) == Upserted(rows, row)
  {
    if rows == [] {
      assert [row][0 := row] == [row];
    } else {
      var n := |rows| - 1;
      if SameKey(rows[n], row) {
        assert rows[n := row][n := row] == rows[n := row];
      } else {
        UpsertAgain(rows[..n], row);
        var r := Upserted(rows[..n], row) + [rows[n]];
        assert r[..|r| - 1] == Upserted(rows[..n], row);
      }
    }
  }
}
