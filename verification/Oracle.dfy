/** The judge that believes nothing the runtime says of itself: it reads the log, the
    outbox rows and the outside ledger, and reports what does not fit. */
module Oracle {
  import opened Events
  import opened Tools
  import opened Reducer
  import opened ReducerSpec
  import opened Pipeline
  import opened Invariants
  import opened Footprint
  import opened Exclusivity
  import opened Ordering
  import opened Deciding
  import opened Runs
  import Chain
  import Store
  import Branching

  // ------------------------------------------------------------- closed calls

  function AnsweredIds(log: Log): set<CallId> {
    if log == [] then {}
    else
      var e := log[|log| - 1];
      AnsweredIds(log[..|log| - 1]) + if e.ToolResult? then {if e.call.Some? then e.call.value else "None"} else {}
  }

  predicate IsClosedRow(r: Row) {
    r.status == RowExecuted || r.status == RowFailed
  }

  /** Calls whose row is closed while the log holds no result for them. */
  function Unclosed(log: Log, rows: map<Key, Row>): set<CallId> {
    set key | key in rows && IsClosedRow(rows[key]) && rows[key].call !in AnsweredIds(log) :: rows[key].call
  }

  method CheckClosedCalls(log: Log, rows: map<Key, Row>) returns (unclosed: set<CallId>)
    ensures unclosed == Unclosed(log, rows)
  {
    var answered: set<CallId> := {};
    for i := 0 to |log|
      invariant answered == AnsweredIds(log[..i])
    {
      assert log[..i + 1][..i] == log[..i];
      if log[i].ToolResult? {
        answered := answered + {if log[i].call.Some? then log[i].call.value else "None"};
      }
    }
    assert log[..|log|] == log;
    unclosed := {};
    var todo := rows.Keys;
    while todo != {}
      invariant todo <= rows.Keys
      invariant unclosed == set key | key in rows.Keys - todo && IsClosedRow(rows[key])
                                      && rows[key].call !in answered :: rows[key].call
      decreases |todo|
    {
      var key :| key in todo;
      if IsClosedRow(rows[key]) && rows[key].call !in answered {
        unclosed := unclosed + {rows[key].call};
      }
      todo := todo - {key};
    }
    assert rows.Keys - {} == rows.Keys;
  }

  lemma {:induction false} AnsweredIdsMean(log: Log, c: CallId)
    ensures Answered(log, c) ==> c in AnsweredIds(log)
  {
    if log != [] {
      var init, e := log[..|log| - 1], log[|log| - 1];
      assert log == init + [e];
      AnsweredIdsMean(init, c);
      CalledAppend(init, e, c);
    }
  }

  // --------------------------------------------------------- effect accounting

  function Counts(ledger: seq<EffectRow>): map<Key, nat> {
    if ledger == [] then map[]
    else
      var before, key := Counts(ledger[..|ledger| - 1]), ledger[|ledger| - 1].key;
      before[key := (if key in before then before[key] else 0) + 1]
  }

  predicate IsSilent(key: Key, n: nat, rows: map<Key, Row>) {
    n > 1 && !(key in rows && rows[key].status == RowUnknown)
  }

  /** Keys with more effects than one and no row that owns up to not knowing. */
  function Unaccounted(ledger: seq<EffectRow>, rows: map<Key, Row>): set<Key> {
    var counts := Counts(ledger);
    set key | key in counts && IsSilent(key, counts[key], rows)
  }

  method CountEffects(ledger: seq<EffectRow>) returns (counts: map<Key, nat>)
    ensures counts == Counts(ledger)
  {
    counts := map[];
    for i := 0 to |ledger|
      invariant counts == Counts(ledger[..i])
    {
      assert ledger[..i + 1][..i] == ledger[..i];
      var key := ledger[i].key;
      counts := counts[key := (if key in counts then counts[key] else 0) + 1];
    }
    assert ledger[..|ledger|] == ledger;
  }

  method CheckEffectAccounting(ledger: seq<EffectRow>, rows: map<Key, Row>) returns (found: set<Key>)
    ensures found == Unaccounted(ledger, rows)
  {
    var counts := CountEffects(ledger);
    found := {};
    var todo := counts.Keys;
    while todo != {}
      invariant todo <= counts.Keys
      invariant forall key :: key in found <==> key in counts && key !in todo && IsSilent(key, counts[key], rows)
      decreases |todo|
    {
      var key :| key in todo;
      if IsSilent(key, counts[key], rows) {
        found := found + {key};
      }
      todo := todo - {key};
    }
  }

  lemma {:induction false} CountsMean(ledger: seq<EffectRow>, key: Key)
    ensures key in Counts(ledger) ==> Counts(ledger)[key] == Count(ledger, key)
    ensures key !in Counts(ledger) ==> Count(ledger, key) == 0
  {
    if ledger != [] {
      CountsMean(ledger[..|ledger| - 1], key);
    }
  }

  /** MAIN: the accounting is silent exactly when every repeated effect is owned up to. */
  lemma {:induction false} AccountingMeans(ledger: seq<EffectRow>, rows: map<Key, Row>)
    ensures Unaccounted(ledger, rows) == {} <==>
            forall key :: Count(ledger, key) > 1 ==> key in rows && rows[key].status == RowUnknown
  {
    forall key
      ensures key in Unaccounted(ledger, rows) <==>
              Count(ledger, key) > 1 && !(key in rows && rows[key].status == RowUnknown)
    {
      CountsMean(ledger, key);
    }
  }

  // ------------------------------------------------------- rows bear their names

  /** A row is filed under the key of the call it is about. */
  ghost predicate RowsAreNamed(rows: map<Key, Row>) {
    forall key :: key in rows ==> rows[key].call == key.call
  }

  predicate InsertsAreNamed(cs: seq<Commit>) {
    forall i :: 0 <= i < |cs| && cs[i].InsertRow? ==> cs[i].row.call == cs[i].key.call
  }

  lemma {:induction false} NamedInsertsKeep(d: Durable, cs: seq<Commit>)
    requires RowsAreNamed(d.rows) && InsertsAreNamed(cs)
    ensures RowsAreNamed(ApplyAll(d, cs).rows)
    decreases |cs|
  {
    if cs != [] {
      NamedInsertsKeep(Apply(d, cs[0]), cs[1..]);
    }
  }

  lemma {:induction false} ActionInsertsNamed(cfg: Config, d: Durable, a: Action)
    ensures InsertsAreNamed(CommitsOf(cfg, d, a))
  {
    if a.Execute? {
      ACallWritesOnlyItsOwn(cfg, d, a.req, a.env);
      var cs := CommitsOf(cfg, d, a);
      forall i | 0 <= i < |cs| && cs[i].InsertRow? ensures cs[i].row.call == cs[i].key.call {
        assert IsOwn(cfg, a.req, a.env, cs[i]);
      }
    }
  }

  lemma {:induction false} RunKeepsNames(cfg: Config, d: Durable, actions: seq<Action>)
    requires RowsAreNamed(d.rows)
    ensures RowsAreNamed(Run(cfg, d, actions).rows)
    decreases |actions|
  {
    if actions != [] {
      var a := actions[0];
      ActionInsertsNamed(cfg, d, a);
      NamedInsertsKeep(d, if a.Note? then CommitsOf(cfg, d, a) else Cut(CommitsOf(cfg, d, a), a.cut));
      RunKeepsNames(cfg, Act(cfg, d, a), actions[1..]);
    }
  }

  /** MAIN: after any run, with kills anywhere, no row is closed that the log does not
      answer for; with or without outbox. */
  lemma {:induction false} ClosedCallsCheckIsSilent(cfg: Config, actions: seq<Action>)
    requires OrderedRun(cfg, EMPTY, actions)
    ensures var d := Run(cfg, EMPTY, actions); Unclosed(d.log, d.rows) == {}
  {
    var d := Run(cfg, EMPTY, actions);
    EveryRunIsWellFormed(cfg, actions);
    RunKeepsNames(cfg, EMPTY, actions);
    forall key | key in d.rows && IsClosedRow(d.rows[key])
      ensures d.rows[key].call in AnsweredIds(d.log)
    {
      AnsweredIdsMean(d.log, key.call);
    }
  }

  /** MAIN: with the outbox on, the accounting never finds a silent repetition. */
  lemma {:induction false} AccountingIsSilentWithOutbox(cfg: Config, actions: seq<Action>)
    requires cfg.outbox && OnceRun(cfg, EMPTY, actions)
    ensures var d := Run(cfg, EMPTY, actions); Unaccounted(d.ledger, d.rows) == {}
  {
    var d := Run(cfg, EMPTY, actions);
    AccountingMeans(d.ledger, d.rows);
    forall key {
      NoKeyHasTwoEffects(cfg, actions, key);
    }
  }

  // ------------------------------------------------------------------ no tamper

  /** A branch numbered from 0 without a gap. */
  predicate FromZero(own: seq<Chain.Event>) {
    forall k :: 0 <= k < |own| ==> own[k].record.number == k
  }

  function Misnumbered(db: Store.Db): set<string> {
    set k | 0 <= k < |db.events| && !FromZero(Store.Own(db.events, db.events[k].record.branch))
      :: db.events[k].record.branch
  }

  predicate NamedBefore(events: seq<Chain.Event>, k: nat)
    requires k < |events|
  {
    exists j :: 0 <= j < k && events[j].record.id == events[k].record.id
  }

  /** Event ids that occur more than once. */
  function Duplicated(events: seq<Chain.Event>): set<string> {
    set k | 0 <= k < |events| && NamedBefore(events, k) :: events[k].record.id
  }

  method CheckNoTamper(db: Store.Db) returns (misnumbered: set<string>, duplicates: set<string>)
    ensures misnumbered == Misnumbered(db)
    ensures duplicates == Duplicated(db.events)
  {
    misnumbered, duplicates := {}, {};
    var ids: set<string> := {};
    for k := 0 to |db.events|
      invariant misnumbered == set j | 0 <= j < k && !FromZero(Store.Own(db.events, db.events[j].record.branch))
                                       :: db.events[j].record.branch
      invariant ids == set j | 0 <= j < k :: db.events[j].record.id
      invariant duplicates == set j | 0 <= j < k && NamedBefore(db.events, j) :: db.events[j].record.id
    {
      var record := db.events[k].record;
      if !FromZero(Store.Own(db.events, record.branch)) {
        misnumbered := misnumbered + {record.branch};
      }
      assert record.id in ids <==> NamedBefore(db.events, k);
      if record.id in ids {
        duplicates := duplicates + {record.id};
      }
      ids := ids + {record.id};
    }
  }

  lemma {:induction false} NumberedFromZero(db: Store.Db, i: nat)
    requires Branching.Laid(db) && i < |db.branches|
    ensures FromZero(Branching.OwnOf(db, i)) <==> Branching.OwnOf(db, i) == [] || Branching.Shared(db, i) == []
  {
    assert Branching.Counted(db, i);
    var own := Branching.OwnOf(db, i);
    if own != [] {
      assert own[0].record.number == |Branching.Shared(db, i)|;
    }
  }

  /** MAIN: the check expects every branch to begin at 0, so on a store that nobody
      touched it is silent exactly when no branch that inherits has events of its own. No id
      ever occurs twice on such a store. */
  lemma {:induction false} NoTamperCheckIsForRootBranches(db: Store.Db)
    requires Branching.Laid(db)
    ensures Duplicated(db.events) == {}
    ensures Misnumbered(db) == {} <==>
            forall i :: 0 <= i < |db.branches| ==> Branching.OwnOf(db, i) == [] || Branching.Shared(db, i) == []
  {
    if Misnumbered(db) == {} {
      forall i | 0 <= i < |db.branches|
        ensures Branching.OwnOf(db, i) == [] || Branching.Shared(db, i) == []
      {
        NumberedFromZero(db, i);
        var own := Branching.OwnOf(db, i);
        Branching.OwnMeans(db.events, db.branches[i].id);
        if own != [] {
          assert own[0] in own;
          var k :| 0 <= k < |db.events| && db.events[k] == own[0];
          assert db.events[k].record.branch !in Misnumbered(db);
        }
      }
    }
    if forall i :: 0 <= i < |db.branches| ==> Branching.OwnOf(db, i) == [] || Branching.Shared(db, i) == [] {
      forall k | 0 <= k < |db.events|
        ensures FromZero(Store.Own(db.events, db.events[k].record.branch))
      {
        var i := Store.BranchAt(db.branches, db.events[k].record.branch).value;
        NumberedFromZero(db, i);
      }
    }
  }
}
