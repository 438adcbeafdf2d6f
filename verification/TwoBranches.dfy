/** Where the outbox ends: rows are unique by call id as well as by key, and a branch
    shares the call ids of the one it was forked from, but not its keys. */
module TwoBranches {
  import opened Events
  import opened Tools
  import opened Reducer
  import opened Pipeline
  import opened Footprint

  /** An insertion that finds its key free and its call id taken, which the table refuses
      with an error. */
  predicate Clashes(rows: map<Key, Row>, key: Key, row: Row) {
    key !in rows && exists k :: k in rows && rows[k].call == row.call
  }

  /** Every row is filed under this branch and names its call. */
  ghost predicate OfOneBranch(cfg: Config, rows: map<Key, Row>) {
    forall key :: key in rows ==> key == cfg.KeyOf(rows[key].call)
  }

  predicate InsertsOwn(cfg: Config, cs: seq<Commit>) {
    forall i :: 0 <= i < |cs| && cs[i].InsertRow? ==> cs[i].key == cfg.KeyOf(cs[i].row.call)
  }

  lemma {:induction false} OwnInserts(cfg: Config, d: Durable, a: Action)
    ensures InsertsOwn(cfg, CommitsOf(cfg, d, a))
  {
    if a.Execute? {
      ACallWritesOnlyItsOwn(cfg, d, a.req, a.env);
      var cs := CommitsOf(cfg, d, a);
      forall i | 0 <= i < |cs| && cs[i].InsertRow? ensures cs[i].key == cfg.KeyOf(cs[i].row.call) {
        assert IsOwn(cfg, a.req, a.env, cs[i]);
      }
    }
  }

  /** No insertion of a list clashes with the rows it finds. */
  ghost predicate NeverClashes(d: Durable, cs: seq<Commit>)
    decreases |cs|
  {
    cs != [] ==>
      && (cs[0].InsertRow? ==> !Clashes(d.rows, cs[0].key, cs[0].row))
      && NeverClashes(Apply(d, cs[0]), cs[1..])
  }

  lemma {:induction false} OwnInsertsNeverClash(cfg: Config, d: Durable, cs: seq<Commit>)
    requires OfOneBranch(cfg, d.rows) && InsertsOwn(cfg, cs)
    ensures NeverClashes(d, cs) && OfOneBranch(cfg, ApplyAll(d, cs).rows)
    decreases |cs|
  {
    if cs != [] {
      var d' := Apply(d, cs[0]);
      forall key | key in d'.rows ensures key == cfg.KeyOf(d'.rows[key].call) {
        assert key in d.rows ==> key == cfg.KeyOf(d.rows[key].call);
      }
      OwnInsertsNeverClash(cfg, d', cs[1..]);
    }
  }

  lemma {:induction false} RunStaysOnItsBranch(cfg: Config, d: Durable, actions: seq<Action>)
    requires OfOneBranch(cfg, d.rows)
    ensures OfOneBranch(cfg, Run(cfg, d, actions).rows)
    decreases |actions|
  {
    if actions != [] {
      var a := actions[0];
      var cs := CommitsOf(cfg, d, a);
      var made := if a.Note? then cs else Cut(cs, a.cut);
      OwnInserts(cfg, d, a);
      OwnInsertsNeverClash(cfg, d, made);
      RunStaysOnItsBranch(cfg, Act(cfg, d, a), actions[1..]);
    }
  }

  /** MAIN: on one branch the uniqueness of call ids is never felt: after any run, no
      action inserts a row that clashes. */
  lemma {:induction false} OneBranchNeverClashes(cfg: Config, actions: seq<Action>, next: Action)
    ensures var d := Run(cfg, EMPTY, actions); NeverClashes(d, CommitsOf(cfg, d, next))
  {
    var d := Run(cfg, EMPTY, actions);
    RunStaysOnItsBranch(cfg, EMPTY, actions);
    OwnInserts(cfg, d, next);
    OwnInsertsNeverClash(cfg, d, CommitsOf(cfg, d, next));
  }

  /** MAIN: on a branch forked from it, the row of a call clashes exactly when the call has
      a row on the branch it was forked from. The other branch's row is not found by key,
      so nothing stands in the way until the insertion, which fails. */
  lemma {:induction false} AForkedCallClashesExactlyWhenItHasARow(cfg: Config, actions: seq<Action>, branch: string,
                                                                  c: CallId, row: Row)
    requires branch != cfg.branch && row.call == c
    ensures var rows := Run(cfg, EMPTY, actions).rows;
            var forked := cfg.(branch := branch);
            && forked.KeyOf(c) !in rows
            && (Clashes(rows, forked.KeyOf(c), row) <==> cfg.KeyOf(c) in rows)
  {
    var rows := Run(cfg, EMPTY, actions).rows;
    RunStaysOnItsBranch(cfg, EMPTY, actions);
    if cfg.KeyOf(c) in rows {
      assert rows[cfg.KeyOf(c)].call == c;
    }
  }
}
