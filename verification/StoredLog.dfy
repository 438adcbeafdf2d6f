/** The log that calls are run against is what the store holds for their branch: to append
    an event to the one is to store it in the other. */
module StoredLog {
  import opened Events
  import opened Pipeline
  import Chain
  import Store
  import Branching

  /** What the events of a log carry, in order. */
  function Bodies(log: seq<Chain.Event>): (r: Log)
    ensures |r| == |log| && forall i :: 0 <= i < |r| ==> r[i] == log[i].record.body
  {
    seq(|log|, i requires 0 <= i < |log| => log[i].record.body)
  }

  /** The effective log of the branch in row `m` is the log of this durable state. */
  ghost predicate Holds(db: Store.Db, m: nat, d: Durable)
    requires Branching.Laid(db) && m < |db.branches|
  {
    Bodies(Branching.Effective(db, m)) == d.log
  }

  /** MAIN: an event that the store takes for a branch is appended to the log of that
      branch and of no other, at the position that becomes its sequence number. */
  lemma {:induction false} StoringIsAppending(db: Store.Db, incoming: Store.NewEvent, now: real, m: nat, d: Durable)
    requires Branching.Sound(db) && Store.Stored(db, incoming, now).Ok?
    requires Store.BranchAt(db.branches, incoming.branch) == Some(m) && Holds(db, m, d)
    ensures var e := Store.Stored(db, incoming, now).value;
            var db' := db.(events := db.events + [e]);
            && Branching.Sound(db')
            && Holds(db', m, Apply(d, Append(incoming.body)))
            && e.record.number == |d.log|
            && forall i :: 0 <= i < |db.branches| && i != m ==> Branching.Effective(db', i) == Branching.Effective(db, i)
  {
    var e := Store.Stored(db, incoming, now).value;
    var db' := db.(events := db.events + [e]);
    Branching.AppendingAnEventKeepsSound(db, incoming, now);
    var before := Branching.Effective(db, m);
    assert Branching.Effective(db', m) == before + [e];
    assert Bodies(before + [e]) == Bodies(before) + [incoming.body];
    Branching.SeqIsPosition(db', m);
    assert (before + [e])[|before|] == e;
  }
}
