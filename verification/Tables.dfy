/** The two tables the pipeline writes besides the log: the outside ledger with
    its deduplication table, and the outbox rows. */
module Tables {
  import opened Events
  import opened Tools
  import opened Pipeline

  /** The outside world: an append-only ledger of effects. */
  class World {
    var ledger: seq<EffectRow>
    var dedup: map<Key, nat>

    constructor ()
      ensures ledger == [] && dedup == map[]
    {
      ledger, dedup := [], map[];
    }

    /** An idempotent implementation looks the key up first; any other appends. */
    method Apply(key: Key, operation: string, payload: Args, idempotent: bool)
      returns (effectId: nat, deduplicated: bool)
      modifies this
      ensures deduplicated <==> idempotent && key in old(dedup)
      ensures deduplicated ==>
                ledger == old(ledger) && dedup == old(dedup) && effectId == dedup[key]
      ensures !deduplicated ==>
                && effectId == |old(ledger)|
                && ledger == old(ledger) + [EffectRow(key, operation, payload)]
                && dedup == if idempotent then old(dedup)[key := effectId] else old(dedup)
    {
      if idempotent && key in dedup {
        return dedup[key], true;
      }
      effectId, deduplicated := |ledger|, false;
      ledger := ledger + [EffectRow(key, operation, payload)];
      if idempotent {
        dedup := dedup[key := effectId];
      }
    }

    /** Read back by key: whether the effect is there, where first, and how often. */
    method Probe(key: Key) returns (found: bool, first: nat, count: nat)
      ensures count == Count(ledger, key)
      ensures found <==> count > 0
      ensures found ==> first < |ledger| && ledger[first].key == key
      ensures found ==> forall i :: 0 <= i < first ==> ledger[i].key != key
    {
      found, first, count := false, 0, 0;
      for i := 0 to |ledger|
        invariant count == Count(ledger[..i], key)
        invariant found <==> count > 0
        invariant !found ==> forall k :: 0 <= k < i ==> ledger[k].key != key
        invariant found ==> first < i && ledger[first].key == key
        invariant found ==> forall k :: 0 <= k < first ==> ledger[k].key != key
      {
        assert ledger[..i + 1][..i] == ledger[..i];
        if ledger[i].key == key {
          if !found {
            found, first := true, i;
          }
          count := count + 1;
        }
      }
      assert ledger[..|ledger|] == ledger;
    }

    /** A read-back built on `Probe`, the way the scaling tool builds its own. */
    method AnswerByKey(key: Key) returns (answer: ProbeAnswer)
      ensures answer.Applied? <==> Count(ledger, key) >= 1
      ensures answer.NotApplied? <==> Count(ledger, key) == 0
    {
      var found, first, count := Probe(key);
      answer := if found then Applied("") else NotApplied;
    }
  }

  /** The rows of `tool_calls`, unique by idempotency key. */
  class ToolCallStore {
    var rows: map<Key, Row>

    constructor ()
      ensures rows == map[]
    {
      rows := map[];
    }

    /** Inserts unless the key is taken; says whether it did. */
    method Record(key: Key, row: Row) returns (inserted: bool)
      modifies this
      ensures inserted <==> key !in old(rows)
      ensures rows == InsertedRows(old(rows), key, row)
    {
      inserted := key !in rows;
      if inserted {
        rows := rows[key := row];
      }
    }

    /** The outbox intent. */
    method Begin(key: Key, call: CallId, tool: string, sha: Digest) returns (first: bool)
      modifies this
      ensures first <==> key !in old(rows)
      ensures rows == InsertedRows(old(rows), key, Row(call, tool, sha, RowPending, None))
    {
      first := Record(key, Row(call, tool, sha, RowPending, None));
    }

    method Complete(key: Key, result: Option<Payload>)
      modifies this
      ensures rows == CompletedRows(old(rows), key, result)
    {
      if key in rows {
        rows := rows[key := rows[key].(status := RowExecuted, result := result)];
      }
    }

    method SetUnknown(key: Key)
      modifies this
      ensures rows == UnknownRows(old(rows), key)
    {
      if key in rows {
        rows := rows[key := rows[key].(status := RowUnknown)];
      }
    }
  }
}
