/** The prefix cache: what a request shares with the one before it, block by block
    from the front, is read; the rest is written or paid in full. */
module Cache {
  import opened Events
  import opened Tokens
  import opened View
  import opened Compaction
  import opened Continuation

  datatype CacheConfig = CacheConfig(minCacheable: nat, ttl: real, enabled: bool)

  datatype Entry = Entry(blocks: seq<string>, createdAt: real)

  datatype Miss = Hit | Disabled | Cold | Expired | TooShort | PrefixChanged

  datatype Fetched = Fetched(read: nat, write: nat, uncached: nat, common: nat, miss: Miss)

  function Cost(blocks: seq<string>): nat {
    if blocks == [] then 0 else Cost(blocks[..|blocks| - 1]) + EstimateTokens(blocks[|blocks| - 1])
  }

  /** How many blocks two requests share from the front. */
  function Common(a: seq<string>, b: seq<string>): (n: nat)
    ensures n <= |a| && n <= |b| && a[..n] == b[..n]
    ensures n < |a| && n < |b| ==> a[n] != b[n]
  {
    if a == [] || b == [] || a[0] != b[0] then 0
    else
      var n := 1 + Common(a[1..], b[1..]);
      assert a[..n] == [a[0]] + a[1..][..n - 1] && b[..n] == [b[0]] + b[1..][..n - 1];
      n
  }

  lemma {:induction false} CostConcat(a: seq<string>, b: seq<string>)
    ensures Cost(a + b) == Cost(a) + Cost(b)
  {
    if b == [] {
      assert a + b == a;
    } else {
      assert (a + b)[..|a + b| - 1] == a + b[..|b| - 1];
      CostConcat(a, b[..|b| - 1]);
    }
  }

  lemma {:induction false} PrefixCostsLess(blocks: seq<string>, n: nat)
    requires n <= |blocks|
    ensures Cost(blocks[..n]) <= Cost(blocks)
  {
    assert blocks == blocks[..n] + blocks[n..];
    CostConcat(blocks[..n], blocks[n..]);
  }

  function Fresh(entry: Option<Entry>, cfg: CacheConfig, now: real): Option<Entry> {
    if entry.Some? && now - entry.value.createdAt > cfg.ttl then None else entry
  }

  /** What `shared` blocks of cost `front` out of `total` come to. */
  function Priced(total: nat, shared: nat, front: nat, cfg: CacheConfig, why: Miss): Fetched
    requires front <= total
  {
    var cacheable := front >= cfg.minCacheable || shared == 0;
    var common := if cacheable then shared else 0;
    var read := if cacheable then front else 0;
    var tail := total - read;
    var write := if cacheable && tail >= cfg.minCacheable then tail else 0;
    Fetched(read, write, tail - write, common, if common > 0 then Hit else if shared > 0 then TooShort else why)
  }

  function FetchOf(entry: Option<Entry>, cfg: CacheConfig, blocks: seq<string>, now: real): Fetched {
    if !cfg.enabled then Fetched(0, 0, Cost(blocks), 0, Disabled)
    else
      var live := Fresh(entry, cfg, now);
      var shared := if live.Some? then Common(live.value.blocks, blocks) else 0;
      PrefixCostsLess(blocks, shared);
      Priced(Cost(blocks), shared, Cost(blocks[..shared]), cfg,
              if entry.None? then Cold else if live.None? then Expired else PrefixChanged)
  }

  method CountCommon(earlier: seq<string>, blocks: seq<string>) returns (common: nat)
    ensures common == Common(earlier, blocks)
  {
    common := 0;
    while common < |earlier| && common < |blocks| && earlier[common] == blocks[common]
      invariant common <= |earlier| && common <= |blocks| && earlier[..common] == blocks[..common]
    {
      common := common + 1;
    }
    CommonIsLongest(earlier, blocks, common);
  }

  /** Caches by model, and the counters. */
  class PrefixCacheModel {
    const cfg: CacheConfig
    var entries: map<string, Entry>
    var requests: nat
    var hits: nat
    var misses: nat
    var expired: nat

    constructor (cfg: CacheConfig)
      ensures this.cfg == cfg && entries == map[] && requests == hits == misses == expired == 0
    {
      this.cfg, entries, requests, hits, misses, expired := cfg, map[], 0, 0, 0, 0;
    }

    function Of(key: string): Option<Entry>
      reads this
    {
      if key in entries then Some(entries[key]) else None
    }

    method Fetch(key: string, blocks: seq<string>, now: real) returns (out: Fetched)
      modifies this
      ensures out == FetchOf(old(Of(key)), cfg, blocks, now)
      ensures entries == if cfg.enabled then old(entries)[key := Entry(blocks, now)] else old(entries)
      ensures requests == old(requests) + 1
      ensures cfg.enabled ==> hits + misses == old(hits) + old(misses) + 1
      ensures hits == old(hits) + if out.common > 0 then 1 else 0
    {
      requests := requests + 1;
      if !cfg.enabled {
        return Fetched(0, 0, Cost(blocks), 0, Disabled);
      }
      var entry := Of(key);
      var why := if entry.Some? then PrefixChanged else Cold;
      if entry.Some? && now - entry.value.createdAt > cfg.ttl {
        entry, why := None, Expired;
        expired := expired + 1;
      }
      var common := 0;
      if entry.Some? {
        common := CountCommon(entry.value.blocks, blocks);
      }
      PrefixCostsLess(blocks, common);
      out := Charge(Cost(blocks), common, Cost(blocks[..common]), why);
      entries := entries[key := Entry(blocks, now)];
    }

    /** Reads what is worth keeping, writes what is worth writing, and counts. */
    method Charge(total: nat, shared: nat, front: nat, why: Miss) returns (out: Fetched)
      requires front <= total && (shared == 0 ==> front == 0)
      modifies this`hits, this`misses
      ensures out == Priced(total, shared, front, cfg, why)
      ensures hits + misses == old(hits) + old(misses) + 1
      ensures hits == old(hits) + if out.common > 0 then 1 else 0
    {
      var common, read, miss := shared, front, why;
      var cacheable := read >= cfg.minCacheable || common == 0;
      if common > 0 && !cacheable {
        miss := TooShort;
        common, read := 0, 0;
      }
      var tail := total - read;
      var write := if cacheable && tail >= cfg.minCacheable then tail else 0;
      if common > 0 {
        hits, miss := hits + 1, Hit;
      } else {
        misses := misses + 1;
      }
      out := Fetched(read, write, tail - write, common, miss);
    }
  }

  lemma {:induction false} CommonIsLongest(a: seq<string>, b: seq<string>, n: nat)
    requires n <= |a| && n <= |b| && a[..n] == b[..n]
    requires n < |a| && n < |b| ==> a[n] != b[n]
    ensures Common(a, b) == n
  {
    var m := Common(a, b);
    forall i | 0 <= i < n ensures a[i] == b[i] {
      assert a[..n][i] == b[..n][i];
    }
    forall i | 0 <= i < m ensures a[i] == b[i] {
      assert a[..m][i] == b[..m][i];
    }
  }

  /** MAIN: whatever happens, the tokens of a request are counted once: read, written
      or paid in full. */
  lemma {:induction false} TokensAreCountedOnce(entry: Option<Entry>, cfg: CacheConfig, blocks: seq<string>, now: real)
    ensures var f := FetchOf(entry, cfg, blocks, now); f.read + f.write + f.uncached == Cost(blocks)
    ensures FetchOf(entry, cfg, blocks, now).read > 0 ==>
              cfg.enabled && FetchOf(entry, cfg, blocks, now).read >= cfg.minCacheable
  {
    assert blocks[..0] == [];
  }

  /** A request that repeats the front of the one before it reads at least that front,
      once the front is long enough to be kept. */
  lemma {:induction false} RepeatedFrontIsRead(cfg: CacheConfig, front: seq<string>, x: seq<string>, y: seq<string>,
                                               at: real, now: real)
    requires cfg.enabled && now - at <= cfg.ttl
    requires front != [] && Cost(front) >= cfg.minCacheable
    ensures var f := FetchOf(Some(Entry(front + x, at)), cfg, front + y, now);
            f.miss == Hit && f.read >= Cost(front) && f.common >= |front|
  {
    var a, b := front + x, front + y;
    var n := Common(a, b);
    forall i | 0 <= i < |front| ensures a[i] == b[i] {}
    assert b[..n][..|front|] == front;
    PrefixCostsLess(b[..n], |front|);
  }

  // ----------------------------------------------------------- the loop's views

  /** A request: the fixed prefix, the history, and what changes every step at the end. */
  function Texts(text: Block -> string, prefix: string, log: Log, tail: seq<string>): seq<string> {
    [prefix] + Shown(text, Rendered(Kept(log)).blocks) + tail
  }

  function Shown(text: Block -> string, blocks: seq<Block>): (r: seq<string>)
    ensures |r| == |blocks| && forall k :: 0 <= k < |blocks| ==> r[k] == text(blocks[k])
  {
    seq(|blocks|, k requires 0 <= k < |blocks| => text(blocks[k]))
  }

  lemma {:induction false} ShownConcat(text: Block -> string, a: seq<Block>, b: seq<Block>)
    ensures Shown(text, a + b) == Shown(text, a) + Shown(text, b)
  {}

  predicate NoCompactionIn(log: Log) {
    forall i :: 0 <= i < |log| ==> !log[i].Compaction?
  }

  lemma {:induction false} NothingGone(log: Log)
    requires NoCompactionIn(log)
    ensures Gone(log) == {}
  {
    if log != [] {
      NothingGone(log[..|log| - 1]);
    }
  }

  lemma {:induction false} WithoutNothing(items: seq<Item>)
    ensures Without(items, {}) == items
  {
    if items != [] {
      WithoutNothing(items[..|items| - 1]);
    }
  }

  lemma {:induction false} HistoryOnlyGrows(log: Log, more: Log)
    requires NoCompactionIn(log + more) && GoesOnWithATurn(more)
    ensures Rendered(Kept(log)).blocks <= Rendered(Kept(log + more)).blocks
  {
    assert forall i :: 0 <= i < |log| ==> (log + more)[i] == log[i];
    NothingGone(log);
    NothingGone(log + more);
    WithoutNothing(TreeItems(log));
    WithoutNothing(TreeItems(log + more));
    TreeItemsGrow(log, more);
    GainedOpensATurn(log, more);
    var a, b := TreeItems(log), Gained(log, more);
    assert TreeItems(log + more) == a + b;
    if b != [] {
      RenderingIsIncremental(a, b);
    } else {
      assert a + b == a;
    }
  }

  /** With what changes every step kept at the end, and no compaction in between, a request
      reads from the cache the prefix and all history of one before it that a turn has
      followed, once that is long enough to be kept and if it comes in time. */
  lemma {:induction false} EarlierHistoryIsRead(cfg: CacheConfig, text: Block -> string, prefix: string,
                                                log: Log, more: Log, tail: seq<string>, tail': seq<string>,
                                                at: real, now: real)
    requires NoCompactionIn(log + more) && GoesOnWithATurn(more)
    requires cfg.enabled && now - at <= cfg.ttl
    requires Cost(Texts(text, prefix, log, [])) >= cfg.minCacheable
    ensures var f := FetchOf(Some(Entry(Texts(text, prefix, log, tail), at)), cfg,
                             Texts(text, prefix, log + more, tail'), now);
            f.miss == Hit && f.read >= Cost(Texts(text, prefix, log, []))
  {
    HistoryOnlyGrows(log, more);
    var earlier, later := Rendered(Kept(log)).blocks, Rendered(Kept(log + more)).blocks;
    var front := Texts(text, prefix, log, []);
    TextsSplit(text, prefix, earlier, earlier, tail);
    TextsSplit(text, prefix, earlier, later, tail');
    assert front == [prefix] + Shown(text, earlier);
    RepeatedFrontIsRead(cfg, front, Shown(text, []) + tail, Shown(text, later[|earlier|..]) + tail', at, now);
  }

  lemma {:induction false} TextsSplit(text: Block -> string, prefix: string, earlier: seq<Block>, later: seq<Block>,
                                      tail: seq<string>)
    requires earlier <= later
    ensures [prefix] + Shown(text, later) + tail ==
            ([prefix] + Shown(text, earlier)) + (Shown(text, later[|earlier|..]) + tail)
  {
    assert later == earlier + later[|earlier|..];
    ShownConcat(text, earlier, later[|earlier|..]);
  }

  /** MAIN: so it is of any two requests of the loop. `AgentLoop.Loop` keeps `ViewsGoOn` of
      the logs behind its views, over every step, kill and resumption. */
  lemma {:induction false} LoopReadsItsEarlierHistory(cfg: CacheConfig, text: Block -> string, prefix: string,
                                                      shown: seq<Log>, log: Log, j: nat, k: nat,
                                                      tail: seq<string>, tail': seq<string>, at: real, now: real)
    requires ViewsGoOn(shown, log) && j < k < |shown| && NoCompactionIn(shown[k])
    requires cfg.enabled && now - at <= cfg.ttl
    requires Cost(Texts(text, prefix, shown[j], [])) >= cfg.minCacheable
    ensures var f := FetchOf(Some(Entry(Texts(text, prefix, shown[j], tail), at)), cfg,
                             Texts(text, prefix, shown[k], tail'), now);
            f.miss == Hit && f.read >= Cost(Texts(text, prefix, shown[j], []))
  {
    assert AllWentOn(shown[..k], shown[k]);
    assert shown[..k][j] == shown[j] && WentOn(shown[j], shown[k]);
    var more := shown[k][|shown[j]|..];
    assert shown[j] + more == shown[k];
    EarlierHistoryIsRead(cfg, text, prefix, shown[j], more, tail, tail', at, now);
  }

  /** Put at the head instead, one changed character is enough to read nothing. */
  lemma {:induction false} ChangingHeadReadsNothing(cfg: CacheConfig, head: string, head': string, rest: seq<string>,
                                                    rest': seq<string>, at: real, now: real)
    requires cfg.enabled && head != head'
    ensures FetchOf(Some(Entry([head] + rest, at)), cfg, [head'] + rest', now).read == 0
  {
    CommonIsLongest([head] + rest, [head'] + rest', 0);
    assert ([head'] + rest')[..0] == [];
  }
}
