/** Large results are kept by content and read back in pages that fit the prompt. */
module Artifacts {
  import opened Events
  import opened Tokens

  /** The hash of a content, taken to be collision free. */
  datatype ContentHash = Hashed(content: string)

  class ArtifactStore {
    var files: map<ContentHash, string>

    ghost predicate Valid()
      reads this
    {
      forall h :: h in files ==> h == Hashed(files[h])
    }

    constructor ()
      ensures Valid() && files == map[]
    {
      files := map[];
    }

    /** Writing what is there already changes nothing. */
    method Put(content: string) returns (digest: ContentHash)
      requires Valid()
      modifies this
      ensures Valid() && digest == Hashed(content)
      ensures files == old(files)[digest := content]
      ensures digest in old(files) ==> files == old(files)
    {
      digest := Hashed(content);
      if digest !in files {
        files := files[digest := content];
      }
    }

    method Get(digest: ContentHash) returns (content: Option<string>)
      requires Valid()
      ensures content == if digest in files then Some(digest.content) else None
    {
      content := if digest in files then Some(files[digest]) else None;
    }
  }

  // ------------------------------------------------------------------- slices

  /** An index as the source's language clips it: negative ones count from the end. */
  function Clip(i: int, n: nat): nat {
    if i < 0 then (if n + i < 0 then 0 else n + i) else if i > n then n else i
  }

  function Slice(text: string, lo: int, hi: int): string {
    var a, b := Clip(lo, |text|), Clip(hi, |text|);
    if a < b then text[a..b] else ""
  }

  datatype SliceView = SliceView(offset: int, returned: nat, total: nat, truncated: bool, content: string)

  function ReadSlice(content: string, offset: int, limit: int): SliceView {
    var chunk := Slice(content, offset, offset + limit);
    SliceView(offset, |chunk|, |content|, offset + limit < |content|, chunk)
  }

  // --------------------------------------------------------------------- trim

  /** Four fifths of the inline budget, at least one token. */
  function Budget(inlineBudget: nat): (b: nat)
    ensures b >= 1
  {
    if inlineBudget * 8 / 10 > 1 then inlineBudget * 8 / 10 else 1
  }

  /** Shrinks a text in proportion, at most `rounds` times. */
  function Trimmed(text: string, budget: nat, rounds: nat): (r: string)
    requires budget >= 1
    ensures r <= text && (text != "" ==> r != "")
    decreases rounds
  {
    if rounds == 0 || text == "" || EstimateTokens(text) <= budget then text
    else
      var n := Share(|text|, budget, EstimateTokens(text));
      var r := Trimmed(text[..n], budget, rounds - 1);
      PrefixOfPrefix(text, n, r);
      r
  }

  lemma {:induction false} PrefixOfPrefix(text: string, n: nat, r: string)
    requires n <= |text| && r <= text[..n]
    ensures r <= text
  {}

  /** The part of a text that would fit if its tokens were spread evenly. */
  function Share(length: nat, budget: nat, tokens: nat): (n: nat)
    requires length > 0 && budget < tokens
    ensures 1 <= n <= length
  {
    ShareIsShorter(length, budget, tokens);
    var n := length * budget / tokens;
    if n > 1 then n else 1
  }

  lemma {:induction false} ShareIsShorter(length: nat, budget: nat, tokens: nat)
    requires budget < tokens
    ensures length * budget / tokens <= length
  {
    assert length * budget <= length * tokens;
    QuotientBound(length * budget, length, tokens);
  }

  lemma {:induction false} QuotientBound(x: nat, q: nat, d: nat)
    requires d > 0 && x <= q * d
    ensures x / d <= q
  {
    var e := x / d;
    assert e * d <= x;
    Grows(q, e, d);
  }

  lemma {:induction false} Grows(q: nat, e: nat, d: nat)
    requires d > 0
    ensures e > q ==> e * d > q * d
  {
    if e > q {
      assert e * d == q * d + (e - q) * d;
    }
  }

  method TrimToBudget(text: string, budget: nat) returns (r: string)
    requires budget >= 1
    ensures r == Trimmed(text, budget, 8)
  {
    r := text;
    for k := 0 to 8
      invariant Trimmed(text, budget, 8) == Trimmed(r, budget, 8 - k)
    {
      var tokens := EstimateTokens(r);
      if tokens <= budget || r == "" {
        return;
      }
      r := r[..Share(|r|, budget, tokens)];
    }
  }

  // ------------------------------------------------------------------- paging

  datatype Page = Page(content: string, total: nat, truncated: bool, next: Option<int>)

  /** The read-back tool: a slice, trimmed, and where to go on. */
  function ReadPage(content: string, offset: int, limit: int, maxLimit: int, inlineBudget: nat): Page {
    var sliced := ReadSlice(content, offset, if limit < maxLimit then limit else maxLimit);
    PageOf(Trimmed(sliced.content, Budget(inlineBudget), 8), offset, sliced.total)
  }

  function PageOf(text: string, offset: int, total: nat): Page {
    var next := offset + |text|;
    Page(text, total, next < total, if next < total then Some(next) else None)
  }

  method ReadArtifact(store: ArtifactStore, digest: ContentHash, offset: int, limit: int, maxLimit: int, inlineBudget: nat)
    returns (page: Option<Page>)
    requires store.Valid()
    ensures page == if digest in store.files
                    then Some(ReadPage(digest.content, offset, limit, maxLimit, inlineBudget)) else None
  {
    var content := store.Get(digest);
    if content.None? {
      return None;
    }
    var sliced := ReadSlice(content.value, offset, if limit < maxLimit then limit else maxLimit);
    var text := TrimToBudget(sliced.content, Budget(inlineBudget));
    page := Some(PageOf(text, offset, sliced.total));
  }

  lemma {:induction false} PrefixOfSlice(content: string, offset: nat, n: int, text: string)
    requires offset <= |content| && text <= Slice(content, offset, offset + n)
    ensures offset + |text| <= |content| && text == content[offset..offset + |text|]
  {}

  /** Inside the content a positive limit yields a slice, and so does one so far below
      zero that the end of the slice is counted from the end of the content. */
  lemma {:induction false} SliceHolds(content: string, offset: nat, n: int)
    requires offset < |content|
    ensures var slice := Slice(content, offset, offset + n);
            && (slice != "" <==> n > 0 || (offset + n < 0 && |content| + n > 0))
            && (n <= 0 && slice != "" ==> slice == content[offset..|content| + offset + n])
  {}

  /** MAIN: inside the content a page moves on exactly when something was asked for, or
      when the limit is so far below zero that it passes the content's start and is
      counted from its end; any other limit is answered with the same offset for ever. */
  lemma {:induction false} PageAdvancesExactlyWhenSliceHolds(content: string, offset: nat, limit: int, maxLimit: int, inlineBudget: nat)
    requires offset < |content| && maxLimit > 0
    ensures var page := ReadPage(content, offset, limit, maxLimit, inlineBudget);
            && (page.next != Some(offset) <==> limit > 0 || (offset + limit < 0 && |content| + limit > 0))
            && (page.next != Some(offset) ==>
                  && page.content != ""
                  && offset + |page.content| <= |content|
                  && page.content == content[offset..offset + |page.content|])
  {
    var n := if limit < maxLimit then limit else maxLimit;
    var page := ReadPage(content, offset, limit, maxLimit, inlineBudget);
    SliceHolds(content, offset, n);
    if Slice(content, offset, offset + n) != "" {
      PrefixOfSlice(content, offset, n, page.content);
    }
  }

  /** MAIN: what such a limit returns: everything up to as far from the end as the slice
      would have ended before the start, or what of it fits the prompt. Asking for less
      than nothing can return almost everything. */
  lemma {:induction false} NegativeLimitCountsFromTheEnd(content: string, offset: nat, limit: int, maxLimit: int, inlineBudget: nat)
    requires offset < |content| && maxLimit > 0
    requires offset + limit < 0 && |content| + limit > 0
    ensures ReadSlice(content, offset, limit).content == content[offset..|content| + offset + limit]
    ensures var page := ReadPage(content, offset, limit, maxLimit, inlineBudget);
            page.content != "" && page.content <= content[offset..|content| + offset + limit]
            && page.next == Some(offset + |page.content|)
  {
    SliceHolds(content, offset, limit);
  }

  /** One more page of a content read so far up to `have`. */
  lemma {:induction false} NextPage(content: string, have: string, limit: int, maxLimit: int, inlineBudget: nat)
    requires have <= content && |have| < |content| && maxLimit > 0 && limit > 0
    ensures var page := ReadPage(content, |have|, limit, maxLimit, inlineBudget);
            && page.content != "" && have + page.content <= content
            && page.next == if |have + page.content| < |content| then Some(|have + page.content|) else None
  {
    PageAdvancesExactlyWhenSliceHolds(content, |have|, limit, maxLimit, inlineBudget);
  }

  /** MAIN: following `next` from the start, whatever is asked for each time, rebuilds
      the content and takes at most one read a character. */
  method ReadAll(content: string, limits: nat -> int, maxLimit: int, inlineBudget: nat)
    returns (text: string, rounds: nat)
    requires maxLimit > 0 && forall k: nat :: limits(k) > 0
    ensures text == content
    ensures rounds <= if content == "" then 1 else |content|
  {
    var page := ReadPage(content, 0, limits(0), maxLimit, inlineBudget);
    text, rounds := page.content, 1;
    if content != "" {
      NextPage(content, "", limits(0), maxLimit, inlineBudget);
      assert "" + page.content == page.content;
    }
    while page.next.Some?
      invariant text <= content
      invariant rounds <= if content == "" then 1 else |text|
      invariant page.next == if |text| < |content| then Some(|text|) else None
      decreases |content| - |text|
    {
      NextPage(content, text, limits(rounds), maxLimit, inlineBudget);
      page := ReadPage(content, page.next.value, limits(rounds), maxLimit, inlineBudget);
      text := text + page.content;
      rounds := rounds + 1;
    }
  }
}
