/** The token estimate every threshold and price is computed from. */
module Tokens {
  const MESSAGE_OVERHEAD: nat := 4

  predicate IsCjk(c: char) {
    var code := c as int;
    || 0x3000 <= code <= 0x303F
    || 0x3040 <= code <= 0x30FF
    || 0x3400 <= code <= 0x4DBF
    || 0x4E00 <= code <= 0x9FFF
    || 0xF900 <= code <= 0xFAFF
    || 0xFF00 <= code <= 0xFFEF
  }

  function CjkCount(text: string): (n: nat)
    ensures n <= |text|
  {
    if text == [] then 0
    else CjkCount(text[..|text| - 1]) + if IsCjk(text[|text| - 1]) then 1 else 0
  }

  /** One token a CJK character, one for every four others, rounded up. */
  function EstimateTokens(text: string): nat {
    var cjk := CjkCount(text);
    cjk + (|text| - cjk + 3) / 4
  }

  lemma {:induction false} CjkCountGrows(text: string, n: nat)
    requires n <= |text|
    ensures CjkCount(text[..n]) <= CjkCount(text) <= CjkCount(text[..n]) + (|text| - n)
  {
    if n == |text| {
      assert text[..n] == text;
    } else {
      assert text[..|text| - 1][..n] == text[..n];
      CjkCountGrows(text[..|text| - 1], n);
    }
  }

  /** A longer text never costs less, and no character costs more than one token:
      between a quarter of the length and the length. */
  lemma {:induction false} EstimateGrowsWithTheText(text: string, n: nat)
    requires n <= |text|
    ensures EstimateTokens(text[..n]) <= EstimateTokens(text) <= EstimateTokens(text[..n]) + (|text| - n)
    ensures |text| <= 4 * EstimateTokens(text) && EstimateTokens(text) <= |text|
  {
    CjkCountGrows(text, n);
  }
}
