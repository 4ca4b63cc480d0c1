// Token estimates for the GitHub picker
// (src/components/chat/input/github/token-counter.ts): about four characters
// per token, a 32000-token budget, and the count as shown to the user.

module TokenCounter {
  import opened Strings

  /** `TOKEN_LIMIT` */
  const TokenLimit: nat := 32000

  /** `estimateTokens`: no tokens for empty text, otherwise the length divided by four, rounded up. */
  function EstimateTokens(text: string): (t: nat)
    ensures text == [] <==> t == 0
    ensures text != [] ==> 4 * (t - 1) < |text| <= 4 * t
  {
    if text == [] then 0 else (|text| + 3) / 4
  }

  /** A longer text never has a smaller estimate. */
  lemma EstimateMonotone(a: string, b: string)
    requires |a| <= |b|
    ensures EstimateTokens(a) <= EstimateTokens(b)
  {
    if a != [] {
      assert (|a| + 3) / 4 <= (|b| + 3) / 4;
    }
  }

  /** `wouldExceedLimit`: adding goes strictly past the limit. */
  function WouldExceedLimit(currentTokens: int, additionalTokens: int, limit: int := TokenLimit): (r: bool)
  {
    currentTokens + additionalTokens > limit
  }

  /** A larger addition exceeds the limit whenever a smaller one does, and one that does not exceed it fits. */
  lemma ExceedMonotone(currentTokens: int, a: int, b: int, limit: int)
    requires a <= b
    ensures WouldExceedLimit(currentTokens, a, limit) ==> WouldExceedLimit(currentTokens, b, limit)
    ensures !WouldExceedLimit(currentTokens, b, limit) ==> currentTokens + a <= limit
  {
  }

  /** How a count is shown: as itself below 1000, otherwise scaled with a one-decimal `K` or `M`. */
  datatype TokenLabel = Plain(text: string) | Scaled(suffix: char)

  /** `String(n)` for an integer. */
  function IntToString(n: int): (r: string)
  {
    if n < 0 then "-" + NatToString(-n) else NatToString(n)
  }

  /** `formatTokenCount` */
  function FormatTokenCount(tokens: int): (r: TokenLabel)
    ensures r.Plain? <==> tokens < 1000
    ensures r.Scaled? ==> (r.suffix == 'K' <==> tokens < 1000000)
  {
    if tokens < 1000 then Plain(IntToString(tokens))
    else if tokens < 1000000 then Scaled('K')
    else Scaled('M')
  }

  /** Below 1000 a non-negative count is shown as its decimal digits, which read back as the count. */
  lemma SmallCountIsPlainDecimal(tokens: nat)
    requires tokens < 1000
    ensures FormatTokenCount(tokens).Plain?
    ensures var s := FormatTokenCount(tokens).text;
            1 <= |s| <= 3 && (forall i :: 0 <= i < |s| ==> IsDigit(s[i])) && DigitsValue(s) == tokens
  {
    NatToStringValue(tokens);
    var s := NatToString(tokens);
    if tokens >= 10 {
      assert s == NatToString(tokens / 10) + [DigitChar(tokens % 10)];
      if tokens / 10 >= 10 {
        assert NatToString(tokens / 10) == NatToString(tokens / 100) + [DigitChar(tokens / 10 % 10)];
      }
    }
  }
}
