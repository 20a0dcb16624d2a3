/**
 * UTF-16 code units and the surrogate-pair arithmetic of java.lang.Character,
 * as the regular-expression lexer and the string builder use them.
 */
module CodeUnits {

  /** A UTF-16 code unit: the range of Java's `char`. */
  type CodeUnit = c: int | 0 <= c < 0x1_0000

  /** The largest Unicode code point. */
  const MaxCodePoint: int := 0x10_FFFF

  predicate IsHighSurrogate(c: int) { 0xD800 <= c <= 0xDBFF }

  predicate IsLowSurrogate(c: int) { 0xDC00 <= c <= 0xDFFF }

  /** Character.toCodePoint: the supplementary code point encoded by a surrogate pair. */
  function ToCodePoint(lead: int, trail: int): (cp: int)
    requires IsHighSurrogate(lead) && IsLowSurrogate(trail)
    ensures 0x1_0000 <= cp <= MaxCodePoint
  {
    (lead - 0xD800) * 0x400 + (trail - 0xDC00) + 0x1_0000
  }

  /** Character.highSurrogate: the leading unit of a supplementary code point. */
  function HighSurrogateOf(cp: int): (c: int)
    requires 0x1_0000 <= cp <= MaxCodePoint
    ensures IsHighSurrogate(c)
  {
    (cp - 0x1_0000) / 0x400 + 0xD800
  }

  /** Character.lowSurrogate: the trailing unit of a supplementary code point. */
  function LowSurrogateOf(cp: int): (c: int)
    requires 0x1_0000 <= cp <= MaxCodePoint
    ensures IsLowSurrogate(c)
  {
    (cp - 0x1_0000) % 0x400 + 0xDC00
  }

  /** Joining a surrogate pair loses nothing: the pair can be read back from the code point. */
  lemma SurrogatePairRoundTrip(lead: int, trail: int)
    requires IsHighSurrogate(lead) && IsLowSurrogate(trail)
    ensures HighSurrogateOf(ToCodePoint(lead, trail)) == lead
    ensures LowSurrogateOf(ToCodePoint(lead, trail)) == trail
  {
    var hi, lo := lead - 0xD800, trail - 0xDC00;
    assert ToCodePoint(lead, trail) - 0x1_0000 == hi * 0x400 + lo;
    DivModUnique(hi * 0x400 + lo, hi, lo);
  }

  /** Every supplementary code point is the join of its own surrogate pair. */
  lemma CodePointRoundTrip(cp: int)
    requires 0x1_0000 <= cp <= MaxCodePoint
    ensures ToCodePoint(HighSurrogateOf(cp), LowSurrogateOf(cp)) == cp
  {
  }

  lemma DivModUnique(n: int, q: int, r: int)
    requires 0 <= r < 0x400 && n == q * 0x400 + r
    ensures n / 0x400 == q && n % 0x400 == r
  {
  }

  /** The decimal rendering of n (Integer.toString of a non-negative value), most significant digit first. */
  function Decimal(n: nat): (s: seq<CodeUnit>)
    ensures |s| >= 1
  {
    if n < 10 then [n + '0' as int] else Decimal(n / 10) + [n % 10 + '0' as int]
  }
}
