/**
 * What the lexer's number scanners compute, stated against an independent
 * reading of digit strings: parseDecimal reads the whole maximal digit run,
 * parseOctal at most three octal digits with a value of at most 255, and
 * parseHex is characterised completely by the capped hexadecimal run.
 */
module NumberProperties {
  import opened CodeUnits
  import opened RegexTypes
  import opened RegexChars
  import opened LexerSpec

  /** The value of a numeral in base 8 or 10, most significant digit first. */
  function NumeralValue(s: seq<int>, base: nat): int {
    if s == [] then 0 else NumeralValue(s[..|s| - 1], base) * base + (s[|s| - 1] - '0' as int)
  }

  lemma {:induction false} NumeralValueNonNegative(p: seq<CodeUnit>, a: nat, b: nat, base: nat)
    requires a <= b <= |p|
    requires forall k | a <= k < b :: IsDecimal(p[k])
    ensures NumeralValue(p[a..b], base) >= 0
    decreases b - a
  {
    if a < b {
      assert p[a..b][..b - 1 - a] == p[a..b - 1];
      NumeralValueNonNegative(p, a, b - 1, base);
    }
  }

  /** The value of a hexadecimal numeral, most significant digit first. */
  function HexValue(s: seq<int>): (v: int)
    requires forall k | 0 <= k < |s| :: IsHex(s[k])
    ensures 0 <= v
  {
    if s == [] then 0 else HexValue(s[..|s| - 1]) * 16 + HexDigitValue(s[|s| - 1])
  }

  /** The end of the maximal run of decimal digits starting at `i`. */
  function DigitRunEnd(p: seq<CodeUnit>, i: nat): (e: nat)
    requires i <= |p|
    ensures i <= e <= |p|
    decreases |p| - i
  {
    if i < |p| && IsDecimal(p[i]) then DigitRunEnd(p, i + 1) else i
  }

  /** The end of the run of at most `n` hexadecimal digits starting at `i`. */
  function HexRunEnd(p: seq<CodeUnit>, i: nat, n: int): (e: nat)
    requires i <= |p|
    ensures i <= e <= |p|
    decreases |p| - i
  {
    if n <= 0 || i >= |p| || !IsHex(p[i]) then i else HexRunEnd(p, i + 1, n - 1)
  }

  lemma {:induction false} DigitRunEndFacts(p: seq<CodeUnit>, i: nat)
    requires i <= |p|
    ensures forall k | i <= k < DigitRunEnd(p, i) :: IsDecimal(p[k])
    ensures DigitRunEnd(p, i) == |p| || !IsDecimal(p[DigitRunEnd(p, i)])
    decreases |p| - i
  {
    if i < |p| && IsDecimal(p[i]) {
      DigitRunEndFacts(p, i + 1);
    }
  }

  lemma {:induction false} HexRunEndFacts(p: seq<CodeUnit>, i: nat, n: int)
    requires i <= |p|
    ensures forall k | i <= k < HexRunEnd(p, i, n) :: IsHex(p[k])
    ensures HexRunEnd(p, i, n) - i <= if n < 0 then 0 else n
    ensures HexRunEnd(p, i, n) - i >= n || HexRunEnd(p, i, n) == |p| || !IsHex(p[HexRunEnd(p, i, n)])
    decreases |p| - i
  {
    if !(n <= 0 || i >= |p| || !IsHex(p[i])) {
      HexRunEndFacts(p, i + 1, n - 1);
    }
  }

  /** A digit run that stops at `j` is the maximal run. */
  lemma {:induction false} DigitRunEndAt(p: seq<CodeUnit>, i: nat, j: nat)
    requires i <= j <= |p|
    requires forall k | i <= k < j :: IsDecimal(p[k])
    requires j == |p| || !IsDecimal(p[j])
    ensures DigitRunEnd(p, i) == j
    decreases j - i
  {
    if i < j {
      DigitRunEndAt(p, i + 1, j);
    }
  }

  /* ------------------------------------------------------------- decimal */

  /**
   * parseDecimal(firstDigit) continues a numeral: when the value so far is
   * that of the digits p[j..i], it returns the value of the whole maximal run.
   */
  lemma {:induction false} DecimalFromValue(p: seq<CodeUnit>, j: nat, i: nat, acc: int)
    requires j <= i <= |p|
    requires forall k | j <= k < i :: IsDecimal(p[k])
    requires acc == NumeralValue(p[j..i], 10)
    ensures DigitRunEnd(p, i) == DecimalFrom(p, i, acc).1
    ensures forall k | j <= k < DigitRunEnd(p, i) :: IsDecimal(p[k])
    ensures DecimalFrom(p, i, acc).0 == NumeralValue(p[j..DigitRunEnd(p, i)], 10)
    decreases |p| - i
  {
    if i < |p| && IsDecimal(p[i]) {
      assert p[j..i + 1][..i - j] == p[j..i];
      DecimalFromValue(p, j, i + 1, acc * 10 + (p[i] - '0' as int));
    }
  }

  /** parseDecimal(): -1 without a digit, otherwise the value of the maximal digit run. */
  lemma ParseDecimalValue(p: seq<CodeUnit>, i: nat)
    requires i <= |p|
    ensures forall k | i <= k < DigitRunEnd(p, i) :: IsDecimal(p[k])
    ensures ParseDecimalSpec(p, i) ==
      if DigitRunEnd(p, i) == i then (-1, i)
      else (NumeralValue(p[i..DigitRunEnd(p, i)], 10), DigitRunEnd(p, i))
  {
    DigitRunEndFacts(p, i);
    if i < |p| && IsDecimal(p[i]) {
      DecimalFromValue(p, i, i, 0);
    }
  }

  /* --------------------------------------------------------------- octal */

  /**
   * parseOctal from its n-th iteration, the digits p[j..i] (the first digit
   * included) having been read: the result is the value of p[j..k], at most
   * three digits, at most 255, and no further digit could have been taken.
   */
  lemma {:induction false} OctalFromValue(p: seq<CodeUnit>, j: nat, i: nat, acc: int, n: nat)
    requires j < i <= |p| && n <= 2 && i - j == n + 1
    requires forall k | j <= k < i :: IsOctal(p[k])
    requires acc == NumeralValue(p[j..i], 8) && 0 <= acc <= 255
    ensures var (v, k) := OctalFrom(p, i, acc, n);
      && i <= k && k - j <= 3
      && (forall m | j <= m < k :: IsOctal(p[m]))
      && v == NumeralValue(p[j..k], 8) && 0 <= v <= 255
      && (k - j == 3 || k == |p| || !IsOctal(p[k]) || v * 8 > 255)
    decreases 2 - n
  {
    if i < |p| && IsOctal(p[i]) && n < 2 && acc * 8 <= 255 {
      assert p[j..i + 1][..i - j] == p[j..i];
      OctalFromValue(p, j, i + 1, acc * 8 + (p[i] - '0' as int), n + 1);
    }
  }

  /**
   * A legacy octal escape whose first digit p[i-1] has been consumed: its
   * value is that of the octal numeral p[i-1..k], never above 255.
   */
  lemma OctalEscapeValue(p: seq<CodeUnit>, i: nat)
    requires 1 <= i <= |p| && IsOctal(p[i - 1])
    ensures var (v, k) := ParseOctalSpec(p, i, p[i - 1] - '0' as int);
      && i <= k <= i + 2
      && (forall m | i - 1 <= m < k :: IsOctal(p[m]))
      && v == NumeralValue(p[i - 1..k], 8) && 0 <= v <= 255
      && (k == i + 2 || k == |p| || !IsOctal(p[k]) || v * 8 > 255)
  {
    assert p[i - 1..i][..0] == [];
    OctalFromValue(p, i - 1, i, p[i - 1] - '0' as int, 0);
  }

  /* ----------------------------------------------------------------- hex */

  /** Appending hexadecimal digits never lowers the value. */
  lemma {:induction false} HexValuePrefix(p: seq<CodeUnit>, a: nat, b: nat, c: nat)
    requires a <= b <= c <= |p|
    requires forall k | a <= k < c :: IsHex(p[k])
    ensures HexValue(p[a..b]) <= HexValue(p[a..c])
    decreases c - b
  {
    if b < c {
      assert p[a..c][..c - 1 - a] == p[a..c - 1];
      HexValuePrefix(p, a, b, c - 1);
    }
  }

  /** A hexadecimal run that stops at `j` (a non-digit, the end, or the cap of n digits) ends there. */
  lemma {:induction false} HexRunEndAt(p: seq<CodeUnit>, i: nat, j: nat, n: int)
    requires i <= j <= |p| && j - i <= n
    requires forall k | i <= k < j :: IsHex(p[k])
    requires j == |p| || !IsHex(p[j]) || j - i == n
    ensures HexRunEnd(p, i, n) == j
    decreases j - i
  {
    if i < j {
      HexRunEndAt(p, i + 1, j, n - 1);
    }
  }

  /** Powers of sixteen. */
  function Pow16(k: nat): (r: nat)
    ensures r >= 1
  {
    if k == 0 then 1 else 16 * Pow16(k - 1)
  }

  /** A numeral of k hexadecimal digits is below 16^k. */
  lemma {:induction false} HexValueBelow(s: seq<int>)
    requires forall k | 0 <= k < |s| :: IsHex(s[k])
    ensures HexValue(s) < Pow16(|s|)
    decreases |s|
  {
    if s != [] {
      var s' := s[..|s| - 1];
      HexValueBelow(s');
      assert HexValue(s') * 16 <= (Pow16(|s'|) - 1) * 16;
    }
  }

  /**
   * The outcome parseHex has at `init`, read off the run of at most
   * maxDigits hexadecimal digits there.
   */
  function HexOutcome(ctx: Ctx, init: nat, minDigits: int, maxDigits: int, maxValue: int, msg: ErrorMessage): Scan<int>
    requires init <= |ctx.pattern|
  {
    var e := HexRunEnd(ctx.pattern, init, maxDigits);
    HexRunEndFacts(ctx.pattern, init, maxDigits);
    var v := HexValue(ctx.pattern[init..e]);
    if v > maxValue then Failed(msg)
    else if e - init < minDigits then (if ctx.flags.unicode then Failed(msg) else Scanned(-1, init))
    else Scanned(v, e)
  }

  /**
   * The state of parseHex's loop after n digits from init: the digits read so
   * far are hexadecimal, acc is their value and within maxValue, and the run
   * still to come ends where the whole run does.
   */
  predicate HexScanned(p: seq<CodeUnit>, init: nat, i: nat, acc: int, n: nat, maxDigits: int, maxValue: int) {
    && init <= i <= |p| && i - init == n <= maxDigits
    && (forall k | init <= k < i :: IsHex(p[k]))
    && acc == HexValue(p[init..i]) && acc <= maxValue
    && HexRunEnd(p, init, maxDigits) == HexRunEnd(p, i, maxDigits - n)
  }

  lemma {:induction false} HexFromOutcome(ctx: Ctx, init: nat, i: nat, acc: int, n: nat,
                                          minDigits: int, maxDigits: int, maxValue: int, msg: ErrorMessage)
    requires minDigits <= maxDigits && HexScanned(ctx.pattern, init, i, acc, n, maxDigits, maxValue)
    ensures i <= |ctx.pattern|
    ensures HexFrom(ctx, i, acc, n, minDigits, maxDigits, maxValue, msg, init)
         == HexOutcome(ctx, init, minDigits, maxDigits, maxValue, msg)
    decreases |ctx.pattern| - i
  {
    var p := ctx.pattern;
    if n >= maxDigits || i >= |p| || !IsHex(p[i]) {
      assert HexRunEnd(p, init, maxDigits) == i;
    } else if acc * 16 + HexDigitValue(p[i]) > maxValue {
      HexFromOverflowStep(ctx, init, i, acc, n, minDigits, maxDigits, maxValue, msg);
    } else {
      HexFromStep(ctx, init, i, acc, n, minDigits, maxDigits, maxValue, msg);
    }
  }

  /** One digit of parseHex that overflows: the whole run does too. */
  lemma HexFromOverflowStep(ctx: Ctx, init: nat, i: nat, acc: int, n: nat,
                            minDigits: int, maxDigits: int, maxValue: int, msg: ErrorMessage)
    requires HexScanned(ctx.pattern, init, i, acc, n, maxDigits, maxValue)
    requires i < |ctx.pattern| && n < maxDigits && IsHex(ctx.pattern[i])
    requires acc * 16 + HexDigitValue(ctx.pattern[i]) > maxValue
    ensures HexFrom(ctx, i, acc, n, minDigits, maxDigits, maxValue, msg, init) == Failed(msg)
    ensures HexOutcome(ctx, init, minDigits, maxDigits, maxValue, msg) == Failed(msg)
  {
    HexValueStep(ctx.pattern, init, i);
    HexOverflow(ctx, init, i, n, minDigits, maxDigits, maxValue, msg);
  }

  /** One digit of parseHex that does not overflow: the scan continues after it. */
  lemma {:induction false} HexFromStep(ctx: Ctx, init: nat, i: nat, acc: int, n: nat,
                                       minDigits: int, maxDigits: int, maxValue: int, msg: ErrorMessage)
    requires minDigits <= maxDigits && HexScanned(ctx.pattern, init, i, acc, n, maxDigits, maxValue)
    requires i < |ctx.pattern| && n < maxDigits && IsHex(ctx.pattern[i])
    requires acc * 16 + HexDigitValue(ctx.pattern[i]) <= maxValue
    ensures HexFrom(ctx, i, acc, n, minDigits, maxDigits, maxValue, msg, init)
         == HexOutcome(ctx, init, minDigits, maxDigits, maxValue, msg)
    decreases |ctx.pattern| - i, 0
  {
    var v := acc * 16 + HexDigitValue(ctx.pattern[i]);
    HexScanNext(ctx.pattern, init, i, acc, n, maxDigits, maxValue);
    HexFromOutcome(ctx, init, i + 1, v, n + 1, minDigits, maxDigits, maxValue, msg);
  }

  /** A digit that does not overflow extends the loop state by one. */
  lemma HexScanNext(p: seq<CodeUnit>, init: nat, i: nat, acc: int, n: nat, maxDigits: int, maxValue: int)
    requires HexScanned(p, init, i, acc, n, maxDigits, maxValue)
    requires i < |p| && n < maxDigits && IsHex(p[i]) && acc * 16 + HexDigitValue(p[i]) <= maxValue
    ensures HexScanned(p, init, i + 1, acc * 16 + HexDigitValue(p[i]), n + 1, maxDigits, maxValue)
  {
    HexValueStep(p, init, i);
    HexRunEndStep(p, i, maxDigits - n);
  }

  lemma HexRunEndStep(p: seq<CodeUnit>, i: nat, n: int)
    requires i < |p| && IsHex(p[i]) && n > 0
    ensures HexRunEnd(p, i, n) == HexRunEnd(p, i + 1, n - 1)
  {
  }

  lemma HexValueStep(p: seq<CodeUnit>, a: nat, i: nat)
    requires a <= i < |p| && forall k | a <= k <= i :: IsHex(p[k])
    ensures HexValue(p[a..i + 1]) == HexValue(p[a..i]) * 16 + HexDigitValue(p[i])
  {
    assert p[a..i + 1][..i - a] == p[a..i];
  }

  /** A prefix of the run that exceeds maxValue makes the whole run exceed it. */
  lemma HexOverflow(ctx: Ctx, init: nat, i: nat, n: nat, minDigits: int, maxDigits: int, maxValue: int, msg: ErrorMessage)
    requires init <= i < |ctx.pattern| && i - init == n < maxDigits
    requires forall k | init <= k <= i :: IsHex(ctx.pattern[k])
    requires HexRunEnd(ctx.pattern, init, maxDigits) == HexRunEnd(ctx.pattern, i, maxDigits - n)
    requires HexValue(ctx.pattern[init..i + 1]) > maxValue
    ensures HexOutcome(ctx, init, minDigits, maxDigits, maxValue, msg) == Failed(msg)
  {
    var p := ctx.pattern;
    var e := HexRunEnd(p, init, maxDigits);
    HexRunEndFacts(p, init, maxDigits);
    assert i < e;
    HexValuePrefix(p, init, i + 1, e);
  }

  /**
   * parseHex, characterised: with e the end of the hexadecimal run capped at
   * maxDigits, it fails with the given message when the run's value exceeds
   * maxValue, and when the run is shorter than minDigits in Unicode mode; a
   * short run in legacy mode gives -1 with the cursor back at its entry
   * value; otherwise it returns the run's value and moves past the run.
   */
  lemma ParseHexOutcome(ctx: Ctx, i: nat, minDigits: int, maxDigits: int, maxValue: int, msg: ErrorMessage)
    requires i <= |ctx.pattern| && minDigits <= maxDigits && 0 <= maxValue
    ensures ParseHexSpec(ctx, i, minDigits, maxDigits, maxValue, msg)
         == HexOutcome(ctx, i, minDigits, maxDigits, maxValue, msg)
  {
    if maxDigits < 0 {
      assert HexRunEnd(ctx.pattern, i, maxDigits) == i;
    } else {
      assert HexScanned(ctx.pattern, i, i, 0, 0, maxDigits, maxValue);
      HexFromOutcome(ctx, i, i, 0, 0, minDigits, maxDigits, maxValue, msg);
    }
  }

  /** The bounds promised by parseHex: value at most maxValue, at most maxDigits digits, -1 only in legacy mode. */
  lemma ParseHexBounds(ctx: Ctx, i: nat, minDigits: int, maxDigits: int, maxValue: int, msg: ErrorMessage)
    requires i <= |ctx.pattern| && 0 <= minDigits <= maxDigits && 0 <= maxValue
    ensures var r := ParseHexSpec(ctx, i, minDigits, maxDigits, maxValue, msg);
      && (r.Failed? ==> r.error == msg)
      && (r.Scanned? && r.value == -1 ==> !ctx.flags.unicode && r.next == i)
      && (r.Scanned? && r.value != -1 ==> 0 <= r.value <= maxValue && minDigits <= r.next - i <= maxDigits)
  {
    ParseHexOutcome(ctx, i, minDigits, maxDigits, maxValue, msg);
    HexRunEndFacts(ctx.pattern, i, maxDigits);
  }
}
