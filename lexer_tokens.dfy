/**
 * Tokens other than quantifiers and classes: the group-begin kinds and the
 * capture-group counter, the back-reference rule and the reinterpretation
 * of a rejected digit escape, control-letter escapes, the code points an
 * escape can denote, and the joining of surrogate pairs.
 */
module TokenProperties {
  import opened CodeUnits
  import opened Wrappers
  import opened RegexTypes
  import opened RegexChars
  import opened LexerSpec
  import opened NumberProperties

  /* ---------------------------------------------------------------- groups */

  /**
   * parseGroupBegin: `?=`, `?!`, `?<=` and `?:` select the assertion and
   * non-capturing kinds and are consumed; anything else is a capture group
   * and nothing is consumed.
   */
  lemma GroupBeginKinds(p: seq<CodeUnit>, i: nat)
    requires i <= |p|
    ensures var (t, k) := GroupBeginSpec(p, i);
      var q := i < |p| && p[i] == '?' as int;
      && (t == LookAheadAssertionBegin <==> q && i + 1 < |p| && p[i + 1] == '=' as int)
      && (t == NegativeLookAheadAssertionBegin <==> q && i + 1 < |p| && p[i + 1] == '!' as int)
      && (t == LookBehindAssertionBegin <==>
            q && i + 2 < |p| && p[i + 1] == '<' as int && p[i + 2] == '=' as int)
      && (t == NonCaptureGroupBegin <==> q && i + 1 < |p| && p[i + 1] == ':' as int)
      && (t == CaptureGroupBegin || t == LookAheadAssertionBegin || t == NegativeLookAheadAssertionBegin ||
          t == LookBehindAssertionBegin || t == NonCaptureGroupBegin)
      && k == i + (if t == CaptureGroupBegin then 0 else if t == LookBehindAssertionBegin then 3 else 2)
  {
    LookaheadTwo(p, i, '?' as int, '=' as int);
    LookaheadTwo(p, i, '?' as int, '!' as int);
    LookaheadTwo(p, i, '?' as int, ':' as int);
    if i + 2 < |p| {
      assert p[i..i + 3] == [p[i], p[i + 1], p[i + 2]];
    }
  }

  /** next() on `(`: a group-begin token; the counter grows by one exactly for a capture group. */
  lemma NextGroupBegin(ctx: Ctx, i: nat, nGroups: int, last: Option<Token>)
    requires i < |ctx.pattern| && ctx.pattern[i] == '(' as int
    ensures var r := NextSpec(ctx, i, nGroups, last);
      && r.Scanned?
      && (r.value == CaptureGroupBegin || r.value == LookAheadAssertionBegin ||
          r.value == NegativeLookAheadAssertionBegin || r.value == LookBehindAssertionBegin ||
          r.value == NonCaptureGroupBegin)
      && GroupsAfter(nGroups, r.value) == (if r.value == CaptureGroupBegin then nGroups + 1 else nGroups)
      && (r.value == CaptureGroupBegin <==> r.next == i + 1)
  {
    GroupBeginKinds(ctx.pattern, i + 1);
  }

  /* -------------------------------------------------------- back-references */

  /**
   * parseEscape on `\` followed by 1-9 (`i` is the cursor after the
   * backslash): with v the value of the whole digit run and e its end, a
   * back-reference to v ending at e when v < nGroups or a `(` occurs at or
   * after e; otherwise the escape is reinterpreted from the first digit.
   */
  lemma BackReferenceRule(ctx: Ctx, i: nat, nGroups: int)
    requires 1 <= i < |ctx.pattern| && IsBackReferenceDigit(ctx.pattern[i])
    ensures var p := ctx.pattern;
      var e := DigitRunEnd(p, i);
      var v := NumeralValue(p[i..e], 10);
      && i < e
      && EscapeSpec(ctx, i, nGroups) ==
           if v < nGroups || '(' as int in p[e..] then Scanned(BackReference(v), e)
           else EscapeAtomSpec(ctx, p[i], i + 1)
  {
    var p := ctx.pattern;
    assert p[i..i + 1][..0] == [];
    DecimalFromValue(p, i, i + 1, p[i] - '0' as int);
    assert DigitRunEnd(p, i) == DigitRunEnd(p, i + 1);
  }

  /**
   * A digit escape that is not a back-reference: an error in Unicode mode;
   * in legacy mode 1-7 start an octal escape (at most three digits, value at
   * most 255) and 8 and 9 stand for themselves.
   */
  lemma RejectedBackReference(ctx: Ctx, i: nat)
    requires 1 <= i < |ctx.pattern| && IsBackReferenceDigit(ctx.pattern[i])
    ensures var p := ctx.pattern;
      var r := EscapeAtomSpec(ctx, p[i], i + 1);
      && (ctx.flags.unicode ==> r == Failed(InvalidEscape))
      && (!ctx.flags.unicode && IsOctal(p[i]) ==>
            r.Scanned? && i + 1 <= r.next <= i + 3 &&
            (forall m | i <= m < r.next :: IsOctal(p[m])) &&
            exists v | 0 <= v <= 255 :: v == NumeralValue(p[i..r.next], 8) && r.value == ClassToken(ctx, {v}))
      && (!ctx.flags.unicode && !IsOctal(p[i]) ==> r == Scanned(ClassToken(ctx, {p[i]}), i + 1))
  {
    var p := ctx.pattern;
    if !ctx.flags.unicode && IsOctal(p[i]) {
      OctalEscapeValue(p, i + 1);
      var (v, k) := ParseOctalSpec(p, i + 1, p[i] - '0' as int);
      assert EscapeAtomSpec(ctx, p[i], i + 1) == Scanned(ClassToken(ctx, {v}), k);
    }
  }

  /* ----------------------------------------------------- escaped code points */

  /** `\cX` with an ASCII letter X: the letter's code modulo 32, both cases alike. */
  lemma ControlLetter(ctx: Ctx, i: nat, inCharClass: bool)
    requires 1 <= i < |ctx.pattern| && IsAsciiLetter(ctx.pattern[i])
    ensures var x := ctx.pattern[i];
      && ControlEscape(ctx, i, inCharClass) == Scanned(x % 32, i + 1)
      && 1 <= x % 32 <= 26
  {
  }

  /**
   * `\c` followed by anything but a letter (and, in a legacy class, a digit
   * or `_`): an error in Unicode mode; in legacy mode a literal backslash,
   * with the cursor back on the `c`.
   */
  lemma ControlNonLetter(ctx: Ctx, i: nat, inCharClass: bool)
    requires 1 <= i <= |ctx.pattern|
    requires i < |ctx.pattern| ==>
      !IsAsciiLetter(ctx.pattern[i]) &&
      !(!ctx.flags.unicode && inCharClass && (IsDecimal(ctx.pattern[i]) || ctx.pattern[i] == '_' as int))
    ensures ControlEscape(ctx, i, inCharClass) ==
      if ctx.flags.unicode then Failed(InvalidControlCharEscape) else Scanned('\\' as int, i - 1)
  {
  }

  /** `\0`: in range, and NUL itself unless an octal continuation follows in legacy mode. */
  lemma ZeroEscapeBounds(ctx: Ctx, i: nat)
    requires i <= |ctx.pattern|
    ensures var r := ZeroEscape(ctx, i);
      && (r.Scanned? ==> 0 <= r.value <= 255)
      && (r.Scanned? && r.value != 0 ==> !ctx.flags.unicode)
      && (r.Failed? <==> ctx.flags.unicode && i < |ctx.pattern| && IsDecimal(ctx.pattern[i]))
  {
  }

  /** `\u`: a code point in range, and above 0xFFFF only in Unicode mode. */
  lemma UnicodeEscapeBounds(ctx: Ctx, i: nat)
    requires i <= |ctx.pattern|
    ensures var r := UnicodeEscape(ctx, i);
      && (r.Scanned? ==> 0 <= r.value <= MaxCodePoint)
      && (r.Scanned? && r.value > 0xFFFF ==> ctx.flags.unicode)
      && (r.Failed? ==> r.error == InvalidUnicodeEscape)
  {
    var p := ctx.pattern;
    if ctx.flags.unicode && Lookahead(p, i, ['{' as int]) {
      ParseHexBounds(ctx, i + 1, 1, IntMax, MaxCodePoint, InvalidUnicodeEscape);
    } else {
      ParseHexBounds(ctx, i, 4, 4, 0xFFFF, InvalidUnicodeEscape);
      var h := ParseHexSpec(ctx, i, 4, 4, 0xFFFF, InvalidUnicodeEscape);
      if h.Scanned? && ctx.flags.unicode && IsHighSurrogate(h.value) {
        SurrogateTailBounds(ctx, h.value, h.next);
      }
    }
  }

  lemma SurrogateTailBounds(ctx: Ctx, lead: int, k: nat)
    requires k <= |ctx.pattern| && IsHighSurrogate(lead)
    ensures var r := SurrogateEscapeTail(ctx, lead, k);
      && (r.Scanned? ==> 0xD800 <= r.value <= MaxCodePoint)
      && (r.Failed? ==> r.error == InvalidUnicodeEscape)
  {
    if Lookahead(ctx.pattern, k, ['\\' as int, 'u' as int]) {
      ParseHexBounds(ctx, k + 2, 4, 4, 0xFFFF, InvalidUnicodeEscape);
    }
  }

  /**
   * The trail of a `\uXXXX` high surrogate in Unicode mode: when `\u` and four
   * hexadecimal digits follow, with value t, the pair joins into one code point
   * if t is a low surrogate; otherwise the lead stands alone and the cursor
   * returns to just after it.
   */
  lemma SurrogateTailValue(ctx: Ctx, lead: int, k: nat)
    requires k + 6 <= |ctx.pattern| && IsHighSurrogate(lead)
    requires ctx.pattern[k] == '\\' as int && ctx.pattern[k + 1] == 'u' as int
    requires forall m | k + 2 <= m < k + 6 :: IsHex(ctx.pattern[m])
    ensures var t := HexValue(ctx.pattern[k + 2..k + 6]);
      SurrogateEscapeTail(ctx, lead, k) ==
        if IsLowSurrogate(t) then Scanned(ToCodePoint(lead, t), k + 6) else Scanned(lead, k)
  {
    var p := ctx.pattern;
    LookaheadTwo(p, k, '\\' as int, 'u' as int);
    LookaheadOne(p, k + 2, '{' as int);
    HexRunEndAt(p, k + 2, k + 6, 4);
    ParseHexOutcome(ctx, k + 2, 4, 4, 0xFFFF, InvalidUnicodeEscape);
    HexValueBelow(p[k + 2..k + 6]);
    assert Pow16(4) == 0x1_0000;
  }

  /** Without a following `\u`, a `\uXXXX` high surrogate stands alone. */
  lemma SurrogateTailAbsent(ctx: Ctx, lead: int, k: nat)
    requires k <= |ctx.pattern| && IsHighSurrogate(lead)
    requires !(k + 1 < |ctx.pattern| && ctx.pattern[k] == '\\' as int && ctx.pattern[k + 1] == 'u' as int)
    ensures SurrogateEscapeTail(ctx, lead, k) == Scanned(lead, k)
  {
    LookaheadTwo(ctx.pattern, k, '\\' as int, 'u' as int);
  }

  /**
   * `\u{H...}` in Unicode mode (`i` is the cursor on the `{`): a non-empty
   * hexadecimal run closed by `}` denotes its value, with the cursor after the
   * `}`, when that value is a code point, and is InvalidUnicodeEscape otherwise.
   */
  lemma BracedUnicodeEscape(ctx: Ctx, i: nat, e: nat)
    requires |ctx.pattern| <= IntMax && ctx.flags.unicode
    requires i + 1 < e < |ctx.pattern| && ctx.pattern[i] == '{' as int && ctx.pattern[e] == '}' as int
    requires forall m | i + 1 <= m < e :: IsHex(ctx.pattern[m])
    ensures var v := HexValue(ctx.pattern[i + 1..e]);
      UnicodeEscape(ctx, i) == if v <= MaxCodePoint then Scanned(v, e + 1) else Failed(InvalidUnicodeEscape)
  {
    var p := ctx.pattern;
    LookaheadOne(p, i, '{' as int);
    LookaheadOne(p, e, '}' as int);
    HexRunEndAt(p, i + 1, e, IntMax);
    ParseHexOutcome(ctx, i + 1, 1, IntMax, MaxCodePoint, InvalidUnicodeEscape);
  }

  /**
   * parseEscapeChar: whatever the escape, the value it returns is a code
   * point (0..0x10FFFF), and one beyond the 16-bit range only in Unicode mode.
   */
  lemma EscapeCharBounds(ctx: Ctx, c: int, i: nat, inCharClass: bool)
    requires 1 <= i <= |ctx.pattern| && 0 <= c <= 0xFFFF
    ensures var r := EscapeCharSpec(ctx, c, i, inCharClass);
      && (r.Scanned? ==> 0 <= r.value <= MaxCodePoint)
      && (r.Scanned? && r.value > 0xFFFF ==> ctx.flags.unicode)
  {
    if c == '0' as int {
      ZeroEscapeBounds(ctx, i);
    } else if c == 'u' as int {
      UnicodeEscapeBounds(ctx, i);
    } else if c == 'x' as int {
      ParseHexBounds(ctx, i, 2, 2, 0xFF, InvalidEscape);
    }
  }

  /* -------------------------------------------------------- surrogate pairs */

  /**
   * A high surrogate followed by a low one is a single code point in Unicode
   * mode and a lone code unit in legacy mode.
   */
  lemma NextSurrogatePair(ctx: Ctx, i: nat, nGroups: int, last: Option<Token>)
    requires i + 1 < |ctx.pattern|
    requires IsHighSurrogate(ctx.pattern[i]) && IsLowSurrogate(ctx.pattern[i + 1])
    ensures var p := ctx.pattern;
      NextSpec(ctx, i, nGroups, last) ==
        if ctx.flags.unicode then Scanned(ClassToken(ctx, {ToCodePoint(p[i], p[i + 1])}), i + 2)
        else Scanned(ClassToken(ctx, {p[i]}), i + 1)
  {
  }
}
