/**
 * The `\0` escape as written in parseEscapeChar (RegexLexer.java:396-405)
 * and as the lexer model has it. The written Unicode-mode test reads the
 * code unit after the `0` without checking for the end of the pattern, so
 * `\0` at the very end raises an index-out-of-bounds exception instead of
 * denoting NUL; the legacy-mode test just below it checks atEnd() first.
 */
module ZeroEscapeFinding {
  import opened CodeUnits
  import opened Wrappers
  import opened RegexTypes
  import opened RegexChars
  import opened LexerSpec

  /** What a Java method can do: return, throw a syntax error, or fail on an out-of-range charAt. */
  datatype Outcome = Returned(value: int, next: nat) | Raised(error: ErrorMessage) | OutOfBounds

  /** The `case '0'` branch as written (`i` is the cursor after the `0`). */
  function ZeroEscapeAsWritten(ctx: Ctx, i: nat): Outcome
    requires i <= |ctx.pattern|
  {
    var p := ctx.pattern;
    if ctx.flags.unicode then
      if i >= |p| then OutOfBounds
      else if IsDecimal(p[i]) then Raised(InvalidEscape)
      else Returned(0, i)
    else if i < |p| && IsOctal(p[i]) then
      var (v, k) := ParseOctalSpec(p, i, 0); Returned(v, k)
    else Returned(0, i)
  }

  /** The pattern `\0`. */
  const NulPattern: seq<CodeUnit> := ['\\' as int, '0' as int]

  /** As written, the Unicode-mode `\0` at the end of a pattern fails on the bounds of the string. */
  lemma AsWrittenFailsAtEnd(ctx: Ctx)
    requires ctx.pattern == NulPattern && ctx.flags.unicode
    ensures ZeroEscapeAsWritten(ctx, 2) == OutOfBounds
  {
  }

  /** That is the only input on which the written code differs from the model; elsewhere they agree. */
  lemma AsWrittenAgrees(ctx: Ctx, i: nat)
    requires i <= |ctx.pattern|
    ensures ZeroEscapeAsWritten(ctx, i).OutOfBounds? <==> ctx.flags.unicode && i == |ctx.pattern|
    ensures match ZeroEscapeAsWritten(ctx, i)
      case Returned(v, k) => ZeroEscape(ctx, i) == Scanned(v, k)
      case Raised(e) => ZeroEscape(ctx, i) == Failed(e)
      case OutOfBounds => ZeroEscape(ctx, i) == Scanned(0, i)
  {
  }

  /**
   * The corrected rule in Unicode mode: `\0` is NUL exactly when no decimal
   * digit follows, the end of the pattern included, and an error otherwise.
   */
  lemma ZeroEscapeUnicode(ctx: Ctx, i: nat)
    requires i <= |ctx.pattern| && ctx.flags.unicode
    ensures var r := ZeroEscape(ctx, i);
      && (r == Scanned(0, i) <==> i == |ctx.pattern| || !IsDecimal(ctx.pattern[i]))
      && (r == Failed(InvalidEscape) <==> i < |ctx.pattern| && IsDecimal(ctx.pattern[i]))
  {
  }

  /** With the correction, next() on the pattern `\0` in Unicode mode yields the class {NUL} and reaches the end. */
  lemma NulPatternToken(ctx: Ctx, nGroups: int, last: Option<Token>)
    requires ctx.pattern == NulPattern && ctx.flags.unicode
    ensures NextSpec(ctx, 0, nGroups, last) == Scanned(ClassToken(ctx, {0}), 2)
  {
    assert !IsBackReferenceDigit(ctx.pattern[1]);
  }
}
