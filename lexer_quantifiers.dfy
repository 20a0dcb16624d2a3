/**
 * Quantifiers: the (min, max, greedy) triple each quantifier shape yields,
 * the treatment of a malformed `{` in each grammar, and the target check
 * against the previous token, including over a whole token stream.
 */
module QuantifierProperties {
  import opened CodeUnits
  import opened Wrappers
  import opened RegexTypes
  import opened RegexChars
  import opened LexerSpec
  import opened NumberProperties

  /** A rendering consists of decimal digits only. */
  lemma {:induction false} DecimalDigits(n: nat)
    ensures forall k | 0 <= k < |Decimal(n)| :: IsDecimal(Decimal(n)[k])
  {
    if n >= 10 {
      DecimalDigits(n / 10);
    }
  }

  /** Reading a rendering back gives the number. */
  lemma {:induction false} DecimalValue(n: nat)
    ensures NumeralValue(Decimal(n), 10) == n
  {
    if n >= 10 {
      var s := Decimal(n);
      assert s[..|s| - 1] == Decimal(n / 10);
      DecimalValue(n / 10);
    }
  }

  /** The pattern holds the rendering of n at i, followed by a non-digit. */
  predicate NumberAt(p: seq<CodeUnit>, i: nat, n: nat) {
    var d := Decimal(n);
    i + |d| < |p| && (forall k | 0 <= k < |d| :: p[i + k] == d[k]) && !IsDecimal(p[i + |d|])
  }

  lemma NumberAtRun(p: seq<CodeUnit>, i: nat, n: nat)
    requires NumberAt(p, i, n)
    ensures DigitRunEnd(p, i) == i + |Decimal(n)|
    ensures NumeralValue(p[i..DigitRunEnd(p, i)], 10) == n
  {
    var d := Decimal(n);
    DecimalDigits(n);
    assert forall k | i <= k < i + |d| :: p[k] == d[k - i] by {
      forall k | i <= k < i + |d| ensures p[k] == d[k - i] {
        assert p[i + (k - i)] == d[k - i];
      }
    }
    assert p[i..i + |d|] == d;
    DigitRunEndAt(p, i, i + |d|);
    DecimalValue(n);
  }

  /**
   * A reference reading of the text after `{` at cursor i: `m}`, `m,}` or
   * `m,n}` give (min, max, cursor after `}`), max -1 meaning unbounded;
   * anything else is malformed.
   */
  function BracedRepetition(p: seq<CodeUnit>, i: nat): Option<(int, int, nat)>
    requires i <= |p|
  {
    var e := DigitRunEnd(p, i);
    if e == i then None
    else
      var min := NumeralValue(p[i..e], 10);
      if e < |p| && p[e] == '}' as int then Some((min, min, e + 1))
      else if e + 1 < |p| && p[e] == ',' as int && p[e + 1] == '}' as int then Some((min, -1, e + 2))
      else if e < |p| && p[e] == ',' as int then
        var e2 := DigitRunEnd(p, e + 1);
        if e + 1 < e2 < |p| && p[e2] == '}' as int then Some((min, NumeralValue(p[e + 1..e2], 10), e2 + 1))
        else None
      else None
  }

  lemma RepetitionMaxReference(p: seq<CodeUnit>, i: nat)
    requires i <= |p| && DigitRunEnd(p, i) > i
    ensures var e := DigitRunEnd(p, i);
      BracedRepetition(p, i) ==
        match RepetitionMax(p, e, NumeralValue(p[i..e], 10))
        case None => None
        case Some((max, k)) => Some((NumeralValue(p[i..e], 10), max, k))
  {
    var e := DigitRunEnd(p, i);
    LookaheadOne(p, e, '}' as int);
    LookaheadOne(p, e, ',' as int);
    LookaheadTwo(p, e, ',' as int, '}' as int);
    if e < |p| && p[e] == ',' as int && !(e + 1 < |p| && p[e + 1] == '}' as int) {
      RepetitionMaxBounded(p, e, NumeralValue(p[i..e], 10));
    }
  }

  /** RepetitionMax on `,n}`: the run after the comma, when it is non-empty and closed by `}`. */
  lemma RepetitionMaxBounded(p: seq<CodeUnit>, e: nat, min: int)
    requires e < |p| && p[e] == ',' as int && !(e + 1 < |p| && p[e + 1] == '}' as int)
    ensures var e2 := DigitRunEnd(p, e + 1);
      RepetitionMax(p, e, min) ==
        if e + 1 < e2 < |p| && p[e2] == '}' as int then Some((NumeralValue(p[e + 1..e2], 10), e2 + 1)) else None
  {
    LookaheadOne(p, e, '}' as int);
    LookaheadOne(p, e, ',' as int);
    LookaheadTwo(p, e, ',' as int, '}' as int);
    ParseDecimalValue(p, e + 1);
    var e2 := DigitRunEnd(p, e + 1);
    if e2 > e + 1 {
      NumeralValueNonNegative(p, e + 1, e2, 10);
    }
    LookaheadOne(p, e2, '}' as int);
  }

  /**
   * parseQuantifier on `{`, characterised by the reference reading: a
   * malformed repetition is countedRepetitionSyntaxError (no target check),
   * a well-formed one is the quantifier it spells, greedy unless a `?`
   * follows, subject to the target check.
   */
  lemma BracedQuantifier(ctx: Ctx, i: nat, last: Option<Token>)
    requires i <= |ctx.pattern|
    ensures QuantifierSpec(ctx, '{' as int, i, last) ==
      match BracedRepetition(ctx.pattern, i)
      case None => CountedRepetitionError(ctx, i)
      case Some((min, max, k)) =>
        var (greedy, k') := Greedy(ctx.pattern, k);
        TargetCheck(last, Quantifier(min, max, greedy), k')
  {
    ParseDecimalValue(ctx.pattern, i);
    if DigitRunEnd(ctx.pattern, i) > i {
      NumeralValueNonNegative(ctx.pattern, i, DigitRunEnd(ctx.pattern, i), 10);
      RepetitionMaxReference(ctx.pattern, i);
    }
  }

  /** A malformed `{`: an error in Unicode mode, a literal `{` in legacy mode with the cursor just after it. */
  lemma MalformedRepetition(ctx: Ctx, i: nat, last: Option<Token>)
    requires i <= |ctx.pattern| && BracedRepetition(ctx.pattern, i).None?
    ensures QuantifierSpec(ctx, '{' as int, i, last) ==
      if ctx.flags.unicode then Failed(IncompleteQuantifier) else Scanned(ClassToken(ctx, {'{' as int}), i)
  {
    BracedQuantifier(ctx, i, last);
  }

  /** A well-formed repetition after a quantifiable token: the quantifier it spells, lazy when a `?` follows. */
  lemma WellFormedRepetition(ctx: Ctx, i: nat, min: int, max: int, k: nat, last: Option<Token>)
    requires i <= |ctx.pattern| && BracedRepetition(ctx.pattern, i) == Some((min, max, k))
    requires last.Some? && Quantifiable(last.value)
    ensures var lazy := k < |ctx.pattern| && ctx.pattern[k] == '?' as int;
      QuantifierSpec(ctx, '{' as int, i, last) == Scanned(Quantifier(min, max, !lazy), if lazy then k + 1 else k)
  {
    BracedQuantifier(ctx, i, last);
    LookaheadOne(ctx.pattern, k, '?' as int);
  }

  /** `{m}` reads as exactly m repetitions. */
  lemma ExactRepetition(p: seq<CodeUnit>, i: nat, m: nat)
    requires NumberAt(p, i, m) && p[i + |Decimal(m)|] == '}' as int
    ensures BracedRepetition(p, i) == Some((m as int, m as int, (i + |Decimal(m)| + 1) as nat))
  {
    NumberAtRun(p, i, m);
  }

  /** `{m,}` reads as at least m repetitions, with no maximum. */
  lemma OpenRepetition(p: seq<CodeUnit>, i: nat, m: nat)
    requires NumberAt(p, i, m) && i + |Decimal(m)| + 1 < |p|
    requires p[i + |Decimal(m)|] == ',' as int && p[i + |Decimal(m)| + 1] == '}' as int
    ensures BracedRepetition(p, i) == Some((m as int, -1, (i + |Decimal(m)| + 2) as nat))
  {
    NumberAtRun(p, i, m);
  }

  /** `{m,n}` reads as between m and n repetitions (the order of m and n is not checked by the lexer). */
  lemma RangeRepetition(p: seq<CodeUnit>, i: nat, m: nat, n: nat)
    requires NumberAt(p, i, m) && p[i + |Decimal(m)|] == ',' as int
    requires NumberAt(p, i + |Decimal(m)| + 1, n)
    requires p[i + |Decimal(m)| + 1 + |Decimal(n)|] == '}' as int
    ensures BracedRepetition(p, i) == Some((m as int, n as int, (i + |Decimal(m)| + |Decimal(n)| + 2) as nat))
  {
    var e := i + |Decimal(m)|;
    var e2 := e + 1 + |Decimal(n)|;
    NumberAtRun(p, i, m);
    NumberAtRun(p, e + 1, n);
    assert NumeralValue(p[i..e], 10) == m && NumeralValue(p[e + 1..e2], 10) == n;
    RangeRepetitionReading(p, i, e, e2);
  }

  /** The reference reading of `m,n}` once both digit runs are known. */
  lemma RangeRepetitionReading(p: seq<CodeUnit>, i: nat, e: nat, e2: nat)
    requires i < e < e2 < |p| && DigitRunEnd(p, i) == e && DigitRunEnd(p, e + 1) == e2
    requires p[e] == ',' as int && p[e2] == '}' as int && e + 1 < e2
    ensures BracedRepetition(p, i) == Some((NumeralValue(p[i..e], 10), NumeralValue(p[e + 1..e2], 10), e2 + 1))
  {
    DigitRunEndFacts(p, e + 1);
    assert IsDecimal(p[e + 1]);
  }

  /** `*`, `+` and `?` after a quantifiable token: (0, -1), (1, -1) and (0, 1), lazy when a `?` follows. */
  lemma SimpleQuantifier(ctx: Ctx, c: int, i: nat, last: Option<Token>)
    requires i <= |ctx.pattern| && (c == '*' as int || c == '+' as int || c == '?' as int)
    requires last.Some? && Quantifiable(last.value)
    ensures var lazy := i < |ctx.pattern| && ctx.pattern[i] == '?' as int;
      QuantifierSpec(ctx, c, i, last) ==
        Scanned(Quantifier(if c == '+' as int then 1 else 0, if c == '?' as int then 1 else -1, !lazy),
                if lazy then i + 1 else i)
  {
  }

  /** The quantifier chars that parseQuantifier is entered with. */
  predicate IsQuantifierChar(c: int) {
    c == '{' as int || c == '*' as int || c == '+' as int || c == '?' as int
  }

  /**
   * The target check: whenever the quantifier syntax itself is well formed,
   * it succeeds exactly after a char class, group end or back-reference,
   * fails with QuantifierOnQuantifier exactly after a quantifier, and with
   * QuantifierWithoutTarget otherwise (nothing before it included). A
   * quantifier token is never produced without a quantifiable predecessor.
   */
  lemma QuantifierTargetCheck(ctx: Ctx, c: int, i: nat, last: Option<Token>)
    requires i <= |ctx.pattern| && IsQuantifierChar(c)
    ensures var r := QuantifierSpec(ctx, c, i, last);
      && (r.Scanned? && r.value.Quantifier? ==> last.Some? && Quantifiable(last.value))
      && (r.Scanned? && !r.value.Quantifier? ==>
            c == '{' as int && !ctx.flags.unicode && r == Scanned(ClassToken(ctx, {'{' as int}), i))
      && (c != '{' as int || BracedRepetition(ctx.pattern, i).Some? ==>
            && (r.Scanned? <==> last.Some? && Quantifiable(last.value))
            && (r == Failed(QuantifierOnQuantifier) <==> last.Some? && last.value.Quantifier?)
            && (r == Failed(QuantifierWithoutTarget) <==>
                  last.None? || (!last.value.Quantifier? && !Quantifiable(last.value))))
  {
    if c == '{' as int {
      BracedQuantifier(ctx, i, last);
    }
  }

  /** A token from next() is a quantifier only when the previous token is quantifiable. */
  lemma NextQuantifierHasTarget(ctx: Ctx, i: nat, nGroups: int, last: Option<Token>)
    requires i < |ctx.pattern|
    ensures var r := NextSpec(ctx, i, nGroups, last);
      r.Scanned? && r.value.Quantifier? ==> last.Some? && Quantifiable(last.value)
  {
    var c := ctx.pattern[i];
    if IsQuantifierChar(c) {
      QuantifierTargetCheck(ctx, c, i + 1, last);
    }
  }

  /**
   * In every token stream next() produces without an error, each quantifier
   * directly follows a char class, a group end or a back-reference.
   */
  lemma {:induction false} TokensFromQuantifierTargets(ctx: Ctx, i: nat, nGroups: int, last: Option<Token>)
    requires i <= |ctx.pattern| && TokensFrom(ctx, i, nGroups, last).Ok?
    ensures var ts := TokensFrom(ctx, i, nGroups, last).value;
      forall k | 0 <= k < |ts| && ts[k].Quantifier? ::
        if k == 0 then last.Some? && Quantifiable(last.value) else Quantifiable(ts[k - 1])
    decreases |ctx.pattern| - i
  {
    if i < |ctx.pattern| {
      NextQuantifierHasTarget(ctx, i, nGroups, last);
      var r := NextSpec(ctx, i, nGroups, last);
      var t, k := r.value, r.next;
      TokensFromQuantifierTargets(ctx, k, GroupsAfter(nGroups, t), Some(t));
    }
  }

  /** A whole pattern: no quantifier opens it, and each one has a quantifiable token before it. */
  lemma TokenizeQuantifierTargets(ctx: Ctx)
    requires Tokenize(ctx).Ok?
    ensures var ts := Tokenize(ctx).value;
      forall k | 0 <= k < |ts| && ts[k].Quantifier? :: 0 < k && Quantifiable(ts[k - 1])
  {
    TokensFromQuantifierTargets(ctx, 0, 1, None);
  }
}
