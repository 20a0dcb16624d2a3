/**
 * The meaning of every RegexLexer operation as a pure function of the
 * lexer's read-only context and its cursor. Each function follows one Java
 * method branch by branch; the cursor is threaded explicitly, so a function
 * returns the value together with the cursor after it (`Scanned`) or the
 * syntax error the method throws (`Failed`). Backtracking becomes returning
 * an earlier cursor.
 */
module LexerSpec {
  import opened CodeUnits
  import opened Wrappers
  import opened RegexTypes
  import opened RegexChars

  /** What a lexer reads but never changes: the pattern, flags, options and collaborators. */
  datatype Ctx = Ctx(pattern: seq<CodeUnit>, flags: Flags, options: Options, tables: Tables)

  /** Integer.MAX_VALUE, the digit limit of a braced `\u{...}` escape. */
  const IntMax: int := 0x7FFF_FFFF

  /** An imperative lexer operation returned `r` and left the cursor at `index` as `s` describes. */
  predicate Completes<T(==)>(s: Scan<T>, r: Result<T>, index: nat) {
    match s
    case Scanned(v, n) => r == Ok(v) && index == n
    case Failed(e) => r == Err(e)
  }

  /** charClass(set, invert): case folding (under the `i` flag) first, then inversion. */
  function ClassSet(ctx: Ctx, s: set<int>, invert: bool): set<int> {
    var folded := if ctx.flags.ignoreCase then ctx.tables.caseFold(s, ctx.flags.unicode) else s;
    if invert then Complement(folded) else folded
  }

  /** A char-class token built through charClass. */
  function ClassToken(ctx: Ctx, s: set<int>): Token {
    CharClass(ClassSet(ctx, s, false))
  }

  /** The capture-group counter after emitting `t`. */
  function GroupsAfter(nGroups: int, t: Token): int {
    if t == CaptureGroupBegin then nGroups + 1 else nGroups
  }

  /* ---------------------------------------------------------------- numbers */

  /** parseDecimal(firstDigit): accumulate the maximal run of decimal digits at `i`. */
  function DecimalFrom(p: seq<CodeUnit>, i: nat, acc: int): (r: (int, nat))
    requires i <= |p|
    ensures i <= r.1 <= |p|
    ensures forall k | i <= k < r.1 :: IsDecimal(p[k])
    ensures r.1 == |p| || !IsDecimal(p[r.1])
    decreases |p| - i
  {
    if i < |p| && IsDecimal(p[i]) then DecimalFrom(p, i + 1, acc * 10 + (p[i] - '0' as int))
    else (acc, i)
  }

  /** parseDecimal(): -1 when no digit follows, else the value of the digit run. */
  function ParseDecimalSpec(p: seq<CodeUnit>, i: nat): (r: (int, nat))
    requires i <= |p|
  {
    if i >= |p| || !IsDecimal(p[i]) then (-1, i) else DecimalFrom(p, i, 0)
  }

  /**
   * parseOctal(firstDigit) from its n-th loop iteration: at most two further
   * octal digits, and none once the value could pass 255.
   */
  function OctalFrom(p: seq<CodeUnit>, i: nat, acc: int, n: nat): (r: (int, nat))
    requires i <= |p| && n <= 2
    ensures i <= r.1 <= |p| && r.1 - i <= 2 - n
    ensures 0 <= acc <= 255 ==> 0 <= r.0 <= 255
    decreases 2 - n
  {
    if i < |p| && IsOctal(p[i]) && n < 2 then
      if acc * 8 > 255 then (acc, i)
      else OctalFrom(p, i + 1, acc * 8 + (p[i] - '0' as int), n + 1)
    else (acc, i)
  }

  /** parseOctal(firstDigit). */
  function ParseOctalSpec(p: seq<CodeUnit>, i: nat, firstDigit: int): (r: (int, nat))
    requires i <= |p|
  {
    OctalFrom(p, i, firstDigit, 0)
  }

  /**
   * parseHex from its n-th loop iteration, `acc` being the value so far and
   * `initial` the cursor on entry (restored by the legacy-mode failure).
   */
  function HexFrom(ctx: Ctx, i: nat, acc: int, n: nat, minDigits: int, maxDigits: int,
                   maxValue: int, msg: ErrorMessage, initial: nat): (r: Scan<int>)
    requires initial <= i <= |ctx.pattern|
    ensures r.Scanned? ==> initial <= r.next <= |ctx.pattern|
    decreases |ctx.pattern| - i
  {
    var p := ctx.pattern;
    if n >= maxDigits then Scanned(acc, i)
    else if i >= |p| || !IsHex(p[i]) then
      if n < minDigits then
        if ctx.flags.unicode then Failed(msg) else Scanned(-1, initial)
      else Scanned(acc, i)
    else
      var v := acc * 16 + HexDigitValue(p[i]);
      if v > maxValue then Failed(msg)
      else HexFrom(ctx, i + 1, v, n + 1, minDigits, maxDigits, maxValue, msg, initial)
  }

  /** parseHex(minDigits, maxDigits, maxValue, errorMsg). */
  function ParseHexSpec(ctx: Ctx, i: nat, minDigits: int, maxDigits: int, maxValue: int,
                    msg: ErrorMessage): (r: Scan<int>)
    requires i <= |ctx.pattern|
  {
    HexFrom(ctx, i, 0, 0, minDigits, maxDigits, maxValue, msg, i)
  }

  /* ------------------------------------------------------ surrogates, escapes */

  /** finishSurrogatePair: join a following low surrogate, if there is one. */
  function FinishSurrogatePairSpec(p: seq<CodeUnit>, i: nat, c: int): (r: (int, nat))
    requires i <= |p| && IsHighSurrogate(c)
    ensures i <= r.1 <= |p|
  {
    if i < |p| && IsLowSurrogate(p[i]) then (ToCodePoint(c, p[i]), i + 1) else (c, i)
  }

  /** escapeCharSyntaxError: an error in Unicode mode, the code unit `c` itself otherwise. */
  function EscapeCharSyntaxErrorSpec(ctx: Ctx, c: int, msg: ErrorMessage, i: nat): Scan<int> {
    if ctx.flags.unicode then Failed(msg) else Scanned(c, i)
  }

  predicate IsAsciiLetter(c: int) {
    'a' as int <= c <= 'z' as int || 'A' as int <= c <= 'Z' as int
  }

  /** Character.toUpperCase on an ASCII letter. */
  function AsciiUpper(c: int): int
    requires IsAsciiLetter(c)
  {
    if 'a' as int <= c then c - ('a' as int - 'A' as int) else c
  }

  /** The `\0` escape (`i` is the cursor after the `0`); see README, Findings. */
  function ZeroEscape(ctx: Ctx, i: nat): (r: Scan<int>)
    requires i <= |ctx.pattern|
    ensures r.Scanned? ==> i <= r.next <= |ctx.pattern|
  {
    var p := ctx.pattern;
    if ctx.flags.unicode && i < |p| && IsDecimal(p[i]) then Failed(InvalidEscape)
    else if !ctx.flags.unicode && i < |p| && IsOctal(p[i]) then
      var (v, k) := ParseOctalSpec(p, i, 0); Scanned(v, k)
    else Scanned(0, i)
  }

  /** The `\c` escape (`i` is the cursor after the `c`). */
  function ControlEscape(ctx: Ctx, i: nat, inCharClass: bool): (r: Scan<int>)
    requires 1 <= i <= |ctx.pattern|
    ensures r.Scanned? ==> i - 1 <= r.next <= |ctx.pattern|
  {
    var p := ctx.pattern;
    if i >= |p| then EscapeCharSyntaxErrorSpec(ctx, '\\' as int, InvalidControlCharEscape, i - 1)
    else
      var letter := p[i];
      if !ctx.flags.unicode && (IsDecimal(letter) || letter == '_' as int) && inCharClass then
        Scanned(letter % 32, i + 1)
      else if !IsAsciiLetter(letter) then
        EscapeCharSyntaxErrorSpec(ctx, '\\' as int, InvalidControlCharEscape, i - 1)
      else Scanned(AsciiUpper(letter) - ('A' as int - 1), i + 1)
  }

  /** After a `\uXXXX` high surrogate in Unicode mode: try to join a `\uXXXX` low surrogate. */
  function SurrogateEscapeTail(ctx: Ctx, lead: int, k: nat): (r: Scan<int>)
    requires k <= |ctx.pattern| && IsHighSurrogate(lead)
    ensures r.Scanned? ==> k <= r.next <= |ctx.pattern|
  {
    var p := ctx.pattern;
    if Lookahead(p, k, ['\\' as int, 'u' as int]) && !Lookahead(p, k + 2, ['{' as int]) then
      match ParseHexSpec(ctx, k + 2, 4, 4, 0xFFFF, InvalidUnicodeEscape)
      case Failed(e) => Failed(e)
      case Scanned(trail, m) =>
        if IsLowSurrogate(trail) then Scanned(ToCodePoint(lead, trail), m) else Scanned(lead, k)
    else Scanned(lead, k)
  }

  /** The `\u` escape (`i` is the cursor after the `u`). */
  function UnicodeEscape(ctx: Ctx, i: nat): (r: Scan<int>)
    requires i <= |ctx.pattern|
    ensures r.Scanned? ==> i <= r.next <= |ctx.pattern|
  {
    var p := ctx.pattern;
    if ctx.flags.unicode && Lookahead(p, i, ['{' as int]) then
      match ParseHexSpec(ctx, i + 1, 1, IntMax, MaxCodePoint, InvalidUnicodeEscape)
      case Failed(e) => Failed(e)
      case Scanned(v, k) =>
        if Lookahead(p, k, ['}' as int]) then Scanned(v, k + 1) else Failed(InvalidUnicodeEscape)
    else
      match ParseHexSpec(ctx, i, 4, 4, 0xFFFF, InvalidUnicodeEscape)
      case Failed(e) => Failed(e)
      case Scanned(v, k) =>
        if ctx.flags.unicode && IsHighSurrogate(v) then SurrogateEscapeTail(ctx, v, k)
        else Scanned(if v < 0 then 'u' as int else v, k)
  }

  /**
   * parseEscapeChar(c, inCharClass): the code point an escape `\c` denotes;
   * `i` is the cursor after `c`.
   */
  function EscapeCharSpec(ctx: Ctx, c: int, i: nat, inCharClass: bool): (r: Scan<int>)
    requires 1 <= i <= |ctx.pattern|
    ensures r.Scanned? ==> i - 1 <= r.next <= |ctx.pattern|
  {
    var p := ctx.pattern;
    if inCharClass && c == 'b' as int then Scanned(8, i)
    else if c == '0' as int then ZeroEscape(ctx, i)
    else if c == 't' as int then Scanned(9, i)
    else if c == 'n' as int then Scanned(10, i)
    else if c == 'v' as int then Scanned(11, i)
    else if c == 'f' as int then Scanned(12, i)
    else if c == 'r' as int then Scanned(13, i)
    else if c == 'c' as int then ControlEscape(ctx, i, inCharClass)
    else if c == 'u' as int then UnicodeEscape(ctx, i)
    else if c == 'x' as int then
      match ParseHexSpec(ctx, i, 2, 2, 0xFF, InvalidEscape)
      case Failed(e) => Failed(e)
      case Scanned(v, k) => Scanned(if v < 0 then c else v, k)
    else if c == '-' as int then
      if !inCharClass then EscapeCharSyntaxErrorSpec(ctx, c, InvalidEscape, i) else Scanned(c, i)
    else if !ctx.flags.unicode && IsOctal(c) then
      var (v, k) := ParseOctalSpec(p, i, c - '0' as int); Scanned(v, k)
    else if !IsSyntaxChar(c) then EscapeCharSyntaxErrorSpec(ctx, c, InvalidEscape, i)
    else Scanned(c, i)
  }

  /* ------------------------------------------------- class escapes, properties */

  /** parsePredefCharClass: the already folded and negated constant set. */
  function PredefCharClass(ctx: Ctx, c: int): set<int>
    requires IsPredefCharClass(c)
  {
    var k := ctx.tables.constants;
    var unicodeIgnoreCase := ctx.flags.unicode && ctx.flags.ignoreCase;
    if c == 's' as int then (if ctx.options.u180eWhitespace then k.legacyWhiteSpace else k.whiteSpace)
    else if c == 'S' as int then (if ctx.options.u180eWhitespace then k.legacyNonWhiteSpace else k.nonWhiteSpace)
    else if c == 'd' as int then k.digits
    else if c == 'D' as int then k.nonDigits
    else if c == 'w' as int then (if unicodeIgnoreCase then k.wordCharsUnicodeIgnoreCase else k.wordChars)
    else (if unicodeIgnoreCase then k.nonWordCharsUnicodeIgnoreCase else k.nonWordChars)
  }

  /** The cursor after the property name that starts at `i`: the first `}` or the end. */
  function PropertyNameEnd(p: seq<CodeUnit>, i: nat): (e: nat)
    requires i <= |p|
    ensures i <= e <= |p|
    ensures forall k | i <= k < e :: p[k] != '}' as int
    ensures e == |p| || p[e] == '}' as int
    decreases |p| - i
  {
    if i < |p| && p[i] != '}' as int then PropertyNameEnd(p, i + 1) else i
  }

  /** parseUnicodeCharacterProperty(invert): `{name}` looked up in the property table. */
  function UnicodePropertySpec(ctx: Ctx, i: nat, invert: bool): (r: Scan<set<int>>)
    requires i <= |ctx.pattern|
    ensures r.Scanned? ==> i < r.next <= |ctx.pattern|
  {
    var p := ctx.pattern;
    if !Lookahead(p, i, ['{' as int]) then Failed(InvalidUnicodeProperty)
    else
      var e := PropertyNameEnd(p, i + 1);
      var name := p[i + 1..e];
      if !Lookahead(p, e, ['}' as int]) then Failed(EndsWithUnfinishedUnicodeProperty)
      else if name !in ctx.tables.properties then Failed(PropertyLookupFailed(name))
      else
        var s := ctx.tables.properties[name];
        Scanned(if invert then Complement(s) else s, e + 1)
  }

  /** parseEscapeCharClass: a predefined class or a Unicode property escape. */
  function EscapeCharClassSpec(ctx: Ctx, c: int, i: nat): (r: Scan<set<int>>)
    requires i <= |ctx.pattern| && IsEscapeCharClass(ctx.flags.unicode, c)
    ensures r.Scanned? ==> i <= r.next <= |ctx.pattern|
  {
    if IsPredefCharClass(c) then Scanned(PredefCharClass(ctx, c), i)
    else UnicodePropertySpec(ctx, i, c == 'P' as int)
  }

  /* ------------------------------------------------------- character classes */

  /** The end of a class range `cur-v`: out of order when v < cur. */
  function RangeEnd(cur: int, v: int, k: nat, acc: set<int>): Scan<set<int>> {
    if v < cur then Failed(CharClassRangeOutOfOrder) else Scanned(acc + Range(cur, v), k)
  }

  /**
   * The second half of parseCharClassAtom: `cur` is the atom's code point and
   * `i` the cursor after it; an optional `-` and upper end make it a range.
   */
  function ClassRangeSpec(ctx: Ctx, cur: int, i: nat, acc: set<int>): (r: Scan<set<int>>)
    requires i <= |ctx.pattern|
    ensures r.Scanned? ==> i <= r.next <= |ctx.pattern|
  {
    var p := ctx.pattern;
    if !Lookahead(p, i, ['-' as int]) then Scanned(acc + {cur}, i)
    else
      var i1 := i + 1;
      if i1 >= |p| || Lookahead(p, i1, [']' as int]) then Scanned(acc + {cur, '-' as int}, i1)
      else if Lookahead(p, i1, ['\\' as int]) then
        var i2 := i1 + 1;
        if i2 >= |p| then Failed(EndsWithUnfinishedEscapeSequence)
        else if IsEscapeCharClass(ctx.flags.unicode, p[i2]) then
          if ctx.flags.unicode then Failed(InvalidCharacterClass)
          else
            match EscapeCharClassSpec(ctx, p[i2], i2 + 1)
            case Failed(e) => Failed(e)
            case Scanned(s, k) => Scanned(acc + {cur, '-' as int} + s, k)
        else
          match EscapeCharSpec(ctx, p[i2], i2 + 1, true)
          case Failed(e) => Failed(e)
          case Scanned(v, k) => RangeEnd(cur, v, k, acc)
      else
        var u := p[i1];
        var (v, k) := if ctx.flags.unicode && IsHighSurrogate(u) then FinishSurrogatePairSpec(p, i1 + 1, u)
                      else (u as int, i1 + 1);
        RangeEnd(cur, v, k, acc)
  }

  /**
   * The escape case of parseCharClassAtom (`i` is the cursor after the
   * backslash): a class escape adds its set, any other escape starts a range.
   */
  function ClassEscapeAtomSpec(ctx: Ctx, i: nat, acc: set<int>): (r: Scan<set<int>>)
    requires i <= |ctx.pattern|
    ensures r.Scanned? ==> i <= r.next <= |ctx.pattern|
  {
    var p := ctx.pattern;
    if i >= |p| then Failed(EndsWithUnfinishedEscapeSequence)
    else if IsEscapeCharClass(ctx.flags.unicode, p[i]) then
      match EscapeCharClassSpec(ctx, p[i], i + 1)
      case Failed(e) => Failed(e)
      case Scanned(s, k) =>
        if ctx.flags.unicode && Lookahead(p, k, ['-' as int]) && !Lookahead(p, k, ['-' as int, ']' as int]) then
          Failed(InvalidCharacterClass)
        else Scanned(acc + s, k)
    else
      match EscapeCharSpec(ctx, p[i], i + 1, true)
      case Failed(e) => Failed(e)
      case Scanned(v, k) => ClassRangeSpec(ctx, v, k, acc)
  }

  /**
   * parseCharClassAtom(c, acc): `c` has just been consumed and `i` is the
   * cursor after it; returns the accumulated set with the atom added.
   */
  function ClassAtomSpec(ctx: Ctx, c: int, i: nat, acc: set<int>): (r: Scan<set<int>>)
    requires 1 <= i <= |ctx.pattern|
    ensures r.Scanned? ==> i <= r.next <= |ctx.pattern|
  {
    var p := ctx.pattern;
    if c == '\\' as int then ClassEscapeAtomSpec(ctx, i, acc)
    else if ctx.flags.unicode && IsHighSurrogate(c) then
      var (v, k) := FinishSurrogatePairSpec(p, i, c);
      ClassRangeSpec(ctx, v, k, acc)
    else ClassRangeSpec(ctx, c, i, acc)
  }

  /** The loop of parseCharClass from cursor `i`, with `acc` accumulated so far. */
  function ClassBodySpec(ctx: Ctx, i: nat, acc: set<int>): (r: Scan<set<int>>)
    requires i <= |ctx.pattern|
    ensures r.Scanned? ==> i < r.next <= |ctx.pattern|
    decreases |ctx.pattern| - i
  {
    var p := ctx.pattern;
    if i >= |p| then Failed(UnmatchedLeftBracket)
    else if p[i] == ']' as int then Scanned(acc, i + 1)
    else
      match ClassAtomSpec(ctx, p[i], i + 1, acc)
      case Failed(e) => Failed(e)
      case Scanned(acc', k) => ClassBodySpec(ctx, k, acc')
  }

  /** parseCharClass (`i` is the cursor after `[`). */
  function CharClassSpec(ctx: Ctx, i: nat): (r: Scan<Token>)
    requires i <= |ctx.pattern|
    ensures r.Scanned? ==> i < r.next <= |ctx.pattern|
  {
    var invert := Lookahead(ctx.pattern, i, ['^' as int]);
    var start := if invert then i + 1 else i;
    match ClassBodySpec(ctx, start, {})
    case Failed(e) => Failed(e)
    case Scanned(s, k) => Scanned(CharClass(ClassSet(ctx, s, invert)), k)
  }

  /* ---------------------------------------------------- quantifiers, groups */

  /** A trailing `?` makes a quantifier lazy. */
  function Greedy(p: seq<CodeUnit>, i: nat): (r: (bool, nat))
    requires i <= |p|
    ensures i <= r.1 <= |p|
  {
    if Lookahead(p, i, ['?' as int]) then (false, i + 1) else (true, i)
  }

  /** The check of the previous token that ends parseQuantifier. */
  function TargetCheck(last: Option<Token>, q: Token, k: nat): Scan<Token> {
    if last.None? then Failed(QuantifierWithoutTarget)
    else if last.value.Quantifier? then Failed(QuantifierOnQuantifier)
    else if !Quantifiable(last.value) then Failed(QuantifierWithoutTarget)
    else Scanned(q, k)
  }

  /** countedRepetitionSyntaxError: strict error, or a literal `{` with the cursor reset. */
  function CountedRepetitionError(ctx: Ctx, resetIndex: nat): Scan<Token> {
    if ctx.flags.unicode then Failed(IncompleteQuantifier)
    else Scanned(ClassToken(ctx, {'{' as int}), resetIndex)
  }

  /**
   * The bounds after the minimum of a braced quantifier (`j` is the cursor
   * after the minimum): `,}` gives no maximum (-1), `}` repeats the minimum,
   * `,max}` gives max; the cursor is after the `}`. None when malformed.
   */
  function RepetitionMax(p: seq<CodeUnit>, j: nat, min: int): (r: Option<(int, nat)>)
    requires j <= |p|
    ensures r.Some? ==> j < r.value.1 <= |p|
  {
    if Lookahead(p, j, [',' as int, '}' as int]) then Some((-1, j + 2))
    else if Lookahead(p, j, ['}' as int]) then Some((min, j + 1))
    else if !Lookahead(p, j, [',' as int]) then None
    else
      var (max, j2) := ParseDecimalSpec(p, j + 1);
      if max < 0 || !Lookahead(p, j2, ['}' as int]) then None else Some((max, j2 + 1))
  }

  /** The `{` case of parseQuantifier (`i` is the cursor after `{`). */
  function BracedQuantifierSpec(ctx: Ctx, i: nat, last: Option<Token>): (r: Scan<Token>)
    requires i <= |ctx.pattern|
    ensures r.Scanned? ==> i <= r.next <= |ctx.pattern|
  {
    var p := ctx.pattern;
    var (min, j) := ParseDecimalSpec(p, i);
    if min < 0 then CountedRepetitionError(ctx, i)
    else
      match RepetitionMax(p, j, min)
      case None => CountedRepetitionError(ctx, i)
      case Some((max, k)) =>
        var (greedy, k') := Greedy(p, k);
        TargetCheck(last, Quantifier(min, max, greedy), k')
  }

  /** parseQuantifier(c) (`i` is the cursor after `c`). */
  function QuantifierSpec(ctx: Ctx, c: int, i: nat, last: Option<Token>): (r: Scan<Token>)
    requires i <= |ctx.pattern|
    ensures r.Scanned? ==> i <= r.next <= |ctx.pattern|
  {
    if c == '{' as int then BracedQuantifierSpec(ctx, i, last)
    else
      var (greedy, k) := Greedy(ctx.pattern, i);
      TargetCheck(last, Quantifier(if c == '+' as int then 1 else 0, if c == '?' as int then 1 else -1, greedy), k)
  }

  /** parseGroupBegin (`i` is the cursor after `(`): the prefixes are tried in this order. */
  function GroupBeginSpec(p: seq<CodeUnit>, i: nat): (r: (Token, nat))
    requires i <= |p|
    ensures i <= r.1 <= |p|
  {
    if Lookahead(p, i, ['?' as int, '=' as int]) then (LookAheadAssertionBegin, i + 2)
    else if Lookahead(p, i, ['?' as int, '!' as int]) then (NegativeLookAheadAssertionBegin, i + 2)
    else if Lookahead(p, i, ['?' as int, '<' as int, '=' as int]) then (LookBehindAssertionBegin, i + 3)
    else if Lookahead(p, i, ['?' as int, ':' as int]) then (NonCaptureGroupBegin, i + 2)
    else (CaptureGroupBegin, i)
  }

  /* ----------------------------------------------------------- escape, next */

  /** The `switch` of parseEscape, for an escape letter `c` with the cursor `i` after it. */
  function EscapeAtomSpec(ctx: Ctx, c: int, i: nat): (r: Scan<Token>)
    requires 1 <= i <= |ctx.pattern|
    ensures r.Scanned? ==> i - 1 <= r.next <= |ctx.pattern|
  {
    if c == 'b' as int then Scanned(WordBoundary, i)
    else if c == 'B' as int then Scanned(NonWordBoundary, i)
    else if IsPredefCharClass(c) then Scanned(CharClass(PredefCharClass(ctx, c)), i)
    else if ctx.flags.unicode && (c == 'p' as int || c == 'P' as int) then
      match UnicodePropertySpec(ctx, i, c == 'P' as int)
      case Failed(e) => Failed(e)
      case Scanned(s, k) => Scanned(ClassToken(ctx, s), k)
    else
      match EscapeCharSpec(ctx, c, i, false)
      case Failed(e) => Failed(e)
      case Scanned(v, k) => Scanned(ClassToken(ctx, {v}), k)
  }

  /** `\1`..`\9` starts a back-reference candidate. */
  predicate IsBackReferenceDigit(c: int) { '1' as int <= c <= '9' as int }

  /**
   * parseEscape (`i` is the cursor after the backslash). A digit escape is a
   * back-reference when its number is below nGroups or a `(` occurs anywhere
   * ahead; otherwise the cursor returns to just after the first digit.
   */
  function EscapeSpec(ctx: Ctx, i: nat, nGroups: int): (r: Scan<Token>)
    requires 1 <= i <= |ctx.pattern|
    ensures r.Scanned? ==> i <= r.next <= |ctx.pattern|
  {
    var p := ctx.pattern;
    if i >= |p| then Failed(EndsWithUnfinishedEscapeSequence)
    else
      var c := p[i];
      if IsBackReferenceDigit(c) && BackReferenceAccepted(p, i + 1, c, nGroups) then
        var (n, k) := DecimalFrom(p, i + 1, c - '0' as int);
        Scanned(BackReference(n), k)
      else EscapeAtomSpec(ctx, c, i + 1)
  }

  /** The acceptance test of a back-reference whose first digit `c` ends just before `i`. */
  predicate BackReferenceAccepted(p: seq<CodeUnit>, i: nat, c: int, nGroups: int)
    requires i <= |p|
  {
    var (n, k) := DecimalFrom(p, i, c - '0' as int);
    n < nGroups || FindCharAhead(p, k, '(' as int)
  }

  /** getNext: one token from cursor `i`, dispatching on the code unit there. */
  function NextSpec(ctx: Ctx, i: nat, nGroups: int, last: Option<Token>): (r: Scan<Token>)
    requires i < |ctx.pattern|
    ensures r.Scanned? ==> i < r.next <= |ctx.pattern|
  {
    var p, unicode := ctx.pattern, ctx.flags.unicode;
    var c, j := p[i], i + 1;
    if c == '.' as int then
      Scanned(ClassToken(ctx, if ctx.flags.dotAll then ctx.tables.constants.dotAll else ctx.tables.constants.dot), j)
    else if c == '^' as int then Scanned(Caret, j)
    else if c == '$' as int then Scanned(Dollar, j)
    else if c == '{' as int || c == '*' as int || c == '+' as int || c == '?' as int then
      QuantifierSpec(ctx, c, j, last)
    else if c == '}' as int then
      if unicode then Failed(UnmatchedRightBrace) else Scanned(ClassToken(ctx, {c}), j)
    else if c == '|' as int then Scanned(Alternation, j)
    else if c == '(' as int then
      var (t, k) := GroupBeginSpec(p, j); Scanned(t, k)
    else if c == ')' as int then Scanned(GroupEnd, j)
    else if c == '[' as int then CharClassSpec(ctx, j)
    else if c == ']' as int then
      if unicode then Failed(UnmatchedRightBracket) else Scanned(ClassToken(ctx, {c}), j)
    else if c == '\\' as int then EscapeSpec(ctx, j, nGroups)
    else if unicode && IsHighSurrogate(c) then
      var (cp, k) := FinishSurrogatePairSpec(p, j, c); Scanned(ClassToken(ctx, {cp}), k)
    else Scanned(ClassToken(ctx, {c}), j)
  }

  /**
   * The token stream a caller obtains by calling next() while hasNext(), from
   * cursor `i` with the given counter and lookback; the first error ends it.
   */
  function TokensFrom(ctx: Ctx, i: nat, nGroups: int, last: Option<Token>): (r: Result<seq<Token>>)
    requires i <= |ctx.pattern|
    decreases |ctx.pattern| - i
  {
    if i >= |ctx.pattern| then Ok([])
    else
      match NextSpec(ctx, i, nGroups, last)
      case Failed(e) => Err(e)
      case Scanned(t, k) =>
        match TokensFrom(ctx, k, GroupsAfter(nGroups, t), Some(t))
        case Err(e) => Err(e)
        case Ok(ts) => Ok([t] + ts)
  }

  /** The whole token stream of a fresh lexer. */
  function Tokenize(ctx: Ctx): Result<seq<Token>> {
    TokensFrom(ctx, 0, 1, None)
  }
}
