/**
 * The ECMAScript regular-expression lexer (RegexLexer): a scanner over a
 * pattern whose state is a cursor, a capture-group counter and the last
 * token emitted. Each method changes the state as the Java method does and
 * is proved to agree with the function of the same name in LexerSpec; a
 * thrown RegexSyntaxException is an `Err` result (after one, the lexer is
 * abandoned and its cursor is not specified).
 */
module Lexer {
  import opened CodeUnits
  import opened Wrappers
  import opened RegexTypes
  import opened RegexChars
  import opened LexerSpec

  class RegexLexer {
    const pattern: seq<CodeUnit>
    const flags: Flags
    const options: Options
    const tables: Tables
    var lastToken: Option<Token>
    var index: nat
    var nGroups: int

    /** The read-only part of the lexer, as the specification functions take it. */
    function Context(): Ctx {
      Ctx(pattern, flags, options, tables)
    }

    /** The cursor stays within the pattern and the group counter starts at 1. */
    ghost predicate Valid()
      reads this
    {
      index <= |pattern| && nGroups >= 1
    }

    constructor (pattern: seq<CodeUnit>, flags: Flags, options: Options, tables: Tables)
      ensures Valid()
      ensures this.pattern == pattern && this.flags == flags && this.options == options
      ensures Context() == Ctx(pattern, flags, options, tables)
      ensures index == 0 && nGroups == 1 && lastToken == None
    {
      this.pattern := pattern;
      this.flags := flags;
      this.options := options;
      this.tables := tables;
      lastToken := None;
      index := 0;
      nGroups := 1;
    }

    /** hasNext: code units remain. */
    method HasNext() returns (b: bool)
      requires Valid()
      ensures b <==> index < |pattern|
    {
      b := !AtEnd();
    }

    /** next: one token; on success it becomes the lookback token. */
    method Next() returns (r: Result<Token>)
      requires Valid() && index < |pattern|
      modifies this
      ensures Valid()
      ensures Completes(NextSpec(Context(), old(index), old(nGroups), old(lastToken)), r, index)
      ensures r.Ok? ==> lastToken == Some(r.value) && nGroups == GroupsAfter(old(nGroups), r.value)
      ensures r.Err? ==> lastToken == old(lastToken) && nGroups == old(nGroups)
    {
      r := GetNext();
      if r.Ok? {
        lastToken := Some(r.value);
      }
    }

    /* input string access */

    function CurChar(): CodeUnit
      reads this
      requires index < |pattern|
    {
      pattern[index]
    }

    function AtEnd(): bool
      reads this
    {
      index >= |pattern|
    }

    method ConsumeChar() returns (c: CodeUnit)
      requires index < |pattern|
      modifies this`index
      ensures c == pattern[old(index)] && index == old(index) + 1
    {
      c := pattern[index];
      Advance(1);
    }

    /** advance(len); retreat is advance(-1). */
    method Advance(len: int)
      requires 0 <= index + len
      modifies this`index
      ensures index == old(index) + len
    {
      index := index + len;
    }

    method ConsumingLookahead(m: seq<int>) returns (matches: bool)
      requires index <= |pattern|
      modifies this`index
      ensures matches == Lookahead(pattern, old(index), m)
      ensures index == if matches then old(index) + |m| else old(index)
    {
      matches := Lookahead(pattern, index, m);
      if matches {
        Advance(|m|);
      }
    }

    /* lexer */

    method GetNext() returns (r: Result<Token>)
      requires Valid() && index < |pattern|
      modifies this`index, this`nGroups
      ensures Valid()
      ensures Completes(NextSpec(Context(), old(index), old(nGroups), lastToken), r, index)
      ensures nGroups == if r.Ok? then GroupsAfter(old(nGroups), r.value) else old(nGroups)
    {
      var c := ConsumeChar();
      if c == '.' as int {
        return Ok(ClassToken(Context(), if flags.dotAll then tables.constants.dotAll else tables.constants.dot));
      } else if c == '^' as int {
        return Ok(Caret);
      } else if c == '$' as int {
        return Ok(Dollar);
      } else if c == '{' as int || c == '*' as int || c == '+' as int || c == '?' as int {
        r := ParseQuantifier(c);
      } else if c == '}' as int {
        if flags.unicode {
          return Err(UnmatchedRightBrace);
        }
        return Ok(ClassToken(Context(), {c as int}));
      } else if c == '|' as int {
        return Ok(Alternation);
      } else if c == '(' as int {
        var t := ParseGroupBegin();
        return Ok(t);
      } else if c == ')' as int {
        return Ok(GroupEnd);
      } else if c == '[' as int {
        r := ParseCharClass();
      } else if c == ']' as int {
        if flags.unicode {
          return Err(UnmatchedRightBracket);
        }
        return Ok(ClassToken(Context(), {c as int}));
      } else if c == '\\' as int {
        r := ParseEscape();
      } else if flags.unicode && IsHighSurrogate(c) {
        var cp := FinishSurrogatePair(c);
        return Ok(ClassToken(Context(), {cp}));
      } else {
        return Ok(ClassToken(Context(), {c as int}));
      }
    }

    method ParseEscape() returns (r: Result<Token>)
      requires Valid() && 1 <= index
      modifies this`index
      ensures Valid()
      ensures Completes(EscapeSpec(Context(), old(index), nGroups), r, index)
    {
      if AtEnd() {
        return Err(EndsWithUnfinishedEscapeSequence);
      }
      var c := ConsumeChar();
      var backReference := ParseBackReference(c);
      if backReference.Some? {
        return Ok(backReference.value);
      }
      r := ParseEscapeAtom(c);
    }

    /**
     * The back-reference test of parseEscape (`c` has just been consumed): the
     * token when accepted, otherwise nothing, with the cursor restored.
     */
    method ParseBackReference(c: int) returns (t: Option<Token>)
      requires Valid()
      modifies this`index
      ensures Valid()
      ensures if IsBackReferenceDigit(c) && BackReferenceAccepted(pattern, old(index), c, nGroups)
              then (t, index) == (Some(BackReference(DecimalFrom(pattern, old(index), c - '0' as int).0)),
                                  DecimalFrom(pattern, old(index), c - '0' as int).1)
              else t == None && index == old(index)
    {
      if '1' as int <= c <= '9' as int {
        var restoreIndex := index;
        var backRefNumber := ParseDecimalFrom(c - '0' as int);
        if backRefNumber < nGroups || FindCharAhead(pattern, index, '(' as int) {
          return Some(BackReference(backRefNumber));
        }
        index := restoreIndex;
      }
      return None;
    }

    /** The `switch` of parseEscape, once `c` is known not to start a back-reference. */
    method ParseEscapeAtom(c: int) returns (r: Result<Token>)
      requires Valid() && 1 <= index
      modifies this`index
      ensures Valid()
      ensures Completes(EscapeAtomSpec(Context(), c, old(index)), r, index)
    {
      if c == 'b' as int {
        return Ok(WordBoundary);
      } else if c == 'B' as int {
        return Ok(NonWordBoundary);
      } else if IsPredefCharClass(c) {
        // the predefined sets are already folded: no charClass step
        return Ok(CharClass(PredefCharClass(Context(), c)));
      } else if flags.unicode && (c == 'p' as int || c == 'P' as int) {
        var s :- ParseUnicodeCharacterProperty(c == 'P' as int);
        return Ok(ClassToken(Context(), s));
      } else {
        var v :- ParseEscapeChar(c, false);
        return Ok(ClassToken(Context(), {v}));
      }
    }

    method ParseGroupBegin() returns (t: Token)
      requires Valid()
      modifies this`index, this`nGroups
      ensures Valid()
      ensures (t, index) == GroupBeginSpec(pattern, old(index))
      ensures nGroups == GroupsAfter(old(nGroups), t)
    {
      var m := ConsumingLookahead(['?' as int, '=' as int]);
      if m {
        return LookAheadAssertionBegin;
      }
      m := ConsumingLookahead(['?' as int, '!' as int]);
      if m {
        return NegativeLookAheadAssertionBegin;
      }
      m := ConsumingLookahead(['?' as int, '<' as int, '=' as int]);
      if m {
        return LookBehindAssertionBegin;
      }
      m := ConsumingLookahead(['?' as int, ':' as int]);
      if m {
        return NonCaptureGroupBegin;
      }
      nGroups := nGroups + 1;
      return CaptureGroupBegin;
    }

    method ParseQuantifier(c: int) returns (r: Result<Token>)
      requires Valid()
      modifies this`index
      ensures Valid()
      ensures Completes(QuantifierSpec(Context(), c, old(index), lastToken), r, index)
    {
      var min: int;
      var max := -1;
      if c == '{' as int {
        var resetIndex := index;
        min := ParseDecimal();
        if min < 0 {
          r := CountedRepetitionSyntaxError(resetIndex);
          return;
        }
        var bound := ParseRepetitionMax(min);
        if bound.None? {
          r := CountedRepetitionSyntaxError(resetIndex);
          return;
        }
        max := bound.value;
      } else {
        min := if c == '+' as int then 1 else 0;
        if c == '?' as int {
          max := 1;
        }
      }
      var lazy := ConsumingLookahead(['?' as int]);
      r := CheckQuantifierTarget(Quantifier(min, max, !lazy));
    }

    /** The part of parseQuantifier after the minimum of a braced quantifier, up to the `}`. */
    method ParseRepetitionMax(min: int) returns (max: Option<int>)
      requires Valid()
      modifies this`index
      ensures Valid()
      ensures match RepetitionMax(pattern, old(index), min)
              case None => max.None?
              case Some((m, k)) => max == Some(m) && index == k
    {
      var m := ConsumingLookahead([',' as int, '}' as int]);
      if m {
        return Some(-1);
      }
      m := ConsumingLookahead(['}' as int]);
      if m {
        return Some(min);
      }
      m := ConsumingLookahead([',' as int]);
      if !m {
        return None;
      }
      var v := ParseDecimal();
      if v < 0 {
        return None;
      }
      m := ConsumingLookahead(['}' as int]);
      if !m {
        return None;
      }
      return Some(v);
    }

    /** The end of parseQuantifier: the previous token must be a quantifier target. */
    method CheckQuantifierTarget(q: Token) returns (r: Result<Token>)
      ensures Completes(TargetCheck(lastToken, q, index), r, index)
    {
      if lastToken.None? {
        return Err(QuantifierWithoutTarget);
      }
      if lastToken.value.Quantifier? {
        return Err(QuantifierOnQuantifier);
      }
      if !Quantifiable(lastToken.value) {
        return Err(QuantifierWithoutTarget);
      }
      return Ok(q);
    }

    method CountedRepetitionSyntaxError(resetIndex: nat) returns (r: Result<Token>)
      requires Valid() && resetIndex <= |pattern|
      modifies this`index
      ensures Valid()
      ensures Completes(CountedRepetitionError(Context(), resetIndex), r, index)
    {
      if flags.unicode {
        return Err(IncompleteQuantifier);
      }
      index := resetIndex;
      return Ok(ClassToken(Context(), {'{' as int}));
    }

    method ParseCharClass() returns (r: Result<Token>)
      requires Valid()
      modifies this`index
      ensures Valid()
      ensures Completes(CharClassSpec(Context(), old(index)), r, index)
    {
      var invert := ConsumingLookahead(['^' as int]);
      var s :- ParseClassBody();
      return Ok(CharClass(ClassSet(Context(), s, invert)));
    }

    /** The loop of parseCharClass: atoms up to the closing `]`. */
    method ParseClassBody() returns (r: Result<set<int>>)
      requires Valid()
      modifies this`index
      ensures Valid()
      ensures Completes(ClassBodySpec(Context(), old(index), {}), r, index)
    {
      var curCharClass: set<int> := {};
      while !AtEnd()
        invariant Valid()
        invariant ClassBodySpec(Context(), index, curCharClass) == ClassBodySpec(Context(), old(index), {})
        decreases |pattern| - index
      {
        var c := ConsumeChar();
        if c == ']' as int {
          return Ok(curCharClass);
        }
        curCharClass :- ParseCharClassAtom(c, curCharClass);
      }
      return Err(UnmatchedLeftBracket);
    }

    method ParseCharClassAtom(c: int, curCharClass: set<int>) returns (r: Result<set<int>>)
      requires Valid() && 1 <= index
      modifies this`index
      ensures Valid()
      ensures Completes(ClassAtomSpec(Context(), c, old(index), curCharClass), r, index)
    {
      if c == '\\' as int {
        r := ParseClassEscapeAtom(curCharClass);
        return;
      }
      var curChar: int;
      if flags.unicode && IsHighSurrogate(c) {
        curChar := FinishSurrogatePair(c);
      } else {
        curChar := c;
      }
      r := ParseClassRange(curChar, curCharClass);
    }

    /** The backslash case of parseCharClassAtom. */
    method ParseClassEscapeAtom(curCharClass: set<int>) returns (r: Result<set<int>>)
      requires Valid()
      modifies this`index
      ensures Valid()
      ensures Completes(ClassEscapeAtomSpec(Context(), old(index), curCharClass), r, index)
    {
      if AtEnd() {
        return Err(EndsWithUnfinishedEscapeSequence);
      }
      if IsEscapeCharClass(flags.unicode, CurChar()) {
        var cc := ConsumeChar();
        var s :- ParseEscapeCharClass(cc);
        // a class escape left of a hyphen is tolerated only by Annex B
        if flags.unicode && Lookahead(pattern, index, ['-' as int]) && !Lookahead(pattern, index, ['-' as int, ']' as int]) {
          return Err(InvalidCharacterClass);
        }
        return Ok(curCharClass + s);
      }
      var e := ConsumeChar();
      var curChar :- ParseEscapeChar(e, true);
      r := ParseClassRange(curChar, curCharClass);
    }

    /** The part of parseCharClassAtom after the first code point: an optional `-` and upper end. */
    method ParseClassRange(curChar: int, curCharClass: set<int>) returns (r: Result<set<int>>)
      requires Valid()
      modifies this`index
      ensures Valid()
      ensures Completes(ClassRangeSpec(Context(), curChar, old(index), curCharClass), r, index)
    {
      var dash := ConsumingLookahead(['-' as int]);
      if !dash {
        return Ok(curCharClass + {curChar});
      }
      if AtEnd() || Lookahead(pattern, index, [']' as int]) {
        return Ok(curCharClass + {curChar, '-' as int});
      }
      var nextChar: int;
      var backslash := ConsumingLookahead(['\\' as int]);
      if backslash {
        if AtEnd() {
          return Err(EndsWithUnfinishedEscapeSequence);
        }
        if IsEscapeCharClass(flags.unicode, CurChar()) {
          if flags.unicode {
            return Err(InvalidCharacterClass);
          }
          // without the u flag the class escape is one of the predefined classes
          var cc := ConsumeChar();
          return Ok(curCharClass + {curChar, '-' as int} + PredefCharClass(Context(), cc));
        }
        var e := ConsumeChar();
        nextChar :- ParseEscapeChar(e, true);
      } else {
        var nextCodeUnit := ConsumeChar();
        if flags.unicode && IsHighSurrogate(nextCodeUnit) {
          nextChar := FinishSurrogatePair(nextCodeUnit);
        } else {
          nextChar := nextCodeUnit;
        }
      }
      if nextChar < curChar {
        return Err(CharClassRangeOutOfOrder);
      }
      return Ok(curCharClass + Range(curChar, nextChar));
    }

    method ParseEscapeCharClass(c: int) returns (r: Result<set<int>>)
      requires Valid() && IsEscapeCharClass(flags.unicode, c)
      modifies this`index
      ensures Valid()
      ensures Completes(EscapeCharClassSpec(Context(), c, old(index)), r, index)
    {
      if IsPredefCharClass(c) {
        return Ok(PredefCharClass(Context(), c));
      }
      r := ParseUnicodeCharacterProperty(c == 'P' as int);
    }

    method ParseUnicodeCharacterProperty(invert: bool) returns (r: Result<set<int>>)
      requires Valid()
      modifies this`index
      ensures Valid()
      ensures Completes(UnicodePropertySpec(Context(), old(index), invert), r, index)
    {
      var open := ConsumingLookahead(['{' as int]);
      if !open {
        return Err(InvalidUnicodeProperty);
      }
      var name: seq<CodeUnit> := [];
      ghost var start := index;
      while !AtEnd() && CurChar() != '}' as int
        invariant start <= index <= |pattern|
        invariant name == pattern[start..index]
        invariant PropertyNameEnd(pattern, index) == PropertyNameEnd(pattern, start)
        decreases |pattern| - index
      {
        var ch := ConsumeChar();
        name := name + [ch];
      }
      var close := ConsumingLookahead(['}' as int]);
      if !close {
        return Err(EndsWithUnfinishedUnicodeProperty);
      }
      if name !in tables.properties {
        return Err(PropertyLookupFailed(name));
      }
      var s := tables.properties[name];
      return Ok(if invert then Complement(s) else s);
    }

    method ParseEscapeChar(c: int, inCharClass: bool) returns (r: Result<int>)
      requires Valid() && 1 <= index
      modifies this`index
      ensures Valid()
      ensures Completes(EscapeCharSpec(Context(), c, old(index), inCharClass), r, index)
    {
      if inCharClass && c == 'b' as int {
        return Ok(8);
      }
      if c == '0' as int {
        r := ParseZeroEscape();
      } else if c == 't' as int {
        return Ok(9);
      } else if c == 'n' as int {
        return Ok(10);
      } else if c == 'v' as int {
        return Ok(11);
      } else if c == 'f' as int {
        return Ok(12);
      } else if c == 'r' as int {
        return Ok(13);
      } else if c == 'c' as int {
        r := ParseControlEscape(inCharClass);
      } else if c == 'u' as int {
        r := ParseUnicodeEscape();
      } else if c == 'x' as int {
        var value :- ParseHex(2, 2, 0xFF, InvalidEscape);
        return Ok(if value < 0 then c else value);
      } else if c == '-' as int {
        if !inCharClass {
          r := EscapeCharSyntaxError(c, InvalidEscape);
          return;
        }
        return Ok(c);
      } else {
        if !flags.unicode && IsOctal(c) {
          var v := ParseOctal(c - '0' as int);
          return Ok(v);
        }
        if !IsSyntaxChar(c) {
          r := EscapeCharSyntaxError(c, InvalidEscape);
          return;
        }
        return Ok(c);
      }
    }

    /** The `'0'` case of parseEscapeChar, with the end-of-pattern test added (see README, Findings). */
    method ParseZeroEscape() returns (r: Result<int>)
      requires Valid()
      modifies this`index
      ensures Valid()
      ensures Completes(ZeroEscape(Context(), old(index)), r, index)
    {
      if flags.unicode && !AtEnd() && IsDecimal(CurChar()) {
        return Err(InvalidEscape);
      }
      if !flags.unicode && !AtEnd() && IsOctal(CurChar()) {
        var v := ParseOctal(0);
        return Ok(v);
      }
      return Ok(0);
    }

    /** The `'c'` case of parseEscapeChar: a control letter, or a retreat to the backslash. */
    method ParseControlEscape(inCharClass: bool) returns (r: Result<int>)
      requires Valid() && 1 <= index
      modifies this`index
      ensures Valid()
      ensures Completes(ControlEscape(Context(), old(index), inCharClass), r, index)
    {
      if AtEnd() {
        Advance(-1);
        r := EscapeCharSyntaxError('\\' as int, InvalidControlCharEscape);
        return;
      }
      var controlLetter := CurChar();
      if !flags.unicode && (IsDecimal(controlLetter) || controlLetter == '_' as int) && inCharClass {
        Advance(1);
        return Ok(controlLetter % 32);
      }
      if !IsAsciiLetter(controlLetter) {
        Advance(-1);
        r := EscapeCharSyntaxError('\\' as int, InvalidControlCharEscape);
        return;
      }
      Advance(1);
      return Ok(AsciiUpper(controlLetter) - ('A' as int - 1));
    }

    /** The `'u'` case of parseEscapeChar. */
    method ParseUnicodeEscape() returns (r: Result<int>)
      requires Valid()
      modifies this`index
      ensures Valid()
      ensures Completes(UnicodeEscape(Context(), old(index)), r, index)
    {
      var braced := false;
      if flags.unicode {
        braced := ConsumingLookahead(['{' as int]);
      }
      if braced {
        var value :- ParseHex(1, IntMax, MaxCodePoint, InvalidUnicodeEscape);
        var close := ConsumingLookahead(['}' as int]);
        if !close {
          return Err(InvalidUnicodeEscape);
        }
        return Ok(value);
      }
      var value :- ParseHex(4, 4, 0xFFFF, InvalidUnicodeEscape);
      if flags.unicode && IsHighSurrogate(value) {
        r := ParseSurrogateEscapeTail(value);
        return;
      }
      return Ok(if value < 0 then 'u' as int else value);
    }

    /** A `\uXXXX` lead surrogate in Unicode mode joins a directly following `\uXXXX` trail surrogate. */
    method ParseSurrogateEscapeTail(lead: int) returns (r: Result<int>)
      requires Valid() && IsHighSurrogate(lead)
      modifies this`index
      ensures Valid()
      ensures Completes(SurrogateEscapeTail(Context(), lead, old(index)), r, index)
    {
      var resetIndex := index;
      var escapeU := ConsumingLookahead(['\\' as int, 'u' as int]);
      if escapeU && !Lookahead(pattern, index, ['{' as int]) {
        var trail :- ParseHex(4, 4, 0xFFFF, InvalidUnicodeEscape);
        if IsLowSurrogate(trail) {
          return Ok(ToCodePoint(lead, trail));
        }
      }
      index := resetIndex;
      return Ok(lead);
    }

    method FinishSurrogatePair(c: int) returns (cp: int)
      requires Valid() && flags.unicode && IsHighSurrogate(c)
      modifies this`index
      ensures Valid()
      ensures (cp, index) == FinishSurrogatePairSpec(pattern, old(index), c)
    {
      if !AtEnd() && IsLowSurrogate(CurChar()) {
        var lead := c;
        var trail := ConsumeChar();
        return ToCodePoint(lead, trail);
      }
      return c;
    }

    method EscapeCharSyntaxError(c: int, msg: ErrorMessage) returns (r: Result<int>)
      ensures Completes(EscapeCharSyntaxErrorSpec(Context(), c, msg, index), r, index)
    {
      if flags.unicode {
        return Err(msg);
      }
      return Ok(c);
    }

    method ParseDecimal() returns (v: int)
      requires Valid()
      modifies this`index
      ensures Valid()
      ensures (v, index) == ParseDecimalSpec(pattern, old(index))
    {
      if AtEnd() || !IsDecimal(CurChar()) {
        return -1;
      }
      v := ParseDecimalFrom(0);
    }

    /** parseDecimal(firstDigit). */
    method ParseDecimalFrom(firstDigit: int) returns (v: int)
      requires Valid()
      modifies this`index
      ensures Valid()
      ensures (v, index) == DecimalFrom(pattern, old(index), firstDigit)
    {
      var ret := firstDigit;
      while !AtEnd() && IsDecimal(CurChar())
        invariant Valid()
        invariant DecimalFrom(pattern, index, ret) == DecimalFrom(pattern, old(index), firstDigit)
        decreases |pattern| - index
      {
        ret := ret * 10;
        var d := ConsumeChar();
        ret := ret + (d - '0' as int);
      }
      return ret;
    }

    method ParseOctal(firstDigit: int) returns (v: int)
      requires Valid()
      modifies this`index
      ensures Valid()
      ensures (v, index) == ParseOctalSpec(pattern, old(index), firstDigit)
    {
      var ret := firstDigit;
      var i := 0;
      while !AtEnd() && IsOctal(CurChar()) && i < 2
        invariant Valid() && 0 <= i <= 2
        invariant OctalFrom(pattern, index, ret, i) == OctalFrom(pattern, old(index), firstDigit, 0)
        decreases 2 - i
      {
        if ret * 8 > 255 {
          return ret;
        }
        ret := ret * 8;
        var d := ConsumeChar();
        ret := ret + (d - '0' as int);
        i := i + 1;
      }
      return ret;
    }

    method ParseHex(minDigits: int, maxDigits: int, maxValue: int, msg: ErrorMessage) returns (r: Result<int>)
      requires Valid()
      modifies this`index
      ensures Valid()
      ensures Completes(ParseHexSpec(Context(), old(index), minDigits, maxDigits, maxValue, msg), r, index)
    {
      var ret := 0;
      var initialIndex := index;
      var i := 0;
      while i < maxDigits
        invariant Valid() && initialIndex <= index && 0 <= i
        invariant HexFrom(Context(), index, ret, i, minDigits, maxDigits, maxValue, msg, initialIndex)
               == ParseHexSpec(Context(), initialIndex, minDigits, maxDigits, maxValue, msg)
        decreases maxDigits - i
      {
        if AtEnd() || !IsHex(CurChar()) {
          if i < minDigits {
            if flags.unicode {
              return Err(msg);
            }
            index := initialIndex;
            return Ok(-1);
          }
          break;
        }
        var c := ConsumeChar();
        ret := ret * 16 + HexDigitValue(c);
        if ret > maxValue {
          return Err(msg);
        }
        i := i + 1;
      }
      return Ok(ret);
    }
  }
}
