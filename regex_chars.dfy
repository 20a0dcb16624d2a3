/**
 * The lexer's pure character predicates and read-only pattern-buffer
 * primitives (lookahead, forward search), shared by the specification
 * functions and the imperative lexer.
 */
module RegexChars {
  import opened CodeUnits

  predicate IsDecimal(c: int) { '0' as int <= c <= '9' as int }

  predicate IsOctal(c: int) { '0' as int <= c <= '7' as int }

  predicate IsHex(c: int) {
    '0' as int <= c <= '9' as int || 'a' as int <= c <= 'f' as int || 'A' as int <= c <= 'F' as int
  }

  /** The digit value parseHex adds for one hexadecimal code unit. */
  function HexDigitValue(c: int): (d: int)
    requires IsHex(c)
    ensures 0 <= d < 16
  {
    if c >= 'a' as int then c - ('a' as int - 10)
    else if c >= 'A' as int then c - ('A' as int - 10)
    else c - '0' as int
  }

  /** The six predefined class letters s, S, d, D, w, W. */
  predicate IsPredefCharClass(c: int) {
    c == 's' as int || c == 'S' as int || c == 'd' as int ||
    c == 'D' as int || c == 'w' as int || c == 'W' as int
  }

  /** SYNTAX_CHARS: the characters an identity escape may name in Unicode mode. */
  predicate IsSyntaxChar(c: int) {
    c == '^' as int || c == '$' as int || c == '/' as int || c == '\\' as int ||
    c == '.' as int || c == '*' as int || c == '+' as int || c == '?' as int ||
    c == '(' as int || c == ')' as int || c == '[' as int || c == ']' as int ||
    c == '{' as int || c == '}' as int || c == '|' as int
  }

  /** isEscapeCharClass: an escape letter that denotes a set rather than one code point. */
  predicate IsEscapeCharClass(unicode: bool, c: int) {
    IsPredefCharClass(c) || (unicode && (c == 'p' as int || c == 'P' as int))
  }

  /** lookahead: the pattern continues at `i` with `m` (a bounds-checked region match). */
  predicate Lookahead(p: seq<CodeUnit>, i: nat, m: seq<int>)
    requires i <= |p|
  {
    |p| - i >= |m| && p[i..i + |m|] == m
  }

  /** lookaheadFindChar: `c` occurs somewhere at or after `i`. */
  predicate FindCharAhead(p: seq<CodeUnit>, i: nat, c: int)
    requires i <= |p|
  {
    c in p[i..]
  }

  lemma LookaheadOne(p: seq<CodeUnit>, i: nat, a: int)
    requires i <= |p|
    ensures Lookahead(p, i, [a]) <==> i < |p| && p[i] == a
  {
    if i < |p| && p[i] == a {
      assert p[i..i + 1] == [a];
    }
  }

  lemma LookaheadTwo(p: seq<CodeUnit>, i: nat, a: int, b: int)
    requires i <= |p|
    ensures Lookahead(p, i, [a, b]) <==> i + 1 < |p| && p[i] == a && p[i + 1] == b
  {
    if i + 1 < |p| && p[i] == a && p[i + 1] == b {
      assert p[i..i + 2] == [a, b];
    }
  }
}
