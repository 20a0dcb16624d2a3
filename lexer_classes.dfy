/**
 * Character classes: ranges and their order check, a trailing `-`, the
 * closing `]` and the unmatched `[`, and the order in which case folding
 * and inversion are applied to the accumulated set.
 */
module ClassProperties {
  import opened CodeUnits
  import opened RegexTypes
  import opened RegexChars
  import opened LexerSpec

  /** A class atom that stands for itself: no escape, and no surrogate pair to join in Unicode mode. */
  predicate PlainAtom(ctx: Ctx, c: int) {
    c != '\\' as int && !(ctx.flags.unicode && IsHighSurrogate(c))
  }

  /** A plain atom that also neither closes the class nor starts a range. */
  predicate PlainMember(ctx: Ctx, c: int) {
    PlainAtom(ctx, c) && c != ']' as int && c != '-' as int
  }

  /** The code units of p[i..j] as a set. */
  function UnitsIn(p: seq<CodeUnit>, i: nat, j: nat): (s: set<int>)
    requires i <= j <= |p|
    ensures forall x :: x in s <==> exists k | i <= k < j :: p[k] == x
  {
    set k | i <= k < j :: p[k]
  }

  /** An atom not followed by `-` is added on its own. */
  lemma SingleAtom(ctx: Ctx, x: int, i: nat, acc: set<int>)
    requires 1 <= i <= |ctx.pattern| && PlainAtom(ctx, x)
    requires !(i < |ctx.pattern| && ctx.pattern[i] == '-' as int)
    ensures ClassAtomSpec(ctx, x, i, acc) == Scanned(acc + {x}, i)
  {
    LookaheadOne(ctx.pattern, i, '-' as int);
  }

  /**
   * `x-y` with two plain ends: the range x..y, or CharClassRangeOutOfOrder
   * exactly when y is below x.
   */
  lemma RangeAtom(ctx: Ctx, x: int, i: nat, acc: set<int>)
    requires 1 <= i && i + 1 < |ctx.pattern| && PlainAtom(ctx, x)
    requires ctx.pattern[i] == '-' as int
    requires PlainAtom(ctx, ctx.pattern[i + 1]) && ctx.pattern[i + 1] != ']' as int
    ensures var y := ctx.pattern[i + 1];
      ClassAtomSpec(ctx, x, i, acc) ==
        if y < x then Failed(CharClassRangeOutOfOrder) else Scanned(acc + Range(x, y), i + 2)
  {
    LookaheadOne(ctx.pattern, i, '-' as int);
    LookaheadOne(ctx.pattern, i + 1, ']' as int);
    LookaheadOne(ctx.pattern, i + 1, '\\' as int);
  }

  /** A range is rejected exactly when it is out of order; an accepted one adds every code point between its ends. */
  lemma RangeAtomMembers(ctx: Ctx, x: int, i: nat, acc: set<int>)
    requires 1 <= i && i + 1 < |ctx.pattern| && PlainAtom(ctx, x)
    requires ctx.pattern[i] == '-' as int
    requires PlainAtom(ctx, ctx.pattern[i + 1]) && ctx.pattern[i + 1] != ']' as int
    ensures var y := ctx.pattern[i + 1];
      var r := ClassAtomSpec(ctx, x, i, acc);
      && (r.Failed? <==> y < x)
      && (r.Scanned? ==> forall z :: z in r.value <==> z in acc || x <= z <= y)
  {
    RangeAtom(ctx, x, i, acc);
  }

  /** `x-` directly before `]` or at the end of the pattern adds both x and `-`. */
  lemma TrailingDash(ctx: Ctx, x: int, i: nat, acc: set<int>)
    requires 1 <= i < |ctx.pattern| && PlainAtom(ctx, x)
    requires ctx.pattern[i] == '-' as int
    requires i + 1 == |ctx.pattern| || ctx.pattern[i + 1] == ']' as int
    ensures ClassAtomSpec(ctx, x, i, acc) == Scanned(acc + {x, '-' as int}, i + 1)
  {
    LookaheadOne(ctx.pattern, i, '-' as int);
    if i + 1 < |ctx.pattern| {
      LookaheadOne(ctx.pattern, i + 1, ']' as int);
    }
  }

  /**
   * A class body that completes has just consumed a `]`; so a class with no
   * `]` at or after the cursor never completes.
   */
  lemma {:induction false} ClassBodyClosed(ctx: Ctx, i: nat, acc: set<int>)
    requires i <= |ctx.pattern| && ClassBodySpec(ctx, i, acc).Scanned?
    ensures var r := ClassBodySpec(ctx, i, acc);
      i < r.next && ctx.pattern[r.next - 1] == ']' as int && ']' as int in ctx.pattern[i..]
    decreases |ctx.pattern| - i
  {
    var p := ctx.pattern;
    var r := ClassBodySpec(ctx, i, acc);
    if p[i] != ']' as int {
      var a := ClassAtomSpec(ctx, p[i], i + 1, acc);
      ClassBodyClosed(ctx, a.next, a.value);
    }
    assert p[i..][r.next - 1 - i] == p[r.next - 1];
  }

  /** A class of plain members that the pattern ends in fails with UnmatchedLeftBracket. */
  lemma {:induction false} UnmatchedLeftBracket(ctx: Ctx, i: nat, acc: set<int>)
    requires i <= |ctx.pattern|
    requires forall k | i <= k < |ctx.pattern| :: PlainMember(ctx, ctx.pattern[k])
    ensures ClassBodySpec(ctx, i, acc) == Failed(RegexTypes.UnmatchedLeftBracket)
    decreases |ctx.pattern| - i
  {
    var p := ctx.pattern;
    if i < |p| {
      SingleAtom(ctx, p[i], i + 1, acc);
      UnmatchedLeftBracket(ctx, i + 1, acc + {p[i]});
    }
  }

  /** Plain members up to a `]` at j: the class holds exactly those code units, and the cursor ends after `]`. */
  lemma {:induction false} PlainClassBody(ctx: Ctx, i: nat, j: nat, acc: set<int>)
    requires i <= j < |ctx.pattern| && ctx.pattern[j] == ']' as int
    requires forall k | i <= k < j :: PlainMember(ctx, ctx.pattern[k])
    ensures ClassBodySpec(ctx, i, acc) == Scanned(acc + UnitsIn(ctx.pattern, i, j), j + 1)
    decreases j - i
  {
    var p := ctx.pattern;
    if i < j {
      SingleAtom(ctx, p[i], i + 1, acc);
      PlainClassBody(ctx, i + 1, j, acc + {p[i]});
      assert acc + {p[i]} + UnitsIn(p, i + 1, j) == acc + UnitsIn(p, i, j);
    } else {
      assert acc + UnitsIn(p, i, j) == acc;
    }
  }

  /**
   * parseCharClass over plain members: the token's set is the members, case
   * folded under the `i` flag, and then complemented when the class opens
   * with `^` (folding first, so `[^a]` under `i` excludes `A` too).
   */
  lemma PlainClass(ctx: Ctx, i: nat, j: nat)
    requires i <= j < |ctx.pattern| && ctx.pattern[j] == ']' as int
    requires var start := if ctx.pattern[i] == '^' as int then i + 1 else i;
      start <= j && forall k | start <= k < j :: PlainMember(ctx, ctx.pattern[k])
    ensures var invert := ctx.pattern[i] == '^' as int;
      var start := if invert then i + 1 else i;
      var members := UnitsIn(ctx.pattern, start, j);
      var folded := if ctx.flags.ignoreCase then ctx.tables.caseFold(members, ctx.flags.unicode) else members;
      var r := CharClassSpec(ctx, i);
      && r == Scanned(CharClass(ClassSet(ctx, members, invert)), j + 1)
      && (forall x :: x in r.value.codePoints <==>
            if invert then 0 <= x <= MaxCodePoint && x !in folded else x in folded)
  {
    LookaheadOne(ctx.pattern, i, '^' as int);
    var start := if ctx.pattern[i] == '^' as int then i + 1 else i;
    PlainClassBody(ctx, start, j, {});
    assert {} + UnitsIn(ctx.pattern, start, j) == UnitsIn(ctx.pattern, start, j);
  }

  /**
   * A predefined class escape (`\d`, `\w`, ...) followed by `-` inside a class
   * (`i` is the cursor on the class letter): in Unicode mode it cannot start a
   * range and is InvalidCharacterClass unless the `-` is the last member
   * before `]`; in legacy mode the set is added and the `-` is left for the
   * next atom.
   */
  lemma PredefClassBeforeDash(ctx: Ctx, i: nat, acc: set<int>)
    requires i + 1 < |ctx.pattern| && IsPredefCharClass(ctx.pattern[i]) && ctx.pattern[i + 1] == '-' as int
    ensures ClassEscapeAtomSpec(ctx, i, acc) ==
      if ctx.flags.unicode && !(i + 2 < |ctx.pattern| && ctx.pattern[i + 2] == ']' as int) then
        Failed(InvalidCharacterClass)
      else Scanned(acc + PredefCharClass(ctx, ctx.pattern[i]), i + 1)
  {
    LookaheadOne(ctx.pattern, i + 1, '-' as int);
    LookaheadTwo(ctx.pattern, i + 1, '-' as int, ']' as int);
  }

  /**
   * The whole of `\d-x]` after `[` (`b` is the cursor on the backslash, x a
   * plain member): Unicode mode rejects it; legacy mode reads the predefined
   * set, then `-` and x as two single members.
   */
  lemma PredefClassDashMember(ctx: Ctx, b: nat, acc: set<int>)
    requires b + 4 < |ctx.pattern| && ctx.pattern[b] == '\\' as int
    requires IsPredefCharClass(ctx.pattern[b + 1]) && ctx.pattern[b + 2] == '-' as int
    requires PlainMember(ctx, ctx.pattern[b + 3]) && ctx.pattern[b + 4] == ']' as int
    ensures ClassBodySpec(ctx, b, acc) ==
      if ctx.flags.unicode then Failed(InvalidCharacterClass)
      else Scanned(acc + PredefCharClass(ctx, ctx.pattern[b + 1]) + {'-' as int, ctx.pattern[b + 3]}, b + 5)
  {
    var p := ctx.pattern;
    PredefClassBeforeDash(ctx, b + 1, acc);
    assert ClassAtomSpec(ctx, p[b], b + 1, acc) == ClassEscapeAtomSpec(ctx, b + 1, acc);
    if ctx.flags.unicode {
      assert p[b + 3] != ']' as int;
      assert ClassEscapeAtomSpec(ctx, b + 1, acc) == Failed(InvalidCharacterClass);
    } else {
      var s := acc + PredefCharClass(ctx, p[b + 1]);
      SingleAtom(ctx, '-' as int, b + 3, s);
      SingleAtom(ctx, p[b + 3], b + 4, s + {'-' as int});
      var s' := s + {'-' as int};
      assert ClassBodySpec(ctx, b + 4, s' + {p[b + 3]}) == Scanned(s' + {p[b + 3]}, b + 5);
      assert ClassBodySpec(ctx, b + 3, s') == ClassBodySpec(ctx, b + 4, s' + {p[b + 3]});
      assert ClassBodySpec(ctx, b + 2, s) == ClassBodySpec(ctx, b + 3, s');
      assert ClassBodySpec(ctx, b, acc) == ClassBodySpec(ctx, b + 2, s);
      assert s + {'-' as int} + {p[b + 3]} == s + {'-' as int, p[b + 3]};
    }
  }

  /**
   * `\p{name}` and `\P{name}` in Unicode mode (`i` is the cursor on the `{`,
   * `e` on the first `}`): the named property set, or its complement for
   * `\P`, with the cursor after the `}`; a name the table lacks fails the
   * lookup.
   */
  lemma PropertyEscape(ctx: Ctx, c: int, i: nat, e: nat)
    requires ctx.flags.unicode && (c == 'p' as int || c == 'P' as int)
    requires i < e < |ctx.pattern| && ctx.pattern[i] == '{' as int && ctx.pattern[e] == '}' as int
    requires forall k | i < k < e :: ctx.pattern[k] != '}' as int
    ensures var name := ctx.pattern[i + 1..e];
      var props := ctx.tables.properties;
      var r := EscapeCharClassSpec(ctx, c, i);
      && (name !in props ==> r == Failed(PropertyLookupFailed(name)))
      && (name in props ==>
            && r == Scanned(if c == 'P' as int then Complement(props[name]) else props[name], e + 1)
            && forall x :: x in r.value <==>
                 if c == 'P' as int then 0 <= x <= MaxCodePoint && x !in props[name] else x in props[name])
  {
    var p := ctx.pattern;
    LookaheadOne(p, i, '{' as int);
    LookaheadOne(p, e, '}' as int);
  }

  /**
   * The two syntax errors of a property escape: InvalidUnicodeProperty exactly
   * when no `{` follows, and, after a `{`, EndsWithUnfinishedUnicodeProperty
   * exactly when no `}` follows it.
   */
  lemma PropertyEscapeErrors(ctx: Ctx, i: nat, invert: bool)
    requires i <= |ctx.pattern|
    ensures var r := UnicodePropertySpec(ctx, i, invert);
      && (r == Failed(InvalidUnicodeProperty) <==> !(i < |ctx.pattern| && ctx.pattern[i] == '{' as int))
      && (i < |ctx.pattern| && ctx.pattern[i] == '{' as int ==>
            (r == Failed(EndsWithUnfinishedUnicodeProperty) <==> forall k | i < k < |ctx.pattern| :: ctx.pattern[k] != '}' as int))
  {
    var p := ctx.pattern;
    LookaheadOne(p, i, '{' as int);
    if i < |p| && p[i] == '{' as int {
      var e := PropertyNameEnd(p, i + 1);
      LookaheadOne(p, e, '}' as int);
      if e < |p| {
        assert !(forall k | i < k < |p| :: p[k] != '}' as int) by { assert p[e] == '}' as int; }
      }
    }
  }
}
