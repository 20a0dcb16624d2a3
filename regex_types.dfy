/**
 * The values the regular-expression lexer consumes and produces: flags and
 * options, the collaborators it calls (code-point sets, the case-fold table,
 * the Unicode property table, the predefined class constants), tokens and
 * syntax-error message keys.
 */
module RegexTypes {
  import opened CodeUnits
  import opened Wrappers

  /** RegexFlags as far as the lexer reads them: the `u`, `i` and `s` flags. */
  datatype Flags = Flags(unicode: bool, ignoreCase: bool, dotAll: bool)

  /** RegexOptions: whether U+180E still counts as white space (pre-Unicode-6.3 behaviour). */
  datatype Options = Options(u180eWhitespace: bool)

  /** The precomputed code-point sets of the Constants class, taken as given. */
  datatype Constants = Constants(
    dot: set<int>,
    dotAll: set<int>,
    digits: set<int>,
    nonDigits: set<int>,
    whiteSpace: set<int>,
    nonWhiteSpace: set<int>,
    legacyWhiteSpace: set<int>,
    legacyNonWhiteSpace: set<int>,
    wordChars: set<int>,
    nonWordChars: set<int>,
    wordCharsUnicodeIgnoreCase: set<int>,
    nonWordCharsUnicodeIgnoreCase: set<int>)

  /**
   * The lexer's read-only collaborators: CaseFoldTable.applyCaseFold (any total
   * function of a set and the unicode flag), UnicodeCharacterProperties.getProperty
   * (a partial map from property names; a missing name is the lookup failure) and
   * the Constants sets.
   */
  datatype Tables = Tables(
    caseFold: (set<int>, bool) -> set<int>,
    properties: map<seq<CodeUnit>, set<int>>,
    constants: Constants)

  /** A lexer token: Token.Kind together with the payload of the kinds that carry one. */
  datatype Token =
    | CharClass(codePoints: set<int>)
    | Caret
    | Dollar
    | Alternation
    | CaptureGroupBegin
    | NonCaptureGroupBegin
    | LookAheadAssertionBegin
    | NegativeLookAheadAssertionBegin
    | LookBehindAssertionBegin
    | GroupEnd
    | Quantifier(min: int, max: int, greedy: bool)  // max == -1: unbounded
    | WordBoundary
    | NonWordBoundary
    | BackReference(groupNumber: int)

  /** The token kinds a quantifier may follow (QUANTIFIER_PREV). */
  predicate Quantifiable(t: Token) {
    t.CharClass? || t.GroupEnd? || t.BackReference?
  }

  /** The message keys of RegexSyntaxException raised by the lexer. */
  datatype ErrorMessage =
    | UnmatchedRightBrace
    | UnmatchedRightBracket
    | UnmatchedLeftBracket
    | EndsWithUnfinishedEscapeSequence
    | QuantifierWithoutTarget
    | QuantifierOnQuantifier
    | IncompleteQuantifier
    | InvalidCharacterClass
    | CharClassRangeOutOfOrder
    | InvalidUnicodeProperty
    | EndsWithUnfinishedUnicodeProperty
    | InvalidEscape
    | InvalidControlCharEscape
    | InvalidUnicodeEscape
    | PropertyLookupFailed(name: seq<CodeUnit>)  // the message the property table raises

  /** The outcome of a lexer operation: a value, or the syntax error it throws. */
  datatype Result<T> = Ok(value: T) | Err(error: ErrorMessage) {
    predicate IsFailure() { Err? }

    function PropagateFailure<U>(): Result<U>
      requires Err?
    {
      Err(error)
    }

    function Extract(): T
      requires Ok?
    {
      value
    }
  }

  /**
   * The outcome of scanning from a given cursor: the value and the cursor
   * afterwards, or the syntax error.
   */
  datatype Scan<T> = Scanned(value: T, next: nat) | Failed(error: ErrorMessage)

  /** CodePointSet.createInverse: the complement within 0..MaxCodePoint. */
  function Complement(s: set<int>): (r: set<int>)
    ensures forall x :: x in r <==> 0 <= x <= MaxCodePoint && x !in s
  {
    set x: int | 0 <= x <= MaxCodePoint && x !in s
  }

  /** The code points of a CodePointRange lo..hi (empty when hi < lo). */
  function Range(lo: int, hi: int): (r: set<int>)
    ensures forall x :: x in r <==> lo <= x <= hi
    decreases hi - lo
  {
    if hi < lo then {} else {lo} + Range(lo + 1, hi)
  }
}
