# A verified model of the graal-js regular-expression lexer, string builder and JSException

This project models three pieces of the GraalVM JavaScript engine (graal-js) in Dafny and proves properties of the model.

**RegexLexer** is the scanner that turns an ECMAScript regular-expression pattern into tokens. It follows the grammar of section 21.2.1 of ECMA-262 (2018) and the relaxations of Annex B.1.4. A lexer holds three pieces of state:
- a cursor into the pattern;
- a capture-group counter, which starts at 1;
- the last token it emitted.

Each `next()` call returns one token or throws a syntax error that names a message key. The tokens are:
- a character class;
- `^` or `$`;
- an alternation;
- the group-begin kinds or a group end;
- a quantifier;
- a word boundary or non-word boundary;
- a back-reference.

The `u` flag selects the strict Unicode grammar; without it the legacy (Annex B) grammar applies. The model has two layers:
- `LexerSpec` gives the meaning of every Java method as a pure function of the read-only context and the cursor. It returns the value and the cursor after it (`Scanned`), or the error (`Failed`).
- `Lexer.RegexLexer` is a class with the Java fields. Its methods change the cursor, the counter and the last token as the Java methods do. Each one is proved to complete as its specification function says.

The property modules (`NumberProperties`, `QuantifierProperties`, `ClassProperties`, `TokenProperties`) then state what those functions mean. Each is stated against an independent reading: the value of a digit string, the (min, max, greedy) triple a quantifier spells, the members of a class, the range of code points an escape can denote. The lexer's collaborators are abstract:
- code-point sets are `set<int>`;
- `CaseFoldTable.applyCaseFold` is an arbitrary function in `RegexTypes.Tables`;
- the Unicode property table is a partial map;
- the `Constants` sets are given values.

**DelimitedStringBuilder** is an append-only UTF-16 buffer that refuses, with a RangeError ("Invalid string length"), an append that would break the engine's string-length limit. Its guards differ:
- `append(String)` and `append(String, start, end)` check the length the buffer would have afterwards.
- `append(char)`, `append(int)` and `append(long)` check only the current length.

So the buffer can pass the limit: by one code unit through char appends, and by at most 20 through numeric ones. `StringBuilders.AllAppendsBound` and `StringBuilders.LongTextReachesBound` prove both halves of that bound.

**JSException** is a JavaScript error raised inside the engine. Its type and raw message are fixed at creation. Its message is the type's name, followed by ": " and the raw message when that is non-empty. Its realm is written at most once, and `useCallerRealm()` makes the next write (the callee's realm) be skipped.

Pattern text is a sequence of UTF-16 code units (`CodeUnits.CodeUnit`, 0..0xFFFF), because Dafny's `char` excludes surrogates.

## Model

| member | source | states |
|---|---|---|
| Lexer.RegexLexer.constructor | graal-js/src/com.oracle.truffle.regex/src/com/oracle/truffle/regex/tregex/parser/RegexLexer.java:22-33 | a new lexer is at cursor 0 with group counter 1 and no previous token |
| Lexer.RegexLexer.HasNext | graal-js/src/com.oracle.truffle.regex/src/com/oracle/truffle/regex/tregex/parser/RegexLexer.java:35-37 | true exactly when code units remain |
| Lexer.RegexLexer.Next | graal-js/src/com.oracle.truffle.regex/src/com/oracle/truffle/regex/tregex/parser/RegexLexer.java:39-43 | completes as `NextSpec` from the old state; a returned token becomes the lookback token and the counter moves as `GroupsAfter` says; a thrown error leaves the lookback token and the counter unchanged |
| Lexer.RegexLexer.ConsumeChar | graal-js/src/com.oracle.truffle.regex/src/com/oracle/truffle/regex/tregex/parser/RegexLexer.java:51-55 | returns the code unit at the cursor and advances by one |
| Lexer.RegexLexer.Advance | graal-js/src/com.oracle.truffle.regex/src/com/oracle/truffle/regex/tregex/parser/RegexLexer.java:57-67 | moves the cursor by `len` (back by one for retreat) |
| Lexer.RegexLexer.ConsumingLookahead | graal-js/src/com.oracle.truffle.regex/src/com/oracle/truffle/regex/tregex/parser/RegexLexer.java:69-86 | matches exactly when the pattern continues with the text; the cursor moves past the text only then |
| Lexer.RegexLexer.GetNext | graal-js/src/com.oracle.truffle.regex/src/com/oracle/truffle/regex/tregex/parser/RegexLexer.java:105-149 | completes as `NextSpec`; the counter grows exactly for a capture group |
| Lexer.RegexLexer.ParseEscape | graal-js/src/com.oracle.truffle.regex/src/com/oracle/truffle/regex/tregex/parser/RegexLexer.java:151-183 | completes as `EscapeSpec`: an error at the end of the pattern, else a back-reference or the escape's token |
| Lexer.RegexLexer.ParseBackReference | graal-js/src/com.oracle.truffle.regex/src/com/oracle/truffle/regex/tregex/parser/RegexLexer.java:156-163 | for `1`-`9`, a back-reference to the whole digit run when its value is below the counter or a `(` occurs ahead; otherwise nothing, with the cursor restored |
| Lexer.RegexLexer.ParseEscapeAtom | graal-js/src/com.oracle.truffle.regex/src/com/oracle/truffle/regex/tregex/parser/RegexLexer.java:164-182 | completes as `EscapeAtomSpec`: word boundaries, predefined classes without folding, property escapes, single escaped code points |
| Lexer.RegexLexer.ParseGroupBegin | graal-js/src/com.oracle.truffle.regex/src/com/oracle/truffle/regex/tregex/parser/RegexLexer.java:185-198 | returns the token and cursor of `GroupBeginSpec` (prefixes tried in order); the counter grows exactly for a capture group |
| Lexer.RegexLexer.ParseQuantifier | graal-js/src/com.oracle.truffle.regex/src/com/oracle/truffle/regex/tregex/parser/RegexLexer.java:202-240 | completes as `QuantifierSpec` |
| Lexer.RegexLexer.ParseRepetitionMax | graal-js/src/com.oracle.truffle.regex/src/com/oracle/truffle/regex/tregex/parser/RegexLexer.java:212-222 | the maximum of `,}`, `}` and `,n}` and the cursor after `}`, as `RepetitionMax` says; nothing when malformed |
| Lexer.RegexLexer.CheckQuantifierTarget | graal-js/src/com.oracle.truffle.regex/src/com/oracle/truffle/regex/tregex/parser/RegexLexer.java:230-239 | completes as `TargetCheck`: no previous token or one outside QUANTIFIER_PREV is QuantifierWithoutTarget, a quantifier is QuantifierOnQuantifier |
| Lexer.RegexLexer.CountedRepetitionSyntaxError | graal-js/src/com.oracle.truffle.regex/src/com/oracle/truffle/regex/tregex/parser/RegexLexer.java:242-248 | completes as `CountedRepetitionError`: an error in Unicode mode, else a `{` class with the cursor reset |
| Lexer.RegexLexer.ParseCharClass | graal-js/src/com.oracle.truffle.regex/src/com/oracle/truffle/regex/tregex/parser/RegexLexer.java:250-261 | completes as `CharClassSpec`: `^` inverts, and the set is folded then inverted |
| Lexer.RegexLexer.ParseClassBody | graal-js/src/com.oracle.truffle.regex/src/com/oracle/truffle/regex/tregex/parser/RegexLexer.java:252-260 | the loop of parseCharClass, completing as `ClassBodySpec` from an empty set |
| Lexer.RegexLexer.ParseCharClassAtom | graal-js/src/com.oracle.truffle.regex/src/com/oracle/truffle/regex/tregex/parser/RegexLexer.java:263-323 | completes as `ClassAtomSpec` |
| Lexer.RegexLexer.ParseClassEscapeAtom | graal-js/src/com.oracle.truffle.regex/src/com/oracle/truffle/regex/tregex/parser/RegexLexer.java:265-279 | completes as `ClassEscapeAtomSpec`, including the Unicode-mode error for a class escape before `-` |
| Lexer.RegexLexer.ParseClassRange | graal-js/src/com.oracle.truffle.regex/src/com/oracle/truffle/regex/tregex/parser/RegexLexer.java:285-322 | completes as `ClassRangeSpec`: single atom, trailing `-`, range, or the out-of-order error |
| Lexer.RegexLexer.ParseEscapeCharClass | graal-js/src/com.oracle.truffle.regex/src/com/oracle/truffle/regex/tregex/parser/RegexLexer.java:325-333 | completes as `EscapeCharClassSpec` |
| Lexer.RegexLexer.ParseUnicodeCharacterProperty | graal-js/src/com.oracle.truffle.regex/src/com/oracle/truffle/regex/tregex/parser/RegexLexer.java:372-389 | completes as `UnicodePropertySpec`: the name up to `}` looked up, inverted for `\P` |
| Lexer.RegexLexer.ParseEscapeChar | graal-js/src/com.oracle.truffle.regex/src/com/oracle/truffle/regex/tregex/parser/RegexLexer.java:391-476 | completes as `EscapeCharSpec` |
| Lexer.RegexLexer.ParseZeroEscape | graal-js/src/com.oracle.truffle.regex/src/com/oracle/truffle/regex/tregex/parser/RegexLexer.java:396-405 | completes as the corrected `ZeroEscape` (see Findings) |
| Lexer.RegexLexer.ParseControlEscape | graal-js/src/com.oracle.truffle.regex/src/com/oracle/truffle/regex/tregex/parser/RegexLexer.java:416-431 | completes as `ControlEscape` |
| Lexer.RegexLexer.ParseUnicodeEscape | graal-js/src/com.oracle.truffle.regex/src/com/oracle/truffle/regex/tregex/parser/RegexLexer.java:432-456 | completes as `UnicodeEscape` |
| Lexer.RegexLexer.ParseSurrogateEscapeTail | graal-js/src/com.oracle.truffle.regex/src/com/oracle/truffle/regex/tregex/parser/RegexLexer.java:441-453 | completes as `SurrogateEscapeTail`: join a following `\uXXXX` low surrogate, else restore the cursor |
| Lexer.RegexLexer.FinishSurrogatePair | graal-js/src/com.oracle.truffle.regex/src/com/oracle/truffle/regex/tregex/parser/RegexLexer.java:478-487 | returns the value and cursor of `FinishSurrogatePairSpec` |
| Lexer.RegexLexer.EscapeCharSyntaxError | graal-js/src/com.oracle.truffle.regex/src/com/oracle/truffle/regex/tregex/parser/RegexLexer.java:489-496 | an error in Unicode mode, else the code unit itself |
| Lexer.RegexLexer.ParseDecimal | graal-js/src/com.oracle.truffle.regex/src/com/oracle/truffle/regex/tregex/parser/RegexLexer.java:498-503 | -1 without a digit, else as `DecimalFrom` |
| Lexer.RegexLexer.ParseDecimalFrom | graal-js/src/com.oracle.truffle.regex/src/com/oracle/truffle/regex/tregex/parser/RegexLexer.java:505-512 | the loop agrees with `DecimalFrom` |
| Lexer.RegexLexer.ParseOctal | graal-js/src/com.oracle.truffle.regex/src/com/oracle/truffle/regex/tregex/parser/RegexLexer.java:514-524 | the loop agrees with `ParseOctalSpec` |
| Lexer.RegexLexer.ParseHex | graal-js/src/com.oracle.truffle.regex/src/com/oracle/truffle/regex/tregex/parser/RegexLexer.java:526-558 | the loop completes as `ParseHexSpec` |
| LexerSpec.NextSpec | graal-js/src/com.oracle.truffle.regex/src/com/oracle/truffle/regex/tregex/parser/RegexLexer.java:105-149 | a returned token consumes at least one code unit and stays within the pattern |
| LexerSpec.DecimalFrom | graal-js/src/com.oracle.truffle.regex/src/com/oracle/truffle/regex/tregex/parser/RegexLexer.java:505-512 | reads exactly the maximal run of decimal digits |
| LexerSpec.OctalFrom | graal-js/src/com.oracle.truffle.regex/src/com/oracle/truffle/regex/tregex/parser/RegexLexer.java:514-524 | takes at most two further digits, and from a value within 0..255 stays within 0..255 |
| LexerSpec.ClassBodySpec | graal-js/src/com.oracle.truffle.regex/src/com/oracle/truffle/regex/tregex/parser/RegexLexer.java:253-260 | a class that completes consumes at least its closing `]` |
| LexerSpec.PropertyNameEnd | graal-js/src/com.oracle.truffle.regex/src/com/oracle/truffle/regex/tregex/parser/RegexLexer.java:377-379 | the property name ends at the first `}` or at the end of the pattern |
| RegexChars.LookaheadOne | graal-js/src/com.oracle.truffle.regex/src/com/oracle/truffle/regex/tregex/parser/RegexLexer.java:69-74 | a one-unit lookahead holds iff that unit is next |
| RegexChars.LookaheadTwo | graal-js/src/com.oracle.truffle.regex/src/com/oracle/truffle/regex/tregex/parser/RegexLexer.java:69-74 | a two-unit lookahead holds iff those units are next |
| RegexChars.HexDigitValue | graal-js/src/com.oracle.truffle.regex/src/com/oracle/truffle/regex/tregex/parser/RegexLexer.java:545-552 | a hexadecimal digit adds a value within 0..15 |
| RegexTypes.Complement | graal-js/src/com.oracle.truffle.regex/src/com/oracle/truffle/regex/tregex/parser/RegexLexer.java:99 | createInverse: exactly the code points in 0..0x10FFFF outside the set |
| RegexTypes.Range | graal-js/src/com.oracle.truffle.regex/src/com/oracle/truffle/regex/tregex/parser/RegexLexer.java:317 | a CodePointRange holds exactly the code points between its ends |
| CodeUnits.SurrogatePairRoundTrip | graal-js/src/com.oracle.truffle.regex/src/com/oracle/truffle/regex/tregex/parser/RegexLexer.java:480-483 | joining a surrogate pair loses nothing: both units are recovered from the code point |
| CodeUnits.CodePointRoundTrip | graal-js/src/com.oracle.truffle.regex/src/com/oracle/truffle/regex/tregex/parser/RegexLexer.java:480-483 | every supplementary code point is the join of its own surrogate pair |
| NumberProperties.DecimalFromValue | graal-js/src/com.oracle.truffle.regex/src/com/oracle/truffle/regex/tregex/parser/RegexLexer.java:505-512 | continuing a numeral yields the value of the whole maximal digit run |
| NumberProperties.ParseDecimalValue | graal-js/src/com.oracle.truffle.regex/src/com/oracle/truffle/regex/tregex/parser/RegexLexer.java:498-512 | parseDecimal is -1 without a digit, else the value of the maximal digit run, with the cursor after it |
| NumberProperties.OctalFromValue | graal-js/src/com.oracle.truffle.regex/src/com/oracle/truffle/regex/tregex/parser/RegexLexer.java:514-524 | the octal loop reads at most three digits in all, its value is that numeral's and within 0..255, and it stops only at the digit cap, a non-octal unit, the end, or an overflow of 255 |
| NumberProperties.OctalEscapeValue | graal-js/src/com.oracle.truffle.regex/src/com/oracle/truffle/regex/tregex/parser/RegexLexer.java:514-524 | a legacy octal escape is the value of at most three octal digits, never above 255 |
| NumberProperties.HexFromOutcome | graal-js/src/com.oracle.truffle.regex/src/com/oracle/truffle/regex/tregex/parser/RegexLexer.java:529-557 | from any iteration, the hex loop ends as `HexOutcome` |
| NumberProperties.HexFromOverflowStep | graal-js/src/com.oracle.truffle.regex/src/com/oracle/truffle/regex/tregex/parser/RegexLexer.java:553-555 | a digit that takes the value past maxValue fails the loop, and the whole run fails too |
| NumberProperties.HexFromStep | graal-js/src/com.oracle.truffle.regex/src/com/oracle/truffle/regex/tregex/parser/RegexLexer.java:544-555 | a digit that keeps the value within maxValue continues the loop, which still ends as `HexOutcome` |
| NumberProperties.HexScanNext | graal-js/src/com.oracle.truffle.regex/src/com/oracle/truffle/regex/tregex/parser/RegexLexer.java:544-555 | such a digit extends the loop state: one more hex digit read, its value the old one times 16 plus the digit |
| NumberProperties.HexRunEndAt | graal-js/src/com.oracle.truffle.regex/src/com/oracle/truffle/regex/tregex/parser/RegexLexer.java:529-543 | a run of hex digits that stops at a non-digit, the end or the digit cap ends the scan exactly there |
| NumberProperties.HexValueBelow | graal-js/src/com.oracle.truffle.regex/src/com/oracle/truffle/regex/tregex/parser/RegexLexer.java:545-552 | k hex digits have a value below 16^k |
| NumberProperties.HexOverflow | graal-js/src/com.oracle.truffle.regex/src/com/oracle/truffle/regex/tregex/parser/RegexLexer.java:553-555 | a prefix of the run above maxValue makes the whole run fail |
| NumberProperties.ParseHexOutcome | graal-js/src/com.oracle.truffle.regex/src/com/oracle/truffle/regex/tregex/parser/RegexLexer.java:526-558 | parseHex equals the reference outcome read off the capped hexadecimal run |
| NumberProperties.ParseHexBounds | graal-js/src/com.oracle.truffle.regex/src/com/oracle/truffle/regex/tregex/parser/RegexLexer.java:526-558 | a failure carries the given message; -1 only in legacy mode with the cursor at entry; otherwise a value within 0..maxValue read from minDigits..maxDigits digits |
| QuantifierProperties.RepetitionMaxReference | graal-js/src/com.oracle.truffle.regex/src/com/oracle/truffle/regex/tregex/parser/RegexLexer.java:212-222 | parseQuantifier's reading of `{m...}` agrees with the reference reading |
| QuantifierProperties.RepetitionMaxBounded | graal-js/src/com.oracle.truffle.regex/src/com/oracle/truffle/regex/tregex/parser/RegexLexer.java:218-220 | `,n}` reads n when the digit run is non-empty and closed by `}`, and nothing otherwise |
| QuantifierProperties.BracedQuantifier | graal-js/src/com.oracle.truffle.regex/src/com/oracle/truffle/regex/tregex/parser/RegexLexer.java:206-239 | a malformed `{` is countedRepetitionSyntaxError without a target check; a well-formed one is its quantifier, greedy unless `?` follows, then target-checked |
| QuantifierProperties.MalformedRepetition | graal-js/src/com.oracle.truffle.regex/src/com/oracle/truffle/regex/tregex/parser/RegexLexer.java:206-248 | a malformed `{` is IncompleteQuantifier in Unicode mode, and a `{` class with the cursor just after `{` in legacy mode |
| QuantifierProperties.WellFormedRepetition | graal-js/src/com.oracle.truffle.regex/src/com/oracle/truffle/regex/tregex/parser/RegexLexer.java:212-239 | after a quantifiable token, a well-formed repetition is Quantifier(min, max, not lazy), consuming a following `?` |
| QuantifierProperties.ExactRepetition | graal-js/src/com.oracle.truffle.regex/src/com/oracle/truffle/regex/tregex/parser/RegexLexer.java:214-216 | `{m}` reads (m, m) |
| QuantifierProperties.OpenRepetition | graal-js/src/com.oracle.truffle.regex/src/com/oracle/truffle/regex/tregex/parser/RegexLexer.java:212-213 | `{m,}` reads (m, -1) |
| QuantifierProperties.RangeRepetition | graal-js/src/com.oracle.truffle.regex/src/com/oracle/truffle/regex/tregex/parser/RegexLexer.java:218-221 | `{m,n}` reads (m, n) |
| QuantifierProperties.RangeRepetitionReading | graal-js/src/com.oracle.truffle.regex/src/com/oracle/truffle/regex/tregex/parser/RegexLexer.java:218-221 | once both digit runs are known, `m,n}` reads their values |
| QuantifierProperties.SimpleQuantifier | graal-js/src/com.oracle.truffle.regex/src/com/oracle/truffle/regex/tregex/parser/RegexLexer.java:223-229 | `*`, `+`, `?` give (0,-1), (1,-1), (0,1), lazy exactly when `?` follows |
| QuantifierProperties.QuantifierTargetCheck | graal-js/src/com.oracle.truffle.regex/src/com/oracle/truffle/regex/tregex/parser/RegexLexer.java:200-239 | a quantifier is produced only after a quantifiable token; for well-formed syntax, success, QuantifierOnQuantifier and QuantifierWithoutTarget each hold exactly in their case |
| QuantifierProperties.NextQuantifierHasTarget | graal-js/src/com.oracle.truffle.regex/src/com/oracle/truffle/regex/tregex/parser/RegexLexer.java:114-118 | a quantifier token from next() always has a quantifiable predecessor |
| QuantifierProperties.TokensFromQuantifierTargets | graal-js/src/com.oracle.truffle.regex/src/com/oracle/truffle/regex/tregex/parser/RegexLexer.java:39-43 | in every error-free token stream, each quantifier follows a quantifiable token |
| QuantifierProperties.TokenizeQuantifierTargets | graal-js/src/com.oracle.truffle.regex/src/com/oracle/truffle/regex/tregex/parser/RegexLexer.java:26-43 | no pattern's token stream opens with a quantifier, and each quantifier follows a quantifiable token |
| ClassProperties.UnitsIn | graal-js/src/com.oracle.truffle.regex/src/com/oracle/truffle/regex/tregex/parser/RegexLexer.java:319-321 | the set of the code units in a stretch of the pattern |
| ClassProperties.SingleAtom | graal-js/src/com.oracle.truffle.regex/src/com/oracle/truffle/regex/tregex/parser/RegexLexer.java:319-321 | an atom not followed by `-` is added on its own |
| ClassProperties.RangeAtom | graal-js/src/com.oracle.truffle.regex/src/com/oracle/truffle/regex/tregex/parser/RegexLexer.java:285-318 | `x-y` is the range x..y, or CharClassRangeOutOfOrder when y < x |
| ClassProperties.RangeAtomMembers | graal-js/src/com.oracle.truffle.regex/src/com/oracle/truffle/regex/tregex/parser/RegexLexer.java:314-318 | a range fails iff out of order; an accepted one adds exactly the code points between its ends |
| ClassProperties.TrailingDash | graal-js/src/com.oracle.truffle.regex/src/com/oracle/truffle/regex/tregex/parser/RegexLexer.java:285-290 | `x-` before `]` or at the end adds both x and `-` |
| ClassProperties.ClassBodyClosed | graal-js/src/com.oracle.truffle.regex/src/com/oracle/truffle/regex/tregex/parser/RegexLexer.java:253-260 | a class that completes ends just after a `]`, so without one it never completes |
| ClassProperties.UnmatchedLeftBracket | graal-js/src/com.oracle.truffle.regex/src/com/oracle/truffle/regex/tregex/parser/RegexLexer.java:253-260 | a class whose plain members run to the end of the pattern fails with UnmatchedLeftBracket |
| ClassProperties.PlainClassBody | graal-js/src/com.oracle.truffle.regex/src/com/oracle/truffle/regex/tregex/parser/RegexLexer.java:252-259 | plain members up to `]` give exactly those code units, with the cursor after `]` |
| ClassProperties.PlainClass | graal-js/src/com.oracle.truffle.regex/src/com/oracle/truffle/regex/tregex/parser/RegexLexer.java:250-261 | the class token's set is the members folded under `i`, then complemented for `[^`: folding comes before inversion |
| ClassProperties.PredefClassBeforeDash | graal-js/src/com.oracle.truffle.regex/src/com/oracle/truffle/regex/tregex/parser/RegexLexer.java:268-275 | a predefined class escape before `-` is InvalidCharacterClass in Unicode mode unless `-]` follows; otherwise its set is added and the `-` is left for the next atom |
| ClassProperties.PredefClassDashMember | graal-js/src/com.oracle.truffle.regex/src/com/oracle/truffle/regex/tregex/parser/RegexLexer.java:250-275 | the class body `\d-x]` fails with InvalidCharacterClass in Unicode mode and in legacy mode holds the predefined set, `-` and x |
| ClassProperties.PropertyEscape | graal-js/src/com.oracle.truffle.regex/src/com/oracle/truffle/regex/tregex/parser/RegexLexer.java:372-389 | `\p{name}` denotes the named property set and `\P{name}` its complement within 0..0x10FFFF, with the cursor after `}`; a name the table lacks fails the lookup |
| ClassProperties.PropertyEscapeErrors | graal-js/src/com.oracle.truffle.regex/src/com/oracle/truffle/regex/tregex/parser/RegexLexer.java:373-382 | InvalidUnicodeProperty exactly when no `{` follows, and after `{` EndsWithUnfinishedUnicodeProperty exactly when no `}` follows |
| TokenProperties.GroupBeginKinds | graal-js/src/com.oracle.truffle.regex/src/com/oracle/truffle/regex/tregex/parser/RegexLexer.java:185-198 | each group kind is chosen iff its prefix follows (`?<=` included), and only a capture group consumes nothing |
| TokenProperties.NextGroupBegin | graal-js/src/com.oracle.truffle.regex/src/com/oracle/truffle/regex/tregex/parser/RegexLexer.java:185-198 | `(` yields a group-begin token; the counter grows by one exactly for a capture group |
| TokenProperties.BackReferenceRule | graal-js/src/com.oracle.truffle.regex/src/com/oracle/truffle/regex/tregex/parser/RegexLexer.java:156-163 | `\` with 1-9 is a back-reference to the whole digit run iff its value is below the counter or a `(` occurs ahead; otherwise the escape is re-read from the first digit |
| TokenProperties.RejectedBackReference | graal-js/src/com.oracle.truffle.regex/src/com/oracle/truffle/regex/tregex/parser/RegexLexer.java:151-183 | a rejected back-reference is InvalidEscape in Unicode mode; in legacy mode 1-7 start an octal escape of at most three digits and value at most 255, and 8 and 9 stand for themselves |
| TokenProperties.ControlLetter | graal-js/src/com.oracle.truffle.regex/src/com/oracle/truffle/regex/tregex/parser/RegexLexer.java:426-431 | `\cX` with a letter gives X's code modulo 32, within 1..26, for both cases |
| TokenProperties.ControlNonLetter | graal-js/src/com.oracle.truffle.regex/src/com/oracle/truffle/regex/tregex/parser/RegexLexer.java:416-429 | `\c` without a letter is InvalidControlCharEscape in Unicode mode, and a literal backslash with the cursor on `c` in legacy mode |
| TokenProperties.ZeroEscapeBounds | graal-js/src/com.oracle.truffle.regex/src/com/oracle/truffle/regex/tregex/parser/RegexLexer.java:396-405 | `\0` is within 0..255, non-zero only in legacy mode, and fails iff a decimal digit follows in Unicode mode |
| TokenProperties.UnicodeEscapeBounds | graal-js/src/com.oracle.truffle.regex/src/com/oracle/truffle/regex/tregex/parser/RegexLexer.java:432-456 | `\u` denotes a code point, above 0xFFFF only in Unicode mode, and fails only with InvalidUnicodeEscape |
| TokenProperties.SurrogateTailBounds | graal-js/src/com.oracle.truffle.regex/src/com/oracle/truffle/regex/tregex/parser/RegexLexer.java:441-453 | a joined `\u` surrogate tail is within 0xD800..0x10FFFF |
| TokenProperties.SurrogateTailValue | graal-js/src/com.oracle.truffle.regex/src/com/oracle/truffle/regex/tregex/parser/RegexLexer.java:441-453 | after a `\uXXXX` high surrogate in Unicode mode, a following `\u` with four hex digits of value t joins into the code point of the pair when t is a low surrogate, and otherwise the lead stands alone with the cursor just after it |
| TokenProperties.SurrogateTailAbsent | graal-js/src/com.oracle.truffle.regex/src/com/oracle/truffle/regex/tregex/parser/RegexLexer.java:441-452 | without a following `\u`, a `\uXXXX` high surrogate stands alone with the cursor just after it |
| TokenProperties.BracedUnicodeEscape | graal-js/src/com.oracle.truffle.regex/src/com/oracle/truffle/regex/tregex/parser/RegexLexer.java:433-438 | in Unicode mode `\u{H...}` with a closing `}` denotes the value of its hex digits, with the cursor after `}`, and is InvalidUnicodeEscape when that value passes 0x10FFFF |
| TokenProperties.EscapeCharBounds | graal-js/src/com.oracle.truffle.regex/src/com/oracle/truffle/regex/tregex/parser/RegexLexer.java:391-476 | every escape denotes a code point within 0..0x10FFFF, above 0xFFFF only in Unicode mode |
| TokenProperties.NextSurrogatePair | graal-js/src/com.oracle.truffle.regex/src/com/oracle/truffle/regex/tregex/parser/RegexLexer.java:143-147 | a surrogate pair is one supplementary code point in Unicode mode and a lone code unit in legacy mode |
| ZeroEscapeFinding.AsWrittenFailsAtEnd | graal-js/src/com.oracle.truffle.regex/src/com/oracle/truffle/regex/tregex/parser/RegexLexer.java:396-399 | as written, `\0` at the end of a Unicode-mode pattern reads past the end |
| ZeroEscapeFinding.AsWrittenAgrees | graal-js/src/com.oracle.truffle.regex/src/com/oracle/truffle/regex/tregex/parser/RegexLexer.java:396-405 | the written code and the corrected rule differ exactly at the end of a Unicode-mode pattern |
| ZeroEscapeFinding.ZeroEscapeUnicode | graal-js/src/com.oracle.truffle.regex/src/com/oracle/truffle/regex/tregex/parser/RegexLexer.java:396-405 | corrected: in Unicode mode `\0` is NUL iff no decimal digit follows (the end included), and InvalidEscape otherwise |
| ZeroEscapeFinding.NulPatternToken | graal-js/src/com.oracle.truffle.regex/src/com/oracle/truffle/regex/tregex/parser/RegexLexer.java:396-405 | with the correction, the Unicode pattern `\0` lexes to the class {NUL} and reaches the end |
| StringBuilders.DelimitedStringBuilder.constructor | graal-js/src/com.oracle.truffle.js.runtime/src/com/oracle/truffle/js/runtime/util/DelimitedStringBuilder.java:57-59 | a new builder is empty, with StringBuilder's default capacity of 16 |
| StringBuilders.DelimitedStringBuilder.WithCapacity | graal-js/src/com.oracle.truffle.js.runtime/src/com/oracle/truffle/js/runtime/util/DelimitedStringBuilder.java:61-63 | a new builder is empty, with capacity max(16, min(capacity, limit)) |
| StringBuilders.DelimitedStringBuilder.Length | graal-js/src/com.oracle.truffle.js.runtime/src/com/oracle/truffle/js/runtime/util/DelimitedStringBuilder.java:111-113 | the number of code units appended so far, read without changing anything |
| StringBuilders.DelimitedStringBuilder.Append | graal-js/src/com.oracle.truffle.js.runtime/src/com/oracle/truffle/js/runtime/util/DelimitedStringBuilder.java:70-76 | refused iff length + `str` length passes the limit, leaving the contents unchanged; otherwise the contents become old contents + `str` |
| StringBuilders.DelimitedStringBuilder.AppendChar | graal-js/src/com.oracle.truffle.js.runtime/src/com/oracle/truffle/js/runtime/util/DelimitedStringBuilder.java:78-84 | refused iff the length already passes the limit, leaving the contents unchanged; otherwise exactly `c` is appended |
| StringBuilders.DelimitedStringBuilder.AppendInt | graal-js/src/com.oracle.truffle.js.runtime/src/com/oracle/truffle/js/runtime/util/DelimitedStringBuilder.java:86-92 | the guard of append(char), then the decimal text of a 32-bit value |
| StringBuilders.DelimitedStringBuilder.AppendLong | graal-js/src/com.oracle.truffle.js.runtime/src/com/oracle/truffle/js/runtime/util/DelimitedStringBuilder.java:94-100 | the guard of append(char), then the decimal text of a 64-bit value |
| StringBuilders.DelimitedStringBuilder.AppendRange | graal-js/src/com.oracle.truffle.js.runtime/src/com/oracle/truffle/js/runtime/util/DelimitedStringBuilder.java:102-109 | for start <= end: refused iff length + (end - start) passes the limit, leaving the contents unchanged; otherwise exactly chars[start..end) is appended |
| StringBuilders.RunExtends | graal-js/src/com.oracle.truffle.js.runtime/src/com/oracle/truffle/js/runtime/util/DelimitedStringBuilder.java:70-109 | the buffer is append-only: earlier contents stay a prefix under any appends |
| StringBuilders.StepLength | graal-js/src/com.oracle.truffle.js.runtime/src/com/oracle/truffle/js/runtime/util/DelimitedStringBuilder.java:70-109 | a refused append changes nothing; an accepted one adds exactly its text's length |
| StringBuilders.TextAppendsBound | graal-js/src/com.oracle.truffle.js.runtime/src/com/oracle/truffle/js/runtime/util/DelimitedStringBuilder.java:70-109 | string, range and char appends keep the length within limit + 1 |
| StringBuilders.CharReachesLimitPlusOne | graal-js/src/com.oracle.truffle.js.runtime/src/com/oracle/truffle/js/runtime/util/DelimitedStringBuilder.java:78-84 | a char append at exactly the limit is accepted and reaches limit + 1 |
| StringBuilders.JavaDecimalLength | graal-js/src/com.oracle.truffle.js.runtime/src/com/oracle/truffle/js/runtime/util/DelimitedStringBuilder.java:86-100 | an `int` renders in at most 11 code units and a `long` in at most 20 |
| StringBuilders.AllAppendsBound | graal-js/src/com.oracle.truffle.js.runtime/src/com/oracle/truffle/js/runtime/util/DelimitedStringBuilder.java:70-109 | any appends keep the length within limit + 20 |
| StringBuilders.LongTextReachesBound | graal-js/src/com.oracle.truffle.js.runtime/src/com/oracle/truffle/js/runtime/util/DelimitedStringBuilder.java:94-100 | Long.MIN_VALUE appended at the limit reaches limit + 20, so that bound is tight |
| StringBuilders.WrapInt32 | graal-js/src/com.oracle.truffle.js.runtime/src/com/oracle/truffle/js/runtime/util/DelimitedStringBuilder.java:71 | Java `int` arithmetic: the result is a 32-bit value, equal to the exact sum when that fits and 2^32 less when the sum is in 2^31..2^32-1 |
| StringBuilders.GuardAsWrittenAgrees | graal-js/src/com.oracle.truffle.js.runtime/src/com/oracle/truffle/js/runtime/util/DelimitedStringBuilder.java:70-109 | while the length sum fits in an `int`, the guards as written refuse exactly the appends the intended guards refuse |
| StringBuilders.GuardAsWrittenMisses | graal-js/src/com.oracle.truffle.js.runtime/src/com/oracle/truffle/js/runtime/util/DelimitedStringBuilder.java:71 | as written, a string append whose length sum reaches 2^31 wraps to a negative sum and passes the guard, though it exceeds the limit |
| StringBuilders.RangeGuardAsWrittenMisses | graal-js/src/com.oracle.truffle.js.runtime/src/com/oracle/truffle/js/runtime/util/DelimitedStringBuilder.java:104 | as written, a range append whose length sum reaches 2^31 passes the guard, though it exceeds the limit |
| Exceptions.FormatMessage | graal-js/src/com.oracle.truffle.js.runtime/src/com/oracle/truffle/js/runtime/JSException.java:74-77 | the message starts with the type's name |
| Exceptions.MessageRecoversText | graal-js/src/com.oracle.truffle.js.runtime/src/com/oracle/truffle/js/runtime/JSException.java:74-77 | the message is the name alone iff the raw message is null or empty; otherwise ": " and the raw message follow the name |
| Exceptions.NamesPrefixFree | graal-js/src/com.oracle.truffle.js.runtime/src/com/oracle/truffle/js/runtime/JSException.java:76 | no error type's name starts another's, so a message's prefix determines the type |
| Exceptions.MessageInjective | graal-js/src/com.oracle.truffle.js.runtime/src/com/oracle/truffle/js/runtime/JSException.java:74-77 | equal messages mean equal types and equal raw texts |
| Exceptions.SyntaxErrorByMessage | graal-js/src/com.oracle.truffle.js.runtime/src/com/oracle/truffle/js/runtime/JSException.java:127-130 | the type is SyntaxError iff the message starts with "SyntaxError" |
| Exceptions.RealmWriteOnce | graal-js/src/com.oracle.truffle.js.runtime/src/com/oracle/truffle/js/runtime/JSException.java:106-125 | once set, the realm survives every later setRealm and useCallerRealm |
| Exceptions.FirstSetWins | graal-js/src/com.oracle.truffle.js.runtime/src/com/oracle/truffle/js/runtime/JSException.java:106-116 | without useCallerRealm, an unset realm becomes the first non-null argument of a setRealm; a null argument leaves it unset |
| Exceptions.CallerRealmSkipsFirst | graal-js/src/com.oracle.truffle.js.runtime/src/com/oracle/truffle/js/runtime/JSException.java:106-125 | after useCallerRealm on an unset realm, the first setRealm, whatever its argument (null included), only clears the flag, and the next one stores its argument |
| Exceptions.JSException.constructor | graal-js/src/com.oracle.truffle.js.runtime/src/com/oracle/truffle/js/runtime/JSException.java:24-45 | type, raw message and error object as given; no realm, flag clear |
| Exceptions.JSException.GetMessage | graal-js/src/com.oracle.truffle.js.runtime/src/com/oracle/truffle/js/runtime/JSException.java:72-77 | starts with the type's name, and is longer exactly when the raw message is non-empty |
| Exceptions.JSException.GetErrorType | graal-js/src/com.oracle.truffle.js.runtime/src/com/oracle/truffle/js/runtime/JSException.java:83-85 | the type given at creation, whose name starts the message |
| Exceptions.JSException.IsSyntaxError | graal-js/src/com.oracle.truffle.js.runtime/src/com/oracle/truffle/js/runtime/JSException.java:127-130 | holds iff the message starts with "SyntaxError", which is iff the type is SyntaxError |
| Exceptions.JSException.SetErrorObject | graal-js/src/com.oracle.truffle.js.runtime/src/com/oracle/truffle/js/runtime/JSException.java:92-94 | stores the object and leaves the realm fields unchanged |
| Exceptions.JSException.SetRealm | graal-js/src/com.oracle.truffle.js.runtime/src/com/oracle/truffle/js/runtime/JSException.java:106-116 | returns the receiver; a set realm is kept; with the flag it only clears the flag; otherwise it stores the argument, null included |
| Exceptions.JSException.UseCallerRealm | graal-js/src/com.oracle.truffle.js.runtime/src/com/oracle/truffle/js/runtime/JSException.java:122-125 | returns the receiver and sets the flag, changing nothing else |

## Left out

- Lexer.RegexLexer.ParseDecimalFrom: integers are unbounded, so Java `int` wrap-around on digit runs longer than nine or ten digits is not modelled. The same holds for the quantifier bounds and back-reference numbers built from such runs.
- After a syntax error the lexer is abandoned, so the Lexer.RegexLexer methods do not specify the cursor on an `Err` result.
- The internals of CodePointSet, CaseFoldTable, UnicodeCharacterProperties, Constants, Token and RegexSyntaxException are not part of this model. Code-point sets are mathematical sets, so the in-place `addRange`/`addSet` updates of the Java become set unions on values. Case folding is an arbitrary function, the property table is a partial map, and the constant sets are given values.
- A failed Unicode property lookup raises the table's own message. That message is not part of this model, so the error is `PropertyLookupFailed(name)`.
- The lexer's `IllegalStateException` defaults (parseEscapeCharClass, parsePredefCharClass) and the `assert` in finishSurrogatePair are unreachable; their callers' preconditions exclude them.
- RegexSource is represented by its pattern, flags and options; building the exception object for a syntax error is left out.
- The string-length limit (JSTruffleOptions.StringLengthLimit) is a configuration value outside this model, so it is a constructor parameter of each builder. Branch profiles, the TruffleBoundary wrappers and `toString` are left out.
- StringBuilders.DelimitedStringBuilder.AppendInt: the decimal text is modelled by `JavaDecimal`, an independent definition of Integer.toString, not by the library code itself. The same holds for AppendLong.
- The wrapped StringBuilder's capacity growth is not modelled; only the requested initial capacity is.
- StringBuilders.DelimitedStringBuilder.Append: its guard is the intended one on exact lengths. The Java sum wraps at 2^31, and that guard as written is `RefusedAsWritten` (see Findings). The same holds for AppendRange.
- JSErrorType is not part of this model. Its constants are taken to be the ECMAScript native error types (Error, EvalError, RangeError, ReferenceError, SyntaxError, TypeError, URIError), and `name()` to be the constant's name.
- JSException.getErrorObjectEager creates an error object through JSError in the runtime, so it is left out.
- Exception causes, originating nodes, stack traces and the `create` factories' Truffle details are left out. The factories only select a constructor, whose effect on the modelled fields the constructor row states.
- Exceptions.JSException.GetRealm, GetRawMessage and GetErrorObject return a field and carry no contract of their own.
- Exceptions.JSException: the raw message and the formatted message are Dafny strings of Unicode scalar values, so a Java message holding a lone surrogate is not representable.
- The other files of the repository (the equality and addition nodes, the async iterator wrapper, the function root node, the engine singleton and the regex dispatch node) are outside this model. They rely on floating point, Truffle specialisation and calls into runtime code.

## Findings

| source | as written | input that shows it | evidently intended | confidence | as-written member | corrected member |
|---|---|---|---|---|---|---|
| graal-js/src/com.oracle.truffle.regex/src/com/oracle/truffle/regex/tregex/parser/RegexLexer.java:397 | in Unicode mode the `\0` case reads the code unit after the `0` without first checking for the end of the pattern | the pattern `\0` (or `[\0`) with the `u` flag | `\0` at the end denotes NUL, as the legacy-mode test two lines below (which checks for the end first) and the grammar both have it | not executed | ZeroEscapeFinding.AsWrittenFailsAtEnd | ZeroEscapeFinding.ZeroEscapeUnicode |
| graal-js/src/com.oracle.truffle.js.runtime/src/com/oracle/truffle/js/runtime/util/DelimitedStringBuilder.java:71 | `append(String)` adds the buffer length and the string length in `int`; a sum of 2^31 or more wraps to a negative value, which passes the limit check (line 104 does the same for the range append) | a builder holding 2^30 code units under a limit of 2^30, asked to append a string of 2^30 code units: the sum wraps to -2^31, no RangeError is raised, and the append reaches StringBuilder | the RangeError for an invalid string length, since the result exceeds the limit | not executed | StringBuilders.GuardAsWrittenMisses | StringBuilders.DelimitedStringBuilder.Append |
