/**
 * DelimitedStringBuilder: an append-only buffer of UTF-16 code units that
 * refuses, with a RangeError ("Invalid string length"), an append that the
 * JavaScript string-length limit forbids. The limit is a configuration
 * value of the runtime and becomes a constant field of each builder.
 */
module StringBuilders {
  import opened CodeUnits

  /** The outcome of an append: done, or the RangeError for an invalid string length. */
  datatype AppendResult = Appended | InvalidStringLength

  /** Integer.toString / Long.toString: an optional minus sign and the decimal digits of the magnitude. */
  function JavaDecimal(v: int): (s: seq<CodeUnit>)
    ensures |s| >= 1
  {
    if v < 0 then ['-' as int] + Decimal(-v) else Decimal(v)
  }

  /** The range of Java's `int` and `long`. */
  predicate IsInt32(v: int) { -0x8000_0000 <= v < 0x8000_0000 }
  predicate IsInt64(v: int) { -0x8000_0000_0000_0000 <= v < 0x8000_0000_0000_0000 }

  /** One append, as the pure transition on the contents it performs. */
  datatype AppendCall =
    | OfString(str: seq<CodeUnit>)
    | OfChar(c: CodeUnit)
    | OfInt(intValue: int)
    | OfLong(longValue: int)
    | OfRange(chars: seq<CodeUnit>, start: nat, end: nat)

  /** What an append's caller must provide: Java values in range, and start <= end <= length. */
  predicate WellFormed(a: AppendCall) {
    match a
    case OfInt(v) => IsInt32(v)
    case OfLong(v) => IsInt64(v)
    case OfRange(s, start, end) => start <= end <= |s|
    case _ => true
  }

  /** The guard of each append: the string and range appends check the length after, the others the length before. */
  predicate Refused(contents: seq<CodeUnit>, limit: nat, a: AppendCall)
    requires WellFormed(a)
  {
    match a
    case OfString(str) => |contents| + |str| > limit
    case OfRange(_, start, end) => |contents| + (end - start) > limit
    case _ => |contents| > limit
  }

  /** The code units an accepted append adds. */
  function Added(a: AppendCall): seq<CodeUnit>
    requires WellFormed(a)
  {
    match a
    case OfString(str) => str
    case OfChar(c) => [c]
    case OfInt(v) => JavaDecimal(v)
    case OfLong(v) => JavaDecimal(v)
    case OfRange(s, start, end) => s[start..end]
  }

  /** The contents after an append and its outcome. */
  function Step(contents: seq<CodeUnit>, limit: nat, a: AppendCall): (seq<CodeUnit>, AppendResult)
    requires WellFormed(a)
  {
    if Refused(contents, limit, a) then (contents, InvalidStringLength) else (contents + Added(a), Appended)
  }

  /** Java's `int` arithmetic: a value reduced into the 32-bit two's-complement range. */
  function WrapInt32(v: int): (r: int)
    ensures IsInt32(r)
    ensures IsInt32(v) ==> r == v
    ensures 0x8000_0000 <= v < 0x1_0000_0000 ==> r == v - 0x1_0000_0000
  {
    (v + 0x8000_0000) % 0x1_0000_0000 - 0x8000_0000
  }

  /** The Java lengths of an append: the buffer, the string and the range bounds are all `int`s. */
  predicate JavaLengths(contents: seq<CodeUnit>, a: AppendCall) {
    && IsInt32(|contents|)
    && match a
       case OfString(str) => IsInt32(|str|)
       case OfRange(s, _, _) => IsInt32(|s|)
       case _ => true
  }

  /**
   * The guard of each append as the Java code computes it: the string and
   * range appends add the two lengths in `int`, where a sum of 2^31 or more
   * wraps to a negative value.
   */
  predicate RefusedAsWritten(contents: seq<CodeUnit>, limit: nat, a: AppendCall)
    requires WellFormed(a)
  {
    match a
    case OfString(str) => WrapInt32(|contents| + |str|) > limit
    case OfRange(_, start, end) => WrapInt32(|contents| + (end - start)) > limit
    case _ => |contents| > limit
  }

  /** While the sum of the lengths fits in an `int`, the guard as written is the intended one. */
  lemma GuardAsWrittenAgrees(contents: seq<CodeUnit>, limit: nat, a: AppendCall)
    requires WellFormed(a) && JavaLengths(contents, a)
    requires IsInt32(|contents| + |Added(a)|)
    ensures RefusedAsWritten(contents, limit, a) <==> Refused(contents, limit, a)
  {
  }

  /**
   * A string append whose length sum reaches 2^31 wraps to a negative sum, so
   * the guard as written lets it through although it exceeds every `int` limit.
   */
  lemma GuardAsWrittenMisses(contents: seq<CodeUnit>, limit: nat, str: seq<CodeUnit>)
    requires IsInt32(limit) && JavaLengths(contents, OfString(str))
    requires |contents| + |str| >= 0x8000_0000
    ensures Refused(contents, limit, OfString(str))
    ensures !RefusedAsWritten(contents, limit, OfString(str))
    ensures WrapInt32(|contents| + |str|) < 0
  {
  }

  /** The same wrap in the range append. */
  lemma RangeGuardAsWrittenMisses(contents: seq<CodeUnit>, limit: nat, chars: seq<CodeUnit>, start: nat, end: nat)
    requires start <= end <= |chars| && IsInt32(limit) && JavaLengths(contents, OfRange(chars, start, end))
    requires |contents| + (end - start) >= 0x8000_0000
    ensures Refused(contents, limit, OfRange(chars, start, end))
    ensures !RefusedAsWritten(contents, limit, OfRange(chars, start, end))
  {
  }

  class DelimitedStringBuilder {
    /** JSTruffleOptions.StringLengthLimit. */
    const limit: nat
    /** The initial capacity requested from the wrapped StringBuilder. */
    const capacity: int
    /** The wrapped StringBuilder's characters. */
    var contents: seq<CodeUnit>

    /** new DelimitedStringBuilder(): StringBuilder's default capacity of 16. */
    constructor (limit: nat)
      ensures this.limit == limit && capacity == 16 && contents == []
    {
      this.limit := limit;
      capacity := 16;
      contents := [];
    }

    /** new DelimitedStringBuilder(capacity): the request is capped by the limit, and at least 16. */
    constructor WithCapacity(capacity: int, limit: nat)
      ensures this.limit == limit && contents == []
      ensures this.capacity == if capacity < limit then (if capacity < 16 then 16 else capacity)
                               else (if limit < 16 then 16 else limit)
    {
      this.limit := limit;
      var requested := if capacity < limit then capacity else limit;
      this.capacity := if requested < 16 then 16 else requested;
      contents := [];
    }

    /** length(): the number of code units appended so far. */
    function Length(): (n: nat)
      reads this
      ensures n == |contents|
    {
      |contents|
    }

    /** append(String): refused exactly when the result would pass the limit. */
    method Append(str: seq<CodeUnit>) returns (r: AppendResult)
      modifies this
      ensures r == InvalidStringLength <==> old(|contents|) + |str| > limit
      ensures r == InvalidStringLength ==> contents == old(contents)
      ensures r == Appended ==> contents == old(contents) + str
      ensures (contents, r) == Step(old(contents), limit, OfString(str))
    {
      if |contents| + |str| > limit {
        return InvalidStringLength;
      }
      contents := contents + str;
      r := Appended;
    }

    /** append(char): refused only when the contents already pass the limit. */
    method AppendChar(c: CodeUnit) returns (r: AppendResult)
      modifies this
      ensures r == InvalidStringLength <==> old(|contents|) > limit
      ensures r == InvalidStringLength ==> contents == old(contents)
      ensures r == Appended ==> contents == old(contents) + [c]
      ensures (contents, r) == Step(old(contents), limit, OfChar(c))
    {
      if |contents| > limit {
        return InvalidStringLength;
      }
      contents := contents + [c];
      r := Appended;
    }

    /** append(int): the same guard as append(char), then the decimal text of the value. */
    method AppendInt(intValue: int) returns (r: AppendResult)
      requires IsInt32(intValue)
      modifies this
      ensures r == InvalidStringLength <==> old(|contents|) > limit
      ensures r == InvalidStringLength ==> contents == old(contents)
      ensures r == Appended ==> contents == old(contents) + JavaDecimal(intValue)
      ensures (contents, r) == Step(old(contents), limit, OfInt(intValue))
    {
      if |contents| > limit {
        return InvalidStringLength;
      }
      contents := contents + JavaDecimal(intValue);
      r := Appended;
    }

    /** append(long): as append(int), for a 64-bit value. */
    method AppendLong(longValue: int) returns (r: AppendResult)
      requires IsInt64(longValue)
      modifies this
      ensures r == InvalidStringLength <==> old(|contents|) > limit
      ensures r == InvalidStringLength ==> contents == old(contents)
      ensures r == Appended ==> contents == old(contents) + JavaDecimal(longValue)
      ensures (contents, r) == Step(old(contents), limit, OfLong(longValue))
    {
      if |contents| > limit {
        return InvalidStringLength;
      }
      contents := contents + JavaDecimal(longValue);
      r := Appended;
    }

    /** append(String, start, end): the code units chars[start..end), under the same guard as append(String). */
    method AppendRange(chars: seq<CodeUnit>, start: nat, end: nat) returns (r: AppendResult)
      requires start <= end <= |chars|
      modifies this
      ensures r == InvalidStringLength <==> old(|contents|) + (end - start) > limit
      ensures r == InvalidStringLength ==> contents == old(contents)
      ensures r == Appended ==> contents == old(contents) + chars[start..end]
      ensures (contents, r) == Step(old(contents), limit, OfRange(chars, start, end))
    {
      if |contents| + (end - start) > limit {
        return InvalidStringLength;
      }
      contents := contents + chars[start..end];
      r := Appended;
    }
  }

  /* ------------------------------------------------------- sequences of appends */

  /** The contents after a sequence of appends, each applied to the result of the previous one. */
  function Run(contents: seq<CodeUnit>, limit: nat, appends: seq<AppendCall>): seq<CodeUnit>
    requires forall k | 0 <= k < |appends| :: WellFormed(appends[k])
    decreases |appends|
  {
    if appends == [] then contents
    else Run(Step(contents, limit, appends[0]).0, limit, appends[1..])
  }

  /** The buffer is append-only: whatever the appends, the earlier contents remain a prefix. */
  lemma {:induction false} RunExtends(contents: seq<CodeUnit>, limit: nat, appends: seq<AppendCall>)
    requires forall k | 0 <= k < |appends| :: WellFormed(appends[k])
    ensures contents <= Run(contents, limit, appends)
    decreases |appends|
  {
    if appends != [] {
      var next := Step(contents, limit, appends[0]).0;
      RunExtends(next, limit, appends[1..]);
      assert contents <= next;
    }
  }

  /** A refused append changes nothing; an accepted one grows the length by exactly what it adds. */
  lemma StepLength(contents: seq<CodeUnit>, limit: nat, a: AppendCall)
    requires WellFormed(a)
    ensures var (after, r) := Step(contents, limit, a);
      && (r == InvalidStringLength <==> Refused(contents, limit, a))
      && |after| == |contents| + (if r == Appended then |Added(a)| else 0)
  {
  }

  /**
   * String and range appends never pass the limit, and a char append passes
   * it by at most one: from contents within limit + 1, a run of such appends
   * stays within limit + 1.
   */
  lemma {:induction false} TextAppendsBound(contents: seq<CodeUnit>, limit: nat, appends: seq<AppendCall>)
    requires |contents| <= limit + 1
    requires forall k | 0 <= k < |appends| :: WellFormed(appends[k]) && !appends[k].OfInt? && !appends[k].OfLong?
    ensures |Run(contents, limit, appends)| <= limit + 1
    decreases |appends|
  {
    if appends != [] {
      TextAppendsBound(Step(contents, limit, appends[0]).0, limit, appends[1..]);
    }
  }

  /** A char append can take the contents from exactly the limit to limit + 1. */
  lemma CharReachesLimitPlusOne(contents: seq<CodeUnit>, limit: nat, c: CodeUnit)
    requires |contents| == limit
    ensures Step(contents, limit, OfChar(c)) == (contents + [c], Appended)
    ensures |Step(contents, limit, OfChar(c)).0| == limit + 1
  {
  }

  /** Powers of ten, for the length of a decimal rendering. */
  function Pow10(k: nat): (r: nat)
    ensures r >= 1
  {
    if k == 0 then 1 else 10 * Pow10(k - 1)
  }

  /** The powers of ten that bound the `int` and `long` ranges. */
  lemma Pow10Values()
    ensures Pow10(10) == 10_000_000_000
    ensures Pow10(18) == 1_000_000_000_000_000_000
    ensures Pow10(19) == 10_000_000_000_000_000_000
  {
    assert Pow10(2) == 100;
    assert Pow10(4) == 10_000;
    assert Pow10(6) == 1_000_000;
    assert Pow10(8) == 100_000_000;
    assert Pow10(10) == 10_000_000_000;
    assert Pow10(12) == 1_000_000_000_000;
    assert Pow10(14) == 100_000_000_000_000;
    assert Pow10(16) == 10_000_000_000_000_000;
    assert Pow10(18) == 1_000_000_000_000_000_000;
  }

  /** A number below 10^k is rendered in at most k digits. */
  lemma {:induction false} DecimalLength(n: nat, k: nat)
    requires 1 <= k && n < Pow10(k)
    ensures |Decimal(n)| <= k
    decreases k
  {
    assert Pow10(1) == 10;
    if n >= 10 {
      DecimalLength(n / 10, k - 1);
    }
  }

  /** Integer.toString has at most 11 code units and Long.toString at most 20. */
  lemma JavaDecimalLength(v: int)
    requires IsInt64(v)
    ensures |JavaDecimal(v)| <= 20
    ensures IsInt32(v) ==> |JavaDecimal(v)| <= 11
  {
    Pow10Values();
    if v < 0 {
      DecimalLength(-v, 19);
      if IsInt32(v) { DecimalLength(-v, 10); }
    } else {
      DecimalLength(v, 19);
      if IsInt32(v) { DecimalLength(v, 10); }
    }
  }

  /**
   * The numeric appends check the length before appending, so they can pass
   * the limit further than a char append: from contents within limit + 1,
   * any run of appends stays within limit + 20, the longest `long` text.
   */
  lemma {:induction false} AllAppendsBound(contents: seq<CodeUnit>, limit: nat, appends: seq<AppendCall>)
    requires |contents| <= limit + 20
    requires forall k | 0 <= k < |appends| :: WellFormed(appends[k])
    ensures |Run(contents, limit, appends)| <= limit + 20
    decreases |appends|
  {
    if appends != [] {
      var a := appends[0];
      if a.OfInt? || a.OfLong? {
        JavaDecimalLength(if a.OfInt? then a.intValue else a.longValue);
      }
      AllAppendsBound(Step(contents, limit, a).0, limit, appends[1..]);
    }
  }

  /** Long.MIN_VALUE reaches that bound: appended at the limit it leaves limit + 20 code units. */
  lemma LongTextReachesBound(contents: seq<CodeUnit>, limit: nat)
    requires |contents| == limit
    ensures |Step(contents, limit, OfLong(-0x8000_0000_0000_0000)).0| == limit + 20
  {
    var n := 0x8000_0000_0000_0000;
    Pow10Values();
    DecimalAtLeast(n, 18);
    JavaDecimalLength(-n);
  }

  /** A number of at least 10^k has more than k digits. */
  lemma {:induction false} DecimalAtLeast(n: nat, k: nat)
    requires Pow10(k) <= n
    ensures |Decimal(n)| >= k + 1
    decreases k
  {
    if k > 0 {
      DecimalAtLeast(n / 10, k - 1);
    }
  }
}
