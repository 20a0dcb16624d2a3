/**
 * JSException: a JavaScript error raised inside the engine. Its error type
 * and raw message are fixed when it is created; its message is the type's
 * name, followed by ": " and the raw message when there is one. The realm
 * the error object belongs to is written at most once, and useCallerRealm()
 * makes the first attempt to write it (the callee's realm) be skipped.
 */
module Exceptions {
  import opened Wrappers

  /** The ECMAScript native error types. */
  datatype ErrorType = Error | EvalError | RangeError | ReferenceError | SyntaxError | TypeError | URIError

  /** Enum.name(): the constant's own name. */
  function Name(t: ErrorType): (s: string)
    ensures |s| >= 5
  {
    match t
    case Error => "Error"
    case EvalError => "EvalError"
    case RangeError => "RangeError"
    case ReferenceError => "ReferenceError"
    case SyntaxError => "SyntaxError"
    case TypeError => "TypeError"
    case URIError => "URIError"
  }

  /** A realm and an error object, compared by identity. */
  datatype Realm = Realm(id: nat)
  datatype ErrorObject = ErrorObject(id: nat)

  /** The raw message as text: a null message reads as the empty one. */
  function RawText(raw: Option<string>): string {
    if raw.None? then "" else raw.value
  }

  /** getMessage: the type name alone for a null or empty raw message, else name + ": " + message. */
  function FormatMessage(t: ErrorType, raw: Option<string>): (m: string)
    ensures Name(t) <= m
  {
    var text := RawText(raw);
    if text == "" then Name(t) else Name(t) + ": " + text
  }

  /** The message determines the raw text: it is what follows the name and ": ". */
  lemma MessageRecoversText(t: ErrorType, raw: Option<string>)
    ensures var m := FormatMessage(t, raw);
      var n := |Name(t)|;
      && (RawText(raw) == "" <==> m == Name(t))
      && (RawText(raw) != "" ==> m[n..n + 2] == ": " && m[n + 2..] == RawText(raw))
  {
  }

  /** The first two letters of each name, which already tell the types apart. */
  function Initials(t: ErrorType): (char, char) {
    match t
    case Error => ('E', 'r')
    case EvalError => ('E', 'v')
    case RangeError => ('R', 'a')
    case ReferenceError => ('R', 'e')
    case SyntaxError => ('S', 'y')
    case TypeError => ('T', 'y')
    case URIError => ('U', 'R')
  }

  lemma NameInitials(t: ErrorType)
    ensures (Name(t)[0], Name(t)[1]) == Initials(t)
  {
    match t
    case Error =>
    case EvalError =>
    case RangeError =>
    case ReferenceError =>
    case SyntaxError =>
    case TypeError =>
    case URIError =>
  }

  /** No type's name begins another's, so distinct types never share a message prefix. */
  lemma NamesPrefixFree(t1: ErrorType, t2: ErrorType, m: string)
    requires Name(t1) <= m && Name(t2) <= m
    ensures t1 == t2
  {
    NameInitials(t1);
    NameInitials(t2);
    assert Initials(t1) == (m[0], m[1]) == Initials(t2);
  }

  /** Different exceptions have different messages unless they agree on type and raw text. */
  lemma MessageInjective(t1: ErrorType, raw1: Option<string>, t2: ErrorType, raw2: Option<string>)
    requires FormatMessage(t1, raw1) == FormatMessage(t2, raw2)
    ensures t1 == t2 && RawText(raw1) == RawText(raw2)
  {
    NamesPrefixFree(t1, t2, FormatMessage(t1, raw1));
    MessageRecoversText(t1, raw1);
    MessageRecoversText(t2, raw2);
  }

  /** isSyntaxError, read off the message: it holds exactly when the message begins with "SyntaxError". */
  lemma SyntaxErrorByMessage(t: ErrorType, raw: Option<string>)
    ensures t == SyntaxError <==> "SyntaxError" <= FormatMessage(t, raw)
  {
    if "SyntaxError" <= FormatMessage(t, raw) {
      NamesPrefixFree(t, SyntaxError, FormatMessage(t, raw));
    }
  }

  /* ------------------------------------------------------------- the realm */

  /** The realm fields: the realm, once written, and the skip-the-first-write flag. */
  datatype RealmState = RealmState(realm: Option<Realm>, useCallerRealm: bool)

  /** setRealm(r) on the realm fields; r is None for a null argument, which leaves an unset realm unset. */
  function SetRealmStep(s: RealmState, r: Option<Realm>): RealmState {
    if s.realm.Some? then s
    else if s.useCallerRealm then RealmState(None, false)
    else RealmState(r, s.useCallerRealm)
  }

  /** The calls that change the realm fields. */
  datatype RealmCall = SetRealm(realm: Option<Realm>) | UseCallerRealm

  function RealmStep(s: RealmState, c: RealmCall): RealmState {
    match c
    case SetRealm(r) => SetRealmStep(s, r)
    case UseCallerRealm => s.(useCallerRealm := true)
  }

  /** The realm fields after a sequence of calls. */
  function RealmRun(s: RealmState, calls: seq<RealmCall>): RealmState
    decreases |calls|
  {
    if calls == [] then s else RealmRun(RealmStep(s, calls[0]), calls[1..])
  }

  /** Write-once: a realm, once set, survives every later call. */
  lemma {:induction false} RealmWriteOnce(s: RealmState, calls: seq<RealmCall>)
    requires s.realm.Some?
    ensures RealmRun(s, calls).realm == s.realm
    decreases |calls|
  {
    if calls != [] {
      RealmWriteOnce(RealmStep(s, calls[0]), calls[1..]);
    }
  }

  /** The first non-null argument of a setRealm in a sequence of calls. */
  function FirstSet(calls: seq<RealmCall>): Option<Realm>
    decreases |calls|
  {
    if calls == [] then None
    else if calls[0].SetRealm? && calls[0].realm.Some? then calls[0].realm
    else FirstSet(calls[1..])
  }

  /**
   * Without useCallerRealm, an unset realm becomes the first non-null argument
   * of a setRealm: a null argument leaves it unset for the next call.
   */
  lemma {:induction false} FirstSetWins(calls: seq<RealmCall>)
    requires forall k | 0 <= k < |calls| :: calls[k].SetRealm?
    ensures RealmRun(RealmState(None, false), calls).realm == FirstSet(calls)
    decreases |calls|
  {
    if calls != [] {
      var s := RealmStep(RealmState(None, false), calls[0]);
      if calls[0].realm.Some? {
        RealmWriteOnce(s, calls[1..]);
      } else {
        assert s == RealmState(None, false);
        FirstSetWins(calls[1..]);
      }
    }
  }

  /**
   * After useCallerRealm on an unset realm, the first setRealm, whatever its
   * argument (null included), only clears the
   * flag and the realm stays unset; the next one stores its argument.
   */
  lemma CallerRealmSkipsFirst(s: RealmState, callee: Option<Realm>, caller: Realm)
    requires s.realm.None?
    ensures RealmRun(s, [UseCallerRealm, SetRealm(callee)]) == RealmState(None, false)
    ensures RealmRun(s, [UseCallerRealm, SetRealm(callee), SetRealm(Some(caller))]).realm == Some(caller)
  {
    var skipping := RealmStep(s, UseCallerRealm);
    var cleared := RealmStep(skipping, SetRealm(callee));
    assert cleared == RealmState(None, false);
    assert [UseCallerRealm, SetRealm(callee)][1..] == [SetRealm(callee)];
    assert RealmRun(skipping, [SetRealm(callee)]) == RealmRun(cleared, []);
    assert [UseCallerRealm, SetRealm(callee), SetRealm(Some(caller))][1..] == [SetRealm(callee), SetRealm(Some(caller))];
    assert [SetRealm(callee), SetRealm(Some(caller))][1..] == [SetRealm(Some(caller))];
    assert RealmRun(cleared, [SetRealm(Some(caller))]) == RealmRun(RealmState(Some(caller), false), []);
  }

  class JSException {
    const errorType: ErrorType
    /** Throwable's detail message; None for null. */
    const rawMessage: Option<string>
    var exceptionObj: Option<ErrorObject>
    var realm: Option<Realm>
    var useCallerRealm: bool

    /** The private constructors: type, message and optional error object; no realm yet. */
    constructor (errorType: ErrorType, message: Option<string>, exceptionObj: Option<ErrorObject>)
      ensures this.errorType == errorType && rawMessage == message && this.exceptionObj == exceptionObj
      ensures realm == None && !useCallerRealm
    {
      this.errorType := errorType;
      rawMessage := message;
      this.exceptionObj := exceptionObj;
      realm := None;
      useCallerRealm := false;
    }

    function RealmFields(): RealmState
      reads this
    {
      RealmState(realm, useCallerRealm)
    }

    /** getMessage. */
    function GetMessage(): (m: string)
      ensures Name(errorType) <= m
      ensures |m| > |Name(errorType)| <==> RawText(rawMessage) != ""
    {
      FormatMessage(errorType, rawMessage)
    }

    function GetRawMessage(): Option<string> {
      rawMessage
    }

    /** getErrorType: the type given at creation. */
    function GetErrorType(): (t: ErrorType)
      ensures Name(t) <= GetMessage()
    {
      errorType
    }

    /** isSyntaxError. */
    predicate IsSyntaxError()
      ensures IsSyntaxError() <==> "SyntaxError" <= GetMessage()
    {
      SyntaxErrorByMessage(errorType, rawMessage);
      errorType == SyntaxError
    }

    function GetErrorObject(): Option<ErrorObject>
      reads this
    {
      exceptionObj
    }

    method SetErrorObject(obj: Option<ErrorObject>)
      modifies this
      ensures exceptionObj == obj && RealmFields() == old(RealmFields())
    {
      exceptionObj := obj;
    }

    function GetRealm(): Option<Realm>
      reads this
    {
      realm
    }

    /**
     * setRealm: write-once, skipping the first write after useCallerRealm;
     * returns this exception. r is None for a null argument.
     */
    method SetRealm(r: Option<Realm>) returns (self: JSException)
      modifies this
      ensures self == this
      ensures RealmFields() == SetRealmStep(old(RealmFields()), r)
      ensures old(realm).Some? ==> realm == old(realm) && useCallerRealm == old(useCallerRealm)
      ensures old(realm).None? && old(useCallerRealm) ==> realm == None && !useCallerRealm
      ensures old(realm).None? && !old(useCallerRealm) ==> realm == r && !useCallerRealm
      ensures exceptionObj == old(exceptionObj)
    {
      if realm.None? {
        if useCallerRealm {
          useCallerRealm := false;
        } else {
          realm := r;
        }
      }
      self := this;
    }

    /** useCallerRealm: set the flag; returns this exception. */
    method UseCallerRealm() returns (self: JSException)
      modifies this
      ensures self == this
      ensures RealmFields() == RealmStep(old(RealmFields()), RealmCall.UseCallerRealm)
      ensures useCallerRealm && realm == old(realm) && exceptionObj == old(exceptionObj)
    {
      useCallerRealm := true;
      self := this;
    }
  }
}
