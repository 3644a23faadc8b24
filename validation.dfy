/** The request-body validators of the HTTP boundary (internal/server/validation.go). */
module Validation {
  import opened Wrappers
  import opened GoValues
  import opened GoStrings

  /** The kinds whose zero value `isEmptyValue` is meant to treat as empty; unsigned integers and other types fall to its default case. */
  predicate EmptiableKind(k: Kind) {
    k != UintKind && k != OtherKind
  }

  /**
   * `isEmptyValue` as written. In a type-switch case that lists several types the
   * variable keeps the type `interface{}`, so `v == 0` compares against the boxed
   * `int` zero: it holds only for a plain `int` zero, never for the sized integer
   * types and never for a float.
   */
  function IsEmptyValueAsWritten(v: Value): (empty: bool)
    ensures v.Int? ==> (empty <==> v == Int(PlainInt, 0))
    ensures v.Float? ==> !empty
    ensures !v.Int? && !v.Float? ==> (empty <==> IsEmptyValue(v))
  {
    match v
    case Nil => true
    case Str(s) => s == ""
    case Int(t, i) => t == PlainInt && i == 0
    case Float(_) => false
    case Bool(b) => !b
    case List(items) => |items| == 0
    case Object(fields) => |fields| == 0
    case Uint(_) => false
    case Other(_) => false
  }

  /** As written, a JSON number `0` (decoded as `float64`) and an `int8` zero do not count as empty. */
  lemma ZeroNumbersNotEmptyAsWritten()
    ensures !IsEmptyValueAsWritten(Float(true)) && IsEmptyValue(Float(true))
    ensures !IsEmptyValueAsWritten(Int(Int8, 0)) && IsEmptyValue(Int(Int8, 0))
    ensures IsEmptyValueAsWritten(Int(PlainInt, 0))
  {
  }

  /**
   * `isEmptyValue` as intended, used by the rest of the model: a value is empty
   * exactly when it is the zero value of one of the kinds the type switch lists.
   */
  function IsEmptyValue(v: Value): (empty: bool)
    ensures empty <==> EmptiableKind(KindOf(v)) && v == ZeroValue(KindOf(v))
  {
    match v
    case Nil => true
    case Str(s) => s == ""
    case Int(_, i) => i == 0
    case Float(isZero) => isZero
    case Bool(b) => !b
    case List(items) => |items| == 0
    case Object(fields) => |fields| == 0
    case Uint(_) => false
    case Other(_) => false
  }

  /** Which reading of `isEmptyValue` a validation uses: the code as written, or as intended. */
  datatype Reading = AsWritten | Intended

  function IsEmpty(reading: Reading, v: Value): bool {
    match reading
    case AsWritten => IsEmptyValueAsWritten(v)
    case Intended => IsEmptyValue(v)
  }

  /** A required field is satisfied when it is present and its value is not empty. */
  predicate Satisfied(reading: Reading, data: map<string, Value>, field: string) {
    field in data && !IsEmpty(reading, data[field])
  }

  /** The error text for a missing or empty required field. */
  function RequiredMessage(field: string): string {
    "フィールド '" + field + "' は必須です"
  }

  /** What `ValidateRequiredFields` returns: the error for the first unsatisfied field, if any. */
  function RequiredFieldsError(reading: Reading, data: map<string, Value>, fields: seq<string>): Option<string> {
    if fields == [] then None
    else if !Satisfied(reading, data, fields[0]) then Some(RequiredMessage(fields[0]))
    else RequiredFieldsError(reading, data, fields[1..])
  }

  /** `ValidateRequiredFields`: walks the list in order and stops at the first missing or empty field. */
  method ValidateRequiredFields(reading: Reading, data: map<string, Value>, requiredFields: seq<string>) returns (err: Option<string>)
    ensures err == RequiredFieldsError(reading, data, requiredFields)
    ensures err.None? <==> forall i :: 0 <= i < |requiredFields| ==> Satisfied(reading, data, requiredFields[i])
    ensures err.Some? ==> exists i :: FirstUnsatisfied(reading, data, requiredFields, i) && err.value == RequiredMessage(requiredFields[i])
  {
    var i := 0;
    while i < |requiredFields|
      invariant 0 <= i <= |requiredFields|
      invariant forall j :: 0 <= j < i ==> Satisfied(reading, data, requiredFields[j])
      invariant RequiredFieldsError(reading, data, requiredFields) == RequiredFieldsError(reading, data, requiredFields[i..])
    {
      var field := requiredFields[i];
      if field !in data || IsEmpty(reading, data[field]) {
        assert requiredFields[i..][0] == field;
        err := Some(RequiredMessage(field));
        assert FirstUnsatisfied(reading, data, requiredFields, i);
        return;
      }
      assert requiredFields[i..][1..] == requiredFields[i + 1..];
      i := i + 1;
    }
    err := None;
  }

  /** Index `i` holds the first field of the list that is not satisfied. */
  predicate FirstUnsatisfied(reading: Reading, data: map<string, Value>, fields: seq<string>, i: int) {
    && 0 <= i < |fields|
    && !Satisfied(reading, data, fields[i])
    && forall j :: 0 <= j < i ==> Satisfied(reading, data, fields[j])
  }

  /** Validation succeeds exactly when every listed field is present and non-empty. */
  lemma {:induction false} RequiredFieldsOkIff(reading: Reading, data: map<string, Value>, fields: seq<string>)
    ensures RequiredFieldsError(reading, data, fields).None? <==> forall i :: 0 <= i < |fields| ==> Satisfied(reading, data, fields[i])
  {
    if fields != [] {
      RequiredFieldsOkIff(reading, data, fields[1..]);
      if Satisfied(reading, data, fields[0]) {
        forall i | 0 < i < |fields| ensures fields[i] == fields[1..][i - 1] { }
      }
    }
  }

  /** On failure the message names the first offending field in list order. */
  lemma {:induction false} RequiredFieldsNamesFirst(reading: Reading, data: map<string, Value>, fields: seq<string>)
    requires RequiredFieldsError(reading, data, fields).Some?
    ensures exists i :: FirstUnsatisfied(reading, data, fields, i) && RequiredFieldsError(reading, data, fields).value == RequiredMessage(fields[i])
  {
    if Satisfied(reading, data, fields[0]) {
      RequiredFieldsNamesFirst(reading, data, fields[1..]);
      var k :| FirstUnsatisfied(reading, data, fields[1..], k) && RequiredFieldsError(reading, data, fields[1..]).value == RequiredMessage(fields[1..][k]);
      assert FirstUnsatisfied(reading, data, fields, k + 1);
    } else {
      assert FirstUnsatisfied(reading, data, fields, 0);
    }
  }

  /** Checking `fs + gs` reports the first failure of `fs`, or else that of `gs`. */
  lemma {:induction false} RequiredFieldsAppend(reading: Reading, data: map<string, Value>, fs: seq<string>, gs: seq<string>)
    ensures RequiredFieldsError(reading, data, fs + gs) ==
      if RequiredFieldsError(reading, data, fs).Some? then RequiredFieldsError(reading, data, fs) else RequiredFieldsError(reading, data, gs)
  {
    if fs == [] {
      assert fs + gs == gs;
    } else {
      assert (fs + gs)[0] == fs[0];
      assert (fs + gs)[1..] == fs[1..] + gs;
      RequiredFieldsAppend(reading, data, fs[1..], gs);
    }
  }

  /** Two bodies agree on a field list when each listed field is absent from both or has the same value in both. */
  predicate AgreeOn(d1: map<string, Value>, d2: map<string, Value>, fields: seq<string>) {
    forall i :: 0 <= i < |fields| ==>
      (fields[i] in d1 <==> fields[i] in d2) && (fields[i] in d1 ==> d1[fields[i]] == d2[fields[i]])
  }

  /** Keys outside the required list never affect the result. */
  lemma {:induction false} RequiredFieldsOnlyListedKeys(reading: Reading, d1: map<string, Value>, d2: map<string, Value>, fields: seq<string>)
    requires AgreeOn(d1, d2, fields)
    ensures RequiredFieldsError(reading, d1, fields) == RequiredFieldsError(reading, d2, fields)
  {
    if fields != [] {
      assert fields[0] in d1 <==> fields[0] in d2;
      assert AgreeOn(d1, d2, fields[1..]) by {
        forall i | 0 <= i < |fields[1..]| ensures fields[1..][i] == fields[i + 1] { }
      }
      RequiredFieldsOnlyListedKeys(reading, d1, d2, fields[1..]);
    }
  }

  /** Adding, replacing or removing a key that is not required leaves the result unchanged; an empty list always passes. */
  lemma RequiredFieldsUnlistedKey(reading: Reading, data: map<string, Value>, fields: seq<string>, key: string, v: Value)
    requires key !in fields
    ensures RequiredFieldsError(reading, data[key := v], fields) == RequiredFieldsError(reading, data, fields)
    ensures RequiredFieldsError(reading, data - {key}, fields) == RequiredFieldsError(reading, data, fields)
    ensures RequiredFieldsError(reading, data, []) == None
  {
    assert forall i :: 0 <= i < |fields| ==> fields[i] != key;
    RequiredFieldsOnlyListedKeys(reading, data[key := v], data, fields);
    RequiredFieldsOnlyListedKeys(reading, data - {key}, data, fields);
  }

  /** The values the two readings of `isEmptyValue` disagree on: a zero of a sized integer type, and a float zero. */
  predicate Disputed(v: Value) {
    v == Float(true) || (v.Int? && v.intType != PlainInt && v.i == 0)
  }

  /** Whatever is empty as written is empty as intended; the converse fails exactly on the disputed values. */
  lemma ReadingsOnValues(v: Value)
    ensures IsEmptyValueAsWritten(v) ==> IsEmptyValue(v)
    ensures IsEmptyValue(v) && !IsEmptyValueAsWritten(v) <==> Disputed(v)
  {
  }

  /** Distinct fields get distinct messages. */
  lemma RequiredMessageInjective(f: string, g: string)
    requires RequiredMessage(f) == RequiredMessage(g)
    ensures f == g
  {
    var m := RequiredMessage(f);
    assert |f| == |g|;
    assert m[7..7 + |f|] == f;
    assert RequiredMessage(g)[7..7 + |g|] == g;
  }

  /**
   * The as-written and the intended validation give different results exactly when
   * the first field that fails the intended test holds a disputed value: as written,
   * that field passes and the walk goes on.
   */
  lemma {:induction false} ReadingsDiffer(data: map<string, Value>, fields: seq<string>)
    ensures RequiredFieldsError(AsWritten, data, fields) != RequiredFieldsError(Intended, data, fields) <==>
      exists i :: FirstUnsatisfied(Intended, data, fields, i) && fields[i] in data && Disputed(data[fields[i]])
  {
    if fields != [] {
      var f := fields[0];
      if f in data {
        ReadingsOnValues(data[f]);
      }
      if Satisfied(Intended, data, f) {
        ReadingsDiffer(data, fields[1..]);
        if exists i :: FirstUnsatisfied(Intended, data, fields[1..], i) && fields[1..][i] in data && Disputed(data[fields[1..][i]]) {
          var i :| FirstUnsatisfied(Intended, data, fields[1..], i) && fields[1..][i] in data && Disputed(data[fields[1..][i]]);
          assert FirstUnsatisfied(Intended, data, fields, i + 1);
        }
        if exists i :: FirstUnsatisfied(Intended, data, fields, i) && fields[i] in data && Disputed(data[fields[i]]) {
          var i :| FirstUnsatisfied(Intended, data, fields, i) && fields[i] in data && Disputed(data[fields[i]]);
          assert i > 0;
          assert FirstUnsatisfied(Intended, data, fields[1..], i - 1);
        }
      } else if f in data && Disputed(data[f]) {
        assert FirstUnsatisfied(Intended, data, fields, 0);
        var rest := RequiredFieldsError(AsWritten, data, fields[1..]);
        if rest == Some(RequiredMessage(f)) {
          RequiredFieldsNamesFirst(AsWritten, data, fields[1..]);
          var k :| FirstUnsatisfied(AsWritten, data, fields[1..], k) && rest.value == RequiredMessage(fields[1..][k]);
          RequiredMessageInjective(f, fields[1..][k]);
          assert false;
        }
      } else {
        forall i | FirstUnsatisfied(Intended, data, fields, i) ensures i == 0 { }
      }
    }
  }

  /**
   * A JSON `0` decodes as `float64(0)`: as written it satisfies a required field,
   * as intended it does not.
   */
  lemma JsonZeroPassesAsWritten()
    ensures RequiredFieldsError(AsWritten, map["n" := Float(true)], ["n"]) == None
    ensures RequiredFieldsError(Intended, map["n" := Float(true)], ["n"]) == Some(RequiredMessage("n"))
  {
  }

  /**
   * The intended test on its edge cases: an unsigned zero and a value of an unlisted
   * type are not empty, nor is a non-empty list or map; zeros of every signed integer
   * type and a float zero are empty.
   */
  lemma EmptinessEdgeCases()
    ensures !IsEmptyValue(Uint(0))
    ensures !IsEmptyValue(Other(0))
    ensures !IsEmptyValue(List([Nil]))
    ensures !IsEmptyValue(Object(map["k" := Nil]))
    ensures IsEmptyValue(Float(true)) && !IsEmptyValue(Float(false))
    ensures IsEmptyValue(Int(Int64, 0)) && !IsEmptyValue(Int(PlainInt, -1))
  {
  }

  const EmailMessage: string := "メールアドレスの形式が不正です"
  const PasswordMessage: string := "パスワードは8文字以上必要です"

  /** `ValidateEmail`: accepts exactly the strings that contain both an `@` and a `.`, anywhere and in any order. */
  function ValidateEmail(email: string): (err: Option<string>)
    ensures err.None? <==> ('@' in email && '.' in email)
    ensures err.Some? ==> err.value == EmailMessage
  {
    ContainsChar(email, '@');
    ContainsChar(email, '.');
    if !Contains(email, "@") || !Contains(email, ".") then Some(EmailMessage) else None
  }

  /** The check is deliberately loose: order and position do not matter. */
  lemma EmailAccepted()
    ensures ValidateEmail(".@") == None
    ensures ValidateEmail("alice@example.com") == None
  {
  }

  /** Either character alone is not enough. */
  lemma EmailRejected()
    ensures ValidateEmail("alice@example") == Some(EmailMessage)
    ensures ValidateEmail("alice.example.com") == Some(EmailMessage)
    ensures ValidateEmail("") == Some(EmailMessage)
  {
  }

  /** `ValidatePassword`: accepts exactly the passwords whose UTF-8 encoding has at least 8 bytes. */
  function ValidatePassword(password: string): (err: Option<string>)
    ensures err.None? <==> ByteLength(password) >= 8
    ensures |password| >= 8 ==> err.None?
    ensures err.Some? ==> err.value == PasswordMessage
  {
    if ByteLength(password) < 8 then Some(PasswordMessage) else None
  }

  /** On ASCII passwords the limit is eight characters. */
  lemma PasswordAsciiLimit()
    ensures ValidatePassword("Secret1") == Some(PasswordMessage)
    ensures ValidatePassword("Secret12") == None
  {
  }

  /**
   * The length is counted in bytes although the message speaks of characters:
   * five Japanese characters (15 bytes) pass.
   */
  lemma PasswordCountsBytes()
    ensures |"パスワード"| == 5 && ValidatePassword("パスワード") == None
  {
  }
}
