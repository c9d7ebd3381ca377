/** The request bodies as the validation layer sees them, and the
    class-validator decorators the DTOs use, as predicates on a property's
    value. A property that is absent from the body is `undefined`: None. */
module ClassValidator {
  import opened Wrappers

  /** A JSON value; numbers are not modelled beyond being numbers. */
  datatype Json =
    | JNull
    | JBool(b: bool)
    | JNumber(n: int)
    | JString(s: string)
    | JArray(items: seq<Json>)
    | JObject(fields: map<string, Json>)

  /** A property's value: None where it is undefined. */
  type Value = Option<Json>

  function Field(fields: map<string, Json>, name: string): (v: Value)
    ensures v.Some? <==> name in fields
    ensures v.Some? ==> v.value == fields[name]
  {
    if name in fields then Some(fields[name]) else None
  }

  /** `@IsOptional()`: the other decorators are skipped for null or
      undefined. */
  predicate Skipped(v: Value)
  {
    v.None? || v.value.JNull?
  }

  /** `@IsString()`. */
  predicate IsString(v: Value)
  {
    v.Some? && v.value.JString?
  }

  /** `@IsNotEmpty()`: not '', null or undefined. */
  predicate IsNotEmpty(v: Value)
  {
    v.Some? && v.value != JNull && v.value != JString("")
  }

  /** `@IsArray()`. */
  predicate IsArray(v: Value)
  {
    v.Some? && v.value.JArray?
  }

  /** `@IsString({ each: true })`: every element of an array, or the value
      itself. */
  predicate EachString(v: Value)
  {
    match v
    case Some(JArray(items)) => forall i :: 0 <= i < |items| ==> items[i].JString?
    case _ => IsString(v)
  }

  /** The variation selectors U+FE0E and U+FE0F, which length checks do not count. */
  predicate IsPresentationSelector(c: char)
  {
    c == '\U{FE0E}' || c == '\U{FE0F}'
  }

  /** The length `MinLength` and `MaxLength` check: code points, not UTF-16
      units, less the presentation selectors. */
  function ValidatorLength(s: string): (n: nat)
    ensures n <= |s|
    ensures (forall i :: 0 <= i < |s| ==> !IsPresentationSelector(s[i])) ==> n == |s|
  {
    if s == [] then 0
    else (if IsPresentationSelector(s[0]) then 0 else 1) + ValidatorLength(s[1..])
  }

  /** `@MaxLength(n)`. */
  predicate MaxLength(v: Value, n: nat)
  {
    IsString(v) && ValidatorLength(v.value.s) <= n
  }

  /** `@MinLength(n)`. */
  predicate MinLength(v: Value, n: nat)
  {
    IsString(v) && ValidatorLength(v.value.s) >= n
  }

  predicate IsHexDigit(c: char)
  {
    '0' <= c <= '9' || 'a' <= c <= 'f' || 'A' <= c <= 'F'
  }

  predicate AllHex(s: string)
  {
    forall i :: 0 <= i < |s| ==> IsHexDigit(s[i])
  }

  /** Hexadecimal as the validator reads it: an optional `0x` or `0h`
      prefix (either case) and at least one hex digit. */
  predicate IsHexadecimal(s: string)
  {
    (|s| >= 1 && AllHex(s)) ||
    (|s| >= 3 && s[0] == '0' && s[1] in {'x', 'X', 'h', 'H'} && AllHex(s[2..]))
  }

  /** `@IsMongoId()`: a hexadecimal string of length 24. */
  predicate IsMongoId(v: Value)
  {
    IsString(v) && IsHexadecimal(v.value.s) && |v.value.s| == 24
  }

  /** JavaScript's line terminators, which `.` does not match. */
  predicate IsLineTerminator(c: char)
  {
    c == '\n' || c == '\r' || c == '\U{2028}' || c == '\U{2029}'
  }

  /** `/^(?=.*[0-9])/`: an ASCII digit with no line terminator before it. */
  predicate DigitBeforeLineBreak(s: string)
  {
    exists i | 0 <= i < |s| :: '0' <= s[i] <= '9' && forall k | 0 <= k < i :: !IsLineTerminator(s[k])
  }

  /** `@ValidateNested({ each: true })` with `@Type`: each element of an
      array, or an object itself, must be an object that passes `valid`. */
  predicate Nested(v: Value, valid: map<string, Json> -> bool)
  {
    match v
    case Some(JArray(items)) => forall i :: 0 <= i < |items| ==> items[i].JObject? && valid(items[i].fields)
    case Some(JObject(fields)) => valid(fields)
    case _ => false
  }

  /** A Mongo id is 24 characters, all hex digits but perhaps a `0x`-style
      prefix. */
  lemma MongoIdShape(v: Value)
    requires IsMongoId(v)
    ensures |v.value.s| == 24
    ensures AllHex(v.value.s) || AllHex(v.value.s[2..])
  {
  }

  /** The prefix lets a string with only 22 hex digits through. */
  lemma MongoIdAcceptsHexPrefix()
    ensures IsMongoId(Some(JString("0x" + "0123456789abcdef012345")))
  {
    var digits := "0123456789abcdef012345";
    var s := "0x" + digits;
    assert s[2..] == digits;
    forall i | 0 <= i < |digits| ensures IsHexDigit(digits[i]) {
      assert digits[i] == "0123456789abcdef012345"[i];
    }
    assert s[0] == '0' && s[1] == 'x' && |s| == 24;
  }

  /** Surrogate pairs count once: 100 emoji pass `MaxLength(100)`, though a
      JavaScript string of them has length 200. */
  lemma EmojiCountOnce()
    ensures MaxLength(Some(JString(seq(100, _ => '\U{1F600}'))), 100)
  {
    var s := seq(100, _ => '\U{1F600}');
    assert forall i :: 0 <= i < |s| ==> !IsPresentationSelector(s[i]);
  }

  /** A presentation selector is not counted at all: a string of one
      passes `MaxLength(0)`. */
  lemma SelectorIsNotCounted()
    ensures MaxLength(Some(JString("\U{FE0F}")), 0)
  {
    assert "\U{FE0F}"[1..] == [];
  }
}
