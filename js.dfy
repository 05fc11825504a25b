/** JavaScript values as the request handlers see them (parsed JSON bodies,
    decoded token claims, query results), and the handful of JavaScript and
    SQL conversions the handlers rely on: truthiness, `||`, property access,
    `String(v)`, `trim`, `toLowerCase`, and the way a parameter of a
    parameterised query is compared with a column. */
module Js {

  datatype Option<T> = None | Some(value: T)

  /** A JSON value. Numbers are integers: no handler does arithmetic on them. */
  datatype Value =
    | Undefined
    | Null
    | Bool(b: bool)
    | Num(n: int)
    | Str(s: string)
    | Arr(items: seq<Value>)
    | Obj(props: map<string, Value>)

  /** `!!v` */
  predicate Truthy(v: Value) {
    match v
    case Undefined => false
    case Null => false
    case Bool(b) => b
    case Num(n) => n != 0
    case Str(s) => s != ""
    case Arr(_) => true
    case Obj(_) => true
  }

  /** `v == null`: the values on which a property access throws a TypeError. */
  predicate Nullish(v: Value) {
    v.Undefined? || v.Null?
  }

  /** No element is null or undefined, so reading a property of each one
      never throws. */
  predicate NoneNullish(items: seq<Value>) {
    forall i :: 0 <= i < |items| ==> !Nullish(items[i])
  }

  /** `typeof v === "object"` */
  predicate IsObjectType(v: Value) {
    v.Null? || v.Arr? || v.Obj?
  }

  /** `a || b` */
  function Or(a: Value, b: Value): Value {
    if Truthy(a) then a else b
  }

  /** `v ? 1 : 0` as stored in a TINYINT flag column. */
  function Flag(v: Value): int {
    if Truthy(v) then 1 else 0
  }

  /** The destructured field `key` of a request body. */
  function Field(body: map<string, Value>, key: string): Value {
    if key in body then body[key] else Undefined
  }

  // ---------------------------------------------------------------------
  // Digits and numbers

  predicate IsDigit(c: char) {
    '0' <= c <= '9'
  }

  predicate AllDigits(s: string) {
    forall i :: 0 <= i < |s| ==> IsDigit(s[i])
  }

  function DigitsValue(s: string): nat
    requires AllDigits(s)
    decreases |s|
  {
    if s == [] then 0
    else DigitsValue(s[..|s| - 1]) * 10 + (s[|s| - 1] as int - '0' as int)
  }

  /** The array index a property key denotes: a canonical decimal numeral. */
  function ArrayIndex(key: string): Option<nat> {
    if |key| > 0 && AllDigits(key) && (key[0] != '0' || |key| == 1) then Some(DigitsValue(key))
    else None
  }

  function DigitChar(d: nat): char
    requires d < 10
  {
    ('0' as int + d) as char
  }

  function NatToString(n: nat): (r: string)
    ensures |r| > 0 && AllDigits(r)
    ensures DigitsValue(r) == n
    decreases n
  {
    if n < 10 then [DigitChar(n)]
    else
      var r := NatToString(n / 10) + [DigitChar(n % 10)];
      assert r[..|r| - 1] == NatToString(n / 10);
      r
  }

  function IntToString(n: int): string {
    if n < 0 then "-" + NatToString(-n) else NatToString(n)
  }

  // ---------------------------------------------------------------------
  // Property access and String(v)

  /** `v[key]` for a value that is not nullish: the own properties of an
      object, the indices and `length` of an array or a string, and
      `undefined` for anything else. */
  function Prop(v: Value, key: string): Value {
    match v
    case Obj(props) => if key in props then props[key] else Undefined
    case Arr(items) =>
      if key == "length" then Num(|items|)
      else (match ArrayIndex(key)
            case Some(i) => if i < |items| then items[i] else Undefined
            case None => Undefined)
    case Str(s) =>
      if key == "length" then Num(|s|)
      else (match ArrayIndex(key)
            case Some(i) => if i < |s| then Str([s[i]]) else Undefined
            case None => Undefined)
    case _ => Undefined
  }

  function Join(parts: seq<string>): string {
    if parts == [] then ""
    else if |parts| == 1 then parts[0]
    else parts[0] + "," + Join(parts[1..])
  }

  /** `String(v)`; also the property key `obj[v]` looks up. */
  function ToString(v: Value): string
    decreases v
  {
    match v
    case Undefined => "undefined"
    case Null => "null"
    case Bool(b) => if b then "true" else "false"
    case Num(n) => IntToString(n)
    case Str(s) => s
    case Arr(items) =>
      Join(seq(|items|, i requires 0 <= i < |items| =>
        if Nullish(items[i]) then "" else ToString(items[i])))
    case Obj(_) => "[object Object]"
  }

  /** `JSON.parse(JSON.stringify(v))` for an object or array: `undefined`
      becomes `null` inside arrays and disappears from objects. */
  function JsonCopy(v: Value): (r: Value)
    ensures v.Arr? <==> r.Arr?
    ensures v.Obj? <==> r.Obj?
    decreases v
  {
    match v
    case Undefined => Null
    case Arr(items) => Arr(seq(|items|, i requires 0 <= i < |items| => JsonCopy(items[i])))
    case Obj(props) => Obj(map k | k in props && props[k] != Undefined :: JsonCopy(props[k]))
    case _ => v
  }

  /** A value that has been through JSON once comes back unchanged. */
  lemma {:induction false} JsonCopyIdempotent(v: Value)
    ensures JsonCopy(JsonCopy(v)) == JsonCopy(v)
    decreases v
  {
    match v
    case Arr(items) =>
      forall i | 0 <= i < |items| ensures JsonCopy(JsonCopy(items[i])) == JsonCopy(items[i]) {
        JsonCopyIdempotent(items[i]);
      }
    case Obj(props) =>
      forall k | k in props && props[k] != Undefined
        ensures JsonCopy(JsonCopy(props[k])) == JsonCopy(props[k]) {
        JsonCopyIdempotent(props[k]);
      }
      var once := JsonCopy(v).props;
      assert forall k :: k in once ==> once[k] != Undefined;
    case _ =>
  }

  // ---------------------------------------------------------------------
  // String methods

  /** The characters `String.prototype.trim` removes: WhiteSpace (TAB, VT,
      FF, ZWNBSP and category Zs) and LineTerminator (LF, CR, LS, PS). */
  predicate IsTrimmable(c: char) {
    var k := c as int;
    k == 0x09 || k == 0x0A || k == 0x0B || k == 0x0C || k == 0x0D || k == 0x20 || k == 0xA0 ||
    k == 0x1680 || (0x2000 <= k <= 0x200A) || k == 0x2028 || k == 0x2029 || k == 0x202F ||
    k == 0x205F || k == 0x3000 || k == 0xFEFF
  }

  function TrimStart(s: string): (r: string)
    ensures |r| <= |s| && r == s[|s| - |r|..]
    ensures r == [] || !IsTrimmable(r[0])
    ensures forall i :: 0 <= i < |s| - |r| ==> IsTrimmable(s[i])
  {
    if s != [] && IsTrimmable(s[0]) then TrimStart(s[1..]) else s
  }

  function TrimEnd(s: string): (r: string)
    ensures |r| <= |s| && r == s[..|r|]
    ensures r == [] || !IsTrimmable(r[|r| - 1])
    ensures forall i :: |r| <= i < |s| ==> IsTrimmable(s[i])
  {
    if s != [] && IsTrimmable(s[|s| - 1]) then TrimEnd(s[..|s| - 1]) else s
  }

  /** `s.trim()` */
  function Trim(s: string): string {
    TrimEnd(TrimStart(s))
  }

  function LowerChar(c: char): char {
    if 'A' <= c <= 'Z' then (c as int + 32) as char else c
  }

  /** `s.toLowerCase()` on the ASCII letters. */
  function ToLower(s: string): (r: string)
    ensures |r| == |s|
    ensures forall i :: 0 <= i < |s| ==> r[i] == LowerChar(s[i])
  {
    seq(|s|, i requires 0 <= i < |s| => LowerChar(s[i]))
  }

  /** `s.includes(sub)` on strings. */
  predicate Contains(s: string, sub: string)
    decreases |s|
  {
    if |s| < |sub| then false
    else if s[..|sub|] == sub then true
    else s != [] && Contains(s[1..], sub)
  }

  // ---------------------------------------------------------------------
  // Query parameters

  /** What the driver stores for a parameter: `undefined` becomes NULL. */
  function Stored(v: Value): Value {
    if v.Undefined? then Null else v
  }

  /** `column = ?` on a text column: NULL equals nothing. */
  predicate SqlEq(column: Value, param: Value) {
    !Nullish(column) && !Nullish(param) && column == param
  }

  /** The integer a parameter denotes when compared with an INT column:
      a number, or a string of decimal digits. */
  function SqlInt(v: Value): (r: Option<int>)
    ensures v.Num? ==> r == Some(v.n)
    ensures v.Str? ==> (r.Some? <==> |v.s| > 0 && AllDigits(v.s))
    ensures v.Str? && r.Some? ==> r.value == DigitsValue(v.s)
    ensures !v.Num? && !v.Str? ==> r.None?
  {
    match v
    case Num(n) => Some(n)
    case Str(s) => if |s| > 0 && AllDigits(s) then Some(DigitsValue(s)) else None
    case _ => None
  }

  /** A decimal string of a number is read back as that number. */
  lemma SqlIntOfDecimal(n: nat)
    ensures SqlInt(Str(NatToString(n))) == Some(n)
  {
  }

  /** `id = ?` on an INT column. */
  predicate IdIs(id: int, param: Value) {
    SqlInt(param) == Some(id)
  }
}
