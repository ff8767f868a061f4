/**
 The decoded JSON values the homework API answers with, as Python's `json`
 module hands them to the bot, together with the two Python operations the
 bot applies to them: dictionary lookup (`in`, `.get`) and `str()`.
 */
module Json {

  /** A decoded JSON value. Objects keep their fields in document order, like
      the `dict` the decoder builds; the decoder keeps one field per key. */
  datatype Json =
    | JNull
    | JBool(b: bool)
    | JNum(n: int)
    | JStr(s: string)
    | JArr(elems: seq<Json>)
    | JObj(fields: seq<(string, Json)>)

  /** `key in d` for a dictionary `d`. */
  predicate Has(fields: seq<(string, Json)>, key: string) {
    exists i :: 0 <= i < |fields| && fields[i].0 == key
  }

  /** No key occurs twice, as in every `dict` the decoder builds. */
  predicate DistinctKeys(fields: seq<(string, Json)>) {
    forall i, j :: 0 <= i < j < |fields| ==> fields[i].0 != fields[j].0
  }

  /** `d.get(key, default)`: the value stored under `key`, or `default` when the key is absent. */
  function GetOr(fields: seq<(string, Json)>, key: string, default: Json): (v: Json)
    ensures !Has(fields, key) ==> v == default
    ensures Has(fields, key) ==> exists i :: 0 <= i < |fields| && fields[i] == (key, v)
  {
    if |fields| == 0 then default
    else if fields[0].0 == key then fields[0].1
    else
      var v := GetOr(fields[1..], key, default);
      assert forall i :: 0 < i < |fields| ==> fields[i] == fields[1..][i - 1];
      v
  }

  /** The default of `d.get(key, default)` plays no part when the key is present. */
  lemma {:induction false} DefaultIrrelevant(fields: seq<(string, Json)>, key: string, d1: Json, d2: Json)
    requires Has(fields, key)
    ensures GetOr(fields, key, d1) == GetOr(fields, key, d2)
  {
    if fields[0].0 != key {
      var i :| 0 <= i < |fields| && fields[i].0 == key;
      assert fields[1..][i - 1].0 == key;
      DefaultIrrelevant(fields[1..], key, d1, d2);
    }
  }

  /** `d.get(key)`: Python's `None`, which is what JSON `null` decodes to, when the key is absent. */
  function Get(fields: seq<(string, Json)>, key: string): Json {
    GetOr(fields, key, JNull)
  }

  /** Python's name for the type of a decoded value, as error messages print it. */
  function TypeName(j: Json): string {
    match j
    case JNull => "NoneType"
    case JBool(_) => "bool"
    case JNum(_) => "int"
    case JStr(_) => "str"
    case JArr(_) => "list"
    case JObj(_) => "dict"
  }

  function DigitChar(d: nat): char
    requires d < 10
  {
    "0123456789"[d]
  }

  /** Decimal digits of a natural number, without leading zeros. */
  function NatToString(n: nat): string
    decreases n
  {
    if n < 10 then [DigitChar(n)] else NatToString(n / 10) + [DigitChar(n % 10)]
  }

  /** `str(n)` for a Python `int`. */
  function IntToString(n: int): string {
    if n < 0 then "-" + NatToString(-n) else NatToString(n)
  }

  /** The parts joined with ", " between them, as Python prints list items and dict entries. */
  function JoinComma(parts: seq<string>): string {
    if |parts| == 0 then ""
    else if |parts| == 1 then parts[0]
    else parts[0] + ", " + JoinComma(parts[1..])
  }

  /** `repr()` of a decoded value; strings are always single-quoted and never escaped. */
  function Repr(j: Json): string {
    match j
    case JNull => "None"
    case JBool(b) => if b then "True" else "False"
    case JNum(n) => IntToString(n)
    case JStr(s) => "'" + s + "'"
    case JArr(es) =>
      "[" + JoinComma(seq(|es|, i requires 0 <= i < |es| => Repr(es[i]))) + "]"
    case JObj(fs) =>
      "{" + JoinComma(seq(|fs|, i requires 0 <= i < |fs| => "'" + fs[i].0 + "': " + Repr(fs[i].1))) + "}"
  }

  /** `str()` of a decoded value, which is what an f-string interpolates: a string is itself. */
  function Str(j: Json): string {
    if j.JStr? then j.s else Repr(j)
  }
}
