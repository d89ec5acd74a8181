/** Parsed JSON values as the client sees them after JSON.parse, together with
    the two JavaScript conversions the client applies to them: truthiness
    (`if (!x)`, `x || ''`) and string conversion (template literals,
    Array.prototype.join, document.createTextNode). */
module JsonValue {

  datatype Option<+T> = None | Some(value: T)

  /** A parsed JSON value. Numbers are restricted to integers. */
  datatype Json =
    | JNull
    | JBool(b: bool)
    | JNum(n: int)
    | JStr(s: string)
    | JArr(items: seq<Json>)
    | JObj(fields: seq<(string, Json)>)

  /** JavaScript falsiness of a JSON value: null, false, 0 and the empty string. */
  predicate Falsy(v: Json) {
    v == JNull || v == JBool(false) || v == JNum(0) || v == JStr("")
  }

  /** Property read on a parsed object. JSON.parse keeps the last binding of a
      repeated key, so the search runs from the end. */
  function Lookup(fields: seq<(string, Json)>, key: string): (r: Option<Json>)
    ensures r.None? <==> forall i :: 0 <= i < |fields| ==> fields[i].0 != key
    ensures r.Some? ==> exists i :: 0 <= i < |fields| && fields[i] == (key, r.value) &&
                                   forall j :: i < j < |fields| ==> fields[j].0 != key
  {
    if fields == [] then None
    else if fields[|fields| - 1].0 == key then
      assert fields[|fields| - 1] == (key, fields[|fields| - 1].1);
      Some(fields[|fields| - 1].1)
    else
      var init := fields[..|fields| - 1];
      var r := Lookup(init, key);
      assert forall i :: 0 <= i < |init| ==> init[i] == fields[i];
      if r.Some? then
        var i :| 0 <= i < |init| && init[i] == (key, r.value) &&
                 forall j :: i < j < |init| ==> init[j].0 != key;
        assert fields[i] == (key, r.value);
        r
      else
        r
  }

  /** Truthiness kind by kind: a string is falsy only when empty, a number
      only when zero, a boolean only when false; arrays and objects are
      truthy even when empty. */
  lemma FalsyValues(v: Json)
    ensures v.JStr? ==> (Falsy(v) <==> v.s == "")
    ensures v.JNum? ==> (Falsy(v) <==> v.n == 0)
    ensures v.JBool? ==> (Falsy(v) <==> !v.b)
    ensures v.JArr? || v.JObj? ==> !Falsy(v)
  {
  }

  predicate IsDigit(c: char) {
    '0' <= c <= '9'
  }

  predicate AllDigits(s: string) {
    forall i :: 0 <= i < |s| ==> IsDigit(s[i])
  }

  /** The value of a decimal digit. */
  function DigitValue(c: char): nat
    requires IsDigit(c)
  {
    c as int - '0' as int
  }

  /** The number a string of decimal digits denotes, read left to right. */
  function DigitsValue(s: string): nat
    requires AllDigits(s)
  {
    if s == [] then 0 else DigitsValue(s[..|s| - 1]) * 10 + DigitValue(s[|s| - 1])
  }

  /** `r` is a decimal numeral for n: digits, preceded by '-' when n is negative. */
  predicate Denotes(r: string, n: int) {
    if n < 0 then |r| >= 2 && r[0] == '-' && AllDigits(r[1..]) && DigitsValue(r[1..]) == -n
    else |r| >= 1 && AllDigits(r) && DigitsValue(r) == n
  }

  /** The decimal digit for d. */
  function DigitChar(d: nat): (c: char)
    requires d < 10
    ensures IsDigit(c) && DigitValue(c) == d
  {
    "0123456789"[d]
  }

  /** Decimal text of a natural number, without leading zeros. */
  function NatText(n: nat): (r: string)
    ensures |r| >= 1 && AllDigits(r)
    ensures DigitsValue(r) == n
    ensures r[0] == '0' <==> n == 0
  {
    if n < 10 then [DigitChar(n)]
    else
      var init := NatText(n / 10);
      var r := init + [DigitChar(n % 10)];
      assert r[..|r| - 1] == init;
      r
  }

  /** Number.prototype.toString for an integer of moderate size. */
  function IntText(n: int): (r: string)
    ensures Denotes(r, n)
    ensures r[0] == '-' <==> n < 0
  {
    if n < 0 then
      var r := "-" + NatText(-n);
      assert r[1..] == NatText(-n);
      r
    else NatText(n)
  }

  /** Array.prototype.join: the parts separated by sep; "" for no parts. */
  function Join(parts: seq<string>, sep: string): (r: string)
    ensures parts == [] ==> r == ""
    ensures |parts| == 1 ==> r == parts[0]
  {
    if parts == [] then ""
    else if |parts| == 1 then parts[0]
    else parts[0] + sep + Join(parts[1..], sep)
  }

  /** The items of a JSON array of strings. */
  function StringItems(xs: seq<string>): (r: seq<Json>)
    ensures |r| == |xs|
    ensures forall i :: 0 <= i < |xs| ==> r[i] == JStr(xs[i])
  {
    if xs == [] then [] else [JStr(xs[0])] + StringItems(xs[1..])
  }

  /** String(v): the text JavaScript makes of a parsed value. An array becomes
      its elements joined by commas; a plain object becomes "[object Object]". */
  function JsText(v: Json): (r: string)
    decreases v
    ensures v.JNum? ==> Denotes(r, v.n)
    ensures v.JStr? ==> r == v.s
    ensures v.JArr? && |v.items| == 1 ==> r == ElemTexts(v.items)[0]
    ensures v.JArr? && v.items == [] ==> r == ""
  {
    match v
    case JNull => "null"
    case JBool(b) => if b then "true" else "false"
    case JNum(n) => IntText(n)
    case JStr(s) => s
    case JArr(items) => Join(ElemTexts(items), ",")
    case JObj(_) => "[object Object]"
  }

  /** The texts Array.prototype.join makes of each element: null becomes "". */
  function ElemTexts(items: seq<Json>): (r: seq<string>)
    decreases items
    ensures |r| == |items|
    ensures forall i :: 0 <= i < |items| && items[i].JStr? ==> r[i] == items[i].s
    ensures forall i :: 0 <= i < |items| && items[i] == JNull ==> r[i] == ""
    ensures forall i :: 0 <= i < |items| && items[i] != JNull ==> r[i] == JsText(items[i])
  {
    if items == [] then []
    else [if items[0] == JNull then "" else JsText(items[0])] + ElemTexts(items[1..])
  }
}
