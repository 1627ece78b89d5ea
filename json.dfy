/**
 * The JavaScript values that reach the handlers: a parsed JSON request body
 * and its members. Two pieces of JavaScript semantics matter to the handlers
 * and are modelled here: truthiness (`!name`, `!updateFields`) and the
 * conversion `String(v)` that `RegExp.prototype.test` applies to a
 * non-string argument, including the TypeError it raises for an object whose
 * own `toString` member cannot be called.
 */
module Json {
  import opened Wrappers

  /** A JSON value as `JSON.parse` produces it. Numbers are modelled as unbounded integers. */
  datatype Json =
    | JNull
    | JBool(b: bool)
    | JNum(n: int)
    | JStr(s: string)
    | JArr(items: seq<Json>)
    | JObj(members: map<string, Json>)

  /** The JSON values JavaScript treats as false. */
  const FalsyValues: set<Json> := {JNull, JBool(false), JNum(0), JStr("")}

  /** JavaScript truthiness: `null`, `false`, `0` and `""` are falsy; arrays and objects are truthy. */
  predicate Truthy(j: Json)
    ensures Truthy(j) <==> j !in FalsyValues
  {
    match j
    case JNull => false
    case JBool(b) => b
    case JNum(n) => n != 0
    case JStr(s) => s != ""
    case JArr(_) => true
    case JObj(_) => true
  }

  /** `undefined` (a missing value) is falsy too. */
  predicate TruthyOpt(o: Option<Json>)
    ensures o.None? ==> !TruthyOpt(o)
    ensures o.Some? ==> (TruthyOpt(o) <==> o.value !in FalsyValues)
  {
    o.Some? && Truthy(o.value)
  }

  function DigitChar(d: nat): (c: char)
    requires d < 10
    ensures '0' <= c <= '9'
  {
    "0123456789"[d]
  }

  /** Decimal notation of a natural number, most significant digit first. */
  function NatDecimal(n: nat): (s: string)
    decreases n
  {
    if n < 10 then [DigitChar(n)] else NatDecimal(n / 10) + [DigitChar(n % 10)]
  }

  /** `String(n)` for an integral number of magnitude below 1e21 (larger ones print in exponent form). */
  function IntDecimal(n: int): string {
    if n < 0 then "-" + NatDecimal(-n) else NatDecimal(n)
  }

  /** Characters that can appear in the string form of a number. */
  predicate NumeralChar(c: char) {
    c == '-' || '0' <= c <= '9'
  }

  lemma {:induction false} NatDecimalNumerals(n: nat)
    ensures |NatDecimal(n)| > 0
    ensures forall i :: 0 <= i < |NatDecimal(n)| ==> '0' <= NatDecimal(n)[i] <= '9'
    decreases n
  {
    if n >= 10 {
      NatDecimalNumerals(n / 10);
    }
  }

  lemma IntDecimalNumerals(n: int)
    ensures forall i :: 0 <= i < |IntDecimal(n)| ==> NumeralChar(IntDecimal(n)[i])
  {
    if n < 0 {
      NatDecimalNumerals(-n);
      assert IntDecimal(n) == "-" + NatDecimal(-n);
    } else {
      NatDecimalNumerals(n);
    }
  }

  /**
   * Whether `String(v)` throws. A JSON object whose own members include
   * `toString` hides the inherited method behind a value that cannot be
   * called, and the inherited `valueOf` returns the object itself, so the
   * conversion raises a TypeError. An array converts each non-null element.
   */
  predicate ToStringThrows(j: Json)
    ensures j.JObj? ==> (ToStringThrows(j) <==> "toString" in j.members)
    ensures j.JNull? || j.JBool? || j.JNum? || j.JStr? ==> !ToStringThrows(j)
    ensures j.JArr? && (forall i :: 0 <= i < |j.items| ==> j.items[i].JNull? || j.items[i].JStr?) ==>
              !ToStringThrows(j)
    decreases j
  {
    match j
    case JObj(members) => "toString" in members
    case JArr(items) => exists i :: 0 <= i < |items| && !items[i].JNull? && ToStringThrows(items[i])
    case _ => false
  }

  /**
   * `String(v)`: what `RegExp.prototype.test` matches against when it is
   * given a value that is not a string. Arrays are joined with commas, with
   * `null` elements as the empty string; plain objects become
   * "[object Object]".
   */
  function JsString(j: Json): (r: string)
    requires !ToStringThrows(j)
    ensures j.JStr? ==> r == j.s
    ensures j.JArr? && |j.items| == 1 && j.items[0].JStr? ==> r == j.items[0].s
    decreases j
  {
    match j
    case JNull => "null"
    case JBool(b) => if b then "true" else "false"
    case JNum(n) => IntDecimal(n)
    case JStr(s) => s
    case JArr(items) => JoinElements(items)
    case JObj(_) => "[object Object]"
  }

  /** `Array.prototype.join(",")` over the string forms of the elements; an array of nulls is all commas. */
  function JoinElements(items: seq<Json>): (r: string)
    requires forall i :: 0 <= i < |items| && !items[i].JNull? ==> !ToStringThrows(items[i])
    ensures |items| > 0 && (forall i :: 0 <= i < |items| ==> items[i].JNull?) ==>
              r == seq(|items| - 1, _ => ',')
    decreases items
  {
    if |items| == 0 then ""
    else
      var last := items[|items| - 1];
      var piece := if last.JNull? then "" else JsString(last);
      if |items| == 1 then piece else JoinElements(items[..|items| - 1]) + "," + piece
  }
}
