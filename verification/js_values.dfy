/**
 * The JavaScript values the services work with: the tree the XML parser
 * hands back (strings, numbers, objects keyed by element or attribute name,
 * arrays for repeated elements) and the rows the store returns.
 *
 * Numbers are integers here; floating point, NaN and the exponent notation
 * `String` uses above 1e21 are not modelled.
 */
module JsValues {

  datatype Value =
    | Undefined
    | Null
    | Bool(b: bool)
    | Num(n: int)
    | Str(s: string)
    | Arr(elems: seq<Value>)
    | Obj(fields: map<string, Value>)

  /** JavaScript truthiness: undefined, null, false, 0 and '' are falsy. */
  predicate Truthy(v: Value): (r: bool)
    ensures Nullish(v) ==> !r
    ensures v.Arr? || v.Obj? ==> r
    ensures v.Str? ==> (r <==> |v.s| > 0)
    ensures v.Bool? ==> (r <==> v.b)
    ensures v.Num? ==> (r <==> v.n != 0)
  {
    match v
    case Undefined => false
    case Null => false
    case Bool(b) => b
    case Num(n) => n != 0
    case Str(s) => s != ""
    case Arr(_) => true
    case Obj(_) => true
  }

  predicate Nullish(v: Value) {
    v.Undefined? || v.Null?
  }

  /** `a ?? b` */
  function Coalesce(a: Value, b: Value): (r: Value)
    ensures r == a || r == b
    ensures Nullish(r) <==> Nullish(a) && Nullish(b)
    ensures Truthy(a) ==> r == OrElse(a, b)
    ensures !Nullish(a) && !Truthy(a) ==> r == a
    ensures Nullish(a) ==> r == b
  {
    if Nullish(a) then b else a
  }

  /** `a || b` */
  function OrElse(a: Value, b: Value): (r: Value)
    ensures r == a || r == b
    ensures Truthy(a) ==> r == a
    ensures !Truthy(a) ==> r == b
    ensures Truthy(r) <==> Truthy(a) || Truthy(b)
  {
    if Truthy(a) then a else b
  }

  /**
   * `v?.[key]`: an own field of an object, and undefined for everything
   * else. Nullish values short-circuit, and numbers, booleans and arrays
   * inherit none of the keys the services read. A string does inherit one,
   * the method `link` of `String.prototype`; that method is not modelled.
   */
  function Get(v: Value, key: string): (r: Value)
    ensures !v.Obj? ==> r == Undefined
    ensures v.Obj? && key in v.fields ==> r == v.fields[key]
    ensures v.Obj? && key !in v.fields ==> r == Undefined
  {
    if v.Obj? && key in v.fields then v.fields[key] else Undefined
  }

  /** `v[i]` on an array: the element at `i`, and undefined past the end or on anything that is not an array. */
  function At(v: Value, i: nat): (r: Value)
    ensures v.Arr? && i < |v.elems| ==> r == v.elems[i]
    ensures !v.Arr? || i >= |v.elems| ==> r == Undefined
  {
    if v.Arr? && i < |v.elems| then v.elems[i] else Undefined
  }

  /** The number a string of decimal digits denotes, most significant first. */
  function DecimalValue(s: string): nat
    requires forall i :: 0 <= i < |s| ==> '0' <= s[i] <= '9'
  {
    if s == [] then 0 else 10 * DecimalValue(s[..|s| - 1]) + (s[|s| - 1] - '0') as nat
  }

  /** The decimal digits of a natural number, most significant first: they denote the number, without a leading zero. */
  function NatToDecimal(n: nat): (r: string)
    decreases n
    ensures |r| > 0
    ensures forall i :: 0 <= i < |r| ==> '0' <= r[i] <= '9'
    ensures DecimalValue(r) == n
    ensures |r| > 1 ==> r[0] != '0'
  {
    var d := ['0' + (n % 10) as char];
    if n < 10 then d else NatToDecimal(n / 10) + d
  }

  /**
   * `String(v)`, as `Array.prototype.join` and property-key conversion use
   * it: arrays join their elements with ',' (undefined and null elements
   * become ''), plain objects print as '[object Object]'.
   */
  function ToStr(v: Value): (r: string)
    decreases v, 1, 0
    ensures v.Str? ==> r == v.s
    ensures v.Num? ==> 0 < |r| && (r[0] == '-' <==> v.n < 0)
    ensures v.Num? ==> forall i :: (if v.n < 0 then 1 else 0) <= i < |r| ==> '0' <= r[i] <= '9'
    ensures v.Arr? && v.elems == [] ==> r == ""
    ensures v.Arr? && |v.elems| == 1 && Nullish(v.elems[0]) ==> r == ""
  {
    match v
    case Undefined => "undefined"
    case Null => "null"
    case Bool(b) => if b then "true" else "false"
    case Num(n) => if n < 0 then "-" + NatToDecimal(-n) else NatToDecimal(n)
    case Str(s) => s
    case Arr(es) => JoinElems(v, 0)
    case Obj(_) => "[object Object]"
  }

  /** A number prints as its absolute value in decimal, without a leading zero, after a '-' when negative. */
  lemma ToStrDecimal(v: Value)
    requires v.Num?
    ensures v.n >= 0 ==> DecimalValue(ToStr(v)) == v.n && (|ToStr(v)| > 1 ==> ToStr(v)[0] != '0')
    ensures v.n < 0 ==> DecimalValue(ToStr(v)[1..]) == -v.n && (|ToStr(v)| > 2 ==> ToStr(v)[1] != '0')
  {
    if v.n < 0 {
      assert ToStr(v)[1..] == NatToDecimal(-v.n);
    }
  }

  /** The elements of array `v` from index `from` on, as `join(',')` prints them. */
  function JoinElems(v: Value, from: nat): string
    requires v.Arr?
    decreases v, 0, |v.elems| - from
  {
    if from >= |v.elems| then ""
    else
      var e := v.elems[from];
      assert e < v;
      var head := if Nullish(e) then "" else ToStr(e);
      if from + 1 == |v.elems| then head else head + "," + JoinElems(v, from + 1)
  }
}
