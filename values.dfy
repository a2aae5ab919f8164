/**
 * The JavaScript values this core handles: what JSON.parse makes of a
 * response body, plus `undefined` for an option the caller left out.
 * Numbers are integers. An object keeps its properties in the order a
 * `for...in` loop or Object.keys visits them.
 */
module JsValues {
  import opened Decimal

  datatype Value =
    | Undefined
    | Null
    | Bool(b: bool)
    | Num(n: int)
    | Str(s: string)
    | Arr(elems: seq<Value>)
    | Obj(props: seq<(string, Value)>)

  /** The own properties of an object, in enumeration order. */
  type Props = seq<(string, Value)>

  function Keys(p: Props): (ks: seq<string>)
    ensures |ks| == |p|
    ensures forall i :: 0 <= i < |p| ==> ks[i] == p[i].0
  {
    if p == [] then [] else [p[0].0] + Keys(p[1..])
  }

  /** A JavaScript object never holds the same property twice. */
  predicate DistinctKeys(p: Props) {
    forall i, j :: 0 <= i < j < |p| ==> p[i].0 != p[j].0
  }

  /** `o[k]` on an object with properties p. */
  function Lookup(p: Props, k: string): (v: Value)
    ensures k !in Keys(p) ==> v == Undefined
  {
    if p == [] then Undefined
    else if p[0].0 == k then p[0].1
    else Lookup(p[1..], k)
  }

  /** A property that no earlier one shadows is the one Lookup finds. */
  lemma {:induction false} LookupAt(p: Props, i: nat)
    requires i < |p|
    requires forall j :: 0 <= j < i ==> p[j].0 != p[i].0
    ensures Lookup(p, p[i].0) == p[i].1
    decreases i
  {
    if i > 0 {
      assert forall j :: 0 <= j < i - 1 ==> p[1..][j] == p[j + 1];
      LookupAt(p[1..], i - 1);
    }
  }

  /**
   * `o[k] = v`: an existing property keeps its place and takes the new
   * value; a new property goes last.
   */
  function Put(p: Props, k: string, v: Value): (r: Props)
    ensures Lookup(r, k) == v
    ensures forall k' :: k' != k ==> Lookup(r, k') == Lookup(p, k')
    ensures Keys(r) == if k in Keys(p) then Keys(p) else Keys(p) + [k]
  {
    if p == [] then [(k, v)]
    else if p[0].0 == k then [(k, v)] + p[1..]
    else [p[0]] + Put(p[1..], k, v)
  }

  lemma PutKeepsDistinct(p: Props, k: string, v: Value)
    requires DistinctKeys(p)
    ensures DistinctKeys(Put(p, k, v))
  {
    var r := Put(p, k, v);
    forall i, j | 0 <= i < j < |r| ensures r[i].0 != r[j].0 {
      assert Keys(r)[i] == r[i].0 && Keys(r)[j] == r[j].0;
      if k !in Keys(p) && j == |p| {
        assert Keys(p)[i] == p[i].0;
      } else {
        assert Keys(p)[i] == p[i].0 && Keys(p)[j] == p[j].0;
      }
    }
  }

  /** JavaScript truthiness. */
  predicate Truthy(v: Value) {
    match v
    case Undefined => false
    case Null => false
    case Bool(b) => b
    case Num(n) => n != 0
    case Str(s) => s != ""
    case Arr(_) => true
    case Obj(_) => true
  }

  predicate IsNullish(v: Value) {
    v.Undefined? || v.Null?
  }

  /**
   * Reading `v[k]` for the property names this core uses: only an
   * object has them as own properties; reading one off a primitive, an
   * array or a string yields undefined. (Reading off null or undefined
   * throws; callers check IsNullish first.)
   */
  function Property(v: Value, k: string): Value {
    if v.Obj? then Lookup(v.props, k) else Undefined
  }

  /**
   * The own enumerable properties that `for...in` and Object.keys visit:
   * an object's properties, an array's or a string's indices, and none
   * for the other primitives.
   */
  function OwnEnumerable(v: Value): (p: Props)
    ensures v.Obj? ==> p == v.props
  {
    match v
    case Obj(props) => props
    case Arr(a) => seq(|a|, i requires 0 <= i < |a| => (NatToString(i), a[i]))
    case Str(s) => seq(|s|, i requires 0 <= i < |s| => (NatToString(i), Str([s[i]])))
    case _ => []
  }

  lemma OwnEnumerableDistinct(v: Value)
    requires v.Obj? ==> DistinctKeys(v.props)
    ensures DistinctKeys(OwnEnumerable(v))
  {
    var p := OwnEnumerable(v);
    if !v.Obj? {
      forall i, j | 0 <= i < j < |p| ensures p[i].0 != p[j].0 {
        if p[i].0 == p[j].0 {
          NatToStringInjective(i, j);
        }
      }
    }
  }

  /** ToString, as `+` applies it when one side is a string. */
  function ToJsString(v: Value): string {
    match v
    case Undefined => "undefined"
    case Null => "null"
    case Bool(b) => if b then "true" else "false"
    case Num(n) => IntToString(n)
    case Str(s) => s
    case Arr(a) =>
      JoinWithCommas(seq(|a|, i requires 0 <= i < |a| =>
        if IsNullish(a[i]) then "" else ToJsString(a[i])))
    case Obj(_) => "[object Object]"
  }

  /** Array.prototype.join with its default separator. */
  function JoinWithCommas(parts: seq<string>): string {
    if parts == [] then ""
    else if |parts| == 1 then parts[0]
    else parts[0] + "," + JoinWithCommas(parts[1..])
  }
}
