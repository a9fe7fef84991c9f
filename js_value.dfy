/**
 * The JSON-shaped JavaScript values the application manipulates, with the
 * few language operations its data layer uses: truthiness, `||`, property
 * access, object spread, string conversion in template literals and
 * `Array.prototype.map` with a callback that may throw.
 */
module JsValue {
  import opened Wrappers
  import opened JsText

  /** A JavaScript value as produced by `JSON.parse`, plus `undefined`. */
  datatype Value =
    | Undefined
    | Null
    | Bool(b: bool)
    | Num(n: int)
    | Str(s: string)
    | Arr(elems: seq<Value>)
    | Obj(fields: map<string, Value>)

  /** `null` or `undefined`: the values whose property access throws a TypeError. */
  predicate Nullish(v: Value)
  {
    v.Undefined? || v.Null?
  }

  /** JavaScript truthiness: `undefined`, `null`, `false`, `0` and `""` are falsy. */
  predicate Truthy(v: Value)
  {
    match v
    case Undefined => false
    case Null => false
    case Bool(b) => b
    case Num(n) => n != 0
    case Str(s) => s != ""
    case Arr(_) => true
    case Obj(_) => true
  }

  /** `a || b`: the first operand when it is truthy, otherwise the second. */
  function Or(a: Value, b: Value): (r: Value)
    ensures Truthy(r) <==> Truthy(a) || Truthy(b)
    ensures r == a || r == b
    ensures Truthy(a) ==> r == a
    ensures !Truthy(a) ==> r == b
  {
    if Truthy(a) then a else b
  }

  /**
   * `v[key]` for the data keys used here (`id`, `title`, `topics`, ...):
   * an object's own field, `undefined` when it is missing or when `v` is not
   * an object. On `null` and `undefined` JavaScript throws instead; callers
   * that model the throw test `Nullish` first.
   */
  function Get(v: Value, key: string): (r: Value)
    ensures v.Obj? && key in v.fields ==> r == v.fields[key]
    ensures !(v.Obj? && key in v.fields) ==> r == Undefined
  {
    if v.Obj? && key in v.fields then v.fields[key] else Undefined
  }

  /** The own enumerable properties of an array or string: index keys "0", "1", ... */
  function IndexKeys(items: seq<Value>): (m: map<string, Value>)
    ensures forall k :: k in m ==> k != [] && forall i :: 0 <= i < |k| ==> '0' <= k[i] <= '9'
    decreases |items|
  {
    if items == [] then map[]
    else IndexKeys(items[..|items| - 1])[NatToString(|items| - 1) := items[|items| - 1]]
  }

  /** The properties that `{...v}` copies out of `v`. */
  function Spread(v: Value): (m: map<string, Value>)
    ensures v.Obj? ==> m == v.fields
    ensures !(v.Obj? || v.Arr? || v.Str?) ==> m == map[]
  {
    match v
    case Obj(fields) => fields
    case Arr(elems) => IndexKeys(elems)
    case Str(s) => IndexKeys(seq(|s|, i requires 0 <= i < |s| => Str([s[i]])))
    case _ => map[]
  }

  /** `String(v)`, which is what `${v}` inserts into a template literal. */
  function ToStr(v: Value): (r: string)
    ensures v.Undefined? ==> r == "undefined"
    ensures v.Null? ==> r == "null"
    ensures v.Bool? ==> r == if v.b then "true" else "false"
    ensures v.Str? ==> r == v.s
    ensures v.Num? && v.n >= 0 ==> AllDigits(r) && DigitsValue(r) == v.n
    ensures v.Num? && v.n < 0 ==> |r| > 1 && r[0] == '-' && AllDigits(r[1..]) && DigitsValue(r[1..]) == -v.n
    ensures v.Arr? && v.elems == [] ==> r == ""
    ensures v.Obj? ==> r == "[object Object]"
    decreases v, if v.Arr? then |v.elems| + 1 else 0
  {
    match v
    case Undefined => "undefined"
    case Null => "null"
    case Bool(b) => if b then "true" else "false"
    case Num(n) => IntToString(n)
    case Str(s) => s
    case Arr(elems) => JoinFrom(v, 0)
    case Obj(_) => "[object Object]"
  }

  /** `Array.prototype.join(",")` of the elements of `arr` from index `i` on. */
  function JoinFrom(arr: Value, i: nat): string
    requires arr.Arr? && i <= |arr.elems|
    decreases arr, |arr.elems| - i
  {
    if i == |arr.elems| then ""
    else
      var e := arr.elems[i];
      var piece := if Nullish(e) then "" else ToStr(e);
      if i + 1 == |arr.elems| then piece else piece + "," + JoinFrom(arr, i + 1)
  }
  /** The text an array element contributes to `String(array)`: nothing for `null` and `undefined`. */
  function ElementText(e: Value): string
  {
    if Nullish(e) then "" else ToStr(e)
  }

  /** `JoinFrom` does not depend on the elements before `i`. */
  lemma {:induction false} JoinFromShift(elems: seq<Value>, i: nat)
    requires 1 <= i <= |elems|
    ensures JoinFrom(Arr(elems), i) == JoinFrom(Arr(elems[1..]), i - 1)
    decreases |elems| - i
  {
    if i < |elems| {
      assert elems[i] == elems[1..][i - 1];
      if i + 1 < |elems| {
        JoinFromShift(elems, i + 1);
      }
    }
  }

  /**
   * `String(array)` is `array.join(",")`: a one-element array renders as its
   * element's text, and a longer one as the first element's text, a comma,
   * and the rendering of the rest.
   */
  lemma ArrayText(elems: seq<Value>)
    requires elems != []
    ensures |elems| == 1 ==> ToStr(Arr(elems)) == ElementText(elems[0])
    ensures |elems| > 1 ==> ToStr(Arr(elems)) == ElementText(elems[0]) + "," + ToStr(Arr(elems[1..]))
  {
    if |elems| > 1 {
      JoinFromShift(elems, 1);
    }
  }


  /**
   * `items.map((x, i) => f(x, i))` where the callback may throw (`None`): the
   * first throw aborts the whole map.
   */
  function MapAll(items: seq<Value>, f: (Value, nat) -> Option<Value>): (r: Option<seq<Value>>)
    ensures r.Some? <==> forall i :: 0 <= i < |items| ==> f(items[i], i).Some?
    ensures r.Some? ==> |r.value| == |items|
    ensures r.Some? ==> forall i :: 0 <= i < |items| ==> r.value[i] == f(items[i], i).value
    decreases |items|
  {
    if items == [] then Some([])
    else
      var last := |items| - 1;
      match MapAll(items[..last], f)
      case None => None
      case Some(front) =>
        match f(items[last], last)
        case None => None
        case Some(x) => Some(front + [x])
  }

  /** `map` with a callback that returns every element unchanged is the identity. */
  lemma {:induction false} MapAllFixpoint(items: seq<Value>, f: (Value, nat) -> Option<Value>)
    requires forall i :: 0 <= i < |items| ==> f(items[i], i) == Some(items[i])
    ensures MapAll(items, f) == Some(items)
  {
    var r := MapAll(items, f).value;
    assert r == items;
  }
}
