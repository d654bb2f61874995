/**
 * The JavaScript values the injector stores and drills into: what is truthy,
 * what `value[key]` gives, and what `Object.getOwnPropertyNames` lists.
 * Numbers are integers; objects, functions and loaded module exports are
 * `Obj` values holding their own properties in creation order.
 */
module JsValues {
  import opened Wrappers
  import opened Text

  datatype Value =
    | Undefined
    | Null
    | Bool(b: bool)
    | Num(n: int)
    | Str(s: string)
    | Obj(props: seq<Prop>)
    | Arr(elems: seq<Value>)
    | InjectorRef          // the injector instance itself, as stored under `injector`

  datatype Prop = Prop(key: string, val: Value)

  /** The ways evaluation throws in the core. */
  datatype JsError =
    | TypeError            // reading a property of undefined or null, or of a failed regex match
    | InvalidSpecification // `get` called with a spec that is not a string, array or function
    | FileNotFound(path: string)
    | ModuleNotFound(id: string)

  /** `!!v`: false exactly for undefined, null, false, 0 and the empty string. */
  predicate Truthy(v: Value) {
    match v
    case Undefined => false
    case Null => false
    case Bool(b) => b
    case Num(n) => n != 0
    case Str(s) => s != ""
    case _ => true
  }

  /** The value of the first own property named `key`, if any. */
  function PropLookup(props: seq<Prop>, key: string): (r: Option<Value>)
    ensures r.Some? <==> exists i :: 0 <= i < |props| && props[i].key == key
    ensures r.Some? ==> exists i :: 0 <= i < |props| && props[i].key == key && props[i].val == r.value
  {
    if props == [] then None
    else if props[0].key == key then Some(props[0].val)
    else PropLookup(props[1..], key)
  }

  /** The element index a property key denotes, when it is a canonical numeral. */
  function IndexOfKey(key: string): (r: Option<nat>)
    ensures r.Some? <==> IsCanonicalNumeral(key)
  {
    if IsCanonicalNumeral(key) then Some(DigitsValue(key)) else None
  }

  /** `v[key]`: own properties only; reading a property of undefined or null throws. */
  function Get(v: Value, key: string): (r: Result<Value, JsError>)
    ensures r.Failure? <==> v.Undefined? || v.Null?
    ensures r.Failure? ==> r.error == TypeError
    ensures v.Obj? ==> r == Success(PropLookup(v.props, key).GetOr(Undefined))
  {
    match v
    case Undefined => Failure(TypeError)
    case Null => Failure(TypeError)
    case Obj(props) => Success(PropLookup(props, key).GetOr(Undefined))
    case Arr(elems) =>
      if key == "length" then Success(Num(|elems|))
      else (match IndexOfKey(key)
            case Some(i) => if i < |elems| then Success(elems[i]) else Success(Undefined)
            case None => Success(Undefined))
    case Str(s) =>
      if key == "length" then Success(Num(|s|))
      else (match IndexOfKey(key)
            case Some(i) => if i < |s| then Success(Str([s[i]])) else Success(Undefined)
            case None => Success(Undefined))
    case _ => Success(Undefined)
  }

  /** The property keys `0`, `1`, ..., `n - 1`. */
  function IndexKeys(n: nat): (r: seq<string>)
    ensures |r| == n
    ensures forall i :: 0 <= i < n ==> r[i] == NatToString(i)
  {
    if n == 0 then [] else IndexKeys(n - 1) + [NatToString(n - 1)]
  }

  /** `Object.getOwnPropertyNames(v)`: element indices, then `length`, for arrays and strings. */
  function OwnPropertyNames(v: Value): seq<string> {
    match v
    case Obj(props) => seq(|props|, i requires 0 <= i < |props| => props[i].key)
    case Arr(elems) => IndexKeys(|elems|) + ["length"]
    case Str(s) => IndexKeys(|s|) + ["length"]
    case _ => []
  }

  /** Every own property name of an array reads back its element or its length. */
  lemma ArrayOwnNamesReadBack(elems: seq<Value>, i: nat)
    requires i < |elems| + 1
    ensures var names := OwnPropertyNames(Arr(elems));
      |names| == |elems| + 1 &&
      Get(Arr(elems), names[i]) == Success(if i < |elems| then elems[i] else Num(|elems|))
  {
    var names := OwnPropertyNames(Arr(elems));
    if i < |elems| {
      assert names[i] == NatToString(i);
      DigitsValueOfNatToString(i);
      assert names[i] != "length" by { assert IsDigit(names[i][0]); }
    }
  }
}
