/**
 * `Injector.prototype.getNestedProperty`: follows a dotted path such as
 * `config.servers[1].host` into a value. A segment whose value is falsy
 * turns the running value into `''`, and from then on every segment leaves
 * it alone.
 */
module Nested {
  import opened Wrappers
  import opened Text
  import opened JsValues
  import opened SpecGrammar

  predicate IsNonWordChar(c: char) {
    !IsWordChar(c)
  }

  /** What `/(\w+)(\[(\d*)\])?/.exec(part)` captures: the first word run, and the digits of a
      bracketed index right after it; `None` when the part has no word character. */
  function ExecPart(part: string): (r: Option<(string, Option<string>)>)
    ensures r.None? <==> forall k :: 0 <= k < |part| ==> !IsWordChar(part[k])
    ensures r.Some? ==> r.value.0 != [] && AllWord(r.value.0)
    ensures r.Some? && r.value.1.Some? ==> AllDigits(r.value.1.value)
  {
    var p := RunEnd(part, 0, IsNonWordChar);
    if p == |part| then None
    else
      var q := RunEnd(part, p, IsWordChar);
      var word := part[p..q];
      if q < |part| && part[q] == '[' then
        var d := RunEnd(part, q + 1, IsDigit);
        if d < |part| && part[d] == ']' then Some((word, Some(part[q + 1..d]))) else Some((word, None))
      else Some((word, None))
  }

  /** A part made of word characters is captured whole, with no index. */
  lemma ExecWord(word: string)
    requires word != [] && AllWord(word)
    ensures ExecPart(word) == Some((word, None))
  {
    RunEndAt(word, 0, 0, IsNonWordChar);
    RunEndAt(word, 0, |word|, IsWordChar);
    assert word[0..|word|] == word;
  }

  /** `word[digits]` captures the word and the digits. */
  lemma ExecIndexed(word: string, digits: string)
    requires word != [] && AllWord(word) && AllDigits(digits)
    ensures ExecPart(word + "[" + digits + "]") == Some((word, Some(digits)))
  {
    var part := word + "[" + digits + "]";
    var q := |word|;
    assert !IsWordChar(part[q]);
    RunEndAt(part, 0, 0, IsNonWordChar);
    forall k | 0 <= k < q ensures IsWordChar(part[k]) {
      assert part[k] == word[k];
    }
    RunEndAt(part, 0, q, IsWordChar);
    forall k | q + 1 <= k < q + 1 + |digits| ensures IsDigit(part[k]) {
      assert part[k] == digits[k - q - 1];
    }
    RunEndAt(part, q + 1, q + 1 + |digits|, IsDigit);
    assert part[..q] == word;
    assert part[q + 1..q + 1 + |digits|] == digits;
  }

  /** The property key `value[parseInt(digits, 10)]` reads: `NaN` for no digits. */
  function IndexKey(digits: string): (k: string)
    requires AllDigits(digits)
    ensures digits != "" ==> IsCanonicalNumeral(k) && DigitsValue(k) == DigitsValue(digits)
  {
    if digits == "" then "NaN" else StripLeadingZeros(digits)
  }

  /** One iteration of the `forEach` over the path's parts. */
  function Step(value: Value, part: string): (r: Result<Value, JsError>)
    ensures value == Str("") ==> r == Success(value)
    ensures part == "" ==> r == Success(value)
    ensures r.Failure? ==> r.error == TypeError
  {
    if value == Str("") || part == "" then Success(value)
    else match ExecPart(part)
      case None => Failure(TypeError)
      case Some((word, index)) =>
        match Get(value, word)
        case Failure(e) => Failure(e)
        case Success(v) =>
          var v1 := if Truthy(v) then v else Str("");
          if index.Some? && Truthy(v1) then Get(v1, IndexKey(index.value)) else Success(v1)
  }

  /** The value after all the parts, or the error the first throwing part raises. */
  function Descend(value: Value, parts: seq<string>): (r: Result<Value, JsError>)
    ensures r.Failure? ==> r.error == TypeError
    decreases |parts|
  {
    if parts == [] then Success(value)
    else match Step(value, parts[0])
      case Failure(e) => Failure(e)
      case Success(v) => Descend(v, parts[1..])
  }

  /** `getNestedProperty(obj, propPath)` as a value. */
  function NestedProperty(obj: Value, propPath: string): (r: Result<Value, JsError>)
    ensures r.Failure? ==> r.error == TypeError
  {
    Descend(obj, Split(propPath, '.'))
  }

  /** The accessor's loop over the parts of the path. */
  method GetNestedProperty(obj: Value, propPath: string) returns (r: Result<Value, JsError>)
    ensures r == NestedProperty(obj, propPath)
  {
    var parts := Split(propPath, '.');
    var value := obj;
    var i := 0;
    while i < |parts|
      invariant 0 <= i <= |parts|
      invariant Descend(value, parts[i..]) == Descend(obj, parts)
    {
      assert parts[i..][1..] == parts[i + 1..];
      var next := Step(value, parts[i]);
      if next.Failure? {
        return Failure(next.error);
      }
      value := next.value;
      i := i + 1;
    }
    return Success(value);
  }

  /** An empty path gives the object back. */
  lemma EmptyPathIsIdentity(obj: Value)
    ensures NestedProperty(obj, "") == Success(obj)
  {
    assert Split("", '.') == [""];
    assert Split("", '.')[1..] == [];
  }

  /** Once the running value is `''`, every remaining part leaves it alone. */
  lemma {:induction false} SentinelAbsorbs(parts: seq<string>)
    ensures Descend(Str(""), parts) == Success(Str(""))
    decreases |parts|
  {
    if parts != [] {
      SentinelAbsorbs(parts[1..]);
    }
  }

  /** A missing property turns the value into `''` and the rest of the path is skipped. */
  lemma MissingSegmentStops(props: seq<Prop>, word: string, rest: seq<string>)
    requires word != [] && AllWord(word)
    requires PropLookup(props, word).None?
    ensures Descend(Obj(props), [word] + rest) == Success(Str(""))
  {
    ExecWord(word);
    assert Step(Obj(props), word) == Success(Str(""));
    assert ([word] + rest)[1..] == rest;
    SentinelAbsorbs(rest);
  }

  /** `a.b` reads property `b` of property `a`, when both are truthy. */
  lemma DottedPath(props: seq<Prop>, a: string, inner: seq<Prop>, b: string, v: Value)
    requires a != [] && AllWord(a) && b != [] && AllWord(b)
    requires PropLookup(props, a) == Some(Obj(inner)) && PropLookup(inner, b) == Some(v) && Truthy(v)
    ensures NestedProperty(Obj(props), a + "." + b) == Success(v)
  {
    assert '.' !in a by { assert forall k :: 0 <= k < |a| ==> IsWordChar(a[k]); }
    assert '.' !in b by { assert forall k :: 0 <= k < |b| ==> IsWordChar(b[k]); }
    SplitAtSeparator(a, '.', b);
    SplitNoSeparator(b, '.');
    var parts := Split(a + "." + b, '.');
    assert parts == [a, b];
    StepWord(props, a, Obj(inner));
    StepWord(inner, b, v);
    assert parts[1..] == [b] && parts[1..][1..] == [];
    assert Descend(v, []) == Success(v);
    assert Descend(Obj(inner), [b]) == Success(v);
  }

  /** A word part steps to the property it names. */
  lemma StepWord(props: seq<Prop>, word: string, v: Value)
    requires word != [] && AllWord(word) && PropLookup(props, word) == Some(v) && Truthy(v)
    ensures Step(Obj(props), word) == Success(v)
  {
    ExecWord(word);
  }

  /** An indexed part `list[i]` steps to element `i` of the array under `list`. */
  lemma StepIndexed(props: seq<Prop>, list: string, elems: seq<Value>, i: nat)
    requires list != [] && AllWord(list)
    requires PropLookup(props, list) == Some(Arr(elems)) && i < |elems|
    ensures Step(Obj(props), list + "[" + NatToString(i) + "]") == Success(elems[i])
  {
    var digits := NatToString(i);
    ExecIndexed(list, digits);
    DigitsValueOfNatToString(i);
    assert IndexKey(digits) == digits;
    assert digits != "length" by { assert IsDigit(digits[0]); }
    assert IndexOfKey(digits) == Some(i);
    assert Get(Arr(elems), digits) == Success(elems[i]);
  }

  /** `list[i]` reads element `i` of a non-empty array property `list`. */
  lemma IndexedPath(props: seq<Prop>, list: string, elems: seq<Value>, i: nat)
    requires list != [] && AllWord(list)
    requires PropLookup(props, list) == Some(Arr(elems)) && i < |elems|
    ensures NestedProperty(Obj(props), list + "[" + NatToString(i) + "]") == Success(elems[i])
  {
    var digits := NatToString(i);
    var part := list + "[" + digits + "]";
    assert '.' !in part by {
      forall k | 0 <= k < |part| ensures part[k] != '.' {
        if k < |list| { assert part[k] == list[k]; }
        else if |list| < k < |list| + 1 + |digits| { assert part[k] == digits[k - |list| - 1]; }
      }
    }
    SplitNoSeparator(part, '.');
    StepIndexed(props, list, elems, i);
    assert [part][1..] == [];
    assert Descend(elems[i], []) == Success(elems[i]);
  }
}
