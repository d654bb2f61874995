/**
 * The URL generators `RouteMapper` stores as path helpers
 * (`makeUrlGenerator`). A generator fills the `:name` placeholders of its
 * path template from a parameter object, drops a trailing `.:format?` and
 * appends the remaining parameters as a query string. A parameter that is
 * not an object fills `:id`. Calling the generator with no parameters (its
 * `toString`) gives the bare path.
 *
 * `String(v)` and `querystring.stringify` are not modelled: they are the
 * parameters `show` and `stringify`.
 */
module UrlGen {
  import opened Wrappers
  import opened Text
  import opened JsValues
  import opened SpecGrammar
  import opened RouteNames

  // ---------------------------------------------------------------- placeholders

  /** Where `/:(\w+)/g` can match: a `:` followed by a word character. */
  predicate PlaceholderAt(t: string, i: nat) {
    i + 1 < |t| && t[i] == ':' && IsWordChar(t[i + 1])
  }

  /** The start of the match `re.exec` finds searching from `from` (its `lastIndex`). */
  function NextMatch(t: string, from: nat): (r: Option<nat>)
    requires from <= |t|
    ensures r.Some? ==> from <= r.value && PlaceholderAt(t, r.value)
    ensures r.Some? ==> forall j: nat :: from <= j < r.value ==> !PlaceholderAt(t, j)
    ensures r.None? ==> forall j: nat :: from <= j < |t| ==> !PlaceholderAt(t, j)
    decreases |t| - from
  {
    if from == |t| then None
    else if PlaceholderAt(t, from) then Some(from)
    else NextMatch(t, from + 1)
  }

  /** The end of the match at `i`: `\w+` takes every word character it can. */
  function NameEnd(t: string, i: nat): (e: nat)
    requires PlaceholderAt(t, i)
    ensures i + 2 <= e <= |t|
    ensures forall k :: i + 1 <= k < e ==> IsWordChar(t[k])
    ensures e == |t| || !IsWordChar(t[e])
  {
    RunEnd(t, i + 1, IsWordChar)
  }

  /** The names `re.exec` captures from `from` on, in order. */
  function Placeholders(t: string, from: nat): seq<string>
    requires from <= |t|
    decreases |t| - from
  {
    match NextMatch(t, from)
    case None => []
    case Some(i) =>
      var e := NameEnd(t, i);
      [t[i + 1..e]] + Placeholders(t, e)
  }

  // ---------------------------------------------------------------- parameters

  /** `params || {}`. */
  function OrEmpty(params: Value): (p: Value)
    ensures Truthy(params) ==> p == params
    ensures !Truthy(params) ==> p == Obj([])
  {
    if Truthy(params) then params else Obj([])
  }

  /** `typeof params === 'object'` for a truthy value: objects and arrays. */
  predicate IsObject(p: Value) {
    p.Obj? || p.Arr? || p.InjectorRef?
  }

  /** `params[k]` for a parameter object (reading it cannot throw). */
  function ParamOf(p: Value, k: string): Value {
    match Get(p, k)
    case Success(v) => v
    case Failure(_) => Undefined
  }

  /** `Object.keys(params)`. */
  function Keys(p: Value): seq<string> {
    match p
    case Obj(props) => seq(|props|, i requires 0 <= i < |props| => props[i].key)
    case Arr(elems) => IndexKeys(|elems|)
    case _ => []
  }

  // ---------------------------------------------------------------- the url

  /** One pass of the `while` body: a truthy parameter replaces the first `:k` of the url. */
  function Substitute(url: string, k: string, p: Value, show: Value -> string): string {
    var v := ParamOf(p, k);
    if Truthy(v) then ReplaceFirst(url, ":" + k, show(v)) else url
  }

  /** The passes for `names`, in order. */
  function SubstituteAll(url: string, names: seq<string>, p: Value, show: Value -> string): string
    decreases |names|
  {
    if names == [] then url
    else SubstituteAll(Substitute(url, names[0], p, show), names[1..], p, show)
  }

  /** The names whose parameter was substituted: what `usedParam` is meant to collect. */
  function Used(names: seq<string>, p: Value): (used: seq<string>)
    ensures forall k :: k in used <==> k in names && Truthy(ParamOf(p, k))
  {
    if names == [] then []
    else (if Truthy(ParamOf(p, names[0])) then [names[0]] else []) + Used(names[1..], p)
  }

  /** The `queryArgs` entries for `keys`: every key not in `used`, with its parameter. */
  function Query(p: Value, keys: seq<string>, used: seq<string>): (q: seq<(string, Value)>)
    ensures forall e :: e in q ==> e.0 in keys && e.0 !in used && e.1 == ParamOf(p, e.0)
    ensures forall k :: k in keys && k !in used ==> (k, ParamOf(p, k)) in q
    decreases |keys|
  {
    if keys == [] then []
    else
      var k := keys[|keys| - 1];
      var init := keys[..|keys| - 1];
      assert keys == init + [k];
      Query(p, init, used) + (if k in used then [] else [(k, ParamOf(p, k))])
  }

  /** `url.replace(/\.:format\?$/, '')`. */
  function StripFormat(url: string): (r: string)
    ensures EndsWith(url, Format) ==> r + Format == url
    ensures !EndsWith(url, Format) ==> r == url
  {
    if EndsWith(url, Format) then url[..|url| - |Format|] else url
  }

  /** The url, then `?` and the query string when there is a query. */
  function WithQuery(url: string, q: seq<(string, Value)>, stringify: seq<(string, Value)> -> string): string {
    if q == [] then url else url + "?" + stringify(q)
  }

  /** What the generator of `template` returns for `params`, the query holding
      only the parameters no placeholder took. */
  function Url(template: string, params: Value, show: Value -> string,
               stringify: seq<(string, Value)> -> string): string
  {
    var p := OrEmpty(params);
    if IsObject(p) then
      var names := Placeholders(template, 0);
      WithQuery(StripFormat(SubstituteAll(template, names, p, show)), Query(p, Keys(p), Used(names, p)), stringify)
    else StripFormat(ReplaceFirst(template, ":id", show(p)))
  }

  /** As written: `usedParam` is never filled, so every parameter also goes into the query. */
  function UrlAsWritten(template: string, params: Value, show: Value -> string,
                        stringify: seq<(string, Value)> -> string): string
  {
    var p := OrEmpty(params);
    if IsObject(p) then
      var names := Placeholders(template, 0);
      WithQuery(StripFormat(SubstituteAll(template, names, p, show)), Query(p, Keys(p), []), stringify)
    else StripFormat(ReplaceFirst(template, ":id", show(p)))
  }

  /** The url the generator of `template` returns for `params`: as written, or corrected. */
  function Generated(version: Version, template: string, params: Value, show: Value -> string,
                     stringify: seq<(string, Value)> -> string): string
  {
    if version == AsWritten then UrlAsWritten(template, params, show, stringify)
    else Url(template, params, show, stringify)
  }

  /** The `while` loop of the generator: `re.exec` scans the template while the
      url is rewritten, each name with a truthy parameter once. */
  method FillPlaceholders(template: string, p: Value, show: Value -> string) returns (url: string)
    ensures url == SubstituteAll(template, Placeholders(template, 0), p, show)
  {
    url := template;
    var pos := 0;
    var m := NextMatch(template, 0);
    while m.Some?
      invariant pos <= |template| && m == NextMatch(template, pos)
      invariant SubstituteAll(url, Placeholders(template, pos), p, show)
             == SubstituteAll(template, Placeholders(template, 0), p, show)
      decreases |template| - pos
    {
      var i := m.value;
      var e := NameEnd(template, i);
      var k := template[i + 1..e];
      ghost var url0 := url;
      if Truthy(ParamOf(p, k)) {
        url := ReplaceFirst(url, ":" + k, show(ParamOf(p, k)));
      }
      ScanStep(template, pos, i, e, url0, url, p, show);
      pos := e;
      m := NextMatch(template, pos);
    }
    assert Placeholders(template, pos) == [];
  }

  /** The `forEach` over `Object.keys(params)`: a key the scan did not use becomes a query entry. */
  method BuildQuery(p: Value, keys: seq<string>, used: seq<string>) returns (query: seq<(string, Value)>)
    ensures query == Query(p, keys, used)
  {
    query := [];
    for j := 0 to |keys|
      invariant query == Query(p, keys[..j], used)
    {
      QueryStep(p, keys, j, used);
      if keys[j] !in used {
        query := query + [(keys[j], ParamOf(p, keys[j]))];
      }
    }
    assert keys[..|keys|] == keys;
  }

  /** One more key of the `forEach`. */
  lemma QueryStep(p: Value, keys: seq<string>, j: nat, used: seq<string>)
    requires j < |keys|
    ensures Query(p, keys[..j + 1], used)
         == Query(p, keys[..j], used) + (if keys[j] in used then [] else [(keys[j], ParamOf(p, keys[j]))])
  {
    assert keys[..j + 1][..j] == keys[..j];
  }

  /** The generator `makeUrlGenerator` returns, called with `params`. `usedParam`
      stays empty, so every key of `params` goes into the query. */
  method Generate(template: string, params: Value, show: Value -> string,
                  stringify: seq<(string, Value)> -> string) returns (url: string)
    ensures url == UrlAsWritten(template, params, show, stringify)
  {
    var p := if Truthy(params) then params else Obj([]);
    var query: seq<(string, Value)> := [];
    if IsObject(p) {
      var usedParam: seq<string> := [];
      url := FillPlaceholders(template, p, show);
      query := BuildQuery(p, Keys(p), usedParam);
    } else {
      url := ReplaceFirst(template, ":id", show(p));
    }
    url := StripFormat(url);
    if |query| > 0 {
      url := url + "?" + stringify(query);
    }
  }

  /** The generator with `usedParam` holding the names the scan substituted. */
  method GenerateCorrected(template: string, params: Value, show: Value -> string,
                           stringify: seq<(string, Value)> -> string) returns (url: string)
    ensures url == Url(template, params, show, stringify)
  {
    var p := if Truthy(params) then params else Obj([]);
    var query: seq<(string, Value)> := [];
    if IsObject(p) {
      url := FillPlaceholders(template, p, show);
      query := BuildQuery(p, Keys(p), Used(Placeholders(template, 0), p));
    } else {
      url := ReplaceFirst(template, ":id", show(p));
    }
    url := StripFormat(url);
    if |query| > 0 {
      url := url + "?" + stringify(query);
    }
  }

  /** One iteration of the scan: the match at the next position is the head of
      the remaining names, so its pass carries the loop invariant over. */
  lemma ScanStep(t: string, pos: nat, i: nat, e: nat, url: string, url': string,
                 p: Value, show: Value -> string)
    requires pos <= |t| && NextMatch(t, pos) == Some(i) && e == NameEnd(t, i)
    requires url' == Substitute(url, t[i + 1..e], p, show)
    ensures SubstituteAll(url', Placeholders(t, e), p, show) == SubstituteAll(url, Placeholders(t, pos), p, show)
  {
    var k := t[i + 1..e];
    var rest := Placeholders(t, e);
    assert Placeholders(t, pos) == [k] + rest;
    SubstituteCons(url, k, rest, p, show);
  }

  lemma SubstituteCons(url: string, k: string, rest: seq<string>, p: Value, show: Value -> string)
    ensures SubstituteAll(url, [k] + rest, p, show) == SubstituteAll(Substitute(url, k, p, show), rest, p, show)
  {
    assert ([k] + rest)[1..] == rest;
  }

  // ---------------------------------------------------------------- properties

  /** The scan from `from` finds `:` at `i` first and captures up to `e`. */
  lemma PlaceholdersStep(t: string, from: nat, i: nat, e: nat)
    requires from <= i && i + 1 < e <= |t|
    requires forall j :: from <= j < i ==> t[j] != ':'
    requires t[i] == ':' && forall j :: i + 1 <= j < e ==> IsWordChar(t[j])
    requires e == |t| || !IsWordChar(t[e])
    ensures Placeholders(t, from) == [t[i + 1..e]] + Placeholders(t, e)
  {
    assert PlaceholderAt(t, i);
    assert NextMatch(t, from) == Some(i);
    RunEndAt(t, i + 1, e, IsWordChar);
  }

  /** The last character holds no placeholder. */
  lemma PlaceholdersEnd(t: string, from: nat)
    requires from <= |t| <= from + 1
    ensures Placeholders(t, from) == []
  {
    assert NextMatch(t, from).None?;
  }

  /** No character of the middle part `y` is a `:`. */
  lemma NoColonIn(x: string, y: string, z: string)
    requires ':' !in y
    ensures forall j :: |x| <= j < |x| + |y| ==> (x + y + z)[j] != ':'
  {
    forall j | |x| <= j < |x| + |y|
      ensures (x + y + z)[j] != ':'
    {
      assert (x + y + z)[j] == y[j - |x|];
    }
  }

  /** The characters around the placeholder `:k` of `pre:k rest`. */
  lemma PlaceholderChars(pre: string, k: string, rest: string)
    ensures var t := pre + ":" + k + rest;
      && |t| == |pre| + 1 + |k| + |rest|
      && t[..|pre|] == pre && t[|pre|] == ':' && t[|pre| + 1..|pre| + 1 + |k|] == k && t[|pre| + 1 + |k|..] == rest
  {
  }

  /** No character of a prefix without `:` is a `:`. */
  lemma NoColonBefore(t: string, x: string)
    requires |x| <= |t| && t[..|x|] == x && ':' !in x
    ensures forall j :: 0 <= j < |x| ==> t[j] != ':'
  {
    forall j | 0 <= j < |x|
      ensures t[j] != ':'
    {
      assert t[j] == x[j];
    }
  }

  /** The characters of the `.:format?` suffix of `x.:format?`. */
  lemma FormatChars(x: string)
    ensures var t := x + Format;
      && |t| == |x| + 9 && t[|x|] == '.'
      && t[|x| + 1] == ':' && t[|x| + 2..|x| + 8] == "format" && t[|x| + 8] == '?'
  {
    var t := x + Format;
    assert t[|x|..] == Format;
    assert t[|x| + 2..|x| + 8] == Format[2..8];
  }

  /** The characters of a word slice are word characters. */
  lemma SliceAllWord(t: string, i: nat, e: nat)
    requires i <= e <= |t| && AllWord(t[i..e])
    ensures forall j :: i <= j < e ==> IsWordChar(t[j])
  {
    forall j | i <= j < e
      ensures IsWordChar(t[j])
    {
      assert t[j] == t[i..e][j - i];
    }
  }

  /** From `b` on, a template ending in `.:format?` captures only `format`. */
  lemma FormatPlaceholder(t: string, b: nat, c: nat)
    requires b <= c && c + 8 == |t|
    requires forall j :: b <= j < c ==> t[j] != ':'
    requires t[c] == ':' && t[c + 1..c + 7] == "format" && t[c + 7] == '?'
    ensures Placeholders(t, b) == ["format"]
  {
    assert AllWord("format");
    SliceAllWord(t, c + 1, c + 7);
    PlaceholdersStep(t, b, c, c + 7);
    PlaceholdersEnd(t, c + 7);
  }

  /** A template with a placeholder at `a` and `.:format?` at the end captures
      the placeholder's name, then `format`. */
  lemma TwoPlaceholders(t: string, a: nat, b: nat, c: nat, name: string)
    requires a + 1 < b <= c && c + 8 == |t| && t[a + 1..b] == name
    requires forall j :: 0 <= j < a ==> t[j] != ':'
    requires t[a] == ':' && forall j :: a + 1 <= j < b ==> IsWordChar(t[j])
    requires !IsWordChar(t[b])
    requires forall j :: b <= j < c ==> t[j] != ':'
    requires t[c] == ':' && t[c + 1..c + 7] == "format" && t[c + 7] == '?'
    ensures Placeholders(t, 0) == [name, "format"]
  {
    PlaceholdersStep(t, 0, a, b);
    FormatPlaceholder(t, b, c);
  }

  /** A template with one placeholder `k` before `.:format?` captures `k`, then `format`. */
  lemma OnePlaceholder(pre: string, k: string, post: string)
    requires ':' !in pre && ':' !in post
    requires |k| > 0 && AllWord(k)
    requires post == [] || !IsWordChar(post[0])
    ensures Placeholders(pre + ":" + k + post + Format, 0) == [k, "format"]
  {
    var u := pre + ":" + k;
    var t := u + post + Format;
    var b := |u|;
    var c := b + |post| + 1;
    assert |t| == c + 8 && t[|pre|] == ':' && t[|pre| + 1..b] == k by {
      PlaceholderChars(pre, k, post + Format);
    }
    assert t[c] == ':' && t[c + 1..c + 7] == "format" && t[c + 7] == '?' by {
      FormatChars(u + post);
    }
    assert forall j :: 0 <= j < |pre| ==> t[j] != ':' by {
      PlaceholderChars(pre, k, post + Format);
      NoColonBefore(t, pre);
    }
    assert forall j :: b <= j < c ==> t[j] != ':' by {
      NoColonIn(u, post, Format);
      assert t[b + |post|] == Format[0];
    }
    assert forall j :: |pre| + 1 <= j < b ==> IsWordChar(t[j]) by {
      SliceAllWord(t, |pre| + 1, b);
    }
    assert !IsWordChar(t[b]) by {
      if post != [] {
        assert t[b] == post[0];
      } else {
        assert t[b] == Format[0];
      }
    }
    TwoPlaceholders(t, |pre|, b, c, k);
  }

  /** Replacing `:k` in a template whose only earlier text has no `:`. */
  lemma ReplaceAfterPlain(pre: string, k: string, rest: string, rep: string)
    requires ':' !in pre
    ensures ReplaceFirst(pre + ":" + k + rest, ":" + k, rep) == pre + rep + rest
  {
    var s := pre + ":" + k + rest;
    assert s == pre + (":" + k) + rest;
    assert OccursAt(s, ":" + k, |pre|) by {
      assert s[|pre|..|pre| + |":" + k|] == ":" + k;
    }
    forall j: nat | j < |pre|
      ensures !OccursAt(s, ":" + k, j)
    {
      assert s[j] == pre[j];
    }
    ReplaceFirstAt(s, ":" + k, rep, |pre|);
    assert s[..|pre|] == pre;
    assert s[|pre| + |":" + k|..] == rest;
  }

  /** A parameter object with the single key `k`. */
  lemma SingleKey(k: string, v: Value)
    ensures Keys(Obj([Prop(k, v)])) == [k]
    ensures ParamOf(Obj([Prop(k, v)]), k) == v
    ensures forall j :: j != k ==> ParamOf(Obj([Prop(k, v)]), j) == Undefined
  {
  }

  /** The passes for `k` and `format` when only `k` has a parameter. */
  lemma FillOne(t: string, k: string, p: Value, show: Value -> string, filled: string)
    requires Substitute(t, k, p, show) == filled
    requires ParamOf(p, "format") == Undefined
    ensures SubstituteAll(t, [k, "format"], p, show) == filled
    ensures Used([k, "format"], p) == (if Truthy(ParamOf(p, k)) then [k] else [])
  {
    assert [k, "format"][1..] == ["format"];
    assert ["format"][1..] == [];
    assert Used(["format"], p) == [];
    var first := if Truthy(ParamOf(p, k)) then [k] else [];
    assert Used([k, "format"], p) == first + [];
  }

  /** Dropping the suffix of a url that ends in `.:format?`. */
  lemma StripAppended(x: string)
    ensures StripFormat(x + Format) == x
  {
    var u := x + Format;
    assert u[|u| - |Format|..] == Format;
    assert u[..|u| - |Format|] == x;
  }

  /** The pass for `k` puts `v` where `:k` was. */
  lemma FillKey(pre: string, k: string, post: string, v: Value, show: Value -> string)
    requires ':' !in pre && Truthy(v)
    ensures Substitute(pre + ":" + k + post + Format, k, Obj([Prop(k, v)]), show) == pre + show(v) + post + Format
  {
    var t := pre + ":" + k + post + Format;
    SingleKey(k, v);
    ReplaceAfterPlain(pre, k, post + Format, show(v));
    assert t == pre + ":" + k + (post + Format);
    assert pre + show(v) + (post + Format) == pre + show(v) + post + Format;
  }

  /** The path a template `pre:k post.:format?` gets for `{k: v}`: `v` in place of
      `:k` and the format suffix dropped. */
  lemma SubstitutedPath(pre: string, k: string, post: string, v: Value, show: Value -> string)
    requires ':' !in pre && ':' !in post
    requires |k| > 0 && AllWord(k) && k != "format"
    requires post == [] || !IsWordChar(post[0])
    requires Truthy(v)
    ensures var t := pre + ":" + k + post + Format;
      var p := Obj([Prop(k, v)]);
      && Used(Placeholders(t, 0), p) == [k]
      && StripFormat(SubstituteAll(t, Placeholders(t, 0), p, show)) == pre + show(v) + post
  {
    var t := pre + ":" + k + post + Format;
    var p := Obj([Prop(k, v)]);
    var mid := pre + show(v) + post;
    assert Placeholders(t, 0) == [k, "format"] by {
      OnePlaceholder(pre, k, post);
    }
    assert ParamOf(p, k) == v && ParamOf(p, "format") == Undefined by {
      SingleKey(k, v);
    }
    FillKey(pre, k, post, v, show);
    assert SubstituteAll(t, Placeholders(t, 0), p, show) == mid + Format && Used(Placeholders(t, 0), p) == [k] by {
      FillOne(t, k, p, show, mid + Format);
    }
    StripAppended(mid);
  }

  /** A generator fills the placeholder a parameter names and leaves that
      parameter out of the query: `{k: v}` on `pre:k post.:format?` gives
      `pre v post` and no query string. */
  lemma SubstitutedParamLeavesQuery(pre: string, k: string, post: string, v: Value,
                                    show: Value -> string, stringify: seq<(string, Value)> -> string)
    requires ':' !in pre && ':' !in post
    requires |k| > 0 && AllWord(k) && k != "format"
    requires post == [] || !IsWordChar(post[0])
    requires Truthy(v)
    ensures Url(pre + ":" + k + post + Format, Obj([Prop(k, v)]), show, stringify) == pre + show(v) + post
  {
    SubstitutedPath(pre, k, post, v, show);
    SingleKey(k, v);
    assert Query(Obj([Prop(k, v)]), [k], [k]) == [];
  }

  /** As written, the same call also appends the substituted parameter as a query:
      `{id: 5}` on `/users/:id.:format?` gives `/users/5?id=5`. */
  lemma AsWrittenRepeatsSubstitutedParam(pre: string, k: string, post: string, v: Value,
                                         show: Value -> string, stringify: seq<(string, Value)> -> string)
    requires ':' !in pre && ':' !in post
    requires |k| > 0 && AllWord(k) && k != "format"
    requires post == [] || !IsWordChar(post[0])
    requires Truthy(v)
    ensures UrlAsWritten(pre + ":" + k + post + Format, Obj([Prop(k, v)]), show, stringify)
         == pre + show(v) + post + "?" + stringify([(k, v)])
  {
    SubstitutedPath(pre, k, post, v, show);
    SingleKey(k, v);
    assert Query(Obj([Prop(k, v)]), [k], []) == [(k, v)];
  }

  /** Substituting from the empty object changes nothing. */
  lemma {:induction false} SubstituteNothing(url: string, names: seq<string>, show: Value -> string)
    ensures SubstituteAll(url, names, Obj([]), show) == url
    decreases |names|
  {
    if names != [] {
      assert ParamOf(Obj([]), names[0]) == Undefined;
      SubstituteNothing(url, names[1..], show);
    }
  }

  /** A falsy argument, and so the generator's `toString` (a call with no argument),
      gives the template without its format suffix and with no query. */
  lemma FalsyParamsGiveBarePath(template: string, params: Value, show: Value -> string,
                                stringify: seq<(string, Value)> -> string)
    requires !Truthy(params)
    ensures Url(template, params, show, stringify) == StripFormat(template)
    ensures UrlAsWritten(template, params, show, stringify) == StripFormat(template)
  {
    SubstituteNothing(template, Placeholders(template, 0), show);
    assert Keys(Obj([])) == [];
  }

  /** A truthy argument that is not an object fills the first `:id`. */
  lemma ScalarFillsId(pre: string, post: string, p: Value, show: Value -> string,
                      stringify: seq<(string, Value)> -> string)
    requires ':' !in pre
    requires Truthy(p) && !IsObject(p)
    ensures Url(pre + ":id" + post, p, show, stringify) == StripFormat(pre + show(p) + post)
    ensures UrlAsWritten(pre + ":id" + post, p, show, stringify) == StripFormat(pre + show(p) + post)
  {
    assert ":" + "id" == ":id";
    assert pre + ":" + "id" + post == pre + ":id" + post;
    ReplaceAfterPlain(pre, "id", post, show(p));
  }

  /** As written, a query string is appended exactly when `params` has a key at all. */
  lemma AsWrittenQueryExactlyWithKeys(template: string, params: Value, show: Value -> string,
                                      stringify: seq<(string, Value)> -> string)
    requires IsObject(OrEmpty(params))
    ensures var p := OrEmpty(params);
      var path := StripFormat(SubstituteAll(template, Placeholders(template, 0), p, show));
      UrlAsWritten(template, params, show, stringify)
        == if Keys(p) == [] then path else path + "?" + stringify(Query(p, Keys(p), []))
  {
    var p := OrEmpty(params);
    if Keys(p) != [] {
      assert (Keys(p)[0], ParamOf(p, Keys(p)[0])) in Query(p, Keys(p), []);
    }
  }

  /** Corrected, a query string is appended exactly when some key of `params`
      was not taken by a placeholder, and it holds only such keys. */
  lemma QueryExactlyWithUnusedKey(template: string, params: Value, show: Value -> string,
                                  stringify: seq<(string, Value)> -> string)
    requires IsObject(OrEmpty(params))
    ensures var p := OrEmpty(params);
      var names := Placeholders(template, 0);
      var path := StripFormat(SubstituteAll(template, names, p, show));
      Url(template, params, show, stringify)
        == if forall k :: k in Keys(p) ==> k in names && Truthy(ParamOf(p, k)) then path
           else path + "?" + stringify(Query(p, Keys(p), Used(names, p)))
  {
    var p := OrEmpty(params);
    var names := Placeholders(template, 0);
    var used := Used(names, p);
    if exists k :: k in Keys(p) && !(k in names && Truthy(ParamOf(p, k))) {
      var k :| k in Keys(p) && !(k in names && Truthy(ParamOf(p, k)));
      assert (k, ParamOf(p, k)) in Query(p, Keys(p), used);
    } else {
      QueryEmpty(p, Keys(p), used);
    }
  }

  /** With every key used, nothing is left for the query. */
  lemma QueryEmpty(p: Value, keys: seq<string>, used: seq<string>)
    requires forall k :: k in keys ==> k in used
    ensures Query(p, keys, used) == []
  {
  }

  /** The two generators differ only in the query: the corrected one leaves out
      exactly the parameters the placeholders took, and agrees with the code when
      no parameter was substituted. */
  lemma QueryDifference(template: string, params: Value, show: Value -> string,
                        stringify: seq<(string, Value)> -> string)
    ensures var p := OrEmpty(params);
      IsObject(p) ==>
        var used := Used(Placeholders(template, 0), p);
        var q := Query(p, Keys(p), used);
        && (forall e :: e in q ==> e.0 in Keys(p) && e.0 !in used && e.1 == ParamOf(p, e.0))
        && (forall k :: k in Keys(p) && k !in used ==> (k, ParamOf(p, k)) in q)
        && (used == [] ==> Url(template, params, show, stringify) == UrlAsWritten(template, params, show, stringify))
    ensures !IsObject(OrEmpty(params)) ==>
      Url(template, params, show, stringify) == UrlAsWritten(template, params, show, stringify)
  {
  }
}
