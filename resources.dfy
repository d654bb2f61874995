/**
 * What `RouteMapper.prototype.resource` maps: the controller actions kept by
 * `only` and `except`, the method and path of each, and the names
 * `actionName` and `pathHelperName` give the routes it creates.
 */
module Resources {
  import opened Wrappers
  import opened Text
  import opened RouteNames

  /** `Object.keys(availableRoutes)`, in the order the table lists them. */
  const AllActions: seq<string> := ["index", "create", "new", "edit", "destroy", "update", "show"]

  /** `availableRoutes[action].split(' ')` with the method lower-cased. */
  function RouteOf(action: string): Option<(string, string)> {
    if action == "index" then Some(("get", "/"))
    else if action == "create" then Some(("post", "/"))
    else if action == "new" then Some(("get", "/new"))
    else if action == "edit" then Some(("get", "/:id/edit"))
    else if action == "destroy" then Some(("delete", "/:id"))
    else if action == "update" then Some(("put", "/:id"))
    else if action == "show" then Some(("get", "/:id"))
    else None
  }

  /** `xs` can be obtained from `ys` by deleting elements. */
  predicate IsSubsequence(xs: seq<string>, ys: seq<string>)
    decreases |ys|
  {
    xs == [] || (ys != [] && ((xs[0] == ys[0] && IsSubsequence(xs[1..], ys[1..])) || IsSubsequence(xs, ys[1..])))
  }

  /** `actions.filter(a => except.indexOf(a) == -1)`. */
  function Without(actions: seq<string>, except: seq<string>): (r: seq<string>)
    ensures forall a :: a in r <==> a in actions && a !in except
  {
    if actions == [] then []
    else (if actions[0] in except then [] else [actions[0]]) + Without(actions[1..], except)
  }

  /** The filter keeps the actions in their order. */
  lemma {:induction false} WithoutKeepsOrder(actions: seq<string>, except: seq<string>)
    ensures IsSubsequence(Without(actions, except), actions)
  {
    if actions != [] {
      WithoutKeepsOrder(actions[1..], except);
      var rest := Without(actions[1..], except);
      if actions[0] in except {
        assert Without(actions, except) == rest;
      } else {
        assert Without(actions, except) == [actions[0]] + rest;
        assert ([actions[0]] + rest)[1..] == rest;
      }
    }
  }

  /** The actions `resource` maps: `only` (every action when it is not given) minus `except`. */
  function SelectActions(only: Option<seq<string>>, except: seq<string>): (r: seq<string>)
    ensures forall a :: a in r <==> a in only.GetOr(AllActions) && a !in except
    ensures IsSubsequence(r, only.GetOr(AllActions))
  {
    WithoutKeepsOrder(only.GetOr(AllActions), except);
    Without(only.GetOr(AllActions), except)
  }

  /** `'/' + name + path.replace(/\/$/, '') + '.:format?'`. */
  function ResourcePath(name: string, routePath: string): string {
    "/" + name + DropTrailing(routePath, '/') + Format
  }

  /** The helper name each resource action is meant to get. */
  function ResourceHelperName(action: string, name: string, singularize: string -> string): string {
    if action == "index" || action == "create" then name
    else if action == "new" then "new_" + singularize(name)
    else if action == "edit" then "edit_" + singularize(name)
    else singularize(name)
  }

  // ---------------------------------------------------------------- naming the resource routes

  predicate IsLowerWord(name: string) {
    name != [] && forall k :: 0 <= k < |name| ==> IsWordChar(name[k]) && LowerChar(name[k]) == name[k]
  }

  lemma ToLowerFixed(s: string)
    requires forall k :: 0 <= k < |s| ==> LowerChar(s[k]) == s[k]
    ensures ToLower(s) == s
  {
  }

  lemma UpperGet()
    ensures ToUpper("get") + "/" == "GET/"
  {
    assert forall i :: 0 <= i < 3 ==> ToUpper("get")[i] == "GET"[i];
  }

  lemma UpperPost()
    ensures ToUpper("post") + "/" == "POST/"
  {
    assert forall i :: 0 <= i < 4 ==> ToUpper("post")[i] == "POST"[i];
  }

  lemma UpperPut()
    ensures ToUpper("put") + "/" == "PUT/"
  {
    assert forall i :: 0 <= i < 3 ==> ToUpper("put")[i] == "PUT"[i];
  }

  lemma UpperDelete()
    ensures ToUpper("delete") + "/" == "DELETE/"
  {
    assert forall i :: 0 <= i < 6 ==> ToUpper("delete")[i] == "DELETE"[i];
  }

  /** The test string of a resource path: the upper-cased method, then the path as it is. */
  lemma ResourceTestPath(name: string, tail: string, verb: string)
    requires IsLowerWord(name)
    requires forall k :: 0 <= k < |tail| ==> LowerChar(tail[k]) == tail[k]
    ensures TestPath("/" + name + tail + Format, verb) == ToUpper(verb) + ("/" + name + tail + Format)
  {
    var p := "/" + name + tail + Format;
    forall k | 0 <= k < |p| ensures LowerChar(p[k]) == p[k] {
      if 1 <= k < 1 + |name| {
        assert p[k] == name[k - 1];
      } else if 1 + |name| <= k < 1 + |name| + |tail| {
        assert p[k] == tail[k - 1 - |name|];
      }
    }
    ToLowerFixed(p);
  }

  /** The same, with the upper-cased method and its slash known. */
  lemma VerbTestPath(name: string, tail: string, verb: string, prefix: string)
    requires IsLowerWord(name)
    requires forall k :: 0 <= k < |tail| ==> LowerChar(tail[k]) == tail[k]
    requires ToUpper(verb) + "/" == prefix
    ensures TestPath("/" + name + tail + Format, verb) == prefix + name + tail + Format
  {
    ResourceTestPath(name, tail, verb);
    assert ToUpper(verb) + ("/" + name + tail + Format) == (ToUpper(verb) + "/") + name + tail + Format;
  }

  /** `actionName`'s loop, seen from its last round: a pattern that does not match leaves the result of the earlier rounds. */
  lemma MatchSkip(t: string, n: nat, action: string)
    requires 0 < n <= |ActionNames| && ActionNames[n - 1] == action && !ActionMatches(action, t)
    ensures LastMatch(t, n) == LastMatch(t, n - 1)
  {
  }

  /** A pattern that matches in the last round decides the result. */
  lemma MatchHit(t: string, n: nat, action: string)
    requires 0 < n <= |ActionNames| && ActionNames[n - 1] == action && ActionMatches(action, t)
    ensures LastMatch(t, n) == Some(action)
  {
  }

  /** The patterns that need another method do not match. */
  lemma GetOnly(t: string)
    requires |t| >= 4 && t[..4] == "GET/"
    ensures !ActionMatches("create", t) && !ActionMatches("update", t) && !ActionMatches("destroy", t)
  {
    assert t[0] == 'G';
  }

  /** No `:` occurs before position `e` of `t`, so no `\/:\w+` ends before `e`. */
  lemma NoParamBefore(t: string, p: string, suffix: string, e: int)
    requires |t| - |suffix| - 1 <= e <= |t|
    requires forall k :: 0 <= k < e ==> t[k] != ':'
    ensures forall i :: |p| <= i < |t| - |suffix| - 2 ==> !ParamAt(t, p, suffix, i)
  {
  }

  /** Neither `show` nor `edit` matches a GET path with no `:` before its format suffix. */
  lemma NoMemberAction(t: string)
    requires |t| >= 9 && forall k :: 0 <= k < |t| - 9 ==> t[k] != ':'
    ensures !ActionMatches("show", t) && !ActionMatches("edit", t)
  {
    NoParamBefore(t, "GET/", Format, |t| - 9);
    NoParamBefore(t, "GET/", "/edit" + Format, |t| - 9);
  }

  /** `split('/')` of three segments without slashes. */
  lemma SplitThree(a: string, b: string, c: string)
    requires '/' !in a && '/' !in b && '/' !in c
    ensures Split(a + "/" + b + "/" + c, '/') == [a, b, c]
  {
    assert a + "/" + b + "/" + c == a + ['/'] + (b + ['/'] + c);
    SplitAtSeparator(a, '/', b + ['/'] + c);
    SplitAtSeparator(b, '/', c);
    SplitNoSeparator(c, '/');
  }

  /** `split('/')` of two segments without slashes. */
  lemma SplitTwo(a: string, b: string)
    requires '/' !in a && '/' !in b
    ensures Split(a + "/" + b, '/') == [a, b]
  {
    assert a + "/" + b == a + ['/'] + b;
    SplitAtSeparator(a, '/', b);
    SplitNoSeparator(b, '/');
  }

  lemma WordHasNoSlash(name: string)
    requires IsLowerWord(name)
    ensures '/' !in name && ':' !in name
  {
    assert forall k :: 0 <= k < |name| ==> IsWordChar(name[k]);
  }

  // index and create: `/name.:format?`

  /** A path `/name.:format?` has one token, and its helper is `name` whatever the action. */
  lemma HelperOfCollectionPath(name: string, action: Option<string>, singularize: string -> string)
    requires IsLowerWord(name)
    ensures HelperName("/" + name + Format, action, singularize) == name
  {
    var p := "/" + name + Format;
    var body := name + Format;
    assert Split(TrimSlashes(p), '/') == [body] by {
      assert p == "/" + body;
      WordHasNoSlash(name);
      assert '/' !in body by {
        forall k | 0 <= k < |body| ensures body[k] != '/' {
          if k < |name| { assert body[k] == name[k]; }
        }
      }
      SplitNoSeparator(body, '/');
    }
    assert StripFormatSuffix(body) == name by {
      assert EndsWith(body, Format);
    }
    assert NameParts([body], action, singularize) == [name] by {
      assert PushedNames([body], 1, singularize) == [StripFormatSuffix(body)];
    }
  }

  lemma IndexFacts(name: string, t: string)
    requires IsLowerWord(name) && t == "GET/" + name + Format
    ensures ActionMatches("index", t) && !ActionMatches("new", t)
    ensures |t| >= 9 && forall k :: 0 <= k < |t| - 9 ==> t[k] != ':'
  {
    assert t[..3] == "GET";
    assert SlashWordAt(t, "GET", Format, 3) by {
      assert t[4..|t| - 9] == name;
    }
    if 17 <= |t| {
      assert t[|t| - 13] == name[|name| - 4];
    }
    forall k | 0 <= k < |t| - 9 ensures t[k] != ':' {
      if 4 <= k { assert t[k] == name[k - 4]; }
    }
  }

  lemma LastIsIndex(t: string)
    requires |t| >= 9 && t[..4] == "GET/" && forall k :: 0 <= k < |t| - 9 ==> t[k] != ':'
    requires ActionMatches("index", t) && !ActionMatches("new", t)
    ensures LastMatch(t, |ActionNames|) == Some("index")
  {
    NoMemberAction(t);
    GetOnly(t);
    MatchSkip(t, 7, "destroy");
    MatchSkip(t, 6, "update");
    MatchSkip(t, 5, "edit");
    MatchSkip(t, 4, "show");
    MatchSkip(t, 3, "create");
    MatchSkip(t, 2, "new");
    MatchHit(t, 1, "index");
  }

  lemma IndexAction(name: string)
    requires IsLowerWord(name)
    ensures ActionOf("/" + name + Format, "get") == Some("index")
  {
    var t := "GET/" + name + Format;
    IndexTestPath(name);
    IndexFacts(name, t);
    LastIsIndex(t);
  }

  lemma IndexTestPath(name: string)
    requires IsLowerWord(name)
    ensures TestPath("/" + name + Format, "get") == "GET/" + name + Format
  {
    UpperGet();
    VerbTestPath(name, "", "get", "GET/");
    assert "/" + name + "" + Format == "/" + name + Format;
    assert "GET/" + name + "" + Format == "GET/" + name + Format;
  }

  lemma CreateTestPath(name: string)
    requires IsLowerWord(name)
    ensures TestPath("/" + name + Format, "post") == "POST/" + name + Format
  {
    UpperPost();
    VerbTestPath(name, "", "post", "POST/");
    assert "/" + name + "" + Format == "/" + name + Format;
    assert "POST/" + name + "" + Format == "POST/" + name + Format;
  }

  lemma CreateFacts(name: string, t: string)
    requires IsLowerWord(name) && t == "POST/" + name + Format
    ensures ActionMatches("create", t)
  {
    assert t[..5] == "POST/";
    assert t[5..|t| - 9] == name;
    assert t[|t| - 10] == name[|name| - 1];
  }

  lemma LastIsCreate(t: string)
    requires |t| >= 2 && t[0] == 'P' && t[1] == 'O'
    requires ActionMatches("create", t)
    ensures LastMatch(t, |ActionNames|) == Some("create")
  {
    assert !ActionMatches("show", t) && !ActionMatches("edit", t);
    assert !ActionMatches("update", t) && !ActionMatches("destroy", t);
    MatchSkip(t, 7, "destroy");
    MatchSkip(t, 6, "update");
    MatchSkip(t, 5, "edit");
    MatchSkip(t, 4, "show");
    MatchHit(t, 3, "create");
  }

  lemma CreateAction(name: string)
    requires IsLowerWord(name)
    ensures ActionOf("/" + name + Format, "post") == Some("create")
  {
    var t := "POST/" + name + Format;
    CreateTestPath(name);
    CreateFacts(name, t);
    LastIsCreate(t);
  }

  // new: `/name/new.:format?`

  lemma NewTestPath(name: string)
    requires IsLowerWord(name)
    ensures TestPath("/" + name + "/new" + Format, "get") == "GET/" + name + "/new" + Format
  {
    assert forall k :: 0 <= k < 4 ==> LowerChar("/new"[k]) == "/new"[k];
    UpperGet();
    VerbTestPath(name, "/new", "get", "GET/");
  }

  lemma NewFacts(name: string, t: string)
    requires IsLowerWord(name) && t == "GET/" + name + "/new" + Format
    ensures ActionMatches("new", t)
    ensures |t| >= 9 && t[..4] == "GET/" && forall k :: 0 <= k < |t| - 9 ==> t[k] != ':'
  {
    assert t[..4] == "GET/";
    assert t[4..|t| - 13] == name;
    forall k | 0 <= k < |t| - 9 ensures t[k] != ':' {
      if 4 <= k < 4 + |name| { assert t[k] == name[k - 4]; }
    }
  }

  lemma LastIsNew(t: string)
    requires |t| >= 9 && t[..4] == "GET/" && forall k :: 0 <= k < |t| - 9 ==> t[k] != ':'
    requires ActionMatches("new", t)
    ensures LastMatch(t, |ActionNames|) == Some("new")
  {
    NoMemberAction(t);
    GetOnly(t);
    MatchSkip(t, 7, "destroy");
    MatchSkip(t, 6, "update");
    MatchSkip(t, 5, "edit");
    MatchSkip(t, 4, "show");
    MatchSkip(t, 3, "create");
    MatchHit(t, 2, "new");
  }

  lemma NewAction(name: string)
    requires IsLowerWord(name)
    ensures ActionOf("/" + name + "/new" + Format, "get") == Some("new")
  {
    var t := "GET/" + name + "/new" + Format;
    NewTestPath(name);
    NewFacts(name, t);
    LastIsNew(t);
  }

  lemma NewTokens(name: string)
    requires IsLowerWord(name)
    ensures Split(TrimSlashes("/" + name + "/new" + Format), '/') == [name, "new" + Format]
  {
    var last := "new" + Format;
    assert "/" + name + "/new" + Format == "/" + (name + "/" + last);
    WordHasNoSlash(name);
    SplitTwo(name, last);
  }

  /** `["a", "b"].join('_')`. */
  lemma JoinTwo(a: string, b: string)
    ensures Join([a, b], "_") == a + "_" + b
  {
    assert [a, b][1..] == [b];
  }

  lemma NewHelper(name: string, singularize: string -> string)
    requires IsLowerWord(name)
    ensures HelperName("/" + name + "/new" + Format, Some("new"), singularize) == "new_" + singularize(name)
  {
    var last := "new" + Format;
    var all := [name, last];
    NewTokens(name);
    assert NameParts(all, Some("new"), singularize) == ["new", singularize(name)] by {
      assert StripFormatSuffix(last) == "new";
      assert PushedNames(all, 1, singularize) == [singularize(name)];
    }
    JoinTwo("new", singularize(name));
    assert "new" + "_" + singularize(name) == "new_" + singularize(name);
  }

  // edit: `/name/:id/edit.:format?`

  lemma EditTestPath(name: string)
    requires IsLowerWord(name)
    ensures TestPath("/" + name + "/:id/edit" + Format, "get") == "GET/" + name + "/:id/edit" + Format
  {
    assert forall k :: 0 <= k < 9 ==> LowerChar("/:id/edit"[k]) == "/:id/edit"[k];
    UpperGet();
    VerbTestPath(name, "/:id/edit", "get", "GET/");
  }

  lemma EditFacts(name: string, t: string)
    requires IsLowerWord(name) && t == "GET/" + name + "/:id/edit" + Format
    ensures ActionMatches("edit", t) && |t| >= 4 && t[..4] == "GET/"
  {
    assert t[..4] == "GET/";
    var i := 4 + |name|;
    assert t[4..i] == name && t[i + 2..|t| - 14] == "id";
    assert ParamAt(t, "GET/", "/edit" + Format, i);
  }

  lemma LastIsEdit(t: string)
    requires |t| >= 4 && t[..4] == "GET/" && ActionMatches("edit", t)
    ensures LastMatch(t, |ActionNames|) == Some("edit")
  {
    GetOnly(t);
    MatchSkip(t, 7, "destroy");
    MatchSkip(t, 6, "update");
    MatchHit(t, 5, "edit");
  }

  lemma EditAction(name: string)
    requires IsLowerWord(name)
    ensures ActionOf("/" + name + "/:id/edit" + Format, "get") == Some("edit")
  {
    var t := "GET/" + name + "/:id/edit" + Format;
    EditTestPath(name);
    EditFacts(name, t);
    LastIsEdit(t);
  }

  lemma EditTokens(name: string)
    requires IsLowerWord(name)
    ensures Split(TrimSlashes("/" + name + "/:id/edit" + Format), '/') == [name, ":id", "edit" + Format]
  {
    var last := "edit" + Format;
    assert "/" + name + "/:id/edit" + Format == "/" + (name + "/" + ":id" + "/" + last);
    WordHasNoSlash(name);
    SplitThree(name, ":id", last);
  }

  lemma EditHelper(name: string, singularize: string -> string)
    requires IsLowerWord(name)
    ensures HelperName("/" + name + "/:id/edit" + Format, Some("edit"), singularize) == "edit_" + singularize(name)
  {
    var last := "edit" + Format;
    var all := [name, ":id", last];
    EditTokens(name);
    assert NameParts(all, Some("edit"), singularize) == ["edit", singularize(name)] by {
      assert StripFormatSuffix(last) == "edit";
      assert PushedNames(all, 2, singularize) == [singularize(name)] by {
        assert PushedNames(all, 1, singularize) == [singularize(name)];
      }
    }
    JoinTwo("edit", singularize(name));
    assert "edit" + "_" + singularize(name) == "edit_" + singularize(name);
  }

  // show, update and destroy: `/name/:id.:format?`

  lemma MemberTokens(name: string)
    requires IsLowerWord(name)
    ensures Split(TrimSlashes("/" + name + "/:id" + Format), '/') == [name, ":id" + Format]
  {
    var last := ":id" + Format;
    assert "/" + name + "/:id" + Format == "/" + (name + "/" + last);
    WordHasNoSlash(name);
    SplitTwo(name, last);
  }

  /** A path `/name/:id.:format?` has one plain token, followed by a variable: its helper is the singular name. */
  lemma HelperOfMemberPath(name: string, action: Option<string>, singularize: string -> string)
    requires IsLowerWord(name)
    ensures HelperName("/" + name + "/:id" + Format, action, singularize) == singularize(name)
  {
    var all := [name, ":id" + Format];
    MemberTokens(name);
    assert NameParts(all, action, singularize) == [singularize(name)] by {
      assert PushedNames(all, 1, singularize) == [singularize(name)];
    }
  }

  /** `/:id.:format?` after the verb and the name, as the `show`, `update` and `destroy` patterns see it. */
  lemma MemberMatch(t: string, p: string, name: string)
    requires IsLowerWord(name) && t == p + name + "/:id" + Format
    ensures AnyThenParam(t, p, Format)
  {
    var i := |p| + |name|;
    assert t[..|p|] == p;
    assert t[|p|..i] == name && t[i + 2..|t| - 9] == "id";
    assert t[i] == '/' && t[i + 1] == ':';
    assert ParamAt(t, p, Format, i);
  }

  lemma ShowTestPath(name: string)
    requires IsLowerWord(name)
    ensures TestPath("/" + name + "/:id" + Format, "get") == "GET/" + name + "/:id" + Format
  {
    assert forall k :: 0 <= k < 4 ==> LowerChar("/:id"[k]) == "/:id"[k];
    UpperGet();
    VerbTestPath(name, "/:id", "get", "GET/");
  }

  lemma ShowFacts(name: string, t: string)
    requires IsLowerWord(name) && t == "GET/" + name + "/:id" + Format
    ensures ActionMatches("show", t) && !ActionMatches("edit", t) && |t| >= 4 && t[..4] == "GET/"
  {
    MemberMatch(t, "GET/", name);
    assert t[|t| - 14] == name[|name| - 1];
    assert t[..4] == "GET/";
  }

  lemma LastIsShow(t: string)
    requires |t| >= 4 && t[..4] == "GET/" && ActionMatches("show", t) && !ActionMatches("edit", t)
    ensures LastMatch(t, |ActionNames|) == Some("show")
  {
    GetOnly(t);
    MatchSkip(t, 7, "destroy");
    MatchSkip(t, 6, "update");
    MatchSkip(t, 5, "edit");
    MatchHit(t, 4, "show");
  }

  lemma ShowAction(name: string)
    requires IsLowerWord(name)
    ensures ActionOf("/" + name + "/:id" + Format, "get") == Some("show")
  {
    var t := "GET/" + name + "/:id" + Format;
    ShowTestPath(name);
    ShowFacts(name, t);
    LastIsShow(t);
  }

  lemma UpdateTestPath(name: string)
    requires IsLowerWord(name)
    ensures TestPath("/" + name + "/:id" + Format, "put") == "PUT/" + name + "/:id" + Format
  {
    assert forall k :: 0 <= k < 4 ==> LowerChar("/:id"[k]) == "/:id"[k];
    UpperPut();
    VerbTestPath(name, "/:id", "put", "PUT/");
  }

  lemma LastIsUpdate(t: string)
    requires AnyThenParam(t, "PUT/", Format)
    ensures LastMatch(t, |ActionNames|) == Some("update")
  {
    assert t[0] == 'P';
    MatchSkip(t, 7, "destroy");
    MatchHit(t, 6, "update");
  }

  lemma UpdateAction(name: string)
    requires IsLowerWord(name)
    ensures ActionOf("/" + name + "/:id" + Format, "put") == Some("update")
  {
    var t := "PUT/" + name + "/:id" + Format;
    UpdateTestPath(name);
    MemberMatch(t, "PUT/", name);
    LastIsUpdate(t);
  }

  lemma DestroyTestPath(name: string)
    requires IsLowerWord(name)
    ensures TestPath("/" + name + "/:id" + Format, "delete") == "DELETE/" + name + "/:id" + Format
  {
    assert forall k :: 0 <= k < 4 ==> LowerChar("/:id"[k]) == "/:id"[k];
    UpperDelete();
    VerbTestPath(name, "/:id", "delete", "DELETE/");
  }

  lemma LastIsDestroy(t: string)
    requires AnyThenParam(t, "DELETE/", Format)
    ensures LastMatch(t, |ActionNames|) == Some("destroy")
  {
    MatchHit(t, 7, "destroy");
  }

  lemma DestroyAction(name: string)
    requires IsLowerWord(name)
    ensures ActionOf("/" + name + "/:id" + Format, "delete") == Some("destroy")
  {
    var t := "DELETE/" + name + "/:id" + Format;
    DestroyTestPath(name);
    MemberMatch(t, "DELETE/", name);
    LastIsDestroy(t);
  }

  lemma IndexRoute(name: string, singularize: string -> string)
    requires IsLowerWord(name)
    ensures var p := ResourcePath(name, "/");
      ActionOf(p, "get") == Some("index") && HelperNameOf(p, "get", singularize) == ResourceHelperName("index", name, singularize)
  {
    assert ResourcePath(name, "/") == "/" + name + Format;
    IndexAction(name);
    HelperOfCollectionPath(name, Some("index"), singularize);
  }

  lemma CreateRoute(name: string, singularize: string -> string)
    requires IsLowerWord(name)
    ensures var p := ResourcePath(name, "/");
      ActionOf(p, "post") == Some("create") && HelperNameOf(p, "post", singularize) == ResourceHelperName("create", name, singularize)
  {
    assert ResourcePath(name, "/") == "/" + name + Format;
    CreateAction(name);
    HelperOfCollectionPath(name, Some("create"), singularize);
  }

  lemma NewRoute(name: string, singularize: string -> string)
    requires IsLowerWord(name)
    ensures var p := ResourcePath(name, "/new");
      ActionOf(p, "get") == Some("new") && HelperNameOf(p, "get", singularize) == ResourceHelperName("new", name, singularize)
  {
    NewAction(name);
    NewHelper(name, singularize);
  }

  lemma EditRoute(name: string, singularize: string -> string)
    requires IsLowerWord(name)
    ensures var p := ResourcePath(name, "/:id/edit");
      ActionOf(p, "get") == Some("edit") && HelperNameOf(p, "get", singularize) == ResourceHelperName("edit", name, singularize)
  {
    EditAction(name);
    EditHelper(name, singularize);
  }

  lemma DestroyRoute(name: string, singularize: string -> string)
    requires IsLowerWord(name)
    ensures var p := ResourcePath(name, "/:id");
      ActionOf(p, "delete") == Some("destroy") && HelperNameOf(p, "delete", singularize) == ResourceHelperName("destroy", name, singularize)
  {
    DestroyAction(name);
    HelperOfMemberPath(name, Some("destroy"), singularize);
  }

  lemma UpdateRoute(name: string, singularize: string -> string)
    requires IsLowerWord(name)
    ensures var p := ResourcePath(name, "/:id");
      ActionOf(p, "put") == Some("update") && HelperNameOf(p, "put", singularize) == ResourceHelperName("update", name, singularize)
  {
    UpdateAction(name);
    HelperOfMemberPath(name, Some("update"), singularize);
  }

  lemma ShowRoute(name: string, singularize: string -> string)
    requires IsLowerWord(name)
    ensures var p := ResourcePath(name, "/:id");
      ActionOf(p, "get") == Some("show") && HelperNameOf(p, "get", singularize) == ResourceHelperName("show", name, singularize)
  {
    ShowAction(name);
    HelperOfMemberPath(name, Some("show"), singularize);
  }

  /** Every route `resource` maps is recognised as its own action, and its helper
      gets the conventional name (`users`, `new_user`, `edit_user`, `user`). */
  lemma ResourceRouteNames(name: string, action: string, singularize: string -> string)
    requires IsLowerWord(name) && action in AllActions
    ensures var (verb, route) := RouteOf(action).value;
      var p := ResourcePath(name, route);
      ActionOf(p, verb) == Some(action) && HelperNameOf(p, verb, singularize) == ResourceHelperName(action, name, singularize)
  {
    if action == "index" {
      assert RouteOf(action) == Some(("get", "/"));
      IndexRoute(name, singularize);
    } else if action == "create" {
      assert RouteOf(action) == Some(("post", "/"));
      CreateRoute(name, singularize);
    } else if action == "new" {
      assert RouteOf(action) == Some(("get", "/new"));
      NewRoute(name, singularize);
    } else if action == "edit" {
      assert RouteOf(action) == Some(("get", "/:id/edit"));
      EditRoute(name, singularize);
    } else if action == "destroy" {
      assert RouteOf(action) == Some(("delete", "/:id"));
      DestroyRoute(name, singularize);
    } else if action == "update" {
      assert RouteOf(action) == Some(("put", "/:id"));
      UpdateRoute(name, singularize);
    } else {
      assert RouteOf(action) == Some(("get", "/:id"));
      ShowRoute(name, singularize);
    }
  }
}
