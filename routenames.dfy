/**
 * The names `RouteMapper` derives from a route. `actionName` guesses the
 * controller action from the HTTP method and the path: of the seven action
 * patterns, the last one in listing order that matches wins.
 * `pathHelperName` turns a path into the name of its URL helper, so that
 * GET `/users/:id/edit.:format?` is named `edit_user`.
 *
 * The action patterns are regular expressions in the source. Here each one
 * is a predicate saying what a match looks like. The `.*` in them matches
 * any run of characters other than line terminators.
 */
module RouteNames {
  import opened Wrappers
  import opened Text
  import opened SpecGrammar

  /** The optional-format suffix resource routes end with. */
  const Format := ".:format?"

  predicate NoLineTerminator(s: string) {
    forall k :: 0 <= k < |s| ==> !IsLineTerminator(s[k])
  }

  /** `^p.*suffix$`. */
  predicate AnyThen(t: string, p: string, suffix: string) {
    |p| + |suffix| <= |t| && t[..|p|] == p && t[|t| - |suffix|..] == suffix
    && NoLineTerminator(t[|p|..|t| - |suffix|])
  }

  /** The `.*` of `^p.*\/\w+suffix$` ends at the slash at `i`. */
  predicate SlashWordAt(t: string, p: string, suffix: string, i: int)
    requires |p| <= i < |t| - |suffix| - 1
  {
    t[i] == '/' && NoLineTerminator(t[|p|..i]) && AllWord(t[i + 1..|t| - |suffix|])
  }

  /** `^p.*\/\w+suffix$`. */
  predicate AnyThenSlashWord(t: string, p: string, suffix: string) {
    |p| + |suffix| <= |t| && t[..|p|] == p && t[|t| - |suffix|..] == suffix
    && exists i :: |p| <= i < |t| - |suffix| - 1 && SlashWordAt(t, p, suffix, i)
  }

  /** The `.*` of `^p.*\/:\w+suffix$` ends at the slash at `i`. */
  predicate ParamAt(t: string, p: string, suffix: string, i: int)
    requires |p| <= i < |t| - |suffix| - 2
  {
    t[i] == '/' && t[i + 1] == ':' && NoLineTerminator(t[|p|..i]) && AllWord(t[i + 2..|t| - |suffix|])
  }

  /** `^p.*\/:\w+suffix$`. */
  predicate AnyThenParam(t: string, p: string, suffix: string) {
    |p| + |suffix| <= |t| && t[..|p|] == p && t[|t| - |suffix|..] == suffix
    && exists i :: |p| <= i < |t| - |suffix| - 2 && ParamAt(t, p, suffix, i)
  }

  /** The actions in the order `actionName` tries them. */
  const ActionNames: seq<string> := ["index", "new", "create", "show", "edit", "update", "destroy"]

  /** Whether the pattern of `action` matches the test string `t`. */
  predicate ActionMatches(action: string, t: string) {
    if action == "index" then AnyThenSlashWord(t, "GET", Format)
    else if action == "new" then AnyThen(t, "GET/", "/new" + Format)
    // `.*\w+` matches a run without line terminators that ends in a word character
    else if action == "create" then AnyThen(t, "POST/", Format) && |t| > 5 + |Format| && IsWordChar(t[|t| - |Format| - 1])
    else if action == "show" then AnyThenParam(t, "GET/", Format)
    else if action == "edit" then AnyThenParam(t, "GET/", "/edit" + Format)
    else if action == "update" then AnyThenParam(t, "PUT/", Format)
    else if action == "destroy" then AnyThenParam(t, "DELETE/", Format) || AnyThenParam(t, "DEL/", Format)
    else false
  }

  /** The string the patterns are tested on: the method upper-cased, then the
      path without one trailing slash, lower-cased. */
  function TestPath(path: string, verb: string): string {
    ToUpper(verb) + ToLower(DropTrailing(path, '/'))
  }

  /** The last of the first `n` actions whose pattern matches `t`. */
  function LastMatch(t: string, n: nat): (r: Option<string>)
    requires n <= |ActionNames|
    ensures r.None? <==> forall k :: 0 <= k < n ==> !ActionMatches(ActionNames[k], t)
    ensures r.Some? ==> exists k :: 0 <= k < n && ActionNames[k] == r.value && ActionMatches(r.value, t) &&
                                    forall j :: k < j < n ==> !ActionMatches(ActionNames[j], t)
  {
    if n == 0 then None
    else if ActionMatches(ActionNames[n - 1], t) then Some(ActionNames[n - 1])
    else LastMatch(t, n - 1)
  }

  /** `actionName(path, method)`; `None` is `undefined`. */
  function ActionOf(path: string, verb: string): Option<string> {
    LastMatch(TestPath(path, verb), |ActionNames|)
  }

  /** The loop of `actionName`: every pattern is tried and a later match replaces an earlier one. */
  method ActionName(path: string, verb: string) returns (action: Option<string>)
    ensures action == ActionOf(path, verb)
  {
    var t := TestPath(path, verb);
    action := None;
    for i := 0 to |ActionNames|
      invariant action == LastMatch(t, i)
    {
      if ActionMatches(ActionNames[i], t) {
        action := Some(ActionNames[i]);
      }
    }
  }

  // ---------------------------------------------------------------- helper names

  /** A `:name` path segment. */
  predicate IsVariable(token: string) {
    |token| > 0 && token[0] == ':'
  }

  /** `token.replace(/\.:format\??$/, '')`. */
  function StripFormatSuffix(token: string): (r: string)
    ensures |r| <= |token| && r == token[..|r|]
  {
    if EndsWith(token, Format) then token[..|token| - |Format|]
    else if EndsWith(token, ".:format") then token[..|token| - 8]
    else token
  }

  /** `all[index + 1] || ''`. */
  function NextToken(all: seq<string>, i: nat): string {
    if i + 1 < |all| then all[i + 1] else ""
  }

  /** The name part a kept token contributes when it is pushed: the last token
      loses its format suffix, and a token followed by a variable or by
      `new.:format?` is singularized. */
  function TokenName(all: seq<string>, i: nat, singularize: string -> string): string
    requires i < |all|
  {
    var token := if i == |all| - 1 then StripFormatSuffix(all[i]) else all[i];
    var next := NextToken(all, i);
    if IsVariable(next) || next == "new" + Format then singularize(token) else token
  }

  /** The parts pushed for the first `n` tokens: variables are skipped. */
  function PushedNames(all: seq<string>, n: nat, singularize: string -> string): seq<string>
    requires n <= |all|
  {
    if n == 0 then []
    else PushedNames(all, n - 1, singularize) + (if IsVariable(all[n - 1]) then [] else [TokenName(all, n - 1, singularize)])
  }

  /** The last token, without its format suffix, names the action: it is moved to the front. */
  predicate LeadsWithAction(all: seq<string>, action: Option<string>) {
    |all| > 0 && !IsVariable(all[|all| - 1]) && action == Some(StripFormatSuffix(all[|all| - 1]))
  }

  function NameParts(all: seq<string>, action: Option<string>, singularize: string -> string): seq<string> {
    if LeadsWithAction(all, action) then [StripFormatSuffix(all[|all| - 1])] + PushedNames(all, |all| - 1, singularize)
    else PushedNames(all, |all|, singularize)
  }

  /** `pathHelperName(path, method)` once the action is known. */
  function HelperName(path: string, action: Option<string>, singularize: string -> string): string {
    if path == "" || path == "/" then "root"
    else Join(NameParts(Split(TrimSlashes(path), '/'), action, singularize), "_")
  }

  function HelperNameOf(path: string, verb: string, singularize: string -> string): string {
    HelperName(path, ActionOf(path, verb), singularize)
  }

  /** The `forEach` of `pathHelperName`: a name part is pushed per kept token, and the
      last token, without its format suffix, is unshifted instead when it names the action. */
  method CollectNameParts(all: seq<string>, action: Option<string>, singularize: string -> string)
    returns (parts: seq<string>)
    ensures parts == NameParts(all, action, singularize)
  {
    parts := [];
    for i := 0 to |all|
      invariant i < |all| ==> parts == PushedNames(all, i, singularize)
      invariant i == |all| ==> parts == NameParts(all, action, singularize)
    {
      PushStep(all, i, action, singularize);
      var token := all[i];
      if IsVariable(token) {
        continue;
      }
      var next := if i + 1 < |all| then all[i + 1] else "";
      if i == |all| - 1 {
        token := StripFormatSuffix(token);
        if Some(token) == action {
          parts := [token] + parts;
          continue;
        }
      }
      if IsVariable(next) || next == "new" + Format {
        token := singularize(token);
      }
      parts := parts + [token];
    }
  }

  /** `pathHelperName`: the action, then the name parts joined with `_`. */
  method PathHelperName(path: string, verb: string, singularize: string -> string) returns (name: string)
    ensures name == HelperNameOf(path, verb, singularize)
  {
    var action := ActionName(path, verb);
    if path == "" || path == "/" {
      return "root";
    }
    var parts := CollectNameParts(Split(TrimSlashes(path), '/'), action, singularize);
    name := Join(parts, "_");
  }

  /** What one more token adds: a pushed part, or for the last token possibly the leading action. */
  lemma PushStep(all: seq<string>, i: nat, action: Option<string>, singularize: string -> string)
    requires i < |all|
    ensures PushedNames(all, i + 1, singularize)
         == PushedNames(all, i, singularize) + (if IsVariable(all[i]) then [] else [TokenName(all, i, singularize)])
    ensures i == |all| - 1 ==>
      NameParts(all, action, singularize) ==
        if LeadsWithAction(all, action) then [StripFormatSuffix(all[i])] + PushedNames(all, i, singularize)
        else PushedNames(all, i + 1, singularize)
  {
  }

  /** Stripping the format suffix never turns a plain token into a variable. */
  lemma StripKeepsPlain(token: string)
    requires !IsVariable(token)
    ensures !IsVariable(StripFormatSuffix(token))
  {
    var r := StripFormatSuffix(token);
    if |r| > 0 {
      assert r[0] == token[0];
    }
  }

  /** No pushed part is a variable, given a singularizer that keeps plain words plain. */
  lemma {:induction false} PushedNamesPlain(all: seq<string>, n: nat, singularize: string -> string)
    requires n <= |all|
    requires forall w :: !IsVariable(w) ==> !IsVariable(singularize(w))
    ensures forall p :: p in PushedNames(all, n, singularize) ==> !IsVariable(p)
  {
    if n > 0 {
      PushedNamesPlain(all, n - 1, singularize);
      if !IsVariable(all[n - 1]) {
        StripKeepsPlain(all[n - 1]);
      }
    }
  }

  /** `pathHelperName` never emits a `:` variable as a name part, and a last
      token that names the action comes first. */
  lemma NamePartsPlain(all: seq<string>, action: Option<string>, singularize: string -> string)
    requires forall w :: !IsVariable(w) ==> !IsVariable(singularize(w))
    ensures forall p :: p in NameParts(all, action, singularize) ==> !IsVariable(p)
    ensures LeadsWithAction(all, action) ==> NameParts(all, action, singularize)[0] == action.value
  {
    if LeadsWithAction(all, action) {
      PushedNamesPlain(all, |all| - 1, singularize);
      StripKeepsPlain(all[|all| - 1]);
    } else {
      PushedNamesPlain(all, |all|, singularize);
    }
  }
}
