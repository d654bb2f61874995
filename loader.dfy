/**
 * `Injector.prototype.loadFromPath` as far as naming goes: the walk reports
 * every node, directories are skipped, and each file is named after the last
 * `depth + 1` segments of its path (so the walk root's own name comes first),
 * with the first `.js` removed. Loading a file is abstracted: a `File` node
 * carries the exports loading it yields.
 */
module Loader {
  import opened Wrappers
  import opened Text
  import opened JsValues
  import opened FileTree
  import opened SpecGrammar

  /** The name `loadFromPath` gives the file at `filePath`, found `depth` levels below the walk root. */
  function ModuleName(filePath: string, depth: nat, prefix: string): string {
    var segments := LastN(Split(filePath, '/'), depth + 1);
    ReplaceFirst((if prefix != "" then prefix + "/" else "") + Join(segments, "/"), ".js", "")
  }

  predicate NoSeparator(segments: seq<string>) {
    forall i :: 0 <= i < |segments| ==> '/' !in segments[i]
  }

  /** A file `depth` levels below the root is named by its last `depth + 1` segments. */
  lemma ModuleNameOfPath(path: seq<string>, depth: nat)
    requires NoSeparator(path) && depth < |path|
    ensures ModuleName(PathString(path), depth, "") == ReplaceFirst(Join(path[|path| - depth - 1..], "/"), ".js", "")
  {
    var parts := [""] + path;
    forall i | 0 <= i < |parts| ensures '/' !in parts[i] {
      if i > 0 { assert parts[i] == path[i - 1]; }
    }
    SplitJoin(parts, '/');
    assert LastN(parts, depth + 1) == path[|path| - depth - 1..];
    assert "" + Join(path[|path| - depth - 1..], "/") == Join(path[|path| - depth - 1..], "/");
  }

  /** Walking from a named root, a file's module name starts with the root's own name and
      continues with the segments below the root. */
  lemma {:induction false} LoadedNameBelowRoot(root: seq<string>, n: Node, v: Visit)
    requires root != [] && v in Walk(root, n, 0, None) && NoSeparator(v.path)
    ensures |root| <= |v.path|
    ensures ModuleName(PathString(v.path), v.depth, "")
      == ReplaceFirst(Join([root[|root| - 1]] + v.path[|root|..], "/"), ".js", "")
  {
    WalkDepths(root, n, 0, None, v);
    ModuleNameOfPath(v.path, v.depth);
    assert v.path[|v.path| - v.depth - 1..] == [root[|root| - 1]] + v.path[|root|..] by {
      assert v.path[|root| - 1] == v.path[..|root|][|root| - 1];
    }
  }

  /** The visits to files, in walk order: the callback returns early for directories. */
  function FileVisits(visits: seq<Visit>): (r: seq<Visit>)
    ensures forall v :: v in r <==> v in visits && v.node.File?
    ensures |r| <= |visits|
  {
    if visits == [] then []
    else (if visits[0].node.File? then [visits[0]] else []) + FileVisits(visits[1..])
  }

  /** The callback calls `(moduleName, exports)` of a walk, in order. */
  function Modules(visits: seq<Visit>, prefix: string): (r: seq<(string, Value)>)
    ensures |r| == |FileVisits(visits)|
    ensures forall i :: 0 <= i < |r| ==>
      var v := FileVisits(visits)[i]; r[i] == (ModuleName(PathString(v.path), v.depth, prefix), v.node.exports)
  {
    var files := FileVisits(visits);
    seq(|files|, i requires 0 <= i < |files| => (ModuleName(PathString(files[i].path), files[i].depth, prefix), files[i].node.exports))
  }

  /** `loadFromPath(root, prefix, callback)`: the callback calls, or the walk's failure. */
  function LoadFromPath(fs: Node, root: seq<string>, prefix: string): (r: Result<seq<(string, Value)>, JsError>)
    ensures Lookup(fs, root).None? <==> r.Failure?
    ensures r.Failure? ==> r.error == FileNotFound(PathString(root))
    ensures r.Success? ==> r.value == Modules(Walk(root, Lookup(fs, root).value, 0, None), prefix)
  {
    match WalkPath(fs, root, None)
    case Failure(e) => Failure(e)
    case Success(visits) => Success(Modules(visits, prefix))
  }

  /** `moduleName.replace(/^[\w~\-.]+/, name)` when `name` is given. */
  function Renamed(moduleName: string, name: string): (r: string)
    ensures name == "" ==> r == moduleName
  {
    if name == "" then moduleName
    else
      var e := RunEnd(moduleName, 0, IsPackageChar);
      if e == 0 then moduleName else name + moduleName[e..]
  }

  /** Renaming replaces the derived name's first segment and keeps the rest. */
  lemma RenameReplacesFirstSegment(first: string, rest: string, name: string)
    requires first != [] && forall k :: 0 <= k < |first| ==> IsPackageChar(first[k])
    requires name != ""
    ensures Renamed(first + "/" + rest, name) == name + "/" + rest
  {
    var m := first + "/" + rest;
    forall k | 0 <= k < |first| ensures IsPackageChar(m[k]) {
      assert m[k] == first[k];
    }
    assert m[|first|] == '/';
    RunEndAt(m, 0, |first|, IsPackageChar);
    assert m[|first|..] == "/" + rest;
  }

  /** A derived name with no `[\w~\-.]` character in front (such as one beginning with `/`) is kept. */
  lemma RenameKeepsUnmatchedName(moduleName: string, name: string)
    requires moduleName != [] && !IsPackageChar(moduleName[0])
    ensures Renamed(moduleName, name) == moduleName
  {
  }

  /** `deps.length == 1 ? deps[0] : deps.length > 0 ? deps : undefined`. */
  function Shape(deps: seq<Value>): Value {
    if |deps| == 1 then deps[0] else if |deps| > 0 then Arr(deps) else Undefined
  }
}
