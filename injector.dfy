/**
 * The injector: a registry of named dependencies and `get`, which resolves
 * a specification to a dependency, loading and registering it when it is
 * not registered yet.
 *
 * The outside world `get` consults is an `Env`: the packages `require`
 * finds, the directories `require.resolve` places their main files in, the
 * filesystem tree and the working directory. A JavaScript `throw` is a
 * `Failure`; the registry writes made before it stay.
 */
module Injection {
  import opened Wrappers
  import opened Text
  import opened JsValues
  import opened Registry
  import opened FileTree
  import opened SpecGrammar
  import opened Loader
  import opened Nested

  /** What `get` may be handed: a string, an array, a function, or anything else.
      `OtherSpec` stands only for a value of none of the first three kinds: its
      payload is never meant to be a `Str` or an `Arr`, and a function is `FnSpec`. */
  datatype Spec = StrSpec(s: string) | ArraySpec(items: seq<Value>) | FnSpec | OtherSpec(v: Value)

  datatype Env = Env(
    packages: map<string, Value>,            // `require(name)` for bare package names
    packageDirs: map<string, seq<string>>,   // `path.dirname(require.resolve(name))`
    fs: Node,                                // the filesystem from `/`
    cwd: seq<string>,                        // the working directory `path.resolve` starts from
    version: Version)                        // the spec grammar and fan-out as written, or corrected

  function SpecSize(spec: Spec): nat {
    if spec.StrSpec? then |spec.s| else 0
  }

  /** `registry[k] ? true : false`. */
  predicate IsRegistered(reg: Dict, k: string) {
    k in reg.values && Truthy(reg.values[k])
  }

  // ---------------------------------------------------------------- the seed

  /** The writes of the constructor's `forEach` over the seed's keys: every key but `injector`. */
  function SeedWrites(names: seq<string>, values: map<string, Value>): (w: seq<(string, Value)>)
    requires forall i :: 0 <= i < |names| ==> names[i] in values
    ensures forall i :: 0 <= i < |w| ==> w[i].0 != "injector" && w[i].0 in names && w[i].1 == values[w[i].0]
    decreases |names|
  {
    if names == [] then []
    else
      var init := names[..|names| - 1];
      var last := names[|names| - 1];
      assert forall k :: k in init ==> k in names;
      SeedWrites(init, values) + (if last == "injector" then [] else [(last, values[last])])
  }

  /** Every key of the seed but `injector` is written. */
  lemma {:induction false} SeedWritesCover(names: seq<string>, values: map<string, Value>, k: string)
    requires forall i :: 0 <= i < |names| ==> names[i] in values
    requires k in names && k != "injector"
    ensures exists i :: 0 <= i < |SeedWrites(names, values)| && SeedWrites(names, values)[i].0 == k
    decreases |names|
  {
    var init := names[..|names| - 1];
    var w := SeedWrites(names, values);
    if names[|names| - 1] == k {
      assert w[|w| - 1].0 == k;
    } else {
      assert k in init;
      SeedWritesCover(init, values, k);
      var i :| 0 <= i < |SeedWrites(init, values)| && SeedWrites(init, values)[i].0 == k;
      assert w[i] == SeedWrites(init, values)[i];
    }
  }

  /** The registry a new injector starts with. */
  function Seeded(seed: Dict): Dict
    requires seed.Valid()
  {
    PutAll(Put(Empty, "injector", InjectorRef), SeedWrites(seed.names, seed.values))
  }

  /** One more key of the seed: the registry after the first `i + 1` keys. */
  lemma SeedStep(seed: Dict, start: Dict, i: nat)
    requires seed.Valid() && i < |seed.names|
    ensures seed.names[i] in seed.values
    ensures var k := seed.names[i];
      PutAll(start, SeedWrites(seed.names[..i + 1], seed.values))
        == if k == "injector" then PutAll(start, SeedWrites(seed.names[..i], seed.values))
           else Put(PutAll(start, SeedWrites(seed.names[..i], seed.values)), k, seed.values[k])
  {
    var names := seed.names;
    assert names[..i + 1][..i] == names[..i];
    var w := SeedWrites(names[..i], seed.values);
    if names[i] == "injector" {
      assert SeedWrites(names[..i + 1], seed.values) == w + [];
      assert w + [] == w;
    } else {
      PutAllSnoc(start, w, names[i], seed.values[names[i]]);
    }
  }

  /** The constructor's loop: `injector` first, then every other key of the seed in its order. */
  method SeedRegistry(seed: Dict) returns (reg: Dict)
    requires seed.Valid()
    ensures reg == Seeded(seed)
  {
    var start := Put(Empty, "injector", InjectorRef);
    reg := start;
    for i := 0 to |seed.names|
      invariant reg == PutAll(start, SeedWrites(seed.names[..i], seed.values))
    {
      var k := seed.names[i];
      SeedStep(seed, start, i);
      if k != "injector" {
        reg := Put(reg, k, seed.values[k]);
      }
    }
    assert seed.names[..|seed.names|] == seed.names;
  }

  /** `injector` comes first and names the injector itself whatever the seed says; every other
      key of the seed is copied with its value, and nothing else is registered. */
  lemma SeededRegistry(seed: Dict)
    requires seed.Valid()
    ensures Seeded(seed).Valid()
    ensures Seeded(seed).names[0] == "injector" && Seeded(seed).values["injector"] == InjectorRef
    ensures forall k :: k != "injector" ==> (k in Seeded(seed).values <==> k in seed.values)
    ensures forall k :: k != "injector" && k in seed.values ==> Seeded(seed).values[k] == seed.values[k]
  {
    var start := Put(Empty, "injector", InjectorRef);
    var writes := SeedWrites(seed.names, seed.values);
    PutAllExtendsOrder(start, writes);
    LastWriteWins(start, writes, "injector");
    forall k | k != "injector"
      ensures k in Seeded(seed).values <==> k in seed.values
      ensures k in seed.values ==> Seeded(seed).values[k] == seed.values[k]
    {
      LastWriteWins(start, writes, k);
      var lw := LastWrite(writes, k);
      if k in seed.values {
        assert k in seed.names;
        SeedWritesCover(seed.names, seed.values, k);
      }
      if lw.Some? {
        var i :| 0 <= i < |writes| && writes[i] == (k, lw.value);
        assert k in seed.names;
      }
    }
  }

  // ---------------------------------------------------------------- find

  /** The positions from `from` on whose names `matches` accepts, in increasing order. */
  function MatchingPositions(names: seq<string>, matches: string -> bool, from: nat): (ps: seq<nat>)
    requires from <= |names|
    ensures |ps| <= |names| - from
    ensures forall i :: 0 <= i < |ps| ==> from <= ps[i] < |names| && matches(names[ps[i]])
    ensures forall i, j :: 0 <= i < j < |ps| ==> ps[i] < ps[j]
    ensures forall x :: from <= x < |names| && matches(names[x]) ==> x in ps
    decreases |names| - from
  {
    if from == |names| then []
    else
      var rest := MatchingPositions(names, matches, from + 1);
      if matches(names[from]) then [from] + rest else rest
  }

  /** The registered names `matches` accepts, in key order: `Object.keys(registry).filter(...)`. */
  function MatchingNames(names: seq<string>, matches: string -> bool): (r: seq<string>)
    ensures forall n :: n in r <==> n in names && matches(n)
  {
    var ps := MatchingPositions(names, matches, 0);
    var r := seq(|ps|, i requires 0 <= i < |ps| => names[ps[i]]);
    assert forall n :: n in names && matches(n) ==> n in r by {
      forall n | n in names && matches(n) ensures n in r {
        var x :| 0 <= x < |names| && names[x] == n;
        var i :| 0 <= i < |ps| && ps[i] == x;
        assert r[i] == n;
      }
    }
    r
  }

  /** `find(id, single)`, with the regular expression `id` given as the predicate it decides. */
  function FindIn(reg: Dict, matches: string -> bool, single: bool): (r: Value)
    requires reg.Valid()
    ensures MatchingNames(reg.names, matches) == [] ==> r == Null
  {
    var found := MatchingNames(reg.names, matches);
    var deps := seq(|found|, i requires 0 <= i < |found| => reg.values[found[i]]);
    if |deps| == 0 then Null else if single then deps[0] else Arr(deps)
  }

  /** `find` without `single` lists the values of the matching names, in key order and
      nothing else. With `single` it gives the value of the first matching name in key order. */
  lemma FindOrder(reg: Dict, matches: string -> bool)
    requires reg.Valid()
    ensures var all := FindIn(reg, matches, false);
      var ps := MatchingPositions(reg.names, matches, 0);
      MatchingNames(reg.names, matches) != [] ==>
        && all.Arr?
        && |all.elems| == |ps|
        && (forall i :: 0 <= i < |ps| ==> all.elems[i] == reg.values[reg.names[ps[i]]])
        && (forall v :: v in all.elems <==> exists n :: n in reg.names && matches(n) && v == reg.values[n])
        && (forall j :: 0 <= j < ps[0] ==> !matches(reg.names[j]))
        && FindIn(reg, matches, true) == all.elems[0]
  {
    var found := MatchingNames(reg.names, matches);
    if found != [] {
      FindListsPositions(reg, matches);
      var all := FindIn(reg, matches, false);
      forall v ensures v in all.elems <==> exists n :: n in reg.names && matches(n) && v == reg.values[n] {
        FoundValue(reg, matches, v);
      }
      FirstMatch(reg.names, matches);
    }
  }

  lemma FindListsPositions(reg: Dict, matches: string -> bool)
    requires reg.Valid() && MatchingNames(reg.names, matches) != []
    ensures var all := FindIn(reg, matches, false);
      var ps := MatchingPositions(reg.names, matches, 0);
      && all.Arr? && |all.elems| == |ps| && FindIn(reg, matches, true) == all.elems[0]
      && forall i :: 0 <= i < |ps| ==> all.elems[i] == reg.values[reg.names[ps[i]]]
  {
    var found := MatchingNames(reg.names, matches);
    var ps := MatchingPositions(reg.names, matches, 0);
    assert forall i :: 0 <= i < |ps| ==> found[i] == reg.names[ps[i]];
  }

  lemma FoundValue(reg: Dict, matches: string -> bool, v: Value)
    requires reg.Valid() && MatchingNames(reg.names, matches) != []
    ensures v in FindIn(reg, matches, false).elems <==> exists n :: n in reg.names && matches(n) && v == reg.values[n]
  {
    if v in FindIn(reg, matches, false).elems {
      FoundValueNamed(reg, matches, v);
    }
    if exists n :: n in reg.names && matches(n) && v == reg.values[n] {
      var n :| n in reg.names && matches(n) && v == reg.values[n];
      NamedValueFound(reg, matches, n);
    }
  }

  lemma FoundValueNamed(reg: Dict, matches: string -> bool, v: Value)
    requires reg.Valid() && MatchingNames(reg.names, matches) != []
    requires v in FindIn(reg, matches, false).elems
    ensures exists n :: n in reg.names && matches(n) && v == reg.values[n]
  {
    var found := MatchingNames(reg.names, matches);
    var all := FindIn(reg, matches, false);
    var i :| 0 <= i < |all.elems| && all.elems[i] == v;
    assert found[i] in found;
  }

  lemma NamedValueFound(reg: Dict, matches: string -> bool, n: string)
    requires reg.Valid() && MatchingNames(reg.names, matches) != []
    requires n in reg.names && matches(n)
    ensures reg.values[n] in FindIn(reg, matches, false).elems
  {
    var found := MatchingNames(reg.names, matches);
    var i :| 0 <= i < |found| && found[i] == n;
    assert FindIn(reg, matches, false).elems[i] == reg.values[n];
  }

  /** The first position `MatchingPositions` keeps is the first matching position. */
  lemma FirstMatch(names: seq<string>, matches: string -> bool)
    requires MatchingNames(names, matches) != []
    ensures var ps := MatchingPositions(names, matches, 0);
      |ps| > 0 && forall j :: 0 <= j < ps[0] ==> !matches(names[j])
  {
    var ps := MatchingPositions(names, matches, 0);
    assert forall k :: 0 <= k < |ps| ==> ps[0] <= ps[k];
    forall j | 0 <= j < ps[0] ensures !matches(names[j]) {
      assert j !in ps;
    }
  }

  // ---------------------------------------------------------------- get

  /** The registry writes of a load: each module under its (renamed) name. */
  function LoadWrites(mods: seq<(string, Value)>, name: string): (w: seq<(string, Value)>)
    ensures |w| == |mods|
    ensures forall i :: 0 <= i < |w| ==> w[i] == (Renamed(mods[i].0, name), mods[i].1)
  {
    seq(|mods|, i requires 0 <= i < |mods| => (Renamed(mods[i].0, name), mods[i].1))
  }

  function Values(writes: seq<(string, Value)>): (r: seq<Value>)
    ensures |r| == |writes| && forall i :: 0 <= i < |r| ==> r[i] == writes[i].1
  {
    seq(|writes|, i requires 0 <= i < |writes| => writes[i].1)
  }

  /** One more write of a batch, as the loops that perform a batch take it. */
  lemma BatchStep(d: Dict, writes: seq<(string, Value)>, i: nat, reg: Dict, deps: seq<Value>)
    requires i < |writes| && reg == PutAll(d, writes[..i]) && deps == Values(writes)[..i]
    ensures Put(reg, writes[i].0, writes[i].1) == PutAll(d, writes[..i + 1])
    ensures deps + [writes[i].1] == Values(writes)[..i + 1]
  {
    PutAllStep(d, writes, i);
  }

  /** Loading everything below `root` into the registry, as the file-path and package-path branches do. */
  function LoadInto(reg: Dict, fs: Node, root: seq<string>, name: string): (out: (Result<Value, JsError>, Dict))
    ensures reg.Valid() ==> out.1.Valid()
    ensures out.0.Failure? ==> out.0.error.FileNotFound?
  {
    match LoadFromPath(fs, root, "")
    case Failure(e) => (Failure(e), reg)
    case Success(mods) => (Success(Shape(Values(mods))), PutAll(reg, LoadWrites(mods, name)))
  }

  /** The registry key a property spec's path is registered under: the first `.` becomes `/`. */
  function PropertyKey(prefix: string, path: string): string {
    prefix + "/" + ReplaceFirst(path, ".", "/")
  }

  /** The prefix a fan-out registers the properties under. As written it is
      `prefix/` + the path with its first `.` made a `/`, `.*` included;
      corrected, the `.*` is left out, giving `prefix/name/property`. */
  function FanOutPrefix(prefix: string, path: string, version: Version): string {
    if version == AsWritten then PropertyKey(prefix, path) else PropertyKey(prefix, StripFanOut(path))
  }

  /** The registry writes of a fan-out: every own property of `base`, under `prefix/property`. */
  function FanOutWrites(prefix: string, base: Value, props: seq<string>): (w: seq<(string, Value)>)
    requires Truthy(base)
    ensures |w| == |props|
    ensures forall i :: 0 <= i < |w| ==> w[i].0 == prefix + "/" + props[i]
    ensures forall i :: 0 <= i < |w| ==> w[i].1 == Get(base, props[i]).value
  {
    seq(|props|, i requires 0 <= i < |props| => (prefix + "/" + props[i], Get(base, props[i]).value))
  }

  /** The end of the package-property branch: select the property of the loaded package and
      register it (or, for a fan-out, each of its own properties) under `prefix`. */
  function SelectProperty(reg: Dict, thePackage: Value, prefix: string, path: string, version: Version)
    : (out: (Result<Value, JsError>, Dict))
    ensures reg.Valid() ==> out.1.Valid()
    ensures out.0.Failure? ==> out.0.error == TypeError
  {
    match NestedProperty(thePackage, StripFanOut(path))
    case Failure(e) => (Failure(e), reg)
    case Success(base) =>
      if !Truthy(base) then (Success(Undefined), reg)
      else if IsFanOut(path) then
        var writes := FanOutWrites(FanOutPrefix(prefix, path, version), base, OwnPropertyNames(base));
        (Success(Shape(Values(writes))), PutAll(reg, writes))
      else (Success(base), Put(reg, PropertyKey(prefix, path), base))
  }

  /** `injector.get(spec, name)`: the result, and the registry afterwards. `name` is `""` when absent. */
  function GetSpec(reg: Dict, env: Env, spec: Spec, name: string): (out: (Result<Value, JsError>, Dict))
    ensures reg.Valid() ==> out.1.Valid()
    ensures out.0 == Failure(InvalidSpecification) <==> spec.OtherSpec?
    ensures spec.StrSpec? && IsRegistered(reg, spec.s) ==> out == (Success(reg.values[spec.s]), reg)
    decreases SpecSize(spec)
  {
    match spec
    case OtherSpec(_) => (Failure(InvalidSpecification), reg)
    case ArraySpec(_) => (Success(Undefined), reg)
    case FnSpec => (Success(Undefined), reg)
    case StrSpec(s) =>
      if IsRegistered(reg, s) then (Success(reg.values[s]), reg)
      else
        var form := Classify(s, env.version);
        if form.PackageName? then
          if s !in env.packages then (Failure(ModuleNotFound(s)), reg)
          else (Success(env.packages[s]), Put(reg, if name != "" then name else s, env.packages[s]))
        else if form.FilePath? then LoadInto(reg, env.fs, Resolve(env.cwd, s), name)
        else if form.PackagePath? then
          if form.pkg !in env.packageDirs then (Failure(ModuleNotFound(form.pkg)), reg)
          else LoadInto(reg, env.fs, Resolve(env.packageDirs[form.pkg], form.rel), name)
        else if form.PackageProperty? then
          var pkg, path := form.pkg, form.path;
          PackageShorter(s, env.version);
          var (thePackage, reg1) := GetSpec(reg, env, StrSpec(pkg), "");
          if thePackage.Failure? then (thePackage, reg1)
          else if !Truthy(thePackage.value) then (Success(Undefined), reg1)
          else SelectProperty(reg1, thePackage.value, if name != "" then name else pkg, path, env.version)
        else (Success(Undefined), reg)
  }

  /** Selecting a property only adds names. */
  lemma SelectPropertyExtendsOrder(reg: Dict, thePackage: Value, prefix: string, path: string, version: Version)
    ensures var after := SelectProperty(reg, thePackage, prefix, path, version).1;
      |reg.names| <= |after.names| && after.names[..|reg.names|] == reg.names
  {
    var base := NestedProperty(thePackage, StripFanOut(path));
    if base.Success? && Truthy(base.value) && IsFanOut(path) {
      PutAllExtendsOrder(reg, FanOutWrites(FanOutPrefix(prefix, path, version), base.value, OwnPropertyNames(base.value)));
    }
  }

  /** Being a prefix is transitive. */
  lemma ExtendsTrans(a: seq<string>, b: seq<string>, c: seq<string>)
    requires |a| <= |b| && b[..|a|] == a && |b| <= |c| && c[..|b|] == b
    ensures |a| <= |c| && c[..|a|] == a
  {
    assert c[..|a|] == c[..|b|][..|a|];
  }

  /** `get` never drops or reorders registered names: the old key order is a prefix of the new. */
  lemma {:induction false} GetExtendsOrder(reg: Dict, env: Env, spec: Spec, name: string)
    ensures var after := GetSpec(reg, env, spec, name).1;
      |reg.names| <= |after.names| && after.names[..|reg.names|] == reg.names
    decreases SpecSize(spec)
  {
    if spec.StrSpec? && !IsRegistered(reg, spec.s) {
      var s := spec.s;
      match Classify(s, env.version)
      case PackageName =>
      case FilePath =>
        var mods := LoadFromPath(env.fs, Resolve(env.cwd, s), "");
        if mods.Success? { PutAllExtendsOrder(reg, LoadWrites(mods.value, name)); }
      case PackagePath(pkg, rel) =>
        if pkg in env.packageDirs {
          var mods := LoadFromPath(env.fs, Resolve(env.packageDirs[pkg], rel), "");
          if mods.Success? { PutAllExtendsOrder(reg, LoadWrites(mods.value, name)); }
        }
      case PackageProperty(pkg, path) =>
        PackageShorter(s, env.version);
        GetExtendsOrder(reg, env, StrSpec(pkg), "");
        var (thePackage, reg1) := GetSpec(reg, env, StrSpec(pkg), "");
        var after := GetSpec(reg, env, spec, name).1;
        if thePackage.Success? && Truthy(thePackage.value) {
          var prefix := if name != "" then name else pkg;
          assert after == SelectProperty(reg1, thePackage.value, prefix, path, env.version).1;
          SelectPropertyExtendsOrder(reg1, thePackage.value, prefix, path, env.version);
          ExtendsTrans(reg.names, reg1.names, after.names);
        }
      case Unrecognised =>
    }
  }

  /** Loading a bare package registers it; a second `get` of the same spec returns the
      registered value and changes nothing, as long as the package's value is truthy. */
  lemma PackageLoadedOnce(reg: Dict, env: Env, s: string)
    requires IsPackageName(s) && !IsRegistered(reg, s)
    requires s in env.packages && Truthy(env.packages[s])
    ensures var (r1, reg1) := GetSpec(reg, env, StrSpec(s), "");
      && r1 == Success(env.packages[s]) && IsRegistered(reg1, s)
      && GetSpec(reg1, env, StrSpec(s), "") == (r1, reg1)
  {
  }

  /** A registered falsy value counts as absent: `get` loads the spec again. */
  lemma FalsyEntryIsReloaded(reg: Dict, env: Env, s: string, v: Value)
    requires IsPackageName(s) && s in env.packages && !Truthy(v)
    ensures !IsRegistered(Put(reg, s, v), s)
    ensures GetSpec(Put(reg, s, v), env, StrSpec(s), "") == (Success(env.packages[s]), Put(reg, s, env.packages[s]))
  {
    assert Put(Put(reg, s, v), s, env.packages[s]) == Put(reg, s, env.packages[s]);
  }

  /** A file-path spec walks the resolved path: a missing path throws and writes nothing; otherwise
      every loaded module is registered under its (renamed) name, holding the last module
      loaded under that name, and the result is the single module, the array of them, or undefined. */
  lemma FilePathLoad(reg: Dict, env: Env, s: string, name: string)
    requires Classify(s, env.version) == FilePath && !IsRegistered(reg, s)
    ensures var root := Resolve(env.cwd, s);
      var (r, after) := GetSpec(reg, env, StrSpec(s), name);
      var loaded := LoadFromPath(env.fs, root, "");
      && (loaded.Failure? ==> r == Failure(FileNotFound(PathString(root))) && after == reg)
      && (loaded.Success? ==>
        var mods := loaded.value;
        var writes := LoadWrites(mods, name);
        && (|mods| == 1 ==> r == Success(mods[0].1))
        && (|mods| > 1 ==> r == Success(Arr(Values(mods))))
        && (|mods| == 0 ==> r == Success(Undefined))
        && forall i :: 0 <= i < |mods| ==>
             var k := Renamed(mods[i].0, name);
             k in after.values && LastWrite(writes, k) == Some(after.values[k]))
  {
    FilePathGet(reg, env, s, name);
    LoadIntoLoads(reg, env.fs, Resolve(env.cwd, s), name);
  }

  /** A file-path spec that is not registered loads the resolved path. */
  lemma FilePathGet(reg: Dict, env: Env, s: string, name: string)
    requires Classify(s, env.version) == FilePath && !IsRegistered(reg, s)
    ensures GetSpec(reg, env, StrSpec(s), name) == LoadInto(reg, env.fs, Resolve(env.cwd, s), name)
  {
  }

  /** What a load gives and registers. */
  lemma LoadIntoLoads(reg: Dict, fs: Node, root: seq<string>, name: string)
    ensures var (r, after) := LoadInto(reg, fs, root, name);
      var loaded := LoadFromPath(fs, root, "");
      && (loaded.Failure? ==> r == Failure(FileNotFound(PathString(root))) && after == reg)
      && (loaded.Success? ==>
        var mods := loaded.value;
        var writes := LoadWrites(mods, name);
        && (|mods| == 1 ==> r == Success(mods[0].1))
        && (|mods| > 1 ==> r == Success(Arr(Values(mods))))
        && (|mods| == 0 ==> r == Success(Undefined))
        && forall i :: 0 <= i < |mods| ==>
             var k := Renamed(mods[i].0, name);
             k in after.values && LastWrite(writes, k) == Some(after.values[k]))
  {
    match LoadFromPath(fs, root, "")
    case Failure(e) =>
    case Success(mods) =>
      var writes := LoadWrites(mods, name);
      forall i | 0 <= i < |mods|
        ensures var k := Renamed(mods[i].0, name);
          k in PutAll(reg, writes).values && LastWrite(writes, k) == Some(PutAll(reg, writes).values[k])
      {
        var k := Renamed(mods[i].0, name);
        assert writes[i].0 == k;
        LastWriteWins(reg, writes, k);
      }
  }

  /** `::pkg::a.b` on a registered package registers the nested value under `pkg/a/b`
      (or `name/a/b`) and returns it. */
  lemma PropertySpecRegisters(reg: Dict, env: Env, s: string, pkg: string, path: string, name: string, v: Value)
    requires Classify(s, env.version) == PackageProperty(pkg, path) && !IsRegistered(reg, s)
    requires IsRegistered(reg, pkg) && !IsFanOut(path)
    requires NestedProperty(reg.values[pkg], path) == Success(v) && Truthy(v)
    ensures GetSpec(reg, env, StrSpec(s), name)
      == (Success(v), Put(reg, PropertyKey(if name != "" then name else pkg, path), v))
  {
    assert StripFanOut(path) == path by {
      EndsWithContains(path, ".*");
    }
  }

  /** As written, `::pkg::name.*` is no fan-out: the property path stops before
      the `.*`, so `get` registers `pkg.name` itself under `pkg/name` and returns it. */
  lemma FanOutSpecAsWritten(reg: Dict, env: Env, pkg: string, name: string, v: Value)
    requires env.version == AsWritten
    requires pkg != [] && AllWord(pkg) && name != [] && AllWord(name)
    requires !IsRegistered(reg, "::" + pkg + "::" + name + ".*") && IsRegistered(reg, pkg)
    requires NestedProperty(reg.values[pkg], name) == Success(v) && Truthy(v)
    ensures GetSpec(reg, env, StrSpec("::" + pkg + "::" + name + ".*"), "")
      == (Success(v), Put(reg, pkg + "/" + name, v))
  {
    var s := "::" + pkg + "::" + name + ".*";
    FanOutSpecClassifies(pkg, name);
    PropertySpecRegisters(reg, env, s, pkg, name, "", v);
    WordHasNoDot(name);
    assert ReplaceFirst(name, ".", "/") == name;
  }

  /** Every key of a fan-out batch ends up in the registry. */
  lemma {:induction false} FanOutKeysPresent(reg: Dict, prefix: string, base: Value, names: seq<string>)
    requires Truthy(base)
    ensures forall p :: p in names ==> prefix + "/" + p in PutAll(reg, FanOutWrites(prefix, base, names)).values
  {
    var writes := FanOutWrites(prefix, base, names);
    forall p | p in names ensures prefix + "/" + p in PutAll(reg, writes).values {
      var i :| 0 <= i < |names| && names[i] == p;
      LastWriteWins(reg, writes, prefix + "/" + p);
      assert writes[i].0 == prefix + "/" + p;
    }
  }

  /** With a registered package, a fan-out spec's writes are exactly the fan-out batch. */
  lemma FanOutSpecWrites(reg: Dict, env: Env, s: string, pkg: string, path: string, base: Value)
    requires Classify(s, env.version) == PackageProperty(pkg, path) && !IsRegistered(reg, s)
    requires IsRegistered(reg, pkg) && IsFanOut(path)
    requires NestedProperty(reg.values[pkg], StripFanOut(path)) == Success(base) && Truthy(base)
    ensures GetSpec(reg, env, StrSpec(s), "").1
      == PutAll(reg, FanOutWrites(FanOutPrefix(pkg, path, env.version), base, OwnPropertyNames(base)))
  {
    assert GetSpec(reg, env, StrSpec(pkg), "") == (Success(reg.values[pkg]), reg);
    assert GetSpec(reg, env, StrSpec(s), "") == SelectProperty(reg, reg.values[pkg], pkg, path, env.version);
  }

  /** Corrected, `::pkg::name.*` fans out: every own property `p` of `pkg.name`
      is registered under `pkg/name/p`. */
  lemma FanOutRegistersEveryProperty(reg: Dict, env: Env, pkg: string, name: string, base: Value)
    requires env.version == Corrected
    requires pkg != [] && AllWord(pkg) && name != [] && AllWord(name)
    requires !IsRegistered(reg, "::" + pkg + "::" + name + ".*") && IsRegistered(reg, pkg)
    requires NestedProperty(reg.values[pkg], name) == Success(base) && Truthy(base)
    ensures var after := GetSpec(reg, env, StrSpec("::" + pkg + "::" + name + ".*"), "").1;
      forall p :: p in OwnPropertyNames(base) ==> pkg + "/" + name + "/" + p in after.values
  {
    var s := "::" + pkg + "::" + name + ".*";
    FanOutSpecClassifies(pkg, name);
    FanOutSpecWrites(reg, env, s, pkg, name + ".*", base);
    WordHasNoDot(name);
    assert FanOutPrefix(pkg, name + ".*", Corrected) == pkg + "/" + name by {
      assert ReplaceFirst(name, ".", "/") == name;
    }
    FanOutKeysPresent(reg, pkg + "/" + name, base, OwnPropertyNames(base));
  }

  // ---------------------------------------------------------------- the injector object

  class Injector {
    var registry: Dict

    ghost predicate Valid()
      reads this
    {
      registry.Valid()
    }

    /** `new Injector(deps)`. */
    constructor(seed: Dict)
      requires seed.Valid()
      ensures Valid()
      ensures registry == Seeded(seed)
    {
      var reg := SeedRegistry(seed);
      registry := reg;
      SeededRegistry(seed);
    }

    /** `registry[k] = v`, the registration the tests perform. */
    method Register(k: string, v: Value)
      requires Valid()
      modifies this
      ensures Valid()
      ensures registry == Put(old(registry), k, v)
      ensures Contains(k) <==> Truthy(v)
    {
      registry := Put(registry, k, v);
    }

    /** `contains(k)`: a registered falsy value counts as absent. */
    function Contains(k: string): (r: bool)
      reads this
      ensures Valid() ==> (r <==> k in registry.names && Truthy(registry.values[k]))
    {
      IsRegistered(registry, k)
    }

    /** `find(id, single)`: null when no name matches; otherwise the values at the
        matching positions in key order, or with `single` the first of them. */
    function Find(matches: string -> bool, single: bool): (r: Value)
      requires Valid()
      reads this
      ensures var ps := MatchingPositions(registry.names, matches, 0);
        && (ps == [] ==> r == Null)
        && (ps != [] && !single ==>
              r.Arr? && |r.elems| == |ps|
              && forall i :: 0 <= i < |ps| ==> r.elems[i] == registry.values[registry.names[ps[i]]])
        && (ps != [] && single ==> r == registry.values[registry.names[ps[0]]])
    {
      FindOrder(registry, matches);
      FindIn(registry, matches, single)
    }

    /** The load callback's loop: register each module and collect it. */
    method LoadAll(fs: Node, root: seq<string>, name: string) returns (r: Result<Value, JsError>)
      requires Valid()
      modifies this
      ensures Valid()
      ensures (r, registry) == LoadInto(old(registry), fs, root, name)
    {
      var loaded := LoadFromPath(fs, root, "");
      if loaded.Failure? {
        return Failure(loaded.error);
      }
      var deps := RegisterModules(loaded.value, name);
      return Success(Shape(deps));
    }

    /** The load callback, once per module: register it under its (renamed) name and collect it. */
    method RegisterModules(mods: seq<(string, Value)>, name: string) returns (deps: seq<Value>)
      requires Valid()
      modifies this
      ensures Valid()
      ensures registry == PutAll(old(registry), LoadWrites(mods, name))
      ensures deps == Values(mods)
    {
      ghost var writes := LoadWrites(mods, name);
      var reg := registry;
      deps := [];
      for i := 0 to |mods|
        invariant registry == old(registry)
        invariant reg == PutAll(registry, writes[..i])
        invariant deps == Values(writes)[..i]
      {
        BatchStep(registry, writes, i, reg, deps);
        reg := Put(reg, Renamed(mods[i].0, name), mods[i].1);
        deps := deps + [mods[i].1];
      }
      assert writes[..|mods|] == writes;
      assert Values(writes)[..|mods|] == Values(writes);
      assert Values(writes) == Values(mods);
      registry := reg;
    }

    /** The fan-out's loop over the own properties of `base`. */
    method FanOut(prefix: string, base: Value) returns (deps: seq<Value>)
      requires Valid() && Truthy(base)
      modifies this
      ensures Valid()
      ensures registry == PutAll(old(registry), FanOutWrites(prefix, base, OwnPropertyNames(base)))
      ensures deps == Values(FanOutWrites(prefix, base, OwnPropertyNames(base)))
    {
      var props := OwnPropertyNames(base);
      ghost var writes := FanOutWrites(prefix, base, props);
      var reg := registry;
      deps := [];
      for i := 0 to |props|
        invariant registry == old(registry)
        invariant reg == PutAll(registry, writes[..i])
        invariant deps == Values(writes)[..i]
      {
        var value := JsValues.Get(base, props[i]).value;
        assert writes[i] == (prefix + "/" + props[i], value);
        BatchStep(registry, writes, i, reg, deps);
        reg := Put(reg, prefix + "/" + props[i], value);
        deps := deps + [value];
      }
      assert writes[..|props|] == writes;
      assert Values(writes)[..|props|] == Values(writes);
      registry := reg;
    }

    /** `get(spec, name)`. */
    method Get(env: Env, spec: Spec, name: string) returns (r: Result<Value, JsError>)
      requires Valid()
      modifies this
      ensures Valid()
      ensures (r, registry) == GetSpec(old(registry), env, spec, name)
      decreases SpecSize(spec)
    {
      match spec
      case OtherSpec(_) =>
        r := Failure(InvalidSpecification);
      case ArraySpec(_) =>
        r := Success(Undefined);
      case FnSpec =>
        r := Success(Undefined);
      case StrSpec(s) =>
        if Contains(s) {
          return Success(registry.values[s]);
        }
        match Classify(s, env.version)
        case PackageName =>
          if s !in env.packages {
            return Failure(ModuleNotFound(s));
          }
          var key := if name != "" then name else s;
          registry := Put(registry, key, env.packages[s]);
          r := Success(registry.values[key]);
        case FilePath =>
          r := LoadAll(env.fs, Resolve(env.cwd, s), name);
        case PackagePath(pkg, rel) =>
          if pkg !in env.packageDirs {
            return Failure(ModuleNotFound(pkg));
          }
          r := LoadAll(env.fs, Resolve(env.packageDirs[pkg], rel), name);
        case PackageProperty(pkg, path) =>
          PackageShorter(s, env.version);
          var thePackage := Get(env, StrSpec(pkg), "");
          if thePackage.Failure? {
            return thePackage;
          }
          if !Truthy(thePackage.value) {
            return Success(Undefined);
          }
          var prefix := if name != "" then name else pkg;
          var base := GetNestedProperty(thePackage.value, StripFanOut(path));
          if base.Failure? {
            return Failure(base.error);
          }
          if !Truthy(base.value) {
            return Success(Undefined);
          }
          if IsFanOut(path) {
            var deps := FanOut(FanOutPrefix(prefix, path, env.version), base.value);
            r := Success(Shape(deps));
          } else {
            registry := Put(registry, PropertyKey(prefix, path), base.value);
            r := Success(base.value);
          }
        case Unrecognised =>
          r := Success(Undefined);
    }
  }
}
