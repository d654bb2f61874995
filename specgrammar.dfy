/**
 * The shapes of string dependency specifications `Injector.prototype.get`
 * recognises, with the regular expressions it tests them against written
 * out as scanners:
 *
 *   `^\w+$`                                 a bare package name
 *   `(^\/)|(^\.\/)|(^\.\.\/)`               a file path
 *   `^::([~\w.\-_]+)\/((\.|\.\.|\w).*)`     `::package/relative/path`
 *   `^::([~\w.\-_]+)::(\w+(\.\w+|\*)*)`     `::package::property.path`
 *
 * The property path grammar as written can never contain `.*`, which the
 * fan-out branch of `get` tests for (`PropertyPathNeverFansOut`). The
 * `Corrected` reading of the grammar also accepts one trailing `.*` (see
 * `PropEnd` and `PropEndWithFanOut`).
 */
module SpecGrammar {
  import opened Wrappers
  import opened Text

  /** The class `[~\w.\-_]` of package-name characters. */
  predicate IsPackageChar(c: char) {
    IsWordChar(c) || c == '~' || c == '.' || c == '-'
  }

  /** The characters JavaScript's `.` does not match. */
  predicate IsLineTerminator(c: char) {
    c == '\n' || c == '\r' || c == '\U{2028}' || c == '\U{2029}'
  }

  /** The end of the longest run of `inClass` characters starting at `i`. */
  function RunEnd(s: string, i: nat, inClass: char -> bool): (j: nat)
    requires i <= |s|
    ensures i <= j <= |s|
    ensures forall k :: i <= k < j ==> inClass(s[k])
    ensures j == |s| || !inClass(s[j])
    decreases |s| - i
  {
    if i < |s| && inClass(s[i]) then RunEnd(s, i + 1, inClass) else i
  }

  /** `^\w+$`. */
  predicate IsPackageName(s: string) {
    |s| >= 1 && AllWord(s)
  }

  /** `(^\/)|(^\.\/)|(^\.\.\/)`. */
  predicate IsFilePath(s: string) {
    StartsWith(s, "/") || StartsWith(s, "./") || StartsWith(s, "../")
  }

  /** The end of the package name in `::name...`: a non-empty run of package characters. */
  function PackageEnd(s: string): (e: nat)
    requires StartsWith(s, "::")
    ensures 2 <= e <= |s|
  {
    RunEnd(s, 2, IsPackageChar)
  }

  // ---------------------------------------------------------------- property paths

  /** The rest of `(\.\w+|\*)*` from `j`, taken greedily. */
  function PropTail(s: string, j: nat): (e: nat)
    requires j <= |s|
    ensures j <= e <= |s|
    decreases |s| - j
  {
    if j + 1 < |s| && s[j] == '.' && IsWordChar(s[j + 1]) then PropTail(s, RunEnd(s, j + 1, IsWordChar))
    else if j < |s| && s[j] == '*' then PropTail(s, j + 1)
    else j
  }

  /** As written: the end of the match of `\w+(\.\w+|\*)*` starting at `i`. */
  function PropEnd(s: string, i: nat): (e: nat)
    requires i < |s| && IsWordChar(s[i])
    ensures i < e <= |s|
  {
    PropTail(s, RunEnd(s, i, IsWordChar))
  }

  /** Corrected: the same, followed by an optional `.*`, the fan-out marker the code tests for. */
  function PropEndWithFanOut(s: string, i: nat): (e: nat)
    requires i < |s| && IsWordChar(s[i])
    ensures PropEnd(s, i) <= e <= |s|
    ensures e == PropEnd(s, i) + 2 <==> StartsWith(s[PropEnd(s, i)..], ".*")
  {
    var j := PropEnd(s, i);
    if StartsWith(s[j..], ".*") then j + 2 else j
  }

  /** In what `PropTail` matches, every `.` is followed by a word character. */
  lemma {:induction false} PropTailDots(s: string, j: nat)
    requires j <= |s|
    ensures forall k :: j <= k < PropTail(s, j) && s[k] == '.' ==> k + 1 < PropTail(s, j) && IsWordChar(s[k + 1])
    decreases |s| - j
  {
    if j + 1 < |s| && s[j] == '.' && IsWordChar(s[j + 1]) {
      var r := RunEnd(s, j + 1, IsWordChar);
      PropTailDots(s, r);
      forall k | j <= k < r ensures s[k] == '.' ==> k == j {
        if k > j { assert IsWordChar(s[k]); }
      }
    } else if j < |s| && s[j] == '*' {
      PropTailDots(s, j + 1);
    }
  }

  /** As written, a property path never contains `.*`, so the fan-out test of `get` never succeeds. */
  lemma PropertyPathNeverFansOut(s: string, i: nat)
    requires i < |s| && IsWordChar(s[i])
    ensures !Contains(s[i..PropEnd(s, i)], ".*")
  {
    var j := RunEnd(s, i, IsWordChar);
    var e := PropEnd(s, i);
    PropTailDots(s, j);
    var p := s[i..e];
    forall k | 0 <= k < |p| ensures p[k] == '.' ==> k + 1 < |p| && IsWordChar(p[k + 1]) {
      if i + k < j {
        assert IsWordChar(s[i + k]);
      }
    }
    forall k: nat | k + 2 <= |p| ensures !OccursAt(p, ".*", k) {
      assert p[k..k + 2] == [p[k], p[k + 1]];
    }
  }

  // ---------------------------------------------------------------- classification

  /** What a string spec asks for, in the order `get` tries the forms. */
  datatype Form =
    | PackageName
    | FilePath
    | PackagePath(pkg: string, rel: string)
    | PackageProperty(pkg: string, path: string)
    | Unrecognised

  /** `^::([~\w.\-_]+)\/((\.|\.\.|\w).*)`: the package and the relative path, up to a line end. */
  function MatchPackagePath(s: string): (r: Option<(string, string)>)
    ensures r.Some? ==> r.value.0 != [] && (forall k :: 0 <= k < |r.value.0| ==> IsPackageChar(r.value.0[k]))
    ensures r.Some? ==> StartsWith(s, "::" + r.value.0 + "/") && r.value.1 != [] && StartsWith(s[|r.value.0| + 3..], r.value.1)
  {
    if !StartsWith(s, "::") then None
    else
      var e := PackageEnd(s);
      if e > 2 && e + 1 < |s| && s[e] == '/' && (s[e + 1] == '.' || IsWordChar(s[e + 1])) then
        var t := RunEnd(s, e + 1, c => !IsLineTerminator(c));
        assert s[..e + 1] == "::" + s[2..e] + "/";
        assert s[e + 1..][..t - (e + 1)] == s[e + 1..t];
        Some((s[2..e], s[e + 1..t]))
      else None
  }

  /** The end of the property path starting at `i`: as written, or with the optional trailing `.*`. */
  function PropertyEnd(s: string, i: nat, version: Version): (e: nat)
    requires i < |s| && IsWordChar(s[i])
    ensures i < e <= |s|
  {
    if version == AsWritten then PropEnd(s, i) else PropEndWithFanOut(s, i)
  }

  /** `^::([~\w.\-_]+)::(\w+(\.\w+|\*)*)`; `Corrected`, the property path may end in `.*`. */
  function MatchPackageProperty(s: string, version: Version): (r: Option<(string, string)>)
    ensures r.Some? ==> r.value.0 != [] && (forall k :: 0 <= k < |r.value.0| ==> IsPackageChar(r.value.0[k]))
    ensures r.Some? ==> StartsWith(s, "::" + r.value.0 + "::") && r.value.1 != [] && StartsWith(s[|r.value.0| + 4..], r.value.1)
  {
    if !StartsWith(s, "::") then None
    else
      var e := PackageEnd(s);
      if e > 2 && e + 2 < |s| && s[e] == ':' && s[e + 1] == ':' && IsWordChar(s[e + 2]) then
        var t := PropertyEnd(s, e + 2, version);
        assert s[..e + 2] == "::" + s[2..e] + "::";
        assert s[e + 2..][..t - (e + 2)] == s[e + 2..t];
        Some((s[2..e], s[e + 2..t]))
      else None
  }

  /** The form of a string spec, trying the patterns in the order `get` does. */
  function Classify(s: string, version: Version): (f: Form)
    ensures f == PackageName <==> IsPackageName(s)
    ensures f == FilePath <==> !IsPackageName(s) && IsFilePath(s)
    ensures f.PackagePath? ==> StartsWith(s, "::") && f.pkg != [] && f.rel != []
    ensures f.PackageProperty? ==> StartsWith(s, "::") && f.pkg != [] && f.path != []
    ensures f == Unrecognised ==> !IsPackageName(s) && !IsFilePath(s)
  {
    if IsPackageName(s) then PackageName
    else if IsFilePath(s) then FilePath
    else match MatchPackagePath(s)
      case Some((pkg, rel)) => PackagePath(pkg, rel)
      case None =>
        match MatchPackageProperty(s, version)
        case Some((pkg, path)) => PackageProperty(pkg, path)
        case None => Unrecognised
  }

  /** The package part of a `::package` spec is strictly shorter than the spec. */
  lemma PackageShorter(s: string, version: Version)
    requires Classify(s, version).PackageProperty?
    ensures |Classify(s, version).pkg| + 4 < |s|
  {
    assert !IsPackageName(s) && !IsFilePath(s);
    var m := MatchPackageProperty(s, version);
    assert m.Some?;
  }

  /** `/\.\*\/.test(path)`. */
  predicate IsFanOut(path: string) {
    Contains(path, ".*")
  }

  /** `path.replace(/\.\*$/, '')`. */
  function StripFanOut(path: string): (r: string)
    ensures EndsWith(path, ".*") ==> path == r + ".*"
    ensures !EndsWith(path, ".*") ==> r == path
  {
    if EndsWith(path, ".*") then path[..|path| - 2] else path
  }

  /** A run that stops at `j` ends at `j`. */
  lemma {:induction false} RunEndAt(s: string, i: nat, j: nat, inClass: char -> bool)
    requires i <= j <= |s|
    requires forall k :: i <= k < j ==> inClass(s[k])
    requires j == |s| || !inClass(s[j])
    ensures RunEnd(s, i, inClass) == j
    decreases j - i
  {
    if i < j {
      RunEndAt(s, i + 1, j, inClass);
    }
  }

  /** The package name of `::pkg::...` is `pkg`. */
  lemma PackageEndOf(pkg: string, rest: string)
    requires pkg != [] && AllWord(pkg)
    ensures StartsWith("::" + pkg + "::" + rest, "::")
    ensures PackageEnd("::" + pkg + "::" + rest) == |pkg| + 2
    ensures var s := "::" + pkg + "::" + rest;
      s[2..|pkg| + 2] == pkg && s[|pkg| + 2] == ':' && s[|pkg| + 3] == ':' && s[|pkg| + 4..] == rest
  {
    var s := "::" + pkg + "::" + rest;
    var e := |pkg| + 2;
    assert s[..2] == "::";
    assert s[2..e] == pkg;
    assert s[e + 2..] == rest;
    forall k | 2 <= k < e ensures IsPackageChar(s[k]) {
      assert s[k] == pkg[k - 2];
    }
    assert s[e] == ':';
    RunEndAt(s, 2, e, IsPackageChar);
  }

  /** The as-written property path of `name.*` stops before the `.*`. */
  lemma PropEndBeforeFanOut(s: string, i: nat, name: string)
    requires name != [] && AllWord(name)
    requires i + |name| + 2 <= |s| && s[i..i + |name| + 2] == name + ".*"
    ensures PropEnd(s, i) == i + |name|
    ensures PropEndWithFanOut(s, i) == i + |name| + 2
    ensures PropertyEnd(s, i, AsWritten) == i + |name| && PropertyEnd(s, i, Corrected) == i + |name| + 2
  {
    var j := i + |name|;
    forall k | i <= k < j ensures IsWordChar(s[k]) {
      assert s[k] == s[i..i + |name| + 2][k - i];
    }
    assert s[j] == s[i..i + |name| + 2][|name|];
    assert s[j + 1] == s[i..i + |name| + 2][|name| + 1];
    RunEndAt(s, i, j, IsWordChar);
    assert s[j..][..2] == s[j..j + 2];
  }

  /** A `::pkg::...` spec is not a package path. */
  lemma PackagePathNeedsSlash(s: string, pkg: string, rest: string)
    requires pkg != [] && AllWord(pkg)
    requires s == "::" + pkg + "::" + rest
    ensures MatchPackagePath(s).None?
  {
    PackageEndOf(pkg, rest);
    assert s[|pkg| + 2] == ':';
  }

  /** What the package-property grammar returns once the package name ends at `e` and the property path at `t`. */
  lemma MatchPackagePropertyAt(s: string, e: nat, t: nat, version: Version)
    requires StartsWith(s, "::") && PackageEnd(s) == e && 2 < e && e + 2 < |s|
    requires s[e] == ':' && s[e + 1] == ':' && IsWordChar(s[e + 2]) && PropertyEnd(s, e + 2, version) == t
    ensures MatchPackageProperty(s, version) == Some((s[2..e], s[e + 2..t]))
  {
  }

  /** The positions of a `::pkg::name.*` spec that the package-property grammar looks at. */
  lemma FanOutSpecShape(s: string, pkg: string, name: string)
    requires pkg != [] && AllWord(pkg)
    requires name != [] && AllWord(name)
    requires s == "::" + pkg + "::" + name + ".*"
    ensures |s| == |pkg| + |name| + 6 && StartsWith(s, "::") && PackageEnd(s) == |pkg| + 2
    ensures s[2..|pkg| + 2] == pkg && s[|pkg| + 2] == ':' && s[|pkg| + 3] == ':' && s[|pkg| + 4..] == name + ".*"
    ensures IsWordChar(s[|pkg| + 4])
  {
    assert s == "::" + pkg + "::" + (name + ".*");
    PackageEndOf(pkg, name + ".*");
    assert s[|pkg| + 4] == name[0];
  }

  /** The grammar's reading of a spec with the shape `FanOutSpecShape` establishes. */
  lemma MatchShapedFanOut(s: string, pkg: string, name: string)
    requires name != [] && AllWord(name)
    requires |s| == |pkg| + |name| + 6 && StartsWith(s, "::") && PackageEnd(s) == |pkg| + 2 && pkg != []
    requires s[2..|pkg| + 2] == pkg && s[|pkg| + 2] == ':' && s[|pkg| + 3] == ':' && s[|pkg| + 4..] == name + ".*"
    requires IsWordChar(s[|pkg| + 4])
    ensures MatchPackageProperty(s, AsWritten) == Some((pkg, name))
    ensures MatchPackageProperty(s, Corrected) == Some((pkg, name + ".*"))
  {
    var e := |pkg| + 2;
    assert s[e + 2..e + 2 + |name| + 2] == name + ".*";
    PropEndBeforeFanOut(s, e + 2, name);
    assert MatchPackageProperty(s, AsWritten) == Some((pkg, name)) by {
      MatchPackagePropertyAt(s, e, e + 2 + |name|, AsWritten);
      assert s[e + 2..e + 2 + |name|] == name;
    }
    assert MatchPackageProperty(s, Corrected) == Some((pkg, name + ".*")) by {
      MatchPackagePropertyAt(s, e, |s|, Corrected);
      assert s[e + 2..|s|] == s[e + 2..];
    }
  }

  /** A word contains no `.`, so no `.*` either. */
  lemma WordHasNoDot(name: string)
    requires AllWord(name)
    ensures !Contains(name, ".") && !Contains(name, ".*")
  {
    forall k: nat | k + 1 <= |name| ensures !OccursAt(name, ".", k) {
      assert name[k..k + 1] == [name[k]];
    }
    forall k: nat | k + 2 <= |name| ensures !OccursAt(name, ".*", k) {
      assert name[k..k + 2][0] == name[k];
    }
  }

  /** `::pkg::name.*`: as written the property path stops before the `.*`, so
      the spec names `name` and is no fan-out; the corrected grammar keeps the
      `.*`, and the spec is a fan-out over `name`. */
  lemma FanOutSpecClassifies(pkg: string, name: string)
    requires pkg != [] && AllWord(pkg)
    requires name != [] && AllWord(name)
    ensures var s := "::" + pkg + "::" + name + ".*";
      && Classify(s, AsWritten) == PackageProperty(pkg, name) && !IsFanOut(name)
      && Classify(s, Corrected) == PackageProperty(pkg, name + ".*")
      && IsFanOut(name + ".*") && StripFanOut(name + ".*") == name
  {
    var s := "::" + pkg + "::" + name + ".*";
    ClassifyFanOutSpec(s, pkg, name);
    assert !IsFanOut(name) by {
      WordHasNoDot(name);
    }
    assert IsFanOut(name + ".*") by {
      assert OccursAt(name + ".*", ".*", |name|);
    }
  }

  /** How each grammar reads `::pkg::name.*`. */
  lemma ClassifyFanOutSpec(s: string, pkg: string, name: string)
    requires pkg != [] && AllWord(pkg)
    requires name != [] && AllWord(name)
    requires s == "::" + pkg + "::" + name + ".*"
    ensures Classify(s, AsWritten) == PackageProperty(pkg, name)
    ensures Classify(s, Corrected) == PackageProperty(pkg, name + ".*")
  {
    assert !IsPackageName(s) && !IsFilePath(s) by {
      assert s[0] == ':';
    }
    assert MatchPackagePath(s).None? by {
      assert s == "::" + pkg + "::" + (name + ".*");
      PackagePathNeedsSlash(s, pkg, name + ".*");
    }
    assert MatchPackageProperty(s, AsWritten) == Some((pkg, name))
        && MatchPackageProperty(s, Corrected) == Some((pkg, name + ".*")) by {
      FanOutSpecShape(s, pkg, name);
      MatchShapedFanOut(s, pkg, name);
    }
  }
}
