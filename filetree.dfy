/**
 * The filesystem as a tree, and the injector's `_walkPath`: a pre-order walk
 * that reports every node (files and directories) to its callback with the
 * node's depth below the walk's root, visiting each directory's entries in
 * sorted name order, optionally within a depth budget.
 *
 * A directory's `entries` are in the order the operating system lists them;
 * the walk sorts them itself. The callback's calls are modelled as the
 * sequence of `Visit`s the walk produces.
 */
module FileTree {
  import opened Wrappers
  import opened Text
  import opened JsValues

  /** A file carries what loading it yields (its module exports). */
  datatype Node = File(exports: Value) | Dir(entries: seq<Entry>)

  datatype Entry = Entry(name: string, node: Node)

  /** One call `callback(filePath, stats, depth)`; the node stands for the stats. */
  datatype Visit = Visit(path: seq<string>, node: Node, depth: nat)

  // ---------------------------------------------------------------- paths

  /** A path segment `path.join` keeps as it is. */
  predicate PlainName(name: string) {
    name != "" && name != "." && name != ".." && '/' !in name
  }

  predicate PlainPath(segments: seq<string>) {
    forall i :: 0 <= i < |segments| ==> PlainName(segments[i])
  }

  /** The absolute path string of a list of segments, with `/` as `path.sep`. */
  function PathString(segments: seq<string>): string {
    if segments == [] then "/" else Join([""] + segments, "/")
  }

  /** `filePath.split('/')` of an absolute path string gives back its segments after a leading `""`. */
  lemma SplitPathString(segments: seq<string>)
    requires segments != [] && PlainPath(segments)
    ensures Split(PathString(segments), '/') == [""] + segments
  {
    var parts := [""] + segments;
    forall i | 0 <= i < |parts| ensures '/' !in parts[i] {
      if i > 0 { assert parts[i] == segments[i - 1]; }
    }
    SplitJoin(parts, '/');
  }

  /** `path.resolve` after `path.normalize`: `.` and empty segments vanish, `..` climbs. */
  function Normalize(acc: seq<string>, parts: seq<string>): (r: seq<string>)
    requires forall i :: 0 <= i < |parts| ==> '/' !in parts[i]
    ensures PlainPath(acc) ==> PlainPath(r)
    decreases |parts|
  {
    if parts == [] then acc
    else if parts[0] == "" || parts[0] == "." then Normalize(acc, parts[1..])
    else if parts[0] == ".." then Normalize(if acc == [] then [] else acc[..|acc| - 1], parts[1..])
    else Normalize(acc + [parts[0]], parts[1..])
  }

  /** `path.resolve(base, rel)`: an absolute `rel` ignores `base`. */
  function Resolve(base: seq<string>, rel: string): (r: seq<string>)
    ensures PlainPath(base) || StartsWith(rel, "/") ==> PlainPath(r)
  {
    Normalize(if StartsWith(rel, "/") then [] else base, Split(rel, '/'))
  }

  /** The entry named `name` in a directory listing. */
  function FindEntry(entries: seq<Entry>, name: string): (r: Option<Entry>)
    ensures r.Some? ==> r.value in entries && r.value.name == name
    ensures r.None? ==> forall e :: e in entries ==> e.name != name
  {
    if entries == [] then None
    else if entries[0].name == name then Some(entries[0])
    else FindEntry(entries[1..], name)
  }

  /** The node at a path below `root`, if the path exists (`fs.existsSync`). */
  function Lookup(root: Node, path: seq<string>): Option<Node>
    decreases |path|
  {
    if path == [] then Some(root)
    else match root
      case File(_) => None
      case Dir(entries) =>
        match FindEntry(entries, path[0])
        case None => None
        case Some(e) => Lookup(e.node, path[1..])
  }

  // ---------------------------------------------------------------- sorting

  /** The default order of `Array.prototype.sort` on strings: lexicographic by character. */
  predicate NameLe(a: string, b: string)
    decreases |a|
  {
    if a == [] then true
    else if b == [] then false
    else if a[0] != b[0] then a[0] < b[0]
    else NameLe(a[1..], b[1..])
  }

  lemma {:induction false} NameLeTotal(a: string, b: string)
    ensures NameLe(a, b) || NameLe(b, a)
    decreases |a|
  {
    if a != [] && b != [] && a[0] == b[0] {
      NameLeTotal(a[1..], b[1..]);
    }
  }

  predicate SortedByName(entries: seq<Entry>) {
    forall i, j :: 0 <= i < j < |entries| ==> NameLe(entries[i].name, entries[j].name)
  }

  function InsertByName(e: Entry, sorted: seq<Entry>): (r: seq<Entry>)
    ensures multiset(r) == multiset(sorted) + multiset{e}
    decreases |sorted|
  {
    if sorted == [] then [e]
    else if NameLe(e.name, sorted[0].name) then [e] + sorted
    else
      assert sorted == [sorted[0]] + sorted[1..];
      [sorted[0]] + InsertByName(e, sorted[1..])
  }

  lemma {:induction false} NameLeTrans(a: string, b: string, c: string)
    requires NameLe(a, b) && NameLe(b, c)
    ensures NameLe(a, c)
    decreases |a|
  {
    if a != [] && b != [] && c != [] && a[0] == b[0] && b[0] == c[0] {
      NameLeTrans(a[1..], b[1..], c[1..]);
    }
  }

  /** An entry no later than every entry of a sorted listing can go in front of it. */
  lemma ConsSorted(x: Entry, rest: seq<Entry>)
    requires SortedByName(rest)
    requires forall j :: 0 <= j < |rest| ==> NameLe(x.name, rest[j].name)
    ensures SortedByName([x] + rest)
  {
    var r := [x] + rest;
    forall i, j | 0 <= i < j < |r| ensures NameLe(r[i].name, r[j].name) {
      if i > 0 {
        assert r[i] == rest[i - 1] && r[j] == rest[j - 1];
      } else {
        assert r[j] == rest[j - 1];
      }
    }
  }

  /** A name no later than `e` and than every entry of `s` is no later than any entry after the insertion. */
  lemma InsertKeepsLowerBound(x: string, e: Entry, s: seq<Entry>)
    requires NameLe(x, e.name) && forall k :: 0 <= k < |s| ==> NameLe(x, s[k].name)
    ensures forall j :: 0 <= j < |InsertByName(e, s)| ==> NameLe(x, InsertByName(e, s)[j].name)
  {
    var r := InsertByName(e, s);
    forall j | 0 <= j < |r| ensures NameLe(x, r[j].name) {
      assert r[j] in multiset(r);
      if r[j] != e {
        assert r[j] in multiset(s);
        assert r[j] in s;
      }
    }
  }

  /** Inserting into a sorted listing keeps it sorted. */
  lemma {:induction false} InsertByNameSorted(e: Entry, sorted: seq<Entry>)
    requires SortedByName(sorted)
    ensures SortedByName(InsertByName(e, sorted))
    decreases |sorted|
  {
    if sorted == [] {
    } else if NameLe(e.name, sorted[0].name) {
      forall j | 0 <= j < |sorted| ensures NameLe(e.name, sorted[j].name) {
        if j > 0 {
          NameLeTrans(e.name, sorted[0].name, sorted[j].name);
        }
      }
      ConsSorted(e, sorted);
    } else {
      var tail := sorted[1..];
      InsertByNameSorted(e, tail);
      NameLeTotal(e.name, sorted[0].name);
      assert forall k :: 0 <= k < |tail| ==> tail[k] == sorted[k + 1];
      InsertKeepsLowerBound(sorted[0].name, e, tail);
      ConsSorted(sorted[0], InsertByName(e, tail));
    }
  }

  /** `fs.readdirSync(dir).sort()`: the listing in sorted name order. */
  function SortByName(entries: seq<Entry>): (r: seq<Entry>)
    ensures multiset(r) == multiset(entries)
    decreases |entries|
  {
    if entries == [] then []
    else
      assert entries == [entries[0]] + entries[1..];
      InsertByName(entries[0], SortByName(entries[1..]))
  }

  /** The walk's listing is sorted, and is a permutation of what the system listed. */
  lemma {:induction false} SortByNameSorted(entries: seq<Entry>)
    ensures SortedByName(SortByName(entries))
    ensures multiset(SortByName(entries)) == multiset(entries)
    decreases |entries|
  {
    if entries != [] {
      SortByNameSorted(entries[1..]);
      InsertByNameSorted(entries[0], SortByName(entries[1..]));
    }
  }

  // ---------------------------------------------------------------- the walk

  /** Whether a directory's entries are walked, and the budget they inherit:
      no budget walks everything, a budget of `k` walks `k` more levels. */
  function ChildBudget(budget: Option<nat>): Option<nat>
    requires budget != Some(0)
  {
    if budget.Some? then Some(budget.value - 1) else None
  }

  /** The visits of a walk from `n`, which sits at `path` and `depth`. */
  function Walk(path: seq<string>, n: Node, depth: nat, budget: Option<nat>): (r: seq<Visit>)
    ensures |r| >= 1 && r[0] == Visit(path, n, depth)
    decreases n
  {
    [Visit(path, n, depth)] +
      match n
      case File(_) => []
      case Dir(entries) =>
        if budget == Some(0) then []
        else
          var sorted := SortByName(entries);
          assert forall e :: e in sorted ==> e in entries by {
            forall e | e in sorted ensures e in entries {
              assert e in multiset(sorted);
            }
          }
          WalkEntries(path, n, sorted, depth + 1, ChildBudget(budget))
  }

  /** The visits of the walks from each entry of `parent`, one after another. */
  function WalkEntries(path: seq<string>, ghost parent: Node, entries: seq<Entry>, depth: nat, budget: Option<nat>)
    : seq<Visit>
    requires parent.Dir? && forall e :: e in entries ==> e in parent.entries
    decreases parent, |entries|
  {
    if entries == [] then []
    else
      assert entries[0] in parent.entries;
      Walk(path + [entries[0].name], entries[0].node, depth, budget)
        + WalkEntries(path, parent, entries[1..], depth, budget)
  }

  /** Every visit is below the walk's root, and its depth counts the segments below it:
      the root is at the starting depth and each level adds one. */
  lemma {:induction false} WalkDepths(path: seq<string>, n: Node, depth: nat, budget: Option<nat>, v: Visit)
    requires v in Walk(path, n, depth, budget)
    ensures |path| <= |v.path| && v.path[..|path|] == path && v.depth == depth + |v.path| - |path|
    decreases n
  {
    if v != Visit(path, n, depth) {
      var sorted := SortByName(n.entries);
      assert forall e :: e in sorted ==> e in n.entries by {
        forall e | e in sorted ensures e in n.entries {
          assert e in multiset(sorted);
        }
      }
      WalkEntriesDepths(path, n, sorted, depth + 1, ChildBudget(budget), v);
    }
  }

  lemma {:induction false} WalkEntriesDepths(path: seq<string>, parent: Node, entries: seq<Entry>, depth: nat,
                                           budget: Option<nat>, v: Visit)
    requires parent.Dir? && forall e :: e in entries ==> e in parent.entries
    requires v in WalkEntries(path, parent, entries, depth, budget)
    ensures |path| < |v.path| && v.path[..|path|] == path && v.depth + 1 == depth + |v.path| - |path|
    decreases parent, |entries|
  {
    assert entries[0] in parent.entries;
    var child := path + [entries[0].name];
    if v in Walk(child, entries[0].node, depth, budget) {
      WalkDepths(child, entries[0].node, depth, budget, v);
      assert v.path[..|path|] == v.path[..|child|][..|path|];
    } else {
      WalkEntriesDepths(path, parent, entries[1..], depth, budget, v);
    }
  }

  /** With a budget of `k` levels, no visit is more than `k` levels below the start. */
  lemma {:induction false} WalkWithinBudget(path: seq<string>, n: Node, depth: nat, k: nat, v: Visit)
    requires v in Walk(path, n, depth, Some(k))
    ensures v.depth <= depth + k
    decreases n
  {
    if v != Visit(path, n, depth) {
      assert n.Dir? && k > 0;
      WalkDir(path, n.entries, depth, Some(k));
      WalkEntriesWithinBudget(path, n, SortByName(n.entries), depth + 1, k - 1, v);
    }
  }

  lemma {:induction false} WalkEntriesWithinBudget(path: seq<string>, parent: Node, entries: seq<Entry>, depth: nat,
                                                 k: nat, v: Visit)
    requires parent.Dir? && forall e :: e in entries ==> e in parent.entries
    requires v in WalkEntries(path, parent, entries, depth, Some(k))
    ensures v.depth <= depth + k
    decreases parent, |entries|
  {
    assert entries[0] in parent.entries;
    if v in Walk(path + [entries[0].name], entries[0].node, depth, Some(k)) {
      WalkWithinBudget(path + [entries[0].name], entries[0].node, depth, k, v);
    } else {
      WalkEntriesWithinBudget(path, parent, entries[1..], depth, k, v);
    }
  }

  /** `_walkPath(root, callback, undefined, budget)`: throws when the root does not exist. */
  function WalkPath(fs: Node, root: seq<string>, budget: Option<nat>): (r: Result<seq<Visit>, JsError>)
    ensures Lookup(fs, root).None? ==> r == Failure(FileNotFound(PathString(root)))
    ensures Lookup(fs, root).Some? ==> r == Success(Walk(root, Lookup(fs, root).value, 0, budget))
  {
    match Lookup(fs, root)
    case None => Failure(FileNotFound(PathString(root)))
    case Some(n) => Success(Walk(root, n, 0, budget))
  }

  // ---------------------------------------------------------------- the budget as written

  /** The walk exactly as `_walkPath` computes its budget: `maxDepth` is tested for
      truthiness, so a budget that reaches 0 reads as "no budget". */
  function WalkAsWritten(path: seq<string>, n: Node, depth: nat, maxDepth: Option<int>): (r: seq<Visit>)
    ensures |r| >= 1 && r[0] == Visit(path, n, depth)
    decreases n
  {
    var given := maxDepth.Some? && maxDepth.value != 0;
    [Visit(path, n, depth)] +
      match n
      case File(_) => []
      case Dir(entries) =>
        if given && maxDepth.value <= 0 then []
        else
          var sorted := SortByName(entries);
          assert forall e :: e in sorted ==> e in entries by {
            forall e | e in sorted ensures e in entries {
              assert e in multiset(sorted);
            }
          }
          WalkEntriesAsWritten(path, n, sorted, depth + 1, if given then Some(maxDepth.value - 1) else maxDepth)
  }

  function WalkEntriesAsWritten(path: seq<string>, ghost parent: Node, entries: seq<Entry>, depth: nat,
                                maxDepth: Option<int>): seq<Visit>
    requires parent.Dir? && forall e :: e in entries ==> e in parent.entries
    decreases parent, |entries|
  {
    if entries == [] then []
    else
      assert entries[0] in parent.entries;
      WalkAsWritten(path + [entries[0].name], entries[0].node, depth, maxDepth)
        + WalkEntriesAsWritten(path, parent, entries[1..], depth, maxDepth)
  }

  /** Without a budget, as `loadFromPath` calls it, the walk as written is the walk. */
  lemma {:induction false} UnbudgetedWalksAgree(path: seq<string>, n: Node, depth: nat)
    ensures WalkAsWritten(path, n, depth, None) == Walk(path, n, depth, None)
    decreases n, 1
  {
    match n
    case File(_) =>
    case Dir(entries) =>
      var sorted := SortByName(entries);
      assert forall e :: e in sorted ==> e in entries by {
        forall e | e in sorted ensures e in entries {
          assert e in multiset(sorted);
        }
      }
      UnbudgetedEntriesAgree(path, n, sorted, depth + 1);
  }

  lemma {:induction false} UnbudgetedEntriesAgree(path: seq<string>, parent: Node, entries: seq<Entry>, depth: nat)
    requires parent.Dir? && forall e :: e in entries ==> e in parent.entries
    ensures WalkEntriesAsWritten(path, parent, entries, depth, None) == WalkEntries(path, parent, entries, depth, None)
    decreases parent, 0, |entries|
  {
    if entries != [] {
      assert entries[0] in parent.entries;
      UnbudgetedWalksAgree(path + [entries[0].name], entries[0].node, depth);
      UnbudgetedEntriesAgree(path, parent, entries[1..], depth);
    }
  }

  /** The tree `r/a/b.js`, two levels deep. */
  const TwoLevels := Dir([Entry("a", Dir([Entry("b.js", File(Num(1)))]))])

  /** As written, a budget of one level still reaches `b.js` at depth 2: the
      children inherit `maxDepth` 0, which is falsy and so means "unlimited". */
  lemma BudgetOfOneAsWrittenReachesDepthTwo()
    ensures Visit(["r", "a", "b.js"], File(Num(1)), 2) in WalkAsWritten(["r"], TwoLevels, 0, Some(1))
  {
    var b := Entry("b.js", File(Num(1)));
    var a := Entry("a", Dir([b]));
    SortSingle(a);
    SortSingle(b);
    var leaf := WalkAsWritten(["r", "a", "b.js"], b.node, 2, Some(0));
    assert leaf[0] == Visit(["r", "a", "b.js"], File(Num(1)), 2);
    assert ["r", "a"] + [b.name] == ["r", "a", "b.js"];
    assert [b][1..] == [];
    assert WalkEntriesAsWritten(["r", "a"], a.node, [], 2, Some(0)) == [];
    var belowA := WalkEntriesAsWritten(["r", "a"], a.node, [b], 2, Some(0));
    assert belowA == leaf + [];
    var walkA := WalkAsWritten(["r", "a"], a.node, 1, Some(0));
    assert walkA == [Visit(["r", "a"], a.node, 1)] + belowA;
    assert ["r"] + [a.name] == ["r", "a"];
    assert [a][1..] == [];
    assert WalkEntriesAsWritten(["r"], TwoLevels, [], 1, Some(0)) == [];
    var belowR := WalkEntriesAsWritten(["r"], TwoLevels, [a], 1, Some(0));
    assert belowR == walkA + [];
    assert WalkAsWritten(["r"], TwoLevels, 0, Some(1)) == [Visit(["r"], TwoLevels, 0)] + belowR;
    assert leaf[0] in belowR;
  }

  lemma SortSingle(e: Entry)
    ensures SortByName([e]) == [e]
  {
    assert [e][1..] == [];
  }

  /** The corrected walk keeps to the budget: with one level it stops at depth 1. */
  lemma BudgetOfOneStopsAtDepthOne()
    ensures Visit(["r", "a", "b.js"], File(Num(1)), 2) !in Walk(["r"], TwoLevels, 0, Some(1))
  {
    var v := Visit(["r", "a", "b.js"], File(Num(1)), 2);
    if v in Walk(["r"], TwoLevels, 0, Some(1)) {
      WalkWithinBudget(["r"], TwoLevels, 0, 1, v);
    }
  }

  // ---------------------------------------------------------------- example

  /** Sorting a listing inserts its first entry into the sorted rest. */
  lemma SortCons(e: Entry, rest: seq<Entry>)
    ensures SortByName([e] + rest) == InsertByName(e, SortByName(rest))
  {
    assert ([e] + rest)[1..] == rest;
  }

  /** An entry no later than the head goes in front. */
  lemma InsertFront(e: Entry, s: seq<Entry>)
    requires s != [] && NameLe(e.name, s[0].name)
    ensures InsertByName(e, s) == [e] + s
  {
  }

  /** An entry later than the head goes after it. */
  lemma InsertAfter(e: Entry, s: seq<Entry>)
    requires s != [] && !NameLe(e.name, s[0].name)
    ensures InsertByName(e, s) == [s[0]] + InsertByName(e, s[1..])
  {
  }

  /** A listing `b.js`, `a.js`, `c` sorts to `a.js`, `b.js`, `c`. */
  lemma SortExample(a: Entry, b: Entry, c: Entry)
    requires a.name == "a.js" && b.name == "b.js" && c.name == "c"
    ensures SortByName([b, a, c]) == [a, b, c]
  {
    assert NameLe(a.name, c.name) && NameLe(b.name, c.name) && !NameLe(b.name, a.name);
    SortSingle(c);
    assert [a, c] == [a] + [c];
    SortCons(a, [c]);
    InsertFront(a, [c]);
    assert [b, a, c] == [b] + [a, c];
    SortCons(b, [a, c]);
    InsertAfter(b, [a, c]);
    assert [a, c][1..] == [c];
    InsertFront(b, [c]);
    assert [a] + ([b] + [c]) == [a, b, c];
  }

  /** A file, and an empty directory, are visited alone. */
  lemma WalkLeaf(path: seq<string>, n: Node, depth: nat, budget: Option<nat>)
    requires n.File? || n == Dir([])
    ensures Walk(path, n, depth, budget) == [Visit(path, n, depth)]
  {
    if n.Dir? {
      assert SortByName([]) == [];
    }
  }

  /** The walk of three entries is the three walks one after another. */
  lemma WalkThreeEntries(path: seq<string>, parent: Node, a: Entry, b: Entry, c: Entry, depth: nat, budget: Option<nat>)
    requires parent.Dir? && a in parent.entries && b in parent.entries && c in parent.entries
    ensures WalkEntries(path, parent, [a, b, c], depth, budget)
      == Walk(path + [a.name], a.node, depth, budget) + Walk(path + [b.name], b.node, depth, budget)
         + Walk(path + [c.name], c.node, depth, budget)
  {
    assert [a, b, c][1..] == [b, c] && [b, c][1..] == [c] && [c][1..] == [];
    assert WalkEntries(path, parent, [], depth, budget) == [];
    var wc := WalkEntries(path, parent, [c], depth, budget);
    assert wc == Walk(path + [c.name], c.node, depth, budget);
    var wb := WalkEntries(path, parent, [b, c], depth, budget);
    assert wb == Walk(path + [b.name], b.node, depth, budget) + wc;
  }

  /** A directory with budget left is visited, then its sorted entries are walked one level down. */
  lemma WalkDir(path: seq<string>, entries: seq<Entry>, depth: nat, budget: Option<nat>)
    requires budget != Some(0)
    ensures forall e :: e in SortByName(entries) ==> e in entries
    ensures Walk(path, Dir(entries), depth, budget)
      == [Visit(path, Dir(entries), depth)]
         + WalkEntries(path, Dir(entries), SortByName(entries), depth + 1, ChildBudget(budget))
  {
    forall e | e in SortByName(entries) ensures e in entries {
      assert e in multiset(SortByName(entries));
    }
  }

  /** The walks of the three example entries, one level down. */
  lemma WalkExampleEntries(root: seq<string>, a: Entry, b: Entry, c: Entry)
    requires a.name == "a.js" && b.name == "b.js" && c.name == "c"
    requires a.node.File? && b.node.File? && c.node == Dir([])
    ensures WalkEntries(root, Dir([b, a, c]), [a, b, c], 1, None) ==
        [Visit(root + ["a.js"], a.node, 1), Visit(root + ["b.js"], b.node, 1), Visit(root + ["c"], c.node, 1)]
  {
    WalkLeaf(root + [a.name], a.node, 1, None);
    WalkLeaf(root + [b.name], b.node, 1, None);
    WalkLeaf(root + [c.name], c.node, 1, None);
    WalkThreeEntries(root, Dir([b, a, c]), a, b, c, 1, None);
  }

  /** A directory listed as `b.js`, `a.js`, `c/` is walked as `a.js`, `b.js`, `c`. */
  lemma WalkVisitsChildrenSorted(root: seq<string>, a: Entry, b: Entry, c: Entry)
    requires a.name == "a.js" && b.name == "b.js" && c.name == "c"
    requires a.node.File? && b.node.File? && c.node == Dir([])
    ensures Walk(root, Dir([b, a, c]), 0, None) ==
        [Visit(root, Dir([b, a, c]), 0)] +
        [Visit(root + ["a.js"], a.node, 1), Visit(root + ["b.js"], b.node, 1), Visit(root + ["c"], c.node, 1)]
  {
    SortExample(a, b, c);
    WalkDir(root, [b, a, c], 0, None);
    WalkExampleEntries(root, a, b, c);
    assert ChildBudget(None) == None;
  }
}
