/**
 * The dependency graph of a compilation: a tree of import units rooted at
 * the file being compiled, where a unit's dependencies are the units of the
 * files it imports, in import order.
 */
module DependencyGraph {
  import opened Wrappers
  import SymbolTable

  // ---- POSIX path helpers (Node's `path.posix`) ----

  /** The greatest index in [lo, n) of a character that is (isSlash) or is not (!isSlash) '/'. */
  function LastIndex(p: string, lo: nat, n: nat, isSlash: bool): (r: Option<nat>)
    requires n <= |p|
    ensures r.Some? ==> lo <= r.value < n && (p[r.value] == '/' <==> isSlash)
    ensures r.Some? ==> forall j | r.value < j < n :: (p[j] == '/' <==> !isSlash)
    ensures r.None? ==> forall j | lo <= j < n :: (p[j] == '/' <==> !isSlash)
    decreases n
  {
    if n <= lo then None
    else if (p[n - 1] == '/') == isSlash then Some(n - 1)
    else LastIndex(p, lo, n - 1, isSlash)
  }

  /**
   * `path.basename`: trailing slashes are ignored and the text after the last
   * remaining '/' is returned; a path made only of slashes gives "".
   */
  function Basename(p: string): string
  {
    match LastIndex(p, 0, |p|, false)
    case None => ""
    case Some(last) =>
      var start := match LastIndex(p, 0, last, true) case None => 0 case Some(s) => s + 1;
      p[start..last + 1]
  }

  /**
   * `path.dirname`: the text before the last '/' that precedes the final
   * segment, "/" (or "//") for a root and "." when there is no directory part.
   */
  function Dirname(p: string): string
  {
    if |p| == 0 then "."
    else
      var end := match LastIndex(p, 1, |p|, false)
                 case None => None
                 case Some(last) => LastIndex(p, 1, last, true);
      match end
      case None => if p[0] == '/' then "/" else "."
      case Some(e) => if p[0] == '/' && e == 1 then "//" else p[..e]
  }

  /** `s.split(".")[0]`: the text before the first '.', or all of it. */
  function BeforeFirstDot(s: string): (r: string)
    ensures '.' !in r
    ensures r == s || (|r| < |s| && s[..|r| + 1] == r + ".")
  {
    if |s| == 0 then ""
    else if s[0] == '.' then ""
    else
      var rest := BeforeFirstDot(s[1..]);
      assert s[1..][..|rest|] == s[1..|rest| + 1];
      [s[0]] + rest
  }

  /** `path.resolve`, which the model takes as the identity on resolved paths. */
  function Resolve(p: string): string
  {
    p
  }

  /** A path segment: non-empty and without '/'. */
  predicate Segment(f: string)
  {
    |f| > 0 && '/' !in f
  }

  /** On a path `d/f` whose directory part ends in no slash, basename is `f`. */
  lemma BasenameOfPath(d: string, f: string)
    requires Segment(f)
    ensures Basename(d + "/" + f) == f
    ensures Basename(f) == f
  {
    var p := d + "/" + f;
    assert p[|d|] == '/';
    assert p[|d| + 1..] == f;
    assert forall j | |d| < j < |p| :: p[j] == f[j - |d| - 1];
    var last := LastIndex(p, 0, |p|, false);
    assert p[|p| - 1] != '/';
    assert last == Some(|p| - 1);
    var start := LastIndex(p, 0, |p| - 1, true);
    assert start == Some(|d|);
    assert f[|f| - 1] != '/';
    assert LastIndex(f, 0, |f|, false) == Some(|f| - 1);
    assert LastIndex(f, 0, |f| - 1, true).None?;
    assert f[0..|f|] == f;
  }

  /** On a path `d/f` whose directory part is empty or ends in no slash, dirname is that directory, or "/". */
  lemma DirnameOfPath(d: string, f: string)
    requires Segment(f)
    requires d == "" || d[|d| - 1] != '/'
    ensures Dirname(d + "/" + f) == if d == "" then "/" else d
  {
    var p := d + "/" + f;
    assert p[|d|] == '/';
    assert forall j | |d| < j < |p| :: p[j] == f[j - |d| - 1];
    assert p[|p| - 1] != '/';
    assert LastIndex(p, 1, |p|, false) == Some(|p| - 1);
    if d == "" {
      assert LastIndex(p, 1, |p| - 1, true).None?;
    } else {
      assert LastIndex(p, 1, |p| - 1, true) == Some(|d|);
      assert p[..|d|] == d;
    }
  }

  // ---- Import units ----

  datatype UnitName = UnitName(fullName: string, baseDir: string, moduleName: string, shortName: string)

  /** A unit: its names, its dependencies in import order and its own (new, empty) symbol table. */
  datatype ImportUnit = ImportUnit(name: UnitName, dependencies: seq<ImportUnit>,
                                   symbols: seq<SymbolTable.Scope>)

  /** `createImportUnit`: the short name comes from the path as given, the directory from the resolved one. */
  function CreateImportUnit(fileName: string): (u: ImportUnit)
    ensures u.dependencies == [] && u.symbols == []
    ensures u.name.fullName == Resolve(fileName)
    ensures u.name.shortName == Basename(fileName)
    ensures u.name.baseDir == Dirname(Resolve(fileName))
    ensures u.name.moduleName == BeforeFirstDot(u.name.shortName)
  {
    var fullName := Resolve(fileName);
    var shortName := Basename(fileName);
    ImportUnit(UnitName(fullName, Dirname(fullName), BeforeFirstDot(shortName), shortName), [], [])
  }

  /** The module name of `m.e` is `m` when `m` has no dot. */
  lemma {:induction false} ModuleNameOf(m: string, e: string)
    requires '.' !in m
    ensures BeforeFirstDot(m + "." + e) == m
  {
    var s := m + "." + e;
    if m != "" {
      assert s[0] == m[0] && s[1..] == m[1..] + "." + e;
      ModuleNameOf(m[1..], e);
    }
  }

  /** The unit of a file `d/m.e` has full name that path, directory `d` (or "/"), module `m` and short name `m.e`. */
  lemma CreateOfPath(d: string, m: string, e: string)
    requires Segment(m + "." + e) && '.' !in m
    requires d == "" || d[|d| - 1] != '/'
    ensures var p := d + "/" + (m + "." + e);
            CreateImportUnit(p).name == UnitName(p, if d == "" then "/" else d, m, m + "." + e)
  {
    BasenameOfPath(d, m + "." + e);
    DirnameOfPath(d, m + "." + e);
    ModuleNameOf(m, e);
  }

  // ---- Paths into the tree ----

  /** The unit reached by following dependency indices from `u`. */
  function At(u: ImportUnit, path: seq<nat>): Option<ImportUnit>
    decreases |path|
  {
    if path == [] then Some(u)
    else if path[0] < |u.dependencies| then At(u.dependencies[path[0]], path[1..])
    else None
  }

  /** The path of the first unit, depth-first in list order, whose full name is `full`. */
  function Locate(u: ImportUnit, full: string): Option<seq<nat>>
    decreases u, 1
  {
    if u.name.fullName == full then Some([]) else LocateFrom(u, 0, full)
  }

  function LocateFrom(u: ImportUnit, i: nat, full: string): Option<seq<nat>>
    decreases u, 0, |u.dependencies| - i
  {
    if i >= |u.dependencies| then None
    else match Locate(u.dependencies[i], full)
      case Some(p) => Some([i] + p)
      case None => LocateFrom(u, i + 1, full)
  }

  /** Whether some unit of the tree has full name `full`. */
  predicate Contains(u: ImportUnit, full: string)
    decreases u
  {
    u.name.fullName == full ||
    exists i | 0 <= i < |u.dependencies| :: Contains(u.dependencies[i], full)
  }

  /** The search finds a path exactly when the tree contains the name, and the path leads to a unit of that name. */
  lemma {:induction false} LocateSound(u: ImportUnit, full: string)
    ensures Locate(u, full).Some? <==> Contains(u, full)
    ensures Locate(u, full).Some? ==>
              At(u, Locate(u, full).value).Some? && At(u, Locate(u, full).value).value.name.fullName == full
    decreases u, 1
  {
    if u.name.fullName != full {
      LocateFromSound(u, 0, full);
    }
  }

  lemma {:induction false} LocateFromSound(u: ImportUnit, i: nat, full: string)
    requires u.name.fullName != full
    ensures LocateFrom(u, i, full).Some? <==>
              exists j | i <= j < |u.dependencies| :: Contains(u.dependencies[j], full)
    ensures LocateFrom(u, i, full).Some? ==>
              At(u, LocateFrom(u, i, full).value).Some? &&
              At(u, LocateFrom(u, i, full).value).value.name.fullName == full
    decreases u, 0, |u.dependencies| - i
  {
    if i < |u.dependencies| {
      var d := u.dependencies[i];
      LocateSound(d, full);
      LocateFromSound(u, i + 1, full);
      match Locate(d, full)
      case Some(p) =>
        assert ([i] + p)[1..] == p;
      case None =>
    }
  }

  /** `find` as the search was meant to work: the matching unit itself. */
  function Find(u: ImportUnit, full: string): (r: Option<ImportUnit>)
    ensures r.Some? <==> Contains(u, full)
    ensures r.Some? ==> r.value.name.fullName == full
  {
    LocateSound(u, full);
    match Locate(u, full)
    case None => None
    case Some(p) => At(u, p)
  }

  /** A unit that matches is found at once, before its dependencies are searched. */
  lemma FindSelf(u: ImportUnit)
    ensures Find(u, u.name.fullName) == Some(u)
  {
  }

  // ---- The search as written ----

  /**
   * The search as the source writes it: `dependencies.find(searchImportUnit)`
   * yields the first dependency whose subtree contains a match, not the
   * match itself.
   */
  function FindAsWritten(u: ImportUnit, full: string): Option<ImportUnit>
    decreases u, 1
  {
    if u.name.fullName != full then FirstMatchingChild(u, 0, full) else Some(u)
  }

  /** `Array.prototype.find` with `searchImportUnit` as callback, from index `i` on. */
  function FirstMatchingChild(u: ImportUnit, i: nat, full: string): Option<ImportUnit>
    decreases u, 0, |u.dependencies| - i
  {
    if i >= |u.dependencies| then None
    else if FindAsWritten(u.dependencies[i], full).Some? then Some(u.dependencies[i])
    else FirstMatchingChild(u, i + 1, full)
  }

  /** The search as written returns the top-level unit on the path to the match. */
  lemma {:induction false} FindAsWrittenIsAncestor(u: ImportUnit, full: string)
    ensures FindAsWritten(u, full).Some? <==> Locate(u, full).Some?
    ensures Locate(u, full).Some? ==>
              var p := Locate(u, full).value;
              FindAsWritten(u, full) == At(u, p[..if |p| == 0 then 0 else 1])
    decreases u, 1
  {
    if u.name.fullName != full {
      FirstMatchingChildIsAncestor(u, 0, full);
    }
  }

  lemma {:induction false} FirstMatchingChildIsAncestor(u: ImportUnit, i: nat, full: string)
    ensures FirstMatchingChild(u, i, full).Some? <==> LocateFrom(u, i, full).Some?
    ensures LocateFrom(u, i, full).Some? ==>
              |LocateFrom(u, i, full).value| > 0 &&
              FirstMatchingChild(u, i, full) == At(u, LocateFrom(u, i, full).value[..1])
    decreases u, 0, |u.dependencies| - i
  {
    if i < |u.dependencies| {
      var d := u.dependencies[i];
      FindAsWrittenIsAncestor(d, full);
      FirstMatchingChildIsAncestor(u, i + 1, full);
      match Locate(d, full)
      case Some(p) =>
        assert ([i] + p)[..1] == [i];
        assert At(u, [i]) == At(d, []);
      case None =>
    }
  }

  /** The graph `/r -> /a -> /b`: looking up `/b` as written returns `/a`, the unit on the way to it. */
  lemma FindAsWrittenMissesGrandchild()
    ensures var b := ImportUnit(UnitName("/b", "/", "b", "b"), [], []);
            var a := ImportUnit(UnitName("/a", "/", "a", "a"), [b], []);
            var root := ImportUnit(UnitName("/r", "/", "r", "r"), [a], []);
            FindAsWritten(root, "/b") == Some(a) && Find(root, "/b") == Some(b) && a != b
  {
    var b := ImportUnit(UnitName("/b", "/", "b", "b"), [], []);
    var a := ImportUnit(UnitName("/a", "/", "a", "a"), [b], []);
    var root := ImportUnit(UnitName("/r", "/", "r", "r"), [a], []);
    assert a.name.fullName != "/b" && root.name.fullName != "/b";
    assert FindAsWritten(b, "/b") == Some(b);
    assert FirstMatchingChild(a, 0, "/b") == Some(b);
    assert FirstMatchingChild(root, 0, "/b") == Some(a);
    assert Locate(b, "/b") == Some([]);
    assert [0] + [] == [0] && [0] + [0] == [0, 0];
    assert Locate(a, "/b") == LocateFrom(a, 0, "/b") == Some([0]);
    assert LocateFrom(root, 0, "/b") == Some([0, 0]);
    assert At(root, [0, 0]) == At(a, [0]) == At(b, []);
  }

  // ---- Adding a unit ----

  /** The tree with `child` appended to the dependencies of the unit at `path`. */
  function AppendAt(u: ImportUnit, path: seq<nat>, child: ImportUnit): (r: ImportUnit)
    requires At(u, path).Some?
    ensures r.name == u.name
    decreases |path|
  {
    if path == [] then u.(dependencies := u.dependencies + [child])
    else
      var k := path[0];
      u.(dependencies := u.dependencies[k := AppendAt(u.dependencies[k], path[1..], child)])
  }

  /** The unit at the path gains exactly the child, at the end of its list. */
  lemma {:induction false} AppendAtTarget(u: ImportUnit, path: seq<nat>, child: ImportUnit)
    requires At(u, path).Some?
    ensures At(AppendAt(u, path, child), path) ==
            Some(At(u, path).value.(dependencies := At(u, path).value.dependencies + [child]))
    decreases |path|
  {
    if path != [] {
      AppendAtTarget(u.dependencies[path[0]], path[1..], child);
    }
  }

  /** Every unit reached by a path that does not pass through the target's path is unchanged. */
  lemma {:induction false} AppendAtElsewhere(u: ImportUnit, path: seq<nat>, child: ImportUnit, q: seq<nat>)
    requires At(u, path).Some? && At(u, q).Some?
    requires !(q <= path)
    ensures At(AppendAt(u, path, child), q) == At(u, q)
    decreases |path|
  {
    assert q != [];
    if path != [] && q[0] == path[0] {
      assert !(q[1..] <= path[1..]);
      AppendAtElsewhere(u.dependencies[path[0]], path[1..], child, q[1..]);
    }
  }

  /** The number of units of the tree with full name `full`. */
  function Count(u: ImportUnit, full: string): nat
    decreases u, 1
  {
    (if u.name.fullName == full then 1 else 0) + CountFrom(u, 0, full)
  }

  function CountFrom(u: ImportUnit, i: nat, full: string): nat
    decreases u, 0, |u.dependencies| - i
  {
    if i >= |u.dependencies| then 0 else Count(u.dependencies[i], full) + CountFrom(u, i + 1, full)
  }

  lemma {:induction false} CountFromAppend(u: ImportUnit, child: ImportUnit, i: nat, full: string)
    requires i <= |u.dependencies|
    ensures CountFrom(u.(dependencies := u.dependencies + [child]), i, full) ==
            CountFrom(u, i, full) + Count(child, full)
    decreases |u.dependencies| - i
  {
    var u' := u.(dependencies := u.dependencies + [child]);
    if i < |u.dependencies| {
      CountFromAppend(u, child, i + 1, full);
      assert u'.dependencies[i] == u.dependencies[i];
    } else {
      assert u'.dependencies[i] == child;
    }
  }

  lemma {:induction false} CountFromReplace(u: ImportUnit, k: nat, d: ImportUnit, i: nat, full: string)
    requires k < |u.dependencies| && Count(d, full) >= Count(u.dependencies[k], full)
    ensures CountFrom(u.(dependencies := u.dependencies[k := d]), i, full) ==
            CountFrom(u, i, full) + (if i <= k then Count(d, full) - Count(u.dependencies[k], full) else 0)
    decreases |u.dependencies| - i
  {
    if i < |u.dependencies| {
      CountFromReplace(u, k, d, i + 1, full);
    }
  }

  /** Appending adds the new unit's count: nothing is deduplicated. */
  lemma {:induction false} AppendAtCount(u: ImportUnit, path: seq<nat>, child: ImportUnit, full: string)
    requires At(u, path).Some?
    ensures Count(AppendAt(u, path, child), full) == Count(u, full) + Count(child, full)
    decreases |path|
  {
    if path == [] {
      CountFromAppend(u, child, 0, full);
    } else {
      var k := path[0];
      var d := AppendAt(u.dependencies[k], path[1..], child);
      AppendAtCount(u.dependencies[k], path[1..], child, full);
      CountFromReplace(u, k, d, 0, full);
    }
  }

  lemma CountPositive(u: ImportUnit, full: string)
    requires Count(u, full) > 0
    ensures Contains(u, full)
    decreases u, 1
  {
    if u.name.fullName != full {
      CountFromPositive(u, 0, full);
    }
  }

  lemma CountFromPositive(u: ImportUnit, i: nat, full: string)
    requires CountFrom(u, i, full) > 0
    ensures exists j | i <= j < |u.dependencies| :: Contains(u.dependencies[j], full)
    decreases u, 0, |u.dependencies| - i
  {
    if Count(u.dependencies[i], full) > 0 {
      CountPositive(u.dependencies[i], full);
    } else {
      CountFromPositive(u, i + 1, full);
    }
  }

  /** The message `add` throws when the parent is not in the graph. */
  function ParentNotFound(file: string, parentFile: string): string
  {
    "File " + file + " tried to be loaded from " + parentFile + " but parent file not found in dependency graph"
  }

  /** `add` on the tree: the new unit goes under the unit `Find` returns for the parent. */
  function AddUnit(root: ImportUnit, file: string, parentFile: string): (r: Result<ImportUnit>)
    ensures !Contains(root, Resolve(parentFile)) <==> r == Failure(ParentNotFound(file, parentFile))
    ensures r.Success? <==> Locate(root, Resolve(parentFile)).Some?
    ensures r.Success? ==> At(root, Locate(root, Resolve(parentFile)).value).Some?
    ensures r.Success? ==>
              var p := Locate(root, Resolve(parentFile)).value;
              At(r.value, p) == Some(At(root, p).value.(dependencies :=
                                       At(root, p).value.dependencies + [CreateImportUnit(file)]))
    ensures r.Success? ==>
              forall q | At(root, q).Some? && !(q <= Locate(root, Resolve(parentFile)).value) ::
                At(r.value, q) == At(root, q)
    ensures forall full :: r.Success? ==>
              Count(r.value, full) == Count(root, full) + (if full == Resolve(file) then 1 else 0)
  {
    LocateSound(root, Resolve(parentFile));
    match Locate(root, Resolve(parentFile))
    case None => Failure(ParentNotFound(file, parentFile))
    case Some(p) =>
      var child := CreateImportUnit(file);
      AppendAtTarget(root, p, child);
      forall q | At(root, q).Some? && !(q <= p)
        ensures At(AppendAt(root, p, child), q) == At(root, q)
      {
        AppendAtElsewhere(root, p, child, q);
      }
      forall full
        ensures Count(AppendAt(root, p, child), full) == Count(root, full) + (if full == Resolve(file) then 1 else 0)
      {
        AppendAtCount(root, p, child, full);
      }
      Success(AppendAt(root, p, child))
  }

  /** After a successful add, the added file can be found; a second add of the same file adds a second unit. */
  lemma AddThenFind(root: ImportUnit, file: string, parentFile: string)
    requires AddUnit(root, file, parentFile).Success?
    ensures Find(AddUnit(root, file, parentFile).value, Resolve(file)).Some?
    ensures Count(AddUnit(root, file, parentFile).value, Resolve(file)) == Count(root, Resolve(file)) + 1
  {
    CountPositive(AddUnit(root, file, parentFile).value, Resolve(file));
  }

  // ---- Adding a unit as written ----

  /** The path of the unit the search as written returns: the root, or the root's dependency on the way to the match. */
  function LocateAsWritten(u: ImportUnit, full: string): (r: Option<seq<nat>>)
    ensures r.Some? <==> Contains(u, full)
    ensures r.Some? ==> |r.value| <= 1 && At(u, r.value) == FindAsWritten(u, full)
  {
    FindAsWrittenIsAncestor(u, full);
    LocateSound(u, full);
    match Locate(u, full)
    case None => None
    case Some(p) => Some(p[..if |p| == 0 then 0 else 1])
  }

  /**
   * `add` as the source writes it: the new unit is pushed onto the
   * dependencies of whatever the as-written `find` returns for the parent.
   */
  function AddAsWritten(root: ImportUnit, file: string, parentFile: string): (r: Result<ImportUnit>)
    ensures !Contains(root, Resolve(parentFile)) <==> r == Failure(ParentNotFound(file, parentFile))
    ensures r.Success? ==>
              var q := LocateAsWritten(root, Resolve(parentFile)).value;
              At(root, q).Some? &&
              At(r.value, q) == Some(At(root, q).value.(dependencies :=
                                       At(root, q).value.dependencies + [CreateImportUnit(file)]))
  {
    match LocateAsWritten(root, Resolve(parentFile))
    case None => Failure(ParentNotFound(file, parentFile))
    case Some(q) =>
      FindAsWrittenIsAncestor(root, Resolve(parentFile));
      AppendAtTarget(root, q, CreateImportUnit(file));
      Success(AppendAt(root, q, CreateImportUnit(file)))
  }

  /** The two adds agree, failure included, unless the parent lies below the root's own dependencies. */
  lemma AddAsWrittenAgrees(root: ImportUnit, file: string, parentFile: string)
    requires Locate(root, Resolve(parentFile)).Some? ==> |Locate(root, Resolve(parentFile)).value| <= 1
    ensures AddAsWritten(root, file, parentFile) == AddUnit(root, file, parentFile)
  {
    LocateSound(root, Resolve(parentFile));
    match Locate(root, Resolve(parentFile))
    case None =>
    case Some(p) =>
      assert p[..if |p| == 0 then 0 else 1] == p;
  }

  /**
   * The graph `/r -> /a -> /b`: adding `/c` from `/b` as written puts `/c`
   * beside `/b` under `/a`, where the intended add puts it under `/b`.
   */
  lemma AddAsWrittenMisplaces()
    ensures var b := ImportUnit(UnitName("/b", "/", "b", "b"), [], []);
            var a := ImportUnit(UnitName("/a", "/", "a", "a"), [b], []);
            var root := ImportUnit(UnitName("/r", "/", "r", "r"), [a], []);
            var c := CreateImportUnit("/c");
            AddAsWritten(root, "/c", "/b") == Success(root.(dependencies := [a.(dependencies := [b, c])])) &&
            AddUnit(root, "/c", "/b") == Success(root.(dependencies := [a.(dependencies := [b.(dependencies := [c])])]))
  {
    var b := ImportUnit(UnitName("/b", "/", "b", "b"), [], []);
    var a := ImportUnit(UnitName("/a", "/", "a", "a"), [b], []);
    var root := ImportUnit(UnitName("/r", "/", "r", "r"), [a], []);
    var c := CreateImportUnit("/c");
    assert a.name.fullName != "/b" && root.name.fullName != "/b";
    assert Locate(b, "/b") == Some([]);
    assert [0] + [] == [0] && [0] + [0] == [0, 0];
    assert Locate(a, "/b") == LocateFrom(a, 0, "/b") == Some([0]);
    assert Locate(root, "/b") == LocateFrom(root, 0, "/b") == Some([0, 0]);
    assert [0, 0][..1] == [0];
    assert LocateAsWritten(root, "/b") == Some([0]);
    assert [0][1..] == [] && [0, 0][1..] == [0];
    assert AppendAt(a, [], c) == a.(dependencies := [b, c]);
    assert AppendAt(root, [0], c) == root.(dependencies := [a.(dependencies := [b, c])]);
    assert AppendAt(b, [], c) == b.(dependencies := [c]);
    assert AppendAt(a, [0], c) == a.(dependencies := [b.(dependencies := [c])]);
    assert AppendAt(root, [0, 0], c) == root.(dependencies := [a.(dependencies := [b.(dependencies := [c])])]);
  }

  /** `DependencyGraph`: the root file and the tree of units built from it. */
  class DependencyGraph {
    var rootFile: string
    var rootUnit: ImportUnit

    constructor(rootFile: string)
      ensures this.rootFile == rootFile && rootUnit == CreateImportUnit(rootFile)
    {
      this.rootFile := rootFile;
      rootUnit := CreateImportUnit(rootFile);
    }

    /** `find`, with the search returning the matching unit itself. */
    function FindUnit(fileName: string): (r: Option<ImportUnit>)
      reads this
      ensures r.Some? <==> Contains(rootUnit, Resolve(fileName))
      ensures r.Some? ==> r.value.name.fullName == Resolve(fileName)
    {
      Find(rootUnit, Resolve(fileName))
    }

    /** `add`: throws, changing nothing, when the parent is unknown; otherwise appends the new unit under it. */
    method Add(file: string, parentFile: string) returns (r: Result<()>)
      modifies this
      ensures rootFile == old(rootFile)
      ensures AddUnit(old(rootUnit), file, parentFile).Failure? ==>
                r == Failure(ParentNotFound(file, parentFile)) && rootUnit == old(rootUnit)
      ensures AddUnit(old(rootUnit), file, parentFile).Success? ==>
                r.Success? && rootUnit == AddUnit(old(rootUnit), file, parentFile).value
    {
      var fullParentName := Resolve(parentFile);
      var parent := Locate(rootUnit, fullParentName);
      LocateSound(rootUnit, fullParentName);
      if parent.None? {
        return Failure(ParentNotFound(file, parentFile));
      }
      rootUnit := AppendAt(rootUnit, parent.value, CreateImportUnit(file));
      r := Success(());
    }
  }
}
