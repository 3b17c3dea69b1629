/**
  archguard: the check of a dependency rule on the direct imports of a module, with a table of known debt. An edge is
  displayed as text, and the debt is matched against that text.
 */
module ArchGuard {
  import opened Wrappers
  import opened Text
  import opened Sorting

  // --- rules.go ---

  // A ring as a table declares it; Unknown is any number that names none.
  datatype Ring = Domain | Application | Adapter | Root | Support | Unknown
  {
    predicate Pure() {
      this == Domain || this == Application
    }

    predicate Judged() {
      this != Support
    }

    function Importable(): seq<Ring> {
      match this
      case Domain => [Domain]
      case Application => [Domain, Application]
      case Adapter => [Domain, Application, Adapter]
      case Root => [Domain, Application, Adapter]
      case Support => []
      case Unknown => []
    }

    predicate MayImport(target: Ring) {
      target in Importable()
    }
  }

  const PURE_STD := {
    "bufio", "bytes", "cmp", "container/list", "context",
    "crypto/sha256", "crypto/sha512",
    "encoding/base64", "encoding/binary", "encoding/hex", "encoding/json",
    "errors", "fmt", "hash", "hash/fnv",
    "io", "io/fs", "maps", "math", "math/bits",
    "net/url", "path", "path/filepath", "reflect", "regexp",
    "slices", "sort", "strconv", "strings",
    "sync", "sync/atomic", "time",
    "unicode", "unicode/utf16", "unicode/utf8"
  }

  datatype Ambient = Ambient(pkg: string, names: seq<string>)

  const AMBIENT_MEMBERS := [
    Ambient("time", ["Now", "Since", "Until", "Sleep", "After", "AfterFunc", "Tick", "NewTicker", "NewTimer"]),
    Ambient("path/filepath", ["Abs", "EvalSymlinks", "Glob", "Walk", "WalkDir"]),
    Ambient("io/fs", ["Glob", "ReadDir", "ReadFile", "Stat", "WalkDir"]),
    Ambient("fmt", ["Print", "Printf", "Println", "Scan", "Scanf", "Scanln"])
  ]

  lemma AmbientPackagesArePure()
    ensures forall i :: 0 <= i < |AMBIENT_MEMBERS| ==> AMBIENT_MEMBERS[i].pkg in PURE_STD
  {
    assert AMBIENT_MEMBERS[0].pkg == "time" && AMBIENT_MEMBERS[1].pkg == "path/filepath";
    assert AMBIENT_MEMBERS[2].pkg == "io/fs" && AMBIENT_MEMBERS[3].pkg == "fmt";
  }

  predicate IsAmbient(pkg: string, member: string) {
    exists i :: 0 <= i < |AMBIENT_MEMBERS| && AMBIENT_MEMBERS[i].pkg == pkg && member in AMBIENT_MEMBERS[i].names
  }

  predicate IsStandard(path: string) {
    '.' !in Cut(path, "/").0
  }

  // --- the module and its packages ---

  datatype Reference =
    | Member(pkg: string, name: string, file: string)
    | DotImport(pkg: string, file: string)
    | Import(pkg: string, file: string)

  datatype Package = Package(dir: string, refs: seq<Reference>)

  datatype Module = Module(path: string, rings: map<string, Ring>, packages: seq<Package>, pureModules: seq<string>)
  {
    function Dir(importPath: string): Option<string> {
      if importPath == path then Some(".")
      else if path + "/" <= importPath then Some(importPath[|path| + 1..])
      else None
    }

    function PureModuleOf(importPath: string): Option<string> {
      var first := FirstPure(pureModules, importPath);
      if first == Some("") then None else first
    }
  }

  function FirstPure(modules: seq<string>, importPath: string): Option<string> {
    if modules == [] then None
    else if importPath == modules[0] || modules[0] + "/" <= importPath then Some(modules[0])
    else FirstPure(modules[1..], importPath)
  }

  // --- one reference ---

  // What a reference breaks.
  datatype Rule = UsesAmbient | DotImports | NoRing | OtherRing(got: Ring) | ImpureStd | ThirdParty

  function JudgeInternalImport(m: Module, r: Ring, dir: string): Option<Rule> {
    if dir !in m.rings then Some(NoRing)
    else if !r.MayImport(m.rings[dir]) then Some(OtherRing(m.rings[dir]))
    else None
  }

  // The displayed target of a reference, and the rule it breaks.
  function JudgeReference(m: Module, r: Ring, ref: Reference): (string, Option<Rule>) {
    match ref
    case Member(pkg, name, _) =>
      (pkg + "." + name, if r.Pure() && IsAmbient(pkg, name) then Some(UsesAmbient) else None)
    case DotImport(pkg, _) => (pkg + " (dot import)", if r.Pure() then Some(DotImports) else None)
    case Import(pkg, _) =>
      var dir := m.Dir(pkg);
      if dir.Some? then (dir.value, JudgeInternalImport(m, r, dir.value))
      else if !r.Pure() then (pkg, None)
      else if m.PureModuleOf(pkg).Some? then (pkg, None)
      else if IsStandard(pkg) then (pkg, if pkg in PURE_STD then None else Some(ImpureStd))
      else (pkg, Some(ThirdParty))
  }

  // --- what a reference may be, by the elements of its path ---

  // The elements of the module are the first of the path: the path is the module or in it.
  ghost predicate Within(importPath: string, modulePath: string) {
    Split(modulePath, '/') <= Split(importPath, '/')
  }

  // A path that only starts like a module is not in it.
  lemma WithinIff(importPath: string, modulePath: string)
    ensures Within(importPath, modulePath) <==> importPath == modulePath || modulePath + "/" <= importPath
  {
    var a, b := Split(modulePath, '/'), Split(importPath, '/');
    if modulePath + "/" <= importPath {
      var rest := importPath[|modulePath| + 1..];
      assert importPath == modulePath + "/" + rest;
      SplitPlus(modulePath, rest, '/');
    }
    if a <= b {
      JoinSplit(modulePath, '/');
      JoinSplit(importPath, '/');
      var rest := b[|a|..];
      assert b == a + rest;
      if rest != [] {
        JoinPlus(a, rest, "/");
        assert importPath == modulePath + "/" + Join(rest, "/");
      } else {
        assert a == b;
      }
    }
  }

  ghost predicate IsFirst(modules: seq<string>, importPath: string, i: int) {
    0 <= i < |modules| && Within(importPath, modules[i]) && forall j :: 0 <= j < i ==> !Within(importPath, modules[j])
  }

  lemma {:induction false} FirstPureIsFirst(modules: seq<string>, importPath: string)
    ensures match FirstPure(modules, importPath)
            case Some(s) => exists i :: IsFirst(modules, importPath, i) && modules[i] == s
            case None => forall i :: 0 <= i < |modules| ==> !Within(importPath, modules[i])
  {
    if modules != [] {
      WithinIff(importPath, modules[0]);
      hide Within;
      if Within(importPath, modules[0]) {
        assert IsFirst(modules, importPath, 0);
      } else {
        FirstPureIsFirst(modules[1..], importPath);
        if i :| IsFirst(modules[1..], importPath, i) && modules[1..][i] == FirstPure(modules[1..], importPath).value {
          assert forall j :: 0 < j <= i ==> modules[j] == modules[1..][j - 1];
          assert IsFirst(modules, importPath, i + 1);
        }
        assert forall j :: 0 < j < |modules| ==> modules[j] == modules[1..][j - 1];
      }
    }
  }

  /** The pure module of a path is the first of the list that the path is or is in. */
  lemma PureModuleIsFirst(m: Module, importPath: string, s: string)
    ensures m.PureModuleOf(importPath) == Some(s) <==>
            s != "" && exists i :: IsFirst(m.pureModules, importPath, i) && m.pureModules[i] == s
  {
    FirstPureIsFirst(m.pureModules, importPath);
    hide FirstPure, Within;
    forall i, j | IsFirst(m.pureModules, importPath, i) && IsFirst(m.pureModules, importPath, j)
      ensures i == j
    {
    }
  }

  lemma StandardHasNoDot(importPath: string)
    ensures IsStandard(importPath) <==> '.' !in Split(importPath, '/')[0]
  {
    CutParts(importPath, "/");
    var (first, rest, found) := Cut(importPath, "/");
    hide Cut;
    if found { SplitPart(first, rest, '/'); } else { SplitOne(first, '/'); }
  }

  // Where a path lies in the module: the elements after those of the module.
  lemma DirIsTheRest(m: Module, importPath: string)
    ensures m.Dir(importPath).Some? <==> Within(importPath, m.path)
    ensures importPath == m.path ==> m.Dir(importPath) == Some(".")
    ensures importPath != m.path && Within(importPath, m.path) ==>
              Split(importPath, '/') == Split(m.path, '/') + Split(m.Dir(importPath).value, '/')
  {
    WithinIff(importPath, m.path);
    if importPath != m.path && Within(importPath, m.path) {
      var rest := importPath[|m.path| + 1..];
      assert importPath == m.path + "/" + rest;
      SplitPlus(m.path, rest, '/');
    }
  }

  // How far out a ring is, of those that may be imported, and how far out a ring may import.
  function Depth(r: Ring): nat {
    match r
    case Domain => 1
    case Application => 2
    case Adapter => 3
    case _ => 100
  }

  function Reach(r: Ring): nat {
    if r.Root? then 3 else if Depth(r) <= 3 then Depth(r) else 0
  }

  ghost predicate InPureModule(m: Module, importPath: string) {
    exists i :: IsFirst(m.pureModules, importPath, i) && m.pureModules[i] != ""
  }

  // What a package of a ring may refer to.
  ghost predicate Kept(m: Module, r: Ring, ref: Reference) {
    match ref
    case Member(pkg, name, _) => r.Domain? || r.Application? ==> !IsAmbient(pkg, name)
    case DotImport(_, _) => !r.Domain? && !r.Application?
    case Import(pkg, _) =>
      if Within(pkg, m.path) then
        exists dir :: m.Dir(pkg) == Some(dir) && dir in m.rings && Depth(m.rings[dir]) <= Reach(r)
      else
        r.Domain? || r.Application? ==> InPureModule(m, pkg) || ('.' !in Split(pkg, '/')[0] && pkg in PURE_STD)
  }

  lemma MayImportIff(r: Ring, s: Ring)
    ensures r.MayImport(s) <==> Depth(s) <= Reach(r)
  {
  }

  lemma InPureModuleIff(m: Module, importPath: string)
    ensures m.PureModuleOf(importPath).Some? <==> InPureModule(m, importPath)
  {
    var s := if m.PureModuleOf(importPath).Some? then m.PureModuleOf(importPath).value else "";
    PureModuleIsFirst(m, importPath, s);
    hide IsFirst, FirstPure;
    if i :| IsFirst(m.pureModules, importPath, i) && m.pureModules[i] != "" {
      PureModuleIsFirst(m, importPath, m.pureModules[i]);
    }
  }

  /** A reference breaks no rule if and only if it is one that its ring may make: inside the module, of a ring as deep
      as it reaches; outside, for a pure ring, in a pure module or the pure standard library; and no ambient member. */
  lemma KeptIff(m: Module, r: Ring, ref: Reference)
    ensures JudgeReference(m, r, ref).1.None? <==> Kept(m, r, ref)
  {
    if ref.Import? {
      DirIsTheRest(m, ref.pkg);
      StandardHasNoDot(ref.pkg);
      InPureModuleIff(m, ref.pkg);
      if m.Dir(ref.pkg).Some? && m.Dir(ref.pkg).value in m.rings {
        MayImportIff(r, m.rings[m.Dir(ref.pkg).value]);
      }
      hide Within, IsStandard, InPureModule, PURE_STD, Depth, Reach, IsAmbient, FirstPure, Module.Dir, Ring.MayImport,
        Module.PureModuleOf;
    } else {
      hide IsAmbient;
    }
  }

  /** What a reference is shown as does not depend on the ring: a member with its package, a dot import as one, a
      package of the module by its directory and any other by its path. */
  lemma ShownAs(m: Module, r: Ring, ref: Reference)
    ensures var target := JudgeReference(m, r, ref).0;
            match ref
            case Member(pkg, name, _) => target == pkg + "." + name
            case DotImport(pkg, _) => target == pkg + " (dot import)"
            case Import(pkg, _) =>
              if Within(pkg, m.path) then m.Dir(pkg) == Some(target) else target == pkg
  {
    if ref.Import? { DirIsTheRest(m, ref.pkg); }
  }

  // --- one package ---

  datatype Violation = Violation(dir: string, target: string, rule: Rule, files: seq<string>)
  {
    function Edge(): string {
      EdgeOf(dir, target)
    }
  }

  function EdgeOf(dir: string, target: string): string {
    dir + " -> " + target
  }

  predicate Breaks(m: Module, r: Ring, ref: Reference, target: string) {
    JudgeReference(m, r, ref).0 == target && JudgeReference(m, r, ref).1.Some?
  }

  // The violations of the references so far, by target: the rule is the first that is broken, the files as they come.
  function Table(m: Module, r: Ring, dir: string, refs: seq<Reference>): map<string, Violation> {
    if refs == [] then map[]
    else
      var before, ref := Table(m, r, dir, refs[..|refs| - 1]), refs[|refs| - 1];
      var (target, rule) := JudgeReference(m, r, ref);
      if rule.None? then before
      else
        var v := if target in before then before[target] else Violation(dir, target, rule.value, []);
        before[target := if ref.file in v.files then v else v.(files := v.files + [ref.file])]
  }

  ghost function Filed(v: Violation): Violation {
    StringsAreTotal(set f | f in v.files);
    v.(files := Listing(Less, set f | f in v.files))
  }

  // One violation of the package for each target, each once.
  method Judge(m: Module, pkg: Package, r: Ring) returns (out: seq<Violation>)
    ensures var t := Table(m, r, pkg.dir, pkg.refs);
            forall v :: v in out <==> exists target :: target in t && v == Filed(t[target])
    ensures Once(out)
  {
    var byTarget := Judged(m, pkg, r);
    forall target | target in byTarget
      ensures Distinct(byTarget[target].files) && byTarget[target].target == target
    {
      FilesAreDistinct(m, r, pkg.dir, pkg.refs, target);
      TableHoldsTheBroken(m, r, pkg.dir, pkg.refs, target);
    }
    out := FileAll(byTarget);
  }

  lemma TableOneMore(m: Module, r: Ring, dir: string, refs: seq<Reference>, i: nat)
    requires i < |refs|
    ensures var before, ref := Table(m, r, dir, refs[..i]), refs[i];
            var (target, rule) := JudgeReference(m, r, ref);
            var v := if target in before then before[target]
                     else Violation(dir, target, if rule.Some? then rule.value else NoRing, []);
            Table(m, r, dir, refs[..i + 1]) ==
            if rule.None? then before
            else before[target := if ref.file in v.files then v else v.(files := v.files + [ref.file])]
  {
    var more := refs[..i + 1];
    assert more != [] && more[..|more| - 1] == refs[..i] && more[|more| - 1] == refs[i];
  }

  // The loop of Judge over the references.
  method Judged(m: Module, pkg: Package, r: Ring) returns (byTarget: map<string, Violation>)
    ensures byTarget == Table(m, r, pkg.dir, pkg.refs)
  {
    byTarget := map[];
    for i := 0 to |pkg.refs|
      invariant byTarget == Table(m, r, pkg.dir, pkg.refs[..i])
    {
      hide JudgeReference, Table;
      var ref := pkg.refs[i];
      TableOneMore(m, r, pkg.dir, pkg.refs, i);
      var (target, rule) := JudgeReference(m, r, ref);
      if rule.None? { continue; }
      if target !in byTarget { byTarget := byTarget[target := Violation(pkg.dir, target, rule.value, [])]; }
      var v := byTarget[target];
      if ref.file !in v.files { byTarget := byTarget[target := v.(files := v.files + [ref.file])]; }
    }
    assert pkg.refs[..|pkg.refs|] == pkg.refs;
  }

  // The violations of a table, whatever order it is gone through in, the files of each sorted.
  method FileAll(byTarget: map<string, Violation>) returns (out: seq<Violation>)
    requires forall target :: target in byTarget ==>
               Distinct(byTarget[target].files) && byTarget[target].target == target
    ensures forall v :: v in out <==> exists target :: target in byTarget && v == Filed(byTarget[target])
    ensures Once(out)
  {
    out := [];
    var todo := byTarget.Keys;
    while todo != {}
      invariant todo <= byTarget.Keys && Once(out)
      invariant forall v :: v in out <==>
                  exists target :: target in byTarget.Keys - todo && v == Filed(byTarget[target])
      invariant forall v :: v in out ==> v.target !in todo
    {
      var target :| target in todo;
      var v := SortFiles(byTarget[target]);
      assert v.target == target;
      hide Filed, Once;
      OncePlus(out, v);
      out := out + [v];
      todo := todo - {target};
    }
  }

  method SortFiles(v: Violation) returns (r: Violation)
    requires Distinct(v.files)
    ensures r == Filed(v)
  {
    ghost var all := set f | f in v.files;
    StringsAreTotal(all);
    var files := Sort(Less, v.files, all);
    return v.(files := files);
  }

  ghost predicate Distinct(files: seq<string>) {
    forall i, j :: 0 <= i < j < |files| ==> files[i] != files[j]
  }

  lemma {:induction false} FilesAreDistinct(m: Module, r: Ring, dir: string, refs: seq<Reference>, target: string)
    ensures var t := Table(m, r, dir, refs); target in t ==> Distinct(t[target].files)
  {
    if refs != [] {
      hide JudgeReference;
      FilesAreDistinct(m, r, dir, refs[..|refs| - 1], target);
    }
  }

  // A reference in the file breaks a rule with the target.
  ghost predicate BreaksIn(m: Module, r: Ring, refs: seq<Reference>, target: string, file: string) {
    exists i :: 0 <= i < |refs| && Breaks(m, r, refs[i], target) && refs[i].file == file
  }

  /** A package has a violation for each target that some reference of it breaks a rule with, and no other. */
  lemma {:induction false} TableHoldsTheBroken(m: Module, r: Ring, dir: string, refs: seq<Reference>, target: string)
    ensures var t := Table(m, r, dir, refs);
            && (target in t <==> exists i :: 0 <= i < |refs| && Breaks(m, r, refs[i], target))
            && (target in t ==> t[target].dir == dir && t[target].target == target)
            && (target in t ==> forall f :: f in t[target].files <==> BreaksIn(m, r, refs, target, f))
  {
    if refs != [] {
      var n := |refs| - 1;
      TableHoldsTheBroken(m, r, dir, refs[..n], target);
      BrokenByLast(m, r, refs, target);
      TableNext(m, r, dir, refs, target);
      hide Table, Breaks, BreaksIn, JudgeReference;
    }
  }

  lemma BrokenByLast(m: Module, r: Ring, refs: seq<Reference>, target: string)
    requires refs != []
    ensures var n := |refs| - 1;
            && ((exists i :: 0 <= i < |refs| && Breaks(m, r, refs[i], target)) <==>
                Breaks(m, r, refs[n], target) || exists i :: 0 <= i < n && Breaks(m, r, refs[..n][i], target))
            && forall f :: BreaksIn(m, r, refs, target, f) <==>
                           (Breaks(m, r, refs[n], target) && refs[n].file == f) || BreaksIn(m, r, refs[..n], target, f)
  {
    hide Breaks;
    assert refs == refs[..|refs| - 1] + [refs[|refs| - 1]];
  }

  // What one reference more does to the entry of a target.
  lemma TableNext(m: Module, r: Ring, dir: string, refs: seq<Reference>, target: string)
    requires refs != []
    ensures var n := |refs| - 1;
            var was, now, breaks := Table(m, r, dir, refs[..n]), Table(m, r, dir, refs), Breaks(m, r, refs[n], target);
            && (target in now <==> target in was || breaks)
            && (target in was && !breaks ==> now[target] == was[target])
            && (target in was && breaks ==>
                  && now[target].dir == was[target].dir && now[target].target == was[target].target
                  && forall f :: f in now[target].files <==> f in was[target].files || f == refs[n].file)
            && (target !in was && breaks ==>
                  now[target].dir == dir && now[target].target == target && now[target].files == [refs[n].file])
  {
    hide JudgeReference;
  }

  // --- the whole module ---

  // The violation of one package and target.
  ghost predicate IsViolation(m: Module, pkg: Package, v: Violation) {
    && pkg.dir in m.rings && m.rings[pkg.dir].Judged()
    && v.target in Table(m, m.rings[pkg.dir], pkg.dir, pkg.refs)
    && v == Filed(Table(m, m.rings[pkg.dir], pkg.dir, pkg.refs)[v.target])
  }

  ghost predicate Found(m: Module, v: Violation) {
    exists i :: 0 <= i < |m.packages| && IsViolation(m, m.packages[i], v)
  }

  // How many of the first n packages have the violation.
  ghost function TimesFound(m: Module, n: nat, v: Violation): nat
    requires n <= |m.packages|
  {
    if n == 0 then 0 else TimesFound(m, n - 1, v) + if IsViolation(m, m.packages[n - 1], v) then 1 else 0
  }

  /** When no two packages are of one directory no violation is found twice. */
  lemma {:induction false} FoundOnce(m: Module, n: nat, v: Violation)
    requires n <= |m.packages| && forall i, j :: 0 <= i < j < n ==> m.packages[i].dir != m.packages[j].dir
    ensures TimesFound(m, n, v) <= 1
    ensures TimesFound(m, n, v) == 1 ==> exists i :: 0 <= i < n && m.packages[i].dir == v.dir
  {
    if n > 0 {
      FoundOnce(m, n - 1, v);
      if IsViolation(m, m.packages[n - 1], v) {
        var pkg := m.packages[n - 1];
        TableHoldsTheBroken(m, m.rings[pkg.dir], pkg.dir, pkg.refs, v.target);
      }
    }
  }

  lemma JudgedAre(m: Module, pkg: Package, v: Violation)
    requires pkg.dir in m.rings && m.rings[pkg.dir].Judged()
    ensures var t := Table(m, m.rings[pkg.dir], pkg.dir, pkg.refs);
            (exists target :: target in t && v == Filed(t[target])) <==> IsViolation(m, pkg, v)
  {
    var r := m.rings[pkg.dir];
    var t := Table(m, r, pkg.dir, pkg.refs);
    hide Table, Breaks;
    if target :| target in t && v == Filed(t[target]) {
      TableHoldsTheBroken(m, r, pkg.dir, pkg.refs, target);
      assert v.target == target;
    }
    if IsViolation(m, pkg, v) { assert v.target in t && v == Filed(t[v.target]); }
  }

  method Violations(m: Module) returns (out: seq<Violation>)
    ensures forall v :: v in out <==> Found(m, v)
    ensures forall v :: multiset(out)[v] == TimesFound(m, |m.packages|, v)
    ensures RisesBy((v: Violation) => v.Edge(), out)
  {
    out := [];
    for i := 0 to |m.packages|
      invariant forall v :: v in out <==> exists j :: 0 <= j < i && IsViolation(m, m.packages[j], v)
      invariant forall v :: multiset(out)[v] == TimesFound(m, i, v)
    {
      var pkg := m.packages[i];
      if pkg.dir !in m.rings || !m.rings[pkg.dir].Judged() { continue; }
      var more := Judge(m, pkg, m.rings[pkg.dir]);
      OnceBag(more);
      forall v
        ensures v in more <==> IsViolation(m, pkg, v)
      {
        JudgedAre(m, pkg, v);
      }
      hide IsViolation;
      out := out + more;
    }
    out := SortBy((v: Violation) => v.Edge(), out);
  }

  // --- debt.go ---

  datatype DebtLine = DebtLine(dir: string, target: string, unit: string)
  {
    function Edge(): string {
      EdgeOf(dir, target)
    }
  }

  predicate IsOwed(debt: map<string, map<string, string>>, line: DebtLine) {
    line.dir in debt && line.target in debt[line.dir] && debt[line.dir][line.target] == line.unit
  }

  method LinesOf(debt: map<string, map<string, string>>) returns (lines: seq<DebtLine>)
    ensures forall line :: line in lines <==> IsOwed(debt, line)
    ensures Once(lines)
    ensures RisesBy((d: DebtLine) => d.Edge(), lines)
  {
    lines := [];
    var todo := debt.Keys;
    while todo != {}
      invariant todo <= debt.Keys
      invariant forall line :: line in lines <==> line.dir !in todo && IsOwed(debt, line)
      invariant Once(lines)
    {
      var dir :| dir in todo;
      todo := todo - {dir};
      ghost var before := lines;
      var targets := debt[dir].Keys;
      while targets != {}
        invariant targets <= debt[dir].Keys
        invariant forall line :: line in lines <==>
                    line in before || (line.dir == dir && line.target !in targets && IsOwed(debt, line))
        invariant Once(lines)
      {
        var target :| target in targets;
        targets := targets - {target};
        OncePlus(lines, DebtLine(dir, target, debt[dir][target]));
        lines := lines + [DebtLine(dir, target, debt[dir][target])];
      }
    }
    lines := SortBy((d: DebtLine) => d.Edge(), lines);
  }

  predicate IsUnit(s: string) {
    |s| >= 2 && s[0] in {'H', 'L', 'T', 'B'} && forall i :: 1 <= i < |s| ==> '0' <= s[i] <= '9'
  }

  datatype BadDebt = NoTarget | NoUnit | NoRingOwes | OwesNothing

  // Why a debt line cannot be trusted, the first reason that holds.
  function Mistrust(rings: map<string, Ring>, line: DebtLine): Option<BadDebt> {
    if line.target == "" then Some(NoTarget)
    else if !IsUnit(line.unit) then Some(NoUnit)
    else if line.dir !in rings then Some(NoRingOwes)
    else if !rings[line.dir].Pure() then Some(OwesNothing)
    else None
  }

  /** A line is trusted if and only if it has a target, its unit is one of four letters and then a number, and its
      directory is declared as a domain or an application; it is mistrusted for the first of these that fails. */
  lemma MistrustIff(rings: map<string, Ring>, line: DebtLine)
    ensures var hasUnit := exists letter, digits :: IsUnitOf(line.unit, letter, digits);
            var why := Mistrust(rings, line);
            && (why == Some(NoTarget) <==> line.target == "")
            && (why == Some(NoUnit) <==> line.target != "" && !hasUnit)
            && (why == Some(NoRingOwes) <==> line.target != "" && hasUnit && line.dir !in rings)
            && (why.None? <==> line.target != "" && hasUnit && line.dir in rings
                               && (rings[line.dir].Domain? || rings[line.dir].Application?))
  {
    var unit := line.unit;
    if IsUnit(unit) {
      assert unit[..1] == [unit[0]] && unit == unit[..1] + unit[1..];
      assert IsUnitOf(unit, unit[..1], unit[1..]);
    }
    if letter, digits :| IsUnitOf(unit, letter, digits) {
      assert forall i :: 1 <= i < |unit| ==> unit[i] == digits[i - 1];
    }
  }

  ghost predicate IsUnitOf(unit: string, letter: string, digits: string) {
    && unit == letter + digits && letter in {"H", "L", "T", "B"}
    && digits != "" && forall i :: 0 <= i < |digits| ==> '0' <= digits[i] <= '9'
  }

  datatype Problem =
    | Undeclared(dir: string)
    | MissingPackage(dir: string)
    | Mistrusted(line: DebtLine, why: BadDebt)
    | Broken(violation: Violation)
    | UnusedModule(pureModule: string)
    | Stale(line: DebtLine)

  method ValidateDebts(lines: seq<DebtLine>, rings: map<string, Ring>) returns (problems: seq<Problem>)
    ensures forall p :: p in problems <==> p.Mistrusted? && p.line in lines && Mistrust(rings, p.line) == Some(p.why)
  {
    problems := [];
    for i := 0 to |lines|
      invariant forall p :: p in problems <==>
                  p.Mistrusted? && p.line in lines[..i] && Mistrust(rings, p.line) == Some(p.why)
    {
      var why := Mistrust(rings, lines[i]);
      assert lines[..i + 1] == lines[..i] + [lines[i]];
      hide Mistrust;
      if why.Some? { problems := problems + [Mistrusted(lines[i], why.value)]; }
    }
    assert lines[..|lines|] == lines;
  }

  ghost predicate IsListed(lines: seq<DebtLine>, edge: string) {
    exists i :: 0 <= i < |lines| && lines[i].Edge() == edge
  }

  ghost predicate IsLive(found: seq<Violation>, edge: string) {
    exists i :: 0 <= i < |found| && found[i].Edge() == edge
  }

  method Reconcile(found: seq<Violation>, lines: seq<DebtLine>) returns (unlisted: seq<Violation>, stale: seq<DebtLine>)
    ensures forall v :: v in unlisted <==> v in found && !IsListed(lines, v.Edge())
    ensures forall d :: d in stale <==> d in lines && !IsLive(found, d.Edge())
  {
    var listed: set<string> := {};
    for i := 0 to |lines|
      invariant forall e :: e in listed <==> exists j :: 0 <= j < i && lines[j].Edge() == e
    {
      listed := listed + {lines[i].Edge()};
    }
    assert forall e :: e in listed <==> IsListed(lines, e);
    var live: set<string> := {};
    unlisted := [];
    for i := 0 to |found|
      invariant forall e :: e in live <==> exists j :: 0 <= j < i && found[j].Edge() == e
      invariant forall v :: v in unlisted <==> v in found[..i] && !IsListed(lines, v.Edge())
    {
      hide IsListed;
      assert found[..i + 1] == found[..i] + [found[i]];
      live := live + {found[i].Edge()};
      if found[i].Edge() !in listed { unlisted := unlisted + [found[i]]; }
    }
    assert found[..|found|] == found;
    assert forall e :: e in live <==> IsLive(found, e);
    stale := StaleLines(found, lines, live);
  }

  method StaleLines(found: seq<Violation>, lines: seq<DebtLine>, live: set<string>) returns (stale: seq<DebtLine>)
    requires forall e :: e in live <==> IsLive(found, e)
    ensures forall d :: d in stale <==> d in lines && !IsLive(found, d.Edge())
  {
    hide IsLive;
    stale := [];
    for i := 0 to |lines|
      invariant forall d :: d in stale <==> d in lines[..i] && !IsLive(found, d.Edge())
    {
      assert lines[..i + 1] == lines[..i] + [lines[i]];
      if lines[i].Edge() !in live { stale := stale + [lines[i]]; }
    }
    assert lines[..|lines|] == lines;
  }

  // --- the other lists ---

  ghost predicate HasPackage(m: Module, dir: string) {
    exists i :: 0 <= i < |m.packages| && m.packages[i].dir == dir
  }

  method UndeclaredDirs(m: Module) returns (dirs: seq<string>)
    ensures forall d :: d in dirs <==> HasPackage(m, d) && d !in m.rings
  {
    dirs := [];
    for i := 0 to |m.packages|
      invariant forall d :: d in dirs <==> d !in m.rings && exists j :: 0 <= j < i && m.packages[j].dir == d
    {
      if m.packages[i].dir !in m.rings { dirs := dirs + [m.packages[i].dir]; }
    }
  }

  method MissingDirs(m: Module) returns (dirs: seq<string>)
    ensures forall d :: d in dirs <==> d in m.rings && !HasPackage(m, d)
    ensures Once(dirs)
    ensures RisesBy((d: string) => d, dirs)
  {
    var present: set<string> := {};
    for i := 0 to |m.packages|
      invariant forall d :: d in present <==> exists j :: 0 <= j < i && m.packages[j].dir == d
    {
      present := present + {m.packages[i].dir};
    }
    assert forall d :: d in present <==> HasPackage(m, d);
    hide HasPackage;
    dirs := [];
    var todo := m.rings.Keys;
    while todo != {}
      invariant todo <= m.rings.Keys
      invariant forall d :: d in dirs <==> d in m.rings.Keys - todo && !HasPackage(m, d)
      invariant Once(dirs)
    {
      var dir :| dir in todo;
      todo := todo - {dir};
      if dir !in present { dirs := dirs + [dir]; }
    }
    dirs := SortBy((d: string) => d, dirs);
  }

  ghost predicate IsUsedBy(m: Module, pkg: Package, pureModule: string) {
    exists j :: 0 <= j < |pkg.refs| && pkg.refs[j].Import? && m.PureModuleOf(pkg.refs[j].pkg) == Some(pureModule)
  }

  ghost predicate IsUsed(m: Module, pureModule: string) {
    exists i :: 0 <= i < |m.packages| && IsUsedBy(m, m.packages[i], pureModule)
  }

  method UnusedPureModules(m: Module) returns (unused: seq<string>)
    ensures forall s :: s in unused <==> s in m.pureModules && !IsUsed(m, s)
    ensures Once(unused)
    ensures RisesBy((s: string) => s, unused)
  {
    var used: set<string> := {};
    for i := 0 to |m.packages|
      invariant forall s :: s in used <==> exists k :: 0 <= k < i && IsUsedBy(m, m.packages[k], s)
    {
      ghost var before := used;
      var refs := m.packages[i].refs;
      for j := 0 to |refs|
        invariant forall s :: s in used <==>
                    s in before || exists k :: 0 <= k < j && refs[k].Import? && m.PureModuleOf(refs[k].pkg) == Some(s)
      {
        hide FirstPure;
        if refs[j].Import? {
          var pureModule := m.PureModuleOf(refs[j].pkg);
          if pureModule.Some? { used := used + {pureModule.value}; }
        }
      }
      assert forall s :: s in used <==> s in before || IsUsedBy(m, m.packages[i], s);
    }
    assert forall s :: s in used <==> IsUsed(m, s);
    hide IsUsed;
    unused := [];
    for i := 0 to |m.pureModules|
      invariant forall s :: s in unused <==> s in m.pureModules[..i] && !IsUsed(m, s)
      invariant Once(unused)
    {
      var s := m.pureModules[i];
      assert m.pureModules[..i + 1] == m.pureModules[..i] + [s];
      if s !in used && s !in unused { unused := unused + [s]; }
    }
    assert m.pureModules[..|m.pureModules|] == m.pureModules;
    unused := SortBy((s: string) => s, unused);
  }

  // --- archguard.go: CheckWith ---

  ghost predicate IsOwedEdge(debt: map<string, map<string, string>>, edge: string) {
    exists line :: IsOwed(debt, line) && line.Edge() == edge
  }

  ghost predicate IsFoundEdge(m: Module, edge: string) {
    exists v :: Found(m, v) && v.Edge() == edge
  }

  ghost predicate IsProblem(m: Module, debt: map<string, map<string, string>>, p: Problem) {
    match p
    case Undeclared(dir) => HasPackage(m, dir) && dir !in m.rings
    case MissingPackage(dir) => dir in m.rings && !HasPackage(m, dir)
    case Mistrusted(line, why) => IsOwed(debt, line) && Mistrust(m.rings, line) == Some(why)
    case Broken(v) => Found(m, v) && !IsOwedEdge(debt, v.Edge())
    case UnusedModule(s) => s in m.pureModules && !IsUsed(m, s)
    case Stale(line) => IsOwed(debt, line) && !IsFoundEdge(m, line.Edge())
  }

  // The check reports exactly the problems there are; it cannot run when no package is found.
  method CheckWith(m: Module, debt: map<string, map<string, string>>) returns (problems: seq<Problem>, ok: bool)
    ensures ok <==> m.packages != []
    ensures ok ==> forall p :: p in problems <==> IsProblem(m, debt, p)
  {
    if |m.packages| == 0 { return [], false; }
    var undeclared := UndeclaredDirs(m);
    var missing := MissingDirs(m);
    var lines := LinesOf(debt);
    var bad := ValidateDebts(lines, m.rings);
    var found := Violations(m);
    var unlisted, stale := Reconcile(found, lines);
    var unused := UnusedPureModules(m);
    ListedIsOwed(m, debt, lines, found);
    hide HasPackage, Found, IsOwed, IsUsed, IsListed, IsLive, IsOwedEdge, IsFoundEdge, Mistrust;
    problems := Collected(undeclared, missing, bad, unlisted, unused, stale);
    return problems, true;
  }

  lemma ListedIsOwed(m: Module, debt: map<string, map<string, string>>, lines: seq<DebtLine>, found: seq<Violation>)
    requires forall line :: line in lines <==> IsOwed(debt, line)
    requires forall v :: v in found <==> Found(m, v)
    ensures forall edge :: IsListed(lines, edge) <==> IsOwedEdge(debt, edge)
    ensures forall edge :: IsLive(found, edge) <==> IsFoundEdge(m, edge)
  {
    forall edge
      ensures IsListed(lines, edge) <==> IsOwedEdge(debt, edge)
    {
      if i :| 0 <= i < |lines| && lines[i].Edge() == edge { assert lines[i] in lines; }
      if line :| IsOwed(debt, line) && line.Edge() == edge { assert line in lines; }
    }
    hide Found;
    forall edge
      ensures IsLive(found, edge) <==> IsFoundEdge(m, edge)
    {
      if i :| 0 <= i < |found| && found[i].Edge() == edge { assert found[i] in found; }
      if v :| Found(m, v) && v.Edge() == edge { assert v in found; }
    }
  }

  // The problems in the order they are reported in.
  method Collected(undeclared: seq<string>, missing: seq<string>, bad: seq<Problem>, unlisted: seq<Violation>,
                   unused: seq<string>, stale: seq<DebtLine>)
    returns (problems: seq<Problem>)
    requires forall p :: p in bad ==> p.Mistrusted?
    ensures forall p :: p in problems <==>
                        match p
                        case Undeclared(dir) => dir in undeclared
                        case MissingPackage(dir) => dir in missing
                        case Mistrusted(_, _) => p in bad
                        case Broken(v) => v in unlisted
                        case UnusedModule(s) => s in unused
                        case Stale(line) => line in stale
  {
    problems := [];
    for i := 0 to |undeclared|
      invariant forall p: Problem :: p in problems <==> p.Undeclared? && p.dir in undeclared[..i]
    {
      problems := problems + [Undeclared(undeclared[i])];
    }
    var more: seq<Problem> := [];
    for i := 0 to |missing|
      invariant forall p: Problem :: p in more <==> p.MissingPackage? && p.dir in missing[..i]
    {
      more := more + [MissingPackage(missing[i])];
    }
    assert undeclared[..|undeclared|] == undeclared && missing[..|missing|] == missing;
    var rest := CollectedLater(unlisted, unused, stale);
    problems := problems + more + bad + rest;
  }

  method CollectedLater(unlisted: seq<Violation>, unused: seq<string>,
          stale: seq<DebtLine>) returns (problems: seq<Problem>)
    ensures forall p :: p in problems <==>
                        match p
                        case Broken(v) => v in unlisted
                        case UnusedModule(s) => s in unused
                        case Stale(line) => line in stale
                        case _ => false
  {
    problems := [];
    for i := 0 to |unlisted|
      invariant forall p: Problem :: p in problems <==> p.Broken? && p.violation in unlisted[..i]
    {
      problems := problems + [Broken(unlisted[i])];
    }
    var more: seq<Problem> := [];
    for i := 0 to |unused|
      invariant forall p: Problem :: p in more <==> p.UnusedModule? && p.pureModule in unused[..i]
    {
      more := more + [UnusedModule(unused[i])];
    }
    var last: seq<Problem> := [];
    for i := 0 to |stale|
      invariant forall p: Problem :: p in last <==> p.Stale? && p.line in stale[..i]
    {
      last := last + [Problem.Stale(stale[i])];
    }
    assert unlisted[..|unlisted|] == unlisted && unused[..|unused|] == unused && stale[..|stale|] == stale;
    problems := problems + more + last;
  }

  // --- what a check that reports nothing says of paths ---

  ghost predicate Passes(m: Module, debt: map<string, map<string, string>>) {
    forall p :: !IsProblem(m, debt, p)
  }

  // A package of the directory imports the other.
  ghost predicate ImportsDir(m: Module, dir: string, target: string) {
    exists i, j :: 0 <= i < |m.packages| && 0 <= j < |m.packages[i].refs| && m.packages[i].dir == dir
                   && m.packages[i].refs[j].Import? && m.Dir(m.packages[i].refs[j].pkg) == Some(target)
  }

  ghost predicate IsPath(m: Module, path: seq<string>) {
    path != [] && forall i :: 0 <= i < |path| - 1 ==> ImportsDir(m, path[i], path[i + 1])
  }

  ghost predicate OwesOnPath(debt: map<string, map<string, string>>, path: seq<string>) {
    exists i :: 0 <= i < |path| - 1 && IsOwedEdge(debt, EdgeOf(path[i], path[i + 1]))
  }

  // What is said of one import: each reference of a judged package keeps the rule or is owed.
  lemma DirectIsKept(m: Module, debt: map<string, map<string, string>>, i: int, j: int)
    requires Passes(m, debt) && 0 <= i < |m.packages| && 0 <= j < |m.packages[i].refs|
    requires var dir := m.packages[i].dir; dir in m.rings && m.rings[dir].Judged()
    ensures var dir := m.packages[i].dir;
            var (target, rule) := JudgeReference(m, m.rings[dir], m.packages[i].refs[j]);
            rule.None? || IsOwedEdge(debt, EdgeOf(dir, target))
  {
    var pkg := m.packages[i];
    var r := m.rings[pkg.dir];
    var (target, rule) := JudgeReference(m, r, pkg.refs[j]);
    hide JudgeReference, IsOwedEdge, Mistrust, IsUsed;
    if rule.Some? {
      assert Breaks(m, r, pkg.refs[j], target);
      TableHoldsTheBroken(m, r, pkg.dir, pkg.refs, target);
      var v := Filed(Table(m, r, pkg.dir, pkg.refs)[target]);
      assert IsViolation(m, pkg, v);
      assert Found(m, v);
      assert !IsProblem(m, debt, Broken(v));
    }
  }

  // Each import inside the module that is not owed goes to a ring the importer may import.
  lemma ImportIsKept(m: Module, debt: map<string, map<string, string>>, dir: string, target: string)
    requires Passes(m, debt) && dir in m.rings && m.rings[dir].Judged() && ImportsDir(m, dir, target)
    requires !IsOwedEdge(debt, EdgeOf(dir, target))
    ensures target in m.rings && m.rings[dir].MayImport(m.rings[target])
  {
    var i, j :| 0 <= i < |m.packages| && 0 <= j < |m.packages[i].refs| && m.packages[i].dir == dir
                && m.packages[i].refs[j].Import? && m.Dir(m.packages[i].refs[j].pkg) == Some(target);
    hide Passes, IsOwedEdge;
    DirectIsKept(m, debt, i, j);
  }

  // No further out than the first of a path: a domain package reaches domain packages, a pure one pure ones, and any
  // judged one neither a root nor test support.
  ghost predicate Inward(r: Ring, s: Ring) {
    && (r.Domain? ==> s.Domain?)
    && (r.Pure() ==> s.Pure())
    && (s.Domain? || s.Application? || s.Adapter?)
  }

  /** When the check reports nothing, every path of imports from a judged package stays inward, up to an edge that is
      owed. */
  lemma {:induction false} PathsStayInward(m: Module, debt: map<string, map<string, string>>, path: seq<string>, k: nat)
    requires Passes(m, debt) && IsPath(m, path) && !OwesOnPath(debt, path)
    requires path[0] in m.rings && m.rings[path[0]].Judged() && 0 < k < |path|
    ensures path[k] in m.rings && Inward(m.rings[path[0]], m.rings[path[k]])
  {
    hide Passes, ImportsDir, IsOwedEdge;
    assert ImportsDir(m, path[k - 1], path[k]) && !IsOwedEdge(debt, EdgeOf(path[k - 1], path[k]));
    if k > 1 { PathsStayInward(m, debt, path, k - 1); }
    ImportIsKept(m, debt, path[k - 1], path[k]);
  }

  // The target does not depend on the ring of the importer.
  function TargetOf(m: Module, ref: Reference): (target: string)
    ensures forall r: Ring :: JudgeReference(m, r, ref).0 == target
  {
    JudgeReference(m, Domain, ref).0
  }

  // A reference with the target that its package may not make.
  ghost predicate IsOffence(m: Module, dir: string, target: string, i: int, j: int) {
    && 0 <= i < |m.packages| && 0 <= j < |m.packages[i].refs| && m.packages[i].dir == dir
    && dir in m.rings && !m.rings[dir].Support?
    && !Kept(m, m.rings[dir], m.packages[i].refs[j]) && TargetOf(m, m.packages[i].refs[j]) == target
  }

  ghost predicate IsFoundAt(m: Module, dir: string, target: string) {
    exists v :: Found(m, v) && v.dir == dir && v.target == target
  }

  /** A violation is found if and only if some reference of a package of its directory is one that its ring may not
      make; so what a ring may refer to is never reported. */
  lemma FoundIffNotKept(m: Module, dir: string, target: string)
    ensures IsFoundAt(m, dir, target) <==> exists i, j :: IsOffence(m, dir, target, i, j)
  {
    hide JudgeReference, Table, Kept;
    if i, j :| IsOffence(m, dir, target, i, j) {
      var pkg := m.packages[i];
      var r := m.rings[dir];
      KeptIff(m, r, pkg.refs[j]);
      TableHoldsTheBroken(m, r, dir, pkg.refs, target);
      assert Breaks(m, r, pkg.refs[j], target);
      assert IsViolation(m, pkg, Filed(Table(m, r, dir, pkg.refs)[target]));
      assert Found(m, Filed(Table(m, r, dir, pkg.refs)[target]));
    }
    if v :| Found(m, v) && v.dir == dir && v.target == target {
      var i :| 0 <= i < |m.packages| && IsViolation(m, m.packages[i], v);
      var pkg := m.packages[i];
      TableHoldsTheBroken(m, m.rings[pkg.dir], pkg.dir, pkg.refs, target);
      var j :| 0 <= j < |pkg.refs| && Breaks(m, m.rings[pkg.dir], pkg.refs[j], target);
      KeptIff(m, m.rings[dir], pkg.refs[j]);
      assert IsOffence(m, dir, target, i, j);
    }
  }

  // What a pure package may refer to: said without the ring of the importer or the order of the checks.
  ghost predicate Harmless(m: Module, ref: Reference) {
    match ref
    case Member(pkg, name, _) => !IsAmbient(pkg, name)
    case DotImport(_, _) => false
    case Import(pkg, _) =>
      if m.Dir(pkg).Some? then m.Dir(pkg).value in m.rings && m.rings[m.Dir(pkg).value].Pure()
      else m.PureModuleOf(pkg).Some? || (IsStandard(pkg) && pkg in PURE_STD)
  }

  /** The claim that judging direct imports is enough. When the check reports nothing, then on every path of imports
      from a domain or application package to a package that refers to something impure, an edge of the path or that
      last reference is a line of the debt. */
  lemma ImpurityIsOwed(m: Module, debt: map<string, map<string, string>>, path: seq<string>, i: int, j: int)
    requires Passes(m, debt) && IsPath(m, path)
    requires path[0] in m.rings && m.rings[path[0]].Pure()
    requires 0 <= i < |m.packages| && m.packages[i].dir == path[|path| - 1] && 0 <= j < |m.packages[i].refs|
    requires !Harmless(m, m.packages[i].refs[j])
    ensures OwesOnPath(debt, path) || IsOwedEdge(debt, EdgeOf(path[|path| - 1], TargetOf(m, m.packages[i].refs[j])))
  {
    var last, ref := path[|path| - 1], m.packages[i].refs[j];
    hide Passes, IsOwedEdge, IsPath;
    if !OwesOnPath(debt, path) {
      if |path| > 1 { PathsStayInward(m, debt, path, |path| - 1); }
      DirectIsKept(m, debt, i, j);
      var r := m.rings[last];
      assert JudgeReference(m, r, ref).1.Some?;
      assert JudgeReference(m, r, ref).0 == TargetOf(m, ref);
    }
  }

  /** With no debt at all: whatever a domain package reaches is domain, and refers to nothing impure. */
  lemma DomainReachesDomain(m: Module, path: seq<string>, i: int, j: int)
    requires Passes(m, map[]) && IsPath(m, path) && path[0] in m.rings && m.rings[path[0]].Domain?
    requires 0 <= i < |m.packages| && m.packages[i].dir == path[|path| - 1] && 0 <= j < |m.packages[i].refs|
    ensures path[|path| - 1] in m.rings && m.rings[path[|path| - 1]].Domain?
    ensures Harmless(m, m.packages[i].refs[j])
  {
    forall edge
      ensures !IsOwedEdge(map[], edge)
    {
    }
    hide Passes, IsOwedEdge, Harmless;
    if |path| > 1 {
      hide IsPath;
      PathsStayInward(m, map[], path, |path| - 1);
    }
    if !Harmless(m, m.packages[i].refs[j]) { ImpurityIsOwed(m, map[], path, i, j); }
  }

  // --- edges as text ---

  lemma EdgeParts(dir: string, target: string)
    ensures EdgeOf(dir, target) == (dir + " -> ") + target && dir + " -> " <= EdgeOf(dir, target)
    ensures EdgeOf(dir, target)[|dir| + 4..] == target
  {
  }

  // A text that starts with a directory and the arrow is an edge of that directory.
  lemma StartIsEdge(dir: string, edge: string)
    requires dir + " -> " <= edge
    ensures EdgeOf(dir, edge[|dir| + 4..]) == edge
  {
    assert edge == (dir + " -> ") + edge[|dir| + 4..];
  }

  /** Debt is matched as text, so an edge can be owed by a line of another package. Two directories have edges of one
      text exactly when one of them, with the arrow, starts with the other and the arrow. */
  lemma EdgesMeetIff(a: string, b: string)
    ensures (exists t, u :: EdgeOf(a, t) == EdgeOf(b, u)) <==> a + " -> " <= b + " -> " || b + " -> " <= a + " -> "
  {
    if t, u :| EdgeOf(a, t) == EdgeOf(b, u) {
      EdgeParts(a, t);
      EdgeParts(b, u);
    }
    if a + " -> " <= b + " -> " {
      StartIsEdge(a, b + " -> ");
      EdgeParts(b, "");
      assert EdgeOf(a, (b + " -> ")[|a| + 4..]) == EdgeOf(b, "");
    } else if b + " -> " <= a + " -> " {
      StartIsEdge(b, a + " -> ");
      EdgeParts(a, "");
      assert EdgeOf(a, "") == EdgeOf(b, (a + " -> ")[|b| + 4..]);
    }
  }

  // The text of the line is that of an edge of the directory.
  predicate IsTextOf(line: DebtLine, dir: string) {
    dir + " -> " <= line.Edge()
  }

  // Some edge of the directory is owed.
  ghost predicate OwesSome(debt: map<string, map<string, string>>, dir: string) {
    exists target :: IsOwedEdge(debt, EdgeOf(dir, target))
  }

  /** Who owes when the check reports nothing. A package that is no domain or application package owes an edge if and
      only if the text of a line of another package is that of an edge of it. */
  lemma ImpureOwesIff(m: Module, debt: map<string, map<string, string>>, dir: string)
    requires Passes(m, debt) && !(dir in m.rings && m.rings[dir].Pure())
    ensures OwesSome(debt, dir) <==> exists line :: IsOwed(debt, line) && line.dir != dir && IsTextOf(line, dir)
  {
    if target :| IsOwedEdge(debt, EdgeOf(dir, target)) {
      var line :| IsOwed(debt, line) && line.Edge() == EdgeOf(dir, target);
      EdgeParts(dir, target);
      if line.dir == dir { OwnersArePure(m, debt, line); }
      assert IsTextOf(line, dir);
    }
    if line :| IsOwed(debt, line) && line.dir != dir && IsTextOf(line, dir) {
      StartIsEdge(dir, line.Edge());
      assert IsOwedEdge(debt, EdgeOf(dir, line.Edge()[|dir| + 4..]));
    }
  }

  lemma OwnersArePure(m: Module, debt: map<string, map<string, string>>, line: DebtLine)
    requires Passes(m, debt) && IsOwed(debt, line)
    ensures line.dir in m.rings && m.rings[line.dir].Pure()
  {
    var why := Mistrust(m.rings, line);
    assert !IsProblem(m, debt, Mistrusted(line, if why.Some? then why.value else NoTarget));
  }

  /** When no line of another package is the text of an edge of the directory, what it owes are its own lines, and it is
      a domain or application package. */
  lemma OnlyPurePackagesOwe(m: Module, debt: map<string, map<string, string>>, dir: string, target: string)
    requires Passes(m, debt) && IsOwedEdge(debt, EdgeOf(dir, target))
    requires forall line :: IsOwed(debt, line) && IsTextOf(line, dir) ==> line.dir == dir
    ensures dir in debt && target in debt[dir] && dir in m.rings && m.rings[dir].Pure()
  {
    var line :| IsOwed(debt, line) && line.Edge() == EdgeOf(dir, target);
    EdgeParts(dir, target);
    assert IsTextOf(line, dir);
    EdgeParts(dir, line.target);
    OwnersArePure(m, debt, line);
  }

  // A domain package with a debt line, an adapter that imports the root, and the root.
  const FOOLED := Module("m", map["a" := Domain, "a -> b" := Adapter, "c" := Root],
    [Package("a", []), Package("a -> b", [Import("m/c", "f.go")]), Package("c", [])], [])
  const FOOLING := map["a" := map["b -> c" := "H1"]]

  lemma FooledReference()
    ensures FOOLED.Dir("m/c") == Some("c")
    ensures JudgeReference(FOOLED, Adapter, Import("m/c", "f.go")) == ("c", Some(OtherRing(Root)))
  {
    assert "m/c"[2..] == "c";
  }

  // The only violation has the edge of the import.
  lemma FooledFinds(v: Violation)
    ensures Found(FOOLED, v) ==> v.Edge() == EdgeOf("a -> b", "c")
    ensures IsFoundEdge(FOOLED, EdgeOf("a -> b", "c"))
  {
    var m, ref := FOOLED, Import("m/c", "f.go");
    FooledReference();
    hide JudgeReference;
    var t := Table(m, Adapter, "a -> b", [ref]);
    assert [ref][..0] == [] && Table(m, Adapter, "a -> b", []) == map[];
    assert t.Keys == {"c"} && t["c"].dir == "a -> b" && t["c"].target == "c";
    var w := Filed(t["c"]);
    assert IsViolation(m, m.packages[1], w);
    assert Found(m, w) && w.Edge() == EdgeOf("a -> b", "c");
    if Found(m, v) {
      var i :| 0 <= i < |m.packages| && IsViolation(m, m.packages[i], v);
      assert m.packages[i].refs != [];
      assert i == 1;
    }
  }

  lemma FooledPasses(p: Problem, line: DebtLine)
    requires line == DebtLine("a", "b -> c", "H1") && line.Edge() == EdgeOf("a -> b", "c")
    requires IsOwedEdge(FOOLING, line.Edge())
    ensures !IsProblem(FOOLED, FOOLING, p)
  {
    hide Found, IsOwedEdge, IsFoundEdge, JudgeReference;
    match p
    case Broken(v) => FooledFinds(v);
    case Stale(other) =>
      FooledFinds(Violation("", "", UsesAmbient, []));
      if IsOwed(FOOLING, other) { assert other == line; }
    case Mistrusted(other, _) => if IsOwed(FOOLING, other) { assert other == line; }
    case _ =>
      assert forall i :: 0 <= i < 3 ==> HasPackage(FOOLED, FOOLED.packages[i].dir);
      assert FOOLED.packages[0].dir == "a" && FOOLED.packages[1].dir == "a -> b" && FOOLED.packages[2].dir == "c";
  }

  /** A check that is fooled: it reports nothing, although an adapter imports the composition root. */
  lemma DebtOfAnother()
    ensures Passes(FOOLED, FOOLING)
    ensures ImportsDir(FOOLED, "a -> b", "c") && !FOOLED.rings["a -> b"].MayImport(FOOLED.rings["c"])
  {
    var m, debt, line := FOOLED, FOOLING, DebtLine("a", "b -> c", "H1");
    FooledReference();
    assert m.packages[0].dir == "a" && m.packages[1].dir == "a -> b" && m.packages[2].dir == "c";
    assert m.packages[1].refs[0].Import?;
    assert "a" + " -> " + "b -> c" == "a -> b" + " -> " + "c";
    assert IsOwed(debt, line) && line.Edge() == EdgeOf("a -> b", "c");
    assert IsOwedEdge(debt, EdgeOf("a -> b", "c"));
    hide Found, Mistrust, IsOwedEdge, IsOwed, IsFoundEdge, IsUsed, HasPackage, JudgeReference;
    forall p
      ensures !IsProblem(m, debt, p)
    {
      FooledPasses(p, line);
    }
  }
}
