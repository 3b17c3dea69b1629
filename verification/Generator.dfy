/**
  engine/agentgen/agentgen.go: Generate and Check over the files of a repository.
 */
module Generator {
  import opened Text
  import opened AgentGen

  datatype Read = Content(text: string) | Missing | Unreadable

  function ReadAt(files: map<string, string>, unreadable: set<string>, path: string): Read {
    if path in unreadable then Unreadable else if path in files then Content(files[path]) else Missing
  }

  // The files under the root of a repository. A path in unreadable cannot be read, and one in unwritable cannot be
  // written and may be left with anything in it, or nothing.
  class Repo {
    var files: map<string, string>
    const unreadable: set<string>
    const unwritable: set<string>

    constructor (files: map<string, string>, unreadable: set<string>, unwritable: set<string>)
      ensures this.files == files && this.unreadable == unreadable && this.unwritable == unwritable
    {
      this.files := files;
      this.unreadable := unreadable;
      this.unwritable := unwritable;
    }

    method ReadFile(path: string) returns (r: Read)
      ensures r == ReadAt(files, unreadable, path)
    {
      return ReadAt(files, unreadable, path);
    }

    method WriteFile(path: string, content: string) returns (ok: bool)
      modifies this
      ensures ok <==> path !in unwritable
      ensures ok ==> files == old(files)[path := content]
      ensures files - {path} == old(files) - {path}
    {
      if path in unwritable {
        var left: string := *;
        var gone: bool := *;
        files := if gone then files - {path} else files[path := left];
        return false;
      }
      files := files[path := content];
      return true;
    }
  }

  function SourcePath(r: Role): string {
    "roles/" + r.name + "/body.md"
  }

  datatype Why = SourceMissing | CannotRead | CannotProject

  datatype SourceError = SourceError(path: string, why: Why)

  datatype Built = Files(files: seq<Artifact>) | Failed(error: SourceError)

  function BuildOne(r: Role, files: map<string, string>, unreadable: set<string>): Built {
    match ReadAt(files, unreadable, SourcePath(r))
    case Missing => Failed(SourceError(SourcePath(r), SourceMissing))
    case Unreadable => Failed(SourceError(SourcePath(r), CannotRead))
    case Content(source) =>
      var project := Project(r, source);
      if project.Some? then Files(project.value) else Failed(SourceError(SourcePath(r), CannotProject))
  }

  // The artifacts of the roles whose source is good, and the errors of the others, both in the order of the roles.
  function Table(roles: seq<Role>, files: map<string, string>, unreadable: set<string>): seq<Artifact> {
    if roles == [] then []
    else
      var n := |roles| - 1;
      var one := BuildOne(roles[n], files, unreadable);
      Table(roles[..n], files, unreadable) + if one.Files? then one.files else []
  }

  function Problems(roles: seq<Role>, files: map<string, string>, unreadable: set<string>): seq<SourceError> {
    if roles == [] then []
    else
      var n := |roles| - 1;
      var one := BuildOne(roles[n], files, unreadable);
      Problems(roles[..n], files, unreadable) + if one.Failed? then [one.error] else []
  }

  method Build(roles: seq<Role>, repo: Repo) returns (table: seq<Artifact>, problems: seq<SourceError>)
    ensures table == Table(roles, repo.files, repo.unreadable)
    ensures problems == Problems(roles, repo.files, repo.unreadable)
  {
    hide Project;
    table, problems := [], [];
    for i := 0 to |roles|
      invariant table == Table(roles[..i], repo.files, repo.unreadable)
      invariant problems == Problems(roles[..i], repo.files, repo.unreadable)
    {
      var r := roles[i];
      assert roles[..i + 1][..i] == roles[..i];
      var data := repo.ReadFile(SourcePath(r));
      if !data.Content? {
        problems := problems + [SourceError(SourcePath(r), if data.Missing? then SourceMissing else CannotRead)];
        continue;
      }
      var project := Project(r, data.text);
      if project.None? {
        problems := problems + [SourceError(SourcePath(r), CannotProject)];
        continue;
      }
      table := table + project.value;
    }
    assert roles[..|roles|] == roles;
  }

  function Written(files: map<string, string>, table: seq<Artifact>): map<string, string> {
    if table == [] then files
    else
      var last := table[|table| - 1];
      Written(files, table[..|table| - 1])[last.path := last.content]
  }

  datatype Generated = Done | BadSources(problems: seq<SourceError>) | CannotWrite(path: string)

  // How far the files were written before the one that could not be.
  ghost predicate StoppedAt(table: seq<Artifact>, n: nat, path: string, unwritable: set<string>,
                            before: map<string, string>, after: map<string, string>)
  {
    && n < |table| && table[n].path == path && path in unwritable
    && (forall i :: 0 <= i < n ==> table[i].path !in unwritable)
    && after - {path} == Written(before, table[..n]) - {path}
  }

  method Generate(roles: seq<Role>, repo: Repo) returns (r: Generated)
    modifies repo
    ensures var problems := Problems(roles, old(repo.files), repo.unreadable);
            r.BadSources? <==> problems != []
    ensures r.BadSources? ==>
              r.problems == Problems(roles, old(repo.files), repo.unreadable) && repo.files == old(repo.files)
    ensures r.Done? ==> repo.files == Written(old(repo.files), Table(roles, old(repo.files), repo.unreadable))
    ensures r.CannotWrite? ==> exists n: nat ::
              StoppedAt(Table(roles, old(repo.files), repo.unreadable), n, r.path, repo.unwritable, old(repo.files),
                  repo.files)
  {
    var table, problems := Build(roles, repo);
    hide Table, Problems;
    if problems != [] { return BadSources(problems); }
    for i := 0 to |table|
      invariant repo.files == Written(old(repo.files), table[..i])
      invariant forall j :: 0 <= j < i ==> table[j].path !in repo.unwritable
    {
      var ok := repo.WriteFile(table[i].path, table[i].content);
      if !ok {
        assert StoppedAt(table, i, table[i].path, repo.unwritable, old(repo.files), repo.files);
        return CannotWrite(table[i].path);
      }
      assert table[..i + 1][..i] == table[..i];
    }
    assert table[..|table|] == table;
    return Done;
  }

  datatype Complaint =
    | ArtifactMissing(path: string)
    | ArtifactUnreadable(path: string)
    | Stale(path: string)
    | Source(error: SourceError)

  function Complains(a: Artifact, files: map<string, string>, unreadable: set<string>): seq<Complaint> {
    match ReadAt(files, unreadable, a.path)
    case Missing => [ArtifactMissing(a.path)]
    case Unreadable => [ArtifactUnreadable(a.path)]
    case Content(text) => if text != a.content then [Stale(a.path)] else []
  }

  function AllComplaints(table: seq<Artifact>, files: map<string, string>, unreadable: set<string>): seq<Complaint> {
    if table == [] then []
    else AllComplaints(table[..|table| - 1], files, unreadable) + Complains(table[|table| - 1], files, unreadable)
  }

  method Check(roles: seq<Role>, repo: Repo) returns (errs: seq<Complaint>)
    ensures var problems := Problems(roles, repo.files, repo.unreadable);
            errs == AllComplaints(Table(roles, repo.files, repo.unreadable), repo.files, repo.unreadable)
                  + seq(|problems|, i requires 0 <= i < |problems| => Source(problems[i]))
  {
    var table, problems := Build(roles, repo);
    hide Table, Problems;
    errs := [];
    for i := 0 to |table|
      invariant errs == AllComplaints(table[..i], repo.files, repo.unreadable)
    {
      var a := table[i];
      assert table[..i + 1][..i] == table[..i];
      var committed := repo.ReadFile(a.path);
      if !committed.Content? {
        errs := errs + [if committed.Missing? then ArtifactMissing(a.path) else ArtifactUnreadable(a.path)];
        continue;
      }
      if committed.text != a.content { errs := errs + [Stale(a.path)]; }
    }
    assert table[..|table|] == table;
    ghost var stale := errs;
    for i := 0 to |problems|
      invariant errs == stale + seq(i, k requires 0 <= k < i => Source(problems[k]))
    {
      errs := errs + [Source(problems[i])];
    }
  }

  // --- what Check says after Generate ---

  ghost predicate DistinctNames(roles: seq<Role>) {
    forall i, j :: 0 <= i < j < |roles| ==> roles[i].name != roles[j].name
  }

  ghost predicate PathOf(name: string, path: string) {
    path == "agents/" + name + ".md" || path == "pi/agents/" + name + ".md" || path == "codex/agents/" + name + ".toml"
  }

  lemma PathsOfOtherNamesDiffer(a: string, b: string, path: string)
    requires PathOf(a, path) && PathOf(b, path)
    ensures a == b
  {
    if path[0] == 'a' {
      assert path[7..|path| - 3] == a && path[7..|path| - 3] == b;
    } else if path[0] == 'p' {
      assert path[10..|path| - 3] == a && path[10..|path| - 3] == b;
    } else {
      assert path[13..|path| - 5] == a && path[13..|path| - 5] == b;
    }
  }

  lemma ProjectPaths(r: Role, source: string)
    requires Project(r, source).Some?
    ensures var p := Project(r, source).value;
            && |p| == 3
            && (forall i :: 0 <= i < 3 ==> PathOf(r.name, p[i].path) && p[i].path != "" && p[i].path[0] != 'r')
            && p[0].path != p[1].path && p[0].path != p[2].path && p[1].path != p[2].path
  {
    var p := Project(r, source).value;
    assert p[0].path[0] == 'a' && p[1].path[0] == 'p' && p[2].path[0] == 'c';
  }

  ghost predicate DistinctPaths(table: seq<Artifact>) {
    forall i, j :: 0 <= i < j < |table| ==> table[i].path != table[j].path
  }

  // Every artifact is of one of the roles.
  ghost predicate OfRoles(table: seq<Artifact>, roles: seq<Role>) {
    forall a :: a in table ==> a.path != "" && a.path[0] != 'r' && exists r :: r in roles && PathOf(r.name, a.path)
  }

  lemma AddRole(front: seq<Role>, r: Role, before: seq<Artifact>, more: seq<Artifact>)
    requires DistinctNames(front + [r]) && DistinctPaths(before) && DistinctPaths(more)
    requires OfRoles(before, front) && OfRoles(more, [r])
    ensures DistinctPaths(before + more) && OfRoles(before + more, front + [r])
  {
    hide PathOf;
    forall a, b | a in before && b in more
      ensures a.path != b.path
    {
      var s :| s in front && PathOf(s.name, a.path);
      var k :| 0 <= k < |front| && front[k] == s;
      assert (front + [r])[k] == s && (front + [r])[|front|] == r;
      assert PathOf(r.name, b.path);
      if a.path == b.path { PathsOfOtherNamesDiffer(s.name, r.name, a.path); }
    }
  }

  lemma BuiltPaths(r: Role, files: map<string, string>, unreadable: set<string>)
    requires BuildOne(r, files, unreadable).Files?
    ensures var more := BuildOne(r, files, unreadable).files; DistinctPaths(more) && OfRoles(more, [r])
  {
    var more := BuildOne(r, files, unreadable).files;
    BuiltIsProjected(r, files, unreadable);
    hide *;
    ProjectPaths(r, files[SourcePath(r)]);
    ThreePaths(r, more);
  }

  lemma BuiltIsProjected(r: Role, files: map<string, string>, unreadable: set<string>)
    requires BuildOne(r, files, unreadable).Files?
    ensures SourcePath(r) in files && Project(r, files[SourcePath(r)]).Some?
    ensures Project(r, files[SourcePath(r)]).value == BuildOne(r, files, unreadable).files
  {
    hide Project, SourcePath;
  }

  lemma ThreePaths(r: Role, more: seq<Artifact>)
    requires |more| == 3 && forall i :: 0 <= i < 3 ==>
               more[i].path != "" && more[i].path[0] != 'r' && PathOf(r.name, more[i].path)
    requires more[0].path != more[1].path && more[0].path != more[2].path && more[1].path != more[2].path
    ensures DistinctPaths(more) && OfRoles(more, [r])
  {
    hide PathOf;
    assert r in [r];
    forall a | a in more
      ensures a.path != "" && a.path[0] != 'r' && PathOf(r.name, a.path)
    {
      var i :| 0 <= i < |more| && more[i] == a;
    }
  }

  // No two artifacts have one path.
  lemma {:induction false} TablePaths(roles: seq<Role>, files: map<string, string>, unreadable: set<string>)
    requires DistinctNames(roles)
    ensures DistinctPaths(Table(roles, files, unreadable)) && OfRoles(Table(roles, files, unreadable), roles)
  {
    if roles != [] {
      var front, r := roles[..|roles| - 1], roles[|roles| - 1];
      var one := BuildOne(r, files, unreadable);
      TablePaths(front, files, unreadable);
      assert roles == front + [r];
      if one.Files? {
        BuiltPaths(r, files, unreadable);
        hide BuildOne, OfRoles, DistinctPaths, DistinctNames;
        AddRole(front, r, Table(front, files, unreadable), one.files);
      }
    }
  }

  // What is not the path of an artifact is as it was, and each artifact is in place.
  lemma {:induction false} WrittenFiles(files: map<string, string>, table: seq<Artifact>)
    requires DistinctPaths(table)
    ensures var after := Written(files, table);
            && (forall a :: a in table ==> a.path in after && after[a.path] == a.content)
            && forall path :: (forall a :: a in table ==> a.path != path) ==>
                                (path in after <==> path in files) && (path in files ==> after[path] == files[path])
  {
    if table != [] {
      var n := |table| - 1;
      WrittenFiles(files, table[..n]);
      assert table == table[..n] + [table[n]];
      forall a | a in table[..n]
        ensures a.path != table[n].path
      {
      }
    }
  }

  // The sources are not among the artifacts, so writing the artifacts changes nothing that is built from them.
  lemma {:induction false} BuildsTheSame(roles: seq<Role>, files: map<string, string>, after: map<string, string>,
          unreadable: set<string>)
    requires forall r :: r in roles ==>
              ReadAt(after, unreadable, SourcePath(r)) == ReadAt(files, unreadable, SourcePath(r))
    ensures Table(roles, after, unreadable) == Table(roles, files, unreadable)
    ensures Problems(roles, after, unreadable) == Problems(roles, files, unreadable)
  {
    hide ReadAt, Project, SourcePath;
    if roles != [] { BuildsTheSame(roles[..|roles| - 1], files, after, unreadable); }
  }

  lemma {:induction false} OnlyUnreadable(table: seq<Artifact>, files: map<string, string>, unreadable: set<string>)
    requires forall a :: a in table ==> a.path in files && files[a.path] == a.content
    ensures AllComplaints(table, files, unreadable) == [] <==> forall a :: a in table ==> a.path !in unreadable
    ensures forall c :: c in AllComplaints(table, files, unreadable) ==> c.ArtifactUnreadable? && c.path in unreadable
  {
    if table != [] {
      var n := |table| - 1;
      assert table == table[..n] + [table[n]];
      OnlyUnreadable(table[..n], files, unreadable);
    }
  }

  lemma SourcesUntouched(roles: seq<Role>, files: map<string, string>, unreadable: set<string>)
    requires DistinctNames(roles)
    ensures var after := Written(files, Table(roles, files, unreadable));
            forall r :: r in roles ==>
              ReadAt(after, unreadable, SourcePath(r)) == ReadAt(files, unreadable, SourcePath(r))
  {
    TablePaths(roles, files, unreadable);
    var table := Table(roles, files, unreadable);
    hide Table, Written, OfRoles, DistinctPaths, DistinctNames, SourcePath;
    WrittenFiles(files, table);
    forall r | r in roles
      ensures ReadAt(Written(files, table), unreadable, SourcePath(r)) == ReadAt(files, unreadable, SourcePath(r))
    {
      NoSourceIsAnArtifact(table, roles, r);
    }
  }

  lemma NoSourceIsAnArtifact(table: seq<Artifact>, roles: seq<Role>, r: Role)
    requires OfRoles(table, roles)
    ensures forall a :: a in table ==> a.path != SourcePath(r)
  {
    hide PathOf;
    assert SourcePath(r)[0] == 'r';
  }

  lemma WrittenTwice(files: map<string, string>, table: seq<Artifact>)
    requires DistinctPaths(table)
    ensures Written(Written(files, table), table) == Written(files, table)
  {
    var after := Written(files, table);
    var again := Written(after, table);
    WrittenFiles(files, table);
    WrittenFiles(after, table);
    hide Written, DistinctPaths;
    forall path | path in after || path in again
      ensures path in after && path in again && after[path] == again[path]
    {
      if a :| a in table && a.path == path {}
    }
    assert after == again;
  }

  /** After a Generate that succeeded, Check finds the same table from the sources, no bad source, and complains of an
      artifact if and only if it cannot be read; and generating again changes no file. */
  lemma GenerateThenCheck(roles: seq<Role>, files: map<string, string>, unreadable: set<string>)
    requires DistinctNames(roles) && Problems(roles, files, unreadable) == []
    ensures var table := Table(roles, files, unreadable);
            var after := Written(files, table);
            && Table(roles, after, unreadable) == table && Problems(roles, after, unreadable) == []
            && (AllComplaints(table, after, unreadable) == [] <==> forall a :: a in table ==> a.path !in unreadable)
            && Written(after, table) == after
  {
    SourcesUntouched(roles, files, unreadable);
    TablePaths(roles, files, unreadable);
    var table := Table(roles, files, unreadable);
    hide Table, Problems, Written, SourcePath, ReadAt, AllComplaints, DistinctPaths;
    var after := Written(files, table);
    BuildsTheSame(roles, files, after, unreadable);
    WrittenFiles(files, table);
    OnlyUnreadable(table, after, unreadable);
    WrittenTwice(files, table);
  }

  // --- what the table and the complaints say ---

  ghost predicate IsGood(r: Role, files: map<string, string>, unreadable: set<string>) {
    var source := "roles/" + r.name + "/body.md";
    source in files && source !in unreadable && Project(r, files[source]).Some?
  }

  function WhatIsWrong(r: Role, files: map<string, string>, unreadable: set<string>): SourceError {
    var source := "roles/" + r.name + "/body.md";
    SourceError(source,
                if source in unreadable then CannotRead else if source !in files then SourceMissing else CannotProject)
  }

  lemma GoodIsBuilt(r: Role, files: map<string, string>, unreadable: set<string>)
    ensures IsGood(r, files, unreadable) <==> BuildOne(r, files, unreadable).Files?
    ensures IsGood(r, files, unreadable) ==>
              BuildOne(r, files, unreadable).files == Project(r, files["roles/" + r.name + "/body.md"]).value
    ensures !IsGood(r, files, unreadable) ==>
              BuildOne(r, files, unreadable) == Failed(WhatIsWrong(r, files, unreadable))
  {
    hide Project;
  }

  /** The problems are those of the roles whose source is missing, cannot be read or cannot be projected, each with its
      reason, and the table holds the projected files of each other role. */
  lemma {:induction false} TableOfGoodSources(roles: seq<Role>, files: map<string, string>, unreadable: set<string>)
    ensures Problems(roles, files, unreadable) == [] <==> forall r :: r in roles ==> IsGood(r, files, unreadable)
    ensures forall e :: e in Problems(roles, files, unreadable) <==>
              exists r :: r in roles && !IsGood(r, files, unreadable) && e == WhatIsWrong(r, files, unreadable)
    ensures forall a :: a in Table(roles, files, unreadable) <==>
              exists r :: r in roles && IsGood(r, files, unreadable) &&
                          a in Project(r, files["roles/" + r.name + "/body.md"]).value
  {
    if roles != [] {
      var front, r := roles[..|roles| - 1], roles[|roles| - 1];
      TableOfGoodSources(front, files, unreadable);
      GoodIsBuilt(r, files, unreadable);
      hide IsGood, BuildOne, Project;
      assert roles == front + [r];
    }
  }

  /** After a Generate that succeeded each role has its three files in place, projected from its source. */
  lemma GeneratedFiles(roles: seq<Role>, files: map<string, string>, unreadable: set<string>, r: Role, k: nat)
    requires DistinctNames(roles) && Problems(roles, files, unreadable) == [] && r in roles && k < 3
    ensures IsGood(r, files, unreadable)
    ensures var a := Project(r, files["roles/" + r.name + "/body.md"]).value;
            var after := Written(files, Table(roles, files, unreadable));
            |a| == 3 && a[k].path in after && after[a[k].path] == a[k].content
  {
    TableOfGoodSources(roles, files, unreadable);
    assert IsGood(r, files, unreadable);
    hide Problems, Table, Written, DistinctNames, Project;
    var source := files["roles/" + r.name + "/body.md"];
    ProjectPaths(r, source);
    TablePaths(roles, files, unreadable);
    WrittenFiles(files, Table(roles, files, unreadable));
    assert Project(r, source).value[k] in Project(r, source).value;
  }

  /** Each complaint is true, and each artifact that is not as it was built has its own. */
  lemma {:induction false} ComplaintsAreTrue(table: seq<Artifact>, files: map<string, string>, unreadable: set<string>)
    ensures forall c: Complaint :: c in AllComplaints(table, files, unreadable) <==>
              exists a :: a in table && c ==
                (if a.path in unreadable then ArtifactUnreadable(a.path)
                 else if a.path !in files then ArtifactMissing(a.path)
                 else Stale(a.path))
                && (a.path in unreadable || a.path !in files || files[a.path] != a.content)
  {
    if table != [] {
      var n := |table| - 1;
      ComplaintsAreTrue(table[..n], files, unreadable);
      assert table == table[..n] + [table[n]];
    }
  }
}
