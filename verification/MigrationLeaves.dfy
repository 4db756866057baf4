/** The leaf check of an app's migrations (scripts/check_migration_conflicts.py, `_leaf_migrations`, `_check_app`). */
module MigrationLeaves {
  datatype MigrationFile = MigrationFile(appLabel: string, name: string, number: nat)
  datatype Dependency = Dependency(app: string, name: string)
  type Dependencies = map<string, seq<Dependency>>

  function AppLabel(files: seq<MigrationFile>): string { if files == [] then "" else files[0].appLabel }

  /** Some listed migration depends on the local migration `name`. */
  predicate PointedTo(app: string, deps: Dependencies, name: string) {
    exists m :: m in deps && Dependency(app, name) in deps[m]
  }

  function Unpointed(files: seq<MigrationFile>, app: string, deps: Dependencies): seq<MigrationFile> {
    if files == [] then []
    else (if PointedTo(app, deps, files[0].name) then [] else [files[0]]) + Unpointed(files[1..], app, deps)
  }

  method LocalNames(app: string, dependencies: seq<Dependency>) returns (names: set<string>)
    ensures forall n :: n in names <==> Dependency(app, n) in dependencies
  {
    names := {};
    for i := 0 to |dependencies|
      invariant forall n :: n in names <==> Dependency(app, n) in dependencies[..i]
    {
      if dependencies[i].app == app { names := names + {dependencies[i].name}; }
    }
    assert dependencies[..|dependencies|] == dependencies;
  }

  /** The first loop of `_leaf_migrations`. */
  method PointedToNames(app: string, deps: Dependencies) returns (pointedTo: set<string>)
    ensures forall n :: n in pointedTo <==> PointedTo(app, deps, n)
  {
    pointedTo := {};
    var keys := deps.Keys;
    while keys != {}
      invariant keys <= deps.Keys
      invariant forall n :: n in pointedTo ==> PointedTo(app, deps, n)
      invariant forall m, n :: m in deps && m !in keys && Dependency(app, n) in deps[m] ==> n in pointedTo
      decreases |keys|
    {
      var m :| m in keys;
      var names := LocalNames(app, deps[m]);
      assert forall n :: n in names ==> PointedTo(app, deps, n);
      pointedTo := pointedTo + names;
      keys := keys - {m};
    }
  }

  lemma {:induction false} UnpointedStep(files: seq<MigrationFile>, i: nat, app: string, deps: Dependencies,
                                         leaves: seq<MigrationFile>)
    requires i < |files|
    ensures leaves + Unpointed(files[i..], app, deps) ==
            (if PointedTo(app, deps, files[i].name) then leaves else leaves + [files[i]]) +
            Unpointed(files[i + 1..], app, deps)
  {
    assert files[i..][1..] == files[i + 1..];
  }

  /** `_leaf_migrations`: the files nothing local depends on, in order. */
  method LeafMigrations(files: seq<MigrationFile>, deps: Dependencies) returns (leaves: seq<MigrationFile>)
    ensures leaves == Unpointed(files, AppLabel(files), deps)
  {
    var app := if files != [] then files[0].appLabel else "";
    var pointedTo := PointedToNames(app, deps);
    leaves := [];
    assert files[0..] == files;
    for i := 0 to |files|
      invariant leaves + Unpointed(files[i..], app, deps) == Unpointed(files, app, deps)
    {
      UnpointedStep(files, i, app, deps, leaves);
      if files[i].name !in pointedTo { leaves := leaves + [files[i]]; }
    }
  }

  /** The leaf part of `_check_app`: is there an error to report? */
  method CheckLeaves(files: seq<MigrationFile>, deps: Dependencies) returns (duplicate: bool)
    ensures duplicate <==> |Unpointed(files, AppLabel(files), deps)| > 1
  {
    if files == [] { return false; }
    var leaves := LeafMigrations(files, deps);
    duplicate := |leaves| > 1;
  }

  // ----- One leaf is one head ----------------------------------------------

  /** A chain of dependencies: each migration depends on the next. */
  ghost predicate Chain(app: string, deps: Dependencies, path: seq<string>) {
    && path != []
    && forall i :: 0 <= i < |path| - 1 ==> path[i] in deps && Dependency(app, path[i + 1]) in deps[path[i]]
  }

  ghost predicate Reaches(app: string, deps: Dependencies, from: string, to: string) {
    exists path :: Chain(app, deps, path) && path[0] == from && path[|path| - 1] == to
  }

  ghost predicate Acyclic(app: string, deps: Dependencies) {
    forall path :: Chain(app, deps, path) && |path| > 1 ==> path[0] != path[|path| - 1]
  }

  function Names(files: seq<MigrationFile>): set<string> { set i | 0 <= i < |files| :: files[i].name }

  ghost predicate DistinctNames(files: seq<MigrationFile>) {
    forall i, j :: 0 <= i < j < |files| ==> files[i].name != files[j].name
  }

  /** One entry for each file, of one app, no name twice, and every local dependency resolves without a cycle. */
  ghost predicate WellFormed(files: seq<MigrationFile>, deps: Dependencies) {
    var app := AppLabel(files);
    && DistinctNames(files) && deps.Keys == Names(files)
    && (forall m, d :: m in deps && d in deps[m] && d.app == app ==> d.name in deps)
    && Acyclic(app, deps)
  }

  /** The migration everything else builds on: it reaches all of them. */
  ghost predicate IsHead(files: seq<MigrationFile>, deps: Dependencies, head: string) {
    && head in Names(files)
    && forall n :: n in Names(files) ==> Reaches(AppLabel(files), deps, head, n)
  }

  lemma {:induction false} UnpointedAre(files: seq<MigrationFile>, app: string, deps: Dependencies)
    ensures forall m :: m in Unpointed(files, app, deps) <==> m in files && !PointedTo(app, deps, m.name)
  {
    if files != [] { UnpointedAre(files[1..], app, deps); }
  }

  lemma {:induction false} UnpointedDistinct(files: seq<MigrationFile>, app: string, deps: Dependencies)
    requires DistinctNames(files)
    ensures DistinctNames(Unpointed(files, app, deps))
  {
    if files != [] {
      var rest := Unpointed(files[1..], app, deps);
      UnpointedDistinct(files[1..], app, deps);
      UnpointedAre(files[1..], app, deps);
      forall j | 0 <= j < |rest| ensures rest[j].name != files[0].name {
        assert rest[j] in rest;
        var k :| 0 <= k < |files[1..]| && files[1..][k] == rest[j];
        assert files[k + 1] == rest[j];
      }
    }
  }

  /** In an acyclic app a chain never meets a migration twice. */
  lemma {:induction false} ChainIsDistinct(app: string, deps: Dependencies, path: seq<string>, i: nat, j: nat)
    requires Acyclic(app, deps) && Chain(app, deps, path) && i < j < |path|
    ensures path[i] != path[j]
  {
    var part := path[i..j + 1];
    assert Chain(app, deps, part) by {
      forall k | 0 <= k < |part| - 1 ensures part[k] in deps && Dependency(app, part[k + 1]) in deps[part[k]] {
        assert part[k] == path[i + k] && part[k + 1] == path[i + k + 1];
      }
    }
    assert part[0] == path[i] && part[|part| - 1] == path[j];
  }

  lemma {:induction false} DistinctFit(path: seq<string>, names: set<string>)
    requires forall i, j :: 0 <= i < j < |path| ==> path[i] != path[j]
    requires forall i :: 0 <= i < |path| ==> path[i] in names
    ensures |path| <= |names|
  {
    if path != [] {
      var n := |path| - 1;
      DistinctFit(path[..n], names - {path[n]});
    }
  }

  /** Going up from any migration, against its dependents, ends at a leaf. */
  lemma {:induction false} Climb(app: string, deps: Dependencies, path: seq<string>) returns (leaf: string)
    requires Acyclic(app, deps) && Chain(app, deps, path)
    requires forall i :: 0 <= i < |path| ==> path[i] in deps
    ensures leaf in deps && !PointedTo(app, deps, leaf) && Reaches(app, deps, leaf, path[|path| - 1])
    decreases |deps.Keys| - |path|
  {
    forall i, j | 0 <= i < j < |path| ensures path[i] != path[j] { ChainIsDistinct(app, deps, path, i, j); }
    DistinctFit(path, deps.Keys);
    if PointedTo(app, deps, path[0]) {
      var m :| m in deps && Dependency(app, path[0]) in deps[m];
      var longer := [m] + path;
      assert Chain(app, deps, longer);
      forall i, j | 0 <= i < j < |longer| ensures longer[i] != longer[j] { ChainIsDistinct(app, deps, longer, i, j); }
      DistinctFit(longer, deps.Keys);
      leaf := Climb(app, deps, longer);
    } else {
      leaf := path[0];
    }
  }

  /** Every migration is reached from some leaf. */
  lemma {:induction false} LeafAbove(files: seq<MigrationFile>, deps: Dependencies, name: string)
    returns (leaf: MigrationFile)
    requires WellFormed(files, deps) && name in Names(files)
    ensures leaf in Unpointed(files, AppLabel(files), deps) && Reaches(AppLabel(files), deps, leaf.name, name)
  {
    var app := AppLabel(files);
    assert Chain(app, deps, [name]);
    var top := Climb(app, deps, [name]);
    UnpointedAre(files, app, deps);
    var i :| 0 <= i < |files| && files[i].name == top;
    leaf := files[i];
  }

  /** What is reached from elsewhere is pointed to. */
  lemma {:induction false} ReachedIsPointedTo(app: string, deps: Dependencies, from: string, to: string)
    requires Reaches(app, deps, from, to) && from != to
    ensures PointedTo(app, deps, to)
  {
    var path :| Chain(app, deps, path) && path[0] == from && path[|path| - 1] == to;
    assert path[|path| - 2] in deps && Dependency(app, path[|path| - 2 + 1]) in deps[path[|path| - 2]];
  }

  lemma {:induction false} LeafIsNamed(files: seq<MigrationFile>, deps: Dependencies, leaf: MigrationFile)
    requires leaf in Unpointed(files, AppLabel(files), deps)
    ensures leaf.name in Names(files)
  {
    UnpointedAre(files, AppLabel(files), deps);
    var i :| 0 <= i < |files| && files[i] == leaf;
    assert files[i].name in Names(files);
  }

  /** The only leaf reaches everything. */
  lemma {:induction false} OnlyLeafIsHead(files: seq<MigrationFile>, deps: Dependencies)
    requires WellFormed(files, deps) && |Unpointed(files, AppLabel(files), deps)| == 1
    ensures IsHead(files, deps, Unpointed(files, AppLabel(files), deps)[0].name)
  {
    var leaves := Unpointed(files, AppLabel(files), deps);
    var head := leaves[0];
    LeafIsNamed(files, deps, head);
    forall n | n in Names(files) ensures Reaches(AppLabel(files), deps, head.name, n) {
      var leaf := LeafAbove(files, deps, n);
      assert leaf == head by { var i :| 0 <= i < |leaves| && leaves[i] == leaf; }
    }
  }

  /** What reaches everything is the only leaf. */
  lemma {:induction false} HeadIsOnlyLeaf(files: seq<MigrationFile>, deps: Dependencies, head: string,
                                          leaf: MigrationFile)
    requires WellFormed(files, deps) && IsHead(files, deps, head) && leaf in Unpointed(files, AppLabel(files), deps)
    ensures leaf.name == head
  {
    UnpointedAre(files, AppLabel(files), deps);
    LeafIsNamed(files, deps, leaf);
    if leaf.name != head { ReachedIsPointedTo(AppLabel(files), deps, head, leaf.name); }
  }

  /**
   A non-empty app has a leaf, and exactly one if and only if some migration
   reaches every other; that migration is then the leaf.
   */
  lemma {:induction false} OneLeafIffHead(files: seq<MigrationFile>, deps: Dependencies)
    requires WellFormed(files, deps) && files != []
    ensures var leaves := Unpointed(files, AppLabel(files), deps);
            && leaves != []
            && (|leaves| == 1 <==> exists head :: IsHead(files, deps, head))
            && forall head :: IsHead(files, deps, head) ==> leaves[0].name == head
  {
    var app := AppLabel(files);
    var leaves := Unpointed(files, app, deps);
    assert files[0].name in Names(files);
    var first := LeafAbove(files, deps, files[0].name);
    if |leaves| == 1 { OnlyLeafIsHead(files, deps); }
    UnpointedDistinct(files, app, deps);
    forall head | IsHead(files, deps, head) ensures |leaves| == 1 && leaves[0].name == head {
      HeadIsOnlyLeaf(files, deps, head, leaves[0]);
      if |leaves| > 1 { HeadIsOnlyLeaf(files, deps, head, leaves[1]); }
    }
  }
}
