/** Publishing an admitted set: the staged tree never collides, and the destination sees all of it or nothing. */
module Publication {
  import opened Bytes
  import opened ArtifactPaths
  import opened Artifacts

  /** A directory tree: files and directories by the key under which the file system knows them. */
  datatype Tree = Tree(files: map<string, seq<byte>>, dirs: set<string>)

  const EMPTY := Tree(map[], {})

  predicate Exists(t: Tree, key: string) {
    key in t.files || key in t.dirs
  }

  /** A case-insensitive file system does not tell paths apart that differ only in ASCII case. */
  function Key(insensitive: bool, path: string): string {
    if insensitive then Fold(path) else path
  }

  // ----- what a published set should look like

  ghost function Files(insensitive: bool, artifacts: seq<Artifact>): map<string, seq<byte>> {
    if artifacts == [] then map[] else
      var last := artifacts[|artifacts| - 1];
      Files(insensitive, artifacts[..|artifacts| - 1])[Key(insensitive, last.path) := last.bytes]
  }

  /** The directories on the way to a file, up to position `n` of its path. */
  ghost function DirsTo(insensitive: bool, path: string, n: nat): set<string>
    requires n <= |path|
  {
    set k | 0 <= k < n && path[k] == '/' :: Key(insensitive, path[..k])
  }

  ghost function Dirs(insensitive: bool, artifacts: seq<Artifact>): set<string> {
    if artifacts == [] then {} else
      var last := artifacts[|artifacts| - 1];
      Dirs(insensitive, artifacts[..|artifacts| - 1]) + DirsTo(insensitive, last.path, |last.path|)
  }

  ghost function TreeOf(insensitive: bool, artifacts: seq<Artifact>): Tree {
    Tree(Files(insensitive, artifacts), Dirs(insensitive, artifacts))
  }

  /** What construction and admission promise about the paths. */
  ghost predicate Portable(artifacts: seq<Artifact>) {
    AllValid(artifacts) && UniqueFolded(artifacts) && NoneBlocked(artifacts)
  }

  lemma {:induction false} FilesMember(insensitive: bool, artifacts: seq<Artifact>, key: string)
    ensures key in Files(insensitive, artifacts) <==>
            exists i :: 0 <= i < |artifacts| && Key(insensitive, artifacts[i].path) == key
  {
    if artifacts != [] {
      var n := |artifacts| - 1;
      FilesMember(insensitive, artifacts[..n], key);
      if key in Files(insensitive, artifacts) {
        if key == Key(insensitive, artifacts[n].path) {
        } else {
          var i :| 0 <= i < n && Key(insensitive, artifacts[..n][i].path) == key;
          assert Key(insensitive, artifacts[i].path) == key;
        }
      }
      if i :| 0 <= i < |artifacts| && Key(insensitive, artifacts[i].path) == key {
        if i < n { assert Key(insensitive, artifacts[..n][i].path) == key; }
      }
    }
  }

  lemma {:induction false} DirsMember(insensitive: bool, artifacts: seq<Artifact>, key: string)
    ensures key in Dirs(insensitive, artifacts) ==>
            exists i :: 0 <= i < |artifacts| && key in DirsTo(insensitive, artifacts[i].path, |artifacts[i].path|)
  {
    if artifacts != [] {
      var n := |artifacts| - 1;
      DirsMember(insensitive, artifacts[..n], key);
      if key in Dirs(insensitive, artifacts[..n]) {
        var i :| 0 <= i < n && key in DirsTo(insensitive, artifacts[..n][i].path, |artifacts[..n][i].path|);
        assert key in DirsTo(insensitive, artifacts[i].path, |artifacts[i].path|);
      }
    }
  }

  /** On either kind of file system no directory of a portable set has the key of one of its files. */
  lemma DirectoryIsNoFile(insensitive: bool, artifacts: seq<Artifact>, x: Artifact, y: Artifact, k: nat)
    requires NoneBlocked(artifacts) && x in artifacts && y in artifacts
    requires k < |y.path| && y.path[k] == '/'
    ensures Key(insensitive, y.path[..k]) != Key(insensitive, x.path)
  {
    assert !Blocks(x.path, y.path);
  }

  lemma LastIsNew(insensitive: bool, artifacts: seq<Artifact>)
    requires UniqueFolded(artifacts) && artifacts != []
    ensures var n := |artifacts| - 1;
            UniqueFolded(artifacts[..n]) && Key(insensitive, artifacts[n].path) !in Files(insensitive, artifacts[..n])
  {
    var n := |artifacts| - 1;
    FilesMember(insensitive, artifacts[..n], Key(insensitive, artifacts[n].path));
    assert forall j :: 0 <= j < n ==> artifacts[..n][j] == artifacts[j];
  }

  lemma {:induction false} FilesCount(insensitive: bool, artifacts: seq<Artifact>)
    requires UniqueFolded(artifacts)
    ensures |Files(insensitive, artifacts)| == |artifacts|
    decreases |artifacts|
  {
    if artifacts != [] {
      var n := |artifacts| - 1;
      var before, key := Files(insensitive, artifacts[..n]), Key(insensitive, artifacts[n].path);
      LastIsNew(insensitive, artifacts);
      FilesCount(insensitive, artifacts[..n]);
      assert Files(insensitive, artifacts).Keys == before.Keys + {key};
    }
  }

  lemma {:induction false} FileBytes(insensitive: bool, artifacts: seq<Artifact>, i: nat)
    requires UniqueFolded(artifacts) && i < |artifacts|
    ensures Key(insensitive, artifacts[i].path) in Files(insensitive, artifacts)
    ensures Files(insensitive, artifacts)[Key(insensitive, artifacts[i].path)] == artifacts[i].bytes
    decreases |artifacts|
  {
    var n := |artifacts| - 1;
    if i < n {
      LastIsNew(insensitive, artifacts);
      FileBytes(insensitive, artifacts[..n], i);
    }
  }

  /**
   * The tree of an admitted set holds every file with its bytes under a key of its own, nothing
   * else as a file, and no key both as a file and as a directory.
   */
  lemma TreeHoldsExactly(insensitive: bool, artifacts: seq<Artifact>)
    requires Portable(artifacts)
    ensures var t := TreeOf(insensitive, artifacts);
            && |t.files| == |artifacts|
            && (forall x :: x in artifacts ==>
                  Key(insensitive, x.path) in t.files && t.files[Key(insensitive, x.path)] == x.bytes)
            && t.files.Keys !! t.dirs
  {
    var t := TreeOf(insensitive, artifacts);
    FilesCount(insensitive, artifacts);
    forall x | x in artifacts ensures Key(insensitive, x.path) in t.files && t.files[Key(insensitive, x.path)] == x.bytes {
      var i :| 0 <= i < |artifacts| && artifacts[i] == x;
      FileBytes(insensitive, artifacts, i);
    }
    forall key | key in t.dirs ensures key !in t.files {
      NotBoth(insensitive, artifacts, key);
    }
  }

  lemma NotBoth(insensitive: bool, artifacts: seq<Artifact>, key: string)
    requires NoneBlocked(artifacts) && key in Dirs(insensitive, artifacts)
    ensures key !in Files(insensitive, artifacts)
  {
    DirsMember(insensitive, artifacts, key);
    FilesMember(insensitive, artifacts, key);
    var j :| 0 <= j < |artifacts| && key in DirsTo(insensitive, artifacts[j].path, |artifacts[j].path|);
    var k :| 0 <= k < |artifacts[j].path| && artifacts[j].path[k] == '/' && Key(insensitive, artifacts[j].path[..k]) == key;
    forall i | 0 <= i < |artifacts| ensures Key(insensitive, artifacts[i].path) != key {
      assert artifacts[i] in artifacts && artifacts[j] in artifacts;
      DirectoryIsNoFile(insensitive, artifacts, artifacts[i], artifacts[j], k);
    }
  }

  /** Every set the composer returns can be published. */
  lemma AdmittedIsPortable(artifacts: seq<Artifact>, limits: Limits, digest: seq<byte> -> seq<byte>)
    requires Admissible(artifacts, limits, digest) && AllValid(artifacts)
    ensures Portable(Sort(artifacts)) && forall x :: x in Sort(artifacts) ==> digest(x.bytes) == x.sha256
  {
    SortPermutes(artifacts);
    SameUnique(artifacts, Sort(artifacts));
    SameBlocked(artifacts, Sort(artifacts));
    SameMembers(artifacts, Sort(artifacts));
  }

  // ----- the directories on the way

  /** The directories that the first `n` components name, one below the other. */
  ghost function FirstDirs(insensitive: bool, components: seq<string>, n: nat): set<string>
    requires n <= |components|
  {
    set i | 0 < i <= n :: Key(insensitive, Joined(components[..i]))
  }

  lemma FirstDirsStep(insensitive: bool, components: seq<string>, n: nat)
    requires n < |components|
    ensures FirstDirs(insensitive, components, n + 1)
            == FirstDirs(insensitive, components, n) + {Key(insensitive, Joined(components[..n + 1]))}
  {}

  /** A relative path with one more component. */
  function Push(current: string, component: string): string {
    if current == [] then component else current + ['/'] + component
  }

  lemma PushStep(components: seq<string>, n: nat)
    requires n < |components| && components[0] != []
    ensures Joined(components[..n + 1]) == Push(Joined(components[..n]), components[n])
  {
    assert components[..n + 1][..n] == components[..n];
    assert components[..n + 1][n] == components[n];
    if n == 1 { assert components[..1] == [components[0]]; }
    if n > 1 { assert components[..n][..n - 1] == components[..n - 1]; }
  }

  lemma FirstDirsOnTheWay(insensitive: bool, path: string, components: seq<string>, n: nat)
    requires components == Segments(path) && n < |components|
    ensures FirstDirs(insensitive, components, n) <= DirsTo(insensitive, path, |path|)
  {
    forall key | key in FirstDirs(insensitive, components, n) ensures key in DirsTo(insensitive, path, |path|) {
      var i :| 0 < i <= n && Key(insensitive, Joined(components[..i])) == key;
      DirectoriesAreSlashes(path, Joined(components[..i]));
      var k :| 0 <= k < |path| && path[k] == '/' && path[..k] == Joined(components[..i]);
    }
  }

  /** All but the last component name exactly the directories before the slashes of the path. */
  lemma AllDirsOnTheWay(insensitive: bool, path: string, components: seq<string>)
    requires components == Segments(path)
    ensures FirstDirs(insensitive, components, |components| - 1) == DirsTo(insensitive, path, |path|)
  {
    FirstDirsOnTheWay(insensitive, path, components, |components| - 1);
    forall key | key in DirsTo(insensitive, path, |path|) ensures key in FirstDirs(insensitive, components, |components| - 1) {
      var k :| 0 <= k < |path| && path[k] == '/' && Key(insensitive, path[..k]) == key;
      DirectoriesAreSlashes(path, path[..k]);
      var i :| 0 < i < |components| && Joined(components[..i]) == path[..k];
    }
  }

  // ----- staging

  datatype Error = InvalidDestination | DestinationExists | Unsupported | Io | WrongHash(path: string)
  datatype Outcome = Published | NotPublished(error: Error)

  /** What the surroundings do: whether the n-th file-system operation succeeds, and what happens to the destination. */
  datatype Surroundings = Surroundings(
    ok: nat -> bool, namedDestination: bool, parentIsDir: bool, supported: bool, appeared: Option<Tree>)

  class StagingTree {
    const insensitive: bool
    var tree: Tree
    var operations: nat

    constructor (insensitive: bool)
      ensures this.insensitive == insensitive && tree == EMPTY && operations == 0
    {
      this.insensitive, tree, operations := insensitive, EMPTY, 0;
    }

    /** Creates one directory, or uses the one that is there. */
    method CreateDirectory(key: string, ok: nat -> bool) returns (error: Option<Error>)
      modifies this
      ensures tree.files == old(tree).files && operations >= old(operations)
      ensures error.None? ==> tree.dirs == old(tree).dirs + {key}
      ensures (forall n :: ok(n)) && key !in old(tree).files ==> error.None?
    {
      operations := operations + 1;
      if !ok(operations - 1) { return Some(Io); }
      if Exists(tree, key) {
        if key in tree.files { return Some(InvalidDestination); }
        assert tree.dirs == tree.dirs + {key};
      } else {
        tree := tree.(dirs := tree.dirs + {key});
      }
      error := None;
    }

    /**
     * Creates the directories on the way to `path`, component by component; one that is there
     * already is used if it is a directory.
     */
    method CreateParentDirectories(path: string, ok: nat -> bool) returns (error: Option<Error>)
      requires ValidPath(path)
      modifies this
      ensures tree.files == old(tree).files && operations >= old(operations)
      ensures error.None? ==> tree.dirs == old(tree).dirs + DirsTo(insensitive, path, |path|)
      ensures (forall n :: ok(n)) && DirsTo(insensitive, path, |path|) !! old(tree).files.Keys ==> error.None?
    {
      ValidComponents(path);
      var components := Components(path);
      assert ValidSegment(components[0]);
      var current := [];
      for i := 0 to |components| - 1
        invariant i < |components| && current == Joined(components[..i])
        invariant tree.files == old(tree).files && operations >= old(operations)
        invariant tree.dirs == old(tree).dirs + FirstDirs(insensitive, components, i)
      {
        PushStep(components, i);
        current := Push(current, components[i]);
        FirstDirsStep(insensitive, components, i);
        FirstDirsOnTheWay(insensitive, path, components, i + 1);
        error := CreateDirectory(Key(insensitive, current), ok);
        if error.Some? { return; }
      }
      AllDirsOnTheWay(insensitive, path, components);
      error := None;
    }

    /** Creates the file, which must not be there yet, writes it, and checks the hash of what is stored. */
    method WriteFile(artifact: Artifact, ok: nat -> bool, digest: seq<byte> -> seq<byte>) returns (error: Option<Error>)
      modifies this
      ensures tree.dirs == old(tree).dirs && operations >= old(operations)
      ensures error.None? ==> tree.files == old(tree).files[Key(insensitive, artifact.path) := artifact.bytes]
      ensures error.None? ==> !Exists(old(tree), Key(insensitive, artifact.path)) && digest(artifact.bytes) == artifact.sha256
      ensures (forall n :: ok(n)) && !Exists(old(tree), Key(insensitive, artifact.path)) && digest(artifact.bytes) == artifact.sha256
              ==> error.None?
    {
      var output := Key(insensitive, artifact.path);
      operations := operations + 1;
      if !ok(operations - 1) || Exists(tree, output) { return Some(Io); }
      tree := tree.(files := tree.files[output := []]);
      operations := operations + 2;
      if !ok(operations - 2) || !ok(operations - 1) { return Some(Io); }
      tree := tree.(files := tree.files[output := artifact.bytes]);
      operations := operations + 1;
      if !ok(operations - 1) { return Some(Io); }
      if digest(tree.files[output]) != artifact.sha256 { return Some(WrongHash(artifact.path)); }
      error := None;
    }

    /** Stages the artifacts one after the other into an empty tree. */
    method Stage(artifacts: seq<Artifact>, ok: nat -> bool, digest: seq<byte> -> seq<byte>) returns (error: Option<Error>)
      requires tree == EMPTY && Portable(artifacts)
      modifies this
      ensures error.None? ==> tree == TreeOf(insensitive, artifacts)
      ensures (forall n :: ok(n)) && (forall x :: x in artifacts ==> digest(x.bytes) == x.sha256) ==> error.None?
    {
      for i := 0 to |artifacts|
        invariant tree == TreeOf(insensitive, artifacts[..i])
      {
        var artifact := artifacts[i];
        assert artifact in artifacts;
        NothingInTheWay(insensitive, artifacts, i);
        assert artifacts[..i + 1][..i] == artifacts[..i];
        error := CreateParentDirectories(artifact.path, ok);
        if error.Some? { return; }
        error := WriteFile(artifact, ok, digest);
        if error.Some? { return; }
      }
      assert artifacts[..|artifacts|] == artifacts;
      error := None;
    }
  }

  /** When the i-th artifact is staged nothing staged before is in its way, on either kind of file system. */
  lemma NothingInTheWay(insensitive: bool, artifacts: seq<Artifact>, i: nat)
    requires Portable(artifacts) && i < |artifacts|
    ensures var t, path := TreeOf(insensitive, artifacts[..i]), artifacts[i].path;
            && DirsTo(insensitive, path, |path|) !! t.files.Keys
            && Key(insensitive, path) !in t.files && Key(insensitive, path) !in t.dirs
            && Key(insensitive, path) !in DirsTo(insensitive, path, |path|)
  {
    var path := artifacts[i].path;
    assert artifacts[i] in artifacts;
    forall k | 0 <= k < |path| && path[k] == '/' ensures Key(insensitive, path[..k]) !in Files(insensitive, artifacts[..i]) {
      FilesMember(insensitive, artifacts[..i], Key(insensitive, path[..k]));
      forall j | 0 <= j < i ensures Key(insensitive, artifacts[..i][j].path) != Key(insensitive, path[..k]) {
        assert artifacts[j] in artifacts;
        DirectoryIsNoFile(insensitive, artifacts, artifacts[j], artifacts[i], k);
      }
    }
    FilesMember(insensitive, artifacts[..i], Key(insensitive, path));
    DirsMember(insensitive, artifacts[..i], Key(insensitive, path));
    forall j | 0 <= j <= i ensures Key(insensitive, path) !in DirsTo(insensitive, artifacts[j].path, |artifacts[j].path|) {
      forall k | 0 <= k < |artifacts[j].path| && artifacts[j].path[k] == '/'
        ensures Key(insensitive, artifacts[j].path[..k]) != Key(insensitive, path)
      {
        assert artifacts[j] in artifacts;
        DirectoryIsNoFile(insensitive, artifacts, artifacts[i], artifacts[j], k);
      }
    }
  }

  /** A parent directory with a place for the published tree. */
  class Publisher {
    const insensitive: bool
    var destination: Option<Tree>

    constructor (insensitive: bool, destination: Option<Tree>)
      ensures this.insensitive == insensitive && this.destination == destination
    {
      this.insensitive, this.destination := insensitive, destination;
    }

    /**
     * All or nothing: on success the destination, absent before, is exactly the tree of the set;
     * on failure it is what the others made of it, and without faults an absent destination is
     * always published. The staging tree itself is never visible there.
     */
    method PublishNewTree(artifacts: seq<Artifact>, world: Surroundings, digest: seq<byte> -> seq<byte>) returns (r: Outcome)
      requires Portable(artifacts)
      modifies this
      ensures r.Published? ==>
                old(destination).None? && world.appeared.None? && destination == Some(TreeOf(insensitive, artifacts))
      ensures r.NotPublished? ==> destination == old(destination) || (old(destination).None? && destination == world.appeared)
      ensures (forall n :: world.ok(n)) && world.namedDestination && world.parentIsDir && world.supported
              && old(destination).None? && world.appeared.None? && (forall x :: x in artifacts ==> digest(x.bytes) == x.sha256)
              ==> r.Published?
    {
      if !world.namedDestination { return NotPublished(InvalidDestination); }
      if !world.parentIsDir { return NotPublished(InvalidDestination); }
      if destination.Some? { return NotPublished(DestinationExists); }
      if !world.supported { return NotPublished(Unsupported); }
      var staging := new StagingTree(insensitive);
      if !world.ok(0) { return NotPublished(Io); }
      var error := staging.Stage(artifacts, (n: nat) => world.ok(n + 1), digest);
      if error.Some? { return NotPublished(error.value); }
      if world.appeared.Some? {
        destination := world.appeared;
        return NotPublished(DestinationExists);
      }
      if !world.ok(staging.operations + 1) { return NotPublished(Io); }
      destination := Some(staging.tree);
      r := Published;
    }
  }
}
