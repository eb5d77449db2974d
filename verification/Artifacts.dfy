/** Composing an artifact set: exactly which sets are admitted, and that push order does not matter. */
module Artifacts {
  import opened ArtifactPaths
  import opened Bytes

  datatype Kind = Source | Metadata | Binary
  datatype Provenance = Provenance(owner: string, source: string)
  datatype Artifact = Artifact(path: string, kind: Kind, bytes: seq<byte>, sha256: seq<byte>, provenance: Provenance)

  const U64_MAX: nat := 0xffff_ffff_ffff_ffff

  /** Both limits are 64-bit. */
  datatype Limits = Limits(maxArtifacts: nat, maxTotalBytes: nat) {
    predicate Valid() {
      maxArtifacts <= U64_MAX && maxTotalBytes <= U64_MAX
    }
  }

  datatype Error =
    | TooMany(count: nat)
    | TooLarge
    | HashMismatch(path: string)
    | Duplicate(path: string)
    | CaseCollision(first: string, second: string)
    | PrefixConflict(parent: string, child: string)

  datatype ArtifactSet = ArtifactSet(artifacts: seq<Artifact>, totalBytes: nat)
  datatype Result = Ok(admitted: ArtifactSet) | Err(error: Error)

  // ----- paths

  function FoldChar(c: char): char {
    if 'A' <= c <= 'Z' then ((c as int) - ('A' as int) + ('a' as int)) as char else c
  }

  /** ASCII lower case. */
  function Fold(path: string): string {
    if path == [] then [] else Fold(path[..|path| - 1]) + [FoldChar(path[|path| - 1])]
  }

  lemma {:induction false} FoldPrefix(path: string, k: nat)
    requires k <= |path|
    ensures |Fold(path)| == |path| && Fold(path)[..k] == Fold(path[..k])
    decreases |path|
  {
    if k == |path| {
      if k > 0 { FoldPrefix(path[..k - 1], k - 1); }
      assert path[..k] == path;
    } else {
      FoldPrefix(path[..|path| - 1], k);
      assert path[..|path| - 1][..k] == path[..k];
    }
  }

  /** The file `parent` would have to be a directory on the way to `child`, whatever their case. */
  ghost predicate Blocks(parent: string, child: string) {
    exists k :: 0 <= k < |child| && child[k] == '/' && Fold(child[..k]) == Fold(parent)
  }

  /** Byte order. */
  predicate Less(a: string, b: string) {
    if b == [] then false
    else if a == [] then true
    else if a[0] != b[0] then a[0] < b[0]
    else Less(a[1..], b[1..])
  }

  lemma {:induction false} LessIrreflexive(a: string)
    ensures !Less(a, a)
  {
    if a != [] { LessIrreflexive(a[1..]); }
  }

  lemma {:induction false} LessTransitive(a: string, b: string, c: string)
    requires Less(a, b) && Less(b, c)
    ensures Less(a, c)
  {
    if a != [] && a[0] == b[0] && b[0] == c[0] { LessTransitive(a[1..], b[1..], c[1..]); }
  }

  lemma {:induction false} LessTotal(a: string, b: string)
    ensures Less(a, b) || Less(b, a) || a == b
  {
    if a != [] && b != [] && a[0] == b[0] {
      LessTotal(a[1..], b[1..]);
      assert a == [a[0]] + a[1..] && b == [b[0]] + b[1..];
    }
  }

  // ----- what is admitted

  ghost function Sum(artifacts: seq<Artifact>): nat {
    if artifacts == [] then 0 else Sum(artifacts[..|artifacts| - 1]) + |artifacts[|artifacts| - 1].bytes|
  }

  ghost predicate UniqueFolded(artifacts: seq<Artifact>) {
    forall i, j :: 0 <= i < j < |artifacts| ==> Fold(artifacts[i].path) != Fold(artifacts[j].path)
  }

  ghost predicate NoneBlocked(artifacts: seq<Artifact>) {
    forall x, y :: x in artifacts && y in artifacts ==> !Blocks(x.path, y.path)
  }

  /** The set fits the limits, every hash is right, and it can be laid out on any file system. */
  ghost predicate Admissible(artifacts: seq<Artifact>, limits: Limits, digest: seq<byte> -> seq<byte>) {
    && |artifacts| <= limits.maxArtifacts
    && Sum(artifacts) <= limits.maxTotalBytes
    && (forall x :: x in artifacts ==> digest(x.bytes) == x.sha256)
    && UniqueFolded(artifacts)
    && NoneBlocked(artifacts)
  }

  ghost predicate HasPath(artifacts: seq<Artifact>, path: string) {
    exists x :: x in artifacts && x.path == path
  }

  /** The paths named really are in each other's way. */
  ghost predicate Clashes(e: Error, artifacts: seq<Artifact>) {
    match e
    case Duplicate(path) => exists i, j :: 0 <= i < j < |artifacts| && artifacts[i].path == artifacts[j].path == path
    case CaseCollision(first, second) =>
      first != second && Fold(first) == Fold(second) && HasPath(artifacts, first) && HasPath(artifacts, second)
    case PrefixConflict(parent, child) =>
      Blocks(parent, child) && HasPath(artifacts, parent) && HasPath(artifacts, child)
    case _ => false
  }

  /** The error names something the artifacts really do. */
  ghost predicate Justified(e: Error, artifacts: seq<Artifact>, limits: Limits, digest: seq<byte> -> seq<byte>) {
    match e
    case TooMany(count) => count == |artifacts| > limits.maxArtifacts
    case TooLarge => Sum(artifacts) > limits.maxTotalBytes
    case HashMismatch(path) => exists x :: x in artifacts && x.path == path && digest(x.bytes) != x.sha256
    case _ => Clashes(e, artifacts)
  }

  // ----- sorting

  ghost predicate Ordered(s: seq<Artifact>) {
    forall i, j :: 0 <= i < j < |s| ==> !Less(s[j].path, s[i].path)
  }

  ghost predicate Ascending(s: seq<Artifact>) {
    forall i, j :: 0 <= i < j < |s| ==> Less(s[i].path, s[j].path)
  }

  function Insert(s: seq<Artifact>, a: Artifact): seq<Artifact> {
    if s != [] && Less(a.path, s[|s| - 1].path) then Insert(s[..|s| - 1], a) + [s[|s| - 1]] else s + [a]
  }

  /** The artifacts by path. */
  function Sort(s: seq<Artifact>): seq<Artifact> {
    if s == [] then [] else Insert(Sort(s[..|s| - 1]), s[|s| - 1])
  }

  lemma {:induction false} InsertKeeps(s: seq<Artifact>, a: Artifact)
    ensures multiset(Insert(s, a)) == multiset(s) + multiset{a}
  {
    if s != [] && Less(a.path, s[|s| - 1].path) {
      var before, last := s[..|s| - 1], s[|s| - 1];
      InsertKeeps(before, a);
      assert s == before + [last];
    }
  }

  lemma {:induction false} InsertSums(s: seq<Artifact>, a: Artifact)
    ensures Sum(Insert(s, a)) == Sum(s) + |a.bytes|
  {
    if s != [] && Less(a.path, s[|s| - 1].path) {
      InsertSums(s[..|s| - 1], a);
      SumStep(Insert(s[..|s| - 1], a), s[|s| - 1]);
    } else {
      SumStep(s, a);
    }
  }

  lemma SumStep(s: seq<Artifact>, a: Artifact)
    ensures Sum(s + [a]) == Sum(s) + |a.bytes|
  {
    assert (s + [a])[..|s|] == s;
  }

  lemma BeforeLast(front: seq<Artifact>, before: seq<Artifact>, a: Artifact, last: Artifact)
    requires multiset(front) == multiset(before) + multiset{a} && Ordered(front) && Ordered(before + [last])
    requires Less(a.path, last.path)
    ensures Ordered(front + [last])
  {
    forall i | 0 <= i < |front| ensures !Less(last.path, front[i].path) {
      LessAsymmetric(a.path, last.path);
      assert front[i] in multiset(front);
      if front[i] != a {
        assert front[i] in multiset(before);
        var k :| 0 <= k < |before| && before[k] == front[i];
        assert (before + [last])[k] == front[i] && (before + [last])[|before|] == last;
      }
    }
  }

  lemma {:induction false} InsertOrders(s: seq<Artifact>, a: Artifact)
    requires Ordered(s)
    ensures Ordered(Insert(s, a))
  {
    if s != [] {
      var before, last := s[..|s| - 1], s[|s| - 1];
      if Less(a.path, last.path) {
        InsertOrders(before, a);
        InsertKeeps(before, a);
        assert before + [last] == s;
        BeforeLast(Insert(before, a), before, a, last);
      } else {
        forall i | 0 <= i < |s| ensures !Less(a.path, s[i].path) {
          NotLessTransitive(a.path, last.path, s[i].path);
        }
      }
    }
  }

  lemma LessAsymmetric(a: string, b: string)
    requires Less(a, b)
    ensures !Less(b, a)
  {
    if Less(b, a) {
      LessTransitive(a, b, a);
      LessIrreflexive(a);
    }
  }

  lemma NotLessTransitive(a: string, b: string, c: string)
    ensures !Less(a, b) && !Less(b, c) ==> !Less(a, c)
  {
    LessTotal(a, b);
    if Less(b, a) && Less(a, c) { LessTransitive(b, a, c); }
  }

  lemma InsertPermutes(sorted: seq<Artifact>, s: seq<Artifact>)
    requires s != [] && multiset(sorted) == multiset(s[..|s| - 1])
    ensures multiset(Insert(sorted, s[|s| - 1])) == multiset(s)
  {
    InsertKeeps(sorted, s[|s| - 1]);
    assert s == s[..|s| - 1] + [s[|s| - 1]];
  }

  lemma {:induction false} SortPermutes(s: seq<Artifact>)
    ensures multiset(Sort(s)) == multiset(s)
  {
    if s != [] {
      SortPermutes(s[..|s| - 1]);
      InsertPermutes(Sort(s[..|s| - 1]), s);
    }
  }

  lemma {:induction false} SortSums(s: seq<Artifact>)
    ensures Sum(Sort(s)) == Sum(s)
  {
    if s != [] {
      SortSums(s[..|s| - 1]);
      InsertSums(Sort(s[..|s| - 1]), s[|s| - 1]);
    }
  }

  /** Sorting keeps the artifacts, and so their total size. */
  lemma SortKeeps(s: seq<Artifact>)
    ensures multiset(Sort(s)) == multiset(s) && Sum(Sort(s)) == Sum(s)
  {
    SortPermutes(s);
    SortSums(s);
  }

  lemma {:induction false} SortOrders(s: seq<Artifact>)
    ensures Ordered(Sort(s))
  {
    if s != [] {
      SortOrders(s[..|s| - 1]);
      InsertOrders(Sort(s[..|s| - 1]), s[|s| - 1]);
    }
  }

  // ----- permutations

  lemma Twice(s: seq<Artifact>, i: nat, j: nat)
    requires i < j < |s| && s[i] == s[j]
    ensures multiset(s)[s[i]] >= 2
  {
    assert s == s[..j] + s[j..];
    assert s[i] in s[..j] && s[i] in s[j..];
    assert s[i] in multiset(s[..j]) && s[i] in multiset(s[j..]);
  }

  lemma {:induction false} FindTwo(s: seq<Artifact>, x: Artifact) returns (i: nat, j: nat)
    requires multiset(s)[x] >= 2
    ensures i < j < |s| && s[i] == s[j] == x
  {
    var before, last := s[..|s| - 1], s[|s| - 1];
    assert s == before + [last];
    if last == x {
      assert x in multiset(before);
      i :| 0 <= i < |before| && before[i] == x;
      j := |s| - 1;
    } else {
      i, j := FindTwo(before, x);
    }
  }

  lemma PermutationUnique(a: seq<Artifact>, b: seq<Artifact>)
    requires multiset(a) == multiset(b) && UniqueFolded(a)
    ensures UniqueFolded(b)
  {
    forall i, j | 0 <= i < j < |b| ensures Fold(b[i].path) != Fold(b[j].path) {
      if b[i] == b[j] {
        Twice(b, i, j);
        var k, l := FindTwo(a, b[i]);
        assert false;
      } else {
        assert b[i] in multiset(a) && b[j] in multiset(a);
        var k :| 0 <= k < |a| && a[k] == b[i];
        var l :| 0 <= l < |a| && a[l] == b[j];
        assert k != l;
      }
    }
  }

  lemma UniqueAscends(s: seq<Artifact>)
    requires Ordered(s) && UniqueFolded(s)
    ensures Ascending(s)
  {
    forall i, j | 0 <= i < j < |s| ensures Less(s[i].path, s[j].path) {
      LessTotal(s[i].path, s[j].path);
    }
  }

  lemma FirstIsLeast(s: seq<Artifact>, t: seq<Artifact>)
    requires Ascending(s) && Ascending(t) && multiset(s) == multiset(t) && s != []
    ensures t != [] && s[0] == t[0]
  {
    assert s[0] in multiset(t);
    assert t[0] in multiset(s);
    var i :| 0 <= i < |t| && t[i] == s[0];
    var j :| 0 <= j < |s| && s[j] == t[0];
    if i > 0 && j > 0 {
      LessTransitive(t[0].path, s[0].path, t[0].path);
      LessIrreflexive(t[0].path);
    }
  }

  /** There is only one ascending order of a set of artifacts. */
  lemma {:induction false} AscendingIsUnique(s: seq<Artifact>, t: seq<Artifact>)
    requires Ascending(s) && Ascending(t) && multiset(s) == multiset(t)
    ensures s == t
    decreases |s|
  {
    assert |multiset(s)| == |s| && |multiset(t)| == |t|;
    if s != [] {
      FirstIsLeast(s, t);
      assert s == [s[0]] + s[1..] && t == [t[0]] + t[1..];
      assert multiset(s[1..]) == multiset(s) - multiset{s[0]};
      assert multiset(t[1..]) == multiset(t) - multiset{t[0]};
      AscendingIsUnique(s[1..], t[1..]);
    }
  }

  /** Admission and its outcome do not depend on the order in which the artifacts were pushed. */
  lemma {:induction false} OrderDoesNotMatter(a: seq<Artifact>, b: seq<Artifact>, limits: Limits, digest: seq<byte> -> seq<byte>)
    requires multiset(a) == multiset(b) && Admissible(a, limits, digest)
    ensures Admissible(b, limits, digest) && Sort(a) == Sort(b)
  {
    SortKeeps(a);
    SortKeeps(b);
    SortOrders(a);
    SortOrders(b);
    PermutationUnique(a, b);
    PermutationUnique(a, Sort(a));
    PermutationUnique(b, Sort(b));
    UniqueAscends(Sort(a));
    UniqueAscends(Sort(b));
    AscendingIsUnique(Sort(a), Sort(b));
    forall x ensures x in a <==> x in b {
      assert x in multiset(a) <==> x in multiset(b);
    }
    assert |multiset(a)| == |a| && |multiset(b)| == |b|;
  }

  // ----- the composer

  /** Sums the bytes, with an overflow check, and checks every hash. */
  method CheckContents(artifacts: seq<Artifact>, limits: Limits, digest: seq<byte> -> seq<byte>)
    returns (error: Option<Error>, total: nat)
    requires limits.Valid()
    ensures error.None? <==>
            Sum(artifacts) <= limits.maxTotalBytes && forall x :: x in artifacts ==> digest(x.bytes) == x.sha256
    ensures error.None? ==> total == Sum(artifacts)
    ensures error.Some? ==> Justified(error.value, artifacts, limits, digest)
  {
    total := 0;
    for i := 0 to |artifacts|
      invariant total == Sum(artifacts[..i]) <= limits.maxTotalBytes
      invariant forall j :: 0 <= j < i ==> digest(artifacts[j].bytes) == artifacts[j].sha256
    {
      var a := artifacts[i];
      assert artifacts[..i + 1][..i] == artifacts[..i];
      SumGrows(artifacts, i + 1);
      if total + |a.bytes| > U64_MAX { return Some(TooLarge), total; }
      total := total + |a.bytes|;
      if total > limits.maxTotalBytes { return Some(TooLarge), total; }
      if digest(a.bytes) != a.sha256 {
        assert a in artifacts;
        return Some(HashMismatch(a.path)), total;
      }
    }
    assert artifacts[..|artifacts|] == artifacts;
    error := None;
  }

  lemma {:induction false} SumGrows(artifacts: seq<Artifact>, n: nat)
    requires n <= |artifacts|
    ensures Sum(artifacts[..n]) <= Sum(artifacts)
    decreases |artifacts|
  {
    if n < |artifacts| {
      SumGrows(artifacts[..|artifacts| - 1], n);
      assert artifacts[..|artifacts| - 1][..n] == artifacts[..n];
    } else {
      assert artifacts[..n] == artifacts;
    }
  }

  /** Looks for equal neighbours. */
  method CheckDuplicates(sorted: seq<Artifact>) returns (duplicate: Option<nat>)
    requires Ordered(sorted)
    ensures duplicate.None? ==> Ascending(sorted)
    ensures duplicate.Some? ==>
              duplicate.value + 1 < |sorted| && sorted[duplicate.value].path == sorted[duplicate.value + 1].path
  {
    var i := 1;
    while i < |sorted|
      invariant i >= 1 && forall j :: 0 < j < i && j < |sorted| ==> sorted[j - 1].path != sorted[j].path
    {
      if sorted[i - 1].path == sorted[i].path { return Some(i - 1); }
      i := i + 1;
    }
    NeighboursAscend(sorted);
    duplicate := None;
  }

  lemma NeighboursAscend(s: seq<Artifact>)
    requires Ordered(s) && forall j :: 0 < j < |s| ==> s[j - 1].path != s[j].path
    ensures Ascending(s)
  {
    forall i, j | 0 <= i < j < |s| ensures Less(s[i].path, s[j].path) {
      LessTotal(s[i].path, s[i + 1].path);
      LessTotal(s[i].path, s[j].path);
      NotLessTransitive(s[i + 1].path, s[j].path, s[i].path);
      if i + 1 < j && s[i].path == s[j].path { LessAsymmetric(s[i].path, s[i + 1].path); }
    }
  }

  /** Records every folded path; stops at the first that is there already. */
  method CheckCase(sorted: seq<Artifact>) returns (collision: Option<(string, string)>, portable: map<string, string>)
    requires Ascending(sorted)
    ensures collision.None? <==> UniqueFolded(sorted)
    ensures collision.Some? ==>
              && var (first, second) := collision.value;
                 first != second && Fold(first) == Fold(second) && HasPath(sorted, first) && HasPath(sorted, second)
    ensures collision.None? ==>
              && (forall i :: 0 <= i < |sorted| ==> Fold(sorted[i].path) in portable)
              && (forall f :: f in portable ==> Fold(portable[f]) == f && HasPath(sorted, portable[f]))
  {
    portable := map[];
    ghost var at: map<string, nat> := map[];
    for n := 0 to |sorted|
      invariant forall i :: 0 <= i < n ==> Fold(sorted[i].path) in at && at[Fold(sorted[i].path)] == i
      invariant portable.Keys == at.Keys
      invariant forall f :: f in at ==> at[f] < n && portable[f] == sorted[at[f]].path && Fold(portable[f]) == f
    {
      var folded := Fold(sorted[n].path);
      if folded in portable {
        CollisionIsReal(sorted, at[folded], n);
        return Some((portable[folded], sorted[n].path)), portable;
      }
      portable, at := portable[folded := sorted[n].path], at[folded := n];
    }
    PlacesAreUnique(sorted, portable, at);
    collision := None;
  }

  lemma CollisionIsReal(sorted: seq<Artifact>, i: nat, n: nat)
    requires Ascending(sorted) && i < n < |sorted| && Fold(sorted[i].path) == Fold(sorted[n].path)
    ensures !UniqueFolded(sorted) && sorted[i].path != sorted[n].path
    ensures HasPath(sorted, sorted[i].path) && HasPath(sorted, sorted[n].path)
  {
    LessIrreflexive(sorted[n].path);
    assert Less(sorted[i].path, sorted[n].path);
    assert sorted[i] in sorted && sorted[n] in sorted;
  }

  lemma PlacesAreUnique(sorted: seq<Artifact>, portable: map<string, string>, at: map<string, nat>)
    requires portable.Keys == at.Keys
    requires forall i :: 0 <= i < |sorted| ==> Fold(sorted[i].path) in at && at[Fold(sorted[i].path)] == i
    requires forall f :: f in at ==> at[f] < |sorted| && portable[f] == sorted[at[f]].path
    ensures UniqueFolded(sorted) && forall f :: f in portable ==> HasPath(sorted, portable[f])
  {
    forall f | f in portable ensures HasPath(sorted, portable[f]) {
      assert sorted[at[f]] in sorted;
    }
  }

  /** The first directory on the way to a file that is itself among the files. */
  method FindPrefix(child: string, portable: map<string, string>) returns (parent: Option<string>)
    requires forall f :: f in portable ==> Fold(portable[f]) == f
    ensures parent.None? <==> forall k :: 0 <= k < |child| && child[k] == '/' ==> Fold(child[..k]) !in portable
    ensures parent.Some? ==> Blocks(parent.value, child) && exists f :: f in portable && portable[f] == parent.value
  {
    for k := 0 to |child|
      invariant forall l :: 0 <= l < k && child[l] == '/' ==> Fold(child[..l]) !in portable
    {
      FoldPrefix(child, k);
      if child[k] == '/' && Fold(child)[..k] in portable {
        return Some(portable[Fold(child)[..k]]);
      }
    }
    parent := None;
  }

  /** Looks every directory on the way to a file up among the files. */
  method CheckPrefixes(sorted: seq<Artifact>, portable: map<string, string>) returns (conflict: Option<(string, string)>)
    requires forall i :: 0 <= i < |sorted| ==> Fold(sorted[i].path) in portable
    requires forall f :: f in portable ==> Fold(portable[f]) == f && HasPath(sorted, portable[f])
    ensures conflict.None? <==> NoneBlocked(sorted)
    ensures conflict.Some? ==>
              && Blocks(conflict.value.0, conflict.value.1)
              && HasPath(sorted, conflict.value.0) && HasPath(sorted, conflict.value.1)
  {
    for n := 0 to |sorted|
      invariant forall j, k :: 0 <= j < n && 0 <= k < |sorted[j].path| && sorted[j].path[k] == '/' ==>
                  Fold(sorted[j].path[..k]) !in portable
    {
      var parent := FindPrefix(sorted[n].path, portable);
      if parent.Some? {
        assert sorted[n] in sorted;
        return Some((parent.value, sorted[n].path));
      }
    }
    NoDirectoryIsAFile(sorted, portable);
    conflict := None;
  }

  lemma NoDirectoryIsAFile(sorted: seq<Artifact>, portable: map<string, string>)
    requires forall i :: 0 <= i < |sorted| ==> Fold(sorted[i].path) in portable
    requires forall j, k :: 0 <= j < |sorted| && 0 <= k < |sorted[j].path| && sorted[j].path[k] == '/' ==>
               Fold(sorted[j].path[..k]) !in portable
    ensures NoneBlocked(sorted)
  {
    forall x, y | x in sorted && y in sorted ensures !Blocks(x.path, y.path) {
      var i :| 0 <= i < |sorted| && sorted[i] == x;
      var j :| 0 <= j < |sorted| && sorted[j] == y;
    }
  }

  /** An artifact comes to exist only with a valid path. */
  method FromClaimedParts(path: string, kind: Kind, bytes: seq<byte>, sha256: seq<byte>, provenance: Provenance)
    returns (r: Option<Artifact>)
    ensures r.Some? <==> ValidPath(path)
    ensures r.Some? ==> r.value == Artifact(path, kind, bytes, sha256, provenance)
  {
    var ok := ValidateArtifactPath(path);
    r := if ok then Some(Artifact(path, kind, bytes, sha256, provenance)) else None;
  }

  ghost predicate AllValid(artifacts: seq<Artifact>) {
    forall x :: x in artifacts ==> ValidPath(x.path)
  }

  class ArtifactComposer {
    const limits: Limits
    var artifacts: seq<Artifact>

    constructor (limits: Limits)
      ensures this.limits == limits && artifacts == []
    {
      this.limits, artifacts := limits, [];
    }

    method Push(artifact: Artifact)
      modifies this
      ensures artifacts == old(artifacts) + [artifact]
      ensures old(AllValid(artifacts)) && ValidPath(artifact.path) ==> AllValid(artifacts)
    {
      artifacts := artifacts + [artifact];
    }

    method Extend(more: seq<Artifact>)
      modifies this
      ensures artifacts == old(artifacts) + more
      ensures old(AllValid(artifacts)) && AllValid(more) ==> AllValid(artifacts)
    {
      for i := 0 to |more|
        invariant artifacts == old(artifacts) + more[..i]
      {
        artifacts := artifacts + [more[i]];
        assert more[..i + 1] == more[..i] + [more[i]];
      }
      assert more[..|more|] == more;
    }

    /**
     * Succeeds exactly for the admissible sets, with the one ascending order of what was pushed
     * and its size; any error names a real reason.
     */
    method Finish(digest: seq<byte> -> seq<byte>) returns (r: Result)
      requires limits.Valid()
      ensures r.Ok? <==> Admissible(artifacts, limits, digest)
      ensures r.Ok? ==>
                && Ascending(r.admitted.artifacts) && multiset(r.admitted.artifacts) == multiset(artifacts)
                && r.admitted.artifacts == Sort(artifacts) && r.admitted.totalBytes == Sum(artifacts)
      ensures r.Err? ==> Justified(r.error, artifacts, limits, digest)
    {
      if |artifacts| > limits.maxArtifacts { return Err(TooMany(|artifacts|)); }
      var bad, total := CheckContents(artifacts, limits, digest);
      if bad.Some? { return Err(bad.value); }
      var clash, sorted := CheckLayout(artifacts);
      if clash.Some? {
        ClashIsNotPortable(clash.value, artifacts);
        return Err(clash.value);
      }
      r := Ok(ArtifactSet(sorted, total));
    }
  }

  /** Looks for duplicates, case collisions and files in the place of directories, in that order. */
  method CheckPaths(sorted: seq<Artifact>) returns (error: Option<Error>)
    requires Ordered(sorted)
    ensures error.None? ==> UniqueFolded(sorted) && NoneBlocked(sorted) && Ascending(sorted)
    ensures error.Some? ==> Clashes(error.value, sorted)
  {
    var duplicate := CheckDuplicates(sorted);
    if duplicate.Some? { return Some(Duplicate(sorted[duplicate.value].path)); }
    var collision, portable := CheckCase(sorted);
    if collision.Some? { return Some(CaseCollision(collision.value.0, collision.value.1)); }
    var conflict := CheckPrefixes(sorted, portable);
    if conflict.Some? { return Some(PrefixConflict(conflict.value.0, conflict.value.1)); }
    error := None;
  }

  /** A clash rules admission out. */
  lemma ClashIsNotPortable(e: Error, s: seq<Artifact>)
    requires Clashes(e, s)
    ensures !UniqueFolded(s) || !NoneBlocked(s)
  {
    if e.CaseCollision? {
      var x :| x in s && x.path == e.first;
      var y :| y in s && y.path == e.second;
      var i :| 0 <= i < |s| && s[i] == x;
      var j :| 0 <= j < |s| && s[j] == y;
      assert i != j;
    }
  }

  /** Sorts the artifacts and checks their paths. */
  method CheckLayout(artifacts: seq<Artifact>) returns (error: Option<Error>, sorted: seq<Artifact>)
    ensures sorted == Sort(artifacts) && multiset(sorted) == multiset(artifacts)
    ensures error.None? ==> UniqueFolded(artifacts) && NoneBlocked(artifacts) && Ascending(sorted)
    ensures error.Some? ==> Clashes(error.value, artifacts)
  {
    sorted := Sort(artifacts);
    SortPermutes(artifacts);
    SortOrders(artifacts);
    error := CheckPaths(sorted);
    SameUnique(artifacts, sorted);
    SameBlocked(artifacts, sorted);
    if error.Some? { SameClashes(error.value, artifacts, sorted); }
  }

  lemma SameClashes(e: Error, artifacts: seq<Artifact>, sorted: seq<Artifact>)
    requires multiset(artifacts) == multiset(sorted) && Clashes(e, sorted)
    ensures Clashes(e, artifacts)
  {
    if e.Duplicate? {
      var i, j :| 0 <= i < j < |sorted| && sorted[i].path == sorted[j].path == e.path;
      var k, l := FindSamePath(artifacts, sorted, i, j);
    } else {
      SamePaths(artifacts, sorted);
    }
  }

  lemma SameMembers(a: seq<Artifact>, b: seq<Artifact>)
    requires multiset(a) == multiset(b)
    ensures forall x :: x in a <==> x in b
  {
    forall x ensures x in a <==> x in b {
      assert x in multiset(a) <==> x in multiset(b);
    }
  }

  lemma SamePaths(a: seq<Artifact>, b: seq<Artifact>)
    requires multiset(a) == multiset(b)
    ensures forall path :: HasPath(a, path) <==> HasPath(b, path)
  {
    SameMembers(a, b);
  }

  lemma SameUnique(a: seq<Artifact>, b: seq<Artifact>)
    requires multiset(a) == multiset(b)
    ensures UniqueFolded(a) <==> UniqueFolded(b)
  {
    if UniqueFolded(a) { PermutationUnique(a, b); }
    if UniqueFolded(b) { PermutationUnique(b, a); }
  }

  lemma SameBlocked(a: seq<Artifact>, b: seq<Artifact>)
    requires multiset(a) == multiset(b)
    ensures NoneBlocked(a) <==> NoneBlocked(b)
  {
    SameMembers(a, b);
  }

  /** Two artifacts with one path are there in any order. */
  lemma FindSamePath(artifacts: seq<Artifact>, sorted: seq<Artifact>, i: nat, j: nat) returns (k: nat, l: nat)
    requires multiset(artifacts) == multiset(sorted) && i < j < |sorted| && sorted[i].path == sorted[j].path
    ensures k < l < |artifacts| && artifacts[k].path == artifacts[l].path == sorted[i].path
  {
    var x, y := sorted[i], sorted[j];
    if x == y {
      Twice(sorted, i, j);
      k, l := FindTwo(artifacts, x);
    } else {
      SameMembers(artifacts, sorted);
      assert x in sorted && y in sorted;
      var m :| 0 <= m < |artifacts| && artifacts[m] == x;
      var n :| 0 <= n < |artifacts| && artifacts[n] == y;
      k, l := if m < n then m else n, if m < n then n else m;
    }
  }

  // ----- lookup

  /** Binary search in an admitted set finds what a search through all of it would. */
  method Get(artifacts: seq<Artifact>, path: string) returns (found: Option<Artifact>)
    requires Ascending(artifacts)
    ensures found.Some? <==> HasPath(artifacts, path)
    ensures found.Some? ==> found.value in artifacts && found.value.path == path
  {
    var lo, hi := 0, |artifacts|;
    while lo < hi
      invariant 0 <= lo <= hi <= |artifacts|
      invariant forall i :: 0 <= i < lo ==> Less(artifacts[i].path, path)
      invariant forall i :: hi <= i < |artifacts| ==> Less(path, artifacts[i].path)
    {
      var mid := lo + (hi - lo) / 2;
      if artifacts[mid].path == path {
        assert artifacts[mid] in artifacts;
        return Some(artifacts[mid]);
      }
      LessTotal(artifacts[mid].path, path);
      if Less(artifacts[mid].path, path) {
        BelowIsLess(artifacts, mid, path);
        lo := mid + 1;
      } else {
        AboveIsGreater(artifacts, mid, path);
        hi := mid;
      }
    }
    LessIrreflexive(path);
    found := None;
  }

  lemma BelowIsLess(s: seq<Artifact>, m: nat, path: string)
    requires Ascending(s) && m < |s| && Less(s[m].path, path)
    ensures forall i :: 0 <= i <= m ==> Less(s[i].path, path)
  {
    forall i | 0 <= i < m ensures Less(s[i].path, path) { LessTransitive(s[i].path, s[m].path, path); }
  }

  lemma AboveIsGreater(s: seq<Artifact>, m: nat, path: string)
    requires Ascending(s) && m < |s| && Less(path, s[m].path)
    ensures forall i :: m <= i < |s| ==> Less(path, s[i].path)
  {
    forall i | m < i < |s| ensures Less(path, s[i].path) { LessTransitive(path, s[m].path, s[i].path); }
  }
}
