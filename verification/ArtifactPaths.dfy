/** Portable artifact paths: which are valid, and that their components are the segments between their slashes. */
module ArtifactPaths {

  const MAX_PATH: nat := 1024
  const MAX_SEGMENT: nat := 255
  const BACKSLASH: char := 0x5C as char

  // ----- segments

  /** The segments between the slashes. */
  function Segments(path: string): (r: seq<string>)
    ensures r != []
  {
    if path == [] then [[]] else
      var before, c := Segments(path[..|path| - 1]), path[|path| - 1];
      if c == '/' then before + [[]] else before[|before| - 1 := before[|before| - 1] + [c]]
  }

  /** The path made of these segments. */
  function Joined(segments: seq<string>): string {
    if segments == [] then []
    else if |segments| == 1 then segments[0]
    else Joined(segments[..|segments| - 1]) + ['/'] + segments[|segments| - 1]
  }

  lemma JoinedStep(segments: seq<string>, last: string)
    requires segments != []
    ensures Joined(segments + [last]) == Joined(segments) + ['/'] + last
  {
    assert (segments + [last])[..|segments|] == segments;
  }

  lemma JoinedLast(segments: seq<string>, c: char)
    requires segments != []
    ensures var n := |segments| - 1; Joined(segments[n := segments[n] + [c]]) == Joined(segments) + [c]
  {
    var n := |segments| - 1;
    var longer := segments[n := segments[n] + [c]];
    if n > 0 {
      assert longer[..n] == segments[..n];
      assert Joined(longer) == Joined(segments[..n]) + ['/'] + (segments[n] + [c]);
      assert Joined(segments) == Joined(segments[..n]) + ['/'] + segments[n];
    }
  }

  /** Splitting and joining is the identity. */
  lemma {:induction false} JoinedSplit(path: string)
    ensures Joined(Segments(path)) == path
  {
    if path != [] {
      var before, c := path[..|path| - 1], path[|path| - 1];
      JoinedSplit(before);
      if c == '/' { JoinedStep(Segments(before), []); } else { JoinedLast(Segments(before), c); }
      assert path == before + [c];
    }
  }

  /** What is before a slash is made of whole segments of the path. */
  lemma {:induction false} SplitBefore(path: string, k: nat)
    requires k < |path| && path[k] == '/'
    ensures |Segments(path[..k])| < |Segments(path)| && Segments(path[..k]) == Segments(path)[..|Segments(path[..k])|]
    decreases |path|
  {
    var before := path[..|path| - 1];
    if k < |before| {
      SplitBefore(before, k);
      assert before[..k] == path[..k];
    }
  }

  /** And any first segments of a path are what is before one of its slashes. */
  lemma {:induction false} SlashAfter(path: string, i: nat) returns (k: nat)
    requires 0 < i < |Segments(path)|
    ensures k < |path| && path[k] == '/' && Segments(path[..k]) == Segments(path)[..i]
    decreases |path|
  {
    var n := |path| - 1;
    var before := path[..n];
    if path[n] == '/' && i == |Segments(before)| {
      k := n;
      assert Segments(path)[..i] == Segments(before);
    } else {
      k := SlashAfter(before, i);
      assert before[..k] == path[..k];
    }
  }

  /** The directories on the way: what is before each slash, and the joins of the first segments, are the same. */
  lemma DirectoriesAreSlashes(path: string, dir: string)
    ensures (exists i :: 0 < i < |Segments(path)| && Joined(Segments(path)[..i]) == dir)
            <==> exists k :: 0 <= k < |path| && path[k] == '/' && path[..k] == dir
  {
    if i :| 0 < i < |Segments(path)| && Joined(Segments(path)[..i]) == dir {
      var k := SlashAfter(path, i);
      JoinedSplit(path[..k]);
    }
    if k :| 0 <= k < |path| && path[k] == '/' && path[..k] == dir {
      SplitBefore(path, k);
      JoinedSplit(path[..k]);
    }
  }

  // ----- validity

  function Upper(c: char): char {
    if 'a' <= c <= 'z' then ((c as int) - ('a' as int) + ('A' as int)) as char else c
  }

  function Uppercase(s: string): string {
    if s == [] then [] else Uppercase(s[..|s| - 1]) + [Upper(s[|s| - 1])]
  }

  /** What is before the first dot. */
  function Stem(segment: string): string {
    if segment == [] || segment[0] == '.' then [] else [segment[0]] + Stem(segment[1..])
  }

  /** Device names of Windows, with any extension. */
  predicate Reserved(segment: string) {
    var name := Uppercase(Stem(segment));
    || name == "CON" || name == "PRN" || name == "AUX" || name == "NUL"
    || (|name| == 4 && (name[..3] == "COM" || name[..3] == "LPT") && '1' <= name[3] <= '9')
  }

  predicate PortableChar(c: char) {
    'a' <= c <= 'z' || 'A' <= c <= 'Z' || '0' <= c <= '9' || c == '.' || c == '_' || c == '-'
  }

  predicate ValidSegment(s: string) {
    && s != [] && s != "." && s != ".." && |s| <= MAX_SEGMENT
    && s[|s| - 1] != '.' && s[|s| - 1] != ' '
    && (forall i :: 0 <= i < |s| ==> PortableChar(s[i]))
    && !Reserved(s)
  }

  ghost predicate ValidPath(path: string) {
    |path| <= MAX_PATH && forall i :: 0 <= i < |Segments(path)| ==> ValidSegment(Segments(path)[i])
  }

  lemma {:induction false} SegmentChars(path: string, i: nat)
    requires i < |path| && path[i] != '/'
    ensures exists j :: 0 <= j < |Segments(path)| && path[i] in Segments(path)[j]
    decreases |path|
  {
    var n := |path| - 1;
    var before := path[..n];
    if i < n {
      SegmentChars(before, i);
      var j :| 0 <= j < |Segments(before)| && before[i] in Segments(before)[j];
      assert path[i] in Segments(path)[j];
    } else {
      assert path[n] in Segments(path)[|Segments(path)| - 1];
    }
  }

  /** A valid path is made of portable characters and slashes. */
  lemma ValidChars(path: string, i: nat)
    requires ValidPath(path) && i < |path|
    ensures path[i] == '/' || PortableChar(path[i])
  {
    if path[i] != '/' {
      SegmentChars(path, i);
      var j :| 0 <= j < |Segments(path)| && path[i] in Segments(path)[j];
      assert ValidSegment(Segments(path)[j]);
    }
  }

  lemma {:induction false} FirstSegment(path: string)
    ensures path == [] ==> Segments(path) == [[]]
    ensures path != [] && path[0] == '/' ==> Segments(path)[0] == []
    decreases |path|
  {
    if |path| > 1 {
      FirstSegment(path[..|path| - 1]);
      if path[0] == '/' { SplitBefore(path, 0); assert path[..0] == []; }
    }
  }

  /** The checks in order; those before the segments only decide which error is reported. */
  method ValidateArtifactPath(path: string) returns (ok: bool)
    ensures ok <==> ValidPath(path)
  {
    FirstSegment(path);
    if path == [] { assert !ValidSegment(Segments(path)[0]); return false; }
    if |path| > MAX_PATH { return false; }
    for i := 0 to |path|
      invariant forall j :: 0 <= j < i ==> path[j] as int < 128
    {
      if path[i] as int >= 128 {
        if ValidPath(path) { ValidChars(path, i); }
        return false;
      }
    }
    if path[0] == '/' { assert !ValidSegment(Segments(path)[0]); return false; }
    for i := 0 to |path|
      invariant forall j :: 0 <= j < i ==> path[j] != BACKSLASH
    {
      if path[i] == BACKSLASH {
        if ValidPath(path) { ValidChars(path, i); }
        return false;
      }
    }
    var segments := Segments(path);
    for i := 0 to |segments|
      invariant forall j :: 0 <= j < i ==> ValidSegment(segments[j])
    {
      if !ValidSegment(segments[i]) { return false; }
    }
    ok := true;
  }

  // ----- components

  /** A path's components as the file system library lists them: empty segments and later dots disappear. */
  function Components(path: string): seq<string> {
    Kept(Segments(path))
  }

  function Kept(segments: seq<string>): seq<string> {
    if segments == [] then [] else
      var n := |segments| - 1;
      Kept(segments[..n]) + if segments[n] == [] || (segments[n] == "." && n > 0) then [] else [segments[n]]
  }

  lemma {:induction false} KeptAll(segments: seq<string>)
    requires forall i :: 0 <= i < |segments| ==> segments[i] != [] && segments[i] != "."
    ensures Kept(segments) == segments
  {
    if segments != [] {
      KeptAll(segments[..|segments| - 1]);
      assert segments == segments[..|segments| - 1] + [segments[|segments| - 1]];
    }
  }

  /** The components of a valid path are its segments: its slashes are exactly where its components meet. */
  lemma ValidComponents(path: string)
    requires ValidPath(path)
    ensures Components(path) == Segments(path)
  {
    forall i | 0 <= i < |Segments(path)| ensures Segments(path)[i] != [] && Segments(path)[i] != "." {
      assert ValidSegment(Segments(path)[i]);
    }
    KeptAll(Segments(path));
  }

  /** Valid paths with the same components are the same path. */
  lemma ComponentsDeterminePath(a: string, b: string)
    requires ValidPath(a) && ValidPath(b) && Components(a) == Components(b)
    ensures a == b
  {
    ValidComponents(a);
    ValidComponents(b);
    JoinedSplit(a);
    JoinedSplit(b);
  }

  /** Without validation they need not be: a doubled slash disappears among the components. */
  lemma {:induction false} DoubledSlashMerges(path: string)
    ensures Components(path + ['/'] + ['/']) == Components(path + ['/']) == Components(path)
    ensures !ValidPath(path + ['/'])
  {
    var s: seq<string> := Segments(path);
    SplitStep(path, '/');
    SplitStep(path + ['/'], '/');
    KeptStep(s, []);
    KeptStep(s + [[]], []);
    assert Segments(path + ['/'])[|s|] == [];
    assert !ValidSegment(Segments(path + ['/'])[|s|]);
  }

  lemma SplitStep(path: string, c: char)
    ensures Segments(path + [c]) ==
            var before := Segments(path);
            if c == '/' then before + [[]] else before[|before| - 1 := before[|before| - 1] + [c]]
  {
    assert (path + [c])[..|path|] == path;
  }

  lemma KeptStep(segments: seq<string>, last: string)
    ensures Kept(segments + [last]) ==
            Kept(segments) + if last == [] || (last == "." && segments != []) then [] else [last]
  {
    assert (segments + [last])[..|segments|] == segments;
  }
}
