/** Where the Server stores a recording, and why no two recordings share a file. */
module FilePaths {
  import opened Basics
  import opened Text

  predicate Alphanumeric(c: char) {
    'A' <= c <= 'Z' || 'a' <= c <= 'z' || '0' <= c <= '9'
  }

  /** A letter or digit, then up to 127 letters, digits, dots, underscores or dashes. */
  predicate SafeName(name: string) {
    && 1 <= |name| <= 128
    && Alphanumeric(name[0])
    && forall i :: 0 <= i < |name| ==> Alphanumeric(name[i]) || name[i] in "._-"
  }

  function TrimJson(segment: string): string {
    if |segment| >= 5 && segment[|segment| - 5..] == ".json" then segment[..|segment| - 5] else segment
  }

  predicate SafeSegment(segment: string) {
    SafeName(TrimJson(segment))
  }

  lemma SafeHasNoSlash(segment: string)
    requires SafeSegment(segment)
    ensures Without(segment, '/') && segment != ""
  {
    var name := TrimJson(segment);
    if name != segment {
      assert segment == name + ".json";
      assert Without(".json", '/');
    }
  }

  /** Joining onto a clean absolute root; the root of the filesystem already ends in a slash. */
  function JoinRoot(root: string, segments: seq<string>): string
    requires |segments| >= 1
  {
    (if root == "/" then "" else root) + "/" + Join(segments, '/')
  }

  predicate Under(root: string, path: string) {
    |path| > |root| && path[..|root| + 1] == root + "/"
  }

  function Segments(station: string, pass: string, relative: string): seq<string> {
    [station, pass] + Split(relative, '/')
  }

  predicate Storable(root: string, segments: seq<string>) {
    && |segments| >= 1
    && (forall i :: 0 <= i < |segments| ==> SafeSegment(segments[i]))
    && Under(root, JoinRoot(root, segments))
  }

  /** The file a recording is stored in, or None when the path is refused. */
  function RecordingFile(root: string, station: string, pass: string, relative: string): (path: Option<string>)
    ensures path.Some? ==> Under(root, path.value)
  {
    var segments := Segments(station, pass, relative);
    if relative != "" && Storable(root, segments) then Some(JoinRoot(root, segments)) else None
  }

  method JoinSafe(root: string, segments: seq<string>) returns (path: Option<string>)
    requires |segments| >= 1
    ensures path == if Storable(root, segments) then Some(JoinRoot(root, segments)) else None
  {
    for i := 0 to |segments|
      invariant forall k :: 0 <= k < i ==> SafeSegment(segments[k])
    {
      if !SafeSegment(segments[i]) { return None; }
    }
    var joined := JoinRoot(root, segments);
    path := if Under(root, joined) then Some(joined) else None;
  }

  /** As the server computes it, segment by segment. */
  method RecordingFilePath(root: string, station: string, pass: string, relative: string) returns (path: Option<string>)
    ensures path == RecordingFile(root, station, pass, relative)
  {
    if relative == "" { return None; }
    var segments := [station, pass];
    var elements := Split(relative, '/');
    for i := 0 to |elements|
      invariant segments == [station, pass] + elements[..i]
    {
      if elements[i] == "" {
        EmptyRefused(root, station, pass, relative, i);
        return None;
      }
      segments := segments + [elements[i]];
    }
    assert elements[..|elements|] == elements;
    path := JoinSafe(root, segments);
  }

  lemma EmptyRefused(root: string, station: string, pass: string, relative: string, i: nat)
    requires i < |Split(relative, '/')| && Split(relative, '/')[i] == ""
    ensures RecordingFile(root, station, pass, relative) == None
  {
    assert Segments(station, pass, relative)[i + 2] == "";
    assert !SafeSegment("");
  }

  /** What a stored path looks like: root, station, pass and relative path, joined by slashes; and which are accepted. */
  lemma PathReads(root: string, station: string, pass: string, relative: string)
    ensures RecordingFile(root, station, pass, relative).Some? ==>
              RecordingFile(root, station, pass, relative).value == root + "/" + station + "/" + pass + "/" + relative
    ensures RecordingFile(root, station, pass, relative).Some? <==>
              root != "/" && relative != "" && AllAcceptable([station, pass] + Split(relative, '/'))
  {
    var segments := Segments(station, pass, relative);
    JoinSplit(relative, '/');
    assert segments[1..] == [pass] + Split(relative, '/');
    JoinCons(station, segments[1..], '/');
    JoinCons(pass, Split(relative, '/'), '/');
    var joined := station + "/" + (pass + "/" + relative);
    assert segments == [station] + segments[1..];
    assert Join(segments, '/') == joined;
    if root != "/" {
      assert JoinRoot(root, segments) == root + "/" + joined;
      assert (root + "/" + joined)[..|root| + 1] == root + "/";
      assert root + "/" + joined == root + "/" + station + "/" + pass + "/" + relative;
    } else {
      RootRefused(segments, joined);
    }
    SegmentsSafe(segments);
  }

  predicate NameCharacter(c: char) {
    'a' <= c <= 'z' || 'A' <= c <= 'Z' || '0' <= c <= '9' || c == '.' || c == '_' || c == '-'
  }

  /** At most 128 letters, digits, dots, underscores and dashes, of which the first is a letter or digit. */
  predicate AcceptableName(name: string) {
    && 1 <= |name| <= 128
    && (forall i :: 0 <= i < |name| ==> NameCharacter(name[i]))
    && name[0] != '.' && name[0] != '_' && name[0] != '-'
  }

  /** Such a name, or one with ".json" after it. */
  predicate Acceptable(segment: string) {
    if |segment| >= 5 && segment[|segment| - 5..] == ".json" then AcceptableName(segment[..|segment| - 5]) else AcceptableName(segment)
  }

  lemma CharacterSafe(c: char)
    ensures NameCharacter(c) <==> Alphanumeric(c) || c in "._-"
    ensures NameCharacter(c) && c != '.' && c != '_' && c != '-' <==> Alphanumeric(c)
  {
    assert "._-"[0] == '.' && "._-"[1] == '_' && "._-"[2] == '-';
  }

  lemma NameSafe(name: string)
    ensures SafeName(name) <==> AcceptableName(name)
  {
    forall i | 0 <= i < |name| ensures NameCharacter(name[i]) <==> Alphanumeric(name[i]) || name[i] in "._-" {
      CharacterSafe(name[i]);
    }
    if name != "" { CharacterSafe(name[0]); }
  }

  predicate AllAcceptable(segments: seq<string>) {
    forall i :: 0 <= i < |segments| ==> Acceptable(segments[i])
  }

  lemma SegmentsSafe(segments: seq<string>)
    ensures (forall i :: 0 <= i < |segments| ==> SafeSegment(segments[i])) <==> AllAcceptable(segments)
  {
    forall i | 0 <= i < |segments| ensures SafeSegment(segments[i]) <==> Acceptable(segments[i]) { SegmentSafe(segments[i]); }
  }

  lemma SegmentSafe(segment: string)
    ensures SafeSegment(segment) <==> Acceptable(segment)
  {
    NameSafe(TrimJson(segment));
  }

  /** Nothing is accepted under the root of the filesystem itself: the prefix test asks for two slashes. */
  lemma RootRefused(segments: seq<string>, joined: string)
    requires |segments| >= 1 && Join(segments, '/') == joined
    ensures !Storable("/", segments)
  {
    if SafeSegment(segments[0]) {
      SafeHasNoSlash(segments[0]);
      JoinStarts(segments);
      NotUnderSlash(joined);
      assert "" + "/" + joined == "/" + joined;
    }
  }

  lemma JoinStarts(segments: seq<string>)
    requires |segments| >= 1 && segments[0] != ""
    ensures Join(segments, '/') != "" && Join(segments, '/')[0] == segments[0][0]
  {
  }

  lemma NotUnderSlash(joined: string)
    requires joined != "" && joined[0] != '/'
    ensures !Under("/", "/" + joined)
  {
    var path := "/" + joined;
    assert path[1] == joined[0];
    assert ("/" + "/")[1] == '/';
  }

  /** Main result: distinct recordings never share a file, and every file is under the root with its own relative path. */
  lemma DistinctFiles(root: string, s1: string, p1: string, r1: string, s2: string, p2: string, r2: string)
    requires RecordingFile(root, s1, p1, r1).Some?
    requires RecordingFile(root, s1, p1, r1) == RecordingFile(root, s2, p2, r2)
    ensures s1 == s2 && p1 == p2 && r1 == r2
  {
    var a, b := Segments(s1, p1, r1), Segments(s2, p2, r2);
    forall i | 0 <= i < |a| ensures Without(a[i], '/') { SafeHasNoSlash(a[i]); }
    forall i | 0 <= i < |b| ensures Without(b[i], '/') { SafeHasNoSlash(b[i]); }
    var prefix := (if root == "/" then "" else root) + "/";
    var path := RecordingFile(root, s1, p1, r1).value;
    assert path[|prefix|..] == Join(a, '/') && path[|prefix|..] == Join(b, '/');
    SplitJoin(a, '/');
    SplitJoin(b, '/');
    assert a == b && a[0] == s1 && a[1] == p1 && a[2..] == Split(r1, '/');
    assert b[0] == s2 && b[1] == p2 && b[2..] == Split(r2, '/');
    JoinSplit(r1, '/');
    JoinSplit(r2, '/');
  }
}
