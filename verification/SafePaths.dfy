/** Where the paths of a manifest lead: nothing is written outside the session's workspace, and just the paths with two
    dots in a row, and those that start at the root, are turned away (internal/session/session.go:151-215, 301-326). */
module SafePaths {
  import opened Share
  import opened SyncModel
  import opened SyncLaws

  // ---- paths, segment by segment ----

  /** The names between the slashes. */
  function Segments(p: Path): seq<string> {
    if p == "" then [""]
    else
      var rest := Segments(p[1..]);
      if p[0] == '/' then [""] + rest else [[p[0]] + rest[0]] + rest[1..]
  }

  /** How deep below the workspace a walk along the segments is, from `depth` on; "." and nothing stay, ".." goes up. */
  function Walk(segments: seq<string>, depth: int): int {
    if segments == [] then depth
    else if segments[0] == "" || segments[0] == "." then Walk(segments[1..], depth)
    else if segments[0] == ".." then Walk(segments[1..], depth - 1)
    else Walk(segments[1..], depth + 1)
  }

  /** The path is relative, and no walk along the first of its segments leaves the workspace. */
  ghost predicate Inside(p: Path) {
    && p != "" && p[0] != '/'
    && forall k :: 0 <= k <= |Segments(p)| ==> 0 <= Walk(Segments(p)[..k], 0)
  }

  /** Two dots in a row, anywhere. */
  ghost predicate TwoDots(p: string) {
    exists a: string, b: string :: p == a + ".." + b
  }

  /** The path says something, is relative, and has no two dots in a row. */
  ghost predicate Ordinary(p: Path) {
    p != "" && p[0] != '/' && !TwoDots(p)
  }

  lemma TwoDotsAt(p: string)
    ensures TwoDots(p) <==> exists i :: 0 <= i < |p| - 1 && p[i] == '.' && p[i + 1] == '.'
  {
    if a: string, b: string :| p == a + ".." + b {
      assert p[|a|] == '.' && p[|a| + 1] == '.';
    }
    if i :| 0 <= i < |p| - 1 && p[i] == '.' && p[i + 1] == '.' {
      assert p == p[..i] + ".." + p[i + 2..];
    }
  }

  /** The store's test of a path. */
  lemma SafeIsOrdinary(p: Path)
    ensures SafePath(p) <==> Ordinary(p)
  {
    TwoDotsAt(p);
  }

  /** Every segment lies somewhere in the path. */
  lemma {:induction false} SegmentLies(p: Path, k: nat) returns (a: string, b: string)
    requires k < |Segments(p)|
    ensures p == a + Segments(p)[k] + b
    ensures k == 0 ==> a == ""
    decreases |p|
  {
    if p == "" {
      a, b := "", "";
    } else if p[0] == '/' {
      if k == 0 {
        a, b := "", p;
      } else {
        a, b := SegmentLies(p[1..], k - 1);
        assert p == [p[0]] + p[1..];
        a := [p[0]] + a;
      }
    } else if k == 0 {
      a, b := SegmentLies(p[1..], 0);
      assert p == [p[0]] + p[1..];
      a := "";
    } else {
      a, b := SegmentLies(p[1..], k);
      assert p == [p[0]] + p[1..];
      a := [p[0]] + a;
    }
  }

  lemma UpIsTwoDots(p: Path)
    requires ".." in Segments(p)
    ensures TwoDots(p)
  {
    var k :| 0 <= k < |Segments(p)| && Segments(p)[k] == "..";
    var a, b := SegmentLies(p, k);
  }

  lemma {:induction false} WalkDown(segments: seq<string>, depth: int)
    requires ".." !in segments
    ensures depth <= Walk(segments, depth)
  {
    if segments != [] {
      assert segments == [segments[0]] + segments[1..];
      WalkDown(segments[1..], if segments[0] == "" || segments[0] == "." then depth else depth + 1);
    }
  }

  /** Ordinary paths stay inside. */
  lemma OrdinaryInside(p: Path)
    requires Ordinary(p)
    ensures Inside(p)
  {
    if ".." in Segments(p) {
      UpIsTwoDots(p);
    }
    forall k | 0 <= k <= |Segments(p)| ensures 0 <= Walk(Segments(p)[..k], 0) {
      WalkDown(Segments(p)[..k], 0);
    }
  }

  /** The converse fails: a name with two dots in it is turned away, though it stays inside. */
  lemma TurnedAway()
    ensures Inside("a..b") && !SafePath("a..b")
  {
    NoSlash("a..b");
    var s := Segments("a..b");
    assert s[..0] == [] && s[..1] == s && s[1..] == [];
    assert "a..b"[1] == '.' && "a..b"[2] == '.';
  }

  // ---- what an apply writes ----

  ghost predicate OneName(id: string) {
    Segments(id) == [id] && id !in {"", ".", ".."}
  }

  lemma {:induction false} NoSlash(p: Path)
    requires '/' !in p
    ensures Segments(p) == [p]
    decreases |p|
  {
    if p != "" {
      assert p == [p[0]] + p[1..];
      NoSlash(p[1..]);
    }
  }

  /** The name is not empty, and has no slash, backslash or dot. */
  ghost predicate PlainName(id: string) {
    id != "" && '/' !in id && '\\' !in id && '.' !in id
  }

  /** A session's name is the name of one directory, and no other sort of name is taken. */
  lemma SessionName(id: string)
    ensures SafeId(id) <==> PlainName(id)
    ensures SafeId(id) ==> OneName(id)
  {
    if SafeId(id) {
      NoSlash(id);
      assert id[0] != '.';
    }
  }

  /** The name of a blob: 64 digits, in lower case. */
  lemma BlobName(sha: Sha)
    ensures ValidSha(sha) <==> |sha| == 64 && forall i :: 0 <= i < 64 ==> sha[i] in "0123456789abcdef"
    ensures ValidSha(sha) ==> OneName(sha)
  {
    var digits := "0123456789abcdef";
    forall c: char ensures c in digits <==> '0' <= c <= '9' || 'a' <= c <= 'f' {
      HexDigit(c);
    }
    if ValidSha(sha) {
      assert '/' !in sha && sha[0] != '.';
      NoSlash(sha);
    }
  }

  lemma HexDigit(c: char)
    ensures c in "0123456789abcdef" <==> '0' <= c <= '9' || 'a' <= c <= 'f'
  {
    var digits := "0123456789abcdef";
    if '0' <= c <= '9' {
      assert digits[c as int - '0' as int] == c;
    } else if 'a' <= c <= 'f' {
      assert digits[10 + c as int - 'a' as int] == c;
    }
  }

  /** At a path outside its ordinary ones a workspace is as it was. */
  ghost predicate OutsideKept(was: map<Path, Disk>, now: map<Path, Disk>) {
    forall p :: !Ordinary(p) ==> (p in now <==> p in was) && (p in was && p in now ==> now[p] == was[p])
  }

  lemma {:induction false} AllKept(blobs: map<Sha, Content>, record: map<Path, Applied>, files: seq<File>, w: Work)
    ensures OutsideKept(w.ws, ApplyAll(blobs, record, files, w).ws)
    ensures forall p :: p in ApplyAll(blobs, record, files, w).wanted ==> p in w.wanted || Ordinary(p)
  {
    if files != [] {
      var f := files[|files| - 1];
      AllKept(blobs, record, files[..|files| - 1], w);
      SafeIsOrdinary(f.path);
    }
  }

  /** An apply, gone through or not, writes only along ordinary paths, which stay inside the workspace; it touches no
      other session. A pruning one removes what is not of the manifest. */
  lemma ApplyConfined(s: Host, id: string, files: seq<File>, prune: bool)
    ensures var (after, problem) := Apply(s, id, files, prune);
            var (was, now) := (SessionOf(s, id).ws, SessionOf(after, id).ws);
            && (forall p :: p in now && (p !in was || now[p] != was[p]) ==> Inside(p))
            && (problem.Some? || !prune ==> OutsideKept(was, now))
            && (problem.None? ==> forall f :: f in files ==> Inside(f.path))
            && (forall j :: j != id ==>
                  && (j in after.sessions <==> j in s.sessions)
                  && (j in s.sessions && j in after.sessions ==> after.sessions[j] == s.sessions[j]))
  {
    if SafeId(id) {
      AllKept(s.blobs, SessionOf(s, id).record, files, Begun(s, id));
      GoesThrough(s.blobs, SessionOf(s, id).record, files, Begun(s, id));
      var (was, now) := (SessionOf(s, id).ws, SessionOf(Apply(s, id, files, prune).0, id).ws);
      forall p | p in now && (p !in was || now[p] != was[p]) ensures Inside(p) {
        if Ordinary(p) { OrdinaryInside(p); }
      }
      if Apply(s, id, files, prune).1.None? {
        forall f | f in files ensures Inside(f.path) {
          SafeIsOrdinary(f.path);
          OrdinaryInside(f.path);
        }
      }
    }
  }

  lemma AllSafe(paths: set<Path>)
    ensures (forall p :: p in paths ==> SafePath(p)) <==> forall p :: p in paths ==> Ordinary(p)
  {
    forall p | p in paths ensures SafePath(p) <==> Ordinary(p) {
      SafeIsOrdinary(p);
    }
  }

  /** A manifest goes through exactly when the session's name is plain, every path is ordinary, and every blob is
      there. */
  lemma ApplyGoes(s: Host, id: string, files: seq<File>, prune: bool)
    ensures Apply(s, id, files, prune).1.None? <==>
              && PlainName(id)
              && forall f :: f in files ==> Ordinary(f.path) && ValidSha(f.sha) && f.sha in s.blobs
  {
    SessionName(id);
    GoesThrough(s.blobs, SessionOf(s, id).record, files, Begun(s, id));
    forall f ensures Good(s.blobs, f) <==> Ordinary(f.path) && ValidSha(f.sha) && f.sha in s.blobs {
      SafeIsOrdinary(f.path);
    }
  }

  /** A path that goes up anywhere ends the apply, and what is there stays; when nothing is wrong before it, it is what
      the answer names. */
  lemma UpRefused(s: Host, id: string, files: seq<File>, prune: bool, i: nat)
    requires i < |files| && ".." in Segments(files[i].path)
    ensures var (after, problem) := Apply(s, id, files, prune);
            var (p, was, now) := (files[i].path, SessionOf(s, id).ws, SessionOf(after, id).ws);
            && problem.Some?
            && (p in now <==> p in was) && (p in was && p in now ==> now[p] == was[p])
            && (SafeId(id) && (forall j :: 0 <= j < i ==> Good(s.blobs, files[j])) ==> problem == Some(UnsafePath(p)))
  {
    var p := files[i].path;
    UpIsTwoDots(p);
    SafeIsOrdinary(p);
    ApplyConfined(s, id, files, prune);
    ApplyGoes(s, id, files, prune);
    assert files[i] in files;
    if SafeId(id) && forall j :: 0 <= j < i ==> Good(s.blobs, files[j]) {
      FirstBad(s.blobs, SessionOf(s, id).record, files, i, Begun(s, id));
    }
  }
}
