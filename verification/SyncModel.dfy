/** The host's side of workspace sync: blobs named by their hash, shared by all sessions, and each session's
    workspace with a record of what was last written (internal/session/session.go:84-254, 320-346). The hash is
    a parameter; every write of a file carries a new modification time, read off `clock`. */
module SyncModel {
  import opened Share

  type Sha = string
  type Path = string
  type Content = string
  type Hash = Content -> Sha

  datatype File = File(path: Path, sha: Sha, x: bool)

  datatype Disk = Disk(content: Content, x: bool, mtime: nat)

  datatype Applied = Applied(sha: Sha, size: nat, mtime: nat)

  datatype Session = Session(ws: map<Path, Disk>, record: map<Path, Applied>)

  datatype Host = Host(blobs: map<Sha, Content>, sessions: map<string, Session>, clock: nat)

  datatype Problem = BadSha | WrongSha | BadId | UnsafePath(path: Path) | MissingBlob(path: Path)

  predicate ValidSha(s: Sha) {
    |s| == 64 && forall i :: 0 <= i < |s| ==> '0' <= s[i] <= '9' || 'a' <= s[i] <= 'f'
  }

  predicate SafeId(id: string) {
    id != "" && forall i :: 0 <= i < |id| ==> id[i] != '/' && id[i] != '\\' && id[i] != '.'
  }

  predicate SafePath(p: Path) {
    p != "" && p[0] != '/' && forall i :: 0 <= i < |p| - 1 ==> !(p[i] == '.' && p[i + 1] == '.')
  }

  predicate HasBlob(blobs: map<Sha, Content>, sha: Sha) {
    ValidSha(sha) && sha in blobs
  }

  predicate Before(a: string, b: string) {
    if a == [] then b != []
    else b != [] && (a[0] < b[0] || (a[0] == b[0] && Before(a[1..], b[1..])))
  }

  /** Strings compare byte by byte: one of two different strings comes before the other, and so on. */
  lemma {:induction false} BeforeOrders(a: string, b: string, c: string)
    ensures Before(a, b) ==> !Before(b, a)
    ensures !Before(a, b) && !Before(b, c) ==> !Before(a, c)
    ensures a != b ==> Before(a, b) || Before(b, a)
  {
    if a != [] && b != [] {
      BeforeOrders(a[1..], b[1..], if c == [] then c else c[1..]);
      assert a == [a[0]] + a[1..] && b == [b[0]] + b[1..];
    }
  }

  /** Stores bytes under their hash. */
  function Put(h: Hash, blobs: map<Sha, Content>, sha: Sha, data: Content): (map<Sha, Content>, Option<Problem>) {
    if !ValidSha(sha) then (blobs, Some(BadSha))
    else if h(data) != sha then (blobs, Some(WrongSha))
    else (blobs[sha := data], None)
  }

  /** Where applying a manifest is: the workspace, the record for next time, the paths asked for, the clock,
      and what went wrong. */
  datatype Work = Work(ws: map<Path, Disk>, next: map<Path, Applied>, wanted: set<Path>, clock: nat,
                       problem: Option<Problem>)

  /** The file is as it was written last time. */
  predicate Untouched(ws: map<Path, Disk>, record: map<Path, Applied>, p: Path) {
    p in record && p in ws && |ws[p].content| == record[p].size && ws[p].mtime == record[p].mtime
  }

  function ApplyOne(blobs: map<Sha, Content>, record: map<Path, Applied>, f: File, w: Work): Work {
    if !SafePath(f.path) then w.(problem := Some(UnsafePath(f.path)))
    else if !HasBlob(blobs, f.sha) then w.(problem := Some(MissingBlob(f.path)))
    else if Untouched(w.ws, record, f.path) && record[f.path].sha == f.sha then
      w.(ws := w.ws[f.path := w.ws[f.path].(x := f.x)], next := w.next[f.path := record[f.path]],
         wanted := w.wanted + {f.path})
    else
      w.(ws := w.ws[f.path := Disk(blobs[f.sha], f.x, w.clock)],
         next := w.next[f.path := Applied(f.sha, |blobs[f.sha]|, w.clock)],
         wanted := w.wanted + {f.path}, clock := w.clock + 1)
  }

  /** Applies the files in order, up to the first problem. */
  function ApplyAll(blobs: map<Sha, Content>, record: map<Path, Applied>, files: seq<File>, w: Work): Work {
    if files == [] then w
    else
      var before := ApplyAll(blobs, record, files[..|files| - 1], w);
      if before.problem.Some? then before else ApplyOne(blobs, record, files[|files| - 1], before)
  }

  function SessionOf(s: Host, id: string): Session {
    if id in s.sessions then s.sessions[id] else Session(map[], map[])
  }

  function Begun(s: Host, id: string): Work {
    Work(SessionOf(s, id).ws, map[], {}, s.clock, None)
  }

  function Prune(ws: map<Path, Disk>, wanted: set<Path>): map<Path, Disk> {
    map p | p in ws && p in wanted :: ws[p]
  }

  /** Writes the manifest into the session's workspace; a failed call leaves what it wrote, and the old record. */
  function Apply(s: Host, id: string, files: seq<File>, prune: bool): (Host, Option<Problem>) {
    if !SafeId(id) then (s, Some(BadId))
    else
      var was := SessionOf(s, id);
      var w := ApplyAll(s.blobs, was.record, files, Begun(s, id));
      if w.problem.Some? then
        (s.(sessions := s.sessions[id := was.(ws := w.ws)], clock := w.clock), w.problem)
      else
        (s.(sessions := s.sessions[id := Session(if prune then Prune(w.ws, w.wanted) else w.ws, w.next)],
            clock := w.clock), None)
  }
}
