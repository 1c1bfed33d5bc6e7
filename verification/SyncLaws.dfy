/** What applying a manifest leaves, whatever could be skipped. */
module SyncLaws {
  import opened Share
  import opened SyncModel

  /** The mode and the hash a path should end with; of two entries for a path the later counts. */
  function Target(files: seq<File>): map<Path, File> {
    if files == [] then map[] else Target(files[..|files| - 1])[files[|files| - 1].path := files[|files| - 1]]
  }

  /** Blobs hash to their names. */
  ghost predicate Honest(h: Hash, blobs: map<Sha, Content>) {
    forall sha :: sha in blobs ==> h(blobs[sha]) == sha
  }

  /** The record can be believed: a file that looks untouched holds what was recorded. */
  ghost predicate Believable(h: Hash, ws: map<Path, Disk>, record: map<Path, Applied>, clock: nat) {
    && (forall p :: p in ws ==> ws[p].mtime < clock)
    && (forall p :: p in record ==> record[p].mtime < clock)
    && (forall p :: Untouched(ws, record, p) ==> h(ws[p].content) == record[p].sha)
  }

  /** The path holds what the entry says. */
  ghost predicate Holds(h: Hash, ws: map<Path, Disk>, f: File) {
    f.path in ws && h(ws[f.path].content) == f.sha && ws[f.path].x == f.x
  }

  /** Halfway through a manifest: everything asked for so far is in place, everything else untouched. */
  ghost predicate Progress(h: Hash, files: seq<File>, was: map<Path, Disk>, record: map<Path, Applied>, w: Work) {
    && Believable(h, w.ws, record, w.clock)
    && Believable(h, w.ws, w.next, w.clock)
    && (w.problem.None? ==> w.wanted == Target(files).Keys && forall p :: p in Target(files) ==>
      Holds(h, w.ws, Target(files)[p]))
    && (forall p :: p in Target(files) ==> Target(files)[p].path == p)
    && (w.problem.None? ==> forall p :: p !in Target(files) ==>
      (p in w.ws <==> p in was) && (p in was ==> w.ws[p] == was[p]))
  }

  lemma WriteBelievable(h: Hash, ws: map<Path, Disk>, record: map<Path, Applied>, clock: nat, p: Path, d: Disk)
    requires Believable(h, ws, record, clock) && d.mtime == clock
    ensures Believable(h, ws[p := d], record, clock + 1)
    ensures Believable(h, ws[p := d], record[p := Applied(h(d.content), |d.content|, clock)], clock + 1)
  {
    var after, next := ws[p := d], record[p := Applied(h(d.content), |d.content|, clock)];
    forall q | Untouched(after, record, q) ensures h(after[q].content) == record[q].sha {
      assert q != p && Untouched(ws, record, q);
    }
    forall q | Untouched(after, next, q) ensures h(after[q].content) == next[q].sha {
      assert q == p || Untouched(ws, record, q);
    }
  }

  lemma SkipBelievable(h: Hash, ws: map<Path, Disk>, record: map<Path, Applied>, next: map<Path, Applied>, clock: nat,
                       p: Path, x: bool)
    requires Believable(h, ws, record, clock) && Believable(h, ws, next, clock) && p in ws && p in record
    ensures Believable(h, ws[p := ws[p].(x := x)], record, clock)
    ensures Believable(h, ws[p := ws[p].(x := x)], next[p := record[p]], clock)
  {
    var after, later := ws[p := ws[p].(x := x)], next[p := record[p]];
    forall q | Untouched(after, record, q) ensures h(after[q].content) == record[q].sha {
      assert Untouched(ws, record, q);
    }
    forall q | Untouched(after, later, q) ensures h(after[q].content) == later[q].sha {
      assert if q == p then Untouched(ws, record, q) else Untouched(ws, next, q);
    }
  }

  /** Moving on by one file that is in place, all else untouched. */
  lemma Placed(h: Hash, files: seq<File>, f: File, was: map<Path, Disk>, record: map<Path, Applied>, w: Work,
               after: Work)
    requires Progress(h, files, was, record, w) && w.problem.None? && after.problem.None?
    requires Believable(h, after.ws, record, after.clock) && Believable(h, after.ws, after.next, after.clock)
    requires after.wanted == w.wanted + {f.path} && Holds(h, after.ws, f)
    requires f.path in after.ws && after.ws == w.ws[f.path := after.ws[f.path]]
    ensures Progress(h, files + [f], was, record, after)
  {
    assert (files + [f])[..|files|] == files;
  }

  lemma OneProgress(h: Hash, blobs: map<Sha, Content>, files: seq<File>, f: File, was: map<Path, Disk>,
                    record: map<Path, Applied>, w: Work)
    requires Honest(h, blobs) && Progress(h, files, was, record, w) && w.problem.None?
    ensures Progress(h, files + [f], was, record, ApplyOne(blobs, record, f, w))
  {
    assert (files + [f])[..|files|] == files;
    var after := ApplyOne(blobs, record, f, w);
    if after.problem.None? {
      if Untouched(w.ws, record, f.path) && record[f.path].sha == f.sha {
        SkipBelievable(h, w.ws, record, w.next, w.clock, f.path, f.x);
      } else {
        var d := Disk(blobs[f.sha], f.x, w.clock);
        WriteBelievable(h, w.ws, record, w.clock, f.path, d);
        WriteBelievable(h, w.ws, w.next, w.clock, f.path, d);
      }
      Placed(h, files, f, was, record, w, after);
    }
  }

  lemma {:induction false} AllProgress(h: Hash, blobs: map<Sha, Content>, files: seq<File>, record: map<Path, Applied>,
                                       w: Work)
    requires Honest(h, blobs) && Progress(h, [], w.ws, record, w) && w.problem.None?
    ensures Progress(h, files, w.ws, record, ApplyAll(blobs, record, files, w))
  {
    if files != [] {
      var init, f := files[..|files| - 1], files[|files| - 1];
      AllProgress(h, blobs, init, record, w);
      assert files == init + [f];
      var before := ApplyAll(blobs, record, init, w);
      if before.problem.None? {
        OneProgress(h, blobs, init, f, w.ws, record, before);
      }
    }
  }

  lemma BelievableLess(h: Hash, ws: map<Path, Disk>, record: map<Path, Applied>, clock: nat, wanted: set<Path>)
    requires Believable(h, ws, record, clock)
    ensures Believable(h, Prune(ws, wanted), record, clock) && Believable(h, ws, map[], clock)
  {
    forall p | Untouched(Prune(ws, wanted), record, p) ensures Untouched(ws, record, p) {
    }
  }

  /** What a host keeps: blobs hash to their names, and records can be believed. */
  ghost predicate HostOk(h: Hash, s: Host) {
    && Honest(h, s.blobs) && (forall sha :: sha in s.blobs ==> ValidSha(sha))
    && forall id :: id in s.sessions ==> Believable(h, s.sessions[id].ws, s.sessions[id].record, s.clock)
  }

  lemma Later(h: Hash, ws: map<Path, Disk>, record: map<Path, Applied>, clock: nat, later: nat)
    requires Believable(h, ws, record, clock) && clock <= later
    ensures Believable(h, ws, record, later)
  {
  }

  lemma {:induction false} ClockAdvances(blobs: map<Sha, Content>, record: map<Path, Applied>, files: seq<File>,
                                         w: Work)
    ensures w.clock <= ApplyAll(blobs, record, files, w).clock
  {
    if files != [] {
      ClockAdvances(blobs, record, files[..|files| - 1], w);
    }
  }

  /** The work of one call. */
  ghost function Worked(s: Host, id: string, files: seq<File>): Work {
    ApplyAll(s.blobs, SessionOf(s, id).record, files, Begun(s, id))
  }

  lemma WorkedProgress(h: Hash, s: Host, id: string, files: seq<File>)
    requires HostOk(h, s)
    ensures Progress(h, files, SessionOf(s, id).ws, SessionOf(s, id).record, Worked(s, id, files))
  {
    var was := SessionOf(s, id);
    assert Believable(h, was.ws, was.record, s.clock);
    BelievableLess(h, was.ws, was.record, s.clock, {});
    AllProgress(h, s.blobs, files, was.record, Begun(s, id));
  }

  /** Applying a manifest keeps what the host keeps, succeed or fail. */
  lemma ApplyKeeps(h: Hash, s: Host, id: string, files: seq<File>, prune: bool)
    requires HostOk(h, s)
    ensures HostOk(h, Apply(s, id, files, prune).0) && Apply(s, id, files, prune).0.blobs == s.blobs
  {
    if SafeId(id) {
      var w := Worked(s, id, files);
      WorkedProgress(h, s, id, files);
      ClockAdvances(s.blobs, SessionOf(s, id).record, files, Begun(s, id));
      BelievableLess(h, w.ws, w.next, w.clock, w.wanted);
      var after := Apply(s, id, files, prune).0;
      forall j | j in after.sessions
        ensures Believable(h, after.sessions[j].ws, after.sessions[j].record, after.clock)
      {
        if j != id {
          Later(h, s.sessions[j].ws, s.sessions[j].record, s.clock, w.clock);
        }
      }
    }
  }

  predicate Good(blobs: map<Sha, Content>, f: File) {
    SafePath(f.path) && HasBlob(blobs, f.sha)
  }

  /** A manifest goes through exactly when each path is safe and each blob is there. */
  lemma {:induction false} GoesThrough(blobs: map<Sha, Content>, record: map<Path, Applied>, files: seq<File>, w: Work)
    requires w.problem.None?
    ensures ApplyAll(blobs, record, files, w).problem.None? <==> forall f :: f in files ==> Good(blobs, f)
  {
    if files != [] {
      var init, f := files[..|files| - 1], files[|files| - 1];
      GoesThrough(blobs, record, init, w);
      assert files == init + [f];
      assert forall g :: g in files <==> g in init || g == f;
      var before := ApplyAll(blobs, record, init, w);
      assert before.problem.None? ==> (ApplyOne(blobs, record, f, before).problem.None? <==> Good(blobs, f));
    }
  }

  /** The workspace is what the manifest says, file by file. */
  ghost predicate Matches(h: Hash, ws: map<Path, Disk>, files: seq<File>) {
    ws.Keys == Target(files).Keys && forall p :: p in ws ==> Holds(h, ws, Target(files)[p])
  }

  lemma {:induction false} TargetPaths(files: seq<File>)
    ensures forall p :: p in Target(files) ==> Target(files)[p].path == p && Target(files)[p] in files
    ensures forall f :: f in files ==> f.path in Target(files)
  {
    if files != [] {
      var init, f := files[..|files| - 1], files[|files| - 1];
      TargetPaths(init);
      assert files == init + [f];
      assert forall g :: g in files <==> g in init || g == f;
      assert Target(files) == Target(init)[f.path := f];
    }
  }

  /** A pruning apply goes through exactly when the session and the paths are safe and the blobs there, and then
      leaves just the manifest's files, with its contents and modes. */
  lemma ApplyMatches(h: Hash, s: Host, id: string, files: seq<File>)
    requires HostOk(h, s)
    ensures var (after, problem) := Apply(s, id, files, true);
            && (problem.None? <==> SafeId(id) && forall f :: f in files ==> Good(s.blobs, f))
            && (problem.None? ==> id in after.sessions && Matches(h, after.sessions[id].ws, files))
            && (forall j :: j in s.sessions && j != id ==> j in after.sessions && after.sessions[j] == s.sessions[j])
  {
    if SafeId(id) {
      var w := Worked(s, id, files);
      WorkedProgress(h, s, id, files);
      GoesThrough(s.blobs, SessionOf(s, id).record, files, Begun(s, id));
      TargetPaths(files);
      if w.problem.None? {
        forall p | p in w.ws && p in w.wanted ensures Holds(h, Prune(w.ws, w.wanted), Target(files)[p]) {
          assert Holds(h, w.ws, Target(files)[p]);
        }
      }
    }
  }

  /** The first problem ends the call. */
  lemma {:induction false} ApplyStops(blobs: map<Sha, Content>, record: map<Path, Applied>, files: seq<File>, i: nat,
                                      w: Work)
    requires i <= |files| && ApplyAll(blobs, record, files[..i], w).problem.Some?
    ensures ApplyAll(blobs, record, files, w) == ApplyAll(blobs, record, files[..i], w)
    decreases |files|
  {
    if i == |files| {
      assert files[..i] == files;
    } else {
      assert files[..|files| - 1][..i] == files[..i];
      ApplyStops(blobs, record, files[..|files| - 1], i, w);
    }
  }

  /** The first file that is not in order ends an apply: those before it are written, those after it are not. */
  lemma FirstBad(blobs: map<Sha, Content>, record: map<Path, Applied>, files: seq<File>, i: nat, w: Work)
    requires w.problem.None? && i < |files| && !Good(blobs, files[i])
    requires forall j :: 0 <= j < i ==> Good(blobs, files[j])
    ensures var done := ApplyAll(blobs, record, files[..i], w);
            && done.problem.None?
            && ApplyAll(blobs, record, files, w) ==
                 done.(problem := Some(if SafePath(files[i].path) then MissingBlob(files[i].path)
                                       else UnsafePath(files[i].path)))
  {
    GoesThrough(blobs, record, files[..i], w);
    assert forall f :: f in files[..i] ==> Good(blobs, f);
    assert files[..i + 1][..i] == files[..i];
    ApplyStops(blobs, record, files, i + 1, w);
  }

  /** The files of a manifest are in place, and every other path is as it was. */
  ghost predicate Added(h: Hash, was: map<Path, Disk>, now: map<Path, Disk>, files: seq<File>) {
    && (forall p :: p in Target(files) ==> Holds(h, now, Target(files)[p]))
    && (forall p :: p !in Target(files) ==> (p in now <==> p in was) && (p in was ==> now[p] == was[p]))
  }

  /** An apply that does not prune adds the manifest's files to what is there. One that fails adds those before the
      first file that is not in order, and leaves the record of what was applied last as it was. */
  lemma ApplyAdds(h: Hash, s: Host, id: string, files: seq<File>, prune: bool, i: nat)
    requires HostOk(h, s) && SafeId(id) && i <= |files|
    requires (forall j :: 0 <= j < i ==> Good(s.blobs, files[j])) && (i < |files| ==> !Good(s.blobs, files[i]))
    ensures var (after, problem) := Apply(s, id, files, prune);
            && id in after.sessions && (problem.Some? <==> i < |files|)
            && (i < |files| || !prune ==> Added(h, SessionOf(s, id).ws, after.sessions[id].ws, files[..i]))
            && (i < |files| ==> after.sessions[id].record == SessionOf(s, id).record)
  {
    WorkedProgress(h, s, id, files[..i]);
    GoesThrough(s.blobs, SessionOf(s, id).record, files[..i], Begun(s, id));
    assert forall f :: f in files[..i] ==> Good(s.blobs, f);
    if i < |files| {
      FirstBad(s.blobs, SessionOf(s, id).record, files, i, Begun(s, id));
    } else {
      assert files[..i] == files;
    }
    TargetPaths(files[..i]);
  }

  /** Two trees with the same paths, modes and hashes of contents. */
  ghost predicate SameTree(h: Hash, a: map<Path, Disk>, b: map<Path, Disk>) {
    a.Keys == b.Keys && forall p :: p in a ==> h(a[p].content) == h(b[p].content) && a[p].x == b[p].x
  }

  /** The host as if nothing had been recorded: every file is written. */
  function Unrecorded(s: Host, id: string): Host {
    s.(sessions := s.sessions[id := SessionOf(s, id).(record := map[])])
  }

  lemma SamePlaces(h: Hash, files: seq<File>, was: map<Path, Disk>, r: map<Path, Applied>, q: map<Path, Applied>,
                   a: Work, b: Work)
    requires Progress(h, files, was, r, a) && Progress(h, files, was, q, b) && a.problem.None? && b.problem.None?
    ensures a.wanted == b.wanted && SameTree(h, a.ws, b.ws)
  {
    var t := Target(files);
    forall p ensures p in a.ws <==> p in b.ws
             ensures p in a.ws && p in b.ws ==> h(a.ws[p].content) == h(b.ws[p].content) && a.ws[p].x == b.ws[p].x
    {
      if p in t {
        assert Holds(h, a.ws, t[p]) && Holds(h, b.ws, t[p]);
      }
    }
  }

  /** Skipping files that look untouched changes nothing that matters: the workspace is the one a full rewrite
      leaves, and the call goes through or not alike. */
  lemma IncrementalIsFull(h: Hash, s: Host, id: string, files: seq<File>, prune: bool)
    requires HostOk(h, s)
    ensures var ((a, pa), (b, pb)) := (Apply(s, id, files, prune), Apply(Unrecorded(s, id), id, files, prune));
            && (pa.None? <==> pb.None?)
            && (pa.None? && pb.None? ==> SameTree(h, a.sessions[id].ws, b.sessions[id].ws))
  {
    if SafeId(id) {
      var was := SessionOf(s, id);
      var full := Unrecorded(s, id);
      assert SessionOf(full, id) == Session(was.ws, map[]);
      BelievableLess(h, was.ws, was.record, s.clock, {});
      WorkedProgress(h, s, id, files);
      WorkedProgress(h, full, id, files);
      GoesThrough(s.blobs, was.record, files, Begun(s, id));
      GoesThrough(s.blobs, map[], files, Begun(full, id));
      if Worked(s, id, files).problem.None? {
        SamePlaces(h, files, was.ws, was.record, map[], Worked(s, id, files), Worked(full, id, files));
      }
    }
  }
}
