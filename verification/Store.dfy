/** The session store (internal/session/session.go:84-254): the loops behind `SyncModel`, and a client's sync on
    its own (internal/remote/client.go:140-179). */
module StoreObject {
  import opened Share
  import opened SyncModel
  import Sorting
  import L = SyncLaws
  import R = SyncRuns
  import P = SafePaths

  class Store {
    var blobs: map<Sha, Content>
    var sessions: map<string, Session>
    var clock: nat

    ghost function State(): Host
      reads this
    {
      Host(blobs, sessions, clock)
    }

    constructor ()
      ensures State() == Host(map[], map[], 0)
    {
      blobs, sessions, clock := map[], map[], 0;
    }

    /** The hashes a manifest names that are not stored, sorted. */
    method Missing(files: seq<File>) returns (miss: seq<Sha>)
      ensures R.IsMissing(blobs, files, miss)
      ensures forall i, j :: 0 <= i < j < |miss| ==> Before(miss[i], miss[j])
    {
      var want: set<Sha> := {};
      var i := 0;
      while i < |files|
        invariant 0 <= i <= |files|
        invariant forall sha :: sha in want <==> ValidSha(sha) && R.Names(files[..i], sha)
      {
        assert files[..i + 1] == files[..i] + [files[i]];
        forall sha ensures R.Names(files[..i + 1], sha) <==> R.Names(files[..i], sha) || sha == files[i].sha {
          NamesMore(files[..i], files[i], sha);
        }
        if ValidSha(files[i].sha) {
          want := want + {files[i].sha};
        }
        i := i + 1;
      }
      assert files[..i] == files;
      var found := Lacking(want);
      miss := Sorting.Sort(found, Before);
      SortedMissing(files, want, found, blobs);
    }

    method Lacking(want: set<Sha>) returns (found: seq<Sha>)
      requires forall sha :: sha in want ==> ValidSha(sha)
      ensures forall sha :: sha in found <==> sha in want && sha !in blobs
      ensures forall i, j :: 0 <= i < j < |found| ==> found[i] != found[j]
    {
      found := [];
      var todo := want;
      while todo != {}
        invariant todo <= want
        invariant forall sha :: sha in found <==> sha in want && sha !in todo && sha !in blobs
        invariant forall i, j :: 0 <= i < j < |found| ==> found[i] != found[j]
        decreases |todo|
      {
        var sha :| sha in todo;
        todo := todo - {sha};
        if !HasBlob(blobs, sha) {
          found := found + [sha];
        }
      }
    }

    /** Stores bytes that hash to the name they are sent under. */
    method PutBlobFrom(h: Hash, sha: Sha, data: Content) returns (problem: Option<Problem>)
      modifies this`blobs
      ensures (blobs, problem) == Put(h, old(blobs), sha, data)
    {
      if !ValidSha(sha) {
        return Some(BadSha);
      }
      if h(data) != sha {
        return Some(WrongSha);
      }
      blobs := blobs[sha := data];
      return None;
    }

    /** Writes the manifest into the session's workspace; files that look untouched are not rewritten. */
    method Apply(id: string, files: seq<File>, prune: bool) returns (problem: Option<Problem>)
      modifies this`sessions, this`clock
      ensures (State(), problem) == SyncModel.Apply(old(State()), id, files, prune)
    {
      if !SafeId(id) {
        return Some(BadId);
      }
      var s := if id in sessions then sessions[id] else Session(map[], map[]);
      var w := ApplyFiles(s, files);
      clock := w.clock;
      if w.problem.Some? {
        sessions := sessions[id := s.(ws := w.ws)];
        return w.problem;
      }
      var ws := w.ws;
      if prune {
        ws := map p | p in ws && p in w.wanted :: ws[p];
      }
      sessions := sessions[id := Session(ws, w.next)];
      return None;
    }

    /** Writes the files one by one, up to the first problem. */
    method ApplyFiles(s: Session, files: seq<File>) returns (w: Work)
      ensures w == ApplyAll(blobs, s.record, files, Work(s.ws, map[], {}, clock, None))
    {
      ghost var begun := Work(s.ws, map[], {}, clock, None);
      w := Work(s.ws, map[], {}, clock, None);
      var i := 0;
      while i < |files|
        invariant 0 <= i <= |files| && w.problem.None?
        invariant w == ApplyAll(blobs, s.record, files[..i], begun)
      {
        ApplyNext(blobs, s.record, files, i, begun);
        w := WriteOne(s.record, files[i], w);
        if w.problem.Some? {
          L.ApplyStops(blobs, s.record, files, i + 1, begun);
          return;
        }
        i := i + 1;
      }
      assert files[..i] == files;
    }

    method WriteOne(record: map<Path, Applied>, f: File, was: Work) returns (w: Work)
      ensures w == ApplyOne(blobs, record, f, was)
    {
      if !SafePath(f.path) {
        return was.(problem := Some(UnsafePath(f.path)));
      }
      if !HasBlob(blobs, f.sha) {
        return was.(problem := Some(MissingBlob(f.path)));
      }
      w := was.(wanted := was.wanted + {f.path});
      if Untouched(w.ws, record, f.path) && record[f.path].sha == f.sha {
        return w.(ws := w.ws[f.path := w.ws[f.path].(x := f.x)], next := w.next[f.path := record[f.path]]);
      }
      var now := w.clock;
      w := w.(ws := w.ws[f.path := Disk(blobs[f.sha], f.x, now)], clock := now + 1);
      w := w.(next := w.next[f.path := Applied(f.sha, |blobs[f.sha]|, now)]);
    }
  }

  lemma NamesMore(files: seq<File>, f: File, sha: Sha)
    ensures R.Names(files + [f], sha) <==> R.Names(files, sha) || sha == f.sha
  {
    assert forall g :: g in files + [f] <==> g in files || g == f;
  }

  lemma SortedMissing(files: seq<File>, want: set<Sha>, found: seq<Sha>, blobs: map<Sha, Content>)
    requires forall sha :: sha in want <==> ValidSha(sha) && R.Names(files, sha)
    requires forall sha :: sha in found <==> sha in want && sha !in blobs
    requires forall i, j :: 0 <= i < j < |found| ==> found[i] != found[j]
    ensures var miss := Sorting.Sort(found, Before);
            R.IsMissing(blobs, files, miss) && forall i, j :: 0 <= i < j < |miss| ==> Before(miss[i], miss[j])
  {
    var miss := Sorting.Sort(found, Before);
    Sorting.SortPermutes(found, Before);
    forall a, b, c
      ensures (Before(a, b) ==> !Before(b, a)) && (!Before(a, b) && !Before(b, c) ==> !Before(a, c))
    {
      BeforeOrders(a, b, c);
    }
    Sorting.SortOrders(found, Before);
    forall i, j | 0 <= i < j < |miss| ensures miss[i] != miss[j] {
      if miss[i] == miss[j] {
        Sorting.Twice(miss, i, j);
        assert miss[i] in found;
        var a :| 0 <= a < |found| && found[a] == miss[i];
        Sorting.Once(found, a);
      }
    }
    forall i, j | 0 <= i < j < |miss| ensures Before(miss[i], miss[j]) {
      BeforeOrders(miss[i], miss[j], []);
    }
  }

  lemma ApplyNext(blobs: map<Sha, Content>, record: map<Path, Applied>, files: seq<File>, i: nat, w: Work)
    requires i < |files| && ApplyAll(blobs, record, files[..i], w).problem.None?
    ensures ApplyAll(blobs, record, files[..i + 1], w) ==
              ApplyOne(blobs, record, files[i], ApplyAll(blobs, record, files[..i], w))
  {
    assert files[..i + 1][..i] == files[..i];
  }

  predicate Hashed(h: Hash, data: Sha -> Content, sha: Sha) {
    ValidSha(sha) && h(data(sha)) == sha
  }

  /** Sends the blobs one by one, up to the first that is refused. */
  method Upload(store: Store, h: Hash, miss: seq<Sha>, data: Sha -> Content) returns (problem: Option<Problem>)
    requires L.HostOk(h, store.State())
    modifies store`blobs
    ensures L.HostOk(h, store.State())
    ensures forall sha :: sha in old(store.blobs) ==> sha in store.blobs
    ensures problem.None? ==> forall sha :: sha in miss ==> sha in store.blobs
    ensures problem.Some? ==> exists sha :: sha in miss && !Hashed(h, data, sha)
  {
    problem := None;
    var i := 0;
    while i < |miss|
      invariant 0 <= i <= |miss| && problem.None?
      invariant L.HostOk(h, store.State())
      invariant forall sha :: sha in old(store.blobs) ==> sha in store.blobs
      invariant forall k :: 0 <= k < i ==> miss[k] in store.blobs
    {
      ghost var was := store.State();
      problem := store.PutBlobFrom(h, miss[i], data(miss[i]));
      R.PutKeeps(h, was, miss[i], data(miss[i]));
      if problem.Some? {
        assert miss[i] in miss && !Hashed(h, data, miss[i]);
        return;
      }
      i := i + 1;
    }
  }

  /** A client's sync with nobody else about: ask, upload, apply. `data` is what the client reads for a hash. When
      it goes through it leaves just the manifest's files; with files that still hash to their names it goes
      through exactly when the session's name is plain and the paths are ordinary. */
  method Sync(store: Store, h: Hash, id: string, manifest: seq<File>, data: Sha -> Content)
    returns (problem: Option<Problem>)
    requires L.HostOk(h, store.State())
    modifies store
    ensures L.HostOk(h, store.State())
    ensures problem.None? ==> id in store.sessions && L.Matches(h, store.sessions[id].ws, manifest)
    ensures (forall f :: f in manifest ==> Hashed(h, data, f.sha)) ==>
              (problem.None? <==> P.PlainName(id) && forall f :: f in manifest ==> P.Ordinary(f.path))
    ensures forall j :: j in old(store.sessions) && j != id ==>
              j in store.sessions && store.sessions[j] == old(store.sessions[j])
  {
    var miss := store.Missing(manifest);
    problem := Upload(store, h, miss, data);
    if problem.Some? {
      return;
    }
    forall f | f in manifest && ValidSha(f.sha) ensures HasBlob(store.blobs, f.sha) {
      if f.sha !in old(store.blobs) {
        assert R.Names(manifest, f.sha);
        assert f.sha in miss;
      }
    }
    ghost var s := store.State();
    problem := store.Apply(id, manifest, true);
    L.ApplyKeeps(h, s, id, manifest, true);
    L.ApplyMatches(h, s, id, manifest);
    P.SessionName(id);
    forall f | f in manifest ensures SafePath(f.path) <==> P.Ordinary(f.path) {
      P.SafeIsOrdinary(f.path);
    }
  }
}
