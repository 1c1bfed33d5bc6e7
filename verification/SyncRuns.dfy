/** Many clients syncing at once (internal/remote/client.go:140-179): each asks which blobs are missing, uploads
    them one by one, and then applies its manifest, while others do the same and jobs change their workspaces. */
module SyncRuns {
  import opened Share
  import opened SyncModel
  import opened SyncLaws
  import opened SafePaths

  datatype Source = Source(content: Content, x: bool)

  datatype Phase = Idle | Uploading(todo: seq<Sha>) | Done | Failed

  /** A client: its session, its tree, the manifest it built from it, and where it is. */
  datatype Client = Client(id: string, tree: map<Path, Source>, manifest: seq<File>, phase: Phase)

  datatype World = World(host: Host, clients: map<nat, Client>)

  datatype Event =
    | Asks(c: nat, missing: seq<Sha>)
    | Uploads(c: nat, data: Content)
    | Applies(c: nat)
    | JobWrites(id: string, p: Path, content: Content, x: bool)
    | JobDeletes(id: string, p: Path)
    | Forgets(id: string)

  ghost predicate Names(files: seq<File>, sha: Sha) {
    exists f :: f in files && f.sha == sha
  }

  /** The hashes a manifest names that the host lacks, each once. */
  ghost predicate IsMissing(blobs: map<Sha, Content>, files: seq<File>, missing: seq<Sha>) {
    && (forall sha :: sha in missing <==> ValidSha(sha) && sha !in blobs && Names(files, sha))
    && (forall i, j :: 0 <= i < j < |missing| ==> missing[i] != missing[j])
  }

  ghost predicate Enabled(w: World, e: Event) {
    match e
    case Asks(c, missing) =>
      c in w.clients && w.clients[c].phase.Idle? && IsMissing(w.host.blobs, w.clients[c].manifest, missing)
    case Uploads(c, _) => c in w.clients && w.clients[c].phase.Uploading? && w.clients[c].phase.todo != []
    case Applies(c) => c in w.clients && w.clients[c].phase == Uploading([])
    case JobWrites(id, _, _, _) => id in w.host.sessions
    case JobDeletes(id, _) => id in w.host.sessions
    case Forgets(_) => true
  }

  function Moved(w: World, c: nat, ph: Phase): map<nat, Client>
    requires c in w.clients
  {
    w.clients[c := w.clients[c].(phase := ph)]
  }

  ghost function Next(h: Hash, w: World, e: Event): World
    requires Enabled(w, e)
  {
    match e
    case Asks(c, missing) => w.(clients := Moved(w, c, Uploading(missing)))
    case Uploads(c, data) =>
      var todo := w.clients[c].phase.todo;
      var (blobs, problem) := Put(h, w.host.blobs, todo[0], data);
      World(w.host.(blobs := blobs), Moved(w, c, if problem.None? then Uploading(todo[1..]) else Failed))
    case Applies(c) =>
      var (host, problem) := Apply(w.host, w.clients[c].id, w.clients[c].manifest, true);
      World(host, Moved(w, c, if problem.None? then Done else Failed))
    case JobWrites(id, p, content, x) =>
      var s := w.host.sessions[id];
      w.(host := w.host.(sessions := w.host.sessions[id := s.(ws := s.ws[p := Disk(content, x, w.host.clock)])],
                         clock := w.host.clock + 1))
    case JobDeletes(id, p) =>
      var s := w.host.sessions[id];
      w.(host := w.host.(sessions := w.host.sessions[id := s.(ws := s.ws - {p})]))
    case Forgets(id) => w.(host := w.host.(sessions := w.host.sessions - {id}))
  }

  /** The manifest lists each file of the tree once, with its hash and mode. */
  ghost predicate Describes(h: Hash, files: seq<File>, tree: map<Path, Source>) {
    && (forall f :: f in files ==> f.path in tree && f.sha == h(tree[f.path].content) && f.x == tree[f.path].x)
    && (forall p :: p in tree ==> exists f :: f in files && f.path == p)
  }

  /** Whatever a client's manifest names is on the host or on its list to upload. */
  ghost predicate Covered(h: Hash, blobs: map<Sha, Content>, c: Client) {
    && Describes(h, c.manifest, c.tree)
    && (c.phase.Uploading? ==> forall f :: f in c.manifest ==> f.sha in blobs || f.sha in c.phase.todo)
  }

  ghost predicate WorldOk(h: Hash, w: World) {
    && HostOk(h, w.host)
    && (forall data :: ValidSha(h(data)))
    && forall c :: c in w.clients ==> Covered(h, w.host.blobs, w.clients[c])
  }

  /** Blobs are never removed or changed but for another content of the same hash. */
  ghost predicate Grown(h: Hash, was: map<Sha, Content>, now: map<Sha, Content>) {
    forall sha :: sha in was ==> sha in now && h(now[sha]) == h(was[sha])
  }

  lemma PutKeeps(h: Hash, s: Host, sha: Sha, data: Content)
    requires HostOk(h, s)
    ensures var (blobs, problem) := Put(h, s.blobs, sha, data);
            && HostOk(h, s.(blobs := blobs)) && Grown(h, s.blobs, blobs)
            && (problem.None? <==> ValidSha(sha) && h(data) == sha)
            && (problem.None? ==> sha in blobs)
  {
  }

  lemma StillCovered(h: Hash, was: map<Sha, Content>, now: map<Sha, Content>, c: Client)
    requires Covered(h, was, c) && Grown(h, was, now)
    ensures Covered(h, now, c)
  {
  }

  lemma JobKeeps(h: Hash, s: Host, id: string, p: Path, d: Disk)
    requires HostOk(h, s) && id in s.sessions && d.mtime == s.clock
    ensures var was := s.sessions[id];
            && HostOk(h, s.(sessions := s.sessions[id := was.(ws := was.ws[p := d])], clock := s.clock + 1))
            && HostOk(h, s.(sessions := s.sessions[id := was.(ws := was.ws - {p})]))
  {
    var was := s.sessions[id];
    WriteBelievable(h, was.ws, was.record, s.clock, p, d);
    forall q | Untouched(was.ws - {p}, was.record, q) ensures h((was.ws - {p})[q].content) == was.record[q].sha {
      assert Untouched(was.ws, was.record, q);
    }
    forall j | j in s.sessions ensures Believable(h, s.sessions[j].ws, s.sessions[j].record, s.clock + 1) {
      Later(h, s.sessions[j].ws, s.sessions[j].record, s.clock, s.clock + 1);
    }
  }

  lemma HostKeeps(h: Hash, w: World, e: Event)
    requires WorldOk(h, w) && Enabled(w, e)
    ensures HostOk(h, Next(h, w, e).host) && Grown(h, w.host.blobs, Next(h, w, e).host.blobs)
  {
    match e
    case Asks(_, _) =>
    case Uploads(c, data) => PutKeeps(h, w.host, w.clients[c].phase.todo[0], data);
    case Applies(c) => ApplyKeeps(h, w.host, w.clients[c].id, w.clients[c].manifest, true);
    case JobWrites(id, p, content, x) => JobKeeps(h, w.host, id, p, Disk(content, x, w.host.clock));
    case JobDeletes(id, p) => JobKeeps(h, w.host, id, p, Disk([], false, w.host.clock));
    case Forgets(_) =>
  }

  /** The one whose turn it is stays covered. */
  lemma MoverCovered(h: Hash, w: World, e: Event)
    requires WorldOk(h, w) && Enabled(w, e) && (e.Asks? || e.Uploads? || e.Applies?)
    ensures Covered(h, Next(h, w, e).host.blobs, Next(h, w, e).clients[e.c])
  {
    var c := w.clients[e.c];
    match e
    case Asks(_, missing) =>
      forall f | f in c.manifest ensures f.sha in w.host.blobs || f.sha in missing {
        assert ValidSha(h(c.tree[f.path].content));
      }
    case Uploads(_, data) =>
      PutKeeps(h, w.host, c.phase.todo[0], data);
      assert c.phase.todo == [c.phase.todo[0]] + c.phase.todo[1..];
    case Applies(_) =>
  }

  lemma StepKeeps(h: Hash, w: World, e: Event)
    requires WorldOk(h, w) && Enabled(w, e)
    ensures WorldOk(h, Next(h, w, e)) && Grown(h, w.host.blobs, Next(h, w, e).host.blobs)
  {
    HostKeeps(h, w, e);
    var after := Next(h, w, e);
    forall c | c in after.clients ensures Covered(h, after.host.blobs, after.clients[c]) {
      if (e.Asks? || e.Uploads? || e.Applies?) && c == e.c {
        MoverCovered(h, w, e);
      } else {
        StillCovered(h, w.host.blobs, after.host.blobs, w.clients[c]);
      }
    }
  }

  /** The workspace is the client's tree: the same paths, modes and hashes of contents. */
  ghost predicate Mirrors(h: Hash, ws: map<Path, Disk>, tree: map<Path, Source>) {
    ws.Keys == tree.Keys && forall p :: p in ws ==> h(ws[p].content) == h(tree[p].content) && ws[p].x == tree[p].x
  }

  lemma MatchesMirrors(h: Hash, ws: map<Path, Disk>, files: seq<File>, tree: map<Path, Source>)
    requires Matches(h, ws, files) && Describes(h, files, tree)
    ensures Mirrors(h, ws, tree)
  {
    TargetPaths(files);
    forall p | p in ws ensures h(ws[p].content) == h(tree[p].content) && ws[p].x == tree[p].x {
      assert Holds(h, ws, Target(files)[p]);
    }
  }

  /** After its uploads a client's apply never lacks a blob: it goes through exactly when the session's name is
      plain and the paths are ordinary, and then the workspace is the client's tree. */
  lemma SyncEnds(h: Hash, w: World, c: nat)
    requires WorldOk(h, w) && Enabled(w, Applies(c))
    ensures var after := Next(h, w, Applies(c));
            var k := w.clients[c];
            && (after.clients[c].phase == Done <==> PlainName(k.id) && forall p :: p in k.tree ==> Ordinary(p))
            && (after.clients[c].phase == Done ==>
                 k.id in after.host.sessions && Mirrors(h, after.host.sessions[k.id].ws, k.tree))
  {
    var k := w.clients[c];
    ApplyMatches(h, w.host, k.id, k.manifest);
    forall f | f in k.manifest ensures HasBlob(w.host.blobs, f.sha) {
    }
    assert (forall f :: f in k.manifest ==> SafePath(f.path)) <==> forall p :: p in k.tree ==> SafePath(p);
    SessionName(k.id);
    AllSafe(k.tree.Keys);
    assert (forall p :: p in k.tree ==> Ordinary(p)) <==> forall p :: p in k.tree.Keys ==> Ordinary(p);
    if Next(h, w, Applies(c)).clients[c].phase == Done {
      MatchesMirrors(h, Next(h, w, Applies(c)).host.sessions[k.id].ws, k.manifest, k.tree);
    }
  }

  ghost predicate IsRun(h: Hash, states: seq<World>, events: seq<Event>) {
    && |states| == |events| + 1
    && forall i :: 0 <= i < |events| ==> Enabled(states[i], events[i]) && states[i + 1] == Next(h, states[i], events[i])
  }

  /** Clients at the start of a sync, over any sound host. */
  ghost predicate Fresh(h: Hash, w: World) {
    && HostOk(h, w.host) && (forall data :: ValidSha(h(data)))
    && forall c :: c in w.clients ==> w.clients[c].phase.Idle? && Describes(h, w.clients[c].manifest, w.clients[c].tree)
  }

  lemma {:induction false} RunKeeps(h: Hash, states: seq<World>, events: seq<Event>)
    requires IsRun(h, states, events) && Fresh(h, states[0])
    ensures WorldOk(h, states[|events|]) && Grown(h, states[0].host.blobs, states[|events|].host.blobs)
    decreases |events|
  {
    if events != [] {
      var n := |events| - 1;
      assert forall i :: 0 <= i < n ==> events[..n][i] == events[i] && states[..n + 1][i] == states[i];
      RunKeeps(h, states[..n + 1], events[..n]);
      StepKeeps(h, states[n], events[n]);
    }
  }

  /** Under any interleaving with other clients and with jobs: whenever a client's apply goes through, its
      session's workspace is its tree; and it goes through unless the session's name is not plain or a path not
      ordinary. */
  lemma EverySyncMirrors(h: Hash, states: seq<World>, events: seq<Event>, c: nat)
    requires IsRun(h, states, events) && Fresh(h, states[0])
    requires events != [] && events[|events| - 1] == Applies(c)
    ensures var (before, after) := (states[|events| - 1], states[|events|]);
            var k := before.clients[c];
            && (after.clients[c].phase == Done <==> PlainName(k.id) && forall p :: p in k.tree ==> Ordinary(p))
            && (after.clients[c].phase == Done ==>
                 k.id in after.host.sessions && Mirrors(h, after.host.sessions[k.id].ws, k.tree))
  {
    var n := |events| - 1;
    assert forall i :: 0 <= i < n ==> events[..n][i] == events[i] && states[..n + 1][i] == states[i];
    RunKeeps(h, states[..n + 1], events[..n]);
    SyncEnds(h, states[n], c);
  }
}
