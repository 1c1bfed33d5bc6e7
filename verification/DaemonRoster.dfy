/** While launches succeed and no suspended process is lost, the scheduler, the ledger and the job states tell
    one story (internal/daemon/daemon.go:159-316). */
module DaemonRoster {
  import opened Share
  import opened Cards
  import opened DaemonModel
  import opened DaemonLaws
  import Greedy
  import Lists
  import Sorting
  import S = SchedulerModel
  import D = DrainLaws

  ghost function QueueIds(queue: seq<Request>): set<string> {
    set r | r in queue :: r.id
  }

  ghost predicate Runs(jobs: map<string, Job>, id: string) {
    id in jobs && jobs[id].state == Running
  }

  ghost predicate Waits(jobs: map<string, Job>, id: string) {
    id in jobs && (jobs[id].state == Queued || jobs[id].state == Paused)
  }

  /** The scheduler runs the running jobs, and its queue holds the queued and the paused ones. Inside a step,
      the jobs in `gone` are already off their cards, and those in `new` are placed but not started. */
  ghost predicate Agree(jobs: map<string, Job>, running: set<string>, queued: set<string>, gone: set<string>,
                        placed: set<string>) {
    && (forall id :: id in running <==> (Runs(jobs, id) && id !in gone) || id in placed)
    && (forall id :: id in queued <==> Waits(jobs, id) && id !in placed)
    && (forall id :: id in placed ==> !Runs(jobs, id))
    && (forall id :: id in gone ==> Runs(jobs, id))
  }

  ghost predicate Exact(d: Daemon, gone: set<string>, placed: set<string>) {
    Agree(d.jobs, d.sched.running.Keys, QueueIds(d.sched.queue), gone, placed)
  }

  /** The next `n` launches succeed. */
  ghost predicate Launches(env: Env, from: nat, n: nat) {
    forall m: nat :: from <= m < from + n ==> env.launch(m)
  }

  // ---- the queue ----

  lemma QueueFront(q: seq<Request>, r: Request)
    ensures QueueIds([r] + q) == {r.id} + QueueIds(q) && QueueIds(q + [r]) == {r.id} + QueueIds(q)
  {
    assert forall x :: x in [r] + q <==> x == r || x in q;
    assert forall x :: x in q + [r] <==> x == r || x in q;
  }

  lemma QueueCancel(s: S.Sched, id: string)
    requires D.Fresh(s.queue, s.running)
    ensures QueueIds(S.Cancel(s, id).0.queue) == QueueIds(s.queue) - {id}
  {
    var i := S.IndexOf(s.queue, id);
    if i == |s.queue| {
      forall r | r in s.queue ensures r.id != id {
        var k :| 0 <= k < |s.queue| && s.queue[k] == r;
      }
    } else {
      QueueCut(s.queue, i);
    }
  }

  lemma QueueCut(q: seq<Request>, i: nat)
    requires i < |q| && forall a, b :: 0 <= a < b < |q| ==> q[a].id != q[b].id
    ensures QueueIds(q[..i] + q[i + 1..]) == QueueIds(q) - {q[i].id}
  {
    var cut := q[..i] + q[i + 1..];
    assert forall r :: r in q <==> r in q[..i] || r == q[i] || r in q[i + 1..] by {
      assert q == q[..i] + [q[i]] + q[i + 1..];
    }
    forall r | r in q[..i] ensures r.id != q[i].id {
      var k :| 0 <= k < i && q[k] == r;
    }
    forall r | r in q[i + 1..] ensures r.id != q[i].id {
      var k :| 0 <= k < |q[i + 1..]| && q[i + 1..][k] == r;
      assert q[i + 1 + k] == r;
    }
  }

  lemma SetCons(s: seq<string>)
    requires s != []
    ensures Greedy.Set(s) == {s[0]} + Greedy.Set(s[1..])
  {
    assert s == [s[0]] + s[1..];
  }

  lemma {:induction false} InterleavedSets(w: seq<string>, a: seq<string>, b: seq<string>)
    requires D.Interleaved(w, a, b) && Lists.Distinct(w)
    ensures Greedy.Set(w) == Greedy.Set(a) + Greedy.Set(b) && Lists.Distinct(a)
    decreases |w|
  {
    if w != [] {
      SetCons(w);
      if a != [] && a[0] == w[0] && D.Interleaved(w[1..], a[1..], b) {
        InterleavedSets(w[1..], a[1..], b);
        SetCons(a);
        forall i, j | 0 <= i < j < |a| ensures a[i] != a[j] {
          assert a[j] == a[1..][j - 1] && a[j] in Greedy.Set(a[1..]);
          if i > 0 { assert a[i] == a[1..][i - 1]; }
        }
      } else {
        InterleavedSets(w[1..], a, b[1..]);
        SetCons(b);
      }
    }
  }

  lemma RequestIdSet(queue: seq<Request>)
    ensures Greedy.Set(D.RequestIds(queue)) == QueueIds(queue)
  {
    forall id | id in Greedy.Set(D.RequestIds(queue)) ensures id in QueueIds(queue) {
      var k :| 0 <= k < |queue| && D.RequestIds(queue)[k] == id;
      assert queue[k] in queue;
    }
    forall id | id in QueueIds(queue) ensures id in Greedy.Set(D.RequestIds(queue)) {
      var r :| r in queue && r.id == id;
      var k :| 0 <= k < |queue| && queue[k] == r;
      assert D.RequestIds(queue)[k] == id;
    }
  }

  lemma SortedIds(queue: seq<Request>)
    ensures QueueIds(S.Waiting(queue)) == QueueIds(queue)
  {
    Sorting.SortPermutes(queue, S.Sooner);
    assert forall r :: r in S.Waiting(queue) <==> r in queue by {
      forall r ensures r in S.Waiting(queue) <==> r in queue {
        assert r in multiset(S.Waiting(queue)) <==> r in multiset(queue);
      }
    }
  }

  lemma JobsAre(decs: seq<Decision>)
    requires forall i :: 0 <= i < |decs| ==> decs[i].placement.Some?
    ensures |D.JobsOf(decs)| == |decs| && forall i :: 0 <= i < |decs| ==>
              D.JobsOf(decs)[i] == decs[i].placement.value.jobId
  {
    if decs != [] {
      JobsAre(decs[1..]);
    }
  }

  /** A release moves the started jobs from the queue to the cards. */
  lemma ReleaseMoves(s: S.Sched, id: string)
    requires S.Valid(s) && D.Fresh(s.queue, s.running - {id})
    ensures var (after, decs) := S.Release(s, id);
            var started := Greedy.Set(D.JobsOf(decs));
            && after.running.Keys == s.running.Keys - {id} + started
            && QueueIds(s.queue) == started + QueueIds(after.queue)
            && started !! QueueIds(after.queue) && Lists.Distinct(D.JobsOf(decs))
  {
    D.FreshSorted(s.queue, s.running - {id});
    D.ReleaseDrains(s, id);
    D.ReleasePlaces(s, id);
    var (after, decs) := S.Release(s, id);
    InterleavedSets(D.RequestIds(S.Waiting(s.queue)), D.JobsOf(decs), D.RequestIds(after.queue));
    RequestIdSet(S.Waiting(s.queue));
    SortedIds(s.queue);
    RequestIdSet(after.queue);
  }

  // ---- the steps ----

  lemma PauseOneExact(d: Daemon, env: Env, id: string, gone: set<string>, placed: set<string>)
    requires Consistent(d.jobs, d.book.open) && Exact(d, gone, placed) && id in gone
    ensures Exact(PauseOne(d, env, id), gone - {id}, placed)
  {
    assert Runs(d.jobs, id);
    QueueFront(d.sched.queue, d.jobs[id].req.(wait := true));
    AgreePause(d.jobs, d.sched.running.Keys, QueueIds(d.sched.queue), gone, placed, id, d.jobs[id].(state := Paused));
  }

  lemma AgreePause(jobs: map<string, Job>, running: set<string>, queued: set<string>, gone: set<string>,
                   placed: set<string>,
                id: string, job: Job)
    requires Agree(jobs, running, queued, gone, placed) && id in gone && job.state == Paused
    ensures Agree(jobs[id := job], running, {id} + queued, gone - {id}, placed)
  {
    var after := jobs[id := job];
    forall k
      ensures Runs(after, k) <==> Runs(jobs, k) && k != id
      ensures Waits(after, k) <==> Waits(jobs, k) || k == id
    {
    }
  }

  lemma AgreeStart(jobs: map<string, Job>, running: set<string>, queued: set<string>, placed: set<string>, id: string,
                   job: Job)
    requires Agree(jobs, running, queued, {}, placed) && id in placed && job.state == Running
    ensures Agree(jobs[id := job], running, queued, {}, placed - {id})
  {
    var after := jobs[id := job];
    forall k
      ensures Runs(after, k) <==> Runs(jobs, k) || k == id
      ensures Waits(after, k) <==> Waits(jobs, k) && k != id
    {
    }
  }

  lemma {:induction false} PauseAllExact(d: Daemon, env: Env, ids: seq<string>, placed: set<string>)
    requires Monotone(env) && Keeps(d, env, Greedy.Set(ids)) && Lists.Distinct(ids) && Apart(Greedy.Set(ids), d.sched)
    requires Exact(d, Greedy.Set(ids), placed)
    ensures Exact(PauseAll(d, env, ids), {}, placed)
    decreases |ids|
  {
    if ids == [] {
      assert Greedy.Set(ids) == {};
    } else {
      PauseOneKeeps(d, env, ids[0], Greedy.Set(ids));
      PauseOneExact(d, env, ids[0], Greedy.Set(ids), placed);
      assert Greedy.Set(ids) - {ids[0]} == Greedy.Set(ids[1..]);
      PauseAllExact(PauseOne(d, env, ids[0]), env, ids[1..], placed);
    }
  }

  lemma StartOneExact(d: Daemon, env: Env, dec: Decision, placed: set<string>)
    requires env.launch(d.launched) && Consistent(d.jobs, d.book.open) && Exact(d, {}, placed)
    requires dec.placement.Some? && dec.placement.value.jobId in placed && Waits(d.jobs, dec.placement.value.jobId)
    ensures var id := dec.placement.value.jobId;
            && Exact(StartOne(d, env, dec), {}, placed - {id}) && StartOne(d, env, dec).launched == d.launched + 1
            && forall k :: k != id ==> Waits(StartOne(d, env, dec).jobs, k) == Waits(d.jobs, k)
  {
    var id := dec.placement.value.jobId;
    AgreeStart(d.jobs, d.sched.running.Keys, QueueIds(d.sched.queue), placed, id, StartOne(d, env, dec).jobs[id]);
  }

  /** The jobs still to be started once the first has been. */
  lemma JobsRest(decs: seq<Decision>)
    requires decs != [] && decs[0].placement.Some? && Lists.Distinct(D.JobsOf(decs))
    ensures var id := decs[0].placement.value.jobId;
            && id in Greedy.Set(D.JobsOf(decs))
            && Greedy.Set(D.JobsOf(decs)) - {id} == Greedy.Set(D.JobsOf(decs[1..]))
            && Lists.Distinct(D.JobsOf(decs[1..]))
  {
    var ids := D.JobsOf(decs);
    var rest := D.JobsOf(decs[1..]);
    assert ids == [decs[0].placement.value.jobId] + rest;
    SetCons(ids);
    assert forall i :: 0 <= i < |rest| ==> rest[i] == ids[i + 1];
  }

  lemma {:induction false} StartAllExact(d: Daemon, env: Env, decs: seq<Decision>, placed: set<string>)
    requires Monotone(env) && Launches(env, d.launched, |decs|) && Inv(d, env) && Exact(d, {}, placed)
    requires forall i :: 0 <= i < |decs| ==> D.PlacedAs(d.sched.running, decs[i])
    requires Lists.Distinct(D.JobsOf(decs)) && placed == Greedy.Set(D.JobsOf(decs))
    requires forall id :: id in placed ==> Waits(d.jobs, id)
    ensures Exact(StartAll(d, env, decs), {}, {})
    decreases |decs|
  {
    if decs != [] {
      FirstStarts(d, env, decs, placed, StartOne(d, env, decs[0]));
      StartAllExact(StartOne(d, env, decs[0]), env, decs[1..], placed - {decs[0].placement.value.jobId});
    } else {
      assert placed == {};
    }
  }

  /** After the first of the jobs has started, the others are still to be. */
  lemma FirstStarts(d: Daemon, env: Env, decs: seq<Decision>, placed: set<string>, next: Daemon)
    requires decs != [] && next == StartOne(d, env, decs[0])
    requires Monotone(env) && Launches(env, d.launched, |decs|) && Inv(d, env) && Exact(d, {}, placed)
    requires forall i :: 0 <= i < |decs| ==> D.PlacedAs(d.sched.running, decs[i])
    requires Lists.Distinct(D.JobsOf(decs)) && placed == Greedy.Set(D.JobsOf(decs))
    requires forall id :: id in placed ==> Waits(d.jobs, id)
    ensures decs[0].placement.Some?
    ensures var rest := placed - {decs[0].placement.value.jobId};
            && Launches(env, next.launched, |decs| - 1) && Inv(next, env) && Exact(next, {}, rest)
            && next.sched == d.sched
            && Lists.Distinct(D.JobsOf(decs[1..])) && rest == Greedy.Set(D.JobsOf(decs[1..]))
            && forall id :: id in rest ==> Waits(next.jobs, id)
  {
    assert D.PlacedAs(d.sched.running, decs[0]);
    JobsRest(decs);
    StartOneKeeps(d, env, decs[0]);
    StartOneExact(d, env, decs[0], placed);
  }

  lemma AgreeAdd(jobs: map<string, Job>, running: set<string>, queued: set<string>, job: Job)
    requires Agree(jobs, running, queued, {}, {}) && job.id !in jobs
    ensures job.state == Queued ==> Agree(jobs[job.id := job], running, {job.id} + queued, {}, {})
    ensures job.state == Created ==>
              forall gone :: gone <= running ==>
                Agree(jobs[job.id := job], running - gone + {job.id}, queued, gone, {job.id})
  {
    var after := jobs[job.id := job];
    forall k
      ensures Runs(after, k) <==> Runs(jobs, k) || (k == job.id && job.state == Running)
      ensures Waits(after, k) <==> Waits(jobs, k) || (k == job.id && (job.state == Queued || job.state == Paused))
    {
    }
  }

  lemma SubmitQueued(d: Daemon, env: Env, r: SubmitRequest, id: string)
    requires FreshId(d, id) && Exact(d, {}, {}) && r.hasCommand
    requires S.Admit(d.sched, RequestFor(r, id)).1.Ok?
    requires S.Admit(d.sched, RequestFor(r, id)).1.value.placement.None?
    ensures Exact(Submit(d, env, r, id).0, {}, {})
  {
    var job := NewJob(r, id);
    QueueFront(d.sched.queue, RequestFor(r, id));
    AgreeAdd(d.jobs, d.sched.running.Keys, QueueIds(d.sched.queue), job.(state := Queued));
    assert d.jobs[id := job][id := job.(state := Queued)] == d.jobs[id := job.(state := Queued)];
  }

  /** The daemon after a submitted job was placed and the jobs pushed off for it were suspended. */
  ghost function Cleared(d: Daemon, env: Env, r: SubmitRequest, id: string): Daemon
    requires S.Admit(d.sched, RequestFor(r, id)).1.Ok?
  {
    var (sched, res) := S.Admit(d.sched, RequestFor(r, id));
    PauseAll(d.(sched := sched, jobs := d.jobs[id := NewJob(r, id)]), env, res.value.preempt)
  }

  ghost predicate Places(d: Daemon, r: SubmitRequest, id: string) {
    && r.hasCommand && S.Admit(d.sched, RequestFor(r, id)).1.Ok?
    && S.Admit(d.sched, RequestFor(r, id)).1.value.placement.Some?
  }

  lemma ClearedExact(d: Daemon, env: Env, r: SubmitRequest, id: string)
    requires Monotone(env) && Inv(d, env) && FreshId(d, id) && Exact(d, {}, {}) && Places(d, r, id)
    ensures var c := Cleared(d, env, r, id);
            Inv(c, env) && Exact(c, {}, {id}) && id in c.jobs && c.jobs[id] == NewJob(r, id)
  {
    var req := RequestFor(r, id);
    var (sched, res) := S.Admit(d.sched, req);
    var begun := d.(sched := sched, jobs := d.jobs[id := NewJob(r, id)]);
    AdmitBegins(d, env, req, begun, NewJob(r, id));
    PauseAllKeeps(begun, env, res.value.preempt);
    PauseAllExact(begun, env, res.value.preempt, {id});
  }

  /** The daemon right after a job was admitted. */
  lemma AdmitBegins(d: Daemon, env: Env, req: Request, begun: Daemon, job: Job)
    requires Inv(d, env) && FreshId(d, req.id) && Exact(d, {}, {})
    requires S.Admit(d.sched, req).1.Ok? && S.Admit(d.sched, req).1.value.placement.Some?
    requires job.id == req.id && job.req == req && job.state == Created && job.proc.None?
    requires begun == d.(sched := S.Admit(d.sched, req).0, jobs := d.jobs[req.id := job])
    ensures var res := S.Admit(d.sched, req).1;
            var but := Greedy.Set(res.value.preempt);
            && Keeps(begun, env, but) && Lists.Distinct(res.value.preempt) && Apart(but, begun.sched)
            && req.id !in res.value.preempt
            && Exact(begun, but, {req.id})
  {
    var (sched, res) := S.Admit(d.sched, req);
    var but := Greedy.Set(res.value.preempt);
    AdmitApart(d, env, req);
    ConsistentAdd(d.jobs, d.book.open, job);
    D.AdmitSpares(d.sched, req);
    assert sched.running.Keys == d.sched.running.Keys - but + {req.id};
    AgreeAdd(d.jobs, d.sched.running.Keys, QueueIds(d.sched.queue), job);
  }

  lemma AgreeExit(jobs: map<string, Job>, running: set<string>, queued: set<string>, id: string, job: Job,
                  started: set<string>, rest: set<string>)
    requires Agree(jobs, running, queued, {}, {}) && Runs(jobs, id) && job.state == Exited
    requires queued == started + rest && started !! rest
    ensures Agree(jobs[id := job], running - {id} + started, rest, {}, started)
    ensures forall k :: k in started ==> Waits(jobs[id := job], k)
  {
    var after := jobs[id := job];
    forall k ensures Runs(after, k) <==> Runs(jobs, k) && k != id ensures Waits(after, k) <==> Waits(jobs, k) {
    }
  }

  /** The daemon right after a dead job's room was given away. */
  lemma ReapReleases(d: Daemon, env: Env, id: string)
    requires Monotone(env) && Inv(d, env) && Exact(d, {}, {}) && Runs(d.jobs, id)
    ensures var (sched, decs) := S.Release(d.sched, id);
            var started := Greedy.Set(D.JobsOf(decs));
            && Exact(Ended(d, env, id).(sched := sched), {}, started) && Lists.Distinct(D.JobsOf(decs))
            && forall k :: k in started ==> Waits(Ended(d, env, id).jobs, k)
  {
    var (sched, decs) := S.Release(d.sched, id);
    ReleaseMoves(d.sched, id);
    AgreeExit(d.jobs, d.sched.running.Keys, QueueIds(d.sched.queue), id, Ended(d, env, id).jobs[id],
            Greedy.Set(D.JobsOf(decs)), QueueIds(sched.queue));
  }

  lemma StopExact(d: Daemon, env: Env, id: string)
    requires Inv(d, env) && Exact(d, {}, {})
    ensures Exact(Stop(d, id).0, {}, {})
  {
    if id in d.jobs && d.jobs[id].state == Queued {
      QueueCancel(d.sched, id);
      var after := d.jobs - {id};
      forall k
        ensures Runs(after, k) <==> Runs(d.jobs, k) && k != id
        ensures Waits(after, k) <==> Waits(d.jobs, k) && k != id
      {
      }
    }
  }

  lemma ResizeExact(d: Daemon, env: Env, id: string, fraction: real, memMiB: int)
    requires Exact(d, {}, {})
    ensures Exact(Resize(d, env, id, fraction, memMiB).0, {}, {})
  {
    if id in d.jobs && d.jobs[id].state == Running && S.Resize(d.sched, id, fraction, memMiB).1.Ok? {
      var (sched, res) := S.Resize(d.sched, id, fraction, memMiB);
      var jobs := d.jobs[id := d.jobs[id].(share := fraction, placement := Some(res.value))];
      assert sched.running.Keys == d.sched.running.Keys;
      forall k ensures Runs(jobs, k) <==> Runs(d.jobs, k) ensures Waits(jobs, k) <==> Waits(d.jobs, k) {
      }
    }
  }
}
