/** Exactly when scheduler, ledger and job states tell one story (internal/daemon/daemon.go:159-316). */
module DaemonStory {
  import opened Share
  import opened Cards
  import opened DaemonModel
  import opened DaemonLaws
  import opened DaemonRuns
  import opened DaemonRoster
  import A = Accounting
  import F = Fitting
  import Greedy
  import Lists
  import S = SchedulerModel
  import D = DrainLaws

  // ---- starting released jobs ----

  /** Starting jobs changes no job that is not to be started, and no job that has exited. */
  lemma {:induction false} StartAllLeaves(d: Daemon, env: Env, decs: seq<Decision>, id: string)
    requires Monotone(env) && Inv(d, env) && forall i :: 0 <= i < |decs| ==> D.PlacedAs(d.sched.running, decs[i])
    requires id !in D.JobsOf(decs) || (id in d.jobs && d.jobs[id].state == Exited)
    ensures var after := StartAll(d, env, decs);
            (id in after.jobs <==> id in d.jobs) && (id in d.jobs ==> after.jobs[id] == d.jobs[id])
    decreases |decs|
  {
    if decs != [] {
      assert D.JobsOf(decs) == [decs[0].placement.value.jobId] + D.JobsOf(decs[1..]);
      StartOneKeeps(d, env, decs[0]);
      StartAllLeaves(StartOne(d, env, decs[0]), env, decs[1..], id);
    }
  }

  /** One start uses one launch and touches one job, and that only if the launch succeeds. */
  lemma StartOneDoes(d: Daemon, env: Env, dec: Decision)
    requires Consistent(d.jobs, d.book.open) && dec.placement.Some? && Waits(d.jobs, dec.placement.value.jobId)
    ensures var next := StartOne(d, env, dec);
            && next.launched == d.launched + 1
            && (forall k :: k != dec.placement.value.jobId ==> (Waits(next.jobs, k) <==> Waits(d.jobs, k)))
            && (!env.launch(d.launched) ==> next.jobs == d.jobs)
  {
  }

  lemma Rest(ids: seq<string>)
    requires ids != [] && Lists.Distinct(ids)
    ensures Lists.Distinct(ids[1..]) && ids[0] !in ids[1..] && forall k :: k in ids[1..] ==> k in ids && k != ids[0]
  {
    forall i, j | 0 <= i < j < |ids| - 1 ensures ids[1..][i] != ids[1..][j] {
      assert ids[i + 1] != ids[j + 1];
    }
    forall k | k in ids[1..] ensures k in ids && k != ids[0] {
      var i :| 0 <= i < |ids| - 1 && ids[1..][i] == k;
      assert ids[i + 1] == k && ids[i + 1] != ids[0];
    }
  }

  /** A job whose launch fails is left waiting while the scheduler runs it. */
  lemma {:induction false} StartAllBreaks(d: Daemon, env: Env, decs: seq<Decision>, m: nat) returns (id: string)
    requires Monotone(env) && Inv(d, env) && forall i :: 0 <= i < |decs| ==> D.PlacedAs(d.sched.running, decs[i])
    requires Lists.Distinct(D.JobsOf(decs)) && forall k :: k in D.JobsOf(decs) ==> Waits(d.jobs, k)
    requires d.launched <= m < d.launched + |decs| && !env.launch(m)
    ensures id in D.JobsOf(decs) && Waits(StartAll(d, env, decs).jobs, id)
    decreases |decs|
  {
    var ids := D.JobsOf(decs);
    var first := decs[0].placement.value.jobId;
    assert D.PlacedAs(d.sched.running, decs[0]);
    assert ids == [first] + D.JobsOf(decs[1..]);
    assert ids[0] in ids && ids[1..] == D.JobsOf(decs[1..]);
    Rest(ids);
    StartOneKeeps(d, env, decs[0]);
    StartOneDoes(d, env, decs[0]);
    var next := StartOne(d, env, decs[0]);
    if m == d.launched {
      id := first;
      StartAllLeaves(next, env, decs[1..], id);
    } else {
      id := StartAllBreaks(next, env, decs[1..], m);
    }
  }

  lemma StartAllIff(d: Daemon, env: Env, decs: seq<Decision>)
    requires Monotone(env) && Inv(d, env) && Exact(d, {}, Greedy.Set(D.JobsOf(decs)))
    requires forall i :: 0 <= i < |decs| ==> D.PlacedAs(d.sched.running, decs[i])
    requires Lists.Distinct(D.JobsOf(decs)) && forall id :: id in Greedy.Set(D.JobsOf(decs)) ==> Waits(d.jobs, id)
    ensures Exact(StartAll(d, env, decs), {}, {}) <==> Launches(env, d.launched, |decs|)
  {
    if Launches(env, d.launched, |decs|) {
      StartAllExact(d, env, decs, Greedy.Set(D.JobsOf(decs)));
    } else {
      StartAllNotExact(d, env, decs);
    }
  }

  lemma StartAllNotExact(d: Daemon, env: Env, decs: seq<Decision>)
    requires Monotone(env) && Inv(d, env) && !Launches(env, d.launched, |decs|)
    requires forall i :: 0 <= i < |decs| ==> D.PlacedAs(d.sched.running, decs[i])
    requires Lists.Distinct(D.JobsOf(decs)) && forall id :: id in D.JobsOf(decs) ==> Waits(d.jobs, id)
    ensures !Exact(StartAll(d, env, decs), {}, {})
  {
    var m: nat :| d.launched <= m < d.launched + |decs| && !env.launch(m);
    var id := StartAllBreaks(d, env, decs, m);
    StartAllKeeps(d, env, decs);
    JobsAre(decs);
    var i :| 0 <= i < |decs| && D.JobsOf(decs)[i] == id;
    assert D.PlacedAs(d.sched.running, decs[i]);
    RunsWaiting(StartAll(d, env, decs), id);
  }

  /** The scheduler runs a job that does not run, or holds one in its queue that does not wait. */
  lemma RunsWaiting(d: Daemon, id: string)
    requires (id in d.sched.running && !Runs(d.jobs, id)) || (id in QueueIds(d.sched.queue) && !Waits(d.jobs, id))
    ensures !Exact(d, {}, {})
  {
  }

  // ---- a process ends ----

  /** The process is a running job's, and every job its room goes to starts. */
  ghost predicate SmoothReap(d: Daemon, env: Env, id: string, proc: nat) {
    id in d.jobs && d.jobs[id].proc == Some(proc) ==>
      Runs(d.jobs, id) && Launches(env, d.launched, |S.Release(d.sched, id).1|)
  }

  lemma ReapRunning(d: Daemon, env: Env, id: string, proc: nat)
    requires Monotone(env) && Inv(d, env) && Exact(d, {}, {}) && Runs(d.jobs, id) && d.jobs[id].proc == Some(proc)
    ensures Exact(Reap(d, env, id, proc), {}, {}) <==> Launches(env, d.launched, |S.Release(d.sched, id).1|)
  {
    EndedKeeps(d, env, id);
    var (sched, decs) := S.Release(d.sched, id);
    ReleaseKeeps(Ended(d, env, id), env, id);
    ReapReleases(d, env, id);
    StartAllIff(Ended(d, env, id).(sched := sched), env, decs);
  }

  lemma PausedQueued(d: Daemon, id: string)
    requires S.Valid(d.sched) && D.Fresh(d.sched.queue, d.sched.running) && Exact(d, {}, {}) && Waits(d.jobs, id)
    ensures var after := S.Release(d.sched, id).0;
            id in after.running || id in QueueIds(after.queue)
  {
    assert id in QueueIds(d.sched.queue);
    assert !Runs(d.jobs, id);
    assert d.sched.running - {id} == d.sched.running;
    ReleaseMoves(d.sched, id);
  }

  lemma ExitedStays(d: Daemon, env: Env, id: string, proc: nat)
    requires Monotone(env) && Inv(d, env) && id in d.jobs && d.jobs[id].proc == Some(proc)
    ensures var after := Reap(d, env, id, proc);
            after.sched == S.Release(d.sched, id).0 && id in after.jobs && after.jobs[id].state == Exited
  {
    EndedKeeps(d, env, id);
    var (sched, decs) := S.Release(d.sched, id);
    ReleaseKeeps(Ended(d, env, id), env, id);
    StartAllLeaves(Ended(d, env, id).(sched := sched), env, decs, id);
    StartAllKeeps(Ended(d, env, id).(sched := sched), env, decs);
  }

  /** The end of a suspended job always breaks the story: the job is gone, and the scheduler still runs it or
      holds it in its queue. */
  lemma ReapPaused(d: Daemon, env: Env, id: string, proc: nat)
    requires Monotone(env) && Inv(d, env) && Exact(d, {}, {})
    requires id in d.jobs && d.jobs[id].proc == Some(proc) && d.jobs[id].state == Paused
    ensures !Exact(Reap(d, env, id, proc), {}, {})
  {
    PausedQueued(d, id);
    ExitedStays(d, env, id, proc);
    RunsWaiting(Reap(d, env, id, proc), id);
  }

  lemma ReapIff(d: Daemon, env: Env, id: string, proc: nat)
    requires Monotone(env) && Inv(d, env) && Exact(d, {}, {})
    ensures Exact(Reap(d, env, id, proc), {}, {}) <==> SmoothReap(d, env, id, proc)
  {
    if id in d.jobs && d.jobs[id].proc == Some(proc) {
      if Runs(d.jobs, id) {
        ReapRunning(d, env, id, proc);
      } else {
        ReapPaused(d, env, id, proc);
      }
    }
  }

  // ---- a job is submitted ----

  lemma AgreeDrop(jobs: map<string, Job>, running: set<string>, queued: set<string>, id: string)
    requires Agree(jobs, running, queued, {}, {id}) && id in jobs && !Waits(jobs, id)
    ensures Agree(jobs - {id}, running - {id}, queued, {}, {})
  {
    var after := jobs - {id};
    forall k
      ensures Runs(after, k) <==> Runs(jobs, k) && k != id
      ensures Waits(after, k) <==> Waits(jobs, k) && k != id
    {
    }
  }

  lemma {:induction false} PauseLaunched(d: Daemon, env: Env, ids: seq<string>)
    ensures PauseAll(d, env, ids).launched == d.launched
    decreases |ids|
  {
    if ids != [] {
      PauseLaunched(PauseOne(d, env, ids[0]), env, ids[1..]);
    }
  }

  /** The daemon after a placed job failed to launch and was taken back. */
  ghost function TakenBack(c: Daemon, id: string, tick: nat, launched: nat): Daemon {
    c.(sched := S.Release(c.sched, id).0, jobs := c.jobs - {id}, tick := tick, launched := launched)
  }

  lemma TakenBackIff(c: Daemon, id: string, tick: nat, launched: nat)
    requires S.Valid(c.sched) && D.Fresh(c.sched.queue, c.sched.running) && Exact(c, {}, {id})
    requires id in c.jobs && c.jobs[id].state == Created
    ensures Exact(TakenBack(c, id, tick, launched), {}, {}) <==> S.Release(c.sched, id).1 == []
  {
    ReleaseStarts(c.sched, id);
    AgreeTaken(c.jobs, c.sched.running.Keys, QueueIds(c.sched.queue), id,
               Greedy.Set(D.JobsOf(S.Release(c.sched, id).1)),
               QueueIds(S.Release(c.sched, id).0.queue));
  }

  lemma ReleaseStarts(s: S.Sched, id: string)
    requires S.Valid(s) && D.Fresh(s.queue, s.running)
    ensures var (after, decs) := S.Release(s, id);
            var started := Greedy.Set(D.JobsOf(decs));
            && after.running.Keys == s.running.Keys - {id} + started
            && QueueIds(s.queue) == started + QueueIds(after.queue) && started !! QueueIds(after.queue)
            && (decs == [] <==> started == {})
  {
    ReleaseMoves(s, id);
    D.ReleasePlaces(s, id);
    var decs := S.Release(s, id).1;
    JobsAre(decs);
    if decs != [] {
      assert D.JobsOf(decs)[0] in Greedy.Set(D.JobsOf(decs));
    }
  }

  /** Taking back a job that was placed but not started agrees exactly when nobody was started in its place. */
  lemma AgreeTaken(jobs: map<string, Job>, running: set<string>, queued: set<string>, id: string, started: set<string>,
                   rest: set<string>)
    requires Agree(jobs, running, queued, {}, {id}) && id in jobs && !Waits(jobs, id)
    requires queued == started + rest && started !! rest
    ensures Agree(jobs - {id}, running - {id} + started, rest, {}, {}) <==> started == {}
  {
    if started == {} {
      AgreeDrop(jobs, running, queued, id);
      assert running - {id} + started == running - {id};
    } else {
      var st :| st in started;
      assert st in queued && Waits(jobs, st);
    }
  }

  lemma SubmitPlaced(d: Daemon, env: Env, r: SubmitRequest, id: string)
    requires Monotone(env) && Inv(d, env) && FreshId(d, id) && Exact(d, {}, {}) && Places(d, r, id)
    ensures Exact(Submit(d, env, r, id).0, {}, {}) <==>
              env.launch(d.launched) || S.Release(Cleared(d, env, r, id).sched, id).1 == []
  {
    var c, job := Cleared(d, env, r, id), NewJob(r, id);
    var (sched, res) := S.Admit(d.sched, RequestFor(r, id));
    ClearedExact(d, env, r, id);
    PauseLaunched(d.(sched := sched, jobs := d.jobs[id := job]), env, res.value.preempt);
    var pl := res.value.placement.value;
    if env.launch(d.launched) {
      AgreeStart(c.jobs, c.sched.running.Keys, QueueIds(c.sched.queue), {id}, id,
                 job.(state := Running, placement := Some(pl), proc := Some(c.launched)));
      assert {id} - {id} == {};
    } else {
      TakenBackIff(c, id, c.tick + |pl.slots|, c.launched + 1);
    }
  }

  /** What the queue holds after the pushed-off jobs went back to it. */
  lemma {:induction false} PauseQueue(d: Daemon, env: Env, ids: seq<string>, q: Request)
    requires Lists.Distinct(ids) && forall id :: id in ids ==> id in d.jobs && d.jobs[id].proc.Some?
    ensures q in PauseAll(d, env, ids).sched.queue <==>
              q in d.sched.queue || exists id :: id in ids && q == d.jobs[id].req.(wait := true)
    decreases |ids|
  {
    if ids != [] {
      Rest(ids);
      assert ids[0] in ids;
      var next := PauseOne(d, env, ids[0]);
      assert q in next.sched.queue <==> q in d.sched.queue || q == d.jobs[ids[0]].req.(wait := true);
      PauseQueue(next, env, ids[1..], q);
      assert forall id :: id in ids <==> id == ids[0] || id in ids[1..];
    }
  }

  /** Once the new job is gone again no waiting job fits, and none of those pushed off for it. */
  ghost predicate NobodyFits(d: Daemon, r: SubmitRequest, id: string)
    requires Places(d, r, id)
  {
    var (sched, res) := S.Admit(d.sched, RequestFor(r, id));
    && D.NoneFits(d.sched.cards, sched.running - {id}, d.sched.queue)
    && forall v :: v in res.value.preempt && v in d.jobs ==>
      !F.Fits(d.sched.cards, sched.running - {id}, d.jobs[v].req.(wait := true))
  }

  lemma Started(s: S.Sched, r: Request)
    requires S.Valid(s) && S.Admit(s, r).1.Ok? && S.Admit(s, r).1.value.placement.Some?
    ensures S.Admit(s, r).0.queue == s.queue && S.Admit(s, r).0.cards == s.cards
    ensures forall v :: v in S.Admit(s, r).1.value.preempt ==> v in s.running
  {
    D.AdmitSpares(s, r);
    forall v | v in S.Admit(s, r).1.value.preempt ensures v in s.running {
      assert v in Greedy.Set(S.Admit(s, r).1.value.preempt);
    }
  }

  /** Who could start if a launch fails can be told before the submit. */
  lemma NobodyFitsIff(d: Daemon, env: Env, r: SubmitRequest, id: string)
    requires Monotone(env) && Inv(d, env) && FreshId(d, id) && Exact(d, {}, {}) && Places(d, r, id)
    ensures S.Release(Cleared(d, env, r, id).sched, id).1 == [] <==> NobodyFits(d, r, id)
  {
    var req, job := RequestFor(r, id), NewJob(r, id);
    var (sched, res) := S.Admit(d.sched, req);
    var begun := d.(sched := sched, jobs := d.jobs[id := job]);
    Started(d.sched, req);
    AdmitBegins(d, env, req, begun, job);
    PauseAllKeeps(begun, env, res.value.preempt);
    VictimsHaveProcesses(d, r, id);
    var c := Cleared(d, env, r, id);
    D.ReleaseIdle(c.sched, id);
    forall q ensures q in c.sched.queue <==>
                     q in d.sched.queue || exists v :: v in res.value.preempt && q == begun.jobs[v].req.(wait := true)
    {
      PauseQueue(begun, env, res.value.preempt, q);
    }
    QueueOf(c.sched.queue, d.sched.queue, res.value.preempt, begun.jobs, d.jobs, c.sched.cards, sched.running - {id});
  }

  lemma VictimsHaveProcesses(d: Daemon, r: SubmitRequest, id: string)
    requires Consistent(d.jobs, d.book.open) && S.Valid(d.sched) && FreshId(d, id) && Exact(d, {}, {})
    requires Places(d, r, id)
    ensures forall v :: v in S.Admit(d.sched, RequestFor(r, id)).1.value.preempt ==>
              v != id && v in d.jobs && d.jobs[v].proc.Some?
  {
    Started(d.sched, RequestFor(r, id));
    forall v | v in S.Admit(d.sched, RequestFor(r, id)).1.value.preempt
      ensures v != id && v in d.jobs && d.jobs[v].proc.Some?
    {
      assert v in d.sched.running;
      assert Runs(d.jobs, v);
    }
  }

  lemma QueueOf(queue: seq<Request>, was: seq<Request>, victims: seq<string>, now: map<string, Job>,
                jobs: map<string, Job>,
                cards: seq<Card>, running: Running)
    requires forall v :: v in victims ==> v in jobs && v in now && now[v] == jobs[v]
    requires forall q :: q in queue <==> q in was || exists v :: v in victims && q == now[v].req.(wait := true)
    ensures D.NoneFits(cards, running, queue) <==>
              D.NoneFits(cards, running, was) && forall v :: v in victims && v in jobs ==>
                !F.Fits(cards, running, jobs[v].req.(wait := true))
  {
    if D.NoneFits(cards, running, queue) {
      forall v | v in victims && v in jobs ensures !F.Fits(cards, running, jobs[v].req.(wait := true)) {
        assert jobs[v].req.(wait := true) in queue;
      }
    }
  }

  // ---- steps and runs ----

  /** The step keeps the story. Of a submit: the job starts, or if its launch fails nobody fits once it is gone. Of
      the end of a process: it was a running job's and every job its room goes to starts. Every other step does. */
  ghost predicate Smooth(d: Daemon, env: Env, st: Step) {
    match st
    case Submitting(r, id) => Places(d, r, id) ==> env.launch(d.launched) || NobodyFits(d, r, id)
    case Reaping(id, proc) => SmoothReap(d, env, id, proc)
    case _ => true
  }

  lemma SubmitIff(d: Daemon, env: Env, r: SubmitRequest, id: string)
    requires Monotone(env) && Inv(d, env) && FreshId(d, id) && Exact(d, {}, {})
    ensures Exact(Submit(d, env, r, id).0, {}, {}) <==> Smooth(d, env, Submitting(r, id))
  {
    if Places(d, r, id) {
      SubmitPlaced(d, env, r, id);
      NobodyFitsIff(d, env, r, id);
    } else if r.hasCommand && S.Admit(d.sched, RequestFor(r, id)).1.Ok? {
      SubmitQueued(d, env, r, id);
    }
  }

  /** One step keeps the story exactly when it is smooth. */
  lemma StepIff(d: Daemon, env: Env, st: Step)
    requires Monotone(env) && Inv(d, env) && Exact(d, {}, {}) && Allowed(d, st)
    ensures Exact(Take(d, env, st), {}, {}) <==> Smooth(d, env, st)
  {
    match st
    case Submitting(r, id) => SubmitIff(d, env, r, id);
    case Reaping(id, proc) => ReapIff(d, env, id, proc);
    case Stopping(id) => StopExact(d, env, id);
    case Resizing(id, fraction, mem) => ResizeExact(d, env, id, fraction, mem);
    case Restarting => BootExact(d.sched.cards, d.refs, d.book.file, d.tick, d.launched);
  }

  lemma BootExact(cards: seq<Card>, refs: map<int, CardRef>, file: seq<A.Interval>, tick: nat, launched: nat)
    ensures Exact(Boot(cards, refs, file, tick, launched), {}, {})
  {
  }

  /** The scheduler runs, and the ledger has open, the jobs in state running; the queue holds each queued or paused
      job exactly once. */
  ghost predicate OneStory(d: Daemon) {
    && (forall id :: id in d.sched.running <==> Runs(d.jobs, id))
    && (forall id :: id in d.book.open <==> Runs(d.jobs, id))
    && (forall id :: id in QueueIds(d.sched.queue) <==> Waits(d.jobs, id))
    && (forall i, j :: 0 <= i < j < |d.sched.queue| ==> d.sched.queue[i].id != d.sched.queue[j].id)
  }

  lemma StoryIsExact(d: Daemon, env: Env)
    requires Inv(d, env)
    ensures OneStory(d) <==> Exact(d, {}, {})
  {
  }

  ghost predicate AllSmooth(env: Env, states: seq<Daemon>, steps: seq<Step>)
    requires |states| == |steps| + 1
  {
    forall i :: 0 <= i < |steps| ==> SmoothAt(env, states, steps, i)
  }

  ghost predicate SmoothAt(env: Env, states: seq<Daemon>, steps: seq<Step>, i: int)
    requires |states| == |steps| + 1 && 0 <= i < |steps|
  {
    Smooth(states[i], env, steps[i])
  }

  ghost predicate AllOneStory(states: seq<Daemon>) {
    forall i :: 0 <= i < |states| ==> OneStory(states[i])
  }

  lemma StoryStep(d: Daemon, env: Env, st: Step)
    requires Monotone(env) && Inv(d, env) && Allowed(d, st) && OneStory(d)
    ensures OneStory(Take(d, env, st)) <==> Smooth(d, env, st)
  {
    StoryIsExact(d, env);
    StepKeeps(d, env, st);
    StepIff(d, env, st);
    StoryIsExact(Take(d, env, st), env);
  }

  lemma LastStory(states: seq<Daemon>, n: nat)
    requires |states| == n + 1
    ensures AllOneStory(states) <==> AllOneStory(states[..n]) && OneStory(states[n])
  {
    var init := states[..n];
    assert forall i :: 0 <= i < n ==> init[i] == states[i];
    if AllOneStory(states) {
      forall i | 0 <= i < n ensures OneStory(init[i]) {
        assert OneStory(states[i]);
      }
    }
    if AllOneStory(init) && OneStory(states[n]) {
      forall i | 0 <= i < |states| ensures OneStory(states[i]) {
        if i < n { assert OneStory(init[i]); }
      }
    }
  }

  lemma LastSmooth(env: Env, states: seq<Daemon>, steps: seq<Step>, n: nat)
    requires |steps| == n + 1 && |states| == n + 2
    ensures AllSmooth(env, states, steps) <==>
              AllSmooth(env, states[..n + 1], steps[..n]) && Smooth(states[n], env, steps[n])
  {
    var u, v := states[..n + 1], steps[..n];
    forall i | 0 <= i < n ensures SmoothAt(env, u, v, i) <==> SmoothAt(env, states, steps, i) {
    }
    assert SmoothAt(env, states, steps, n) <==> Smooth(states[n], env, steps[n]);
  }

  lemma BootStory(cards: seq<Card>, refs: map<int, CardRef>, env: Env, file: seq<A.Interval>, states: seq<Daemon>)
    requires DistinctIndices(cards) && Sound(file, cards, refs, env.time(0))
    requires states == [Boot(cards, refs, file, 0, 0)]
    ensures AllOneStory(states)
  {
    BootExact(cards, refs, file, 0, 0);
    BootHolds(cards, refs, env, file, 0, 0);
    StoryIsExact(states[0], env);
  }

  /** A run tells one story after every step exactly when every step is smooth. */
  lemma {:induction false} RunTellsOneStory(cards: seq<Card>, refs: map<int, CardRef>, env: Env, file: seq<A.Interval>,
                                            states: seq<Daemon>, steps: seq<Step>)
    requires Monotone(env) && DistinctIndices(cards) && Sound(file, cards, refs, env.time(0))
    requires IsRun(env, states, steps) && states[0] == Boot(cards, refs, file, 0, 0)
    ensures AllOneStory(states) <==> AllSmooth(env, states, steps)
    decreases |steps|
  {
    if steps == [] {
      assert states == [states[0]];
      BootStory(cards, refs, env, file, states);
    } else {
      var n := |steps| - 1;
      assert forall i :: 0 <= i < n ==> steps[..n][i] == steps[i] && states[..n + 1][i] == states[i];
      RunTellsOneStory(cards, refs, env, file, states[..n + 1], steps[..n]);
      RunKeeps(cards, refs, env, file, states[..n + 1], steps[..n]);
      LastStory(states, n + 1);
      LastSmooth(env, states, steps, n);
      assert states[..n + 1][n] == states[n];
      if OneStory(states[n]) {
        StoryStep(states[n], env, steps[n]);
      }
      LastStory(states[..n + 1], n);
    }
  }
}
