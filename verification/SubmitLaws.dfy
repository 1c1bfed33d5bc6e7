/** What a submit asks of the scheduler, in the submitted fields (internal/daemon/daemon.go:159-199), and what becomes
    of a job's size afterwards (internal/daemon/daemon.go:181-188, 291-316). */
module SubmitLaws {
  import opened Share
  import opened Cards
  import opened Fitting
  import opened DaemonModel
  import opened DaemonLaws
  import S = SchedulerModel
  import D = DrainLaws

  /** The scheduler's request is the one submitted; a share that is not positive asks for a whole card. */
  predicate AsAsked(q: Request, r: SubmitRequest, id: string) {
    && q.id == id && q.memMiB == r.memMiB && q.gpus == r.gpus && q.priority == r.priority
    && q.preemptible == r.preemptible && q.burst == r.burst && q.wait == r.wait
    && (0.0 < r.share ==> q.share == r.share) && (r.share <= 0.0 ==> q.share == 1.0)
  }

  lemma {:induction false} PauseRuns(d: Daemon, env: Env, ids: seq<string>)
    ensures PauseAll(d, env, ids).sched.running == d.sched.running
    ensures PauseAll(d, env, ids).launched == d.launched
    decreases |ids|
  {
    if ids != [] {
      PauseRuns(PauseOne(d, env, ids[0]), env, ids[1..]);
    }
  }

  /** An accepted submit leaves its request with the scheduler, running or last in the queue, and a job of the submitted
      name and owner. */
  lemma SubmitAsks(d: Daemon, env: Env, r: SubmitRequest, id: string)
    requires S.Valid(d.sched) && Submit(d, env, r, id).1.Accepted?
    ensures var (after, answer) := Submit(d, env, r, id);
            && id in after.jobs && after.jobs[id] == answer.job
            && answer.job.id == id && answer.job.name == r.name && answer.job.owner == r.owner
            && AsAsked(answer.job.req, r, id) && answer.job.share == answer.job.req.share
            && (answer.job.state == Running ==>
                 && id in after.sched.running && AsAsked(after.sched.running[id].req, r, id)
                 && answer.job.placement == Some(Placement(id, after.sched.running[id].slots)))
            && (answer.job.state != Running ==>
                 && answer.job.state == Queued && id !in after.sched.running
                 && after.sched.queue == d.sched.queue + [answer.job.req])
  {
    var q := RequestFor(r, id);
    var (sched, res) := S.Admit(d.sched, q);
    var begun := d.(sched := sched, jobs := d.jobs[id := NewJob(r, id)]);
    AskedFor(r, id);
    PauseRuns(begun, env, res.value.preempt);
    if res.value.placement.Some? {
      D.AdmitMeans(d.sched, q);
      D.AdmitSpares(d.sched, q);
    } else {
      QueuedLast(d.sched, q);
    }
  }

  lemma AskedFor(r: SubmitRequest, id: string)
    ensures AsAsked(RequestFor(r, id), r, id)
  {
  }

  lemma QueuedLast(s: S.Sched, q: Request)
    requires S.Admit(s, q).1.Ok? && S.Admit(s, q).1.value.placement.None?
    ensures S.Admit(s, q).0 == s.(queue := s.queue + [q]) && S.Admit(s, q).1.value.preempt == [] && q.id !in s.running
  {
  }

  /** What a submitted job would ask for. */
  predicate Askable(r: SubmitRequest, id: string, cards: nat) {
    r.hasCommand && id != "" && r.share <= 1.0 && 0 <= r.gpus && 1 <= cards && r.gpus <= cards
  }

  /** Less urgent preemptible jobs whose going would make room for a request. */
  ghost predicate RoomBelow(s: S.Sched, q: Request, priority: int, w: set<string>) {
    && (forall id :: id in w ==>
          id in s.running && s.running[id].req.preemptible && s.running[id].req.priority < priority)
    && Fits(s.cards, s.running - w, q)
  }

  /** A submitted priority counts: a job that does not fit as things are gets a place exactly when some less urgent
      preemptible jobs can make room for it and some card takes it now or none in service is too small for it. Then it
      runs if its process starts, and is refused only for that. */
  lemma SubmitPreempts(d: Daemon, env: Env, r: SubmitRequest, id: string, q: Request)
    requires S.Valid(d.sched) && FreshId(d, id) && Askable(r, id, |d.sched.cards|) && AsAsked(q, r, id)
    requires !Fits(d.sched.cards, d.sched.running, q)
    ensures var answer := Submit(d, env, r, id).1;
            answer == Refused(LaunchFailed) || (answer.Accepted? && answer.job.state == Running) <==>
              && (exists w: set<string> :: RoomBelow(d.sched, q, r.priority, w))
              && ((exists c :: c in d.sched.cards && Takes(d.sched.running, q, c)) ||
                  !TooSmallSomewhere(d.sched.cards, q))
    ensures var answer := Submit(d, env, r, id).1;
            (answer == Refused(LaunchFailed) ==> !env.launch(d.launched)) &&
            (answer.Accepted? && answer.job.state == Running ==> env.launch(d.launched))
  {
    AskedFor(r, id);
    assert q == RequestFor(r, id);
    D.AdmitPlacesExactly(d.sched, q);
    RoomIsBelow(d.sched, q);
    PlacedIff(d, env, r, id);
  }

  lemma RoomIsBelow(s: S.Sched, q: Request)
    ensures D.CanMakeRoom(s, q) <==> exists w: set<string> :: RoomBelow(s, q, q.priority, w)
  {
    if w :| D.MakesRoom(s, q, w) {
      assert RoomBelow(s, q, q.priority, w);
    }
    if w :| RoomBelow(s, q, q.priority, w) {
      assert D.MakesRoom(s, q, w);
    }
  }

  lemma PlacedIff(d: Daemon, env: Env, r: SubmitRequest, id: string)
    requires r.hasCommand
    ensures var (res, answer) := (S.Admit(d.sched, RequestFor(r, id)).1, Submit(d, env, r, id).1);
            && (answer == Refused(LaunchFailed) || (answer.Accepted? && answer.job.state == Running) <==>
                  res.Ok? && res.value.placement.Some?)
            && (answer == Refused(LaunchFailed) ==> !env.launch(d.launched))
            && (answer.Accepted? && answer.job.state == Running ==> env.launch(d.launched))
  {
    var (sched, res) := S.Admit(d.sched, RequestFor(r, id));
    if res.Ok? {
      PauseRuns(d.(sched := sched, jobs := d.jobs[id := NewJob(r, id)]), env, res.value.preempt);
    }
  }

  /** What a granted resize records: the new share, and the slots the scheduler now has for the job; all else of it, the
      request it was submitted with among it, is as before. */
  lemma ResizeRecords(d: Daemon, env: Env, id: string, fraction: real, memMiB: int)
    requires Resize(d, env, id, fraction, memMiB).1.Accepted?
    ensures var (after, answer) := Resize(d, env, id, fraction, memMiB);
            && id in d.jobs && id in after.jobs && after.jobs[id] == answer.job && id in after.sched.running
            && answer.job == d.jobs[id].(share := fraction,
                                          placement := Some(Placement(id, after.sched.running[id].slots)))
            && answer.job.req == d.jobs[id].req && after.sched.running[id].req.share == fraction
  {
  }

  /** So a job pushed off after a resize goes back into the queue for the size it was submitted with. */
  lemma PausedAtOldSize(d: Daemon, env: Env, id: string, fraction: real, memMiB: int)
    requires Resize(d, env, id, fraction, memMiB).1.Accepted? && d.jobs[id].proc.Some?
    ensures var resized := Resize(d, env, id, fraction, memMiB).0;
            var paused := PauseOne(resized, env, id);
            && id in paused.jobs && paused.jobs[id].share == fraction && paused.jobs[id].state == Paused
            && paused.sched.queue == [d.jobs[id].req.(wait := true)] + resized.sched.queue
  {
    ResizeRecords(d, env, id, fraction, memMiB);
  }
}
