/** The daemon's steps over scheduler, ledger and jobs (internal/daemon/daemon.go:159-316). What the program
    gets from outside is a parameter: `time(n)` is the n-th reading of the clock, and `launch(n)` says whether
    the n-th process starts. A process is known by the number of its launch. */
module DaemonModel {
  import opened Share
  import opened Cards
  import opened Accounting
  import S = SchedulerModel

  datatype JobState = Created | Queued | Running | Paused | Exited

  datatype Job = Job(id: string, name: string, owner: string, state: JobState, share: real,
                     placement: Option<Placement>, req: Request, proc: Option<nat>)

  datatype CardRef = CardRef(vendor: string, name: string)

  datatype Env = Env(time: nat -> real, launch: nat -> bool)

  datatype Daemon = Daemon(sched: S.Sched, book: Book, jobs: map<string, Job>, refs: map<int, CardRef>,
                           tick: nat, launched: nat)

  datatype SubmitRequest = SubmitRequest(hasCommand: bool, name: string, owner: string, share: real, memMiB: nat,
                                         gpus: int, priority: int, preemptible: bool, burst: bool, wait: bool)

  datatype Refusal = NoCommand | NotAdmitted(error: Error) | LaunchFailed | NoJob

  datatype Answer = Accepted(job: Job) | Refused(why: Refusal)

  function RefOf(refs: map<int, CardRef>, card: int): CardRef {
    if card in refs then refs[card] else CardRef("", "")
  }

  function IntervalFor(job: Job, ref: CardRef, sl: Slot, t: real): Interval {
    Interval(job.id, job.name, job.owner, ref.vendor, sl.card, ref.name, sl.granted, sl.memMiB, t, 0.0)
  }

  /** One interval per slot, each with its own reading of the clock from `tick` on. */
  function Intervals(refs: map<int, CardRef>, env: Env, tick: nat, job: Job, slots: seq<Slot>): (ivs: seq<Interval>)
    ensures |ivs| == |slots|
    ensures forall k :: 0 <= k < |slots| ==>
              ivs[k] == IntervalFor(job, RefOf(refs, slots[k].card), slots[k], env.time(tick + k))
  {
    seq(|slots|, k requires 0 <= k < |slots| =>
      IntervalFor(job, RefOf(refs, slots[k].card), slots[k], env.time(tick + k)))
  }

  /** Launches a placed job and opens its intervals, or fails. */
  function Launch(d: Daemon, env: Env, job: Job, pl: Placement): (Daemon, bool) {
    var ivs := Intervals(d.refs, env, d.tick, job, pl.slots);
    var after := d.(tick := d.tick + |pl.slots|, launched := d.launched + 1);
    if env.launch(d.launched) then
      (after.(jobs := d.jobs[job.id := job.(state := Running, placement := Some(pl), proc := Some(d.launched))],
              book := Begin(d.book, ivs)), true)
    else (after, false)
  }

  /** Suspends a pushed-off job that has a process, closes its intervals and puts it back in the queue. */
  function PauseOne(d: Daemon, env: Env, id: string): Daemon {
    if id in d.jobs && d.jobs[id].proc.Some? then
      d.(book := End(d.book, id, env.time(d.tick)), tick := d.tick + 1,
         sched := S.Requeue(d.sched, d.jobs[id].req),
         jobs := d.jobs[id := d.jobs[id].(state := Paused)])
    else d
  }

  function PauseAll(d: Daemon, env: Env, ids: seq<string>): Daemon
    decreases |ids|
  {
    if ids == [] then d else PauseAll(PauseOne(d, env, ids[0]), env, ids[1..])
  }

  function RequestFor(r: SubmitRequest, id: string): Request {
    Request(id, if r.share <= 0.0 then 1.0 else r.share, r.memMiB, r.gpus, r.priority, r.preemptible, r.burst, r.wait)
  }

  function NewJob(r: SubmitRequest, id: string): Job {
    Job(id, r.name, r.owner, Created, RequestFor(r, id).share, None, RequestFor(r, id), None)
  }

  ghost function Submit(d: Daemon, env: Env, r: SubmitRequest, id: string): (Daemon, Answer) {
    if !r.hasCommand then (d, Refused(NoCommand))
    else
      match S.Admit(d.sched, RequestFor(r, id))
      case (_, Err(e)) => (d, Refused(NotAdmitted(e)))
      case (sched, Ok(dec)) =>
        var job := NewJob(r, id);
        var paused := PauseAll(d.(sched := sched, jobs := d.jobs[id := job]), env, dec.preempt);
        if dec.placement.None? then
          (paused.(jobs := paused.jobs[id := job.(state := Queued)]), Accepted(job.(state := Queued)))
        else
          var (after, ok) := Launch(paused, env, job, dec.placement.value);
          if ok then (after, Accepted(after.jobs[id]))
          else (after.(sched := S.Release(after.sched, id).0, jobs := after.jobs - {id}), Refused(LaunchFailed))
  }

  /** Starts the jobs a drained queue released, if they still wait. */
  function StartAll(d: Daemon, env: Env, decs: seq<Decision>): Daemon
    decreases |decs|
  {
    if decs == [] then d else StartAll(StartOne(d, env, decs[0]), env, decs[1..])
  }

  function StartOne(d: Daemon, env: Env, dec: Decision): Daemon {
    if dec.placement.None? then d
    else
      var id := dec.placement.value.jobId;
      if id in d.jobs && (d.jobs[id].state == Queued || d.jobs[id].state == Paused) then
        Launch(d, env, d.jobs[id], dec.placement.value).0
      else d
  }

  /** A job whose process is gone, its intervals closed. */
  function Ended(d: Daemon, env: Env, id: string): Daemon
    requires id in d.jobs
  {
    d.(jobs := d.jobs[id := d.jobs[id].(state := Exited, proc := None)],
       book := End(d.book, id, env.time(d.tick)), tick := d.tick + 1)
  }

  /** A process ended. */
  ghost function Reap(d: Daemon, env: Env, id: string, proc: nat): Daemon {
    if id !in d.jobs || d.jobs[id].proc != Some(proc) then d
    else
      var (sched, decs) := S.Release(d.sched, id);
      StartAll(Ended(d, env, id).(sched := sched), env, decs)
  }

  /** Ends a job: a queued one at once; a started one when its process is gone, which is a later step. */
  function Stop(d: Daemon, id: string): (Daemon, bool) {
    if id !in d.jobs then (d, false)
    else if d.jobs[id].state == Queued then (d.(sched := S.Cancel(d.sched, id).0, jobs := d.jobs - {id}), true)
    else (d, true)
  }

  /** The daemon after a resize its scheduler has granted. */
  function ResizeTo(d: Daemon, env: Env, id: string, fraction: real, pl: Placement): Daemon
    requires id in d.jobs
  {
    d.(book := Begin(End(d.book, id, env.time(d.tick)), Intervals(d.refs, env, d.tick + 1, d.jobs[id], pl.slots)),
       tick := d.tick + 1 + |pl.slots|,
       jobs := d.jobs[id := d.jobs[id].(share := fraction, placement := Some(pl))])
  }

  /** The daemon after its scheduler has answered a resize. */
  function Answered(d: Daemon, env: Env, id: string, fraction: real, res: Result<Placement>): (Daemon, Answer)
    requires id in d.jobs
  {
    match res
    case Err(e) => (d, Refused(NotAdmitted(e)))
    case Ok(pl) =>
      var after := ResizeTo(d, env, id, fraction, pl);
      (after, Accepted(after.jobs[id]))
  }

  ghost function Resize(d: Daemon, env: Env, id: string, fraction: real, memMiB: int): (Daemon, Answer) {
    if id !in d.jobs || d.jobs[id].state != Running then (d, Refused(NoJob))
    else
      var (sched, res) := S.Resize(d.sched, id, fraction, memMiB);
      Answered(d.(sched := sched), env, id, fraction, res)
  }
}
