/** Whose time a run of the daemon bills: every interval it writes carries the name and the owner its job was submitted
    with (internal/daemon/daemon.go:159-316). */
module WhoPays {
  import opened Share
  import opened Cards
  import opened Accounting
  import opened DaemonModel
  import opened DaemonRuns
  import opened RaceBilling
  import opened RaceRuns
  import S = SchedulerModel

  /** A job's id, name and owner. */
  type Label = (string, string, string)

  /** What was submitted in some steps. */
  ghost predicate Submitted(steps: seq<Step>, who: Label) {
    exists i :: 0 <= i < |steps| && steps[i].Submitting?
                && who == (steps[i].id, steps[i].request.name, steps[i].request.owner)
  }

  function LabelOf(iv: Interval): Label {
    (iv.job, iv.name, iv.owner)
  }

  // ---- jobs and what they open ----

  ghost predicate JobsFrom(jobs: map<string, Job>, who: Label -> bool) {
    forall id :: id in jobs ==> jobs[id].id == id && who((id, jobs[id].name, jobs[id].owner))
  }

  ghost predicate OpsFrom(ops: seq<Op>, who: Label -> bool) {
    forall i :: 0 <= i < |ops| && ops[i].Opens? ==> who(LabelOf(ops[i].iv))
  }

  lemma LaunchFrom(d: Daemon, env: Env, job: Job, pl: Placement, who: Label -> bool)
    requires JobsFrom(d.jobs, who) && who((job.id, job.name, job.owner))
    ensures JobsFrom(Launch(d, env, job, pl).0.jobs, who) && OpsFrom(LaunchOps(d, env, job, pl), who)
  {
  }

  lemma {:induction false} PauseFrom(d: Daemon, env: Env, ids: seq<string>, who: Label -> bool)
    requires JobsFrom(d.jobs, who)
    ensures JobsFrom(PauseAll(d, env, ids).jobs, who) && OpsFrom(PauseOps(d, env, ids), who)
    decreases |ids|
  {
    PauseLeads(d, env, ids);
    if ids != [] {
      PauseFrom(PauseOne(d, env, ids[0]), env, ids[1..], who);
    }
  }

  lemma {:induction false} StartFrom(d: Daemon, env: Env, decs: seq<Decision>, who: Label -> bool)
    requires JobsFrom(d.jobs, who)
    ensures JobsFrom(StartAll(d, env, decs).jobs, who) && OpsFrom(StartOps(d, env, decs), who)
    decreases |decs|
  {
    if decs != [] {
      StartOneFrom(d, env, decs[0], who);
      StartFrom(StartOne(d, env, decs[0]), env, decs[1..], who);
    }
  }

  lemma StartOneFrom(d: Daemon, env: Env, dec: Decision, who: Label -> bool)
    requires JobsFrom(d.jobs, who)
    ensures JobsFrom(StartOne(d, env, dec).jobs, who) && OpsFrom(StartOneOps(d, env, dec), who)
  {
    if dec.placement.Some? && dec.placement.value.jobId in d.jobs {
      LaunchFrom(d, env, d.jobs[dec.placement.value.jobId], dec.placement.value, who);
    }
  }

  lemma SubmitFrom(d: Daemon, env: Env, r: SubmitRequest, id: string, who: Label -> bool)
    requires JobsFrom(d.jobs, who) && who((id, r.name, r.owner))
    ensures JobsFrom(Submit(d, env, r, id).0.jobs, who) && OpsFrom(SubmitOps(d, env, r, id), who)
  {
    var (sched, res) := S.Admit(d.sched, RequestFor(r, id));
    if r.hasCommand && res.Ok? {
      var job := NewJob(r, id);
      var begun := d.(sched := sched, jobs := d.jobs[id := job]);
      PauseFrom(begun, env, res.value.preempt, who);
      if res.value.placement.Some? {
        LaunchFrom(PauseAll(begun, env, res.value.preempt), env, job, res.value.placement.value, who);
      }
    }
  }

  lemma ReapFrom(d: Daemon, env: Env, id: string, proc: nat, who: Label -> bool)
    requires JobsFrom(d.jobs, who)
    ensures JobsFrom(Reap(d, env, id, proc).jobs, who) && OpsFrom(ReapOps(d, env, id, proc), who)
  {
    if id in d.jobs && d.jobs[id].proc == Some(proc) {
      var (sched, decs) := S.Release(d.sched, id);
      StartFrom(Ended(d, env, id).(sched := sched), env, decs, who);
    }
  }

  lemma ResizeFrom(d: Daemon, env: Env, id: string, fraction: real, memMiB: int, who: Label -> bool)
    requires JobsFrom(d.jobs, who)
    ensures JobsFrom(Resize(d, env, id, fraction, memMiB).0.jobs, who)
    ensures OpsFrom(ResizeOps(d, env, id, fraction, memMiB), who)
  {
    if id in d.jobs && d.jobs[id].state == Running {
      var (sched, res) := S.Resize(d.sched, id, fraction, memMiB);
      AnsweredFrom(d.(sched := sched), env, id, fraction, res, who);
    }
  }

  lemma AnsweredFrom(d: Daemon, env: Env, id: string, fraction: real, res: Result<Placement>, who: Label -> bool)
    requires JobsFrom(d.jobs, who) && id in d.jobs
    ensures JobsFrom(Answered(d, env, id, fraction, res).0.jobs, who) && OpsFrom(AnsweredOps(d, env, id, res), who)
  {
  }

  lemma StepFrom(d: Daemon, env: Env, st: Step, who: Label -> bool)
    requires JobsFrom(d.jobs, who) && (st.Submitting? ==> who((st.id, st.request.name, st.request.owner)))
    ensures JobsFrom(Take(d, env, st).jobs, who) && OpsFrom(Ops(d, env, st), who)
  {
    match st
    case Submitting(r, id) => SubmitFrom(d, env, r, id, who);
    case Reaping(id, proc) => ReapFrom(d, env, id, proc, who);
    case Stopping(_) =>
    case Resizing(id, fraction, mem) => ResizeFrom(d, env, id, fraction, mem, who);
    case Restarting =>
  }

  // ---- the ledger ----

  /** Intervals beyond the first `from` of the file, and all open ones, are of some submitted job. */
  ghost predicate BookFrom(b: Book, from: nat, who: Label -> bool) {
    && (forall i :: from <= i < |b.file| ==> who(LabelOf(b.file[i])))
    && (forall job, i :: job in b.open && 0 <= i < |b.open[job]| ==> who(LabelOf(b.open[job][i])))
  }

  lemma ApplyFrom(b: Book, op: Op, from: nat, who: Label -> bool)
    requires BookFrom(b, from, who) && from <= |b.file| && (op.Opens? ==> who(LabelOf(op.iv)))
    ensures BookFrom(Apply(b, op), from, who) && from <= |Apply(b, op).file|
  {
    var after := Apply(b, op);
    forall i | from <= i < |after.file| ensures who(LabelOf(after.file[i])) {
      if |b.file| <= i {
        assert LabelOf(after.file[i]) == LabelOf(b.open[op.job][i - |b.file|]);
      }
    }
  }

  lemma {:induction false} PerformFrom(b: Book, ops: seq<Op>, from: nat, who: Label -> bool)
    requires BookFrom(b, from, who) && from <= |b.file| && OpsFrom(ops, who)
    ensures BookFrom(Perform(b, ops), from, who) && from <= |Perform(b, ops).file|
  {
    if ops != [] {
      PerformFrom(b, ops[..|ops| - 1], from, who);
      ApplyFrom(Perform(b, ops[..|ops| - 1]), ops[|ops| - 1], from, who);
    }
  }

  ghost predicate AllFrom(d: Daemon, from: nat, who: Label -> bool) {
    JobsFrom(d.jobs, who) && BookFrom(d.book, from, who) && from <= |d.book.file|
  }

  lemma StepPays(d: Daemon, env: Env, st: Step, from: nat, who: Label -> bool)
    requires AllFrom(d, from, who) && (st.Submitting? ==> who((st.id, st.request.name, st.request.owner)))
    ensures AllFrom(Take(d, env, st), from, who)
  {
    StepFrom(d, env, st, who);
    if !st.Restarting? {
      StepLeads(d, env, st);
      PerformFrom(d.book, Ops(d, env, st), from, who);
    }
  }

  lemma {:induction false} RunPays(env: Env, states: seq<Daemon>, steps: seq<Step>, from: nat, who: Label -> bool)
    requires IsRun(env, states, steps) && AllFrom(states[0], from, who)
    requires forall i :: 0 <= i < |steps| && steps[i].Submitting? ==>
               who((steps[i].id, steps[i].request.name, steps[i].request.owner))
    ensures AllFrom(states[|steps|], from, who)
    decreases |steps|
  {
    if steps != [] {
      var n := |steps| - 1;
      assert forall i :: 0 <= i < n ==> steps[..n][i] == steps[i] && states[..n + 1][i] == states[i];
      RunPays(env, states[..n + 1], steps[..n], from, who);
      StepPays(states[n], env, steps[n], from, who);
    }
  }

  /** Whatever a run bills, it bills to the name and the owner some submit gave its job, however often the job was
      pushed off, resized and started again. */
  lemma BilledToSubmitter(cards: seq<Card>, refs: map<int, CardRef>, env: Env, file: seq<Interval>,
                          states: seq<Daemon>, steps: seq<Step>)
    requires IsRun(env, states, steps) && states[0] == Boot(cards, refs, file, 0, 0)
    ensures var b := states[|steps|].book;
            && |file| <= |b.file|
            && (forall i :: |file| <= i < |b.file| ==>
                  Submitted(steps, (b.file[i].job, b.file[i].name, b.file[i].owner)))
            && (forall job, i :: job in b.open && 0 <= i < |b.open[job]| ==>
                  var iv := b.open[job][i]; Submitted(steps, (iv.job, iv.name, iv.owner)))
  {
    var who := (l: Label) => Submitted(steps, l);
    forall i | 0 <= i < |steps| && steps[i].Submitting?
      ensures who((steps[i].id, steps[i].request.name, steps[i].request.owner))
    {
    }
    RunPays(env, states, steps, |file|, who);
    var b := states[|steps|].book;
    forall i | |file| <= i < |b.file| ensures Submitted(steps, (b.file[i].job, b.file[i].name, b.file[i].owner)) {
      assert who(LabelOf(b.file[i]));
    }
    forall job, i | job in b.open && 0 <= i < |b.open[job]|
      ensures var iv := b.open[job][i]; Submitted(steps, (iv.job, iv.name, iv.owner))
    {
      assert who(LabelOf(b.open[job][i]));
    }
  }
}
