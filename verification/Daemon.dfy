/** The daemon object (internal/daemon/daemon.go:159-316): the loops behind `DaemonModel`. The clock and the
    outcome of launches come in as `env`, and the new job's id as `id`. */
module DaemonObject {
  import opened Share
  import opened Cards
  import opened Accounting
  import opened DaemonModel
  import M = SchedulerModel
  import SO = SchedulerObject
  import LO = LedgerObject

  class DaemonState {
    const sched: SO.Scheduler
    const ledger: LO.Ledger
    const refs: map<int, CardRef>
    var jobs: map<string, Job>
    var tick: nat
    var launched: nat

    ghost function State(): Daemon
      reads this, sched, ledger
    {
      Daemon(sched.State(), ledger.State(), jobs, refs, tick, launched)
    }

    constructor (cards: seq<Card>, cardRefs: map<int, CardRef>)
      ensures fresh(sched) && fresh(ledger)
      ensures State() == Daemon(M.New(cards), Book([], map[]), map[], cardRefs, 0, 0)
    {
      sched := new SO.Scheduler(cards);
      ledger := new LO.Ledger();
      refs, jobs, tick, launched := cardRefs, map[], 0, 0;
    }

    /** One interval per slot, each stamped with its own reading of the clock. */
    method Stamp(job: Job, slots: seq<Slot>, env: Env) returns (ivs: seq<Interval>)
      modifies this`tick
      ensures ivs == Intervals(refs, env, old(tick), job, slots) && tick == old(tick) + |slots|
    {
      ivs := [];
      var k := 0;
      while k < |slots|
        invariant 0 <= k <= |slots| && tick == old(tick) + k
        invariant ivs == Intervals(refs, env, old(tick), job, slots)[..k]
      {
        var ref := RefOf(refs, slots[k].card);
        ivs := ivs + [Interval(job.id, job.name, job.owner, ref.vendor, slots[k].card, ref.name, slots[k].granted,
                               slots[k].memMiB, env.time(tick), 0.0)];
        tick := tick + 1;
        k := k + 1;
      }
    }

    /** Launches a placed job; on success its intervals open. */
    method StartLocked(job: Job, pl: Placement, env: Env) returns (ok: bool)
      modifies this, ledger
      ensures (State(), ok) == Launch(old(State()), env, job, pl)
    {
      var ivs := Stamp(job, pl.slots, env);
      ok := env.launch(launched);
      var proc := launched;
      launched := launched + 1;
      if ok {
        jobs := jobs[job.id := job.(state := Running, placement := Some(pl), proc := Some(proc))];
        ledger.Begin(ivs);
      }
    }

    /** Admits and starts, or queues, a job; pushed-off jobs are suspended and queued again. */
    method Submit(r: SubmitRequest, id: string, env: Env) returns (answer: Answer)
      requires M.Valid(sched.State())
      modifies this, sched, ledger
      ensures (State(), answer) == DaemonModel.Submit(old(State()), env, r, id)
    {
      if !r.hasCommand {
        return Refused(NoCommand);
      }
      var share := if r.share <= 0.0 then 1.0 else r.share;
      var req := Request(id, share, r.memMiB, r.gpus, r.priority, r.preemptible, r.burst, r.wait);
      var dec := sched.Admit(req);
      if dec.Err? {
        return Refused(NotAdmitted(dec.error));
      }
      var job := Job(id, r.name, r.owner, Created, share, None, req, None);
      jobs := jobs[id := job];
      PauseVictims(dec.value.preempt, env);
      if dec.value.placement.None? {
        job := job.(state := Queued);
        jobs := jobs[id := job];
        return Accepted(job);
      }
      var ok := StartLocked(job, dec.value.placement.value, env);
      if !ok {
        var started := sched.Release(id);
        jobs := jobs - {id};
        return Refused(LaunchFailed);
      }
      return Accepted(jobs[id]);
    }

    /** Suspends the pushed-off jobs that have a process. */
    method PauseVictims(ids: seq<string>, env: Env)
      modifies this, sched, ledger
      ensures State() == PauseAll(old(State()), env, ids)
    {
      assert ids[0..] == ids;
      var i := 0;
      while i < |ids|
        invariant 0 <= i <= |ids|
        invariant PauseAll(old(State()), env, ids) == PauseAll(State(), env, ids[i..])
      {
        var id := ids[i];
        assert ids[i..][1..] == ids[i + 1..];
        if id in jobs && jobs[id].proc.Some? {
          ledger.End(id, env.time(tick));
          tick := tick + 1;
          sched.Requeue(jobs[id].req);
          jobs := jobs[id := jobs[id].(state := Paused)];
        }
        i := i + 1;
      }
    }

    /** A process ended: its job's books close, and queued jobs that now fit start. */
    method Reap(id: string, proc: nat, env: Env)
      modifies this, sched, ledger
      ensures State() == DaemonModel.Reap(old(State()), env, id, proc)
    {
      if id !in jobs || jobs[id].proc != Some(proc) {
        return;
      }
      jobs := jobs[id := jobs[id].(state := Exited, proc := None)];
      ledger.End(id, env.time(tick));
      tick := tick + 1;
      var decs := sched.Release(id);
      StartReleased(decs, env);
    }

    method StartReleased(decs: seq<Decision>, env: Env)
      modifies this, ledger
      ensures State() == StartAll(old(State()), env, decs)
    {
      assert decs[0..] == decs;
      var i := 0;
      while i < |decs|
        invariant 0 <= i <= |decs|
        invariant StartAll(old(State()), env, decs) == StartAll(State(), env, decs[i..])
      {
        assert decs[i..][1..] == decs[i + 1..];
        if decs[i].placement.Some? {
          var pl := decs[i].placement.value;
          if pl.jobId in jobs && (jobs[pl.jobId].state == Queued || jobs[pl.jobId].state == Paused) {
            var ok := StartLocked(jobs[pl.jobId], pl, env);
          }
        }
        i := i + 1;
      }
    }

    /** Ends a job: a queued one at once, another when its process is gone. */
    method Stop(id: string) returns (known: bool)
      modifies this, sched
      ensures (State(), known) == DaemonModel.Stop(old(State()), id)
    {
      if id !in jobs {
        return false;
      }
      if jobs[id].state == Queued {
        var found := sched.Cancel(id);
        jobs := jobs - {id};
      }
      return true;
    }

    /** Changes a running job's share: its intervals close and open again at the new size. */
    method Resize(id: string, fraction: real, memMiB: int, env: Env) returns (answer: Answer)
      requires M.Valid(sched.State())
      modifies this, sched, ledger
      ensures (State(), answer) == DaemonModel.Resize(old(State()), env, id, fraction, memMiB)
    {
      if id !in jobs || jobs[id].state != Running {
        return Refused(NoJob);
      }
      var res := sched.Resize(id, fraction, memMiB);
      answer := Reopen(id, fraction, res, env);
    }

    /** Closes a resized job's intervals and opens them at its new size. */
    method Reopen(id: string, fraction: real, res: Result<Placement>, env: Env) returns (answer: Answer)
      requires id in jobs
      modifies this, ledger
      ensures (State(), answer) == Answered(old(State()), env, id, fraction, res)
    {
      if res.Err? {
        return Refused(NotAdmitted(res.error));
      }
      ledger.End(id, env.time(tick));
      tick := tick + 1;
      var ivs := Stamp(jobs[id], res.value.slots, env);
      ledger.Begin(ivs);
      jobs := jobs[id := jobs[id].(share := fraction, placement := Some(res.value))];
      return Accepted(jobs[id]);
    }
  }
}
