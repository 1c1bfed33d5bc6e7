/** A daemon run in which the scheduler runs a job that was never launched: one job on the only card, one waiting
    for half of it; the first ends, and the launch of the second fails (internal/daemon/daemon.go:232-254). */
module StoryInstance {
  import opened Share
  import opened Cards
  import opened Instances
  import opened QueueInstances
  import opened DaemonModel
  import opened DaemonLaws
  import opened DaemonRuns
  import opened DaemonRoster
  import opened DaemonStory
  import Greedy
  import S = SchedulerModel
  import D = DrainLaws

  /** The clock stands still, and only the first launch succeeds. */
  function FirstOnly(): Env {
    Env(n => 0.0, n => n == 0)
  }

  function WholeCard(): SubmitRequest { SubmitRequest(true, "", "", 1.0, 1, 1, 0, true, false, false) }
  function HalfCard(): SubmitRequest { SubmitRequest(true, "", "", 0.5, 1, 1, 0, false, false, true) }

  function Steps(): seq<Step> {
    [Submitting(WholeCard(), "a"), Submitting(HalfCard(), "q"), Reaping("a", 0)]
  }

  lemma Requests()
    ensures RequestFor(WholeCard(), "a") == Runner() && RequestFor(HalfCard(), "q") == Waiter()
  {
  }

  ghost function One(): Daemon { Take(Boot([Eight()], map[], [], 0, 0), FirstOnly(), Steps()[0]) }
  ghost function Two(): Daemon { Take(One(), FirstOnly(), Steps()[1]) }
  ghost function Three(): Daemon { Take(Two(), FirstOnly(), Steps()[2]) }

  lemma OneIs()
    ensures One().sched == Busy() && One().launched == 1
    ensures One().jobs.Keys == {"a"} && One().jobs["a"].state == Running && One().jobs["a"].proc == Some(0)
  {
    Requests();
    BusyAdmits();
  }

  lemma BusyAdmits()
    ensures S.Admit(S.New([Eight()]), Runner()).1.Ok? && S.Admit(S.New([Eight()]), Runner()).1.value.preempt == []
    ensures S.Admit(S.New([Eight()]), Runner()).1.value.placement.Some?
  {
    AskNeeds("a", 8, 0, true, false);
    Opens(Eight());
    Joins(S.New([Eight()]), Eight(), Runner());
  }

  lemma TwoIs()
    ensures Two().sched == Full() && Two().launched == 1
    ensures Two().jobs.Keys == {"a", "q"} && Two().jobs["a"].state == Running && Two().jobs["a"].proc == Some(0)
    ensures Two().jobs["q"].state == Queued
  {
    Requests();
    OneIs();
    WaiterQueues();
  }

  function Start(): Daemon { Boot([Eight()], map[], [], 0, 0) }

  lemma StartOk()
    ensures Monotone(FirstOnly()) && Inv(Start(), FirstOnly()) && Exact(Start(), {}, {})
  {
    EmptySound([Eight()], map[], 0.0);
    BootHolds([Eight()], map[], FirstOnly(), [], 0, 0);
    BootExact([Eight()], map[], [], 0, 0);
  }

  lemma OneOk()
    ensures Inv(One(), FirstOnly()) && Exact(One(), {}, {})
  {
    StartOk();
    StepKeeps(Start(), FirstOnly(), Steps()[0]);
    StepIff(Start(), FirstOnly(), Steps()[0]);
  }

  lemma SecondWaits()
    ensures FreshId(One(), "q") && !Places(One(), HalfCard(), "q")
  {
    OneIs();
    BusyIs();
    Requests();
    WaiterQueues();
  }

  lemma TwoOk()
    ensures Inv(Two(), FirstOnly()) && Exact(Two(), {}, {})
  {
    StartOk();
    OneOk();
    SecondWaits();
    StepKeeps(One(), FirstOnly(), Steps()[1]);
    StepIff(One(), FirstOnly(), Steps()[1]);
  }

  lemma Run()
    ensures IsRun(FirstOnly(), [Start(), One(), Two(), Three()], Steps())
  {
    var states := [Start(), One(), Two(), Three()];
    SecondWaits();
    forall i | 0 <= i < |Steps()|
      ensures Allowed(states[i], Steps()[i]) && states[i + 1] == Take(states[i], FirstOnly(), Steps()[i])
    {
      if i == 0 {
      } else if i == 1 {
      } else {
        assert i == 2;
      }
    }
  }

  /** With the first job gone the second is started. */
  lemma SecondReleased(s: S.Sched)
    requires IsFull(s)
    ensures var decs := S.Release(s, "a").1;
            |decs| > 0 && Greedy.Set(D.JobsOf(decs)) == {"q"}
  {
    Emptied(s, s.running - {"a"});
    HalfFree(S.Evict(s, "a"));
    D.ReleaseIdle(s, "a");
    var decs := S.Release(s, "a").1;
    assert s.queue[0] in s.queue;
    OneWaiting(s);
    ReleaseMoves(s, "a");
    D.ReleasePlaces(s, "a");
    JobsAre(decs);
    assert D.JobsOf(decs)[0] in D.JobsOf(decs);
    OnlyOne(Greedy.Set(D.JobsOf(decs)), QueueIds(S.Release(s, "a").0.queue), D.JobsOf(decs)[0]);
  }

  lemma OneWaiting(s: S.Sched)
    requires s.queue == [Waiter()]
    ensures QueueIds(s.queue) == {"q"} && D.Fresh(s.queue, map[])
  {
    assert forall r :: r in s.queue <==> r == Waiter();
  }

  lemma OnlyOne(a: set<string>, b: set<string>, x: string)
    requires x in a && a + b == {"q"}
    ensures a == {"q"}
  {
    assert x in a + b;
  }

  /** After the run the scheduler runs a job that still waits to be launched. */
  lemma RunsUnlaunched()
    ensures IsRun(FirstOnly(), [Start(), One(), Two(), Three()], Steps())
    ensures "q" in Three().sched.running && Waits(Three().jobs, "q") && !OneStory(Three())
  {
    Run();
    StartOk();
    TwoOk();
    TwoIs();
    FullIs();
    SecondReleased(Full());
    LastFails(Two(), FirstOnly(), "a", "q");
  }

  lemma LastFails(d: Daemon, env: Env, id: string, next: string)
    requires Monotone(env) && Inv(d, env) && Exact(d, {}, {}) && Runs(d.jobs, id) && d.jobs[id].proc == Some(0)
    requires !env.launch(d.launched)
    requires var decs := S.Release(d.sched, id).1;
             |decs| > 0 && Greedy.Set(D.JobsOf(decs)) == {next}
    ensures next in Reap(d, env, id, 0).sched.running && Waits(Reap(d, env, id, 0).jobs, next)
    ensures !OneStory(Reap(d, env, id, 0))
  {
    var (sched, decs) := S.Release(d.sched, id);
    var mid := Ended(d, env, id).(sched := sched);
    EndedKeeps(d, env, id);
    ReleaseKeeps(Ended(d, env, id), env, id);
    ReapReleases(d, env, id);
    var left := StartAllBreaks(mid, env, decs, d.launched);
    StartAllKeeps(mid, env, decs);
    assert left in Greedy.Set(D.JobsOf(decs));
    ReleaseMoves(d.sched, id);
    assert next in Greedy.Set(D.JobsOf(decs));
  }
}
