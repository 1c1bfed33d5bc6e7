/** Calls that leave a waiting job startable: with one full card and a job for half of it waiting, pushing the job
    that runs off, shrinking it or evicting it makes room that nobody takes; so does putting a card back in service
    (internal/scheduler/scheduler.go:115-123, 345-473). */
module QueueInstances {
  import opened Share
  import opened Cards
  import opened Fitting
  import opened SchedulerModel
  import opened Instances
  import opened QueueLaws
  import Greedy
  import P = Preemption
  import L = SchedulerLaws
  import D = DrainLaws

  function Runner(): Request { Ask("a", 8, 0, true, false) }
  function Waiter(): Request { Ask("q", 4, 0, false, true) }

  /** One job on the whole card, one for half a card in the queue. */
  ghost function Full(): Sched {
    Admit(Admit(New([Eight()]), Runner()).0, Waiter()).0
  }

  /** The whole-card job alone. */
  ghost function Busy(): Sched {
    Admit(New([Eight()]), Runner()).0
  }

  lemma BusyIs()
    ensures OneCard(Busy(), Eight()) && Busy().queue == [] && Busy().running.Keys == {"a"}
    ensures Busy().running["a"].req == Runner() && UsedSeats(Busy().running, 0) == 8 && UsedMem(Busy().running, 0) == 1
  {
    Opens(Eight());
    AskNeeds("a", 8, 0, true, false);
    Joins(New([Eight()]), Eight(), Runner());
  }

  ghost predicate IsFull(s: Sched) {
    && OneCard(s, Eight()) && s.queue == [Waiter()] && s.running.Keys == {"a"} && s.running["a"].req == Runner()
    && UsedSeats(s.running, 0) == 8 && UsedMem(s.running, 0) == 1
  }

  lemma WaiterQueues()
    ensures Admit(Busy(), Waiter()) == (Busy().(queue := Busy().queue + [Waiter()]), Ok(Decision(None, [], true)))
    ensures !Fits(Busy().cards, Busy().running, Waiter())
  {
    BusyIs();
    AskNeeds("q", 4, 0, false, true);
    assert P.Eligible(Busy().running, Waiter()) == {};
    Queues(Busy(), Eight(), Waiter());
    OneWanted(Busy().cards, Busy().running, Waiter());
  }

  lemma FullIs()
    ensures IsFull(Full()) && Stuck(Full())
  {
    BusyIs();
    WaiterQueues();
    WaitsFull(Busy(), Full());
  }

  lemma WaitsFull(s: Sched, t: Sched)
    requires OneCard(s, Eight()) && s.queue == [] && s.running.Keys == {"a"} && s.running["a"].req == Runner()
    requires UsedSeats(s.running, 0) == 8 && UsedMem(s.running, 0) == 1
    requires t == s.(queue := s.queue + [Waiter()]) && !Fits(s.cards, s.running, Waiter())
    ensures IsFull(t) && Stuck(t)
  {
    assert t.queue == [Waiter()];
  }

  /** Half of the only card is free for the waiting job. */
  lemma HalfFree(s: Sched)
    requires s.cards == [Eight()] && UsedSeats(s.running, 0) <= 4 && UsedMem(s.running, 0) <= 99 && Waiter() in s.queue
    ensures !Stuck(s)
  {
    AskNeeds("q", 4, 0, false, true);
    OneWanted(s.cards, s.running, Waiter());
    assert Takes(s.running, Waiter(), Eight());
  }

  lemma Emptied(s: Sched, running: Running)
    requires IsFull(s) && running == s.running - {"a"}
    ensures running == map[] && UsedSeats(running, 0) == 0 && UsedMem(running, 0) == 0
  {
    Nobody(running);
  }

  lemma EvictLeavesRoom()
    ensures Valid(Full()) && Stuck(Full()) && !Stuck(Evict(Full(), "a"))
  {
    FullIs();
    Emptied(Full(), Full().running - {"a"});
    HalfFree(Evict(Full(), "a"));
  }

  /** Shrinking a job to half. */
  lemma ShrinkLeavesRoom()
    ensures Valid(Full()) && Stuck(Full())
    ensures Resize(Full(), "a", 0.5, 0).1.Ok? && !Stuck(Resize(Full(), "a", 0.5, 0).0)
  {
    FullIs();
    ShrinkFrom(Full());
  }

  lemma ShrinkFrom(s: Sched)
    requires IsFull(s)
    ensures Resize(s, "a", 0.5, 0).1.Ok? && !Stuck(Resize(s, "a", 0.5, 0).0)
  {
    var r := Ask("a", 4, 0, true, false);
    assert r == Resized(s.running["a"].req, 0.5, 0);
    AskNeeds("a", 4, 0, true, false);
    Emptied(s, s.running - {"a"});
    ResizesAlone(s, "a", 0.5, r);
    var t := Resize(s, "a", 0.5, 0).0;
    L.ResizeKeepsValid(s, "a", 0.5, 0);
    StillOneCard(s, t, Eight(), "a");
    TakeOff(t, Eight(), t.running, "a");
    HalfFree(t);
  }

  lemma ResizesAlone(s: Sched, id: string, fraction: real, r: Request)
    requires OneCard(s, Eight()) && id in s.running && UsedSeats(s.running - {id}, 0) == 0
    requires UsedMem(s.running - {id}, 0) == 0
    requires r == Resized(s.running[id].req, fraction, 0) && Validate(r).None? && Need(r, Eight()).Ok?
    ensures var (t, res) := Resize(s, id, fraction, 0);
            && res.Ok? && t.cards == s.cards && t.queue == s.queue && t.running.Keys == s.running.Keys
            && t.running[id].req == r && t.running - {id} == s.running - {id}
  {
    var p := s.running[id];
    assert JobOk(s.cards, p);
    assert SlotOk(s.cards, p.req, p.slots[0]);
    assert HasCard(s.cards, p.slots[0].card) && CardOf(s.cards, p.slots[0].card) == Eight();
    assert p.slots[..0] == [] && |p.slots| == 1;
    assert ResizeSlots(s.cards, s.running - {id}, r, []) == Ok([]);
    assert ResizeSlots(s.cards, s.running - {id}, r, p.slots).Ok?;
  }

  /** A more urgent job for half a card pushes the whole-card job off and takes half; the other half stays free. */
  function Urgent(): Request { Ask("r", 4, 1, false, false) }

  lemma PreemptLeavesRoom()
    ensures Valid(Full()) && Stuck(Full())
    ensures var (t, res) := Admit(Full(), Urgent());
            res.Ok? && res.value.preempt != [] && !Stuck(t)
  {
    FullIs();
    AskNeeds("r", 4, 1, false, false);
    UrgentHasRoom(Full());
    Preempts(Full(), Eight(), Urgent());
    UrgentTakesHalf(Full(), Admit(Full(), Urgent()).0, Admit(Full(), Urgent()).1.value.preempt);
  }

  lemma UrgentHasRoom(s: Sched)
    requires IsFull(s) && Need(Urgent(), Eight()) == Ok((4, 1))
    ensures P.Eligible(s.running, Urgent()) == {"a"} && D.CanMakeRoom(s, Urgent())
  {
    Emptied(s, s.running - {"a"});
    OneWanted(s.cards, s.running - {"a"}, Urgent());
    assert Takes(s.running - {"a"}, Urgent(), Eight());
    assert D.MakesRoom(s, Urgent(), {"a"});
  }

  lemma UrgentTakesHalf(s: Sched, t: Sched, preempt: seq<string>)
    requires IsFull(s) && OneCard(t, Eight()) && t.queue == s.queue && preempt != [] && Greedy.Set(preempt) <= {"a"}
    requires "r" in t.running && t.running["r"].req == Urgent() && t.running - {"r"} == s.running - Greedy.Set(preempt)
    ensures !Stuck(t)
  {
    AskNeeds("r", 4, 1, false, false);
    assert preempt[0] in Greedy.Set(preempt);
    assert Greedy.Set(preempt) == {"a"};
    Emptied(s, s.running - {"a"});
    TakeOff(t, Eight(), t.running, "r");
    HalfFree(t);
  }

  /** A card out of service, and the job waiting for it. */
  ghost function Away(): Sched {
    Admit(New([Eight().(down := true)]), Waiter()).0
  }

  lemma BackInService()
    ensures Valid(Away()) && Stuck(Away()) && !Stuck(SetDown(Away(), 0, false).0)
  {
    var c := Eight().(down := true);
    Opens(c);
    AskNeeds("q", 4, 0, false, true);
    assert Need(Waiter(), c) == Need(Waiter(), Eight());
    Queues(New([c]), c, Waiter());
    OneWanted([c], map[], Waiter());
    assert MarkDown([c], 0, false) == [Eight()];
    HalfFree(SetDown(Away(), 0, false).0);
  }

  /** A job put back in the queue of an idle card. */
  lemma RequeueFits()
    ensures var s := New([Eight()]);
            Valid(s) && Stuck(s) && !Stuck(Requeue(s, Waiter()))
  {
    Opens(Eight());
    HalfFree(Requeue(New([Eight()]), Waiter()));
  }
}
