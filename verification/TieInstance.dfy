/** Who goes first of two jobs of one priority: the newer one (internal/scheduler/scheduler.go:301-306). Two jobs hold
    half a card each, and a more urgent one wants half. */
module TieInstance {
  import opened Share
  import opened Lists
  import opened Cards
  import opened Fitting
  import opened SchedulerModel
  import opened Instances
  import opened Smallest
  import Greedy
  import P = Preemption
  import D = DrainLaws

  function Older(): Request { Ask("a", 4, 0, true, false) }
  function Newer(): Request { Ask("b", 4, 0, true, false) }
  function Urgent(): Request { Ask("r", 4, 1, false, false) }

  /** The two jobs, admitted one after the other. */
  ghost function Halves(): Sched {
    Admit(Admit(New([Eight()]), Older()).0, Newer()).0
  }

  /** Two jobs fill the card, `x` the older. */
  ghost predicate Filled(s: Sched, x: string, y: string, r: Request) {
    && OneCard(s, Eight()) && s.running.Keys == {x, y} && x != y
    && s.running[x].req.preemptible && s.running[y].req.preemptible
    && s.running[x].req.priority == s.running[y].req.priority < r.priority && s.running[x].order < s.running[y].order
    && SeatsOn(s.running[x].slots, 0) == 4 && SeatsOn(s.running[y].slots, 0) == 4
    && UsedSeats(s.running, 0) == 8 && UsedMem(s.running, 0) == 2
  }

  lemma HalvesFill()
    ensures Filled(Halves(), "a", "b", Urgent())
  {
    AskNeeds("a", 4, 0, true, false);
    AskNeeds("b", 4, 0, true, false);
    Opens(Eight());
    FillsUp(New([Eight()]), Older(), Newer(), Urgent());
  }

  lemma FillsUp(s: Sched, a: Request, b: Request, r: Request)
    requires OneCard(s, Eight()) && s.running == map[] && UsedSeats(s.running, 0) == 0 && UsedMem(s.running, 0) == 0
    requires Validate(a).None? && Validate(b).None? && Want(a) == 1 && Want(b) == 1 && a.id != b.id
    requires Need(a, Eight()) == Ok((4, 1)) && Need(b, Eight()) == Ok((4, 1))
    requires a.preemptible && b.preemptible && a.priority == b.priority < r.priority
    ensures Filled(Admit(Admit(s, a).0, b).0, a.id, b.id, r)
  {
    var t := Admit(s, a).0;
    Joins(s, Eight(), a);
    SecondFills(t, a, b, r);
  }

  lemma SecondFills(t: Sched, a: Request, b: Request, r: Request)
    requires OneCard(t, Eight()) && t.running.Keys == {a.id}
    requires UsedSeats(t.running, 0) == 4 && UsedMem(t.running, 0) == 1
    requires t.running[a.id].req == a && t.running[a.id].order <= t.next
    requires Validate(b).None? && Want(b) == 1 && a.id != b.id
    requires Need(a, Eight()) == Ok((4, 1)) && Need(b, Eight()) == Ok((4, 1))
    requires a.preemptible && b.preemptible && a.priority == b.priority < r.priority
    ensures Filled(Admit(t, b).0, a.id, b.id, r)
  {
    Joins(t, Eight(), b);
    Beside(t.running, Admit(t, b).0, a, b, r);
  }

  lemma Beside(was: Running, u: Sched, a: Request, b: Request, r: Request)
    requires OneCard(u, Eight()) && Within(was, u.running) && was.Keys == {a.id} && u.running.Keys == was.Keys + {b.id}
    requires a.id != b.id && was[a.id].req == a && u.running[b.id].req == b && was[a.id].order < u.running[b.id].order
    requires Need(a, Eight()) == Ok((4, 1)) && Need(b, Eight()) == Ok((4, 1))
    requires a.preemptible && b.preemptible && a.priority == b.priority < r.priority
    requires UsedSeats(u.running, 0) == 8 && UsedMem(u.running, 0) == 2
    ensures Filled(u, a.id, b.id, r)
  {
    assert u.running[a.id] == was[a.id];
    Holds(u, Eight(), a.id);
    Holds(u, Eight(), b.id);
  }

  /** With one of them gone the request fits. */
  lemma OneEnough(s: Sched, x: string, y: string, r: Request)
    requires Filled(s, x, y, r) && Want(r) == 1 && Need(r, Eight()) == Ok((4, 1))
    ensures !Fits(s.cards, s.running, r) && Fits(s.cards, s.running - {y}, r)
  {
    OneWanted(s.cards, s.running, r);
    OneWanted(s.cards, s.running - {y}, r);
    HalfLeft(s, x, y);
    assert Takes(s.running - {y}, r, Eight());
  }

  lemma HalfLeft(s: Sched, x: string, y: string)
    requires OneCard(s, Eight()) && y in s.running && SeatsOn(s.running[y].slots, 0) == 4
    requires UsedSeats(s.running, 0) == 8 && UsedMem(s.running, 0) == 2
    ensures UsedSeats(s.running - {y}, 0) == 4 && UsedMem(s.running - {y}, 0) <= 2
  {
    UsageRemove(s.running, y, 0);
    Holds(s, Eight(), y);
  }

  /** The pool has the newer one first. */
  lemma NewerFirst(s: Sched, x: string, y: string, r: Request)
    requires Filled(s, x, y, r)
    ensures P.Pool(s.running, r) == [y, x]
  {
    var pool := P.Pool(s.running, r);
    P.PoolIs(s.running, r);
    P.PoolOrder(s.running, r);
    assert P.Eligible(s.running, r) == {x, y};
    PoolOfTwo(pool, x, y);
  }

  lemma PoolOfTwo(pool: seq<string>, x: string, y: string)
    requires Distinct(pool) && Greedy.Set(pool) == {x, y} && x != y
    ensures pool == [x, y] || pool == [y, x]
  {
    ListCount(pool);
    assert |{x, y}| == 2;
    assert pool[0] in Greedy.Set(pool) && pool[1] in Greedy.Set(pool);
  }

  lemma FirstAlone<T(!new)>(fits: set<T> -> bool, pool: seq<T>)
    requires pool != [] && !fits({}) && fits({pool[0]})
    ensures Greedy.Choose(fits, pool) == Some([pool[0]])
  {
    var one := [pool[0]];
    assert pool[..1] == one && Greedy.Set(one) == {pool[0]};
    var k := Greedy.Enough(fits, pool, 1);
    assert k == Some(1) && pool[..k.value] == one;
    var none: set<T> := {pool[0]} - {pool[0]};
    assert none == {} && one[1..] == [];
    assert !fits({pool[0]} - {one[0]});
    assert Greedy.Prune(fits, one[1..], {pool[0]}) == [];
    assert Greedy.Prune(fits, pool[..k.value], Greedy.Set(pool[..k.value])) == one;
    assert Greedy.Prune(fits, one, {pool[0]}) == [one[0]] + Greedy.Prune(fits, one[1..], {pool[0]});
  }

  lemma NewerGoes(s: Sched, x: string, y: string, r: Request)
    requires Filled(s, x, y, r) && Want(r) == 1 && Need(r, Eight()) == Ok((4, 1))
    ensures P.Victims(s.cards, s.running, r) == Some([y]) && Fits(s.cards, s.running - Greedy.Set([y]), r)
    ensures Fit(s.cards, s.running, r) == Err(NoFit)
  {
    OneEnough(s, x, y, r);
    NewerFirst(s, x, y, r);
    P.WithoutMonotone(s.cards, s.running, r);
    FirstAlone(P.Without(s.cards, s.running, r), P.Pool(s.running, r));
    assert Greedy.Set([y]) == {y};
    NoFitMeans(s.cards, s.running, r);
  }

  lemma RoomFound(s: Sched, r: Request, v: seq<string>)
    requires D.Considered(s, r) && Fit(s.cards, s.running, r) == Err(NoFit)
    requires P.Victims(s.cards, s.running, r) == Some(v) && Fits(s.cards, s.running - Greedy.Set(v), r)
    ensures Admit(s, r).1.Ok? && Admit(s, r).1.value.preempt == v
  {
  }

  /** The newer of the two is pushed off. */
  lemma NewestGoes()
    ensures Valid(Halves()) && Admit(Halves(), Urgent()).1.Ok? && Admit(Halves(), Urgent()).1.value.preempt == ["b"]
  {
    HalvesFill();
    UrgentConsidered(Halves());
    Pushes(Halves(), "a", "b", Urgent());
  }

  lemma UrgentConsidered(s: Sched)
    requires |s.cards| == 1 && s.running.Keys == {"a", "b"}
    ensures D.Considered(s, Urgent()) && Need(Urgent(), Eight()) == Ok((4, 1)) && Want(Urgent()) == 1
  {
    AskNeeds("r", 4, 1, false, false);
  }

  lemma Pushes(s: Sched, x: string, y: string, r: Request)
    requires Filled(s, x, y, r) && Want(r) == 1 && Need(r, Eight()) == Ok((4, 1)) && D.Considered(s, r)
    ensures Valid(s) && Admit(s, r).1.Ok? && Admit(s, r).1.value.preempt == [y]
  {
    NewerGoes(s, x, y, r);
    RoomFound(s, r, [y]);
  }
}
