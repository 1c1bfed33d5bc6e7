/** Who gives way (`victims`, internal/scheduler/scheduler.go:292-327). */
module Preemption {
  import opened Share
  import opened Lists
  import opened Cards
  import opened Fitting
  import opened Greedy
  import Sorting

  /** Jobs that may be pushed off for `r`. */
  predicate MayEvict(p: Placed, r: Request) {
    p.req.preemptible && p.req.priority < r.priority
  }

  ghost function Eligible(running: Running, r: Request): set<string> {
    set id | id in running && MayEvict(running[id], r)
  }

  ghost function EligibleJobs(running: Running, r: Request): set<Placed> {
    set id | id in running && MayEvict(running[id], r) :: running[id]
  }

  /** `a` is pushed off before `b`: lower priority first, then newest first. */
  predicate Cheaper(a: Placed, b: Placed) {
    if a.req.priority != b.req.priority then a.req.priority < b.req.priority else b.order < a.order
  }

  /** Every job runs under its own id, and no two were admitted at the same point. */
  ghost predicate Ranked(running: Running) {
    && (forall id :: id in running ==> running[id].req.id == id)
    && (forall a, b :: a in running && b in running && a != b ==> running[a].order != running[b].order)
  }

  ghost function Listed(s: set<Placed>): (l: seq<Placed>)
    ensures multiset(l) == multiset(s)
  {
    if s == {} then []
    else
      var p :| p in s;
      [p] + Listed(s - {p})
  }

  function Names(pool: seq<Placed>): (s: seq<string>)
    ensures |s| == |pool| && forall i :: 0 <= i < |s| ==> s[i] == pool[i].req.id
  {
    seq(|pool|, i requires 0 <= i < |pool| => pool[i].req.id)
  }

  /** Eligible jobs in the order they are pushed off. */
  ghost function PoolJobs(running: Running, r: Request): seq<Placed> {
    Sorting.Sort(Listed(EligibleJobs(running, r)), Cheaper)
  }

  ghost function Pool(running: Running, r: Request): seq<string> {
    Names(PoolJobs(running, r))
  }

  /** Any way of listing the eligible jobs sorts to the same pool. */
  lemma PoolUnique(running: Running, r: Request, pool: seq<Placed>)
    requires Ranked(running)
    requires multiset(pool) == multiset(EligibleJobs(running, r))
    ensures Sorting.Sort(pool, Cheaper) == PoolJobs(running, r)
  {
    SortedEligible(running, r, pool);
    SortedEligible(running, r, Listed(EligibleJobs(running, r)));
    Sorting.OrderedUnique(Sorting.Sort(pool, Cheaper), PoolJobs(running, r), Cheaper);
  }

  /** A sorted list of the eligible jobs holds them all, in order, and any two of them are ordered. */
  lemma SortedEligible(running: Running, r: Request, pool: seq<Placed>)
    requires Ranked(running) && multiset(pool) == multiset(EligibleJobs(running, r))
    ensures var a := Sorting.Sort(pool, Cheaper);
            && multiset(a) == multiset(EligibleJobs(running, r)) && Sorting.Ordered(a, Cheaper)
            && forall p, q :: p in a && q in a && p != q ==> Cheaper(p, q) || Cheaper(q, p)
  {
    var a := Sorting.Sort(pool, Cheaper);
    Sorting.SortPermutes(pool, Cheaper);
    Sorting.SortOrders(pool, Cheaper);
    forall p, q | p in a && q in a && p != q ensures Cheaper(p, q) || Cheaper(q, p) {
      assert p in multiset(a) && q in multiset(a);
      assert p in EligibleJobs(running, r) && q in EligibleJobs(running, r);
    }
  }

  /** The order of pushing off, on ids. */
  ghost function CheaperId(running: Running): (string, string) -> bool {
    (a, b) => a in running && b in running && Cheaper(running[a], running[b])
  }

  lemma PoolJobsAre(running: Running, r: Request)
    requires Ranked(running)
    ensures var l := PoolJobs(running, r);
            && (forall p :: p in l <==> p in EligibleJobs(running, r))
            && (forall i, j :: 0 <= i < j < |l| ==> l[i] != l[j] && !Cheaper(l[j], l[i]))
  {
    var jobs := EligibleJobs(running, r);
    Sorting.SortPermutes(Listed(jobs), Cheaper);
    Sorting.SortOrders(Listed(jobs), Cheaper);
    Sorting.ListsOnce(PoolJobs(running, r), jobs);
  }

  lemma PoolEntry(running: Running, r: Request, i: nat)
    requires Ranked(running) && i < |Pool(running, r)|
    ensures var id := Pool(running, r)[i];
            id in Eligible(running, r) && running[id] == PoolJobs(running, r)[i]
  {
    PoolJobsAre(running, r);
    assert PoolJobs(running, r)[i] in EligibleJobs(running, r);
  }

  lemma PoolPair(running: Running, r: Request, i: nat, j: nat)
    requires Ranked(running) && i < j < |Pool(running, r)|
    ensures var pool := Pool(running, r);
            && pool[i] != pool[j] && CheaperId(running)(pool[i], pool[j]) && !CheaperId(running)(pool[j], pool[i])
            && pool[i] in running && pool[j] in running && Cheaper(running[pool[i]], running[pool[j]])
  {
    PoolJobsAre(running, r);
    PoolEntry(running, r, i);
    PoolEntry(running, r, j);
    var a, b := PoolJobs(running, r)[i], PoolJobs(running, r)[j];
    assert a != b && !Cheaper(b, a);
    assert a.req.id != b.req.id && a.order != b.order;
    assert Cheaper(a, b);
  }

  lemma NotCheaperSelf(running: Running, id: string)
    ensures !CheaperId(running)(id, id)
  {
    if id in running { assert !Cheaper(running[id], running[id]); }
  }

  /** The pool lists every eligible job once, each before the ones more costly to push off. */
  lemma PoolIs(running: Running, r: Request)
    requires Ranked(running)
    ensures var pool := Pool(running, r);
            Set(pool) == Eligible(running, r) && Distinct(pool) && Ascending(pool, CheaperId(running))
  {
    var pool, cheaper := Pool(running, r), CheaperId(running);
    forall id | id in Eligible(running, r) ensures id in Set(pool) {
      PoolJobsAre(running, r);
      assert running[id] in EligibleJobs(running, r);
      var i :| 0 <= i < |pool| && PoolJobs(running, r)[i] == running[id];
      assert pool[i] == id;
    }
    forall id | id in Set(pool) ensures id in Eligible(running, r) {
      var i :| 0 <= i < |pool| && pool[i] == id;
      PoolEntry(running, r, i);
    }
    forall i, j | 0 <= i <= j < |pool|
      ensures !cheaper(pool[j], pool[i]) && (i < j ==> pool[i] != pool[j] && cheaper(pool[i], pool[j]))
    {
      if i < j { PoolPair(running, r, i, j); } else { NotCheaperSelf(running, pool[i]); }
    }
  }

  /** Who is in the pool, and in what order: the preemptible jobs of lower priority, the least urgent first, and of
      one priority the newest first. */
  lemma PoolOrder(running: Running, r: Request)
    requires Ranked(running)
    ensures var pool := Pool(running, r);
            && Distinct(pool)
            && (forall id :: id in pool <==>
                  id in running && running[id].req.preemptible && running[id].req.priority < r.priority)
            && forall i, j :: 0 <= i < j < |pool| ==>
                 var a, b := running[pool[i]], running[pool[j]];
                 a.req.priority < b.req.priority || (a.req.priority == b.req.priority && b.order < a.order)
  {
    var pool := Pool(running, r);
    PoolIs(running, r);
    PoolHas(running, r);
    forall i, j | 0 <= i < j < |pool|
      ensures var a, b := running[pool[i]], running[pool[j]];
              a.req.priority < b.req.priority || (a.req.priority == b.req.priority && b.order < a.order)
    {
      PoolPair(running, r, i, j);
    }
  }

  lemma PoolHas(running: Running, r: Request)
    requires Set(Pool(running, r)) == Eligible(running, r)
    ensures forall id :: id in Pool(running, r) <==>
              id in running && running[id].req.preemptible && running[id].req.priority < r.priority
  {
    forall id ensures id in Pool(running, r) <==> id in Eligible(running, r) {
      assert id in Pool(running, r) <==> id in Set(Pool(running, r));
    }
  }

  /** Whether the request fits with some jobs gone. */
  ghost function Without(cards: seq<Card>, running: Running, r: Request): set<string> -> bool {
    w => Fits(cards, running - w, r)
  }

  /** The jobs `victims` names, if pushing off eligible jobs can make room. */
  ghost function Victims(cards: seq<Card>, running: Running, r: Request): Option<seq<string>> {
    Choose(Without(cards, running, r), Pool(running, r))
  }

  lemma WithoutMonotone(cards: seq<Card>, running: Running, r: Request)
    requires Safe(cards, running)
    ensures Monotone(Without(cards, running, r))
    ensures Without(cards, running, r)({}) == Fits(cards, running, r)
  {
    var fits := Without(cards, running, r);
    forall a, b | a <= b && fits(a) ensures fits(b) {
      SafeWithin(cards, running - a, running);
      FitsMonotone(cards, running - b, running - a, r);
    }
    assert running - {} == running;
  }

  /** Preemption is complete: a set of eligible jobs is found exactly when some such set makes room. */
  lemma VictimsComplete(cards: seq<Card>, running: Running, r: Request)
    requires Safe(cards, running) && Ranked(running) && !Fits(cards, running, r)
    ensures Victims(cards, running, r).Some? <==>
              exists w :: w <= Eligible(running, r) && Fits(cards, running - w, r)
    ensures forall id :: id in Eligible(running, r) <==>
              id in running && running[id].req.preemptible && running[id].req.priority < r.priority
  {
    WithoutMonotone(cards, running, r);
    PoolIs(running, r);
    var fits := Without(cards, running, r);
    ChooseComplete(fits, Pool(running, r));
    assert forall w :: fits(w) == Fits(cards, running - w, r);
  }

  /** Preemption is irredundant: only eligible jobs are named, without them the request fits, and sparing
      any one of them makes it not fit. */
  lemma VictimsMinimal(cards: seq<Card>, running: Running, r: Request)
    requires Safe(cards, running) && Ranked(running) && Victims(cards, running, r).Some?
    ensures var v := Victims(cards, running, r).value;
            && Set(v) <= Eligible(running, r) && Distinct(v)
            && Fits(cards, running - Set(v), r)
            && forall id :: id in v ==> !Fits(cards, running - (Set(v) - {id}), r)
  {
    WithoutMonotone(cards, running, r);
    PoolIs(running, r);
    ChooseMinimal(Without(cards, running, r), Pool(running, r));
  }

  /** The costliest of the jobs pushed off, by the order of the pool. */
  lemma CostliestVictim(cards: seq<Card>, running: Running, r: Request) returns (top: string)
    requires Safe(cards, running) && Ranked(running)
    requires !Fits(cards, running, r) && Victims(cards, running, r).Some?
    ensures var v := Victims(cards, running, r).value;
            && top in v && Set(v) <= running.Keys
            && forall id :: id in v && id != top ==> Cheaper(running[id], running[top])
    ensures forall w :: w <= Eligible(running, r) && Fits(cards, running - w, r) ==>
              exists id :: id in w && !Cheaper(running[id], running[top])
  {
    WithoutMonotone(cards, running, r);
    PoolIs(running, r);
    ChooseMinimal(Without(cards, running, r), Pool(running, r));
    top := ChooseMinimax(Without(cards, running, r), Pool(running, r), CheaperId(running));
    assert top in Set(Victims(cards, running, r).value);
    forall w | w <= Eligible(running, r) && Fits(cards, running - w, r)
      ensures exists id :: id in w && !Cheaper(running[id], running[top])
    {
      assert Without(cards, running, r)(w);
      var id :| id in w && !CheaperId(running)(id, top);
    }
  }

  /** Preemption is minimax optimal. One of the jobs it pushes off is the most urgent of them and the oldest of its
      priority; it cannot be spared, and every set of eligible jobs that makes room has a more urgent one, or one of
      the same priority and no newer. */
  lemma VictimsMinimax(cards: seq<Card>, running: Running, r: Request) returns (top: string)
    requires Safe(cards, running) && Ranked(running)
    requires !Fits(cards, running, r) && Victims(cards, running, r).Some?
    ensures var v := Victims(cards, running, r).value;
            && top in v && Set(v) <= running.Keys
            && forall id :: id in v && id != top ==>
                 var a, b := running[id], running[top];
                 a.req.priority < b.req.priority || (a.req.priority == b.req.priority && b.order < a.order)
    ensures forall w :: w <= Eligible(running, r) && Fits(cards, running - w, r) ==>
              exists id :: id in w &&
                var a, b := running[id], running[top];
                b.req.priority < a.req.priority || (a.req.priority == b.req.priority && a.order <= b.order)
  {
    top := CostliestVictim(cards, running, r);
    forall w | w <= Eligible(running, r) && Fits(cards, running - w, r)
      ensures exists id :: id in w &&
                var a, b := running[id], running[top];
                b.req.priority < a.req.priority || (a.req.priority == b.req.priority && a.order <= b.order)
    {
      var id :| id in w && !Cheaper(running[id], running[top]);
    }
  }
}
