/** Two jobs pushed off where one would do (internal/scheduler/scheduler.go:292-327): two jobs of two seats and a
    more urgent one of four fill a card, each with its default memory, and a still more urgent job wants four seats. */
module SmallestInstance {
  import opened Share
  import opened Lists
  import opened Cards
  import opened Fitting
  import opened SchedulerModel
  import opened Instances
  import opened Smallest
  import MemoryLaws
  import Greedy
  import P = Preemption

  // ---- the search, on three of those weights ----

  lemma WeightOne<T(!new)>(x: T, weight: T -> int)
    ensures Weight({x}, weight) == weight(x)
  {
    var none: set<T> := {};
    assert none + {x} == {x} && Weights(none, weight) == map[];
    WeightAdd(none, x, weight);
  }

  lemma WeightTwo<T(!new)>(x: T, y: T, weight: T -> int)
    requires x != y
    ensures Weight({x, y}, weight) == weight(x) + weight(y)
  {
    WeightOne(x, weight);
    assert {x} + {y} == {x, y};
    WeightAdd({x}, y, weight);
  }

  /** Four seats are wanted, and those who leave make room by the seats they hold: the search takes the first two
      off and can spare neither, though the third alone would do. */
  lemma TwoOfThree(cards: seq<Card>, c: Card, running: Running, r: Request, x: string, y: string, z: string)
    requires Safe(cards, running) && SeatsDecide(cards, running, r) && cards == [c] && Usable(cards, r, c)
    requires Want(r) == 1 && UsedSeats(running, c.index) + Need(r, c).value.0 - c.seats == 4
    requires {x, y, z} <= P.Eligible(running, r) && x != y
    requires SeatsHeld(running, c.index)(x) == 2 && SeatsHeld(running, c.index)(y) == 2
    requires SeatsHeld(running, c.index)(z) == 4
    ensures var fits := P.Without(cards, running, r);
            !fits({x}) && !fits({y}) && fits({x, y}) && fits({z})
  {
    var weight := SeatsHeld(running, c.index);
    WeightOne(x, weight);
    WeightOne(y, weight);
    WeightOne(z, weight);
    WeightTwo(x, y, weight);
    OnlyBySeats(cards, c, running, r, {x});
    OnlyBySeats(cards, c, running, r, {y});
    OnlyBySeats(cards, c, running, r, {z});
    OnlyBySeats(cards, c, running, r, {x, y});
  }

  lemma OnlyBySeats(cards: seq<Card>, c: Card, running: Running, r: Request, w: set<string>)
    requires SeatsDecide(cards, running, r) && cards == [c] && Usable(cards, r, c) && Want(r) == 1
    requires w <= P.Eligible(running, r)
    ensures P.Without(cards, running, r)(w) <==>
              UsedSeats(running, c.index) + Need(r, c).value.0 - c.seats <= Weight(w, SeatsHeld(running, c.index))
  {
    FitsOn(cards, running - w, r);
    TakesBySeats(cards, running, r, c, w);
  }

  lemma Searched<T(!new)>(fits: set<T> -> bool, pool: seq<T>)
    requires |pool| == 3 && Distinct(pool)
    requires !fits({pool[0]}) && !fits({pool[1]}) && fits({pool[0], pool[1]})
    ensures Greedy.Choose(fits, pool) == Some([pool[0], pool[1]])
  {
    var x, y := pool[0], pool[1];
    assert pool[..1] == [x] && pool[..2] == [x, y];
    assert Greedy.Set(pool[..1]) == {x} && Greedy.Set(pool[..2]) == {x, y};
    assert Greedy.Enough(fits, pool, 2) == Some(2);
    assert Greedy.Enough(fits, pool, 1) == Some(2);
    assert {x, y} - {x} == {y} && {x, y} - {y} == {x};
    var two := [x, y];
    assert two[1..] == [y] && two[1..][1..] == [];
    assert Greedy.Prune(fits, [], {x, y}) == [];
    assert Greedy.Prune(fits, two[1..], {x, y}) == [y];
    assert Greedy.Prune(fits, two, {x, y}) == [x] + [y];
    var k := Greedy.Enough(fits, pool, 1);
    assert k.value == 2 && pool[..k.value] == two && Greedy.Set(pool[..k.value]) == {x, y};
    assert Greedy.Prune(fits, pool[..k.value], Greedy.Set(pool[..k.value])) == two;
  }

  /** Of three jobs the costliest comes last. */
  lemma LastOfThree<T(!new)>(pool: seq<T>, x: T, y: T, z: T, cheaper: (T, T) -> bool)
    requires Distinct(pool) && Greedy.Ascending(pool, cheaper) && Greedy.Set(pool) == {x, y, z}
    requires x != y && x != z && y != z && cheaper(x, z) && cheaper(y, z)
    ensures |pool| == 3 && pool[2] == z && pool[0] in {x, y} && pool[1] in {x, y}
  {
    ListCount(pool);
    assert |{x, y, z}| == 3;
    assert pool[0] in Greedy.Set(pool) && pool[1] in Greedy.Set(pool) && pool[2] in Greedy.Set(pool);
    assert z in pool && x in pool && y in pool;
  }

  // ---- on a card ----

  /** Jobs `x` and `y` hold two seats each and `z`, costlier than both, four; `r` may push off any of them and
      wants four seats. */
  ghost predicate Hold(running: Running, x: string, y: string, z: string, r: Request) {
    && running.Keys == {x, y, z} && x != y && x != z && y != z
    && P.MayEvict(running[x], r) && P.MayEvict(running[y], r) && P.MayEvict(running[z], r)
    && P.Cheaper(running[x], running[z]) && P.Cheaper(running[y], running[z])
    && SeatsOn(running[x].slots, 0) == 2 && SeatsOn(running[y].slots, 0) == 2 && SeatsOn(running[z].slots, 0) == 4
  }

  lemma TwoGo(cards: seq<Card>, c: Card, running: Running, x: string, y: string, z: string, r: Request)
    requires Safe(cards, running) && SeatsDecide(cards, running, r) && cards == [c] && Usable(cards, r, c)
    requires P.Ranked(running) && Hold(running, x, y, z, r) && Want(r) == 1
    requires c.index == 0 && UsedSeats(running, 0) + Need(r, c).value.0 - c.seats == 4
    ensures P.Victims(cards, running, r).Some? && |P.Victims(cards, running, r).value| == 2
    ensures {z} <= P.Eligible(running, r) && P.Without(cards, running, r)({z})
  {
    PoolIsThree(running, x, y, z, r);
    P.PoolIs(running, r);
    var pool := P.Pool(running, r);
    assert {pool[0], pool[1], pool[2]} <= Greedy.Set(pool);
    TwoOfThree(cards, c, running, r, pool[0], pool[1], pool[2]);
    Searched(P.Without(cards, running, r), pool);
  }

  lemma PoolIsThree(running: Running, x: string, y: string, z: string, r: Request)
    requires P.Ranked(running) && Hold(running, x, y, z, r)
    ensures var pool := P.Pool(running, r);
            && |pool| == 3 && pool[2] == z && z in P.Eligible(running, r)
            && SeatsHeld(running, 0)(pool[0]) == 2 && SeatsHeld(running, 0)(pool[1]) == 2 &&
              SeatsHeld(running, 0)(pool[2]) == 4
  {
    P.PoolIs(running, r);
    assert P.Eligible(running, r) == {x, y, z};
    LastOfThree(P.Pool(running, r), x, y, z, P.CheaperId(running));
  }

  // ---- from an empty card ----

  function A(): Request { Default("a", 2, 0, true, false) }
  function B(): Request { Default("b", 2, 0, true, false) }
  function C(): Request { Default("c", 4, 1, true, false) }
  function R(): Request { Default("r", 4, 2, false, false) }

  /** A card of eight seats with 1024 MiB for each. */
  function Big(): Card {
    Card(0, "card", 8192, 8, false)
  }

  /** A request for `k` eighths of one card and the memory that goes with them. */
  function Default(id: string, k: int, priority: int, preemptible: bool, wait: bool): Request {
    Ask(id, k, priority, preemptible, wait).(memMiB := 0)
  }

  lemma DefaultNeeds(id: string, k: int, priority: int, preemptible: bool, wait: bool)
    requires 1 <= k <= 8
    ensures Need(Default(id, k, priority, preemptible, wait), Big()) == Ok((k, 1024 * k))
    ensures id != "" ==> Validate(Default(id, k, priority, preemptible, wait)).None?
  {
  }

  /** The three jobs, admitted one after another. */
  ghost function Crowd(): Sched {
    Admit(Admit(Admit(New([Big()]), A()).0, B()).0, C()).0
  }

  lemma ThreeHold(v: Sched, a: Request, b: Request, c: Request, r: Request, k: Card)
    requires a.id != b.id && a.id != c.id && b.id != c.id
    requires Loaded(v, k, map[a.id := a, b.id := b, c.id := c], 8, 8192)
    requires Need(a, k) == Ok((2, 2048)) && Need(b, k) == Ok((2, 2048)) && Need(c, k) == Ok((4, 4096))
    requires a.preemptible && b.preemptible && c.preemptible
    requires a.priority < c.priority < r.priority && b.priority < c.priority
    ensures Hold(v.running, a.id, b.id, c.id, r)
  {
    Holds(v, k, a.id);
    Holds(v, k, b.id);
    Holds(v, k, c.id);
  }

  lemma OneLoaded(s: Sched, t: Sched)
    requires Loaded(s, Big(), map[], 0, 0) && t == Admit(s, A()).0
    ensures Loaded(t, Big(), map["a" := A()], 2, 2048)
  {
    DefaultNeeds("a", 2, 0, true, false);
    LoadMore(s, t, Big(), map[], 0, 0, A(), 2, 2048);
  }

  lemma TwoLoaded(t: Sched, u: Sched)
    requires Loaded(t, Big(), map["a" := A()], 2, 2048) && u == Admit(t, B()).0
    ensures Loaded(u, Big(), map["a" := A(), "b" := B()], 4, 4096)
  {
    DefaultNeeds("b", 2, 0, true, false);
    LoadMore(t, u, Big(), map["a" := A()], 2, 2048, B(), 2, 2048);
  }

  lemma ThreeLoaded(u: Sched, v: Sched)
    requires Loaded(u, Big(), map["a" := A(), "b" := B()], 4, 4096) && v == Admit(u, C()).0
    ensures Loaded(v, Big(), map["a" := A(), "b" := B(), "c" := C()], 8, 8192)
  {
    DefaultNeeds("c", 4, 1, true, false);
    LoadMore(u, v, Big(), map["a" := A(), "b" := B()], 4, 4096, C(), 4, 4096);
  }

  /** All on the card take the default. */
  lemma TakeDefaults(s: Sched, c: Card, m: map<string, Request>, seats: int, mem: int)
    requires Loaded(s, c, m, seats, mem) && forall id :: id in m ==> m[id].memMiB == 0
    ensures MemoryLaws.AllDefault(s.running, 0)
  {
  }

  /** The card is full, and the three jobs hold it, each with its default memory. */
  ghost predicate Crowded(s: Sched, k: Card, x: string, y: string, z: string, r: Request) {
    && OneCard(s, k) && UsedSeats(s.running, 0) == 8 && MemoryLaws.AllDefault(s.running, 0)
    && Hold(s.running, x, y, z, r)
  }

  lemma CrowdHolds()
    ensures Crowded(Crowd(), Big(), "a", "b", "c", R())
  {
    Opens(Big());
    var s := New([Big()]);
    var t := Admit(s, A()).0;
    OneLoaded(s, t);
    TwoLoaded(t, Admit(t, B()).0);
    ThreeLoaded(Admit(t, B()).0, Crowd());
    CrowdFrom(Crowd());
  }

  lemma CrowdFrom(v: Sched)
    requires Loaded(v, Big(), map["a" := A(), "b" := B(), "c" := C()], 8, 8192)
    ensures Crowded(v, Big(), "a", "b", "c", R())
  {
    DefaultNeeds("a", 2, 0, true, false);
    DefaultNeeds("b", 2, 0, true, false);
    DefaultNeeds("c", 4, 1, true, false);
    ThreeHold(v, A(), B(), C(), R(), Big());
    TakeDefaults(v, Big(), map["a" := A(), "b" := B(), "c" := C()], 8, 8192);
  }

  /** The request takes its default too. */
  lemma DefaultsDecide(s: Sched, c: Card, r: Request)
    requires OneCard(s, c) && MemoryLaws.AllDefault(s.running, 0) && r.memMiB == 0
    requires !c.down && Need(r, c).Ok? && MemoryLaws.Roomy(c)
    ensures SeatsDecide(s.cards, s.running, r) && Usable(s.cards, r, c)
  {
    forall d | Usable(s.cards, r, d) ensures MemoryAside(s.running, r, d) {
      assert d == c;
    }
    MemorySetAside(s.cards, s.running, r);
    assert c in s.cards;
  }

  lemma FromCrowd(s: Sched, k: Card, x: string, y: string, z: string, r: Request)
    requires Crowded(s, k, x, y, z, r) && !k.down && MemoryLaws.Roomy(k)
    requires r.memMiB == 0 && Want(r) == 1 && Need(r, k) == Ok((4, 4096))
    ensures Valid(s) && SeatsDecide(s.cards, s.running, r)
    ensures P.Victims(s.cards, s.running, r).Some? && |P.Victims(s.cards, s.running, r).value| == 2
    ensures {z} <= P.Eligible(s.running, r) && Fits(s.cards, s.running - {z}, r)
  {
    DefaultsDecide(s, k, r);
    TwoGo(s.cards, k, s.running, x, y, z, r);
  }

  /** The new job pushes two off, and pushing off the third alone would have made room. */
  lemma FewerWouldDo()
    ensures var (s, r) := (Crowd(), R());
            && Valid(s) && SeatsDecide(s.cards, s.running, r)
            && P.Victims(s.cards, s.running, r).Some? && |P.Victims(s.cards, s.running, r).value| == 2
            && {"c"} <= P.Eligible(s.running, r) && Fits(s.cards, s.running - {"c"}, r)
  {
    CrowdHolds();
    DefaultNeeds("r", 4, 2, false, false);
    FromCrowd(Crowd(), Big(), "a", "b", "c", R());
  }
}
