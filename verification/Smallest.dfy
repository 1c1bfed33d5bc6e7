/** When the jobs pushed off are as few as can be (internal/scheduler/scheduler.go:292-327): for a one-card request,
    over any number of cards, wherever seats decide. */
module Smallest {
  import opened Share
  import opened Sums
  import opened Lists
  import opened Cards
  import opened Fitting
  import opened Preemption
  import MemoryLaws
  import Greedy
  import Sorting

  // ---- one resource ----

  ghost function Weights<T(!new)>(w: set<T>, weight: T -> int): map<T, int> {
    map id | id in w :: weight(id)
  }

  ghost function Weight<T(!new)>(w: set<T>, weight: T -> int): int {
    Sum(Weights(w, weight))
  }

  lemma WeightAdd<T(!new)>(w: set<T>, id: T, weight: T -> int)
    requires id !in w
    ensures Weight(w + {id}, weight) == Weight(w, weight) + weight(id)
  {
    SumRemove(Weights(w + {id}, weight), id);
    assert Weights(w + {id}, weight) - {id} == Weights(w, weight);
  }

  /** From the heaviest to the lightest. */
  ghost predicate Descending<T(!new)>(l: seq<T>, weight: T -> int) {
    forall i, j :: 0 <= i <= j < |l| ==> weight(l[j]) <= weight(l[i])
  }

  /** The first `k` of a list. */
  ghost function First<T(!new)>(l: seq<T>, k: nat): set<T>
    requires k <= |l|
  {
    Greedy.Set(l[..k])
  }

  lemma {:induction false} WeightSplit<T(!new)>(a: set<T>, b: set<T>, weight: T -> int)
    requires a !! b
    ensures Weight(a + b, weight) == Weight(a, weight) + Weight(b, weight)
  {
    if b == {} {
      assert a + b == a && Weights(b, weight) == map[];
    } else {
      var id :| id in b;
      var rest := b - {id};
      WeightSplit(a, rest, weight);
      assert rest + {id} == b && a + rest + {id} == a + b;
      WeightAdd(rest, id, weight);
      WeightAdd(a + rest, id, weight);
    }
  }

  /** As many, and each no heavier. */
  lemma {:induction false} Dominated<T(!new)>(a: set<T>, b: set<T>, weight: T -> int)
    requires |a| == |b| && forall x, y :: x in a && y in b ==> weight(x) <= weight(y)
    ensures Weight(a, weight) <= Weight(b, weight)
  {
    if a == {} {
      assert b == {};
    } else {
      var x, y :| x in a && y in b;
      Dominated(a - {x}, b - {y}, weight);
      assert a - {x} + {x} == a && b - {y} + {y} == b;
      WeightAdd(a - {x}, x, weight);
      WeightAdd(b - {y}, y, weight);
    }
  }

  lemma LaterLighter<T(!new)>(l: seq<T>, weight: T -> int, k: nat, x: T, y: T)
    requires Descending(l, weight) && k <= |l| && x in l && x !in First(l, k) && y in First(l, k)
    ensures weight(x) <= weight(y)
  {
    forall i | 0 <= i < k ensures l[i] in First(l, k) {
      assert l[..k][i] == l[i];
    }
    var i :| 0 <= i < |l| && l[i] == x;
    var j :| 0 <= j < k && l[..k][j] == y;
  }

  /** No `k` of a list are heavier together than its first `k`. */
  lemma FirstHeaviest<T(!new)>(l: seq<T>, weight: T -> int, w: set<T>, k: nat)
    requires Distinct(l) && Descending(l, weight) && w <= Greedy.Set(l) && |w| == k <= |l|
    ensures Weight(w, weight) <= Weight(First(l, k), weight)
  {
    var top := First(l, k);
    assert Distinct(l[..k]);
    ListCount(l[..k]);
    var both, out, into := w * top, w - top, top - w;
    assert w == both + out && top == both + into;
    assert |w| == |both| + |out| && |top| == |both| + |into|;
    forall x, y | x in out && y in into ensures weight(x) <= weight(y) {
      LaterLighter(l, weight, k, x, y);
    }
    Dominated(out, into, weight);
    WeightSplit(both, out, weight);
    WeightSplit(both, into, weight);
  }

  lemma {:induction false} ListCount<T(!new)>(l: seq<T>)
    requires Distinct(l)
    ensures |Greedy.Set(l)| == |l|
  {
    if l != [] {
      var init, last := l[..|l| - 1], l[|l| - 1];
      assert l == init + [last] && Distinct(init);
      ListCount(init);
      assert Greedy.Set(l) == Greedy.Set(init) + {last} && last !in init;
    } else {
      assert Greedy.Set(l) == {};
    }
  }

  /** Nobody finds room with fewer. */
  ghost predicate Fewest<T(!new)>(fits: set<T> -> bool, pool: set<T>, v: set<T>) {
    forall w :: w <= pool && fits(w) ==> |v| <= |w|
  }

  lemma WeightGrows<T(!new)>(a: set<T>, b: set<T>, weight: T -> int)
    requires a <= b && forall id :: id in b ==> 0 <= weight(id)
    ensures Weight(a, weight) <= Weight(b, weight)
  {
    SumMonotone(Weights(a, weight), Weights(b, weight));
  }

  /** Up to `k` of a list are no heavier together than its first `k`. */
  lemma FirstOutweighs<T(!new)>(l: seq<T>, weight: T -> int, w: set<T>, k: nat)
    requires Distinct(l) && Descending(l, weight) && w <= Greedy.Set(l) && |w| <= k <= |l|
    requires forall id :: id in Greedy.Set(l) ==> 0 <= weight(id)
    ensures First(l, k) <= Greedy.Set(l) && |First(l, k)| == k
    ensures Weight(w, weight) <= Weight(First(l, k), weight)
  {
    assert Distinct(l[..k]);
    ListCount(l[..k]);
    FirstHeaviest(l, weight, w, |w|);
    Shorter(l, |w|, k);
    WeightGrows(First(l, |w|), First(l, k), weight);
  }

  lemma Shorter<T(!new)>(l: seq<T>, i: nat, j: nat)
    requires i <= j <= |l|
    ensures First(l, i) <= First(l, j)
  {
    forall x | x in l[..i] ensures x in l[..j] {
      var k :| 0 <= k < i && l[..i][k] == x;
      assert l[..j][k] == x;
    }
  }

  // ---- seats ----

  /** The seats a job holds on a card. */
  ghost function SeatsHeld(running: Running, card: int): string -> int {
    id => if id in running then SeatsOn(running[id].slots, card) else 0
  }

  lemma {:induction false} SeatsLeft(running: Running, w: set<string>, card: int)
    requires w <= running.Keys
    ensures UsedSeats(running - w, card) == UsedSeats(running, card) - Weight(w, SeatsHeld(running, card))
  {
    if w == {} {
      assert running - w == running && Weights(w, SeatsHeld(running, card)) == map[];
    } else {
      var id :| id in w;
      var rest := w - {id};
      SeatsLeft(running, rest, card);
      UsageRemove(running - rest, id, card);
      assert running - rest - {id} == running - w && rest + {id} == w;
      WeightAdd(rest, id, SeatsHeld(running, card));
    }
  }

  /** A card in service that is large enough for the request. */
  predicate Usable(cards: seq<Card>, r: Request, c: Card) {
    c in cards && !c.down && Need(r, c).Ok?
  }

  ghost predicate SeatsFree(running: Running, r: Request, c: Card)
    requires Need(r, c).Ok?
  {
    UsedSeats(running, c.index) + Need(r, c).value.0 <= c.seats
  }

  ghost predicate MemoryFree(running: Running, r: Request, c: Card)
    requires Need(r, c).Ok?
  {
    UsedMem(running, c.index) + Need(r, c).value.1 <= c.memMiB
  }

  /** Whichever eligible jobs leave, a card with the seats free has the memory free. */
  ghost predicate SeatsDecide(cards: seq<Card>, running: Running, r: Request) {
    forall c, w :: Usable(cards, r, c) && w <= Eligible(running, r) && SeatsFree(running - w, r, c) ==>
      MemoryFree(running - w, r, c)
  }

  /** The memory the request needs is free as things are, or request and jobs all take the default on a card with
      256 MiB a seat. */
  ghost predicate MemoryAside(running: Running, r: Request, c: Card)
    requires Need(r, c).Ok?
  {
    MemoryFree(running, r, c) || (MemoryLaws.Roomy(c) && MemoryLaws.AllDefault(running, c.index) && r.memMiB == 0)
  }

  /** Seats decide wherever memory is set aside on each card: so they do in the default configuration. */
  lemma MemorySetAside(cards: seq<Card>, running: Running, r: Request)
    requires Safe(cards, running) && forall c :: Usable(cards, r, c) ==> MemoryAside(running, r, c)
    ensures SeatsDecide(cards, running, r)
  {
    forall c, w | Usable(cards, r, c) && w <= Eligible(running, r) && SeatsFree(running - w, r, c)
      ensures MemoryFree(running - w, r, c)
    {
      if MemoryFree(running, r, c) {
        UsageMonotone(cards, running - w, running, c);
      } else {
        SafeWithin(cards, running - w, running);
        MemoryLaws.DefaultFits(cards, running - w, r, c);
      }
    }
  }

  lemma EligibleHold(cards: seq<Card>, running: Running, r: Request, c: Card)
    requires Safe(cards, running) && c in cards
    ensures forall id :: id in Eligible(running, r) ==> 0 <= SeatsHeld(running, c.index)(id)
  {
    forall id | id in Eligible(running, r) ensures 0 <= SeatsHeld(running, c.index)(id) {
      JobHolds(cards, running[id], c);
    }
  }

  /** Where seats decide, room on a card is a matter of the seats of those who leave. */
  lemma TakesBySeats(cards: seq<Card>, running: Running, r: Request, c: Card, w: set<string>)
    requires SeatsDecide(cards, running, r) && Usable(cards, r, c) && w <= Eligible(running, r)
    ensures Takes(running - w, r, c) <==>
              UsedSeats(running, c.index) + Need(r, c).value.0 - c.seats <= Weight(w, SeatsHeld(running, c.index))
  {
    SeatsLeft(running, w, c.index);
    assert SeatsFree(running - w, r, c) ==> MemoryFree(running - w, r, c);
  }

  /** If up to `k` jobs make room on a card, the `k` that hold most of it do. */
  lemma MostSeatsDo(cards: seq<Card>, running: Running, r: Request, c: Card, l: seq<string>, w: set<string>, k: nat)
    requires Safe(cards, running) && SeatsDecide(cards, running, r) && Usable(cards, r, c)
    requires Distinct(l) && Greedy.Set(l) == Eligible(running, r) && Descending(l, SeatsHeld(running, c.index))
    requires w <= Eligible(running, r) && |w| <= k <= |l| && Takes(running - w, r, c)
    ensures First(l, k) <= Eligible(running, r) && |First(l, k)| == k && Takes(running - First(l, k), r, c)
  {
    EligibleHold(cards, running, r, c);
    FirstOutweighs(l, SeatsHeld(running, c.index), w, k);
    TakesBySeats(cards, running, r, c, w);
    TakesBySeats(cards, running, r, c, First(l, k));
  }

  lemma FitsOn(cards: seq<Card>, running: Running, r: Request)
    requires Want(r) == 1
    ensures Fits(cards, running, r) <==> exists c :: Usable(cards, r, c) && Takes(running, r, c)
  {
    SomeTakes(cards, running, r);
    if c :| c in cards && Takes(running, r, c) {
      assert Usable(cards, r, c);
    }
  }

  /** The eligible jobs, those with most seats first. */
  ghost function Heaviest(running: Running, r: Request, card: int): seq<string> {
    Sorting.Sort(Pool(running, r), Heavier(running, card))
  }

  ghost function Heavier(running: Running, card: int): (string, string) -> bool {
    (a, b) => SeatsHeld(running, card)(b) < SeatsHeld(running, card)(a)
  }

  lemma HeaviestIs(running: Running, r: Request, card: int)
    requires Ranked(running)
    ensures var l := Heaviest(running, r, card);
            Distinct(l) && Greedy.Set(l) == Eligible(running, r) && Descending(l, SeatsHeld(running, card))
  {
    var pool := Pool(running, r);
    PoolIs(running, r);
    SortedDistinct(pool, Heavier(running, card));
    HeavierOrders(running, card);
    Sorting.SortOrders(pool, Heavier(running, card));
    HeaviestDescends(Heaviest(running, r, card), running, card);
  }

  lemma HeavierOrders(running: Running, card: int)
    ensures Sorting.WeakOrder(Heavier(running, card))
  {
  }

  lemma HeaviestDescends(l: seq<string>, running: Running, card: int)
    requires Sorting.Ordered(l, Heavier(running, card))
    ensures Descending(l, SeatsHeld(running, card))
  {
    forall i, j | 0 <= i <= j < |l| ensures SeatsHeld(running, card)(l[j]) <= SeatsHeld(running, card)(l[i]) {
      if i < j {
        assert !Heavier(running, card)(l[j], l[i]);
      }
    }
  }

  lemma SortedDistinct<T(!new)>(s: seq<T>, less: (T, T) -> bool)
    requires Distinct(s)
    ensures Distinct(Sorting.Sort(s, less)) && Greedy.Set(Sorting.Sort(s, less)) == Greedy.Set(s)
  {
    var l := Sorting.Sort(s, less);
    Sorting.SortPermutes(s, less);
    forall i, j | 0 <= i < j < |l| ensures l[i] != l[j] {
      if l[i] == l[j] {
        Sorting.Twice(l, i, j);
        assert l[i] in s;
        var a :| 0 <= a < |s| && s[a] == l[i];
        Sorting.Once(s, a);
      }
    }
  }

  /** No `k` jobs that hold most of any one card make room. */
  ghost predicate HeaviestFail(cards: seq<Card>, running: Running, r: Request, k: nat) {
    forall c :: Usable(cards, r, c) ==>
      var l := Heaviest(running, r, c.index);
      k <= |l| ==> !Fits(cards, running - First(l, k), r)
  }

  lemma EligibleCount(running: Running, r: Request, card: int)
    requires Ranked(running)
    ensures |Heaviest(running, r, card)| == |Eligible(running, r)|
  {
    HeaviestIs(running, r, card);
    ListCount(Heaviest(running, r, card));
  }

  /** If `k` jobs or fewer make room, so do the `k` with most seats on some card. */
  lemma FewMeansHeaviest(cards: seq<Card>, running: Running, r: Request, w: set<string>, k: nat)
    requires Safe(cards, running) && Ranked(running) && SeatsDecide(cards, running, r) && Want(r) == 1
    requires w <= Eligible(running, r) && |w| <= k <= |Eligible(running, r)| && Fits(cards, running - w, r)
    ensures !HeaviestFail(cards, running, r, k)
  {
    FitsOn(cards, running - w, r);
    var c :| Usable(cards, r, c) && Takes(running - w, r, c);
    var l := Heaviest(running, r, c.index);
    HeaviestIs(running, r, c.index);
    EligibleCount(running, r, c.index);
    MostSeatsDo(cards, running, r, c, l, w, k);
    FitsOn(cards, running - First(l, k), r);
  }

  lemma HeaviestMake(cards: seq<Card>, running: Running, r: Request, k: nat) returns (w: set<string>)
    requires Ranked(running) && k <= |Eligible(running, r)| && !HeaviestFail(cards, running, r, k)
    ensures w <= Eligible(running, r) && |w| == k && Fits(cards, running - w, r)
  {
    var c :| && Usable(cards, r, c) && k <= |Heaviest(running, r, c.index)|
             && Fits(cards, running - First(Heaviest(running, r, c.index), k), r);
    FirstEligible(running, r, c.index, k);
    w := First(Heaviest(running, r, c.index), k);
  }

  lemma FirstEligible(running: Running, r: Request, card: int, k: nat)
    requires Ranked(running) && k <= |Eligible(running, r)|
    ensures k <= |Heaviest(running, r, card)|
    ensures var w := First(Heaviest(running, r, card), k);
            w <= Eligible(running, r) && |w| == k
  {
    var l := Heaviest(running, r, card);
    HeaviestIs(running, r, card);
    EligibleCount(running, r, card);
    assert Distinct(l[..k]);
    ListCount(l[..k]);
  }

  /** No eligible jobs fewer than `n` make room. */
  ghost predicate NoneFewer(cards: seq<Card>, running: Running, r: Request, n: nat) {
    forall w :: w <= Eligible(running, r) && Fits(cards, running - w, r) ==> n <= |w|
  }

  lemma FewerIfHeaviest(cards: seq<Card>, running: Running, r: Request, n: nat)
    requires Ranked(running) && 0 < n <= |Eligible(running, r)| && !HeaviestFail(cards, running, r, n - 1)
    ensures !NoneFewer(cards, running, r, n)
  {
    var w := HeaviestMake(cards, running, r, n - 1);
    assert w <= Eligible(running, r) && Fits(cards, running - w, r) && |w| < n;
  }

  lemma NoneFewerIfFail(cards: seq<Card>, running: Running, r: Request, n: nat)
    requires Safe(cards, running) && Ranked(running) && SeatsDecide(cards, running, r) && Want(r) == 1
    requires 0 < n <= |Eligible(running, r)| && HeaviestFail(cards, running, r, n - 1)
    ensures NoneFewer(cards, running, r, n)
  {
    forall w | w <= Eligible(running, r) && Fits(cards, running - w, r) ensures n <= |w| {
      if |w| <= n - 1 {
        FewMeansHeaviest(cards, running, r, w, n - 1);
      }
    }
  }

  lemma VictimCount(cards: seq<Card>, running: Running, r: Request)
    requires Safe(cards, running) && Ranked(running) && !Fits(cards, running, r) && Victims(cards, running, r).Some?
    ensures 0 < |Victims(cards, running, r).value| <= |Eligible(running, r)|
  {
    SomeVictim(cards, running, r);
    SubsetCount(Greedy.Set(Victims(cards, running, r).value), Eligible(running, r));
  }

  /** Where seats decide, the victims are as few as can be exactly when, on no card, the eligible jobs with most
      seats there, one fewer than the victims, would make room. */
  lemma VictimsFewest(cards: seq<Card>, running: Running, r: Request)
    requires Safe(cards, running) && Ranked(running) && SeatsDecide(cards, running, r) && Want(r) == 1
    requires !Fits(cards, running, r) && Victims(cards, running, r).Some?
    ensures var n := |Victims(cards, running, r).value|;
            0 < n && (NoneFewer(cards, running, r, n) <==> HeaviestFail(cards, running, r, n - 1))
  {
    VictimCount(cards, running, r);
    var n := |Victims(cards, running, r).value|;
    if HeaviestFail(cards, running, r, n - 1) {
      NoneFewerIfFail(cards, running, r, n);
    } else {
      FewerIfHeaviest(cards, running, r, n);
    }
  }

  lemma SomeVictim(cards: seq<Card>, running: Running, r: Request)
    requires Safe(cards, running) && Ranked(running) && !Fits(cards, running, r) && Victims(cards, running, r).Some?
    ensures var v := Victims(cards, running, r).value;
            v != [] && Greedy.Set(v) != {} && |Greedy.Set(v)| == |v| && Greedy.Set(v) <= Eligible(running, r)
  {
    var v := Victims(cards, running, r).value;
    VictimsMinimal(cards, running, r);
    var none: seq<string> := [];
    assert running - Greedy.Set(none) == running;
    assert v[0] in Greedy.Set(v);
    ListCount(v);
  }

  lemma FewestMeans(cards: seq<Card>, running: Running, r: Request, v: set<string>)
    ensures Fewest(Without(cards, running, r), Eligible(running, r), v) <==>
              forall w :: w <= Eligible(running, r) && Fits(cards, running - w, r) ==> |v| <= |w|
  {
    assert forall w :: Without(cards, running, r)(w) == Fits(cards, running - w, r);
  }

  /** The pool, in the order jobs are pushed off, never goes up in seats on a card. */
  ghost predicate FallsOn(running: Running, r: Request, card: int) {
    Descending(Pool(running, r), SeatsHeld(running, card))
  }

  /** Where seats decide and on no card an eligible job holds more seats than one pushed off before it, the victims
      are as few as can be: a condition on the running jobs alone, whatever the request needs. */
  lemma VictimsFewestInOrder(cards: seq<Card>, running: Running, r: Request)
    requires Safe(cards, running) && Ranked(running) && SeatsDecide(cards, running, r) && Want(r) == 1
    requires !Fits(cards, running, r) && Victims(cards, running, r).Some?
    requires forall c :: Usable(cards, r, c) ==> FallsOn(running, r, c.index)
    ensures NoneFewer(cards, running, r, |Victims(cards, running, r).value|)
  {
    var pool, v := Pool(running, r), Victims(cards, running, r).value;
    PoolIs(running, r);
    SomeVictim(cards, running, r);
    WithoutMonotone(cards, running, r);
    PrefixTooSmall(Without(cards, running, r), pool);
    forall w | w <= Eligible(running, r) && Fits(cards, running - w, r) ensures |v| <= |w| {
      FitsOn(cards, running - w, r);
      var c :| Usable(cards, r, c) && Takes(running - w, r, c);
      if |w| <= |v| - 1 {
        MostSeatsDo(cards, running, r, c, pool, w, |v| - 1);
        FitsOn(cards, running - First(pool, |v| - 1), r);
      }
    }
  }

  /** One fewer of the cheapest than were chosen do not make room. */
  lemma PrefixTooSmall<T(!new)>(fits: set<T> -> bool, pool: seq<T>)
    requires Greedy.Monotone(fits) && Distinct(pool) && !fits({}) && Greedy.Choose(fits, pool).Some?
    requires Greedy.Choose(fits, pool).value != []
    ensures var v := Greedy.Choose(fits, pool).value;
            |v| <= |pool| && !fits(First(pool, |v| - 1))
  {
    var k := Greedy.Enough(fits, pool, 1).value;
    var chosen, v := pool[..k], Greedy.Choose(fits, pool).value;
    Greedy.PruneMinimal(fits, chosen, Greedy.Set(chosen));
    ListCount(v);
    ListCount(chosen);
    SubsetCount(Greedy.Set(v), Greedy.Set(chosen));
    Shorter(pool, |v| - 1, k - 1);
    if k == 1 {
      assert First(pool, 0) == {};
    }
  }

  // ---- jobs alike ----

  /** Whether room is made depends only on how many leave. */
  ghost predicate ByCount<T(!new)>(fits: set<T> -> bool, pool: set<T>) {
    forall a, b :: a <= pool && b <= pool && |a| == |b| && fits(a) ==> fits(b)
  }

  lemma {:induction false} SubsetOfSize<T>(s: set<T>, n: nat) returns (t: set<T>)
    requires n <= |s|
    ensures t <= s && |t| == n
  {
    if n == |s| {
      t := s;
    } else {
      var id :| id in s;
      t := SubsetOfSize(s - {id}, n);
    }
  }

  lemma AlikeFewest<T(!new)>(fits: set<T> -> bool, pool: set<T>, v: set<T>)
    requires Greedy.Monotone(fits) && ByCount(fits, pool) && v <= pool && v != {}
    requires forall id :: id in v ==> !fits(v - {id})
    ensures Fewest(fits, pool, v)
  {
    forall w | w <= pool && |w| < |v| ensures !fits(w) {
      var id :| id in v;
      var u := SubsetOfSize(v - {id}, |w|);
      assert fits(w) ==> fits(u);
      assert fits(u) ==> fits(v - {id});
    }
  }

  ghost function MemHeld(running: Running, card: int): string -> int {
    id => if id in running then MemOn(running[id].slots, card) else 0
  }

  lemma {:induction false} MemLeft(running: Running, w: set<string>, card: int)
    requires w <= running.Keys
    ensures UsedMem(running - w, card) == UsedMem(running, card) - Weight(w, MemHeld(running, card))
  {
    if w == {} {
      assert running - w == running && Weights(w, MemHeld(running, card)) == map[];
    } else {
      var id :| id in w;
      var rest := w - {id};
      MemLeft(running, rest, card);
      UsageRemove(running - rest, id, card);
      assert running - rest - {id} == running - w && rest + {id} == w;
      WeightAdd(rest, id, MemHeld(running, card));
    }
  }

  /** All eligible jobs hold the same seats and the same memory on each card in service. */
  ghost predicate Alike(cards: seq<Card>, running: Running, r: Request) {
    forall c, a, b :: c in cards && !c.down && a in Eligible(running, r) && b in Eligible(running, r) ==>
      SeatsHeld(running, c.index)(a) == SeatsHeld(running, c.index)(b) &&
      MemHeld(running, c.index)(a) == MemHeld(running, c.index)(b)
  }

  /** Sets of alike jobs of one size leave the same room on a card. */
  lemma AlikeTakes(cards: seq<Card>, running: Running, r: Request, c: Card, a: set<string>, b: set<string>)
    requires Alike(cards, running, r) && c in cards && !c.down
    requires a <= Eligible(running, r) && b <= Eligible(running, r) && |a| == |b|
    ensures Takes(running - a, r, c) <==> Takes(running - b, r, c)
  {
    Dominated(b, a, SeatsHeld(running, c.index));
    Dominated(a, b, SeatsHeld(running, c.index));
    Dominated(b, a, MemHeld(running, c.index));
    Dominated(a, b, MemHeld(running, c.index));
    SeatsLeft(running, a, c.index);
    SeatsLeft(running, b, c.index);
    MemLeft(running, a, c.index);
    MemLeft(running, b, c.index);
  }

  lemma {:induction false} AlikeCands(all: seq<Card>, cards: seq<Card>, running: Running, r: Request,
                                      a: set<string>, b: set<string>)
    requires Alike(all, running, r) && a <= Eligible(running, r) && b <= Eligible(running, r) && |a| == |b|
    requires forall c :: c in cards ==> c in all
    ensures |Cands(cards, running - a, r)| == |Cands(cards, running - b, r)|
  {
    if cards != [] {
      var c := cards[|cards| - 1];
      AlikeCands(all, cards[..|cards| - 1], running, r, a, b);
      assert c in cards;
      if !c.down {
        AlikeTakes(all, running, r, c, a, b);
      }
    }
  }

  /** With all eligible jobs alike, seats or memory deciding, on one card or a gang of them, the victims are as few as
      can be. */
  lemma VictimsFewestAlike(cards: seq<Card>, running: Running, r: Request)
    requires Safe(cards, running) && Ranked(running) && Alike(cards, running, r)
    requires !Fits(cards, running, r) && Victims(cards, running, r).Some?
    ensures NoneFewer(cards, running, r, |Victims(cards, running, r).value|)
  {
    var fits, v := Without(cards, running, r), Victims(cards, running, r).value;
    forall a, b | a <= Eligible(running, r) && b <= Eligible(running, r) && |a| == |b| && fits(a) ensures fits(b) {
      AlikeCands(cards, cards, running, r, a, b);
    }
    VictimsMinimal(cards, running, r);
    SomeVictim(cards, running, r);
    WithoutMonotone(cards, running, r);
    AlikeFewest(fits, Eligible(running, r), Greedy.Set(v));
    ListCount(v);
    FewestMeans(cards, running, r, Greedy.Set(v));
  }
}
