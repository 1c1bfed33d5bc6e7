/** Gang placement by best fit (`fit`, internal/scheduler/scheduler.go:243-290).
    Ignoring some jobs is looking at the running jobs without them. */
module Fitting {
  import opened Share
  import opened SeatPicking
  import opened Cards
  import Sorting

  /** A card that can take the request now, and the seats it would have left. */
  datatype Cand = Cand(card: Card, seats: int, mem: int, left: int)

  /** The card is in service, large enough, and has the seats and the memory free. */
  ghost predicate Takes(running: Running, r: Request, c: Card) {
    && !c.down
    && Need(r, c).Ok?
    && UsedSeats(running, c.index) + Need(r, c).value.0 <= c.seats
    && UsedMem(running, c.index) + Need(r, c).value.1 <= c.memMiB
  }

  ghost function CandOf(running: Running, r: Request, c: Card): Cand
    requires Need(r, c).Ok?
  {
    var (seats, mem) := Need(r, c).value;
    Cand(c, seats, mem, c.seats - UsedSeats(running, c.index) - seats)
  }

  ghost function Cands(cards: seq<Card>, running: Running, r: Request): seq<Cand> {
    if cards == [] then []
    else
      var c := cards[|cards| - 1];
      Cands(cards[..|cards| - 1], running, r) + if Takes(running, r, c) then [CandOf(running, r, c)] else []
  }

  /** The error of the last card in service that is too small for the request, if there is one. */
  function LastError(cards: seq<Card>, r: Request): Option<Error> {
    if cards == [] then None
    else
      var c := cards[|cards| - 1];
      if !c.down && Need(r, c).Err? then Some(Need(r, c).error) else LastError(cards[..|cards| - 1], r)
  }

  /** Fewest seats left first, then the lowest card index. */
  predicate Tighter(a: Cand, b: Cand) {
    if a.left != b.left then a.left < b.left else a.card.index < b.card.index
  }

  ghost function MakeSlot(running: Running, r: Request, c: Card, seats: int, mem: int, keep: seq<int>): Slot
    requires 0 <= seats && 1 <= c.seats
  {
    Slot(c.index, seats, Granted(seats, c.seats), mem,
         if r.burst then 100 else ComputePercent(seats, c.seats),
         Pick(Occupied(running, c.index), c.seats, seats, keep))
  }

  ghost function MakeSlots(running: Running, r: Request, cands: seq<Cand>): (slots: seq<Slot>)
    requires forall cd :: cd in cands ==> 0 <= cd.seats && 1 <= cd.card.seats
    ensures |slots| == |cands|
    ensures forall k :: 0 <= k < |cands| ==>
              slots[k] == MakeSlot(running, r, cands[k].card, cands[k].seats, cands[k].mem, [])
  {
    seq(|cands|, k requires 0 <= k < |cands| =>
      MakeSlot(running, r, cands[k].card, cands[k].seats, cands[k].mem, []))
  }

  lemma {:induction false} CandsAre(cards: seq<Card>, running: Running, r: Request)
    ensures forall cd :: cd in Cands(cards, running, r) <==>
              cd.card in cards && Takes(running, r, cd.card) && cd == CandOf(running, r, cd.card)
  {
    if cards != [] {
      CandsAre(cards[..|cards| - 1], running, r);
      assert cards == cards[..|cards| - 1] + [cards[|cards| - 1]];
    }
  }

  ghost function Sorted(cards: seq<Card>, running: Running, r: Request): (s: seq<Cand>)
    ensures |s| == |Cands(cards, running, r)|
    ensures forall cd :: cd in s <==> cd in Cands(cards, running, r)
    ensures forall cd :: cd in s ==> 0 <= cd.seats && 1 <= cd.card.seats
  {
    var cands := Cands(cards, running, r);
    Sorting.SortPermutes(cands, Tighter);
    CandsAre(cards, running, r);
    Sorting.Sort(cands, Tighter)
  }

  /** The slots `fit` answers, or its error. */
  ghost function Fit(cards: seq<Card>, running: Running, r: Request): (f: Result<seq<Slot>>)
    ensures f.Ok? <==> Want(r) <= |Cands(cards, running, r)|
    ensures f.Ok? ==> |f.value| == Want(r)
  {
    var cands := Cands(cards, running, r);
    if |cands| < Want(r) then
      if cands == [] && LastError(cards, r).Some? then Err(LastError(cards, r).value) else Err(NoFit)
    else
      Ok(MakeSlots(running, r, Sorted(cards, running, r)[..Want(r)]))
  }

  ghost predicate Fits(cards: seq<Card>, running: Running, r: Request) {
    Fit(cards, running, r).Ok?
  }

  /** Some card in service is too small for the request. */
  predicate TooSmallSomewhere(cards: seq<Card>, r: Request) {
    exists c :: c in cards && !c.down && Need(r, c).Err?
  }

  lemma {:induction false} LastErrorIs(cards: seq<Card>, r: Request)
    ensures LastError(cards, r).Some? <==> TooSmallSomewhere(cards, r)
    ensures LastError(cards, r) != Some(NoFit)
  {
    if cards != [] {
      var init, c := cards[..|cards| - 1], cards[|cards| - 1];
      LastErrorIs(init, r);
      assert cards == init + [c];
      if TooSmallSomewhere(init, r) {
        var d :| d in init && !d.down && Need(r, d).Err?;
        assert d in cards;
      }
    }
  }

  lemma SomeTakes(cards: seq<Card>, running: Running, r: Request)
    ensures Cands(cards, running, r) != [] <==> exists c :: c in cards && Takes(running, r, c)
  {
    var cands := Cands(cards, running, r);
    CandsAre(cards, running, r);
    if c :| c in cards && Takes(running, r, c) {
      assert CandOf(running, r, c) in cands;
    }
    if cands != [] {
      assert cands[0] in cands;
    }
  }

  /** A request that does not fit gets "no fit" exactly when some card takes it or none in service is too
      small; otherwise it gets the error of a card that is too small. */
  lemma NoFitMeans(cards: seq<Card>, running: Running, r: Request)
    requires !Fits(cards, running, r)
    ensures Fit(cards, running, r) == Err(NoFit) <==>
              (exists c :: c in cards && Takes(running, r, c)) || !TooSmallSomewhere(cards, r)
  {
    LastErrorIs(cards, r);
    SomeTakes(cards, running, r);
  }

  /** A card that takes a request still takes it when jobs are gone. */
  lemma TakesMonotone(cards: seq<Card>, a: Running, b: Running, r: Request, c: Card)
    requires Safe(cards, b) && Within(a, b) && c in cards
    ensures Takes(b, r, c) ==> Takes(a, r, c)
  {
    UsageMonotone(cards, a, b, c);
  }

  lemma {:induction false} CandsMonotone(all: seq<Card>, cards: seq<Card>, a: Running, b: Running, r: Request)
    requires Safe(all, b) && Within(a, b) && cards <= all
    ensures |Cands(cards, b, r)| <= |Cands(cards, a, r)|
  {
    if cards != [] {
      var c := cards[|cards| - 1];
      assert c == all[|cards| - 1];
      CandsMonotone(all, cards[..|cards| - 1], a, b, r);
      TakesMonotone(all, a, b, r, c);
    }
  }

  /** `fit` is monotone: what fits beside some jobs fits beside fewer of them. */
  lemma FitsMonotone(cards: seq<Card>, a: Running, b: Running, r: Request)
    requires Safe(cards, b) && Within(a, b) && Fits(cards, b, r)
    ensures Fits(cards, a, r)
  {
    CandsMonotone(cards, cards, a, b, r);
  }

  lemma TighterOrder()
    ensures Sorting.WeakOrder(Tighter)
  {
  }

  lemma {:induction false} CandsDistinct(cards: seq<Card>, running: Running, r: Request)
    requires CardsOk(cards)
    ensures forall i, j :: 0 <= i < j < |Cands(cards, running, r)| ==>
              Cands(cards, running, r)[i].card.index != Cands(cards, running, r)[j].card.index
  {
    if cards != [] {
      var init := cards[..|cards| - 1];
      CandsDistinct(init, running, r);
      CandsAre(init, running, r);
      forall cd | cd in Cands(init, running, r) ensures cd.card.index != cards[|cards| - 1].index {
        var k :| 0 <= k < |init| && init[k] == cd.card;
      }
    }
  }

  lemma {:induction false} IndexesDistinct(s: seq<Cand>, t: seq<Cand>)
    requires multiset(s) == multiset(t)
    requires forall i, j :: 0 <= i < j < |s| ==> s[i].card.index != s[j].card.index
    ensures forall i, j :: 0 <= i < j < |t| ==> t[i].card.index != t[j].card.index
  {
    forall i, j | 0 <= i < j < |t| ensures t[i].card.index != t[j].card.index {
      assert t[i] in multiset(s) && t[j] in multiset(s);
      var a :| 0 <= a < |s| && s[a] == t[i];
      var b :| 0 <= b < |s| && s[b] == t[j];
      if a == b {
        Sorting.Twice(t, i, j);
        Sorting.Once(s, a);
      }
    }
  }

  /** The chosen cards are distinct cards that take the request. */
  lemma SortedDistinct(cards: seq<Card>, running: Running, r: Request)
    requires CardsOk(cards)
    ensures var s := Sorted(cards, running, r);
            forall i, j :: 0 <= i < j < |s| ==> s[i].card.index != s[j].card.index
  {
    CandsDistinct(cards, running, r);
    Sorting.SortPermutes(Cands(cards, running, r), Tighter);
    IndexesDistinct(Cands(cards, running, r), Sorted(cards, running, r));
  }

  /** Best fit, in the order of candidates. */
  lemma ChosenFirst(cards: seq<Card>, running: Running, r: Request, k: nat, c: Card) returns (d: Card)
    requires CardsOk(cards) && Fits(cards, running, r) && k < Want(r)
    requires c in cards && Takes(running, r, c)
    ensures d in cards && Takes(running, r, d) && d.index == Fit(cards, running, r).value[k].card
    ensures (exists j :: 0 <= j <= k && Fit(cards, running, r).value[j].card == c.index)
            || Tighter(CandOf(running, r, d), CandOf(running, r, c))
  {
    var s := Sorted(cards, running, r);
    CandsAre(cards, running, r);
    assert s[k] in s;
    d := s[k].card;
    TighterOrder();
    Sorting.SortOrders(Cands(cards, running, r), Tighter);
    var x := CandOf(running, r, c);
    assert x in s;
    var j :| 0 <= j < |s| && s[j] == x;
    var slots := Fit(cards, running, r).value;
    if j <= k {
      assert slots[j].card == c.index;
    } else {
      SortedDistinct(cards, running, r);
    }
  }

  /** Best fit: the slots are on cards in service that take the request, in order of fewest seats left, and every card
      that takes the request and was passed over would be left with more seats, or with as many and has a higher
      index. */
  lemma BestFit(cards: seq<Card>, running: Running, r: Request, k: nat, c: Card) returns (d: Card)
    requires CardsOk(cards) && Fits(cards, running, r) && k < Want(r)
    requires c in cards && Takes(running, r, c)
    ensures d in cards && !d.down && Takes(running, r, d) && d.index == Fit(cards, running, r).value[k].card
    ensures (exists j :: 0 <= j <= k && Fit(cards, running, r).value[j].card == c.index)
            || var (x, y) := (d.seats - UsedSeats(running, d.index) - Need(r, d).value.0,
                              c.seats - UsedSeats(running, c.index) - Need(r, c).value.0);
               x < y || (x == y && d.index < c.index)
  {
    d := ChosenFirst(cards, running, r, k, c);
  }

  /** A slot made for a card with room holds exactly the seats it counts, none of them in use. */
  lemma SlotDelivers(cards: seq<Card>, running: Running, r: Request, c: Card, keep: seq<int>)
    requires Safe(cards, running) && c in cards && Need(r, c).Ok?
    requires UsedSeats(running, c.index) + Need(r, c).value.0 <= c.seats
    ensures 0 <= Need(r, c).value.0 && 1 <= c.seats
    ensures var sl := MakeSlot(running, r, c, Need(r, c).value.0, Need(r, c).value.1, keep);
            SlotOk(cards, r, sl) && Elems(sl.seatIDs) !! Occupied(running, c.index)
  {
    CardOfIs(cards, c);
    SeatCount(cards, running, c);
    PickDelivers(Occupied(running, c.index), c.seats, Need(r, c).value.0, keep);
  }

  /** A placement found by `fit` is complete, on distinct cards, and clear of everyone's seats and memory. */
  lemma FitDelivers(cards: seq<Card>, running: Running, r: Request, order: nat)
    requires Safe(cards, running) && Fits(cards, running, r)
    ensures var p := Placed(r, Fit(cards, running, r).value, order);
            && JobOk(cards, p)
            && forall c :: c in cards ==>
                 && HeldOn(p.slots, c.index) !! Occupied(running, c.index)
                 && UsedMem(running, c.index) + MemOn(p.slots, c.index) <= c.memMiB
  {
    var s := Sorted(cards, running, r);
    var slots := Fit(cards, running, r).value;
    CandsAre(cards, running, r);
    SortedDistinct(cards, running, r);
    forall k | 0 <= k < |slots|
      ensures SlotOk(cards, r, slots[k]) && Elems(slots[k].seatIDs) !! Occupied(running, slots[k].card)
    {
      assert s[k] in s;
      SlotDelivers(cards, running, r, s[k].card, []);
    }
    assert DistinctCards(slots);
    forall c | c in cards
      ensures HeldOn(slots, c.index) !! Occupied(running, c.index)
      ensures UsedMem(running, c.index) + MemOn(slots, c.index) <= c.memMiB
    {
      if k :| 0 <= k < |slots| && slots[k].card == c.index {
        TheSlot(slots, k);
        assert s[k] in s;
        CardOfIs(cards, c);
        CardOfIs(cards, s[k].card);
      } else {
        NoSlot(slots, c.index);
      }
    }
  }

  /** A gang is placed whole: a slot for every card it asks for, one at least, each on a card of its own that is in
      service and takes it. */
  lemma GangPlaced(cards: seq<Card>, running: Running, r: Request)
    requires CardsOk(cards) && Fits(cards, running, r)
    ensures var slots := Fit(cards, running, r).value;
            && |slots| == (if r.gpus < 1 then 1 else r.gpus)
            && (forall i, j :: 0 <= i < j < |slots| ==> slots[i].card != slots[j].card)
            && forall i :: 0 <= i < |slots| ==> OnTaker(cards, running, r, slots[i].card)
  {
    var s, slots := Sorted(cards, running, r), Fit(cards, running, r).value;
    CandsAre(cards, running, r);
    SortedDistinct(cards, running, r);
    forall i | 0 <= i < |slots| ensures OnTaker(cards, running, r, slots[i].card) {
      assert s[i] in s;
      var c := s[i].card;
      assert c in cards && !c.down && c.index == slots[i].card && Takes(running, r, c);
    }
  }

  ghost predicate OnTaker(cards: seq<Card>, running: Running, r: Request, card: int) {
    exists c :: c in cards && !c.down && c.index == card && Takes(running, r, c)
  }

  /** Writing a job that keeps clear of the others, in place of whatever ran under its id, is safe. */
  lemma WriteKeepsSafe(cards: seq<Card>, running: Running, id: string, p: Placed)
    requires Safe(cards, running - {id}) && JobOk(cards, p) && p.req.id == id
    requires forall c :: c in cards ==>
               && HeldOn(p.slots, c.index) !! Occupied(running - {id}, c.index)
               && UsedMem(running - {id}, c.index) + MemOn(p.slots, c.index) <= c.memMiB
    ensures Safe(cards, running[id := p])
  {
    var after := running[id := p];
    var rest := running - {id};
    forall a, card | a in rest
      ensures HeldOn(rest[a].slots, card) !! HeldOn(p.slots, card)
    {
      if sl :| sl in p.slots && sl.card == card {
        assert SlotOk(cards, p.req, sl);
        var c := CardOf(cards, card);
        forall i | i in HeldOn(rest[a].slots, card) ensures i !in HeldOn(p.slots, card) {
          assert i in Occupied(rest, card);
        }
      } else {
        NoSlot(p.slots, card);
      }
    }
    forall a, b, card | a in after && b in after && a != b
      ensures HeldOn(after[a].slots, card) !! HeldOn(after[b].slots, card)
    {
      if a != id { assert a in rest && rest[a] == after[a]; }
      if b != id { assert b in rest && rest[b] == after[b]; }
    }
    forall a | a in after ensures after[a].req.id == a && JobOk(cards, after[a]) {
      if a != id { assert a in rest && rest[a] == after[a]; }
    }
    forall c | c in cards ensures UsedMem(after, c.index) <= c.memMiB {
      UsageWrite(running, id, p, c.index);
    }
  }

  /** Starting a job where `fit` put it keeps the invariant. */
  lemma PlaceKeepsSafe(cards: seq<Card>, running: Running, r: Request, order: nat)
    requires Safe(cards, running) && Fits(cards, running, r)
    ensures Safe(cards, running[r.id := Placed(r, Fit(cards, running, r).value, order)])
  {
    var p := Placed(r, Fit(cards, running, r).value, order);
    var rest := running - {r.id};
    FitDelivers(cards, running, r, order);
    SafeWithin(cards, rest, running);
    forall c | c in cards
      ensures HeldOn(p.slots, c.index) !! Occupied(rest, c.index)
      ensures UsedMem(rest, c.index) + MemOn(p.slots, c.index) <= c.memMiB
    {
      UsageMonotone(cards, rest, running, c);
      if r.id in running { UsageRemove(running, r.id, c.index); } else { assert rest == running; }
    }
    WriteKeepsSafe(cards, running, r.id, p);
  }
}
