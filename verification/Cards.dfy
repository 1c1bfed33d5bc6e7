/** The scheduler's records and what a set of running jobs takes of each card
    (internal/scheduler/scheduler.go:31-164). */
module Cards {
  import opened Share
  import opened Lists
  import opened Sums
  import opened SeatPicking

  datatype Card = Card(index: int, name: string, memMiB: nat, seats: int, down: bool)

  datatype Request = Request(id: string, share: real, memMiB: nat, gpus: int, priority: int,
                             preemptible: bool, burst: bool, wait: bool)

  datatype Slot = Slot(card: int, seats: int, granted: real, memMiB: int, computePercent: int,
                       seatIDs: seq<int>)

  datatype Placement = Placement(jobId: string, slots: seq<Slot>)

  datatype Placed = Placed(req: Request, slots: seq<Slot>, order: nat)

  datatype Decision = Decision(placement: Option<Placement>, preempt: seq<string>, queued: bool)

  datatype Free = Free(card: int, seats: int, memMiB: int)

  type Running = map<string, Placed>

  function Want(r: Request): int {
    Max(r.gpus, 1)
  }

  /** Seats and memory a request takes on one card. */
  function Need(r: Request, c: Card): (n: Result<(int, int)>)
    ensures n.Ok? ==> 1 <= n.value.0 <= c.seats && 0 <= n.value.1 <= c.memMiB
  {
    match Seats(r.share, c.seats)
    case Err(e) => Err(e)
    case Ok(seats) =>
      var mem := if r.memMiB == 0 then DefaultMemMiB(seats, c.seats, c.memMiB) else r.memMiB;
      if c.memMiB < mem then Err(TooMuchMemory(c.index)) else Ok((seats, mem))
  }

  /** A request needs of a card the fewest seats that cover its share, up to rounding, and the memory it asks for, by
      default the seats' part of the card's and at least 256 MiB; it is refused for a share out of range, and for
      more memory than the card has. */
  lemma NeedMeans(r: Request, c: Card)
    requires 1 <= c.seats
    ensures !(0.0 < r.share <= 1.0) ==> Need(r, c) == Err(BadShare)
    ensures 0.0 < r.share <= 1.0 && 0 < r.memMiB <= c.memMiB ==> Need(r, c).Ok? && Need(r, c).value.1 == r.memMiB
    ensures 0.0 < r.share <= 1.0 && c.memMiB < r.memMiB ==> Need(r, c) == Err(TooMuchMemory(c.index))
    ensures Need(r, c).Ok? ==>
              var (n, mem) := Need(r, c).value;
              && r.share * c.seats as real - 0.000000001 <= n as real
              && (1 < n ==> (n - 1) as real < r.share * c.seats as real - 0.000000001)
              && (r.memMiB == 0 && 256 * c.seats <= c.memMiB * n ==>
                mem * c.seats <= c.memMiB * n < (mem + 1) * c.seats)
              && (r.memMiB == 0 && c.memMiB * n < 256 * c.seats ==> mem == 256)
    ensures 0.0 < r.share <= 1.0 && r.memMiB == 0 && Need(r, c).Err? ==> Need(r, c) == Err(TooMuchMemory(c.index))
  {
  }

  function SeatsOn(slots: seq<Slot>, card: int): int {
    if slots == [] then 0
    else
      var last := slots[|slots| - 1];
      SeatsOn(slots[..|slots| - 1], card) + if last.card == card then last.seats else 0
  }

  function MemOn(slots: seq<Slot>, card: int): int {
    if slots == [] then 0
    else
      var last := slots[|slots| - 1];
      MemOn(slots[..|slots| - 1], card) + if last.card == card then last.memMiB else 0
  }

  /** The seat ids a job's slots name on a card. */
  ghost function HeldOn(slots: seq<Slot>, card: int): set<int> {
    if slots == [] then {}
    else
      var last := slots[|slots| - 1];
      HeldOn(slots[..|slots| - 1], card) + if last.card == card then Elems(last.seatIDs) else {}
  }

  ghost function SeatsOf(running: Running, card: int): map<string, int> {
    map id | id in running :: SeatsOn(running[id].slots, card)
  }

  ghost function MemOf(running: Running, card: int): map<string, int> {
    map id | id in running :: MemOn(running[id].slots, card)
  }

  ghost function UsedSeats(running: Running, card: int): int {
    Sum(SeatsOf(running, card))
  }

  ghost function UsedMem(running: Running, card: int): int {
    Sum(MemOf(running, card))
  }

  /** Every seat id in use on a card. */
  ghost function Occupied(running: Running, card: int): set<int> {
    set id, i | id in running && i in HeldOn(running[id].slots, card) :: i
  }

  predicate HasCard(cards: seq<Card>, index: int) {
    exists k :: 0 <= k < |cards| && cards[k].index == index
  }

  function CardOf(cards: seq<Card>, index: int): (c: Card)
    requires HasCard(cards, index)
    ensures c in cards && c.index == index
  {
    if cards[0].index == index then cards[0] else CardOf(cards[1..], index)
  }

  ghost predicate CardsOk(cards: seq<Card>) {
    && (forall i, j :: 0 <= i < j < |cards| ==> cards[i].index != cards[j].index)
    && (forall c :: c in cards ==> 1 <= c.seats)
  }

  lemma CardOfIs(cards: seq<Card>, c: Card)
    requires CardsOk(cards) && c in cards
    ensures HasCard(cards, c.index) && CardOf(cards, c.index) == c
  {
    var k :| 0 <= k < |cards| && cards[k] == c;
    var d := CardOf(cards, c.index);
    var j :| 0 <= j < |cards| && cards[j] == d;
  }

  lemma {:induction false} CardOfFirst(cards: seq<Card>, i: nat)
    requires i < |cards| && forall k :: 0 <= k < i ==> cards[k].index != cards[i].index
    ensures HasCard(cards, cards[i].index) && CardOf(cards, cards[i].index) == cards[i]
  {
    if i > 0 {
      CardOfFirst(cards[1..], i - 1);
    }
  }

  /** A slot grants exactly what the request needs there, with that many distinct seats of the card. */
  ghost predicate SlotOk(cards: seq<Card>, r: Request, sl: Slot) {
    && HasCard(cards, sl.card)
    && var c := CardOf(cards, sl.card);
       && 1 <= c.seats
       && Need(r, c) == Ok((sl.seats, sl.memMiB))
       && sl.granted == Granted(sl.seats, c.seats)
       && sl.computePercent == (if r.burst then 100 else ComputePercent(sl.seats, c.seats))
       && |sl.seatIDs| == sl.seats
       && Increasing(sl.seatIDs)
       && forall i :: i in sl.seatIDs ==> 0 <= i < c.seats
  }

  /** What a slot grants, in the slot's own fields: its seats as a part of the card's, and the same part of its threads
      in percent, to the nearest and at least one; a job that may burst gets all threads. */
  lemma SlotMeans(cards: seq<Card>, r: Request, sl: Slot)
    requires SlotOk(cards, r, sl)
    ensures HasCard(cards, sl.card)
    ensures var n := CardOf(cards, sl.card).seats;
            && 1 <= |sl.seatIDs| == sl.seats <= n
            && sl.granted * n as real == sl.seats as real
            && (r.burst ==> sl.computePercent == 100)
            && (!r.burst ==>
                 && 1 <= sl.computePercent
                 && 100.0 * sl.seats as real / n as real < sl.computePercent as real + 0.5
                 && (1 < sl.computePercent ==>
                      sl.computePercent as real - 0.5 <= 100.0 * sl.seats as real / n as real))
  {
  }

  ghost predicate DistinctCards(slots: seq<Slot>) {
    forall i, j :: 0 <= i < j < |slots| ==> slots[i].card != slots[j].card
  }

  ghost predicate JobOk(cards: seq<Card>, p: Placed) {
    && |p.slots| == Want(p.req)
    && DistinctCards(p.slots)
    && forall sl :: sl in p.slots ==> SlotOk(cards, p.req, sl)
  }

  /** No seat of a card is held by two jobs. */
  ghost predicate SeatsDisjoint(running: Running) {
    forall a, b, card :: a in running && b in running && a != b ==>
      HeldOn(running[a].slots, card) !! HeldOn(running[b].slots, card)
  }

  /** What every reachable scheduler state satisfies. */
  ghost predicate Safe(cards: seq<Card>, running: Running) {
    && CardsOk(cards)
    && (forall id :: id in running ==> running[id].req.id == id && JobOk(cards, running[id]))
    && SeatsDisjoint(running)
    && (forall c :: c in cards ==> UsedMem(running, c.index) <= c.memMiB)
  }

  /** On a card without a slot of its own a job holds nothing. */
  lemma {:induction false} NoSlot(slots: seq<Slot>, card: int)
    requires forall sl :: sl in slots ==> sl.card != card
    ensures SeatsOn(slots, card) == 0 && MemOn(slots, card) == 0 && HeldOn(slots, card) == {}
  {
    if slots != [] {
      NoSlot(slots[..|slots| - 1], card);
    }
  }

  /** On a card with a slot of its own a job holds what that slot says. */
  lemma {:induction false} TheSlot(slots: seq<Slot>, k: nat)
    requires DistinctCards(slots) && k < |slots|
    ensures var sl := slots[k];
            && SeatsOn(slots, sl.card) == sl.seats
            && MemOn(slots, sl.card) == sl.memMiB
            && HeldOn(slots, sl.card) == Elems(sl.seatIDs)
  {
    var init := slots[..|slots| - 1];
    if k == |init| {
      forall sl | sl in init ensures sl.card != slots[k].card {
        var j :| 0 <= j < |init| && init[j] == sl;
      }
      NoSlot(init, slots[k].card);
    } else {
      TheSlot(init, k);
    }
  }

  /** A placed job holds as many seat ids as its slots count, all of them on the card. */
  lemma JobHolds(cards: seq<Card>, p: Placed, c: Card)
    requires CardsOk(cards) && JobOk(cards, p) && c in cards
    ensures |HeldOn(p.slots, c.index)| == SeatsOn(p.slots, c.index)
    ensures forall i :: i in HeldOn(p.slots, c.index) ==> 0 <= i < c.seats
    ensures 0 <= SeatsOn(p.slots, c.index) && 0 <= MemOn(p.slots, c.index)
  {
    CardOfIs(cards, c);
    if k :| 0 <= k < |p.slots| && p.slots[k].card == c.index {
      TheSlot(p.slots, k);
      assert SlotOk(cards, p.req, p.slots[k]);
      DistinctCount(p.slots[k].seatIDs);
    } else {
      NoSlot(p.slots, c.index);
    }
  }

  /** Taking one job out of the books. */
  lemma UsageRemove(running: Running, id: string, card: int)
    requires id in running
    ensures UsedSeats(running, card) == SeatsOn(running[id].slots, card) + UsedSeats(running - {id}, card)
    ensures UsedMem(running, card) == MemOn(running[id].slots, card) + UsedMem(running - {id}, card)
    ensures Occupied(running, card) == HeldOn(running[id].slots, card) + Occupied(running - {id}, card)
  {
    SumRemove(SeatsOf(running, card), id);
    assert SeatsOf(running, card) - {id} == SeatsOf(running - {id}, card);
    SumRemove(MemOf(running, card), id);
    assert MemOf(running, card) - {id} == MemOf(running - {id}, card);
    var rest := running - {id};
    forall i | i in Occupied(running, card) ensures i in HeldOn(running[id].slots, card) + Occupied(rest, card) {
      var j :| j in running && i in HeldOn(running[j].slots, card);
      if j != id { assert j in rest && rest[j] == running[j]; }
    }
    forall i | i in Occupied(rest, card) ensures i in Occupied(running, card) {
      var j :| j in rest && i in HeldOn(rest[j].slots, card);
      assert j in running && i in HeldOn(running[j].slots, card);
    }
    forall i | i in HeldOn(running[id].slots, card) ensures i in Occupied(running, card) {
    }
  }

  /** Writing one job into the books. */
  lemma UsageWrite(running: Running, id: string, p: Placed, card: int)
    ensures UsedSeats(running[id := p], card) == UsedSeats(running - {id}, card) + SeatsOn(p.slots, card)
    ensures UsedMem(running[id := p], card) == UsedMem(running - {id}, card) + MemOn(p.slots, card)
  {
    UsageRemove(running[id := p], id, card);
    assert running[id := p] - {id} == running - {id};
  }

  /** `a` runs some of the jobs of `b`, placed the same way. */
  ghost predicate Within(a: Running, b: Running) {
    forall id :: id in a ==> id in b && a[id] == b[id]
  }

  lemma SafeWithin(cards: seq<Card>, a: Running, b: Running)
    requires Safe(cards, b) && Within(a, b)
    ensures Safe(cards, a)
  {
    forall c | c in cards ensures UsedMem(a, c.index) <= c.memMiB {
      UsageMonotone(cards, a, b, c);
    }
  }

  /** Fewer jobs use less. */
  lemma UsageMonotone(cards: seq<Card>, a: Running, b: Running, c: Card)
    requires Safe(cards, b) && Within(a, b) && c in cards
    ensures UsedSeats(a, c.index) <= UsedSeats(b, c.index)
    ensures UsedMem(a, c.index) <= UsedMem(b, c.index)
  {
    forall id | id in b ensures 0 <= SeatsOn(b[id].slots, c.index) && 0 <= MemOn(b[id].slots, c.index) {
      JobHolds(cards, b[id], c);
    }
    SumMonotone(SeatsOf(a, c.index), SeatsOf(b, c.index));
    SumMonotone(MemOf(a, c.index), MemOf(b, c.index));
  }

  /** The seats counted on a card are the seats occupied on it, so the count never exceeds the card. */
  lemma {:induction false} SeatCount(cards: seq<Card>, running: Running, c: Card)
    requires Safe(cards, running) && c in cards
    ensures |Occupied(running, c.index)| == UsedSeats(running, c.index) <= c.seats
    ensures forall i :: i in Occupied(running, c.index) ==> 0 <= i < c.seats
    decreases running.Keys
  {
    if running == map[] {
    } else {
      var id :| id in running;
      var rest := running - {id};
      assert rest.Keys == running.Keys - {id};
      UsageRemove(running, id, c.index);
      SafeWithin(cards, rest, running);
      SeatCount(cards, rest, c);
      JobHolds(cards, running[id], c);
      HeldApart(running, id, c.index);
      SeatsBelow(Occupied(running, c.index), c.seats);
    }
  }

  /** What one job holds is apart from what the others hold. */
  lemma HeldApart(running: Running, id: string, card: int)
    requires SeatsDisjoint(running) && id in running
    ensures HeldOn(running[id].slots, card) !! Occupied(running - {id}, card)
  {
    var rest := running - {id};
    forall i | i in Occupied(rest, card) ensures i !in HeldOn(running[id].slots, card) {
      var j :| j in rest && i in HeldOn(rest[j].slots, card);
      assert i in HeldOn(running[j].slots, card);
    }
  }

  lemma SeatsBelow(s: set<int>, total: nat)
    requires forall i :: i in s ==> 0 <= i < total
    ensures |s| <= total
  {
    var all := Elems(Range(0, total));
    DistinctCount(Range(0, total));
    forall i | i in s ensures i in all { assert Range(0, total)[i] == i; }
    SubsetCount(s, all);
  }
}
