/** What the open intervals hold on a card, against what the scheduler has placed there. */
module CardBudget {
  import opened Sums
  import opened SeatPicking
  import opened Cards
  import opened Accounting
  import opened Billing
  import S = SchedulerModel

  function OnCard(card: int): Pick {
    (iv: Interval) => iv.card == card
  }

  function PerMem(): Rate {
    (iv: Interval) => iv.memMiB as real
  }

  /** The intervals of a job are its slots: same cards, shares and memory. */
  ghost predicate Covers(ivs: seq<Interval>, id: string, slots: seq<Slot>) {
    && |ivs| == |slots|
    && forall k :: 0 <= k < |ivs| ==>
         && ivs[k].job == id && ivs[k].card == slots[k].card
         && ivs[k].share == slots[k].granted && ivs[k].memMiB == slots[k].memMiB
  }

  /** Open intervals, but for the given jobs, are backed by placements. */
  ghost predicate Backed(open: map<string, seq<Interval>>, running: Running, but: set<string>) {
    forall id :: id in open && id !in but ==> id in running && Covers(open[id], id, running[id].slots)
  }

  /** A covered job holds its seats' part of the card, and its memory. */
  lemma {:induction false} CoveredHolds(cards: seq<Card>, ivs: seq<Interval>, id: string, r: Request, slots: seq<Slot>,
                                        c: Card)
    requires CardsOk(cards) && c in cards && Covers(ivs, id, slots)
    requires forall sl :: sl in slots ==> SlotOk(cards, r, sl)
    ensures Total(ivs, Holds(OnCard(c.index), PerShare())) == Over(c.seats)(SeatsOn(slots, c.index) as real)
    ensures Total(ivs, Holds(OnCard(c.index), PerMem())) == MemOn(slots, c.index) as real
  {
    if ivs == [] {
      OverAdditive(c.seats);
    } else {
      var n := |ivs| - 1;
      CoveredHolds(cards, ivs[..n], id, r, slots[..n], c);
      assert SlotOk(cards, r, slots[n]);
      CardOfIs(cards, c);
      OverAdds(c.seats, SeatsOn(slots[..n], c.index) as real,
               if slots[n].card == c.index then slots[n].seats as real else 0.0);
      OverAdditive(c.seats);
    }
  }

  ghost function ShareParts(running: Running, c: Card): map<string, real>
    requires c.seats != 0
  {
    map id | id in running :: Over(c.seats)(SeatsOn(running[id].slots, c.index) as real)
  }

  ghost function MemParts(running: Running, c: Card): map<string, real> {
    map id | id in running :: MemOn(running[id].slots, c.index) as real
  }

  lemma OverNonNegative(n: int, v: real)
    requires 0 < n && 0.0 <= v
    ensures 0.0 <= Over(n)(v)
  {
  }

  lemma OverAtMostOne(n: int, v: real)
    requires 0 < n && v <= n as real
    ensures Over(n)(v) <= 1.0
  {
  }

  function Same(): real -> real {
    (v: real) => v
  }

  /** Everything placed on a card, taken together, is at most the card. */
  lemma PartsFit(s: S.Sched, c: Card)
    requires S.Valid(s) && c in s.cards
    ensures 1 <= c.seats
    ensures RealSum(ShareParts(s.running, c)) <= 1.0
    ensures RealSum(MemParts(s.running, c)) <= c.memMiB as real
  {
    SeatCount(s.cards, s.running, c);
    OverAdditive(c.seats);
    SumAsReal(SeatsOf(s.running, c.index), Over(c.seats), ShareParts(s.running, c));
    OverAtMostOne(c.seats, UsedSeats(s.running, c.index) as real);
    assert Additive(Same()) by {
      forall a: real, b: real ensures Adds(Same(), a, b) { }
    }
    SumAsReal(MemOf(s.running, c.index), Same(), MemParts(s.running, c));
  }

  lemma PartsNonNegative(s: S.Sched, c: Card, id: string)
    requires S.Valid(s) && c in s.cards && id in s.running
    ensures 1 <= c.seats && 0.0 <= ShareParts(s.running, c)[id] && 0.0 <= MemParts(s.running, c)[id]
  {
    JobHolds(s.cards, s.running[id], c);
    OverNonNegative(c.seats, SeatsOn(s.running[id].slots, c.index) as real);
  }

  lemma BackedHolds(s: S.Sched, b: Book, c: Card, id: string)
    requires S.Valid(s) && c in s.cards && Backed(b.open, s.running, {}) && id in b.open
    ensures id in s.running && 1 <= c.seats
    ensures Total(b.open[id], Holds(OnCard(c.index), PerShare())) == ShareParts(s.running, c)[id]
    ensures Total(b.open[id], Holds(OnCard(c.index), PerMem())) == MemParts(s.running, c)[id]
  {
    assert JobOk(s.cards, s.running[id]);
    CoveredHolds(s.cards, b.open[id], id, s.running[id].req, s.running[id].slots, c);
  }

  /** A placed job that has no open intervals fits beside everything that has. */
  lemma RoomToOpen(s: S.Sched, b: Book, c: Card, id: string)
    requires S.Valid(s) && c in s.cards && Backed(b.open, s.running, {}) && id in s.running && id !in b.open
    ensures 1 <= c.seats
    ensures HeldNow(b, OnCard(c.index), PerShare()) + ShareParts(s.running, c)[id] <= 1.0
    ensures HeldNow(b, OnCard(c.index), PerMem()) + MemParts(s.running, c)[id] <= c.memMiB as real
  {
    PartsFit(s, c);
    forall j | j in s.running ensures 0.0 <= ShareParts(s.running, c)[j] && 0.0 <= MemParts(s.running, c)[j] {
      PartsNonNegative(s, c, j);
    }
    forall j | j in b.open
      ensures j in s.running
      ensures Totals(b.open, Holds(OnCard(c.index), PerShare()))[j] == ShareParts(s.running, c)[j]
      ensures Totals(b.open, Holds(OnCard(c.index), PerMem()))[j] == MemParts(s.running, c)[j]
    {
      BackedHolds(s, b, c, j);
    }
    OneMore(Totals(b.open, Holds(OnCard(c.index), PerShare())), ShareParts(s.running, c), id);
    OneMore(Totals(b.open, Holds(OnCard(c.index), PerMem())), MemParts(s.running, c), id);
  }

  /** A part of the terms and one more of them come to no more than all. */
  lemma OneMore(part: map<string, real>, all: map<string, real>, id: string)
    requires id in all && id !in part && part.Keys <= all.Keys && forall j :: j in part ==> part[j] == all[j]
    requires forall j :: j in all ==> 0.0 <= all[j]
    ensures RealSum(part) + all[id] <= RealSum(all)
  {
    RealSumRemove(all, id);
    RealSumMonotone(part, all - {id});
  }
}
