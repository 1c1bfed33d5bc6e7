/** The proportional memory default (internal/share/share.go:52-60) against the scheduler's two checks. */
module MemoryLaws {
  import opened Share
  import opened Sums
  import opened Cards
  import opened SchedulerModel
  import DivMod

  /** The card has at least 256 MiB for each of its seats. */
  predicate Roomy(c: Card) {
    1 <= c.seats && MIN_MEM_MIB * c.seats <= c.memMiB
  }

  lemma DefaultIsProportional(c: Card, seats: int)
    requires Roomy(c) && 1 <= seats <= c.seats
    ensures DefaultMemMiB(seats, c.seats, c.memMiB) * c.seats <= c.memMiB * seats
    ensures DefaultMemMiB(seats, c.seats, c.memMiB) <= c.memMiB
  {
    var m := c.memMiB * seats / c.seats;
    assert MIN_MEM_MIB * c.seats <= c.memMiB * seats by {
      DivMod.MulMono(c.memMiB, 1, seats);
    }
    assert MIN_MEM_MIB <= m by {
      if m < MIN_MEM_MIB { DivMod.MulMono(c.seats, m + 1, MIN_MEM_MIB); }
    }
    if c.memMiB < m {
      DivMod.MulMono(c.seats, c.memMiB + 1, m);
      DivMod.MulMono(c.memMiB, seats, c.seats);
    }
  }

  /** The job is not on the card or takes the default. */
  ghost predicate TakesDefault(p: Placed, card: int) {
    forall sl :: sl in p.slots && sl.card == card ==> p.req.memMiB == 0
  }

  ghost predicate AllDefault(running: Running, card: int) {
    forall id :: id in running ==> TakesDefault(running[id], card)
  }

  /** Term by term in proportion is in proportion in total. */
  lemma {:induction false} SumInProportion<K>(mem: map<K, int>, seats: map<K, int>, n: int, total: nat)
    requires mem.Keys == seats.Keys && forall k :: k in mem ==> mem[k] * n <= total * seats[k]
    ensures Sum(mem) * n <= total * Sum(seats)
    decreases mem.Keys
  {
    if mem == map[] {
      assert seats == map[];
    } else {
      var k :| k in mem;
      assert (mem - {k}).Keys == mem.Keys - {k} && (seats - {k}).Keys == seats.Keys - {k};
      SumInProportion(mem - {k}, seats - {k}, n, total);
      SumRemove(mem, k);
      SumRemove(seats, k);
      Together(mem[k], Sum(mem - {k}), seats[k], Sum(seats - {k}), n, total);
    }
  }

  /** Jobs that take the default hold no more of the memory than of the seats. */
  lemma MemoryFollowsSeats(cards: seq<Card>, running: Running, c: Card)
    requires Safe(cards, running) && c in cards && Roomy(c) && AllDefault(running, c.index)
    ensures UsedMem(running, c.index) * c.seats <= c.memMiB * UsedSeats(running, c.index)
  {
    forall id | id in running
      ensures MemOn(running[id].slots, c.index) * c.seats <= c.memMiB * SeatsOn(running[id].slots, c.index)
    {
      JobFollowsSeats(cards, running[id], c);
    }
    SumInProportion(MemOf(running, c.index), SeatsOf(running, c.index), c.seats, c.memMiB);
  }

  lemma Together(m: int, um: int, s: int, us: int, n: int, total: nat)
    requires m * n <= total * s && um * n <= total * us
    ensures (m + um) * n <= total * (s + us)
    ensures 1 <= n && s + us <= n ==> m + um <= total
  {
    assert (m + um) * n == m * n + um * n;
    assert total * (s + us) == total * s + total * us;
    if 1 <= n && s + us <= n && total < m + um {
      DivMod.MulMono(total, s + us, n);
      DivMod.MulMono(n, total + 1, m + um);
    }
  }

  lemma JobFollowsSeats(cards: seq<Card>, p: Placed, c: Card)
    requires CardsOk(cards) && JobOk(cards, p) && c in cards && Roomy(c)
    requires TakesDefault(p, c.index)
    ensures MemOn(p.slots, c.index) * c.seats <= c.memMiB * SeatsOn(p.slots, c.index)
  {
    CardOfIs(cards, c);
    if k :| 0 <= k < |p.slots| && p.slots[k].card == c.index {
      TheSlot(p.slots, k);
      assert SlotOk(cards, p.req, p.slots[k]);
      DefaultIsProportional(c, p.slots[k].seats);
    } else {
      NoSlot(p.slots, c.index);
    }
  }

  /** On a card with 256 MiB per seat where every job takes the default, a request that takes it and passes the seat
      check passes the memory check. */
  lemma DefaultFits(cards: seq<Card>, running: Running, r: Request, c: Card)
    requires Safe(cards, running) && c in cards && Roomy(c) && AllDefault(running, c.index) && r.memMiB == 0
    requires Need(r, c).Ok? && UsedSeats(running, c.index) + Need(r, c).value.0 <= c.seats
    ensures UsedMem(running, c.index) + Need(r, c).value.1 <= c.memMiB
  {
    var (seats, mem) := Need(r, c).value;
    DefaultIsProportional(c, seats);
    MemoryFollowsSeats(cards, running, c);
    Together(mem, UsedMem(running, c.index), seats, UsedSeats(running, c.index), c.seats, c.memMiB);
  }

  /** Default memory never causes a refusal: on a card with 256 MiB per seat where every job takes the
      default, a request that takes the default is large enough for the card, and passing the seat check is
      passing the memory check. */
  lemma DefaultNeverRefused(s: Sched, r: Request, c: Card)
    requires Valid(s) && c in s.cards && Roomy(c) && AllDefault(s.running, c.index) && r.memMiB == 0
    ensures Need(r, c).Ok? <==> Seats(r.share, c.seats).Ok?
    ensures Need(r, c).Ok? ==>
              (UsedSeats(s.running, c.index) + Need(r, c).value.0 <= c.seats ==>
               UsedMem(s.running, c.index) + Need(r, c).value.1 <= c.memMiB)
  {
    var sr := Seats(r.share, c.seats);
    if sr.Ok? {
      DefaultIsProportional(c, sr.value);
      if UsedSeats(s.running, c.index) + sr.value <= c.seats {
        DefaultFits(s.cards, s.running, r, c);
      }
    }
  }
}
