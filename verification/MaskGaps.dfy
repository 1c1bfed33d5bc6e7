/** When a job gets no mask and so runs on the whole card (internal/gpu/amd.go:191-279), and what that means for
    the jobs beside it. */
module MaskGaps {
  import opened Share
  import opened SeatPicking
  import opened Cards
  import opened ComputeMask
  import opened MaskLaws
  import DivMod
  import M = SchedulerModel

  /** In the engine layout no round of any engine goes to the seats: there are no rounds at all, or fewer than
      seats of an engine and no engine is held whole. */
  ghost predicate EnginesDark(ids: seq<int>, seats: int, dev: Device)
    requires EngineLayout(ids, seats, dev) && 0 <= dev.units
  {
    var g, rounds := SeatsPerEngine(seats, dev), RoundsPerEngine(dev);
    rounds == 0 || (rounds < g && forall i :: i in ids ==> |Offsets(ids, g, i / g)| != g)
  }

  /** In the contiguous layout the seats' blocks are too short to hold a unit. */
  ghost predicate BlocksDark(ids: seq<int>, seats: int, units: int)
    requires 0 < seats
  {
    forall i :: i in ids ==> i * units / seats == (i + 1) * units / seats
  }

  lemma PerZero(rounds: nat, g: int)
    requires 0 < g
    ensures Per(rounds, g) == 0 <==> rounds < g
  {
    DivMod.Floor(rounds, g, 1);
    DivMod.NonNegative(rounds, g);
  }

  /** A seat whose engine has rounds for it. */
  lemma EngineLit(ids: seq<int>, seats: int, dev: Device, i: int)
    requires EngineLayout(ids, seats, dev) && SeatIds(ids, seats) && 0 <= dev.units && i in ids
    requires var g, rounds := SeatsPerEngine(seats, dev), RoundsPerEngine(dev);
             0 < rounds && (g <= rounds || |Offsets(ids, g, i / g)| == g)
    ensures OfEngines(ids, seats, dev, Engines(ids, SeatsPerEngine(seats, dev))) != {}
  {
    var g, rounds := SeatsPerEngine(seats, dev), RoundsPerEngine(dev);
    var e := i / g;
    SeatIs(i, g, e, i % g);
    OffsetsAre(ids, g, e, i % g);
    EnginesAre(ids, g, e);
    EngineInRange(ids, seats, dev, e);
    Balanced(ids, seats, dev, 0, e);
    PerZero(rounds, g);
    var held := |Offsets(ids, g, e)|;
    assert 0 < held;
    if held != g {
      DivMod.MulMono(held, 1, Per(rounds, g));
    }
    var none: set<int> := {};
    assert Units(none, dev, 0, e) == {};
  }

  lemma LayoutDark(ids: seq<int>, seats: int, dev: Device)
    requires EngineLayout(ids, seats, dev) && SeatIds(ids, seats) && 0 <= dev.units
    ensures OfEngines(ids, seats, dev, Engines(ids, SeatsPerEngine(seats, dev))) == {} <==> EnginesDark(ids, seats, dev)
  {
    var g, rounds := SeatsPerEngine(seats, dev), RoundsPerEngine(dev);
    if EnginesDark(ids, seats, dev) {
      forall b ensures b !in OfEngines(ids, seats, dev, Engines(ids, g)) {
        LayoutMeaning(ids, seats, dev, b);
        DarkBit(ids, seats, dev, b);
      }
    } else {
      var i := if i :| i in ids && |Offsets(ids, g, i / g)| == g then i else ids[0];
      EngineLit(ids, seats, dev, i);
    }
  }

  lemma DarkBit(ids: seq<int>, seats: int, dev: Device, b: int)
    requires EngineLayout(ids, seats, dev) && SeatIds(ids, seats) && 0 <= dev.units && EnginesDark(ids, seats, dev)
    ensures var (g, e, r) := (SeatsPerEngine(seats, dev), b / dev.chiplets % dev.engines,
                              b / dev.chiplets / dev.engines);
            !(0 <= b && Offsets(ids, g, e) != [] && HasRound(ids, g, RoundsPerEngine(dev), e, r))
  {
    var (g, e, r) := (SeatsPerEngine(seats, dev), b / dev.chiplets % dev.engines, b / dev.chiplets / dev.engines);
    if 0 <= b && Offsets(ids, g, e) != [] {
      DivMod.NonNegative(b, dev.chiplets);
      DivMod.NonNegative(b / dev.chiplets, dev.engines);
      DivMod.NonNegative(r, g);
      PerZero(RoundsPerEngine(dev), g);
      var o := Offsets(ids, g, e)[0];
      OffsetsAre(ids, g, e, o);
      SeatIs(e * g + o, g, e, o);
    }
  }

  lemma BlocksAreDark(ids: seq<int>, seats: int, units: int)
    requires 0 < seats && 0 <= units
    ensures Blocks(ids, seats, units) == {} <==> BlocksDark(ids, seats, units)
  {
    forall i | i in ids ensures Block(i, seats, units) == {} <==> i * units / seats == (i + 1) * units / seats {
      DivMod.MulMono(units, i, i + 1);
      DivMod.DivMono(i * units, (i + 1) * units, seats);
      var lo, hi := i * units / seats, (i + 1) * units / seats;
      InBetween(lo, hi);
      if lo < hi { assert lo in Block(i, seats, units); }
    }
    if BlocksDark(ids, seats, units) {
      forall b ensures b !in Blocks(ids, seats, units) {
        BlocksAre(ids, seats, units, b);
      }
    }
    if i :| i in ids && Block(i, seats, units) != {} {
      var b :| b in Block(i, seats, units);
      BlocksAre(ids, seats, units, b);
    }
  }

  /** With a unit for every seat no block is empty. */
  lemma BlocksLit(ids: seq<int>, seats: int, units: int)
    requires 0 < seats <= units && ids != []
    ensures !BlocksDark(ids, seats, units)
  {
    var i := ids[0];
    assert i in ids;
    DivMod.Floor(i * units, seats, i * units / seats);
    DivMod.Floor((i + 1) * units, seats, i * units / seats + 1);
    assert (i + 1) * units == i * units + units;
    assert (i * units / seats + 1) * seats == i * units / seats * seats + seats;
  }

  /** A job holding seats gets no mask exactly when it has the whole card, by count or by seats, or when no unit
      falls to its seats. */
  lemma MaskMissing(ids: seq<int>, seats: int, dev: Device, n: int)
    requires SeatIds(ids, seats) && ids != []
    ensures Mask(ids, seats, dev, n).None? <==>
              || dev.units <= 0 || dev.units <= n || seats <= |ids|
              || (if EngineLayout(ids, seats, dev) then EnginesDark(ids, seats, dev)
                  else BlocksDark(ids, seats, dev.units))
  {
    assert ids[0] in ids && 0 <= ids[0] < seats;
    if 0 < dev.units {
      if EngineLayout(ids, seats, dev) {
        LayoutDark(ids, seats, dev);
      } else {
        BlocksAreDark(ids, seats, dev.units);
      }
    }
  }

  // ---- what a job runs on ----

  /** The units a job may use on a card: those of its mask, and all of them without one. A job that may burst is
      given no mask. */
  function UnitsFor(sl: Slot, seats: int, dev: Device): set<int> {
    if Masked(sl, seats, dev) then Mask(sl.seatIDs, seats, dev, UnitsOf(dev, sl.computePercent)).value
    else Between(0, dev.units)
  }

  function UnitsOf(dev: Device, percent: int): (n: int)
    ensures (n - 1) as real < dev.units as real * percent as real / 100.0 <= n as real
  {
    Ceil(dev.units as real * percent as real / 100.0)
  }

  predicate Masked(sl: Slot, seats: int, dev: Device) {
    0 < dev.units && sl.computePercent < 100 && Mask(sl.seatIDs, seats, dev, UnitsOf(dev, sl.computePercent)).Some?
  }

  /** A job that may burst runs on every unit of its card; so does one that holds the whole card. */
  lemma RunsEverywhere(s: M.Sched, dev: Device, id: string, k: nat)
    requires M.Valid(s) && id in s.running && k < |s.running[id].slots|
    ensures var sl := s.running[id].slots[k];
            && HasCard(s.cards, sl.card)
            && (s.running[id].req.burst || sl.seats == CardOf(s.cards, sl.card).seats ==>
                  forall u :: u in UnitsFor(sl, CardOf(s.cards, sl.card).seats, dev) <==> 0 <= u < dev.units)
  {
    var sl := s.running[id].slots[k];
    assert SlotOk(s.cards, s.running[id].req, sl);
    SlotMeans(s.cards, s.running[id].req, sl);
    InBetween(0, dev.units);
  }

  /** Any other job with less than 99.5 percent of the card's seats is given the mask of its seats, if there is one: the
      number of units it goes by is its percentage of them, rounded up. */
  lemma RunsMasked(s: M.Sched, dev: Device, id: string, k: nat, n: int)
    requires M.Valid(s) && id in s.running && k < |s.running[id].slots| && 0 < dev.units
    requires var sl := s.running[id].slots[k];
             (n - 1) as real < dev.units as real * sl.computePercent as real / 100.0 <= n as real
    ensures var sl := s.running[id].slots[k];
            && HasCard(s.cards, sl.card)
            && var seats := CardOf(s.cards, sl.card).seats;
               !s.running[id].req.burst && 200 * sl.seats < 199 * seats && Mask(sl.seatIDs, seats, dev, n).Some? ==>
                 UnitsFor(sl, seats, dev) == Mask(sl.seatIDs, seats, dev, n).value
  {
    var sl := s.running[id].slots[k];
    assert SlotOk(s.cards, s.running[id].req, sl);
    var seats := CardOf(s.cards, sl.card).seats;
    SlotMeans(s.cards, s.running[id].req, sl);
    if !s.running[id].req.burst && 200 * sl.seats < 199 * seats {
      PartPercent(sl.seats, seats, sl.computePercent);
      MaskGiven(sl, seats, dev, n);
    }
  }

  lemma MaskGiven(sl: Slot, seats: int, dev: Device, n: int)
    requires 0 < dev.units && sl.computePercent < 100
    requires (n - 1) as real < dev.units as real * sl.computePercent as real / 100.0 <= n as real
    ensures Mask(sl.seatIDs, seats, dev, n).Some? ==> UnitsFor(sl, seats, dev) == Mask(sl.seatIDs, seats, dev, n).value
  {
    assert n == UnitsOf(dev, sl.computePercent);
  }

  lemma PartPercent(part: int, seats: int, percent: int)
    requires 1 <= seats && 200 * part < 199 * seats
    requires 1 < percent ==> percent as real - 0.5 <= 100.0 * part as real / seats as real
    ensures percent < 100
  {
    Quotient(100.0 * part as real, seats as real, 99.5);
  }

  lemma Quotient(x: real, n: real, c: real)
    requires 0.0 < n && x < c * n
    ensures x / n < c
  {
    var q := x / n;
    assert q * n == x;
  }

  /** Two jobs on one card share no compute unit exactly when both have a mask: beside a job without one there is
      no unit of one's own. */
  lemma ShareNoUnit(s: M.Sched, dev: Device, a: string, b: string, j: nat, k: nat)
    requires M.Valid(s) && a in s.running && b in s.running && a != b && 0 < dev.units
    requires j < |s.running[a].slots| && k < |s.running[b].slots|
    requires s.running[a].slots[j].card == s.running[b].slots[k].card
    ensures HasCard(s.cards, s.running[a].slots[j].card)
    ensures var (x, y) := (s.running[a].slots[j], s.running[b].slots[k]);
            var seats := CardOf(s.cards, x.card).seats;
            UnitsFor(x, seats, dev) !! UnitsFor(y, seats, dev) <==> Masked(x, seats, dev) && Masked(y, seats, dev)
  {
    var x, y := s.running[a].slots[j], s.running[b].slots[k];
    JobsShareNoUnit(s, dev, a, b, j, k, UnitsOf(dev, x.computePercent), UnitsOf(dev, y.computePercent));
    var seats := CardOf(s.cards, x.card).seats;
    SlotSeats(s, a, j);
    SlotSeats(s, b, k);
    SomeUnit(x, seats, dev);
    SomeUnit(y, seats, dev);
  }

  lemma SlotSeats(s: M.Sched, id: string, k: nat)
    requires M.Valid(s) && id in s.running && k < |s.running[id].slots|
    ensures var sl := s.running[id].slots[k];
            HasCard(s.cards, sl.card) && SeatIds(sl.seatIDs, CardOf(s.cards, sl.card).seats) && sl.seatIDs != []
  {
    assert SlotOk(s.cards, s.running[id].req, s.running[id].slots[k]);
    IncreasingIsDistinct(s.running[id].slots[k].seatIDs);
  }

  /** Every job runs on some units, and they are units of the card. */
  lemma SomeUnit(sl: Slot, seats: int, dev: Device)
    requires SeatIds(sl.seatIDs, seats) && sl.seatIDs != [] && 0 < dev.units
    ensures UnitsFor(sl, seats, dev) != {}
    ensures UnitsFor(sl, seats, dev) <= Between(0, dev.units)
  {
    InBetween(0, dev.units);
    assert 0 in Between(0, dev.units);
    forall u | u in UnitsFor(sl, seats, dev) ensures u in Between(0, dev.units) {
      if Masked(sl, seats, dev) {
        MaskBelow(sl.seatIDs, seats, dev, UnitsOf(dev, sl.computePercent));
      }
    }
    if Masked(sl, seats, dev) {
      assert UnitsFor(sl, seats, dev) == Mask(sl.seatIDs, seats, dev, UnitsOf(dev, sl.computePercent)).value;
      assert Mask(sl.seatIDs, seats, dev, UnitsOf(dev, sl.computePercent)).value != {};
    }
  }

  lemma MaskBelow(ids: seq<int>, seats: int, dev: Device, n: int)
    requires SeatIds(ids, seats) && ids != [] && Mask(ids, seats, dev, n).Some?
    ensures forall u :: u in Mask(ids, seats, dev, n).value ==> 0 <= u < dev.units
  {
    assert ids[0] in ids && 0 <= ids[0] < seats;
    forall u | u in Mask(ids, seats, dev, n).value ensures 0 <= u < dev.units {
      if EngineLayout(ids, seats, dev) {
        LayoutBelow(ids, seats, dev, u);
      } else {
        BlocksBelow(ids, seats, dev.units, u);
      }
    }
  }

  /** A card of 304 units on 8 chiplets of 4 engines, cut into 64 seats: a job on one seat gets no mask and runs on
      every unit, those of a job that holds a whole engine among them. */
  lemma OneOfSixtyFour()
    ensures var dev := Device(304, 8, 4);
            && Mask([0], 64, dev, 5).None?
            && Mask(Range(16, 16), 64, dev, 76).Some?
  {
    var dev := Device(304, 8, 4);
    assert SeatsPerEngine(64, dev) == 16 && RoundsPerEngine(dev) == 9;
    MaskMissing([0], 64, dev, 5);
    assert Offsets([0], 16, 0) == [0] by {
      assert [0][..0] == [];
    }
    var ids := Range(16, 16);
    assert forall i :: i in ids ==> 16 <= i < 32;
    WholeEngine(ids);
    MaskMissing(ids, 64, dev, 76);
    assert ids[0] in ids && ids[0] / 16 == 1;
  }

  lemma WholeEngine(ids: seq<int>)
    requires ids == Range(16, 16)
    ensures |Offsets(ids, 16, 1)| == 16
  {
    var offs := Offsets(ids, 16, 1);
    OffsetsDistinct(ids, 16, 1);
    DistinctCount(offs);
    DistinctCount(Range(0, 16));
    forall o ensures o in Elems(offs) <==> o in Elems(Range(0, 16)) {
      OffsetsAre(ids, 16, 1, o);
      if 0 <= o < 16 {
        assert ids[o] == 16 + o && Range(0, 16)[o] == o;
      }
    }
    assert Elems(offs) == Elems(Range(0, 16));
  }
}
