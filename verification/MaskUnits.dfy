/** Which units a mask lights, in the numbers of the device and of the card alone (internal/gpu/amd.go:173-248). */
module MaskUnits {
  import opened Share
  import opened Lists
  import opened SeatPicking
  import opened ComputeMask
  import opened MaskLaws
  import DivMod

  /** Unit `u` is in the mask of a job that holds the given seats. */
  predicate Lit(ids: seq<int>, seats: int, dev: Device, n: int, u: int) {
    Mask(ids, seats, dev, n).Some? && u in Mask(ids, seats, dev, n).value
  }

  /** The units of the mask, none without one. */
  function UnitsLit(ids: seq<int>, seats: int, dev: Device, n: int): set<int> {
    if Mask(ids, seats, dev, n).Some? then Mask(ids, seats, dev, n).value else {}
  }

  /** Seats divide evenly into the engines of the card, and units into its chiplets. */
  predicate EngineCard(seats: int, dev: Device) {
    && 0 < dev.units && 0 < dev.chiplets && 0 < dev.engines && dev.units % dev.chiplets == 0
    && dev.engines <= seats && seats % dev.engines == 0
  }

  /** The job has some of the card's seats, not all, and fewer units to get than there are. */
  ghost predicate Part(ids: seq<int>, seats: int, dev: Device, n: int) {
    SeatIds(ids, seats) && 0 < |ids| < seats && n < dev.units
  }

  /** Seat `o` of engine `e`, each engine having `g` seats, is held. */
  predicate Holds(ids: seq<int>, g: int, e: int, o: int) {
    e * g + o in ids
  }

  /** All seats of engine `e` are held. */
  predicate HeldWhole(ids: seq<int>, g: int, e: int) {
    forall o :: 0 <= o < g ==> Holds(ids, g, e, o)
  }

  /** The offsets held of engine `e`. */
  ghost function HeldOf(ids: seq<int>, g: int, e: int): set<int> {
    set o | 0 <= o < g && Holds(ids, g, e, o)
  }

  lemma OffsetsHeld(ids: seq<int>, g: int, e: int)
    requires 0 < g && Distinct(ids)
    ensures |Offsets(ids, g, e)| == |HeldOf(ids, g, e)|
    ensures |Offsets(ids, g, e)| == g <==> HeldWhole(ids, g, e)
  {
    var offs := Offsets(ids, g, e);
    OffsetsDistinct(ids, g, e);
    OffsetsRange(ids, g, e);
    DistinctCount(offs);
    DistinctCount(Range(0, g));
    forall o ensures o in Elems(offs) <==> o in HeldOf(ids, g, e) {
      OffsetsAre(ids, g, e, o);
    }
    assert Elems(offs) == HeldOf(ids, g, e);
    if |offs| == g {
      forall o | 0 <= o < g ensures Holds(ids, g, e, o) {
        AllOffsets(offs, g, o);
        OffsetsAre(ids, g, e, o);
      }
    }
    if HeldWhole(ids, g, e) {
      forall o ensures o in HeldOf(ids, g, e) <==> o in Elems(Range(0, g)) {
        if 0 <= o < g {
          assert Range(0, g)[o] == o && Holds(ids, g, e, o);
        }
      }
      assert HeldOf(ids, g, e) == Elems(Range(0, g));
    }
  }

  // ---- whole engines ----

  lemma LitByEngines(ids: seq<int>, seats: int, dev: Device, n: int, u: int)
    requires EngineCard(seats, dev) && Part(ids, seats, dev, n)
    ensures EngineLayout(ids, seats, dev)
    ensures UnitsLit(ids, seats, dev, n) == OfEngines(ids, seats, dev, Engines(ids, SeatsPerEngine(seats, dev)))
    ensures Lit(ids, seats, dev, n, u) <==> u in UnitsLit(ids, seats, dev, n)
  {
  }

  /** The whole group of `g` rounds that round `r` belongs to is there. */
  lemma GroupThere(dev: Device, g: int, r: int)
    requires 0 < dev.chiplets && 0 < dev.engines && 0 <= dev.units && 0 < g
    ensures r / g < Per(RoundsPerEngine(dev), g) <==> (r / g + 1) * g * dev.chiplets * dev.engines <= dev.units
  {
    var rounds, m := RoundsPerEngine(dev), r / g + 1;
    DivMod.Floor(rounds, g, m);
    DivMod.BelowTwice(dev.units, dev.chiplets, dev.engines, m * g - 1);
  }

  /** A unit's chiplet is its number modulo the chiplets; what is left, modulo the engines, is its engine, and the rest
      its round. A job that holds all seats of an engine has the units of every round the card has whole on all
      engines. A job that holds some has, of every group of as many whole rounds as the engine has seats, those that
      fall to its seats. */
  lemma EngineUnits(ids: seq<int>, seats: int, dev: Device, n: int, u: int)
    requires EngineCard(seats, dev) && Part(ids, seats, dev, n)
    ensures var (g, e, r) := (seats / dev.engines, u / dev.chiplets % dev.engines, u / dev.chiplets / dev.engines);
            g != 0 &&
            (Lit(ids, seats, dev, n, u) <==>
              0 <= u &&
              if HeldWhole(ids, g, e) then (r + 1) * dev.chiplets * dev.engines <= dev.units
              else Holds(ids, g, e, r % g) && (r / g + 1) * g * dev.chiplets * dev.engines <= dev.units)
  {
    var (g, e, r) := (SeatsPerEngine(seats, dev), u / dev.chiplets % dev.engines, u / dev.chiplets / dev.engines);
    LitByEngines(ids, seats, dev, n, u);
    LayoutMeaning(ids, seats, dev, u);
    OffsetsHeld(ids, g, e);
    DivMod.BelowTwice(dev.units, dev.chiplets, dev.engines, r);
    GroupThere(dev, g, r);
    OffsetsAre(ids, g, e, r % g);
    OffsetsAre(ids, g, e, 0);
  }

  /** Two of eight seats of a card of 304 units, 8 chiplets and 4 engines, one whole engine: nine rounds of it, 72
      units. */
  lemma TwoOfEight(u: int)
    ensures Lit([0, 1], 8, Device(304, 8, 4), 76, u) <==> 0 <= u < 288 && u / 8 % 4 == 0
  {
    var ids, dev := [0, 1], Device(304, 8, 4);
    EngineUnits(ids, 8, dev, 76, u);
    var (e, r) := (u / 8 % 4, u / 8 / 4);
    assert ids[0] == 0 && ids[1] == 1;
    if e == 0 {
      assert HeldWhole(ids, 2, e);
    } else {
      assert !Holds(ids, 2, e, r % 2) && !Holds(ids, 2, e, 0);
      assert !HeldWhole(ids, 2, e);
    }
  }

  /** Dividing by the chiplets and then the engines, or by both at once. */
  lemma RoundsAtOnce(dev: Device)
    requires 0 < dev.chiplets && 0 < dev.engines && 0 <= dev.units
    ensures 0 < dev.chiplets * dev.engines
    ensures RoundsPerEngine(dev) == dev.units / (dev.chiplets * dev.engines)
  {
    var (c, k, q) := (dev.chiplets, dev.engines, RoundsPerEngine(dev));
    DivMod.MulMono(c, 1, k);
    DivMod.Assoc(q, c, k);
    DivMod.Assoc(q + 1, c, k);
    DivMod.Exact(dev.units, c * k, q);
  }

  lemma PartsAtOnce(seats: int, dev: Device)
    requires EngineCard(seats, dev)
    ensures 0 < dev.chiplets * seats
    ensures Per(RoundsPerEngine(dev), SeatsPerEngine(seats, dev)) == dev.units / (dev.chiplets * seats)
  {
    var (c, k, q, g) := (dev.chiplets, dev.engines, RoundsPerEngine(dev), SeatsPerEngine(seats, dev));
    var p := Per(q, g);
    DivMod.MulMono(c, 1, seats);
    DivMod.Floor(q, g, p);
    GroupsFit(dev.units, c, k, q, g, p);
    GroupSize(p, g, c, k, seats);
    GroupSize(p + 1, g, c, k, seats);
    DivMod.Exact(dev.units, c * seats, p);
  }

  lemma GroupSize(p: int, g: int, c: int, k: int, seats: int)
    requires seats == g * k
    ensures p * g * c * k == p * (c * seats)
  {
    assert p * g * c * k == p * (g * c * k);
    assert g * c * k == c * (g * k);
  }

  lemma GroupsFit(units: int, c: int, k: int, q: int, g: int, p: int)
    requires 0 < c && 0 < k && q * c * k <= units < (q + 1) * c * k && p * g <= q < (p + 1) * g
    ensures p * g * c * k <= units < (p + 1) * g * c * k
  {
    DivMod.MulMono(c, p * g, q);
    DivMod.MulMono(k, p * g * c, q * c);
    DivMod.MulMono(c, q + 1, (p + 1) * g);
    DivMod.MulMono(k, (q + 1) * c, (p + 1) * g * c);
  }

  /** How many units a job has of engine `e` on chiplet `x`: a unit for every whole round when it holds all the engine's
      seats, and otherwise, for each seat it holds of it, the chiplet's units by the card's seats, rounded down. */
  lemma UnitsOn(ids: seq<int>, seats: int, dev: Device, n: int, x: int, e: int)
    requires EngineCard(seats, dev) && Part(ids, seats, dev, n) && 0 <= x < dev.chiplets && 0 <= e < dev.engines
    ensures 0 < dev.chiplets * dev.engines && 0 < dev.chiplets * seats
    ensures var g := seats / dev.engines;
            |Units(UnitsLit(ids, seats, dev, n), dev, x, e)| ==
              if HeldWhole(ids, g, e) then dev.units / (dev.chiplets * dev.engines)
              else |HeldOf(ids, g, e)| * (dev.units / (dev.chiplets * seats))
  {
    var g := SeatsPerEngine(seats, dev);
    LitByEngines(ids, seats, dev, n, 0);
    Balanced(ids, seats, dev, x, e);
    OffsetsHeld(ids, g, e);
    RoundsAtOnce(dev);
    PartsAtOnce(seats, dev);
  }

  lemma RoundsBelow(dev: Device, u: int)
    requires 0 < dev.chiplets && 0 < dev.engines && 0 <= dev.units && 0 <= u
    ensures 0 < dev.chiplets * dev.engines
    ensures u < dev.units - dev.units % (dev.chiplets * dev.engines) <==>
              (u / dev.chiplets / dev.engines + 1) * dev.chiplets * dev.engines <= dev.units
  {
    var (c, k, q, r) := (dev.chiplets, dev.engines, RoundsPerEngine(dev), u / dev.chiplets / dev.engines);
    RoundsAtOnce(dev);
    DivMod.BelowTwice(dev.units, c, k, r);
    DivMod.Compose(dev.units, c * k);
    DivMod.Twice(u, c, k);
    assert q * c * k == q * (c * k);
    if r < q {
      DivMod.MulMono(c, r + 1, q);
      DivMod.MulMono(k, (r + 1) * c, q * c);
    } else {
      DivMod.MulMono(c, q, r);
      DivMod.MulMono(k, q * c, r * c);
    }
  }

  /** No job has a unit of a round that is not there on every engine. */
  lemma LitBelow(ids: seq<int>, seats: int, dev: Device, n: int, u: int)
    requires EngineCard(seats, dev) && Part(ids, seats, dev, n) && Lit(ids, seats, dev, n, u)
    ensures 0 < dev.chiplets * dev.engines
    ensures 0 <= u < dev.units - dev.units % (dev.chiplets * dev.engines)
  {
    EngineUnits(ids, seats, dev, n, u);
    RoundsBelow(dev, u);
    InGroup(dev, SeatsPerEngine(seats, dev), u / dev.chiplets / dev.engines);
  }

  lemma InGroup(dev: Device, g: int, r: int)
    requires 0 < dev.chiplets && 0 < dev.engines && 0 < g
    ensures (r / g + 1) * g * dev.chiplets * dev.engines <= dev.units ==>
              (r + 1) * dev.chiplets * dev.engines <= dev.units
  {
    DivMod.Compose(r, g);
    assert (r / g + 1) * g == r / g * g + g;
    DivMod.MulMono(dev.chiplets, r + 1, (r / g + 1) * g);
    DivMod.MulMono(dev.engines, (r + 1) * dev.chiplets, (r / g + 1) * g * dev.chiplets);
  }

  ghost predicate AllPart(jobs: seq<seq<int>>, seats: int, dev: Device, n: seq<int>) {
    |n| == |jobs| && forall j :: 0 <= j < |jobs| ==> Part(jobs[j], seats, dev, n[j])
  }

  ghost predicate SomeLights(jobs: seq<seq<int>>, seats: int, dev: Device, n: seq<int>, u: int)
    requires |n| == |jobs|
  {
    exists j :: 0 <= j < |jobs| && Lit(jobs[j], seats, dev, n[j], u)
  }

  ghost predicate SomeWhole(jobs: seq<seq<int>>, g: int, e: int) {
    exists j :: 0 <= j < |jobs| && HeldWhole(jobs[j], g, e)
  }

  ghost predicate SomeHold(jobs: seq<seq<int>>, i: int) {
    exists j :: 0 <= j < |jobs| && i in jobs[j]
  }

  /** Jobs that together hold every engine whole light every unit but those left over when the units are dealt evenly
      to all engines of all chiplets, and none of those. */
  lemma WholeCardLit(jobs: seq<seq<int>>, seats: int, dev: Device, n: seq<int>)
    requires EngineCard(seats, dev) && AllPart(jobs, seats, dev, n)
    requires forall e :: 0 <= e < dev.engines ==> SomeWhole(jobs, seats / dev.engines, e)
    ensures 0 < dev.chiplets * dev.engines
    ensures forall u :: SomeLights(jobs, seats, dev, n, u) <==>
              0 <= u < dev.units - dev.units % (dev.chiplets * dev.engines)
  {
    RoundsAtOnce(dev);
    forall u
      ensures SomeLights(jobs, seats, dev, n, u) <==>
                0 <= u < dev.units - dev.units % (dev.chiplets * dev.engines)
    {
      if j :| 0 <= j < |jobs| && Lit(jobs[j], seats, dev, n[j], u) {
        LitBelow(jobs[j], seats, dev, n[j], u);
      }
      if 0 <= u < dev.units - dev.units % (dev.chiplets * dev.engines) {
        var e := u / dev.chiplets % dev.engines;
        assert SomeWhole(jobs, seats / dev.engines, e);
        var j :| 0 <= j < |jobs| && HeldWhole(jobs[j], seats / dev.engines, e);
        WholeEngineLit(jobs[j], seats, dev, n[j], u);
      }
    }
  }

  lemma WholeEngineLit(ids: seq<int>, seats: int, dev: Device, n: int, u: int)
    requires EngineCard(seats, dev) && Part(ids, seats, dev, n)
    requires HeldWhole(ids, seats / dev.engines, u / dev.chiplets % dev.engines)
    ensures 0 < dev.chiplets * dev.engines
    ensures Lit(ids, seats, dev, n, u) <==> 0 <= u < dev.units - dev.units % (dev.chiplets * dev.engines)
  {
    EngineUnits(ids, seats, dev, n, u);
    RoundsAtOnce(dev);
    if 0 <= u {
      RoundsBelow(dev, u);
    }
  }

  // ---- blocks ----

  /** Counted in `seats` parts each, unit `u` ends in the `i`-th stretch of `units` parts. */
  predicate FallsTo(u: int, i: int, seats: int, units: int) {
    i * units < (u + 1) * seats <= (i + 1) * units
  }

  lemma InBlock(i: int, seats: int, units: int, u: int)
    requires 0 < seats
    ensures u in Block(i, seats, units) <==> FallsTo(u, i, seats, units)
  {
    InBetween(i * units / seats, (i + 1) * units / seats);
    DivMod.Floor(i * units, seats, u + 1);
    DivMod.Floor((i + 1) * units, seats, u + 1);
  }

  /** Where the seats do not divide evenly into engines, seat `i` has the units from the `i`-th seat's part of them up
      to the next seat's. */
  lemma BlockUnits(ids: seq<int>, seats: int, dev: Device, n: int, u: int)
    requires 0 < dev.units && !EngineCard(seats, dev) && Part(ids, seats, dev, n)
    ensures Lit(ids, seats, dev, n, u) <==>
              exists i :: i in ids && FallsTo(u, i, seats, dev.units)
  {
    BlocksAre(ids, seats, dev.units, u);
    forall i ensures u in Block(i, seats, dev.units) <==> FallsTo(u, i, seats, dev.units) {
      InBlock(i, seats, dev.units, u);
    }
  }

  /** Jobs that together hold every seat then light every unit of the card, and nothing else. */
  lemma WholeCardInBlocks(jobs: seq<seq<int>>, seats: int, dev: Device, n: seq<int>)
    requires 0 < dev.units && 0 < seats && !EngineCard(seats, dev) && AllPart(jobs, seats, dev, n)
    requires forall i :: 0 <= i < seats ==> SomeHold(jobs, i)
    ensures forall u :: SomeLights(jobs, seats, dev, n, u) <==> 0 <= u < dev.units
  {
    forall u ensures SomeLights(jobs, seats, dev, n, u) <==> 0 <= u < dev.units {
      if j :| 0 <= j < |jobs| && Lit(jobs[j], seats, dev, n[j], u) {
        assert jobs[j][0] in jobs[j];
        BlocksBelow(jobs[j], seats, dev.units, u);
      }
      if 0 <= u < dev.units {
        var i := SeatOf(seats, dev.units, u);
        assert SomeHold(jobs, i);
        var j :| 0 <= j < |jobs| && i in jobs[j];
        BlockUnits(jobs[j], seats, dev, n[j], u);
        assert Lit(jobs[j], seats, dev, n[j], u);
      }
    }
  }

  lemma SeatOf(seats: int, units: int, u: int) returns (i: int)
    requires 0 < seats && 0 <= u < units
    ensures 0 <= i < seats && FallsTo(u, i, seats, units)
  {
    var x := (u + 1) * seats - 1;
    i := x / units;
    DivMod.MulMono(seats, 1, u + 1);
    DivMod.NonNegative(x, units);
    DivMod.Compose(x, units);
    assert (i + 1) * units == i * units + units;
    DivMod.MulMono(seats, u + 1, units);
    DivMod.DivBelow(x, units, seats);
  }

  /** A job without seats on record has the first units, one at least. */
  lemma NoSeats(seats: int, dev: Device, n: int, u: int)
    requires 0 < dev.units && n < dev.units
    ensures Lit([], seats, dev, n, u) <==> 0 <= u < (if n < 1 then 1 else n)
  {
    InBetween(0, Max(n, 1));
    assert 0 in Between(0, Max(n, 1));
  }
}
