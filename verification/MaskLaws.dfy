/** What the masks promise: different jobs on a card get different compute units, and in the engine layout
    every chiplet gives a job the same number of units of an engine. */
module MaskLaws {
  import opened Share
  import opened Lists
  import opened SeatPicking
  import opened Cards
  import opened ComputeMask
  import DivMod
  import M = SchedulerModel
  import L = SchedulerLaws

  /** Seat ids as the scheduler hands them out: distinct seats of the card. */
  ghost predicate SeatIds(ids: seq<int>, seats: int) {
    Distinct(ids) && forall i :: i in ids ==> 0 <= i < seats
  }

  // ---- decoding the engine layout ----

  lemma SeatIs(s: int, g: int, e: int, o: int)
    requires 0 < g
    ensures s / g == e && s % g == o <==> 0 <= o < g && s == e * g + o
  {
    DivMod.Compose(s, g);
    if 0 <= o < g && s == e * g + o {
      DivMod.Unique(s, g, e, o);
    }
  }

  /** Offset `o` of engine `e` is seat `e * g + o`. */
  lemma {:induction false} OffsetsAre(ids: seq<int>, g: int, e: int, o: int)
    requires 0 < g
    ensures o in Offsets(ids, g, e) <==> 0 <= o < g && e * g + o in ids
  {
    if ids != [] {
      var init, s := ids[..|ids| - 1], ids[|ids| - 1];
      assert ids == init + [s];
      OffsetsAre(init, g, e, o);
      SeatIs(s, g, e, o);
      OffsetsRange(ids, g, e);
    }
  }

  lemma {:induction false} OffsetsDistinct(ids: seq<int>, g: int, e: int)
    requires 0 < g && Distinct(ids)
    ensures Distinct(Offsets(ids, g, e))
  {
    if ids != [] {
      var init, s := ids[..|ids| - 1], ids[|ids| - 1];
      OffsetsDistinct(init, g, e);
      if s / g == e {
        OffsetsAre(init, g, e, s % g);
        SeatIs(s, g, e, s % g);
        assert s !in init;
      }
    }
  }

  lemma {:induction false} EnginesAre(ids: seq<int>, g: int, e: int)
    requires 0 < g
    ensures e in Engines(ids, g) <==> Offsets(ids, g, e) != []
  {
    if ids != [] {
      EnginesAre(ids[..|ids| - 1], g, e);
    }
  }

  /** Holding as many seats of an engine as it has is holding all of them. */
  lemma AllOffsets(offs: seq<int>, g: int, o: int)
    requires Distinct(offs) && (forall x :: x in offs ==> 0 <= x < g) && |offs| == g && 0 <= o < g
    ensures o in offs
  {
    DistinctCount(offs);
    DistinctCount(Range(0, g));
    forall x | x in Elems(offs) ensures x in Elems(Range(0, g)) {
      assert Range(0, g)[x] == x;
    }
    if o !in offs {
      assert Range(0, g)[o] == o;
      assert Elems(offs) <= Elems(Range(0, g)) - {o};
      SubsetCount(Elems(offs), Elems(Range(0, g)) - {o});
    }
  }

  lemma {:induction false} ColumnIs(o: int, g: int, per: nat, r: int)
    requires 0 <= o < g
    ensures r in Column(o, g, per) <==> 0 <= r && r % g == o && r / g < per
    decreases per
  {
    if per > 0 {
      ColumnIs(o, g, per - 1, r);
      SeatIs(r, g, per - 1, o);
      assert r in Column(o, g, per) <==> r in Column(o, g, per - 1) || r == o + (per - 1) * g;
      if r == o + (per - 1) * g { DivMod.MulMono(g, 0, per - 1); }
    } else if 0 <= r {
      DivMod.NonNegative(r, g);
    }
  }

  lemma {:induction false} ColumnsAre(offs: seq<int>, g: int, per: nat, r: int)
    requires 0 < g && forall o :: o in offs ==> 0 <= o < g
    ensures r in Columns(offs, g, per) <==> 0 <= r && r % g in offs && r / g < per
  {
    if offs != [] {
      var init, o := offs[..|offs| - 1], offs[|offs| - 1];
      assert offs == init + [o] && o in offs && forall x :: x in init ==> x in offs;
      ColumnsAre(init, g, per, r);
      ColumnIs(o, g, per, r);
    }
  }

  /** Round `r` of an engine belongs to the job: it holds all the engine's seats, or the seat whose turn
      round `r` is. */
  ghost predicate HasRound(ids: seq<int>, g: int, rounds: nat, e: int, r: int)
    requires 0 < g
  {
    if |Offsets(ids, g, e)| == g then r < rounds
    else r / g < Per(rounds, g) && e * g + r % g in ids
  }

  lemma RangeIs(n: nat, r: int)
    requires 0 <= r
    ensures r in Range(0, n) <==> r < n
  {
    if r < n { assert Range(0, n)[r] == r; }
  }

  lemma RoundsAre(ids: seq<int>, g: int, rounds: nat, e: int, r: int)
    requires 0 < g && 0 <= r
    ensures r in Rounds(Offsets(ids, g, e), g, rounds) <==> HasRound(ids, g, rounds, e, r)
  {
    var offs := Offsets(ids, g, e);
    OffsetsRange(ids, g, e);
    if |offs| == g {
      RangeIs(rounds, r);
    } else {
      ColumnsAre(offs, g, Per(rounds, g), r);
      OffsetsAre(ids, g, e, r % g);
    }
  }

  lemma RoundsNonNegative(ids: seq<int>, g: int, rounds: nat, e: int)
    requires 0 < g
    ensures forall r :: r in Rounds(Offsets(ids, g, e), g, rounds) ==> 0 <= r
  {
    var offs := Offsets(ids, g, e);
    OffsetsRange(ids, g, e);
    if |offs| != g {
      forall r | r in Columns(offs, g, Per(rounds, g)) ensures 0 <= r {
        ColumnsAre(offs, g, Per(rounds, g), r);
      }
    }
  }

  /** Bit `b` is unit round `b / X / E` of engine `(b / X) % E` on chiplet `b % X`. */
  lemma {:induction false} RoundBitsAre(use: seq<int>, e: int, dev: Device, b: int)
    requires 0 < dev.chiplets && 0 <= e < dev.engines && forall r :: r in use ==> 0 <= r
    ensures b in RoundBits(use, e, dev) <==>
              0 <= b && b / dev.chiplets % dev.engines == e && b / dev.chiplets / dev.engines in use
  {
    if use != [] {
      var init, r := use[..|use| - 1], use[|use| - 1];
      assert use == init + [r] && r in use && forall x :: x in init ==> x in use;
      RoundBitsAre(init, e, dev, b);
      var local := r * dev.engines + e;
      OneRound(local, dev.chiplets, b);
      SeatIs(b / dev.chiplets, dev.engines, r, e);
      DivMod.MulMono(dev.engines, 0, r);
      DivMod.MulMono(dev.chiplets, 0, local);
    }
  }

  lemma OneRound(local: int, chiplets: int, b: int)
    requires 0 < chiplets
    ensures b in Between(local * chiplets, local * chiplets + chiplets) <==> b / chiplets == local
  {
    InBetween(local * chiplets, local * chiplets + chiplets);
    if local * chiplets <= b < local * chiplets + chiplets {
      DivMod.Unique(b, chiplets, local, b - local * chiplets);
    }
    DivMod.Compose(b, chiplets);
  }

  /** Seats of the card are seats of its engines. */
  lemma EngineInRange(ids: seq<int>, seats: int, dev: Device, e: int)
    requires EngineLayout(ids, seats, dev) && SeatIds(ids, seats) && e in Engines(ids, SeatsPerEngine(seats, dev))
    ensures 0 <= e < dev.engines
  {
    var g := SeatsPerEngine(seats, dev);
    EnginesAre(ids, g, e);
    var o := Offsets(ids, g, e)[0];
    OffsetsAre(ids, g, e, o);
    assert e * g + o in ids;
    SeatIs(e * g + o, g, e, o);
    DivMod.NonNegative(e * g + o, g);
    DivMod.DivBelow(e * g + o, g, dev.engines);
  }

  /** The engine layout, bit by bit. */
  lemma LayoutMeaning(ids: seq<int>, seats: int, dev: Device, b: int)
    requires EngineLayout(ids, seats, dev) && SeatIds(ids, seats) && 0 <= dev.units
    ensures var (g, e, r) := (SeatsPerEngine(seats, dev), b / dev.chiplets % dev.engines,
                              b / dev.chiplets / dev.engines);
            b in OfEngines(ids, seats, dev, Engines(ids, g)) <==>
              0 <= b && Offsets(ids, g, e) != [] && HasRound(ids, g, RoundsPerEngine(dev), e, r)
  {
    var (g, e, r) := (SeatsPerEngine(seats, dev), b / dev.chiplets % dev.engines, b / dev.chiplets / dev.engines);
    if 0 <= b {
      DivMod.NonNegative(b, dev.chiplets);
      DivMod.NonNegative(b / dev.chiplets, dev.engines);
      RoundsAre(ids, g, RoundsPerEngine(dev), e, r);
    }
    EnginesAre(ids, g, e);
    forall f | f in Engines(ids, g) || f == e
      ensures f in Engines(ids, g) || f == e ==> (b in OfEngine(ids, seats, dev, f) <==>
                0 <= b && f == e && r in Rounds(Offsets(ids, g, f), g, RoundsPerEngine(dev)))
    {
      if f in Engines(ids, g) { EngineInRange(ids, seats, dev, f); }
      RoundsNonNegative(ids, g, RoundsPerEngine(dev), f);
      RoundBitsAre(Rounds(Offsets(ids, g, f), g, RoundsPerEngine(dev)), f, dev, b);
    }
  }

  // ---- disjoint seats, disjoint units ----

  lemma LayoutDisjoint(a: seq<int>, b: seq<int>, seats: int, dev: Device)
    requires EngineLayout(a, seats, dev) && EngineLayout(b, seats, dev) && 0 <= dev.units
    requires SeatIds(a, seats) && SeatIds(b, seats) && Elems(a) !! Elems(b)
    ensures var g := SeatsPerEngine(seats, dev);
            OfEngines(a, seats, dev, Engines(a, g)) !! OfEngines(b, seats, dev, Engines(b, g))
  {
    var g := SeatsPerEngine(seats, dev);
    forall bit | bit in OfEngines(a, seats, dev, Engines(a, g))
      ensures bit !in OfEngines(b, seats, dev, Engines(b, g))
    {
      if bit in OfEngines(b, seats, dev, Engines(b, g)) {
        LayoutMeaning(a, seats, dev, bit);
        LayoutMeaning(b, seats, dev, bit);
        RoundShared(a, b, g, RoundsPerEngine(dev), bit / dev.chiplets % dev.engines, bit / dev.chiplets / dev.engines);
      }
    }
  }

  /** Two jobs that have the same round of an engine hold a seat in common. */
  lemma RoundShared(a: seq<int>, b: seq<int>, g: int, rounds: nat, e: int, r: int)
    requires 0 < g && Distinct(a) && Distinct(b)
    requires Offsets(a, g, e) != [] && Offsets(b, g, e) != []
    requires HasRound(a, g, rounds, e, r) && HasRound(b, g, rounds, e, r)
    ensures Elems(a) * Elems(b) != {}
  {
    if |Offsets(a, g, e)| == g {
      OneShared(a, b, g, e);
    } else if |Offsets(b, g, e)| == g {
      OneShared(b, a, g, e);
    } else {
      assert e * g + r % g in Elems(a) * Elems(b);
    }
  }

  /** A job that holds all seats of an engine shares one with every job that holds any. */
  lemma OneShared(a: seq<int>, b: seq<int>, g: int, e: int)
    requires 0 < g && Distinct(a) && |Offsets(a, g, e)| == g && Offsets(b, g, e) != []
    ensures Elems(a) * Elems(b) != {}
  {
    var o := Offsets(b, g, e)[0];
    OffsetsAre(b, g, e, o);
    OffsetsDistinct(a, g, e);
    OffsetsRange(a, g, e);
    AllOffsets(Offsets(a, g, e), g, o);
    OffsetsAre(a, g, e, o);
    assert e * g + o in Elems(a) * Elems(b);
  }

  lemma {:induction false} BlocksAre(ids: seq<int>, seats: int, units: int, b: int)
    requires 0 < seats
    ensures b in Blocks(ids, seats, units) <==> exists i :: i in ids && b in Block(i, seats, units)
  {
    if ids != [] {
      BlocksAre(ids[..|ids| - 1], seats, units, b);
      assert ids == ids[..|ids| - 1] + [ids[|ids| - 1]];
    }
  }

  lemma BlockApart(i: int, j: int, seats: int, units: int)
    requires 0 < seats && 0 <= units && i < j
    ensures Block(i, seats, units) !! Block(j, seats, units)
  {
    DivMod.MulMono(units, i + 1, j);
    DivMod.DivMono((i + 1) * units, j * units, seats);
    InBetween(i * units / seats, (i + 1) * units / seats);
    InBetween(j * units / seats, (j + 1) * units / seats);
    forall u | u in Block(i, seats, units) ensures u !in Block(j, seats, units) {
    }
  }

  lemma BlocksDisjoint(a: seq<int>, b: seq<int>, seats: int, units: int)
    requires 0 < seats && 0 <= units && Elems(a) !! Elems(b)
    ensures Blocks(a, seats, units) !! Blocks(b, seats, units)
  {
    forall bit | bit in Blocks(a, seats, units) ensures bit !in Blocks(b, seats, units) {
      BlocksAre(a, seats, units, bit);
      BlocksAre(b, seats, units, bit);
      var i :| i in a && bit in Block(i, seats, units);
      if j :| j in b && bit in Block(j, seats, units) {
        assert i in Elems(a) && j in Elems(b);
        if i < j { BlockApart(i, j, seats, units); } else { BlockApart(j, i, seats, units); }
      }
    }
  }

  lemma LayoutBelow(ids: seq<int>, seats: int, dev: Device, b: int)
    requires EngineLayout(ids, seats, dev) && SeatIds(ids, seats) && 0 <= dev.units
    requires b in OfEngines(ids, seats, dev, Engines(ids, SeatsPerEngine(seats, dev)))
    ensures 0 <= b < dev.units
  {
    LayoutMeaning(ids, seats, dev, b);
    var r := b / dev.chiplets / dev.engines;
    if RoundsPerEngine(dev) <= r {
      DivMod.DivMono(RoundsPerEngine(dev), r, SeatsPerEngine(seats, dev));
    }
    BitBelow(b, dev);
  }

  lemma BitBelow(b: int, dev: Device)
    requires 0 < dev.chiplets && 0 < dev.engines && 0 <= dev.units && dev.units % dev.chiplets == 0
    requires 0 <= b && b / dev.chiplets / dev.engines < dev.units / dev.chiplets / dev.engines
    ensures b < dev.units
  {
    if dev.units <= b {
      DivMod.DivMono(dev.units, b, dev.chiplets);
      DivMod.DivMono(dev.units / dev.chiplets, b / dev.chiplets, dev.engines);
    }
  }

  lemma BlocksBelow(ids: seq<int>, seats: int, units: int, b: int)
    requires 0 < seats && 0 <= units && (forall i :: i in ids ==> 0 <= i < seats) && b in Blocks(ids, seats, units)
    ensures 0 <= b < units
  {
    BlocksAre(ids, seats, units, b);
    var i :| i in ids && b in Block(i, seats, units);
    InBetween(i * units / seats, (i + 1) * units / seats);
    DivMod.MulMono(units, 0, i);
    DivMod.NonNegative(i * units, seats);
    DivMod.MulMono(units, i + 1, seats);
    DivMod.DivMono((i + 1) * units, seats * units, seats);
    DivMod.Unique(seats * units, seats, units, 0);
  }

  /** Disjoint seats of a card get disjoint masks, and every bit names a unit of the card. */
  lemma MasksDisjoint(a: seq<int>, b: seq<int>, seats: int, dev: Device, na: int, nb: int)
    requires SeatIds(a, seats) && SeatIds(b, seats) && a != [] && b != [] && Elems(a) !! Elems(b)
    requires Mask(a, seats, dev, na).Some? && Mask(b, seats, dev, nb).Some?
    ensures Mask(a, seats, dev, na).value !! Mask(b, seats, dev, nb).value
    ensures forall u :: u in Mask(a, seats, dev, na).value ==> 0 <= u < dev.units
  {
    assert a[0] in a && 0 <= a[0] < seats;
    if EngineLayout(a, seats, dev) {
      LayoutDisjoint(a, b, seats, dev);
      forall u | u in Mask(a, seats, dev, na).value ensures 0 <= u < dev.units { LayoutBelow(a, seats, dev, u); }
    } else {
      BlocksDisjoint(a, b, seats, dev.units);
      forall u | u in Mask(a, seats, dev, na).value ensures 0 <= u < dev.units { BlocksBelow(a, seats, dev.units, u); }
    }
  }

  lemma IncreasingIsDistinct(s: seq<int>)
    requires Increasing(s)
    ensures Distinct(s)
  {
  }

  /** In every reachable scheduler state the masks of two jobs on one card, where both have one, share no compute
      unit; `MaskGaps` says when a job has none. */
  lemma JobsShareNoUnit(s: M.Sched, dev: Device, a: string, b: string, j: nat, k: nat, na: int, nb: int)
    requires M.Valid(s) && a in s.running && b in s.running && a != b
    requires j < |s.running[a].slots| && k < |s.running[b].slots|
    requires s.running[a].slots[j].card == s.running[b].slots[k].card
    ensures HasCard(s.cards, s.running[a].slots[j].card)
    ensures var (x, y) := (s.running[a].slots[j], s.running[b].slots[k]);
            var seats := CardOf(s.cards, x.card).seats;
            var (ma, mb) := (Mask(x.seatIDs, seats, dev, na), Mask(y.seatIDs, seats, dev, nb));
            ma.Some? && mb.Some? ==>
              ma.value !! mb.value && forall u :: u in ma.value + mb.value ==> 0 <= u < dev.units
  {
    var x, y := s.running[a].slots[j], s.running[b].slots[k];
    assert SlotOk(s.cards, s.running[a].req, x) && SlotOk(s.cards, s.running[b].req, y);
    var c := CardOf(s.cards, x.card);
    L.ValidMeans(s, c);
    IncreasingIsDistinct(x.seatIDs);
    IncreasingIsDistinct(y.seatIDs);
    if Mask(x.seatIDs, c.seats, dev, na).Some? && Mask(y.seatIDs, c.seats, dev, nb).Some? {
      MasksDisjoint(x.seatIDs, y.seatIDs, c.seats, dev, na, nb);
      MasksDisjoint(y.seatIDs, x.seatIDs, c.seats, dev, nb, na);
    }
  }

  // ---- balance ----

  /** The bits of a mask that are units of engine `e` on chiplet `x`. */
  ghost function Units(bits: set<int>, dev: Device, x: int, e: int): set<int>
    requires 0 < dev.chiplets && 0 < dev.engines
  {
    set b | b in bits && b % dev.chiplets == x && b / dev.chiplets % dev.engines == e
  }

  /** A unit is its round, once engine and chiplet are fixed. */
  lemma UnitIs(dev: Device, x: int, e: int, r: int, b: int)
    requires 0 <= x < dev.chiplets && 0 <= e < dev.engines
    ensures b == (r * dev.engines + e) * dev.chiplets + x <==>
              b % dev.chiplets == x && b / dev.chiplets % dev.engines == e && b / dev.chiplets / dev.engines == r
  {
    SeatIs(b, dev.chiplets, r * dev.engines + e, x);
    SeatIs(b / dev.chiplets, dev.engines, r, e);
  }

  /** One unit per round, engine and chiplet. */
  lemma {:induction false} UnitCount(use: seq<int>, dev: Device, x: int, e: int)
    requires 0 <= x < dev.chiplets && 0 <= e < dev.engines
    requires Distinct(use) && forall r :: r in use ==> 0 <= r
    ensures |Units(RoundBits(use, e, dev), dev, x, e)| == |use|
  {
    if use != [] {
      var init, r := use[..|use| - 1], use[|use| - 1];
      assert use == init + [r] && r in use && r !in init && forall y :: y in init ==> y in use;
      assert Distinct(init);
      UnitCount(init, dev, x, e);
      UnitAdds(init, r, dev, x, e);
    }
  }

  /** One round more is one unit more. */
  lemma UnitAdds(init: seq<int>, r: int, dev: Device, x: int, e: int)
    requires 0 <= x < dev.chiplets && 0 <= e < dev.engines
    requires 0 <= r && r !in init && forall q :: q in init ==> 0 <= q
    ensures |Units(RoundBits(init + [r], e, dev), dev, x, e)| == |Units(RoundBits(init, e, dev), dev, x, e)| + 1
  {
    var was, now := Units(RoundBits(init, e, dev), dev, x, e), Units(RoundBits(init + [r], e, dev), dev, x, e);
    var b := (r * dev.engines + e) * dev.chiplets + x;
    forall v ensures v in now <==> v in was || v == b {
      UnitStep(init, r, dev, x, e, v);
    }
    UnitStep(init, r, dev, x, e, b);
    assert now == was + {b};
  }

  lemma UnitStep(init: seq<int>, r: int, dev: Device, x: int, e: int, v: int)
    requires 0 <= x < dev.chiplets && 0 <= e < dev.engines
    requires 0 <= r && r !in init && forall q :: q in init ==> 0 <= q
    ensures var b := (r * dev.engines + e) * dev.chiplets + x;
            && (v in Units(RoundBits(init + [r], e, dev), dev, x, e) <==>
                v in Units(RoundBits(init, e, dev), dev, x, e) || v == b)
            && b !in Units(RoundBits(init, e, dev), dev, x, e)
  {
    var b := (r * dev.engines + e) * dev.chiplets + x;
    DivMod.MulMono(dev.engines, 0, r);
    DivMod.MulMono(dev.chiplets, 0, r * dev.engines + e);
    UnitIs(dev, x, e, r, v);
    RoundBitsAre(init + [r], e, dev, v);
    RoundBitsAre(init, e, dev, v);
    UnitIs(dev, x, e, r, b);
    RoundBitsAre(init, e, dev, b);
  }

  lemma {:induction false} ColumnDistinct(o: int, g: int, per: nat)
    requires 0 <= o < g
    ensures Distinct(Column(o, g, per))
    decreases per
  {
    if per > 0 {
      ColumnDistinct(o, g, per - 1);
      ColumnIs(o, g, per - 1, o + (per - 1) * g);
      SeatIs(o + (per - 1) * g, g, per - 1, o);
    }
  }

  lemma {:induction false} ColumnsCount(offs: seq<int>, g: int, per: nat)
    requires 0 < g && Distinct(offs) && forall o :: o in offs ==> 0 <= o < g
    ensures Distinct(Columns(offs, g, per)) && |Columns(offs, g, per)| == |offs| * per
  {
    if offs != [] {
      var init, o := offs[..|offs| - 1], offs[|offs| - 1];
      assert offs == init + [o] && o in offs && o !in init && forall x :: x in init ==> x in offs;
      ColumnsCount(init, g, per);
      ColumnDistinct(o, g, per);
      var before, last := Columns(init, g, per), Column(o, g, per);
      forall r | r in last ensures r !in before {
        ColumnIs(o, g, per, r);
        ColumnsAre(init, g, per, r);
      }
      DistinctConcat(before, last);
      assert (|init| + 1) * per == |init| * per + per;
    }
  }

  lemma DistinctConcat(a: seq<int>, b: seq<int>)
    requires Distinct(a) && Distinct(b) && forall r :: r in b ==> r !in a
    ensures Distinct(a + b)
  {
    forall i, j | 0 <= i < j < |a + b| ensures (a + b)[i] != (a + b)[j] {
      if i < |a| <= j { assert (a + b)[j] in b; }
    }
  }

  /** The mask is balanced: on every chiplet a job has the same number of units of engine `e`, namely every
      round when it holds all `g` of the engine's seats, `k` even parts when it holds `k` of them, and none
      when it holds none. */
  lemma Balanced(ids: seq<int>, seats: int, dev: Device, x: int, e: int)
    requires EngineLayout(ids, seats, dev) && SeatIds(ids, seats) && 0 <= dev.units
    requires 0 <= x < dev.chiplets && 0 <= e < dev.engines
    ensures var g := SeatsPerEngine(seats, dev);
            var held := |Offsets(ids, g, e)|;
            |Units(OfEngines(ids, seats, dev, Engines(ids, g)), dev, x, e)| ==
              if held == g then RoundsPerEngine(dev) else held * Per(RoundsPerEngine(dev), g)
  {
    var g, rounds := SeatsPerEngine(seats, dev), RoundsPerEngine(dev);
    var offs := Offsets(ids, g, e);
    var use := Rounds(offs, g, rounds);
    RoundsNonNegative(ids, g, rounds, e);
    OffsetsDistinct(ids, g, e);
    OffsetsRange(ids, g, e);
    if |offs| != g {
      ColumnsCount(offs, g, Per(rounds, g));
    }
    UnitCount(use, dev, x, e);
    var all := OfEngines(ids, seats, dev, Engines(ids, g));
    forall b ensures b in Units(all, dev, x, e) <==> b in Units(RoundBits(use, e, dev), dev, x, e) {
      LayoutMeaning(ids, seats, dev, b);
      RoundBitsAre(use, e, dev, b);
      if 0 <= b {
        DivMod.NonNegative(b, dev.chiplets);
        DivMod.NonNegative(b / dev.chiplets, dev.engines);
        RoundsAre(ids, g, rounds, e, b / dev.chiplets / dev.engines);
      }
    }
    assert Units(all, dev, x, e) == Units(RoundBits(use, e, dev), dev, x, e);
  }
}
