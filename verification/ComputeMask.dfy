/** Compute-unit masks (`seatCUMask`, internal/gpu/amd.go:173-248). A mask is the set of its bits; no mask
    stands for the empty string. */
module ComputeMask {
  import opened Share
  import opened SeatPicking
  import DivMod

  datatype Device = Device(units: int, chiplets: int, engines: int)

  function Between(lo: int, hi: int): set<int>
    decreases hi - lo
  {
    if hi <= lo then {} else Between(lo, hi - 1) + {hi - 1}
  }

  lemma {:induction false} InBetween(lo: int, hi: int)
    ensures forall i :: i in Between(lo, hi) <==> lo <= i < hi
    decreases hi - lo
  {
    if lo < hi {
      InBetween(lo, hi - 1);
    }
  }

  /** Whole engines are dealt to the seats. */
  predicate EngineLayout(ids: seq<int>, seats: int, dev: Device) {
    && 0 < dev.chiplets && 0 < dev.engines && dev.units % dev.chiplets == 0
    && 0 < |ids| && dev.engines <= seats && seats % dev.engines == 0
  }

  /** The offsets, within engine `e`, of the seats held. */
  function Offsets(ids: seq<int>, g: int, e: int): seq<int>
    requires 0 < g
  {
    if ids == [] then []
    else
      var s := ids[|ids| - 1];
      Offsets(ids[..|ids| - 1], g, e) + if s / g == e then [s % g] else []
  }

  /** The engines on which some seat is held. */
  function Engines(ids: seq<int>, g: int): set<int>
    requires 0 < g
  {
    if ids == [] then {} else Engines(ids[..|ids| - 1], g) + {ids[|ids| - 1] / g}
  }

  /** Every `g`-th round from `o` on, `per` of them. */
  function Column(o: int, g: int, per: nat): (c: seq<int>)
    ensures |c| == per
  {
    if per == 0 then [] else Column(o, g, per - 1) + [o + (per - 1) * g]
  }

  /** The rounds of an engine that go with some of its seats. */
  function Columns(offs: seq<int>, g: int, per: nat): seq<int> {
    if offs == [] then [] else Columns(offs[..|offs| - 1], g, per) + Column(offs[|offs| - 1], g, per)
  }

  /** All rounds for all seats of an engine, an even part of them for some. */
  function Rounds(offs: seq<int>, g: int, rounds: nat): seq<int>
    requires 0 < g
  {
    if |offs| == g then Range(0, rounds) else Columns(offs, g, Per(rounds, g))
  }

  function Per(rounds: nat, g: int): nat
    requires 0 < g
  {
    DivMod.NonNegative(rounds, g);
    rounds / g
  }

  /** The bits of the given rounds of engine `e`, one per chiplet. */
  function RoundBits(use: seq<int>, e: int, dev: Device): set<int> {
    if use == [] then {}
    else
      var local := use[|use| - 1] * dev.engines + e;
      RoundBits(use[..|use| - 1], e, dev) + Between(local * dev.chiplets, local * dev.chiplets + dev.chiplets)
  }

  /** Seats per engine, and rounds present on every engine of every chiplet. */
  function SeatsPerEngine(seats: int, dev: Device): (g: int)
    requires 0 < dev.engines <= seats && seats % dev.engines == 0
    ensures 0 < g && g * dev.engines == seats
  {
    DivMod.Compose(seats, dev.engines);
    var g := seats / dev.engines;
    assert 0 < g by { if g <= 0 { DivMod.MulMono(dev.engines, g, 0); } }
    g
  }

  function RoundsPerEngine(dev: Device): (rounds: nat)
    requires 0 < dev.chiplets && 0 < dev.engines && 0 <= dev.units
    ensures rounds * dev.chiplets * dev.engines <= dev.units < (rounds + 1) * dev.chiplets * dev.engines
  {
    DivMod.NonNegative(dev.units, dev.chiplets);
    DivMod.NonNegative(dev.units / dev.chiplets, dev.engines);
    DivMod.Twice(dev.units, dev.chiplets, dev.engines);
    dev.units / dev.chiplets / dev.engines
  }

  /** The bits of one engine. */
  function OfEngine(ids: seq<int>, seats: int, dev: Device, e: int): set<int>
    requires EngineLayout(ids, seats, dev) && 0 <= dev.units
  {
    var g := SeatsPerEngine(seats, dev);
    RoundBits(Rounds(Offsets(ids, g, e), g, RoundsPerEngine(dev)), e, dev)
  }

  function OfEngines(ids: seq<int>, seats: int, dev: Device, engines: set<int>): set<int>
    requires EngineLayout(ids, seats, dev) && 0 <= dev.units
  {
    set e, b | e in engines && b in OfEngine(ids, seats, dev, e) :: b
  }

  /** A contiguous block of units per seat. */
  function Block(i: int, seats: int, units: int): set<int>
    requires 0 < seats
  {
    Between(i * units / seats, (i + 1) * units / seats)
  }

  function Blocks(ids: seq<int>, seats: int, units: int): set<int>
    requires 0 < seats
  {
    if ids == [] then {} else Blocks(ids[..|ids| - 1], seats, units) + Block(ids[|ids| - 1], seats, units)
  }

  function Bits(ids: seq<int>, seats: int, dev: Device, n: int): set<int>
    requires 0 <= dev.units
  {
    if EngineLayout(ids, seats, dev) then OfEngines(ids, seats, dev, Engines(ids, SeatsPerEngine(seats, dev)))
    else if 0 < |ids| && 0 < seats then Blocks(ids, seats, dev.units)
    else Between(0, Max(n, 1))
  }

  /** The mask of a job that holds the given seats. */
  function Mask(ids: seq<int>, seats: int, dev: Device, n: int): Option<set<int>> {
    if dev.units <= 0 || dev.units <= n || (seats <= |ids| && 0 < seats) || Bits(ids, seats, dev, n) == {} then None
    else Some(Bits(ids, seats, dev, n))
  }

  // ---- the loops ----

  /** Computes the mask bit by bit. Seat ids are never negative; see `Cards.SlotOk`. */
  method SeatCUMask(ids: seq<int>, seats: int, dev: Device, n: int) returns (m: Option<set<int>>)
    requires forall i :: i in ids ==> 0 <= i
    ensures m == Mask(ids, seats, dev, n)
  {
    if dev.units <= 0 || dev.units <= n {
      return None;
    }
    if seats <= |ids| && 0 < seats {
      return None;
    }
    var bits: set<int>;
    if EngineLayout(ids, seats, dev) {
      bits := SetEngines(ids, seats, dev);
    } else if 0 < |ids| && 0 < seats {
      bits := SetBlocks(ids, seats, dev.units);
    } else {
      bits := Between(0, if n < 1 then 1 else n);
    }
    if bits == {} {
      return None;
    }
    return Some(bits);
  }

  method SetBlocks(ids: seq<int>, seats: int, units: int) returns (bits: set<int>)
    requires 0 < seats
    ensures bits == Blocks(ids, seats, units)
  {
    bits := {};
    var k := 0;
    while k < |ids|
      invariant 0 <= k <= |ids|
      invariant bits == Blocks(ids[..k], seats, units)
    {
      var i := ids[k];
      var lo, hi := i * units / seats, (i + 1) * units / seats;
      ghost var was := bits;
      var u := lo;
      while u < hi
        invariant lo <= u && (u <= hi || u == lo)
        invariant bits == was + Between(lo, u)
        decreases hi - u
      {
        bits := bits + {u};
        u := u + 1;
      }
      assert ids[..k + 1][..k] == ids[..k];
      k := k + 1;
    }
    assert ids[..k] == ids;
  }

  lemma SeatGrouped(ids: seq<int>, k: nat, g: int, e: int)
    requires 0 < g && k < |ids|
    ensures Engines(ids[..k + 1], g) == Engines(ids[..k], g) + {ids[k] / g}
    ensures Offsets(ids[..k + 1], g, e) == Offsets(ids[..k], g, e) + if ids[k] / g == e then [ids[k] % g] else []
  {
    assert ids[..k + 1][..k] == ids[..k];
  }

  /** The seats held, by engine. */
  method Group(ids: seq<int>, g: int) returns (held: map<int, seq<int>>)
    requires 0 < g
    ensures held.Keys == Engines(ids, g)
    ensures forall e :: e in held ==> held[e] == Offsets(ids, g, e)
  {
    held := map[];
    var k := 0;
    while k < |ids|
      invariant 0 <= k <= |ids|
      invariant held.Keys == Engines(ids[..k], g)
      invariant forall e :: e in held ==> held[e] == Offsets(ids[..k], g, e)
      invariant forall e :: e !in held ==> Offsets(ids[..k], g, e) == []
    {
      var s := ids[k];
      forall e
        ensures Engines(ids[..k + 1], g) == Engines(ids[..k], g) + {s / g}
        ensures Offsets(ids[..k + 1], g, e) == Offsets(ids[..k], g, e) + if s / g == e then [s % g] else []
      {
        SeatGrouped(ids, k, g, e);
      }
      SeatGrouped(ids, k, g, s / g);
      held := held[s / g := (if s / g in held then held[s / g] else []) + [s % g]];
      k := k + 1;
    }
    assert ids[..k] == ids;
  }

  /** The rounds an engine gives to the seats held on it. */
  method UseRounds(offs: seq<int>, g: int, rounds: nat) returns (use: seq<int>)
    requires 0 < g && forall o :: o in offs ==> 0 <= o < g
    ensures use == Rounds(offs, g, rounds)
  {
    use := [];
    if |offs| == g {
      var r := 0;
      while r < rounds
        invariant 0 <= r <= rounds && use == Range(0, r)
      {
        use := use + [r];
        r := r + 1;
      }
      return;
    }
    var per := Per(rounds, g);
    var k := 0;
    while k < |offs|
      invariant 0 <= k <= |offs|
      invariant use == Columns(offs[..k], g, per)
    {
      var o := offs[k];
      assert o in offs;
      var col := StepRounds(o, g, per);
      use := use + col;
      assert offs[..k + 1][..k] == offs[..k];
      k := k + 1;
    }
    assert offs[..k] == offs;
  }

  /** Every `g`-th round from `o` up to `per * g`. */
  method StepRounds(o: int, g: int, per: nat) returns (col: seq<int>)
    requires 0 <= o < g
    ensures col == Column(o, g, per)
  {
    col := [];
    var r := o;
    ghost var j := 0;
    while r < per * g
      invariant 0 <= j <= per && r == o + j * g
      invariant col == Column(o, g, j)
      decreases per * g - r
    {
      assert j < per by { if per <= j { DivMod.MulMono(g, per, j); } }
      col := col + [r];
      assert (j + 1) * g == j * g + g;
      r, j := r + g, j + 1;
    }
    if j < per {
      DivMod.MulMono(g, j + 1, per);
    }
  }

  method SetEngines(ids: seq<int>, seats: int, dev: Device) returns (bits: set<int>)
    requires EngineLayout(ids, seats, dev) && 0 <= dev.units
    ensures bits == OfEngines(ids, seats, dev, Engines(ids, SeatsPerEngine(seats, dev)))
  {
    var rounds := RoundsPerEngine(dev);
    var g := SeatsPerEngine(seats, dev);
    var held := Group(ids, g);
    bits := {};
    var todo := held.Keys;
    ghost var seen: set<int> := {};
    while todo != {}
      invariant todo <= held.Keys && seen == held.Keys - todo
      invariant bits == OfEngines(ids, seats, dev, seen)
    {
      var e := Any(todo);
      OffsetsRange(ids, g, e);
      var use := UseRounds(held[e], g, rounds);
      var more := SetRounds(use, e, dev);
      OneMoreEngine(ids, seats, dev, seen, e);
      bits := bits + more;
      todo, seen := todo - {e}, seen + {e};
    }
    assert seen == held.Keys;
  }

  method Any<T>(s: set<T>) returns (e: T)
    requires s != {}
    ensures e in s
  {
    e :| e in s;
  }

  lemma OneMoreEngine(ids: seq<int>, seats: int, dev: Device, seen: set<int>, e: int)
    requires EngineLayout(ids, seats, dev) && 0 <= dev.units
    ensures OfEngines(ids, seats, dev, seen + {e}) == OfEngines(ids, seats, dev, seen) + OfEngine(ids, seats, dev, e)
  {
    forall b ensures b in OfEngines(ids, seats, dev, seen + {e}) <==>
                     b in OfEngines(ids, seats, dev, seen) + OfEngine(ids, seats, dev, e)
    {
      if b in OfEngines(ids, seats, dev, seen) {
        var f :| f in seen && b in OfEngine(ids, seats, dev, f);
        assert f in seen + {e};
      }
      if b in OfEngine(ids, seats, dev, e) {
        assert e in seen + {e};
      }
    }
  }

  lemma {:induction false} OffsetsRange(ids: seq<int>, g: int, e: int)
    requires 0 < g
    ensures forall o :: o in Offsets(ids, g, e) ==> 0 <= o < g
  {
    if ids != [] {
      OffsetsRange(ids[..|ids| - 1], g, e);
    }
  }

  method SetRounds(use: seq<int>, e: int, dev: Device) returns (bits: set<int>)
    requires 0 < dev.chiplets
    ensures bits == RoundBits(use, e, dev)
  {
    bits := {};
    var k := 0;
    while k < |use|
      invariant 0 <= k <= |use|
      invariant bits == RoundBits(use[..k], e, dev)
    {
      var local := use[k] * dev.engines + e;
      ghost var was := bits;
      var x := 0;
      while x < dev.chiplets
        invariant 0 <= x <= dev.chiplets
        invariant bits == was + Between(local * dev.chiplets, local * dev.chiplets + x)
      {
        bits := bits + {local * dev.chiplets + x};
        x := x + 1;
      }
      assert use[..k + 1][..k] == use[..k];
      k := k + 1;
    }
    assert use[..k] == use;
  }
}
