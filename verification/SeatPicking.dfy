/** Which seats of a card a job gets (`pickSeats`, internal/scheduler/scheduler.go:196-239).
    `occ` holds the seats in use and `total` is the number of seats of the card. */
module SeatPicking {
  import opened Share
  import opened Lists
  import Sorting

  /** Seats of `keep` that are still free, in order, until there are `n`. */
  function Kept(occ: set<int>, total: int, n: int, keep: seq<int>, out: seq<int>): seq<int>
    decreases |keep|
  {
    if keep == [] || |out| == n then out
    else if 0 <= keep[0] < total && keep[0] !in occ && keep[0] !in out then
      Kept(occ, total, n, keep[1..], out + [keep[0]])
    else
      Kept(occ, total, n, keep[1..], out)
  }

  /** All of `need` seats from `start` on are on the card and free. */
  predicate FreeRun(occ: set<int>, total: int, start: int, need: int) {
    start + need <= total && forall i :: start <= i < start + need ==> i !in occ
  }

  /** The first run of `need` free seats at or after `start`. */
  function FirstRun(occ: set<int>, total: int, need: nat, start: int): (r: Option<int>)
    ensures r.Some? ==> start <= r.value && FreeRun(occ, total, r.value, need)
    ensures forall s :: start <= s && FreeRun(occ, total, s, need) ==> r.Some? && r.value <= s
    decreases total - start
  {
    if total < start + need then None
    else if FreeRun(occ, total, start, need) then Some(start)
    else FirstRun(occ, total, need, start + 1)
  }

  /** Consecutive seats. */
  function Range(start: int, n: nat): (r: seq<int>)
    ensures |r| == n && forall i :: 0 <= i < n ==> r[i] == start + i
  {
    seq(n, i requires 0 <= i < n => start + i)
  }

  /** Fills `out` up to `n` with free seats from `i` on, lowest first. */
  function LowestFree(occ: set<int>, total: int, n: int, i: int, out: seq<int>): seq<int>
    decreases total - i
  {
    if total <= i || n <= |out| then out
    else if i !in occ && i !in out then LowestFree(occ, total, n, i + 1, out + [i])
    else LowestFree(occ, total, n, i + 1, out)
  }

  function SortInts(s: seq<int>): seq<int> {
    Sorting.Sort(s, (a: int, b: int) => a < b)
  }

  /** The seats `pickSeats` answers. */
  function Pick(occ: set<int>, total: int, n: nat, keep: seq<int>): seq<int> {
    var kept := Kept(occ, total, n, keep, []);
    if |kept| == n then SortInts(kept)
    else if kept == [] && FirstRun(occ, total, n, 0).Some? then
      Range(FirstRun(occ, total, n, 0).value, n)
    else SortInts(LowestFree(occ, total, n, 0, kept))
  }

  ghost predicate Increasing(s: seq<int>) {
    forall i, j :: 0 <= i < j < |s| ==> s[i] < s[j]
  }

  /** Every seat of `s` is on the card and free. */
  ghost predicate AllFree(occ: set<int>, total: int, s: seq<int>) {
    forall i :: i in s ==> 0 <= i < total && i !in occ
  }

  ghost function Elems(s: seq<int>): set<int> {
    set i | i in s
  }

  lemma {:induction false} DistinctCount(s: seq<int>)
    requires Distinct(s)
    ensures |Elems(s)| == |s|
  {
    if s != [] {
      var t := s[..|s| - 1];
      DistinctCount(t);
      assert s == t + [s[|s| - 1]];
      assert Elems(s) == Elems(t) + {s[|s| - 1]};
    }
  }

  /** Seats in use and free seats make up the card. */
  lemma CoveredCount(occ: set<int>, total: nat, low: seq<int>)
    requires forall i :: i in occ ==> 0 <= i < total
    requires Distinct(low) && AllFree(occ, total, low)
    requires forall x :: 0 <= x < total ==> x in occ || x in low
    ensures |occ| + |low| == total
  {
    DistinctCount(Range(0, total));
    DistinctCount(low);
    forall x | 0 <= x < total ensures x in Range(0, total) {
      assert Range(0, total)[x] == x;
    }
    assert Elems(Range(0, total)) == occ + Elems(low);
  }

  lemma SortIntsIncreasing(s: seq<int>)
    requires Distinct(s)
    ensures Increasing(SortInts(s)) && |SortInts(s)| == |s|
    ensures Elems(SortInts(s)) == Elems(s)
    ensures forall i :: i in SortInts(s) <==> i in s
  {
    var less := (a: int, b: int) => a < b;
    var t := SortInts(s);
    Sorting.SortPermutes(s, less);
    Sorting.SortOrders(s, less);
    forall i, j | 0 <= i < j < |t| ensures t[i] < t[j] {
      if t[i] == t[j] {
        DistinctCount(s);
        assert Elems(t) == Elems(s);
        Duplicate(t, i, j);
      }
    }
  }

  /** A sequence with a repetition has fewer elements than places. */
  lemma {:induction false} Duplicate(t: seq<int>, i: nat, j: nat)
    requires i < j < |t| && t[i] == t[j]
    ensures |Elems(t)| < |t|
  {
    var u := t[..j] + t[j + 1..];
    assert Elems(u) == Elems(t) by {
      forall x | x in Elems(t) ensures x in Elems(u) {
        var k :| 0 <= k < |t| && t[k] == x;
        if k < j { assert u[k] == x; } else if k > j { assert u[k - 1] == x; } else { assert u[i] == x; }
      }
    }
    ElemsBound(u);
  }

  lemma {:induction false} ElemsBound(s: seq<int>)
    ensures |Elems(s)| <= |s|
  {
    if s != [] {
      var t := s[..|s| - 1];
      ElemsBound(t);
      assert s == t + [s[|s| - 1]];
      assert Elems(s) == Elems(t) + {s[|s| - 1]};
    }
  }

  lemma {:induction false} KeptIsFree(occ: set<int>, total: int, n: nat, keep: seq<int>, out: seq<int>)
    requires Distinct(out) && AllFree(occ, total, out) && |out| <= n
    ensures var k := Kept(occ, total, n, keep, out);
            Distinct(k) && AllFree(occ, total, k) && |out| <= |k| <= n && out <= k
    ensures forall i :: i in Kept(occ, total, n, keep, out) ==> i in out || i in keep
    decreases |keep|
  {
    if keep != [] && |out| != n {
      if 0 <= keep[0] < total && keep[0] !in occ && keep[0] !in out {
        KeptIsFree(occ, total, n, keep[1..], out + [keep[0]]);
      } else {
        KeptIsFree(occ, total, n, keep[1..], out);
      }
    }
  }

  /** With room for all of `keep`, and all of it free, all of it is kept. */
  lemma {:induction false} KeptAll(occ: set<int>, total: int, n: nat, keep: seq<int>, out: seq<int>)
    requires Distinct(out + keep) && AllFree(occ, total, keep)
    ensures var all := out + keep;
            Kept(occ, total, n, keep, out) == if |out| <= n <= |all| then all[..n] else all
    decreases |keep|
  {
    if keep == [] {
      assert out + keep == out;
    } else if |out| == n {
      assert (out + keep)[..n] == out;
    } else {
      assert (out + keep)[|out|] == keep[0];
      assert keep[0] !in out by {
        forall i | 0 <= i < |out| ensures out[i] != keep[0] {
          assert (out + keep)[i] == out[i];
        }
      }
      assert out + [keep[0]] + keep[1..] == out + keep;
      assert keep[0] in keep && forall i :: i in keep[1..] ==> i in keep;
      KeptAll(occ, total, n, keep[1..], out + [keep[0]]);
    }
  }

  /** `LowestFree` adds free seats only, and stops short of `n` only when nothing below `total` is left. */
  lemma {:induction false} LowestFreeFills(occ: set<int>, total: int, n: nat, i: int, out: seq<int>)
    requires 0 <= i && Distinct(out) && AllFree(occ, total, out) && |out| <= n
    requires forall x :: 0 <= x < i && x < total ==> x in occ || x in out
    ensures var r := LowestFree(occ, total, n, i, out);
            && Distinct(r) && AllFree(occ, total, r) && |r| <= n && out <= r
            && (|r| < n ==> forall x :: 0 <= x < total ==> x in occ || x in r)
            && (forall x, y :: 0 <= x < total && x !in occ && x !in r && y in r && y !in out ==> y < x)
    decreases total - i
  {
    if i < total && |out| < n {
      if i !in occ && i !in out {
        var grown := out + [i];
        LowestFreeFills(occ, total, n, i + 1, grown);
        var r := LowestFree(occ, total, n, i + 1, grown);
        assert grown <= r && grown[|out|] == i;
        assert i in r;
        forall x, y | 0 <= x < total && x !in occ && x !in r && y in r && y !in out ensures y < x {
          if y == i {
            if x < i { assert x in out; assert x in grown; InPrefix(grown, r, x); }
          } else {
            assert y !in grown;
          }
        }
      } else {
        LowestFreeFills(occ, total, n, i + 1, out);
      }
    }
  }

  lemma InPrefix(p: seq<int>, s: seq<int>, x: int)
    requires p <= s && x in p
    ensures x in s
  {
    var k :| 0 <= k < |p| && p[k] == x;
    assert s[k] == x;
  }

  /** When the count check passes, `Pick` delivers: exactly `n` seats, increasing, all free. */
  lemma PickDelivers(occ: set<int>, total: nat, n: nat, keep: seq<int>)
    requires forall i :: i in occ ==> 0 <= i < total
    requires |occ| + n <= total
    ensures var p := Pick(occ, total, n, keep);
            |p| == n && Increasing(p) && AllFree(occ, total, p)
  {
    var kept := Kept(occ, total, n, keep, []);
    KeptIsFree(occ, total, n, keep, []);
    if |kept| == n {
      SortIntsIncreasing(kept);
    } else if kept == [] && FirstRun(occ, total, n, 0).Some? {
    } else {
      var low := LowestFree(occ, total, n, 0, kept);
      LowestFreeFills(occ, total, n, 0, kept);
      SortIntsIncreasing(low);
      if |low| < n {
        CoveredCount(occ, total, low);
      }
    }
  }

  /** A new job gets the lowest contiguous free run if there is one, and otherwise the lowest free seats. */
  lemma PickLowest(occ: set<int>, total: nat, n: nat)
    requires 0 < n
    ensures var p := Pick(occ, total, n, []);
            forall s :: 0 <= s && FreeRun(occ, total, s, n) ==>
              |p| == n && 0 <= p[0] <= s && FreeRun(occ, total, p[0], n) && p == Range(p[0], n)
    ensures var p := Pick(occ, total, n, []);
            (forall s :: 0 <= s ==> !FreeRun(occ, total, s, n)) ==>
              forall x, y :: 0 <= x < total && x !in occ && x !in p && y in p ==> y < x
  {
    var run := FirstRun(occ, total, n, 0);
    if run.None? {
      LowestFreeFills(occ, total, n, 0, []);
      SortIntsIncreasing(LowestFree(occ, total, n, 0, []));
    } else {
      assert FreeRun(occ, total, run.value, n);
    }
  }

  /** Seats a job already holds stay with it: all of them when it grows, a part of them when it shrinks. */
  lemma PickKeeps(occ: set<int>, total: nat, n: nat, keep: seq<int>)
    requires Distinct(keep) && AllFree(occ, total, keep) && 0 < |keep|
    ensures |keep| <= n ==> Elems(keep) <= Elems(Pick(occ, total, n, keep))
    ensures n <= |keep| ==> Elems(Pick(occ, total, n, keep)) == Elems(keep[..n])
  {
    var kept := Kept(occ, total, n, keep, []);
    assert [] + keep == keep;
    KeptAll(occ, total, n, keep, []);
    KeptIsFree(occ, total, n, keep, []);
    if |kept| == n {
      SortIntsIncreasing(kept);
    } else {
      var low := LowestFree(occ, total, n, 0, kept);
      LowestFreeFills(occ, total, n, 0, kept);
      SortIntsIncreasing(low);
      forall i | i in keep ensures i in low { InPrefix(keep, low, i); }
    }
  }
}
