/** The shape of the preemption search, apart from what it searches: jobs are taken off a ranked pool until
    the request fits, and then every one that turned out not to be needed is put back. `fits(w)` says
    whether the request fits with the jobs `w` gone. */
module Greedy {
  import opened Share
  import opened Lists

  ghost function Set<T(!new)>(ids: seq<T>): set<T> {
    set id | id in ids
  }

  /** Taking more jobs off never hurts. */
  ghost predicate Monotone<T(!new)>(fits: set<T> -> bool) {
    forall a, b :: a <= b && fits(a) ==> fits(b)
  }

  /** The least `k` from `j` on such that taking the first `k` off makes room. */
  ghost function Enough<T(!new)>(fits: set<T> -> bool, pool: seq<T>, j: nat): (k: Option<nat>)
    ensures k.Some? ==> j <= k.value <= |pool| && fits(Set(pool[..k.value]))
    ensures k.Some? && j < k.value ==> !fits(Set(pool[..k.value - 1]))
    ensures k.None? && j <= |pool| ==> !fits(Set(pool))
    decreases |pool| - j
  {
    assert pool[..|pool|] == pool;
    if |pool| < j then None
    else if fits(Set(pool[..j])) then Some(j)
    else Enough(fits, pool, j + 1)
  }

  /** Drops, in order, every chosen job the request fits without. */
  ghost function Prune<T(!new)>(fits: set<T> -> bool, chosen: seq<T>, ignore: set<T>): seq<T>
    decreases |chosen|
  {
    if chosen == [] then []
    else if fits(ignore - {chosen[0]}) then Prune(fits, chosen[1..], ignore - {chosen[0]})
    else [chosen[0]] + Prune(fits, chosen[1..], ignore)
  }

  /** Where a pruning loop is: what is still ignored is what was found needed and what is not yet tried. */
  ghost predicate Pruning<T(!new)>(needed: seq<T>, ignore: set<T>, rest: seq<T>) {
    Distinct(rest) && ignore == Set(needed) + Set(rest) && Set(needed) !! Set(rest)
  }

  lemma PruneStep<T(!new)>(fits: set<T> -> bool, needed: seq<T>, ignore: set<T>, rest: seq<T>)
    requires rest != [] && Pruning(needed, ignore, rest)
    ensures var id := rest[0];
            && ignore - {id} + {id} == ignore
            && Pruning(needed, ignore - {id}, rest[1..])
            && Pruning(needed + [id], ignore, rest[1..])
            && needed + Prune(fits, rest, ignore) ==
               if fits(ignore - {id}) then needed + Prune(fits, rest[1..], ignore - {id})
               else needed + [id] + Prune(fits, rest[1..], ignore)
  {
    PruneSets(needed, ignore, rest);
  }

  lemma PruneSets<T(!new)>(needed: seq<T>, ignore: set<T>, rest: seq<T>)
    requires rest != [] && Pruning(needed, ignore, rest)
    ensures var id := rest[0];
            && ignore - {id} + {id} == ignore
            && Pruning(needed, ignore - {id}, rest[1..])
            && Pruning(needed + [id], ignore, rest[1..])
  {
    assert Set(rest) == {rest[0]} + Set(rest[1..]) && rest[0] !in Set(rest[1..]);
    assert Set(needed + [rest[0]]) == Set(needed) + {rest[0]};
  }

  /** Where a search loop is: the first `k` of the pool are chosen, and none of the shorter choices made room. */
  ghost predicate Searching<T(!new)>(fits: set<T> -> bool, pool: seq<T>, k: nat, chosen: seq<T>, ignore: set<T>) {
    k <= |pool| && chosen == pool[..k] && ignore == Set(chosen) && Enough(fits, pool, 1) == Enough(fits, pool, k + 1)
  }

  lemma SearchStep<T(!new)>(fits: set<T> -> bool, pool: seq<T>, k: nat, chosen: seq<T>, ignore: set<T>)
    requires k < |pool| && Searching(fits, pool, k, chosen, ignore)
    ensures var (more, all) := (chosen + [pool[k]], ignore + {pool[k]});
            && more == pool[..k + 1] && all == Set(more)
            && (fits(all) ==> Enough(fits, pool, 1) == Some(k + 1))
            && (!fits(all) ==> Searching(fits, pool, k + 1, more, all))
  {
    assert chosen + [pool[k]] == pool[..k + 1];
    assert Set(pool[..k + 1]) == Set(pool[..k]) + {pool[k]};
  }

  ghost function Choose<T(!new)>(fits: set<T> -> bool, pool: seq<T>): Option<seq<T>> {
    var k := Enough(fits, pool, 1);
    if k.None? then None else Some(Prune(fits, pool[..k.value], Set(pool[..k.value])))
  }

  /** Pruning keeps room, keeps only chosen jobs, and leaves none that could be spared. */
  lemma {:induction false} PruneMinimal<T(!new)>(fits: set<T> -> bool, chosen: seq<T>, ignore: set<T>)
    requires Monotone(fits) && Distinct(chosen) && Set(chosen) <= ignore && fits(ignore)
    ensures var kept := Prune(fits, chosen, ignore);
            var last := ignore - Set(chosen) + Set(kept);
            && Set(kept) <= Set(chosen) && Distinct(kept)
            && fits(last)
            && forall v :: v in kept ==> !fits(last - {v})
    decreases |chosen|
  {
    if chosen == [] {
      assert ignore - Set(chosen) + Set([]) == ignore;
    } else {
      var id, rest := chosen[0], chosen[1..];
      assert Set(chosen) == {id} + Set(rest) && id !in Set(rest);
      if fits(ignore - {id}) {
        PruneMinimal(fits, rest, ignore - {id});
        assert ignore - {id} - Set(rest) == ignore - Set(chosen);
      } else {
        var more := Prune(fits, rest, ignore);
        PruneMinimal(fits, rest, ignore);
        assert Set([id] + more) == {id} + Set(more);
        var last := ignore - Set(chosen) + Set([id] + more);
        assert ignore - Set(rest) + Set(more) == last;
        assert last - {id} <= ignore - {id};
      }
    }
  }

  /** The last chosen job survives pruning when the others alone do not make room. */
  lemma {:induction false} PruneKeepsLast<T(!new)>(fits: set<T> -> bool, chosen: seq<T>, ignore: set<T>)
    requires Monotone(fits) && chosen != [] && !fits(ignore - {chosen[|chosen| - 1]})
    ensures chosen[|chosen| - 1] in Prune(fits, chosen, ignore)
    decreases |chosen|
  {
    var last := chosen[|chosen| - 1];
    if |chosen| > 1 {
      assert chosen[1..][|chosen| - 2] == last;
      if fits(ignore - {chosen[0]}) {
        assert ignore - {chosen[0]} - {last} <= ignore - {last};
        PruneKeepsLast(fits, chosen[1..], ignore - {chosen[0]});
      } else {
        PruneKeepsLast(fits, chosen[1..], ignore);
      }
    }
  }

  /** A choice is found exactly when some part of the pool makes room. */
  lemma ChooseComplete<T(!new)>(fits: set<T> -> bool, pool: seq<T>)
    requires Monotone(fits) && !fits({})
    ensures Choose(fits, pool).Some? <==> exists w :: w <= Set(pool) && fits(w)
  {
    var k := Enough(fits, pool, 1);
    if k.Some? {
      assert Set(pool[..k.value]) <= Set(pool);
    }
    if w :| w <= Set(pool) && fits(w) {
      assert fits(Set(pool));
    }
  }

  /** The choice makes room, and sparing any one of its members does not. */
  lemma ChooseMinimal<T(!new)>(fits: set<T> -> bool, pool: seq<T>)
    requires Monotone(fits) && Distinct(pool) && Choose(fits, pool).Some?
    ensures var v := Choose(fits, pool).value;
            && Set(v) <= Set(pool) && Distinct(v) && fits(Set(v))
            && forall id :: id in v ==> !fits(Set(v) - {id})
  {
    var chosen := pool[..Enough(fits, pool, 1).value];
    assert Set(chosen) <= Set(pool);
    PruneMinimal(fits, chosen, Set(chosen));
    assert Set(chosen) - Set(chosen) + Set(Choose(fits, pool).value) == Set(Choose(fits, pool).value);
  }

  /** The pool goes from the cheapest job to the costliest. */
  ghost predicate Ascending<T(!new)>(pool: seq<T>, cheaper: (T, T) -> bool) {
    forall i, j :: 0 <= i <= j < |pool| ==> !cheaper(pool[j], pool[i]) && (i < j ==> cheaper(pool[i], pool[j]))
  }

  /** The costliest member of the choice cannot be spared, and every part of the pool that makes room has a
      member at least as costly. */
  lemma ChooseMinimax<T(!new)>(fits: set<T> -> bool, pool: seq<T>, cheaper: (T, T) -> bool) returns (top: T)
    requires Monotone(fits) && Distinct(pool) && Ascending(pool, cheaper)
    requires !fits({}) && Choose(fits, pool).Some?
    ensures top in Choose(fits, pool).value
    ensures forall id :: id in Choose(fits, pool).value && id != top ==> cheaper(id, top)
    ensures forall w :: w <= Set(pool) && fits(w) ==> exists id :: id in w && !cheaper(id, top)
  {
    var k := Enough(fits, pool, 1).value;
    var m := k - 1;
    top := pool[m];
    var chosen, before := pool[..k], Set(pool[..m]);
    assert chosen == pool[..m] + [top];
    assert Set(chosen) - {top} == before;
    assert !fits(before) by {
      if m == 0 { assert before == {}; }
    }
    PruneKeepsLast(fits, chosen, Set(chosen));
    PruneMinimal(fits, chosen, Set(chosen));
    forall id | id in Choose(fits, pool).value && id != top ensures cheaper(id, top) {
      assert id in Set(chosen);
      var i :| 0 <= i < k && chosen[i] == id;
      assert pool[i] == id;
    }
    forall w | w <= Set(pool) && fits(w) ensures exists id :: id in w && !cheaper(id, top) {
      if forall id :: id in w ==> cheaper(id, top) {
        forall id | id in w ensures id in before {
          var i :| 0 <= i < |pool| && pool[i] == id;
          assert i < m;
          assert pool[..m][i] == id;
        }
      }
    }
  }
}
