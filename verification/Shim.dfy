/** The memory shim's counter and table, updated in place (shim/gmux_shim.c:27-40, 110-160). Each method up to
    `Forget` is one critical section; `ShimThreads` interleaves them. */
module ShimObject {
  import opened Share
  import opened ShimTable
  import T = ShimThreads

  const NOT_FOUND: int := 3
  const OOM: int := 2

  class Shim {
    var limit: nat
    var used: nat
    const table: array<Entry>

    ghost predicate Valid()
      reads this
    {
      table.Length == MAP && used < T.U64
    }

    constructor (bytes: nat)
      ensures Valid() && fresh(table) && limit == bytes && used == 0
      ensures table[..] == T.Start(bytes).table
    {
      limit, used := bytes, 0;
      table := new Entry[MAP](i => Entry(NULL, 0));
    }

    /** Reserves bytes if they fit. */
    method Cap(size: nat) returns (ok: bool)
      requires Valid()
      modifies this`used
      ensures Valid() && (used, ok) == T.Reserve(limit, old(used), size)
    {
      if limit == 0 {
        used := (used + size) % T.U64;
        return true;
      }
      if (used + size) % T.U64 > limit {
        return false;
      }
      used := (used + size) % T.U64;
      return true;
    }

    /** Gives bytes back. */
    method Uncap(size: nat)
      requires Valid()
      modifies this`used
      ensures Valid() && used == T.Release(old(used), size)
    {
      if size > used {
        used := 0;
      } else {
        used := used - size;
      }
    }

    method Remember(p: nat, n: nat)
      requires Valid()
      modifies table
      ensures table[..] == ShimTable.Remember(old(table[..]), p, n)
    {
      ghost var t: Table := table[..];
      var i, k := Home(p), 0;
      while k < MAP
        invariant 0 <= k <= MAP && i == At(Home(p), k)
        invariant table[..] == t && FirstVacant(t, Home(p), 0) == FirstVacant(t, Home(p), k)
      {
        VacantAt(t, Home(p), k);
        if table[i].p == NULL || table[i].p == TOMB {
          table[i] := Entry(p, n);
          return;
        }
        AtNext(Home(p), k);
        i, k := (i + 1) % MAP, k + 1;
      }
    }

    method Forget(p: nat) returns (n: nat)
      requires Valid()
      modifies table
      ensures (table[..], n) == ShimTable.Forget(old(table[..]), p)
    {
      ghost var t: Table := table[..];
      n := 0;
      var i, k := Home(p), 0;
      while k < MAP && table[i].p != NULL
        invariant 0 <= k <= MAP && i == At(Home(p), k) && n == 0
        invariant table[..] == t && Find(t, p, 0) == Find(t, p, k)
      {
        FindAt(t, p, k);
        if table[i].p == p {
          assert ShimTable.Forget(t, p) == (t[i := Entry(TOMB, 0)], t[i].n);
          n := table[i].n;
          table[i] := Entry(TOMB, 0);
          return;
        }
        AtNext(Home(p), k);
        i, k := (i + 1) % MAP, k + 1;
      }
      if k < MAP {
        FindAt(t, p, k);
      }
      assert ShimTable.Forget(t, p) == (t, 0);
    }

    /** An allocation on its own, the driver answering `got` or the error `rc`, if it can be found. */
    method HookedAlloc(found: bool, size: nat, got: Option<nat>, rc: int) returns (code: int)
      requires Valid() && rc != 0
      modifies this`used, table
      ensures Valid()
      ensures !found ==> code == 3 && used == old(used) && table[..] == old(table[..])
      ensures found ==>
                var (reserved, ok) := T.Reserve(limit, old(used), size);
                && code == (if !ok then 2 else if got.Some? then 0 else rc)
                && used == (if ok && got.None? then T.Release(reserved, size) else reserved)
                && table[..] ==
                   (if ok && got.Some? then ShimTable.Remember(old(table[..]), got.value, size) else old(table[..]))
    {
      if !found {
        return NOT_FOUND;
      }
      var ok := Cap(size);
      if !ok {
        return OOM;
      }
      if got.None? {
        Uncap(size);
        return rc;
      }
      Remember(got.value, size);
      return 0;
    }

    /** A free on its own; the driver answers `rc`. */
    method HookedFree(found: bool, p: nat, rc: int) returns (code: int)
      requires Valid()
      modifies this`used, table
      ensures Valid()
      ensures !found ==> code == 3 && used == old(used) && table[..] == old(table[..])
      ensures found ==>
                var (t, n) := ShimTable.Forget(old(table[..]), p);
                code == rc && table[..] == t && used == T.Release(old(used), n)
    {
      if !found {
        return NOT_FOUND;
      }
      var n := Forget(p);
      Uncap(n);
      return rc;
    }
  }

  /** A free finds and undoes the allocation it belongs to. */
  lemma FreeUndoesAlloc(t: Table, p: nat, size: nat)
    requires Sound(t) && Real(p) && p !in Contents(t) && |Contents(t)| < MAP
    ensures var (after, n) := ShimTable.Forget(ShimTable.Remember(t, p, size), p);
            Sound(after) && Contents(after) == Contents(t) && n == size
  {
    RoomToRemember(t, Home(p));
    RememberAdds(t, p, size);
    ForgetRemoves(ShimTable.Remember(t, p, size), p);
    AddRemove(Contents(t), p, size);
  }

  lemma AddRemove(m: map<nat, nat>, p: nat, n: nat)
    requires p !in m
    ensures m[p := n] - {p} == m && m[p := n][p] == n
  {
  }
}
