/** The scheduler object (internal/scheduler/scheduler.go): the loops that carry out the calls of
    `SchedulerModel` on the fields it updates in place. */
module SchedulerObject {
  import opened Share
  import opened SeatPicking
  import opened Cards
  import opened Fitting
  import opened Preemption
  import M = SchedulerModel
  import Greedy
  import Lists
  import Sorting

  class Scheduler {
    var cards: seq<Card>
    var running: Running
    var queue: seq<Request>
    var next: nat

    ghost function State(): M.Sched
      reads this
    {
      M.Sched(cards, running, queue, next)
    }

    ghost predicate Valid()
      reads this
    {
      M.Valid(State())
    }

    constructor (cs: seq<Card>)
      ensures State() == M.New(cs)
    {
      var out: seq<Card> := [];
      var i := 0;
      while i < |cs|
        invariant 0 <= i == |out| <= |cs|
        invariant forall k :: 0 <= k < i ==> out[k] == M.Seated(cs[k])
      {
        var c := cs[i];
        if c.seats < 1 {
          c := c.(seats := DEFAULT_SEATS);
        }
        out := out + [c];
        i := i + 1;
      }
      cards, running, queue, next := out, map[], [], 0;
    }

    method SetDown(index: int, down: bool) returns (res: Result<()>)
      modifies this`cards
      ensures (State(), res) == M.SetDown(old(State()), index, down)
    {
      var i := 0;
      while i < |cards|
        invariant 0 <= i <= |cards| && cards == old(cards)
        invariant forall k :: 0 <= k < i ==> cards[k].index != index
      {
        if cards[i].index == index {
          M.MarkDownAt(cards, index, down, i);
          cards := cards[i := cards[i].(down := down)];
          return Ok(());
        }
        i := i + 1;
      }
      M.MarkDownAt(cards, index, down, i);
      return Err(NoCard);
    }

    /** The card with an index, if there is one. */
    method CardAt(index: int) returns (c: Option<Card>)
      ensures c.Some? <==> HasCard(cards, index)
      ensures c.Some? ==> c.value == CardOf(cards, index)
    {
      var i := 0;
      while i < |cards|
        invariant 0 <= i <= |cards|
        invariant forall k :: 0 <= k < i ==> cards[k].index != index
      {
        if cards[i].index == index {
          CardOfFirst(cards, i);
          return Some(cards[i]);
        }
        i := i + 1;
      }
      return None;
    }

    /** Seats and memory in use on a card by the jobs not ignored. */
    method Usage(card: int, ignore: set<string>) returns (seats: int, mem: int)
      ensures seats == UsedSeats(running - ignore, card)
      ensures mem == UsedMem(running - ignore, card)
    {
      seats, mem := 0, 0;
      var todo := running.Keys;
      ghost var rest := running - ignore;
      while todo != {}
        invariant todo <= running.Keys && rest.Keys == todo - ignore && Within(rest, running)
        invariant seats + UsedSeats(rest, card) == UsedSeats(running - ignore, card)
        invariant mem + UsedMem(rest, card) == UsedMem(running - ignore, card)
      {
        var id :| id in todo;
        todo := todo - {id};
        if id !in ignore {
          var slots := running[id].slots;
          var s, m := SlotUsage(slots, card);
          seats, mem := seats + s, mem + m;
          UsageRemove(rest, id, card);
          rest := rest - {id};
        }
      }
      assert SeatsOf(rest, card) == map[] && MemOf(rest, card) == map[];
    }

    static method SlotUsage(slots: seq<Slot>, card: int) returns (seats: int, mem: int)
      ensures seats == SeatsOn(slots, card) && mem == MemOn(slots, card)
    {
      seats, mem := 0, 0;
      var k := 0;
      while k < |slots|
        invariant 0 <= k <= |slots|
        invariant seats == SeatsOn(slots[..k], card) && mem == MemOn(slots[..k], card)
      {
        assert slots[..k + 1][..k] == slots[..k];
        if slots[k].card == card {
          seats := seats + slots[k].seats;
          mem := mem + slots[k].memMiB;
        }
        k := k + 1;
      }
      assert slots[..k] == slots;
    }

    /** Marks the seats in use on a card by the jobs not ignored. */
    method MarkOccupied(c: Card, ignore: set<string>) returns (used: array<bool>)
      requires 0 <= c.seats
      ensures fresh(used) && used.Length == c.seats
      ensures forall i :: 0 <= i < c.seats ==> (used[i] <==> i in Occupied(running - ignore, c.index))
    {
      used := new bool[c.seats](i => false);
      var todo := running.Keys;
      ghost var rest, seen: set<int> := running - ignore, {};
      while todo != {}
        invariant todo <= running.Keys && rest.Keys == todo - ignore && Within(rest, running)
        invariant seen + Occupied(rest, c.index) == Occupied(running - ignore, c.index)
        invariant forall i :: 0 <= i < c.seats ==> (used[i] <==> i in seen)
      {
        var id :| id in todo;
        todo := todo - {id};
        if id !in ignore {
          MarkSlots(used, running[id].slots, c.index, seen);
          UsageRemove(rest, id, c.index);
          seen := seen + HeldOn(running[id].slots, c.index);
          rest := rest - {id};
        }
      }
      assert Occupied(rest, c.index) == {};
    }

    static method MarkSlots(used: array<bool>, slots: seq<Slot>, card: int, ghost seen: set<int>)
      requires forall i :: 0 <= i < used.Length ==> (used[i] <==> i in seen)
      modifies used
      ensures forall i :: 0 <= i < used.Length ==> (used[i] <==> i in seen + HeldOn(slots, card))
    {
      var k := 0;
      while k < |slots|
        invariant 0 <= k <= |slots|
        invariant forall i :: 0 <= i < used.Length ==> (used[i] <==> i in seen + HeldOn(slots[..k], card))
      {
        assert slots[..k + 1][..k] == slots[..k];
        if slots[k].card == card {
          var ids := slots[k].seatIDs;
          var j := 0;
          while j < |ids|
            invariant 0 <= j <= |ids|
            invariant forall i :: 0 <= i < used.Length ==>
                        (used[i] <==> i in seen + HeldOn(slots[..k], card) || i in ids[..j])
          {
            if 0 <= ids[j] < used.Length {
              used[ids[j]] := true;
            }
            j := j + 1;
          }
          assert ids[..j] == ids;
        }
        k := k + 1;
      }
      assert slots[..k] == slots;
    }

    /** Chooses seats for a job; see `SeatPicking.PickDelivers` for when there are enough. */
    method PickSeats(c: Card, n: nat, ignore: set<string>, keep: seq<int>) returns (out: seq<int>)
      requires 0 <= c.seats
      ensures out == Pick(Occupied(running - ignore, c.index), c.seats, n, keep)
    {
      ghost var occ := Occupied(running - ignore, c.index);
      var used := MarkOccupied(c, ignore);
      out := KeepSeats(used, occ, n, keep);
      if |out| == n {
        return SortInts(out);
      }
      if |out| == 0 {
        var start := FindRun(used, occ, n);
        if start.Some? {
          out := TakeRun(start.value, n);
          return;
        }
      }
      out := FillUp(used, occ, n, out);
      return SortInts(out);
    }

    /** Takes the seats of `keep` that are free, up to `n`. */
    static method KeepSeats(used: array<bool>, ghost occ: set<int>, n: nat, keep: seq<int>) returns (out: seq<int>)
      requires forall i :: 0 <= i < used.Length ==> (used[i] <==> i in occ)
      modifies used
      ensures out == Kept(occ, used.Length, n, keep, [])
      ensures forall i :: 0 <= i < used.Length ==> (used[i] <==> i in occ || i in out)
    {
      out := [];
      var k := 0;
      while k < |keep| && |out| != n
        invariant 0 <= k <= |keep|
        invariant Kept(occ, used.Length, n, keep, []) == Kept(occ, used.Length, n, keep[k..], out)
        invariant forall i :: 0 <= i < used.Length ==> (used[i] <==> i in occ || i in out)
      {
        var i := keep[k];
        if 0 <= i < used.Length && !used[i] {
          out := out + [i];
          used[i] := true;
        }
        k := k + 1;
      }
    }

    /** Where the first run of `n` free seats starts, if there is one. */
    static method FindRun(used: array<bool>, ghost occ: set<int>, n: nat) returns (at: Option<int>)
      requires forall i :: 0 <= i < used.Length ==> (used[i] <==> i in occ)
      ensures at == FirstRun(occ, used.Length, n, 0)
    {
      var start := 0;
      while start + n <= used.Length
        invariant 0 <= start
        invariant FirstRun(occ, used.Length, n, 0) == FirstRun(occ, used.Length, n, start)
        decreases used.Length - start
      {
        var run, i := true, start;
        while i < start + n && run
          invariant start <= i <= start + n
          invariant run ==> forall j :: start <= j < i ==> j !in occ
          invariant !run ==> !FreeRun(occ, used.Length, start, n)
          decreases start + n - i, run
        {
          if used[i] {
            run := false;
          } else {
            i := i + 1;
          }
        }
        if run {
          return Some(start);
        }
        start := start + 1;
      }
      return None;
    }

    static method TakeRun(start: int, n: nat) returns (out: seq<int>)
      ensures out == Range(start, n)
    {
      out := [];
      var i := start;
      while i < start + n
        invariant start <= i <= start + n
        invariant out == Range(start, i - start)
      {
        out := out + [i];
        i := i + 1;
      }
    }

    /** Fills up with the lowest free seats. */
    static method FillUp(used: array<bool>, ghost occ: set<int>, n: nat, kept: seq<int>) returns (out: seq<int>)
      requires forall j :: 0 <= j < used.Length ==> (used[j] <==> j in occ || j in kept)
      modifies used
      ensures out == LowestFree(occ, used.Length, n, 0, kept)
    {
      out := kept;
      var i := 0;
      while i < used.Length && |out| < n
        invariant 0 <= i <= used.Length
        invariant LowestFree(occ, used.Length, n, 0, kept) == LowestFree(occ, used.Length, n, i, out)
        invariant forall j :: 0 <= j < used.Length ==> (used[j] <==> j in occ || j in out)
      {
        if !used[i] {
          out := out + [i];
          used[i] := true;
        }
        i := i + 1;
      }
    }

    method SlotFor(r: Request, c: Card, seats: int, mem: int, ignore: set<string>, keep: seq<int>) returns (sl: Slot)
      requires 0 <= seats && 1 <= c.seats
      ensures sl == MakeSlot(running - ignore, r, c, seats, mem, keep)
    {
      var pct := ComputePercent(seats, c.seats);
      if r.burst {
        pct := 100;
      }
      var ids := PickSeats(c, seats, ignore, keep);
      return Slot(c.index, seats, Granted(seats, c.seats), mem, pct, ids);
    }

    /** Cards for a request, with some jobs ignored. */
    method FindFit(r: Request, ignore: set<string>) returns (f: Result<seq<Slot>>)
      ensures f == Fit(cards, running - ignore, r)
    {
      ghost var others := running - ignore;
      var want := r.gpus;
      if want < 1 {
        want := 1;
      }
      var cands: seq<Cand> := [];
      var lastErr: Option<Error> := None;
      var i := 0;
      while i < |cards|
        invariant 0 <= i <= |cards|
        invariant cands == Cands(cards[..i], others, r)
        invariant lastErr == LastError(cards[..i], r)
      {
        var c := cards[i];
        assert cards[..i + 1][..i] == cards[..i];
        if !c.down {
          match Need(r, c)
          case Err(e) => lastErr := Some(e);
          case Ok((seats, mem)) =>
            var usedS, usedM := Usage(c.index, ignore);
            if usedS + seats <= c.seats && usedM + mem <= c.memMiB {
              cands := cands + [Cand(c, seats, mem, c.seats - usedS - seats)];
            }
        }
        i := i + 1;
      }
      assert cards[..i] == cards;
      if |cands| < want {
        if lastErr.Some? && |cands| == 0 {
          return Err(lastErr.value);
        }
        return Err(NoFit);
      }
      var sorted := Sorting.Sort(cands, Tighter);
      assert sorted == Sorted(cards, others, r);
      var out: seq<Slot> := [];
      i := 0;
      while i < want
        invariant 0 <= i == |out| <= want <= |sorted|
        invariant out == MakeSlots(others, r, sorted[..i])
      {
        var cd := sorted[i];
        assert cd in sorted;
        var sl := SlotFor(r, cd.card, cd.seats, cd.mem, ignore, []);
        out := out + [sl];
        i := i + 1;
      }
      return Ok(out);
    }

    /** Jobs to push off for a request and the slots that opens, if pushing off can make room. */
    method FindVictims(r: Request) returns (v: Option<(seq<string>, seq<Slot>)>)
      requires Valid()
      ensures v.Some? <==> Victims(cards, running, r).Some?
      ensures v.Some? ==> v.value.0 == Victims(cards, running, r).value
      ensures v.Some? ==> Fit(cards, running - Greedy.Set(v.value.0), r) == Ok(v.value.1)
    {
      var pool := EligiblePool(r);
      pool := Sorting.Sort(pool, Cheaper);
      ghost var names, fits := Pool(running, r), Without(cards, running, r);
      var ignore: set<string> := {};
      var chosen: seq<string> := [];
      var k := 0;
      while k < |pool|
        invariant 0 <= k <= |pool| == |names|
        invariant Greedy.Searching(fits, names, k, chosen, ignore)
      {
        Greedy.SearchStep(fits, names, k, chosen, ignore);
        ignore := ignore + {pool[k].req.id};
        chosen := chosen + [pool[k].req.id];
        k := k + 1;
        var fit := FitsWithout(r, ignore);
        if fit {
          v := Spare(r, chosen, ignore, k);
          return;
        }
      }
      return None;
    }

    method FitsWithout(r: Request, ignore: set<string>) returns (ok: bool)
      ensures ok == Without(cards, running, r)(ignore)
    {
      var f := FindFit(r, ignore);
      return f.Ok?;
    }

    /** The end of the search: the first `k` of the pool make room, and some of them may be spared. */
    method Spare(r: Request, chosen: seq<string>, start: set<string>, ghost k: nat)
      returns (v: Option<(seq<string>, seq<Slot>)>)
      requires Valid()
      requires Greedy.Enough(Without(cards, running, r), Pool(running, r), 1) == Some(k)
      requires chosen == Pool(running, r)[..k] && start == Greedy.Set(chosen)
      ensures v.Some? && Victims(cards, running, r) == Some(v.value.0)
      ensures Fit(cards, running - Greedy.Set(v.value.0), r) == Ok(v.value.1)
    {
      PoolIs(running, r);
      var needed, ignore := PruneChosen(r, chosen, start);
      VictimsMinimal(cards, running, r);
      var slots := FindFit(r, ignore);
      return Some((needed, slots.value));
    }

    /** Drops chosen jobs that turned out not to be needed. */
    method PruneChosen(r: Request, chosen: seq<string>, start: set<string>)
      returns (needed: seq<string>, ignore: set<string>)
      requires Lists.Distinct(chosen) && start == Greedy.Set(chosen)
      ensures needed == Greedy.Prune(Without(cards, running, r), chosen, start)
      ensures ignore == Greedy.Set(needed)
    {
      ghost var fits := Without(cards, running, r);
      ignore := start;
      needed := [];
      var k := 0;
      while k < |chosen|
        invariant 0 <= k <= |chosen|
        invariant Greedy.Pruning(needed, ignore, chosen[k..])
        invariant Greedy.Prune(fits, chosen, start) == needed + Greedy.Prune(fits, chosen[k..], ignore)
      {
        var id := chosen[k];
        Greedy.PruneStep(fits, needed, ignore, chosen[k..]);
        assert chosen[k..][1..] == chosen[k + 1..];
        ignore := ignore - {id};
        var fit := FitsWithout(r, ignore);
        if !fit {
          ignore := ignore + {id};
          needed := needed + [id];
        }
        k := k + 1;
      }
    }

    /** Lists the jobs that may be pushed off, in no particular order. */
    method EligiblePool(r: Request) returns (pool: seq<Placed>)
      requires Valid()
      ensures PoolJobs(running, r) == Sorting.Sort(pool, Cheaper)
    {
      pool := [];
      var todo := running.Keys;
      ghost var seen: Running := map[];
      while todo != {}
        invariant todo <= running.Keys && seen.Keys == running.Keys - todo && Within(seen, running)
        invariant multiset(pool) == multiset(EligibleJobs(seen, r))
      {
        var id :| id in todo;
        var p := running[id];
        todo := todo - {id};
        EligibleStep(seen, id, p, r);
        if p.req.preemptible && p.req.priority < r.priority {
          pool := pool + [p];
        }
        seen := seen[id := p];
      }
      assert seen == running;
      PoolUnique(running, r, pool);
    }

    /** Decides what happens to a new job. */
    method Admit(r: Request) returns (res: Result<Decision>)
      requires Valid()
      modifies this`running, this`queue, this`next
      ensures (State(), res) == M.Admit(old(State()), r)
    {
      var bad := M.Validate(r);
      if bad.Some? {
        return Err(bad.value);
      }
      if r.id in running {
        return Err(AlreadyRunning);
      }
      if |cards| < Max(r.gpus, 1) {
        return Err(TooManyCards);
      }
      var f, preempt := FindRoom(r);
      match f
      case Err(e) =>
        if e == NoFit && r.wait {
          queue := queue + [r];
          return Ok(Decision(None, [], true));
        }
        return Err(e);
      case Ok(slots) =>
        DropAll(preempt);
        next := next + 1;
        running := running[r.id := Placed(r, slots, next)];
        return Ok(Decision(Some(Placement(r.id, slots)), preempt, false));
    }

    /** Slots for a new job and the jobs to push off for them, if any. */
    method FindRoom(r: Request) returns (f: Result<seq<Slot>>, preempt: seq<string>)
      requires Valid()
      ensures (f, preempt) == M.Room(cards, running, r)
    {
      assert running - {} == running;
      preempt := [];
      f := FindFit(r, {});
      if f == Err(NoFit) {
        var v := FindVictims(r);
        if v.Some? {
          preempt, f := v.value.0, Ok(v.value.1);
        }
      }
    }

    method DropAll(ids: seq<string>)
      modifies this`running
      ensures running == old(running) - Greedy.Set(ids)
    {
      var i := 0;
      while i < |ids|
        invariant 0 <= i <= |ids|
        invariant running == old(running) - Greedy.Set(ids[..i])
      {
        running := running - {ids[i]};
        assert Greedy.Set(ids[..i + 1]) == Greedy.Set(ids[..i]) + {ids[i]};
        i := i + 1;
      }
      assert ids[..i] == ids;
    }

    method Evict(id: string)
      modifies this`running
      ensures State() == M.Evict(old(State()), id)
    {
      running := running - {id};
    }

    /** Frees a job's seats and starts the queued jobs that now fit. */
    method Release(id: string) returns (started: seq<Decision>)
      modifies this`running, this`queue, this`next
      ensures (State(), started) == M.Release(old(State()), id)
    {
      running := running - {id};
      started := Drain();
    }

    /** Starts a waiting job if it fits. */
    method TryStart(r: Request) returns (dec: Option<Decision>)
      modifies this`running, this`next
      ensures var f := Fit(cards, old(running), r);
              && (dec.Some? <==> f.Ok?)
              && (f.Ok? ==> dec == Some(M.Started(r, f.value, [])) && next == old(next) + 1
                            && running == old(running)[r.id := Placed(r, f.value, old(next) + 1)])
              && (f.Err? ==> running == old(running) && next == old(next))
    {
      assert running - {} == running;
      var f := FindFit(r, {});
      if f.Err? {
        return None;
      }
      next := next + 1;
      running := running[r.id := Placed(r, f.value, next)];
      return Some(Decision(Some(Placement(r.id, f.value)), [], false));
    }

    method Drain() returns (started: seq<Decision>)
      modifies this`running, this`queue, this`next
      ensures (State(), started) == M.Drain(old(State()))
    {
      var waiting := Sorting.Sort(queue, M.Sooner);
      var rest;
      started, rest := StartFrom(waiting);
      queue := rest;
    }

    /** Tries the waiting jobs in turn. */
    method StartFrom(waiting: seq<Request>) returns (started: seq<Decision>, rest: seq<Request>)
      modifies this`running, this`next
      ensures M.Drained(running, next, started, rest) == M.DrainFrom(cards, old(running), old(next), waiting)
    {
      ghost var all, todo := M.DrainFrom(cards, running, next, waiting), waiting;
      started, rest := [], [];
      var i := 0;
      while i < |waiting|
        invariant 0 <= i <= |waiting| && todo == waiting[i..]
        invariant all == M.After(started, rest, M.DrainFrom(cards, running, next, todo))
      {
        ghost var was, n := running, next;
        var dec := TryStart(waiting[i]);
        if dec.None? {
          M.DrainSkips(cards, was, n, todo, started, rest);
          rest := rest + [waiting[i]];
        } else {
          M.DrainStarts(cards, was, n, todo, started, rest, dec.value, running);
          started := started + [dec.value];
        }
        todo := todo[1..];
        i := i + 1;
      }
      M.DrainEnds(cards, running, next, started, rest);
      assert todo == [];
    }

    /** Puts a pushed-off job back at the front of its priority. */
    method Requeue(r: Request)
      modifies this`queue
      ensures State() == M.Requeue(old(State()), r)
    {
      queue := [r.(wait := true)] + queue;
    }

    method Cancel(id: string) returns (found: bool)
      modifies this`queue
      ensures (State(), found) == M.Cancel(old(State()), id)
    {
      var i := 0;
      while i < |queue|
        invariant 0 <= i <= |queue| && queue == old(queue)
        invariant forall k :: 0 <= k < i ==> queue[k].id != id
      {
        if queue[i].id == id {
          queue := queue[..i] + queue[i + 1..];
          return true;
        }
        i := i + 1;
      }
      return false;
    }

    /** Changes a running job's share on the cards it holds. */
    method Resize(id: string, fraction: real, memMiB: int) returns (res: Result<Placement>)
      requires Valid()
      modifies this`running
      ensures (State(), res) == M.Resize(old(State()), id, fraction, memMiB)
    {
      if id !in running {
        return Err(NotRunning);
      }
      var p := running[id];
      var r := p.req.(share := fraction);
      if memMiB > 0 {
        r := r.(memMiB := memMiB);
      }
      var bad := M.Validate(r);
      if bad.Some? {
        return Err(bad.value);
      }
      var f := ResizedSlots(r, p.slots, id);
      match f
      case Err(e) => return Err(e);
      case Ok(slots) =>
        running := running[id := Placed(r, slots, p.order)];
        return Ok(Placement(id, slots));
    }

    method ResizedSlots(r: Request, was: seq<Slot>, id: string) returns (f: Result<seq<Slot>>)
      ensures f == M.ResizeSlots(cards, running - {id}, r, was)
    {
      ghost var others := running - {id};
      var slots: seq<Slot> := [];
      var i := 0;
      while i < |was|
        invariant 0 <= i <= |was|
        invariant M.ResizeSlots(cards, others, r, was[..i]) == Ok(slots)
      {
        assert was[..i + 1][..i] == was[..i];
        var c := CardAt(was[i].card);
        if c.None? {
          M.ResizeFails(cards, others, r, was, i + 1);
          return Err(NoCard);
        }
        var need := Need(r, c.value);
        if need.Err? {
          M.ResizeFails(cards, others, r, was, i + 1);
          return Err(need.error);
        }
        var (seats, mem) := need.value;
        var usedS, usedM := Usage(c.value.index, {id});
        if c.value.seats < usedS + seats || c.value.memMiB < usedM + mem {
          M.ResizeFails(cards, others, r, was, i + 1);
          return Err(NoRoom(c.value.index));
        }
        var sl := SlotFor(r, c.value, seats, mem, {id}, was[i].seatIDs);
        slots := slots + [sl];
        i := i + 1;
      }
      assert was[..i] == was;
      return Ok(slots);
    }

    /** What is left on every card. */
    method Available() returns (free: seq<Free>)
      ensures free == M.Available(State())
    {
      free := [];
      assert running - {} == running;
      var i := 0;
      while i < |cards|
        invariant 0 <= i == |free| <= |cards|
        invariant free == M.Available(State())[..i]
      {
        var usedS, usedM := Usage(cards[i].index, {});
        free := free + [Free(cards[i].index, cards[i].seats - usedS, cards[i].memMiB - usedM)];
        i := i + 1;
      }
    }
  }

  lemma EligibleStep(seen: Running, id: string, p: Placed, r: Request)
    requires id !in seen && p.req.id == id && forall j :: j in seen ==> seen[j].req.id == j
    ensures MayEvict(p, r) ==> multiset(EligibleJobs(seen[id := p], r)) == multiset(EligibleJobs(seen, r)) + multiset{p}
    ensures !MayEvict(p, r) ==> EligibleJobs(seen[id := p], r) == EligibleJobs(seen, r)
  {
    var after := seen[id := p];
    assert p !in EligibleJobs(seen, r);
    forall q | q in EligibleJobs(seen, r) ensures q in EligibleJobs(after, r) {
      var j :| j in seen && MayEvict(seen[j], r) && seen[j] == q;
      assert after[j] == q;
    }
    forall q | q in EligibleJobs(after, r) && q != p ensures q in EligibleJobs(seen, r) {
      var j :| j in after && MayEvict(after[j], r) && after[j] == q;
      assert seen[j] == q;
    }
    if MayEvict(p, r) {
      assert after[id] == p;
      assert EligibleJobs(after, r) == EligibleJobs(seen, r) + {p};
    }
  }
}
