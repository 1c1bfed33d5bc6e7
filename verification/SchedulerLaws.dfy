/** What the scheduler promises over whole runs: safety, live resize, preemption and draining. */
module SchedulerLaws {
  import opened Share
  import opened SeatPicking
  import opened Cards
  import opened Fitting
  import opened SchedulerModel

  // ---- live resize ----

  /** Where slot `k` of a resized job comes from. */
  lemma {:induction false} ResizeSlotIs(cards: seq<Card>, others: Running, r: Request, was: seq<Slot>, k: nat)
    requires ResizeSlots(cards, others, r, was).Ok? && k < |was|
    ensures HasCard(cards, was[k].card)
    ensures var c := CardOf(cards, was[k].card);
            && Need(r, c).Ok?
            && var (seats, mem) := Need(r, c).value;
               && UsedSeats(others, c.index) + seats <= c.seats
               && UsedMem(others, c.index) + mem <= c.memMiB
               && ResizeSlots(cards, others, r, was).value[k] == MakeSlot(others, r, c, seats, mem, was[k].seatIDs)
    decreases |was|
  {
    if k < |was| - 1 {
      ResizeSlotIs(cards, others, r, was[..|was| - 1], k);
    }
  }

  /** A resized job is again complete and clear of everyone else. */
  lemma ResizeDelivers(s: Sched, id: string, r: Request)
    requires Valid(s) && id in s.running && Want(r) == Want(s.running[id].req)
    requires ResizeSlots(s.cards, s.running - {id}, r, s.running[id].slots).Ok?
    ensures var others := s.running - {id};
            var p := Placed(r, ResizeSlots(s.cards, others, r, s.running[id].slots).value, s.running[id].order);
            && Safe(s.cards, others)
            && JobOk(s.cards, p)
            && forall c :: c in s.cards ==>
                 && HeldOn(p.slots, c.index) !! Occupied(others, c.index)
                 && UsedMem(others, c.index) + MemOn(p.slots, c.index) <= c.memMiB
  {
    var others, was := s.running - {id}, s.running[id].slots;
    var slots := ResizeSlots(s.cards, others, r, was).value;
    SafeWithin(s.cards, others, s.running);
    forall k | 0 <= k < |slots|
      ensures SlotOk(s.cards, r, slots[k]) && slots[k].card == was[k].card
      ensures Elems(slots[k].seatIDs) !! Occupied(others, slots[k].card)
      ensures UsedMem(others, slots[k].card) + slots[k].memMiB <= CardOf(s.cards, slots[k].card).memMiB
    {
      ResizeSlotIs(s.cards, others, r, was, k);
      SlotDelivers(s.cards, others, r, CardOf(s.cards, was[k].card), was[k].seatIDs);
    }
    forall c | c in s.cards
      ensures HeldOn(slots, c.index) !! Occupied(others, c.index)
      ensures UsedMem(others, c.index) + MemOn(slots, c.index) <= c.memMiB
    {
      CardOfIs(s.cards, c);
      if k :| 0 <= k < |slots| && slots[k].card == c.index {
        TheSlot(slots, k);
      } else {
        NoSlot(slots, c.index);
      }
    }
  }

  lemma ResizeKeepsValid(s: Sched, id: string, fraction: real, memMiB: int)
    requires Valid(s)
    ensures Valid(Resize(s, id, fraction, memMiB).0)
  {
    if Resize(s, id, fraction, memMiB).1.Ok? {
      var r := Resized(s.running[id].req, fraction, memMiB);
      ResizeDelivers(s, id, r);
      var p := Resize(s, id, fraction, memMiB).0.running[id];
      WriteKeepsSafe(s.cards, s.running, id, p);
    }
  }

  /** A resize keeps the job on its cards and in its seats: growing keeps every seat it held, shrinking
      keeps some of them. A failed resize changes nothing, and no other job is ever touched. */
  lemma ResizeKeepsSeats(s: Sched, id: string, fraction: real, memMiB: int)
    requires Valid(s)
    ensures var (after, res) := Resize(s, id, fraction, memMiB);
            && (res.Err? ==> after == s)
            && (res.Ok? ==>
                 && id in s.running && after.running.Keys == s.running.Keys
                 && (forall j :: j in s.running && j != id ==> after.running[j] == s.running[j])
                 && var was, now := s.running[id].slots, after.running[id].slots;
                    && res.value == Placement(id, now) && |now| == |was|
                    && forall k :: 0 <= k < |was| ==>
                         && now[k].card == was[k].card
                         && (was[k].seats <= now[k].seats ==> Elems(was[k].seatIDs) <= Elems(now[k].seatIDs))
                         && (now[k].seats <= was[k].seats ==> Elems(now[k].seatIDs) <= Elems(was[k].seatIDs)))
  {
    var (after, res) := Resize(s, id, fraction, memMiB);
    if res.Ok? {
      var others, was, now := s.running - {id}, s.running[id].slots, after.running[id].slots;
      var r := Resized(s.running[id].req, fraction, memMiB);
      forall k | 0 <= k < |was|
        ensures now[k].card == was[k].card
        ensures was[k].seats <= now[k].seats ==> Elems(was[k].seatIDs) <= Elems(now[k].seatIDs)
        ensures now[k].seats <= was[k].seats ==> Elems(now[k].seatIDs) <= Elems(was[k].seatIDs)
      {
        ResizeSlotIs(s.cards, others, r, was, k);
        assert SlotOk(s.cards, s.running[id].req, was[k]);
        var c := CardOf(s.cards, was[k].card);
        TheSlot(was, k);
        HeldApart(s.running, id, c.index);
        assert forall i :: i in was[k].seatIDs ==> i in Elems(was[k].seatIDs);
        PickKeeps(Occupied(others, c.index), c.seats, Need(r, c).value.0, was[k].seatIDs);
      }
    }
  }

  /** What a resized job asks for: the new share, the new memory if one is given, and all else as before. */
  lemma ResizedAsks(s: Sched, id: string, fraction: real, memMiB: int)
    requires Resize(s, id, fraction, memMiB).1.Ok?
    ensures id in s.running && id in Resize(s, id, fraction, memMiB).0.running
    ensures var (was, now) := (s.running[id], Resize(s, id, fraction, memMiB).0.running[id]);
            && now.req.share == fraction
            && (0 < memMiB ==> now.req.memMiB == memMiB) && (memMiB <= 0 ==> now.req.memMiB == was.req.memMiB)
            && now.req.id == was.req.id && now.req.gpus == was.req.gpus && now.req.priority == was.req.priority
            && now.req.preemptible == was.req.preemptible && now.req.burst == was.req.burst
            && now.req.wait == was.req.wait && now.order == was.order
  {
  }

  /** A job may stay on the card at its new size, beside the others. */
  ghost predicate Stays(s: Sched, id: string, r: Request, card: int) {
    HasCard(s.cards, card) &&
    var c := CardOf(s.cards, card);
    && Need(r, c).Ok?
    && UsedSeats(s.running - {id}, card) + Need(r, c).value.0 <= c.seats
    && UsedMem(s.running - {id}, card) + Need(r, c).value.1 <= c.memMiB
  }

  lemma {:induction false} ResizeSlotsIff(cards: seq<Card>, s: Sched, id: string, r: Request, was: seq<Slot>)
    requires cards == s.cards
    ensures ResizeSlots(cards, s.running - {id}, r, was).Ok? <==>
              forall k :: 0 <= k < |was| ==> Stays(s, id, r, was[k].card)
    decreases |was|
  {
    if was != [] {
      var n := |was| - 1;
      ResizeSlotsIff(cards, s, id, r, was[..n]);
      assert forall k :: 0 <= k < n ==> was[..n][k] == was[k];
    }
  }

  /** A resize is granted exactly when the job runs, the new share is in range, and on each of its cards, beside the
      other jobs, the new seats and the new memory are free: it pushes nobody off and moves to no other card. */
  lemma ResizeIff(s: Sched, id: string, fraction: real, memMiB: int)
    ensures Resize(s, id, fraction, memMiB).1.Ok? <==>
              && id in s.running && s.running[id].req.id != "" && 0 <= s.running[id].req.gpus && 0.0 < fraction <= 1.0
              && var p := s.running[id];
                 var r := p.req.(share := fraction, memMiB := if 0 < memMiB then memMiB else p.req.memMiB);
                 forall k :: 0 <= k < |p.slots| ==> Stays(s, id, r, p.slots[k].card)
  {
    if id in s.running {
      var p := s.running[id];
      var r := p.req.(share := fraction, memMiB := if 0 < memMiB then memMiB else p.req.memMiB);
      assert r == Resized(p.req, fraction, memMiB);
      ResizeSlotsIff(s.cards, s, id, r, p.slots);
    }
  }

  // ---- putting cards in and out of service ----

  /** The same cards but for their `down` marks. */
  ghost predicate SameCards(a: seq<Card>, b: seq<Card>) {
    |a| == |b| && forall i :: 0 <= i < |a| ==> a[i].(down := b[i].down) == b[i]
  }

  lemma {:induction false} MarkDownSame(cards: seq<Card>, index: int, down: bool)
    ensures SameCards(cards, MarkDown(cards, index, down))
  {
    if cards != [] && cards[0].index != index {
      MarkDownSame(cards[1..], index, down);
    }
  }

  lemma {:induction false} CardOfSame(a: seq<Card>, b: seq<Card>, index: int)
    requires SameCards(a, b) && HasCard(a, index)
    ensures HasCard(b, index) && CardOf(a, index).(down := CardOf(b, index).down) == CardOf(b, index)
  {
    var k :| 0 <= k < |a| && a[k].index == index;
    assert b[k].index == index;
    if a[0].index != index {
      assert a[1..][k - 1].index == index;
      CardOfSame(a[1..], b[1..], index);
    }
  }

  lemma SetDownKeepsValid(s: Sched, index: int, down: bool)
    requires Valid(s)
    ensures Valid(SetDown(s, index, down).0) && SameCards(s.cards, SetDown(s, index, down).0.cards)
  {
    var after := MarkDown(s.cards, index, down);
    MarkDownSame(s.cards, index, down);
    assert CardsOk(after);
    forall id | id in s.running ensures JobOk(after, s.running[id]) {
      forall sl | sl in s.running[id].slots ensures SlotOk(after, s.running[id].req, sl) {
        assert SlotOk(s.cards, s.running[id].req, sl);
        CardOfSame(s.cards, after, sl.card);
      }
    }
    forall c | c in after ensures UsedMem(s.running, c.index) <= c.memMiB {
      var k :| 0 <= k < |after| && after[k] == c;
      assert s.cards[k] in s.cards;
    }
  }

  /** The answer: whether there is such a card. The first one is marked as asked, and nothing else changes. */
  lemma SetDownAnswers(s: Sched, index: int, down: bool)
    ensures var (after, res) := SetDown(s, index, down);
            && (res == Ok(()) <==> exists c :: c in s.cards && c.index == index)
            && (res.Err? ==> res == Err(NoCard) && after == s)
            && after == s.(cards := after.cards) && |after.cards| == |s.cards|
            && forall i :: 0 <= i < |s.cards| ==>
                 if s.cards[i].index == index && (forall k :: 0 <= k < i ==> s.cards[k].index != index)
                 then after.cards[i] == s.cards[i].(down := down)
                 else after.cards[i] == s.cards[i]
  {
    var first := if i :| 0 <= i < |s.cards| && s.cards[i].index == index then Least(s.cards, index) else |s.cards|;
    MarkDownAt(s.cards, index, down, first);
    if c :| c in s.cards && c.index == index {
      var k :| 0 <= k < |s.cards| && s.cards[k] == c;
    }
  }

  /** The place of the first card of an index. */
  function Least(cards: seq<Card>, index: int): (i: nat)
    requires HasCard(cards, index)
    ensures i < |cards| && cards[i].index == index && forall k :: 0 <= k < i ==> cards[k].index != index
  {
    if cards[0].index == index then 0 else 1 + Least(cards[1..], index)
  }

  /** A cancel takes the first entry of a job out of the queue, and says whether there was one. */
  lemma CancelMeans(s: Sched, id: string) returns (i: nat)
    ensures var (after, found) := Cancel(s, id);
            && (found <==> exists r :: r in s.queue && r.id == id)
            && (!found ==> after == s)
            && (found ==> i < |s.queue| && s.queue[i].id == id && (forall k :: 0 <= k < i ==> s.queue[k].id != id)
                          && after == s.(queue := s.queue[..i] + s.queue[i + 1..]))
  {
    i := IndexOf(s.queue, id);
  }

  /** A new scheduler has the cards it is given, in order, with eight seats where none are given, and runs nothing. */
  lemma NewMeans(cards: seq<Card>)
    ensures var s := New(cards);
            && s.running == map[] && s.queue == [] && |s.cards| == |cards|
            && forall i :: 0 <= i < |cards| ==>
                 s.cards[i] == (if 1 <= cards[i].seats then cards[i] else cards[i].(seats := 8))
  {
  }

  // ---- every run ----

  datatype Call =
    | DoAdmit(r: Request)
    | DoEvict(id: string)
    | DoRelease(id: string)
    | DoRequeue(r: Request)
    | DoCancel(id: string)
    | DoResize(id: string, fraction: real, memMiB: int)
    | DoSetDown(card: int, down: bool)

  /** The state one call leaves. */
  ghost function Do(s: Sched, call: Call): Sched {
    match call
    case DoAdmit(r) => Admit(s, r).0
    case DoEvict(id) => Evict(s, id)
    case DoRelease(id) => Release(s, id).0
    case DoRequeue(r) => Requeue(s, r)
    case DoCancel(id) => Cancel(s, id).0
    case DoResize(id, fraction, memMiB) => Resize(s, id, fraction, memMiB).0
    case DoSetDown(card, down) => SetDown(s, card, down).0
  }

  lemma QueueIrrelevant(s: Sched, queue: seq<Request>)
    requires Valid(s)
    ensures Valid(s.(queue := queue))
  {
  }

  lemma DoKeepsValid(s: Sched, call: Call)
    requires Valid(s)
    ensures Valid(Do(s, call))
  {
    match call
    case DoAdmit(r) => AdmitKeepsValid(s, r);
    case DoEvict(id) => ReleaseKeepsValid(s, id);
    case DoRelease(id) => ReleaseKeepsValid(s, id);
    case DoRequeue(r) => QueueIrrelevant(s, Requeue(s, r).queue);
    case DoCancel(id) => CancelKeepsValid(s, id);
    case DoResize(id, fraction, memMiB) => ResizeKeepsValid(s, id, fraction, memMiB);
    case DoSetDown(card, down) => SetDownKeepsValid(s, card, down);
  }

  lemma CancelKeepsValid(s: Sched, id: string)
    requires Valid(s)
    ensures Valid(Cancel(s, id).0)
  {
    QueueIrrelevant(s, Cancel(s, id).0.queue);
  }

  /** The states a run of calls goes through. */
  ghost predicate IsRun(states: seq<Sched>, calls: seq<Call>) {
    && |states| == |calls| + 1
    && forall i :: 0 <= i < |calls| ==> states[i + 1] == Do(states[i], calls[i])
  }

  lemma NewValid(cards: seq<Card>)
    requires forall i, j :: 0 <= i < j < |cards| ==> cards[i].index != cards[j].index
    ensures Valid(New(cards))
  {
    forall c | c in New(cards).cards ensures UsedMem(map[], c.index) == 0 {
      assert MemOf(map[], c.index) == map[];
    }
  }

  /** Safety over every run: from a fresh scheduler over cards with distinct indices, no sequence of calls
      leaves the invariant. */
  lemma {:induction false} EveryRunValid(cards: seq<Card>, states: seq<Sched>, calls: seq<Call>)
    requires forall i, j :: 0 <= i < j < |cards| ==> cards[i].index != cards[j].index
    requires IsRun(states, calls) && states[0] == New(cards)
    ensures forall i :: 0 <= i < |states| ==> Valid(states[i])
  {
    NewValid(cards);
    if calls != [] {
      var n := |calls| - 1;
      EveryRunValid(cards, states[..n + 1], calls[..n]);
      assert states[n] == states[..n + 1][n];
      DoKeepsValid(states[n], calls[n]);
      forall i | 0 <= i < |states| ensures Valid(states[i]) {
        if i <= n { assert states[i] == states[..n + 1][i]; }
      }
    }
  }

  /** The invariant, spelled out card by card: the seats and the memory held never exceed the card's, each
      slot names exactly its seats, and no seat is named twice. */
  lemma ValidMeans(s: Sched, c: Card)
    requires Valid(s) && c in s.cards
    ensures 0 <= UsedSeats(s.running, c.index) <= c.seats && UsedMem(s.running, c.index) <= c.memMiB
    ensures forall id, k ::
              id in s.running && 0 <= k < |s.running[id].slots| && s.running[id].slots[k].card == c.index ==>
              var sl := s.running[id].slots[k];
              |sl.seatIDs| == sl.seats && Increasing(sl.seatIDs) && forall i :: i in sl.seatIDs ==> 0 <= i < c.seats
    ensures forall a, b, j, k ::
              (a in s.running && b in s.running && (a != b || j != k)
               && 0 <= j < |s.running[a].slots| && 0 <= k < |s.running[b].slots|
               && s.running[a].slots[j].card == s.running[b].slots[k].card) ==>
                a != b && Elems(s.running[a].slots[j].seatIDs) !! Elems(s.running[b].slots[k].seatIDs)
  {
    SeatCount(s.cards, s.running, c);
    CardOfIs(s.cards, c);
    forall id, k | id in s.running && 0 <= k < |s.running[id].slots| && s.running[id].slots[k].card == c.index
      ensures var sl := s.running[id].slots[k];
              |sl.seatIDs| == sl.seats && Increasing(sl.seatIDs) && forall i :: i in sl.seatIDs ==> 0 <= i < c.seats
    {
      assert SlotOk(s.cards, s.running[id].req, s.running[id].slots[k]);
    }
    forall a, b, j, k | a in s.running && b in s.running && (a != b || j != k)
      && 0 <= j < |s.running[a].slots| && 0 <= k < |s.running[b].slots|
      && s.running[a].slots[j].card == s.running[b].slots[k].card
      ensures a != b && Elems(s.running[a].slots[j].seatIDs) !! Elems(s.running[b].slots[k].seatIDs)
    {
      assert DistinctCards(s.running[a].slots);
      TheSlot(s.running[a].slots, j);
      TheSlot(s.running[b].slots, k);
    }
  }
}
