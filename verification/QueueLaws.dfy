/** Which calls leave no startable job waiting (internal/scheduler/scheduler.go:115-123, 345-473): those that free
    nothing keep it so, a release makes it so, and each of the others can leave a job waiting that would fit. */
module QueueLaws {
  import opened Share
  import opened Cards
  import opened Fitting
  import opened SchedulerModel
  import DivMod
  import Greedy
  import L = SchedulerLaws
  import D = DrainLaws

  ghost predicate Stuck(s: Sched) {
    D.NoneFits(s.cards, s.running, s.queue)
  }

  /** On every card `a` has at most what `b` has in use. */
  ghost predicate Lighter(cards: seq<Card>, a: Running, b: Running) {
    forall c :: c in cards ==>
      UsedSeats(a, c.index) <= UsedSeats(b, c.index) && UsedMem(a, c.index) <= UsedMem(b, c.index)
  }

  lemma {:induction false} CandsLighter(cards: seq<Card>, a: Running, b: Running, r: Request)
    requires Lighter(cards, a, b)
    ensures |Cands(cards, b, r)| <= |Cands(cards, a, r)|
  {
    if cards != [] {
      var init, c := cards[..|cards| - 1], cards[|cards| - 1];
      assert c in cards && forall d :: d in init ==> d in cards;
      CandsLighter(init, a, b, r);
    }
  }

  lemma FitsLighter(cards: seq<Card>, a: Running, b: Running, r: Request)
    requires Lighter(cards, a, b) && Fits(cards, b, r)
    ensures Fits(cards, a, r)
  {
    CandsLighter(cards, a, b, r);
  }

  lemma StuckHeavier(cards: seq<Card>, a: Running, b: Running, queue: seq<Request>)
    requires Lighter(cards, a, b) && D.NoneFits(cards, a, queue)
    ensures D.NoneFits(cards, b, queue)
  {
    forall r | r in queue ensures !Fits(cards, b, r) {
      if Fits(cards, b, r) { FitsLighter(cards, a, b, r); }
    }
  }

  lemma MoreIsHeavier(cards: seq<Card>, a: Running, b: Running)
    requires Safe(cards, b) && Within(a, b)
    ensures Lighter(cards, a, b)
  {
    forall c | c in cards
      ensures UsedSeats(a, c.index) <= UsedSeats(b, c.index) && UsedMem(a, c.index) <= UsedMem(b, c.index)
    {
      UsageMonotone(cards, a, b, c);
    }
  }

  /** What a caller can see before an admission: it will not come to pushing anybody off. */
  ghost predicate PushesNobody(s: Sched, r: Request) {
    || !D.Considered(s, r) || Fits(s.cards, s.running, r) || !D.CanMakeRoom(s, r)
    || (TooSmallSomewhere(s.cards, r) && forall c :: c in s.cards ==> !Takes(s.running, r, c))
  }

  /** An admission pushes nobody off exactly when that can be seen before. */
  lemma PushesNobodyIff(s: Sched, r: Request)
    requires Valid(s)
    ensures PushesNobody(s, r) <==> (Admit(s, r).1.Ok? ==> Admit(s, r).1.value.preempt == [])
  {
    if D.Considered(s, r) {
      if Fits(s.cards, s.running, r) {
        D.AdmitPlaces(s, r);
      } else {
        D.AdmitPlacesExactly(s, r);
        if Admit(s, r).1.Ok? {
          PlacedPushes(s, r);
        }
      }
    }
  }

  /** A job that does not fit pushes somebody off exactly when it is placed. */
  lemma PlacedPushes(s: Sched, r: Request)
    requires Valid(s) && !Fits(s.cards, s.running, r) && Admit(s, r).1.Ok?
    ensures Admit(s, r).1.value.preempt != [] <==> Admit(s, r).1.value.placement.Some?
  {
    RoomIs(s.cards, s.running, r);
    var none: seq<string> := [];
    assert s.running - Greedy.Set(none) == s.running;
  }

  lemma AdmitKeepsStuck(s: Sched, r: Request)
    requires Valid(s) && Stuck(s) && PushesNobody(s, r)
    ensures Stuck(Admit(s, r).0)
  {
    PushesNobodyIff(s, r);
    AdmittedStuck(s, r);
  }

  lemma AdmittedStuck(s: Sched, r: Request)
    requires Valid(s) && Stuck(s) && (Admit(s, r).1.Ok? ==> Admit(s, r).1.value.preempt == [])
    ensures Stuck(Admit(s, r).0)
  {
    var res := Admit(s, r).1;
    D.AdmitPlaces(s, r);
    if res.Ok? && res.value.placement.Some? {
      PlacedBeside(s, r);
      JoinedStuck(s, Admit(s, r).0);
    } else if res.Ok? {
      QueuedStuck(s, r);
    }
  }

  lemma QueuedStuck(s: Sched, r: Request)
    requires Stuck(s) && Admit(s, r).1.Ok? && Admit(s, r).1.value.placement.None?
    ensures Stuck(Admit(s, r).0)
  {
    assert Admit(s, r).0.queue == s.queue + [r] && !Fits(s.cards, s.running, r);
  }

  /** A job placed without pushing anybody off leaves everyone where they were. */
  lemma PlacedBeside(s: Sched, r: Request)
    requires Valid(s) && Admit(s, r).1.Ok? && Admit(s, r).1.value.placement.Some? && Admit(s, r).1.value.preempt == []
    ensures var t := Admit(s, r).0;
            Valid(t) && t.cards == s.cards && t.queue == s.queue && Within(s.running, t.running)
  {
    D.AdmitSpares(s, r);
    AdmitKeepsValid(s, r);
    assert Greedy.Set(Admit(s, r).1.value.preempt) == {};
    assert s.running - {} == s.running;
  }

  lemma JoinedStuck(s: Sched, t: Sched)
    requires Valid(t) && Stuck(s) && t.cards == s.cards && t.queue == s.queue && Within(s.running, t.running)
    ensures Stuck(t)
  {
    MoreIsHeavier(s.cards, s.running, t.running);
    StuckHeavier(s.cards, s.running, t.running, s.queue);
  }

  lemma CancelKeepsStuck(s: Sched, id: string)
    requires Stuck(s)
    ensures Stuck(Cancel(s, id).0)
  {
    var i := IndexOf(s.queue, id);
    if i < |s.queue| {
      forall r | r in s.queue[..i] + s.queue[i + 1..] ensures r in s.queue {
        assert r in s.queue[..i] || r in s.queue[i + 1..];
      }
    }
  }

  /** Taking a card out of service. */
  lemma {:induction false} CandsDown(cards: seq<Card>, marked: seq<Card>, running: Running, r: Request)
    requires |cards| == |marked|
    requires forall i :: 0 <= i < |cards| ==> marked[i] == cards[i] || marked[i] == cards[i].(down := true)
    ensures |Cands(marked, running, r)| <= |Cands(cards, running, r)|
  {
    if cards != [] {
      CandsDown(cards[..|cards| - 1], marked[..|cards| - 1], running, r);
    }
  }

  lemma {:induction false} MarkedDown(cards: seq<Card>, index: int)
    ensures forall i :: 0 <= i < |cards| ==>
              MarkDown(cards, index, true)[i] == cards[i] || MarkDown(cards, index, true)[i] == cards[i].(down := true)
  {
    if cards != [] && cards[0].index != index {
      MarkedDown(cards[1..], index);
    }
  }

  lemma DownKeepsStuck(s: Sched, index: int)
    requires Stuck(s)
    ensures Stuck(SetDown(s, index, true).0)
  {
    MarkedDown(s.cards, index);
    forall r | r in s.queue ensures !Fits(MarkDown(s.cards, index, true), s.running, r) {
      CandsDown(s.cards, MarkDown(s.cards, index, true), s.running, r);
    }
  }

  /** The job has no less of any card than before. */
  ghost predicate Grows(was: seq<Slot>, now: seq<Slot>) {
    |now| == |was| && forall k :: 0 <= k < |was| ==>
      now[k].card == was[k].card && was[k].seats <= now[k].seats && was[k].memMiB <= now[k].memMiB
  }

  lemma {:induction false} GrowsOn(was: seq<Slot>, now: seq<Slot>, card: int)
    requires Grows(was, now)
    ensures SeatsOn(was, card) <= SeatsOn(now, card) && MemOn(was, card) <= MemOn(now, card)
  {
    if was != [] {
      var n := |was| - 1;
      GrowsOn(was[..n], now[..n], card);
    }
  }

  /** What a caller can see before a resize: it asks for no less. The share is no smaller, and the memory stays as it
      was asked for or is no less than the job has on any card. */
  predicate AsksNoLess(s: Sched, id: string, fraction: real, memMiB: int) {
    id in s.running ==>
      && s.running[id].req.share <= fraction
      && (memMiB <= 0 || forall sl :: sl in s.running[id].slots ==> sl.memMiB <= memMiB)
  }

  /** A larger part of a card has no fewer seats. */
  lemma SeatsGrow(a: real, b: real, n: int)
    requires a <= b && Seats(a, n).Ok? && Seats(b, n).Ok?
    ensures Seats(a, n).value <= Seats(b, n).value
  {
    LargerPart(a, b, n as real);
    Whole(Seats(a, n).value, Seats(b, n).value, a * n as real - TOLERANCE, b * n as real - TOLERANCE);
  }

  lemma LargerPart(a: real, b: real, n: real)
    requires a <= b && 0.0 <= n
    ensures a * n <= b * n
  {
    assert 0.0 <= (b - a) * n;
  }

  lemma Whole(s: int, t: int, x: real, y: real)
    requires x <= y <= t as real && 1 <= t && (1 < s ==> (s - 1) as real < x)
    ensures s <= t
  {
    if 1 < s {
      assert (s - 1) as real < t as real;
    }
  }

  /** More seats have no less memory by default. */
  lemma DefaultGrows(a: int, b: int, n: int, cardMiB: nat)
    requires 0 <= a <= b && 1 <= n
    ensures DefaultMemMiB(a, n, cardMiB) <= DefaultMemMiB(b, n, cardMiB)
  {
    DivMod.MulMono(cardMiB, a, b);
    DivMod.DivMono(cardMiB * a, cardMiB * b, n);
  }

  lemma NeedGrows(r: Request, now: Request, c: Card)
    requires Need(r, c).Ok? && Need(now, c).Ok? && r.share <= now.share
    requires now.memMiB == r.memMiB || Need(r, c).value.1 <= now.memMiB
    ensures Need(r, c).value.0 <= Need(now, c).value.0 && Need(r, c).value.1 <= Need(now, c).value.1
  {
    SeatsGrow(r.share, now.share, c.seats);
    if r.memMiB == 0 {
      DefaultGrows(Seats(r.share, c.seats).value, Seats(now.share, c.seats).value, c.seats, c.memMiB);
    }
  }

  /** A resize that asks for no less shrinks no slot. */
  lemma NoLessGrows(s: Sched, id: string, fraction: real, memMiB: int)
    requires Valid(s) && AsksNoLess(s, id, fraction, memMiB) && Resize(s, id, fraction, memMiB).1.Ok?
    ensures Grows(s.running[id].slots, Resize(s, id, fraction, memMiB).0.running[id].slots)
  {
    var p, now := s.running[id], Resized(s.running[id].req, fraction, memMiB);
    var slots := Resize(s, id, fraction, memMiB).0.running[id].slots;
    forall k | 0 <= k < |p.slots|
      ensures slots[k].card == p.slots[k].card
      ensures p.slots[k].seats <= slots[k].seats && p.slots[k].memMiB <= slots[k].memMiB
    {
      L.ResizeSlotIs(s.cards, s.running - {id}, now, p.slots, k);
      assert SlotOk(s.cards, p.req, p.slots[k]);
      NeedGrows(p.req, now, CardOf(s.cards, p.slots[k].card));
    }
  }

  lemma ResizeKeepsStuck(s: Sched, id: string, fraction: real, memMiB: int)
    requires Valid(s) && Stuck(s) && AsksNoLess(s, id, fraction, memMiB)
    ensures Stuck(Resize(s, id, fraction, memMiB).0)
  {
    if Resize(s, id, fraction, memMiB).1.Ok? {
      NoLessGrows(s, id, fraction, memMiB);
      GrownStuck(s, id, Resize(s, id, fraction, memMiB).0.running[id]);
    }
  }

  lemma GrownStuck(s: Sched, id: string, p: Placed)
    requires Stuck(s) && id in s.running && Grows(s.running[id].slots, p.slots)
    ensures Stuck(s.(running := s.running[id := p]))
  {
    var after := s.running[id := p];
    forall c | c in s.cards
      ensures UsedSeats(s.running, c.index) <= UsedSeats(after, c.index)
      ensures UsedMem(s.running, c.index) <= UsedMem(after, c.index)
    {
      UsageRemove(s.running, id, c.index);
      UsageWrite(s.running, id, p, c.index);
      GrowsOn(s.running[id].slots, p.slots, c.index);
    }
    StuckHeavier(s.cards, s.running, after, s.queue);
  }

  /** Whatever came before, a release leaves nothing startable behind. */
  lemma ReleaseUnsticks(s: Sched, id: string)
    requires Valid(s) && D.Fresh(s.queue, s.running - {id})
    ensures Stuck(Release(s, id).0)
  {
    D.ReleaseDrains(s, id);
    ReleaseKeepsValid(s, id);
  }

  /** What a caller can see before: the call frees nothing and puts nobody in the queue who fits. */
  ghost predicate FreesNothing(s: Sched, call: L.Call) {
    match call
    case DoAdmit(r) => PushesNobody(s, r)
    case DoEvict(id) => id !in s.running
    case DoRelease(_) => true
    case DoRequeue(r) => !Fits(s.cards, s.running, r.(wait := true))
    case DoCancel(_) => true
    case DoResize(id, fraction, memMiB) => AsksNoLess(s, id, fraction, memMiB)
    case DoSetDown(_, down) => down
  }

  /** Every such call, in any state, keeps every waiting job unstartable. */
  lemma CallKeepsStuck(s: Sched, call: L.Call)
    requires Valid(s) && Stuck(s) && D.Fresh(s.queue, s.running) && FreesNothing(s, call)
    ensures Stuck(L.Do(s, call))
  {
    match call
    case DoAdmit(r) => AdmitKeepsStuck(s, r);
    case DoEvict(id) => assert s.running - {id} == s.running;
    case DoRelease(id) => ReleaseUnsticks(s, id);
    case DoRequeue(r) => assert forall q :: q in Requeue(s, r).queue <==> q == r.(wait := true) || q in s.queue;
    case DoCancel(id) => CancelKeepsStuck(s, id);
    case DoResize(id, fraction, memMiB) => ResizeKeepsStuck(s, id, fraction, memMiB);
    case DoSetDown(card, _) => DownKeepsStuck(s, card);
  }

  // ---- runs ----

  /** A job put in the queue, or run, has an id that does not wait; one put back does not run. */
  ghost predicate NewToQueue(s: Sched, call: L.Call) {
    match call
    case DoAdmit(r) => forall q :: q in s.queue ==> q.id != r.id
    case DoRequeue(r) => r.id !in s.running && forall q :: q in s.queue ==> q.id != r.id
    case _ => true
  }

  lemma AdmitKeepsFresh(s: Sched, r: Request)
    requires D.Fresh(s.queue, s.running) && forall q :: q in s.queue ==> q.id != r.id
    ensures D.Fresh(Admit(s, r).0.queue, Admit(s, r).0.running)
  {
    if r.id !in s.running {
      D.FreshAppend(s, r);
    }
  }

  lemma FewerFresh(s: Sched, running: Running)
    requires D.Fresh(s.queue, s.running) && running.Keys <= s.running.Keys
    ensures D.Fresh(s.queue, running)
  {
  }

  lemma CallKeepsFresh(s: Sched, call: L.Call)
    requires Valid(s) && D.Fresh(s.queue, s.running) && NewToQueue(s, call)
    ensures D.Fresh(L.Do(s, call).queue, L.Do(s, call).running)
  {
    match call
    case DoAdmit(r) => AdmitKeepsFresh(s, r);
    case DoEvict(id) => FewerFresh(s, s.running - {id});
    case DoRelease(id) =>
      FewerFresh(s, s.running - {id});
      D.ReleasePlaces(s, id);
    case DoRequeue(r) => D.FreshRequeue(s, r);
    case DoCancel(id) => D.FreshCancel(s, id);
    case DoResize(id, fraction, memMiB) => L.ResizeKeepsSeats(s, id, fraction, memMiB);
    case DoSetDown(_, _) =>
  }

  /** What each state of such a run has. */
  ghost predicate StuckState(s: Sched) {
    Valid(s) && D.Fresh(s.queue, s.running) && Stuck(s)
  }

  lemma CallKeepsState(s: Sched, call: L.Call)
    requires StuckState(s) && FreesNothing(s, call) && NewToQueue(s, call)
    ensures StuckState(L.Do(s, call))
  {
    L.DoKeepsValid(s, call);
    CallKeepsFresh(s, call);
    CallKeepsStuck(s, call);
  }

  /** From a state where nobody waiting can start, a run of calls that free nothing never has a startable job
      waiting, whatever it releases on the way. */
  lemma {:induction false} RunStaysStuck(states: seq<Sched>, calls: seq<L.Call>)
    requires L.IsRun(states, calls) && StuckState(states[0])
    requires forall i :: 0 <= i < |calls| ==> FreesNothing(states[i], calls[i]) && NewToQueue(states[i], calls[i])
    ensures forall i :: 0 <= i < |states| ==> StuckState(states[i])
  {
    if calls != [] {
      var n := |calls| - 1;
      RunStaysStuck(states[..n + 1], calls[..n]);
      assert states[n] == states[..n + 1][n];
      CallKeepsState(states[n], calls[n]);
      forall i | 0 <= i < |states| ensures StuckState(states[i]) {
        if i <= n { assert states[i] == states[..n + 1][i]; }
      }
    }
  }
}
