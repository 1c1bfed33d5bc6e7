/** What draining the queue and admitting a job promise. */
module DrainLaws {
  import opened Share
  import opened Cards
  import opened Fitting
  import opened Preemption
  import opened SchedulerModel
  import Greedy
  import Sorting

  function RequestIds(queue: seq<Request>): (ids: seq<string>)
    ensures |ids| == |queue| && forall i :: 0 <= i < |ids| ==> ids[i] == queue[i].id
  {
    seq(|queue|, i requires 0 <= i < |queue| => queue[i].id)
  }

  /** Waiting ids are distinct and none of them runs. */
  ghost predicate Fresh(queue: seq<Request>, running: Running) {
    && (forall i, j :: 0 <= i < j < |queue| ==> queue[i].id != queue[j].id)
    && (forall r :: r in queue ==> r.id !in running)
  }

  lemma FreshTail(queue: seq<Request>, running: Running, p: Placed)
    requires Fresh(queue, running) && queue != [] && p.req == queue[0]
    ensures Fresh(queue[1..], running) && Fresh(queue[1..], running[queue[0].id := p])
  {
    forall r | r in queue[1..] ensures r.id != queue[0].id && r.id !in running {
      var j :| 0 <= j < |queue| - 1 && queue[1..][j] == r;
      assert queue[j + 1] == r;
    }
  }

  lemma FreshRequeue(s: Sched, r: Request)
    requires Fresh(s.queue, s.running) && r.id !in s.running && forall q :: q in s.queue ==> q.id != r.id
    ensures Fresh(Requeue(s, r).queue, s.running)
  {
    var q := Requeue(s, r).queue;
    forall i, j | 0 <= i < j < |q| ensures q[i].id != q[j].id {
      assert q[j] == s.queue[j - 1];
      assert q[j] in s.queue;
      if i > 0 { assert q[i] == s.queue[i - 1]; }
    }
  }

  lemma FreshAppend(s: Sched, r: Request)
    requires Fresh(s.queue, s.running) && r.id !in s.running && forall q :: q in s.queue ==> q.id != r.id
    ensures Fresh(s.queue + [r], s.running)
  {
    var q := s.queue + [r];
    forall i, j | 0 <= i < j < |q| ensures q[i].id != q[j].id {
      if j == |s.queue| { assert q[i] in s.queue; }
    }
  }

  lemma FreshCancel(s: Sched, id: string)
    requires Fresh(s.queue, s.running)
    ensures Fresh(Cancel(s, id).0.queue, s.running)
  {
    var i := IndexOf(s.queue, id);
    if i < |s.queue| {
      var q := s.queue[..i] + s.queue[i + 1..];
      forall j | 0 <= j < |q| ensures q[j] == s.queue[if j < i then j else j + 1] {
      }
    }
  }

  /** A drain moves nobody. */
  lemma {:induction false} DrainWithin(cards: seq<Card>, running: Running, next: nat, waiting: seq<Request>)
    requires Fresh(waiting, running)
    ensures Within(running, DrainFrom(cards, running, next, waiting).running)
    decreases |waiting|
  {
    if waiting != [] {
      var r := waiting[0];
      match Fit(cards, running, r)
      case Ok(slots) =>
        var p := Placed(r, slots, next + 1);
        FreshTail(waiting, running, p);
        assert r in waiting;
        DrainWithin(cards, running[r.id := p], next + 1, waiting[1..]);
      case Err(_) =>
        FreshTail(waiting, running, Placed(r, [], 0));
        DrainWithin(cards, running, next, waiting[1..]);
    }
  }

  ghost predicate NoneFits(cards: seq<Card>, running: Running, queue: seq<Request>) {
    forall r :: r in queue ==> !Fits(cards, running, r)
  }

  /** A drain starts nobody exactly when no waiting job fits, and then changes nothing but the order they wait in. */
  lemma {:induction false} DrainIdle(cards: seq<Card>, running: Running, next: nat, waiting: seq<Request>)
    ensures var d := DrainFrom(cards, running, next, waiting);
            && (d.started == [] <==> NoneFits(cards, running, waiting))
            && (d.started == [] ==> d == Drained(running, next, [], waiting))
    decreases |waiting|
  {
    if waiting != [] {
      assert waiting == [waiting[0]] + waiting[1..];
      if !Fits(cards, running, waiting[0]) {
        DrainIdle(cards, running, next, waiting[1..]);
        assert NoneFits(cards, running, waiting) <==> NoneFits(cards, running, waiting[1..]) by {
          forall r ensures r in waiting <==> r == waiting[0] || r in waiting[1..] {
          }
        }
      }
    }
  }

  /** No job left waiting could run beside the jobs that now do. */
  lemma {:induction false} DrainMaximal(cards: seq<Card>, running: Running, next: nat, waiting: seq<Request>)
    requires Safe(cards, running) && Numbered(running, next) && Fresh(waiting, running)
    ensures var d := DrainFrom(cards, running, next, waiting);
            NoneFits(cards, d.running, d.rest)
    decreases |waiting|
  {
    if waiting != [] {
      var r := waiting[0];
      match Fit(cards, running, r)
      case Ok(slots) =>
        var p := Placed(r, slots, next + 1);
        StartKeepsSafe(cards, running, next, r, running[r.id := p]);
        FreshTail(waiting, running, p);
        DrainMaximal(cards, running[r.id := p], next + 1, waiting[1..]);
      case Err(_) =>
        FreshTail(waiting, running, Placed(r, [], 0));
        DrainMaximal(cards, running, next, waiting[1..]);
        StillNoFit(cards, running, next, waiting[1..], r);
    }
  }

  /** A job passed over does not fit later in the same drain. */
  lemma StillNoFit(cards: seq<Card>, running: Running, next: nat, waiting: seq<Request>, r: Request)
    requires Safe(cards, running) && Numbered(running, next) && Fresh(waiting, running) && !Fits(cards, running, r)
    ensures !Fits(cards, DrainFrom(cards, running, next, waiting).running, r)
  {
    var after := DrainFrom(cards, running, next, waiting).running;
    DrainWithin(cards, running, next, waiting);
    DrainKeepsSafe(cards, running, next, waiting);
    if Fits(cards, after, r) {
      FitsMonotone(cards, running, after, r);
    }
  }

  /** The decision says where the job runs. */
  ghost predicate PlacedAs(running: Running, dec: Decision) {
    && dec.placement.Some?
    && dec.placement.value.jobId in running
    && running[dec.placement.value.jobId].slots == dec.placement.value.slots
  }

  /** The drain's answer says where each started job now runs, what still waits is fresh again, and only
      waiting jobs were started. */
  ghost predicate Settled(d: Drained, running: Running, waiting: seq<Request>) {
    && (forall i :: 0 <= i < |d.started| ==> PlacedAs(d.running, d.started[i]))
    && Fresh(d.rest, d.running)
    && (forall r :: r in d.rest ==> r in waiting)
    && (forall id :: id in d.running ==> id in running || WaitsIn(waiting, id))
  }

  ghost predicate WaitsIn(waiting: seq<Request>, id: string) {
    exists r :: r in waiting && r.id == id
  }

  lemma {:induction false} DrainSettles(cards: seq<Card>, running: Running, next: nat, waiting: seq<Request>)
    requires Fresh(waiting, running)
    ensures Settled(DrainFrom(cards, running, next, waiting), running, waiting)
    decreases |waiting|
  {
    if waiting != [] {
      var r := waiting[0];
      match Fit(cards, running, r)
      case Ok(slots) =>
        var p := Placed(r, slots, next + 1);
        FreshTail(waiting, running, p);
        DrainSettles(cards, running[r.id := p], next + 1, waiting[1..]);
        DrainWithin(cards, running[r.id := p], next + 1, waiting[1..]);
        SettledStart(DrainFrom(cards, running[r.id := p], next + 1, waiting[1..]), running, waiting, p);
      case Err(_) =>
        FreshTail(waiting, running, Placed(r, [], 0));
        DrainSettles(cards, running, next, waiting[1..]);
        SettledSkip(DrainFrom(cards, running, next, waiting[1..]), running, waiting);
    }
  }

  lemma SettledStart(d: Drained, running: Running, waiting: seq<Request>, p: Placed)
    requires waiting != [] && p.req == waiting[0] && Settled(d, running[p.req.id := p], waiting[1..])
    requires Within(running[p.req.id := p], d.running)
    ensures Settled(d.(started := [Started(p.req, p.slots, [])] + d.started), running, waiting)
  {
    assert waiting[0] in waiting;
    forall id | id in d.running ensures id in running || WaitsIn(waiting, id) {
      if id != p.req.id && id !in running {
        assert WaitsIn(waiting[1..], id);
        var r :| r in waiting[1..] && r.id == id;
        assert r in waiting;
      }
    }
    assert PlacedAs(d.running, Started(p.req, p.slots, []));
  }

  /** A job passed over stays fresh. */
  lemma SettledSkip(d: Drained, running: Running, waiting: seq<Request>)
    requires waiting != [] && Fresh(waiting, running) && Settled(d, running, waiting[1..])
    ensures Settled(d.(rest := [waiting[0]] + d.rest), running, waiting)
  {
    forall r | r in waiting[1..] ensures r.id != waiting[0].id && r in waiting {
      var j :| 0 <= j < |waiting| - 1 && waiting[1..][j] == r;
      assert waiting[j + 1] == r;
    }
    assert waiting[0] in waiting;
    var q := [waiting[0]] + d.rest;
    forall i, j | 0 <= i < j < |q| ensures q[i].id != q[j].id {
      assert q[j] == d.rest[j - 1] && q[j] in d.rest;
      if i > 0 { assert q[i] == d.rest[i - 1]; }
    }
    forall id | id in d.running ensures id in running || WaitsIn(waiting, id) {
      if id !in running {
        var r :| r in waiting[1..] && r.id == id;
        assert r in waiting;
      }
    }
  }

  /** The jobs a drain started, in order. */
  function JobsOf(started: seq<Decision>): seq<string> {
    if started == [] then []
    else (if started[0].placement.Some? then [started[0].placement.value.jobId] else []) + JobsOf(started[1..])
  }

  /** `waiting` is `a` and `b` dealt out in order. */
  ghost predicate Interleaved(waiting: seq<string>, a: seq<string>, b: seq<string>)
    decreases |waiting|
  {
    if waiting == [] then a == [] && b == []
    else
      || (a != [] && a[0] == waiting[0] && Interleaved(waiting[1..], a[1..], b))
      || (b != [] && b[0] == waiting[0] && Interleaved(waiting[1..], a, b[1..]))
  }

  /** Started and remaining jobs are an order-preserving partition of the waiting ones, and what runs
      afterwards is what ran before together with what was started. */
  lemma {:induction false} DrainPartitions(cards: seq<Card>, running: Running, next: nat, waiting: seq<Request>)
    ensures var d := DrainFrom(cards, running, next, waiting);
            && Interleaved(RequestIds(waiting), JobsOf(d.started), RequestIds(d.rest))
            && d.running.Keys == running.Keys + Greedy.Set(JobsOf(d.started))
            && (forall r :: r in d.rest ==> r in waiting)
            && d.next == next + |d.started| && |d.started| + |d.rest| == |waiting|
    decreases |waiting|
  {
    if waiting != [] {
      var r := waiting[0];
      assert RequestIds(waiting)[1..] == RequestIds(waiting[1..]);
      match Fit(cards, running, r)
      case Ok(slots) =>
        var after := running[r.id := Placed(r, slots, next + 1)];
        DrainPartitions(cards, after, next + 1, waiting[1..]);
        StartedFirst(r, slots, DrainFrom(cards, after, next + 1, waiting[1..]).started);
      case Err(_) =>
        DrainPartitions(cards, running, next, waiting[1..]);
        SkippedFirst(r, DrainFrom(cards, running, next, waiting[1..]).rest);
    }
  }

  lemma StartedFirst(r: Request, slots: seq<Slot>, started: seq<Decision>)
    ensures JobsOf([Started(r, slots, [])] + started) == [r.id] + JobsOf(started)
    ensures Greedy.Set([r.id] + JobsOf(started)) == {r.id} + Greedy.Set(JobsOf(started))
    ensures ([r.id] + JobsOf(started))[1..] == JobsOf(started)
  {
    assert ([Started(r, slots, [])] + started)[1..] == started;
  }

  lemma SkippedFirst(r: Request, rest: seq<Request>)
    ensures RequestIds([r] + rest)[0] == r.id && RequestIds([r] + rest)[1..] == RequestIds(rest)
  {
    var q, ids := [r] + rest, RequestIds(rest);
    forall i | 0 <= i < |rest| ensures RequestIds(q)[1..][i] == ids[i] {
      assert q[i + 1] == rest[i];
    }
  }

  /** The queue is tried highest priority first, and in arrival order within a priority. */
  lemma WaitingIs(queue: seq<Request>, priority: int)
    ensures var w := Waiting(queue);
            && multiset(w) == multiset(queue)
            && (forall i, j :: 0 <= i < j < |w| ==> w[j].priority <= w[i].priority)
            && Sorting.Filter(w, (r: Request) => r.priority == priority) ==
              Sorting.Filter(queue, (r: Request) => r.priority == priority)
  {
    Sorting.SortPermutes(queue, Sooner);
    Sorting.SortOrders(queue, Sooner);
    Sorting.SortStable(queue, Sooner, (r: Request) => r.priority == priority);
  }

  /** A requeued victim comes before every job of its priority that was already waiting. */
  lemma RequeuedFirst(s: Sched, r: Request)
    ensures var same := (q: Request) => q.priority == r.priority;
            Sorting.Filter(Waiting(Requeue(s, r).queue), same) == [r.(wait := true)] + Sorting.Filter(s.queue, same)
  {
    WaitingIs(Requeue(s, r).queue, r.priority);
    assert Requeue(s, r).queue[1..] == s.queue;
  }

  lemma FreshSorted(queue: seq<Request>, running: Running)
    requires Fresh(queue, running)
    ensures Fresh(Waiting(queue), running)
  {
    var w := Waiting(queue);
    Sorting.SortPermutes(queue, Sooner);
    forall i, j | 0 <= i < j < |w| ensures w[i].id != w[j].id {
      assert w[i] in w && w[j] in w;
      var a :| 0 <= a < |queue| && queue[a] == w[i];
      var b :| 0 <= b < |queue| && queue[b] == w[j];
      if a == b {
        Sorting.Twice(w, i, j);
        Sorting.Once(queue, a);
      }
    }
  }

  lemma WaitingHas(queue: seq<Request>)
    ensures forall r :: r in Waiting(queue) <==> r in queue
  {
    Sorting.SortPermutes(queue, Sooner);
  }

  /** A release starts nobody exactly when no waiting job fits in the room it leaves. */
  lemma ReleaseIdle(s: Sched, id: string)
    ensures Release(s, id).1 == [] <==> NoneFits(s.cards, s.running - {id}, s.queue)
    ensures Release(s, id).1 == [] ==> Release(s, id).0 == s.(running := s.running - {id}, queue := Waiting(s.queue))
  {
    DrainIdle(s.cards, s.running - {id}, s.next, Waiting(s.queue));
    WaitingHas(s.queue);
  }

  /** Release leaves no startable job waiting. */
  lemma ReleaseDrains(s: Sched, id: string)
    requires Valid(s) && Fresh(s.queue, s.running - {id})
    ensures var (after, started) := Release(s, id);
            && (forall r :: r in after.queue ==> !Fits(after.cards, after.running, r))
            && Interleaved(RequestIds(Waiting(s.queue)), JobsOf(started), RequestIds(after.queue))
            && after.running.Keys == s.running.Keys - {id} + Greedy.Set(JobsOf(started))
  {
    ReleaseKeepsValid(s, id);
    FreshSorted(s.queue, s.running - {id});
    DrainMaximal(s.cards, s.running - {id}, s.next, Waiting(s.queue));
    DrainPartitions(s.cards, s.running - {id}, s.next, Waiting(s.queue));
  }

  /** A release keeps everyone else where they were, answers with where the started jobs run, and leaves the
      queue fresh. */
  lemma ReleasePlaces(s: Sched, id: string)
    requires Valid(s) && Fresh(s.queue, s.running - {id})
    ensures var (after, started) := Release(s, id);
            && Valid(after) && after.cards == s.cards
            && Within(s.running - {id}, after.running)
            && Fresh(after.queue, after.running)
            && forall i :: 0 <= i < |started| ==> PlacedAs(after.running, started[i])
  {
    ReleaseKeepsValid(s, id);
    FreshSorted(s.queue, s.running - {id});
    DrainWithin(s.cards, s.running - {id}, s.next, Waiting(s.queue));
    DrainSettles(s.cards, s.running - {id}, s.next, Waiting(s.queue));
  }

  /** Some set of lower-priority preemptible jobs would make room. */
  ghost predicate CanMakeRoom(s: Sched, r: Request) {
    exists w: set<string> :: MakesRoom(s, r, w)
  }

  ghost predicate MakesRoom(s: Sched, r: Request, w: set<string>) {
    && (forall id :: id in w ==>
          id in s.running && s.running[id].req.preemptible && s.running[id].req.priority < r.priority)
    && Fits(s.cards, s.running - w, r)
  }

  lemma RoomByEligible(s: Sched, r: Request)
    ensures CanMakeRoom(s, r) <==> exists w :: w <= Eligible(s.running, r) && Fits(s.cards, s.running - w, r)
  {
    if w :| w <= Eligible(s.running, r) && Fits(s.cards, s.running - w, r) {
      assert forall id :: id in w ==> id in Eligible(s.running, r);
      assert MakesRoom(s, r, w);
    }
    if w :| MakesRoom(s, r, w) {
      assert w <= Eligible(s.running, r);
    }
  }

  /** The request is one `Admit` looks for a place for: it has an id, a share in range and no negative number of cards,
      it does not run yet, and there are as many cards as it asks for. */
  predicate Considered(s: Sched, r: Request) {
    && r.id != "" && 0.0 < r.share <= 1.0 && 0 <= r.gpus && r.id !in s.running
    && 1 <= |s.cards| && r.gpus <= |s.cards|
  }

  /** Any other is refused at once, for the first thing wrong with it. */
  lemma NotConsidered(s: Sched, r: Request)
    requires !Considered(s, r)
    ensures Admit(s, r) ==
              (s, Err(if r.id == "" then NoId
                      else if !(0.0 < r.share <= 1.0) then BadShare
                      else if r.gpus < 0 then NegativeGpus
                      else if r.id in s.running then AlreadyRunning
                      else TooManyCards))
  {
  }

  /** When nothing fits as things are, `Admit` places the job exactly when some set of lower-priority
      preemptible jobs would make room; otherwise it queues or refuses it, and changes nothing else. */
  lemma AdmitPreemptsWhenPossible(s: Sched, r: Request)
    requires Valid(s) && Considered(s, r) && Fit(s.cards, s.running, r) == Err(NoFit)
    ensures var (after, res) := Admit(s, r);
            && (res.Ok? && res.value.placement.Some? <==> CanMakeRoom(s, r))
            && (!CanMakeRoom(s, r) && r.wait ==>
              res == Ok(Decision(None, [], true)) && after == s.(queue := s.queue + [r]))
            && (!CanMakeRoom(s, r) && !r.wait ==> res == Err(NoFit) && after == s)
  {
    RoomByEligible(s, r);
    VictimsComplete(s.cards, s.running, r);
    VictimsFit(s, r);
    RoomDecides(s, r);
  }

  lemma VictimsFit(s: Sched, r: Request)
    requires Valid(s)
    ensures Victims(s.cards, s.running, r).Some? ==>
              Fits(s.cards, s.running - Greedy.Set(Victims(s.cards, s.running, r).value), r)
  {
    if Victims(s.cards, s.running, r).Some? {
      VictimsMinimal(s.cards, s.running, r);
    }
  }

  /** What `Admit` answers when nothing fits as things are, by whether victims are found. */
  lemma RoomDecides(s: Sched, r: Request)
    requires Considered(s, r) && Fit(s.cards, s.running, r) == Err(NoFit)
    requires Victims(s.cards, s.running, r).Some? ==>
               Fits(s.cards, s.running - Greedy.Set(Victims(s.cards, s.running, r).value), r)
    ensures var (after, res) := Admit(s, r);
            && (res.Ok? && res.value.placement.Some? <==> Victims(s.cards, s.running, r).Some?)
            && (Victims(s.cards, s.running, r).None? && r.wait ==>
              res == Ok(Decision(None, [], true)) && after == s.(queue := s.queue + [r]))
            && (Victims(s.cards, s.running, r).None? && !r.wait ==> res == Err(NoFit) && after == s)
  {
  }

  /** A job no card takes now, and some card in service is too small for, is refused at once: it neither waits
      nor pushes anyone off, even if pushing off would make room for it. */
  lemma TooLargeRefused(s: Sched, r: Request)
    requires Considered(s, r) && TooSmallSomewhere(s.cards, r) && forall c :: c in s.cards ==> !Takes(s.running, r, c)
    ensures !Fits(s.cards, s.running, r) && Admit(s, r).0 == s && Admit(s, r).1.Err? && Admit(s, r).1 != Err(NoFit)
  {
    SomeTakes(s.cards, s.running, r);
    NoFitMeans(s.cards, s.running, r);
  }

  /** When nothing fits as things are, `Admit` places the job exactly when pushing off would make room and it gets
      so far as to look for it: some card takes the job now, or none in service is too small for it. */
  lemma AdmitPlacesExactly(s: Sched, r: Request)
    requires Valid(s) && Considered(s, r) && !Fits(s.cards, s.running, r)
    ensures var res := Admit(s, r).1;
            res.Ok? && res.value.placement.Some? <==>
              CanMakeRoom(s, r) &&
                ((exists c :: c in s.cards && Takes(s.running, r, c)) || !TooSmallSomewhere(s.cards, r))
  {
    NoFitMeans(s.cards, s.running, r);
    if Fit(s.cards, s.running, r) == Err(NoFit) {
      AdmitPreemptsWhenPossible(s, r);
    }
  }

  /** It pushes off only lower-priority preemptible jobs, and none that could be spared; everyone else stays
      where they were. */
  lemma AdmitSpares(s: Sched, r: Request)
    requires Valid(s) && Admit(s, r).1.Ok? && Admit(s, r).1.value.placement.Some?
    ensures var (after, res) := Admit(s, r);
            var v := Greedy.Set(res.value.preempt);
            && v <= Eligible(s.running, r) && r.id in after.running
            && after.running - {r.id} == s.running - v
            && res.value.placement.value == Placement(r.id, after.running[r.id].slots)
            && forall id :: id in v ==> !Fits(s.cards, s.running - (v - {id}), r)
  {
    var (after, res) := Admit(s, r);
    if Fit(s.cards, s.running, r) == Err(NoFit) {
      VictimsMinimal(s.cards, s.running, r);
    }
    var v := Greedy.Set(res.value.preempt);
    assert r.id !in s.running - v;
    assert after.running == (s.running - v)[r.id := after.running[r.id]];
  }

  /** Those pushed off are preemptible and less urgent, and the placed job, with the very request it came with, is the
      newest of all. */
  lemma AdmitMeans(s: Sched, r: Request)
    requires Valid(s) && Admit(s, r).1.Ok? && Admit(s, r).1.value.placement.Some?
    ensures var (after, res) := Admit(s, r);
            && (forall id :: id in res.value.preempt ==>
                  id in s.running && s.running[id].req.preemptible && s.running[id].req.priority < r.priority)
            && r.id in after.running && after.running[r.id].req == r
            && forall id :: id in after.running && id != r.id ==>
                 after.running[id].order < after.running[r.id].order
  {
    AdmitSpares(s, r);
    var (after, res) := Admit(s, r);
    forall id | id in res.value.preempt
      ensures id in s.running && s.running[id].req.preemptible && s.running[id].req.priority < r.priority
    {
      assert id in Greedy.Set(res.value.preempt);
    }
    forall id | id in after.running && id != r.id ensures after.running[id].order < after.running[r.id].order {
      assert id in after.running - {r.id};
    }
  }

  /** A job that fits is placed at once and pushes nobody off; a refused job changes nothing. */
  lemma AdmitPlaces(s: Sched, r: Request)
    ensures var (after, res) := Admit(s, r);
            && (res.Err? ==> after == s)
            && (Considered(s, r) && Fits(s.cards, s.running, r) ==>
                 && res == Ok(Decision(Some(Placement(r.id, Fit(s.cards, s.running, r).value)), [], false))
                 && after.running == s.running[r.id := Placed(r, Fit(s.cards, s.running, r).value, s.next + 1)])
  {
    var none: seq<string> := [];
    assert s.running - Greedy.Set(none) == s.running;
  }
}
