/** The scheduler as a state machine (internal/scheduler/scheduler.go:87-132, 329-490): what each call
    answers and the state it leaves, and what every run of calls keeps. */
module SchedulerModel {
  import opened Share
  import opened Cards
  import opened Fitting
  import opened Preemption
  import Greedy
  import Sorting

  datatype Sched = Sched(cards: seq<Card>, running: Running, queue: seq<Request>, next: nat)

  /** The invariant of every reachable state. */
  ghost predicate Valid(s: Sched) {
    Safe(s.cards, s.running) && Numbered(s.running, s.next)
  }

  /** Jobs are ranked, and none is newer than the counter. */
  ghost predicate Numbered(running: Running, next: nat) {
    Ranked(running) && forall id :: id in running ==> running[id].order <= next
  }

  lemma NumberedStart(running: Running, next: nat, p: Placed)
    requires Numbered(running, next) && p.order == next + 1
    ensures Numbered(running[p.req.id := p], next + 1)
  {
  }

  lemma NumberedWithin(a: Running, b: Running, next: nat)
    requires Numbered(b, next) && Within(a, b)
    ensures Numbered(a, next)
  {
  }

  function Seated(c: Card): Card {
    if c.seats < 1 then c.(seats := DEFAULT_SEATS) else c
  }

  function New(cards: seq<Card>): Sched {
    Sched(seq(|cards|, i requires 0 <= i < |cards| => Seated(cards[i])), map[], [], 0)
  }

  function Validate(r: Request): Option<Error> {
    if r.id == "" then Some(NoId)
    else if !(0.0 < r.share <= 1.0) then Some(BadShare)
    else if r.gpus < 0 then Some(NegativeGpus)
    else None
  }

  /** Takes `evicted` off and starts `r` on `slots`. */
  function Start(s: Sched, r: Request, slots: seq<Slot>, evicted: set<string>): Sched {
    s.(running := (s.running - evicted)[r.id := Placed(r, slots, s.next + 1)], next := s.next + 1)
  }

  function Started(r: Request, slots: seq<Slot>, preempt: seq<string>): Decision {
    Decision(Some(Placement(r.id, slots)), preempt, false)
  }

  /** Slots for a new job and the jobs pushed off for them; only a job that does not fit pushes anyone off. */
  ghost function Room(cards: seq<Card>, running: Running, r: Request): (Result<seq<Slot>>, seq<string>) {
    var f := Fit(cards, running, r);
    if f != Err(NoFit) then (f, [])
    else
      match Victims(cards, running, r)
      case Some(v) => (Fit(cards, running - Greedy.Set(v), r), v)
      case None => (f, [])
  }

  ghost function Admit(s: Sched, r: Request): (Sched, Result<Decision>) {
    if Validate(r).Some? then (s, Err(Validate(r).value))
    else if r.id in s.running then (s, Err(AlreadyRunning))
    else if |s.cards| < Want(r) then (s, Err(TooManyCards))
    else
      match Room(s.cards, s.running, r)
      case (Ok(slots), preempt) => (Start(s, r, slots, Greedy.Set(preempt)), Ok(Started(r, slots, preempt)))
      case (Err(e), _) =>
        if e == NoFit && r.wait then (s.(queue := s.queue + [r]), Ok(Decision(None, [], true))) else (s, Err(e))
  }

  function Evict(s: Sched, id: string): Sched {
    s.(running := s.running - {id})
  }

  predicate Sooner(a: Request, b: Request) {
    b.priority < a.priority
  }

  /** Highest priority first, and in queue order within a priority. */
  function Waiting(queue: seq<Request>): seq<Request> {
    Sorting.Sort(queue, Sooner)
  }

  datatype Drained = Drained(running: Running, next: nat, started: seq<Decision>, rest: seq<Request>)

  /** Starts every waiting job that fits when its turn comes. */
  ghost function DrainFrom(cards: seq<Card>, running: Running, next: nat, waiting: seq<Request>): Drained
    decreases |waiting|
  {
    if waiting == [] then Drained(running, next, [], [])
    else
      var r := waiting[0];
      match Fit(cards, running, r)
      case Ok(slots) =>
        var d := DrainFrom(cards, running[r.id := Placed(r, slots, next + 1)], next + 1, waiting[1..]);
        d.(started := [Started(r, slots, [])] + d.started)
      case Err(_) =>
        var d := DrainFrom(cards, running, next, waiting[1..]);
        d.(rest := [r] + d.rest)
  }

  /** A drain that already started some jobs and passed over others. */
  function After(started: seq<Decision>, rest: seq<Request>, d: Drained): Drained {
    d.(started := started + d.started, rest := rest + d.rest)
  }

  lemma DrainEnds(cards: seq<Card>, running: Running, next: nat, started: seq<Decision>, rest: seq<Request>)
    ensures After(started, rest, DrainFrom(cards, running, next, [])) == Drained(running, next, started, rest)
  {
  }

  lemma DrainStarts(cards: seq<Card>, running: Running, next: nat, waiting: seq<Request>,
                    started: seq<Decision>, rest: seq<Request>, dec: Decision, after: Running)
    requires waiting != [] && Fits(cards, running, waiting[0])
    requires dec == Started(waiting[0], Fit(cards, running, waiting[0]).value, [])
    requires after == running[waiting[0].id := Placed(waiting[0], Fit(cards, running, waiting[0]).value, next + 1)]
    ensures After(started, rest, DrainFrom(cards, running, next, waiting)) ==
            After(started + [dec], rest, DrainFrom(cards, after, next + 1, waiting[1..]))
  {
  }

  lemma DrainSkips(cards: seq<Card>, running: Running, next: nat, waiting: seq<Request>,
                   started: seq<Decision>, rest: seq<Request>)
    requires waiting != [] && !Fits(cards, running, waiting[0])
    ensures After(started, rest, DrainFrom(cards, running, next, waiting)) ==
            After(started, rest + [waiting[0]], DrainFrom(cards, running, next, waiting[1..]))
  {
  }

  ghost function Drain(s: Sched): (Sched, seq<Decision>) {
    var d := DrainFrom(s.cards, s.running, s.next, Waiting(s.queue));
    (Sched(s.cards, d.running, d.rest, d.next), d.started)
  }

  ghost function Release(s: Sched, id: string): (Sched, seq<Decision>) {
    Drain(Evict(s, id))
  }

  function Requeue(s: Sched, r: Request): Sched {
    s.(queue := [r.(wait := true)] + s.queue)
  }

  /** The first place of a job in the queue, or the length of the queue. */
  function IndexOf(queue: seq<Request>, id: string): (i: nat)
    ensures i <= |queue|
    ensures i < |queue| ==> queue[i].id == id
    ensures forall j :: 0 <= j < i ==> queue[j].id != id
  {
    if queue == [] then 0 else if queue[0].id == id then 0 else 1 + IndexOf(queue[1..], id)
  }

  function Cancel(s: Sched, id: string): (Sched, bool) {
    var i := IndexOf(s.queue, id);
    if i == |s.queue| then (s, false) else (s.(queue := s.queue[..i] + s.queue[i + 1..]), true)
  }

  /** What a running job asks for after a resize. */
  function Resized(r: Request, fraction: real, memMiB: int): Request {
    r.(share := fraction, memMiB := if memMiB > 0 then memMiB else r.memMiB)
  }

  /** The job's slots at the new size, on the cards it is on, beside the other running jobs. The program
      takes the card to exist, which the invariant guarantees; here a missing card is an error. */
  ghost function ResizeSlots(cards: seq<Card>, others: Running, r: Request, was: seq<Slot>): (f: Result<seq<Slot>>)
    ensures f.Ok? ==> |f.value| == |was|
    decreases |was|
  {
    if was == [] then Ok([])
    else
      var before := ResizeSlots(cards, others, r, was[..|was| - 1]);
      var sl := was[|was| - 1];
      if before.Err? then before
      else if !HasCard(cards, sl.card) then Err(NoCard)
      else
        var c := CardOf(cards, sl.card);
        match Need(r, c)
        case Err(e) => Err(e)
        case Ok((seats, mem)) =>
          if c.seats < UsedSeats(others, c.index) + seats || c.memMiB < UsedMem(others, c.index) + mem then
            Err(NoRoom(c.index))
          else
            Ok(before.value + [MakeSlot(others, r, c, seats, mem, sl.seatIDs)])
  }

  /** The first slot that cannot be resized decides the error. */
  lemma {:induction false} ResizeFails(cards: seq<Card>, others: Running, r: Request, was: seq<Slot>, i: nat)
    requires i <= |was| && ResizeSlots(cards, others, r, was[..i]).Err?
    ensures ResizeSlots(cards, others, r, was) == ResizeSlots(cards, others, r, was[..i])
    decreases |was|
  {
    if i == |was| {
      assert was[..i] == was;
    } else {
      assert was[..|was| - 1][..i] == was[..i];
      ResizeFails(cards, others, r, was[..|was| - 1], i);
    }
  }

  ghost function Resize(s: Sched, id: string, fraction: real, memMiB: int): (Sched, Result<Placement>) {
    if id !in s.running then (s, Err(NotRunning))
    else
      var p := s.running[id];
      var r := Resized(p.req, fraction, memMiB);
      if Validate(r).Some? then (s, Err(Validate(r).value))
      else
        match ResizeSlots(s.cards, s.running - {id}, r, p.slots)
        case Err(e) => (s, Err(e))
        case Ok(slots) => (s.(running := s.running[id := Placed(r, slots, p.order)]), Ok(Placement(id, slots)))
  }

  /** The first card with the given index is marked. */
  function MarkDown(cards: seq<Card>, index: int, down: bool): (marked: seq<Card>)
    ensures |marked| == |cards|
  {
    if cards == [] then []
    else if cards[0].index == index then [cards[0].(down := down)] + cards[1..]
    else [cards[0]] + MarkDown(cards[1..], index, down)
  }

  /** Which card that is. */
  lemma {:induction false} MarkDownAt(cards: seq<Card>, index: int, down: bool, i: nat)
    requires i <= |cards| && forall k :: 0 <= k < i ==> cards[k].index != index
    ensures i == |cards| ==> MarkDown(cards, index, down) == cards
    ensures i < |cards| && cards[i].index == index ==>
              MarkDown(cards, index, down) == cards[i := cards[i].(down := down)]
  {
    if i > 0 {
      MarkDownAt(cards[1..], index, down, i - 1);
    }
  }

  function SetDown(s: Sched, index: int, down: bool): (Sched, Result<()>) {
    (s.(cards := MarkDown(s.cards, index, down)), if HasCard(s.cards, index) then Ok(()) else Err(NoCard))
  }

  ghost function Available(s: Sched): (f: seq<Free>)
    ensures |f| == |s.cards|
  {
    seq(|s.cards|, i requires 0 <= i < |s.cards| =>
      var c := s.cards[i];
      Free(c.index, c.seats - UsedSeats(s.running, c.index), c.memMiB - UsedMem(s.running, c.index)))
  }

  // ---- what every call keeps ----

  lemma StartKeepsSafe(cards: seq<Card>, running: Running, next: nat, r: Request, after: Running)
    requires Safe(cards, running) && Numbered(running, next) && Fits(cards, running, r)
    requires after == running[r.id := Placed(r, Fit(cards, running, r).value, next + 1)]
    ensures Safe(cards, after) && Numbered(after, next + 1)
  {
    PlaceKeepsSafe(cards, running, r, next + 1);
    NumberedStart(running, next, Placed(r, Fit(cards, running, r).value, next + 1));
  }

  lemma WithoutKeepsSafe(s: Sched, evicted: set<string>)
    requires Valid(s)
    ensures Safe(s.cards, s.running - evicted) && Numbered(s.running - evicted, s.next)
  {
    SafeWithin(s.cards, s.running - evicted, s.running);
    NumberedWithin(s.running - evicted, s.running, s.next);
  }

  lemma StartKeepsValid(s: Sched, r: Request, evicted: set<string>)
    requires Valid(s) && Fits(s.cards, s.running - evicted, r)
    ensures Valid(Start(s, r, Fit(s.cards, s.running - evicted, r).value, evicted))
  {
    WithoutKeepsSafe(s, evicted);
    StartKeepsSafe(s.cards, s.running - evicted, s.next, r,
                   Start(s, r, Fit(s.cards, s.running - evicted, r).value, evicted).running);
  }

  /** Room found is room with the pushed-off jobs gone. */
  lemma RoomIs(cards: seq<Card>, running: Running, r: Request)
    requires Safe(cards, running) && Ranked(running)
    ensures var (f, preempt) := Room(cards, running, r);
            f.Ok? ==> f == Fit(cards, running - Greedy.Set(preempt), r)
  {
    var none: seq<string> := [];
    assert running - Greedy.Set(none) == running;
  }

  lemma AdmitKeepsValid(s: Sched, r: Request)
    requires Valid(s)
    ensures Valid(Admit(s, r).0) && Admit(s, r).0.cards == s.cards
  {
    var (f, preempt) := Room(s.cards, s.running, r);
    RoomIs(s.cards, s.running, r);
    if f.Ok? {
      StartKeepsValid(s, r, Greedy.Set(preempt));
    }
  }

  lemma {:induction false} DrainKeepsSafe(cards: seq<Card>, running: Running, next: nat, waiting: seq<Request>)
    requires Safe(cards, running) && Numbered(running, next)
    ensures var d := DrainFrom(cards, running, next, waiting);
            Safe(cards, d.running) && Numbered(d.running, d.next)
    decreases |waiting|
  {
    if waiting != [] {
      var r := waiting[0];
      match Fit(cards, running, r)
      case Ok(slots) =>
        var after := running[r.id := Placed(r, slots, next + 1)];
        StartKeepsSafe(cards, running, next, r, after);
        DrainKeepsSafe(cards, after, next + 1, waiting[1..]);
      case Err(_) =>
        DrainKeepsSafe(cards, running, next, waiting[1..]);
    }
  }

  lemma ReleaseKeepsValid(s: Sched, id: string)
    requires Valid(s)
    ensures Valid(Evict(s, id)) && Valid(Release(s, id).0) && Release(s, id).0.cards == s.cards
  {
    SafeWithin(s.cards, s.running - {id}, s.running);
    DrainKeepsSafe(s.cards, s.running - {id}, s.next, Waiting(s.queue));
  }
}
