/** Small schedulers, worked out: what a job holds and leaves when each wants one card. */
module Instances {
  import opened Share
  import opened Cards
  import opened Fitting
  import opened SchedulerModel
  import Greedy
  import P = Preemption
  import L = SchedulerLaws
  import D = DrainLaws
  import Q = QueueLaws

  /** A request for `k` eighths of one card, with 1 MiB of memory. */
  function Ask(id: string, k: int, priority: int, preemptible: bool, wait: bool): Request {
    Request(id, k as real / 8.0, 1, 1, priority, preemptible, false, wait)
  }

  /** A card of eight seats. */
  function Eight(): Card {
    Card(0, "card", 100, 8, false)
  }

  lemma AskNeeds(id: string, k: int, priority: int, preemptible: bool, wait: bool)
    requires 1 <= k <= 8
    ensures Need(Ask(id, k, priority, preemptible, wait), Eight()) == Ok((k, 1))
    ensures id != "" ==> Validate(Ask(id, k, priority, preemptible, wait)).None?
  {
  }

  /** A one-card request fits exactly when some card takes it. */
  lemma OneWanted(cards: seq<Card>, running: Running, r: Request)
    requires Want(r) == 1
    ensures Fits(cards, running, r) <==> exists c :: c in cards && Takes(running, r, c)
  {
    SomeTakes(cards, running, r);
  }

  /** The scheduler has one card, and each job on it wants that card alone. */
  ghost predicate OneCard(s: Sched, c: Card) {
    && Valid(s) && s.cards == [c] && c.seats == 8 && c.index == 0
    && forall id :: id in s.running ==> Want(s.running[id].req) == 1
  }

  /** What a job on the only card holds. */
  lemma Holds(s: Sched, c: Card, id: string)
    requires OneCard(s, c) && id in s.running
    ensures Need(s.running[id].req, c).Ok?
    ensures var (seats, mem) := Need(s.running[id].req, c).value;
            SeatsOn(s.running[id].slots, 0) == seats && MemOn(s.running[id].slots, 0) == mem
  {
    var p := s.running[id];
    assert JobOk(s.cards, p);
    assert SlotOk(s.cards, p.req, p.slots[0]);
    assert HasCard(s.cards, p.slots[0].card);
    TheSlot(p.slots, 0);
  }

  /** Taking one job off leaves what it held. */
  lemma TakeOff(s: Sched, c: Card, running: Running, id: string)
    requires OneCard(s, c) && Within(running, s.running) && id in running
    ensures Need(s.running[id].req, c).Ok?
    ensures var (seats, mem) := Need(s.running[id].req, c).value;
            && UsedSeats(running, 0) == seats + UsedSeats(running - {id}, 0)
            && UsedMem(running, 0) == mem + UsedMem(running - {id}, 0)
  {
    Holds(s, c, id);
    UsageRemove(running, id, 0);
  }

  lemma Nobody(running: Running)
    requires running == map[]
    ensures UsedSeats(running, 0) == 0 && UsedMem(running, 0) == 0
  {
    assert SeatsOf(running, 0) == map[] && MemOf(running, 0) == map[];
  }

  lemma JoinsWrites(s: Sched, c: Card, r: Request)
    requires OneCard(s, c) && !c.down && Validate(r).None? && r.id !in s.running && Want(r) == 1 && Need(r, c).Ok?
    requires UsedSeats(s.running, 0) + Need(r, c).value.0 <= 8 && UsedMem(s.running, 0) + Need(r, c).value.1 <= c.memMiB
    ensures var (t, res) := Admit(s, r);
            && Valid(t) && t.cards == s.cards && t.queue == s.queue && t.next == s.next + 1
            && res.Ok? && res.value.preempt == [] && res.value.placement.Some?
            && r.id in t.running && t.running[r.id].req == r && t.running[r.id].order == s.next + 1
            && t.running - {r.id} == s.running
  {
    assert Takes(s.running, r, c);
    OneWanted(s.cards, s.running, r);
    D.AdmitPlaces(s, r);
    AdmitKeepsValid(s, r);
    AdmitWrites(s, r);
    assert Admit(s, r).0.running - {r.id} == s.running;
  }

  /** A request the only card has room for is placed beside the others. */
  lemma Joins(s: Sched, c: Card, r: Request)
    requires OneCard(s, c) && !c.down && Validate(r).None? && r.id !in s.running && Want(r) == 1 && Need(r, c).Ok?
    requires UsedSeats(s.running, 0) + Need(r, c).value.0 <= 8 && UsedMem(s.running, 0) + Need(r, c).value.1 <= c.memMiB
    ensures var (t, res) := Admit(s, r);
            && OneCard(t, c) && t.queue == s.queue && t.next == s.next + 1
            && res.Ok? && res.value.preempt == [] && res.value.placement.Some?
            && t.running.Keys == s.running.Keys + {r.id} && Within(s.running, t.running)
            && t.running[r.id].req == r && t.running[r.id].order == s.next + 1
            && UsedSeats(t.running, 0) == UsedSeats(s.running, 0) + Need(r, c).value.0
            && UsedMem(t.running, 0) == UsedMem(s.running, 0) + Need(r, c).value.1
  {
    JoinsWrites(s, c, r);
    Joined(s, Admit(s, r).0, c, r);
  }

  lemma Joined(s: Sched, t: Sched, c: Card, r: Request)
    requires OneCard(s, c) && Valid(t) && t.cards == s.cards && r.id !in s.running && Want(r) == 1 && Need(r, c).Ok?
    requires r.id in t.running && t.running[r.id].req == r && t.running - {r.id} == s.running
    ensures OneCard(t, c) && t.running.Keys == s.running.Keys + {r.id} && Within(s.running, t.running)
    ensures UsedSeats(t.running, 0) == UsedSeats(s.running, 0) + Need(r, c).value.0
    ensures UsedMem(t.running, 0) == UsedMem(s.running, 0) + Need(r, c).value.1
  {
    assert t.running.Keys == (t.running - {r.id}).Keys + {r.id};
    StillOneCard(s, t, c, r.id);
    TakeOff(t, c, t.running, r.id);
  }

  /** The jobs on the only card, and what they hold together. */
  ghost predicate Loaded(s: Sched, c: Card, m: map<string, Request>, seats: int, mem: int) {
    && OneCard(s, c) && s.running.Keys == m.Keys && (forall id :: id in m ==> s.running[id].req == m[id])
    && UsedSeats(s.running, 0) == seats && UsedMem(s.running, 0) == mem
  }

  lemma LoadMore(s: Sched, t: Sched, c: Card, m: map<string, Request>, seats: int, mem: int, r: Request, n: int, k: int)
    requires Loaded(s, c, m, seats, mem) && !c.down && t == Admit(s, r).0
    requires Validate(r).None? && r.id !in m && Want(r) == 1
    requires Need(r, c) == Ok((n, k)) && seats + n <= 8 && mem + k <= c.memMiB
    ensures Loaded(t, c, m[r.id := r], seats + n, mem + k) && t.queue == s.queue
  {
    Joins(s, c, r);
    Loads(s, t, c, m, seats, mem, r, n, k);
  }

  lemma Loads(s: Sched, t: Sched, c: Card, m: map<string, Request>, seats: int, mem: int, r: Request, n: int, k: int)
    requires Loaded(s, c, m, seats, mem) && OneCard(t, c) && r.id !in m
    requires t.running.Keys == s.running.Keys + {r.id} && Within(s.running, t.running) && t.running[r.id].req == r
    requires UsedSeats(t.running, 0) == UsedSeats(s.running, 0) + n
    requires UsedMem(t.running, 0) == UsedMem(s.running, 0) + k
    ensures Loaded(t, c, m[r.id := r], seats + n, mem + k)
  {
    SameRequests(s.running, t.running, m, r);
  }

  lemma SameRequests(s: Running, t: Running, m: map<string, Request>, r: Request)
    requires s.Keys == m.Keys && (forall id :: id in m ==> s[id].req == m[id])
    requires t.Keys == s.Keys + {r.id} && Within(s, t) && t[r.id].req == r && r.id !in s
    ensures t.Keys == m[r.id := r].Keys && forall id :: id in m[r.id := r] ==> t[id].req == m[r.id := r][id]
  {
  }

  lemma Opens(c: Card)
    requires c.seats == 8 && c.index == 0
    ensures OneCard(New([c]), c) && New([c]).running == map[] && New([c]).queue == []
    ensures UsedSeats(New([c]).running, 0) == 0 && UsedMem(New([c]).running, 0) == 0
  {
    L.NewValid([c]);
    Nobody(New([c]).running);
  }

  /** A one-card request that finds the card full, with nobody to push off, waits. */
  lemma Queues(s: Sched, c: Card, r: Request)
    requires OneCard(s, c) && Validate(r).None? && r.id !in s.running && Want(r) == 1 && r.wait && Need(r, c).Ok?
    requires !Takes(s.running, r, c) && forall w :: w <= P.Eligible(s.running, r) ==> w == {}
    ensures Admit(s, r) == (s.(queue := s.queue + [r]), Ok(Decision(None, [], true)))
  {
    OneWanted(s.cards, s.running, r);
    NoFitMeans(s.cards, s.running, r);
    forall w | w <= P.Eligible(s.running, r) ensures !Fits(s.cards, s.running - w, r) {
      assert s.running - w == s.running;
    }
    assert !D.CanMakeRoom(s, r);
    D.AdmitPreemptsWhenPossible(s, r);
  }

  /** What an admission writes. */
  lemma AdmitWrites(s: Sched, r: Request)
    requires Admit(s, r).1.Ok? && Admit(s, r).1.value.placement.Some?
    ensures var t := Admit(s, r).0;
            t.queue == s.queue && t.cards == s.cards && t.next == s.next + 1
            && r.id in t.running && t.running[r.id].req == r && t.running[r.id].order == s.next + 1
  {
  }

  /** A one-card request that finds the card full, when pushing somebody off would make room. */
  lemma Preempts(s: Sched, c: Card, r: Request)
    requires OneCard(s, c) && Validate(r).None? && r.id !in s.running && Want(r) == 1 && Need(r, c).Ok?
    requires !Takes(s.running, r, c) && D.CanMakeRoom(s, r)
    ensures var (t, res) := Admit(s, r);
            && res.Ok? && res.value.placement.Some? && res.value.preempt != []
            && OneCard(t, c) && t.queue == s.queue
            && Greedy.Set(res.value.preempt) <= P.Eligible(s.running, r)
            && r.id in t.running && t.running[r.id].req == r
            && t.running - {r.id} == s.running - Greedy.Set(res.value.preempt)
  {
    OneWanted(s.cards, s.running, r);
    D.AdmitPlacesExactly(s, r);
    D.AdmitSpares(s, r);
    AdmitKeepsValid(s, r);
    AdmitWrites(s, r);
    Q.PlacedPushes(s, r);
    StillOneCard(s, Admit(s, r).0, c, r.id);
  }

  lemma StillOneCard(s: Sched, t: Sched, c: Card, id: string)
    requires OneCard(s, c) && Valid(t) && t.cards == s.cards && id in t.running && Want(t.running[id].req) == 1
    requires Within(t.running - {id}, s.running)
    ensures OneCard(t, c)
  {
    forall k | k in t.running ensures Want(t.running[k].req) == 1 {
      if k != id {
        assert k in t.running - {id};
      }
    }
  }
}
