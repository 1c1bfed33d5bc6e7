/** Choosing a host from the client (`bestHost`, cmd/gmux/hosts.go:252-282), against what the host's own
    scheduler would say. */
module Hosts {
  import opened Share
  import opened Cards
  import opened Fitting
  import M = SchedulerModel

  /** A card as a host reports it (internal/daemon/daemon.go:355-371). */
  datatype CardView = CardView(index: int, memMiB: nat, seats: int, freeSeats: int, freeMemMiB: int)

  /** What a host answered; no answer means it could not be reached. */
  datatype Candidate = Candidate(name: string, cards: seq<CardView>, reachable: bool)

  function SeatsNeeded(frac: real, seats: int): int {
    Ceil(frac * seats as real - TOLERANCE)
  }

  /** The client's test of one card. */
  predicate HasRoom(v: CardView, frac: real, memMiB: nat)
    requires 1 <= v.seats && 0.0 < frac
  {
    var need := SeatsNeeded(frac, v.seats);
    NeedNonNegative(frac, v.seats);
    var mem := if memMiB == 0 then DefaultMemMiB(need, v.seats, v.memMiB) else memMiB;
    need <= v.freeSeats && mem <= v.freeMemMiB
  }

  lemma NeedNonNegative(frac: real, seats: int)
    requires 1 <= seats && 0.0 < frac
    ensures 0 <= SeatsNeeded(frac, seats)
  {
    assert 0.0 < frac * seats as real;
  }

  function Left(v: CardView, frac: real): int {
    v.freeSeats - SeatsNeeded(frac, v.seats)
  }

  predicate Sane(cands: seq<Candidate>) {
    forall i, j :: 0 <= i < |cands| && 0 <= j < |cands[i].cards| ==> 1 <= cands[i].cards[j].seats
  }

  /** Host `i` answered and its card `j` can take the job. */
  predicate Can(cands: seq<Candidate>, frac: real, memMiB: nat, i: int, j: int)
    requires Sane(cands) && 0.0 < frac
  {
    0 <= i < |cands| && cands[i].reachable && 0 <= j < |cands[i].cards| && HasRoom(cands[i].cards[j], frac, memMiB)
  }

  /** Card `j` of host `i` has been looked at before card `to` of host `at`. */
  predicate Seen(i: int, j: int, at: int, to: int) {
    i < at || (i == at && j < to)
  }

  /** `best` is the earliest host with the most seats to spare, `left`, on its card `k`, among the cards seen. */
  ghost predicate Best(cands: seq<Candidate>, frac: real, memMiB: nat, at: int, to: int, best: int, left: int, k: int)
    requires Sane(cands) && 0.0 < frac
  {
    if best == -1 then left == -1 && forall i, j :: Seen(i, j, at, to) ==> !Can(cands, frac, memMiB, i, j)
    else
      && Seen(best, k, at, to)
      && Can(cands, frac, memMiB, best, k) && left == Left(cands[best].cards[k], frac)
      && (forall i, j :: Seen(i, j, at, to) && Can(cands, frac, memMiB, i, j) ==>
            Left(cands[i].cards[j], frac) <= left && (i < best ==> Left(cands[i].cards[j], frac) < left))
  }

  /** Looking at one more card. */
  lemma BestStep(cands: seq<Candidate>, frac: real, memMiB: nat, at: nat, to: nat, best: int, left: int, k: int)
    requires Sane(cands) && 0.0 < frac && at < |cands| && cands[at].reachable && to < |cands[at].cards|
    requires Best(cands, frac, memMiB, at, to, best, left, k)
    ensures Can(cands, frac, memMiB, at, to) && left < Left(cands[at].cards[to], frac) ==>
              Best(cands, frac, memMiB, at, to + 1, at, Left(cands[at].cards[to], frac), to)
    ensures !(Can(cands, frac, memMiB, at, to) && left < Left(cands[at].cards[to], frac)) ==>
              Best(cands, frac, memMiB, at, to + 1, best, left, k)
  {
    if Can(cands, frac, memMiB, at, to) {
      assert 0 <= Left(cands[at].cards[to], frac);
    }
  }

  /** Done with a host: it did not answer, or all its cards have been looked at. */
  lemma BestOf(cands: seq<Candidate>, frac: real, memMiB: nat, at: nat, to: nat, best: int, left: int, k: int)
    requires Sane(cands) && 0.0 < frac && at < |cands| && Best(cands, frac, memMiB, at, to, best, left, k)
    requires cands[at].reachable ==> to == |cands[at].cards|
    ensures Best(cands, frac, memMiB, at + 1, 0, best, left, k)
  {
  }

  /** The earliest host with the most seats to spare among those with room, or -1. */
  method BestHost(cands: seq<Candidate>, frac: real, memMiB: nat) returns (best: int)
    requires Sane(cands) && 0.0 < frac
    ensures best == -1 <==> forall i, j :: !Can(cands, frac, memMiB, i, j)
    ensures best == -1 || 0 <= best < |cands|
    ensures best != -1 ==> exists j ::
              && Can(cands, frac, memMiB, best, j)
              && forall h, k :: Can(cands, frac, memMiB, h, k) ==>
                   && Left(cands[h].cards[k], frac) <= Left(cands[best].cards[j], frac)
                   && (h < best ==> Left(cands[h].cards[k], frac) < Left(cands[best].cards[j], frac))
  {
    var bestFree := -1;
    best := -1;
    ghost var on := 0;
    var i := 0;
    while i < |cands|
      invariant 0 <= i <= |cands| && -1 <= best && Best(cands, frac, memMiB, i, 0, best, bestFree, on)
    {
      var c := cands[i];
      if c.reachable {
        var j := 0;
        while j < |c.cards|
          invariant 0 <= j <= |c.cards| && -1 <= best && Best(cands, frac, memMiB, i, j, best, bestFree, on)
        {
          var card := c.cards[j];
          BestStep(cands, frac, memMiB, i, j, best, bestFree, on);
          var need := SeatsNeeded(frac, card.seats);
          NeedNonNegative(frac, card.seats);
          var mem := memMiB;
          if mem == 0 {
            mem := DefaultMemMiB(need, card.seats, card.memMiB);
          }
          assert Can(cands, frac, memMiB, i, j) <==> need <= card.freeSeats && mem <= card.freeMemMiB;
          if need <= card.freeSeats && mem <= card.freeMemMiB {
            var left := card.freeSeats - need;
            if bestFree < left {
              best, bestFree, on := i, left, j;
            }
          }
          j := j + 1;
        }
        BestOf(cands, frac, memMiB, i, |c.cards|, best, bestFree, on);
      } else {
        BestOf(cands, frac, memMiB, i, 0, best, bestFree, on);
      }
      i := i + 1;
    }
    BestEnds(cands, frac, memMiB, best, bestFree, on);
  }

  /** Done with all hosts. */
  lemma BestEnds(cands: seq<Candidate>, frac: real, memMiB: nat, best: int, left: int, k: int)
    requires Sane(cands) && 0.0 < frac && -1 <= best && Best(cands, frac, memMiB, |cands|, 0, best, left, k)
    ensures best == -1 <==> forall i, j :: !Can(cands, frac, memMiB, i, j)
    ensures best == -1 || 0 <= best < |cands|
    ensures best != -1 ==>
              && Can(cands, frac, memMiB, best, k)
              && forall h, j :: Can(cands, frac, memMiB, h, j) ==>
                   && Left(cands[h].cards[j], frac) <= Left(cands[best].cards[k], frac)
                   && (h < best ==> Left(cands[h].cards[j], frac) < Left(cands[best].cards[k], frac))
  {
    assert forall i, j :: Can(cands, frac, memMiB, i, j) ==> Seen(i, j, |cands|, 0);
  }

  /** A host's report of its own state. */
  ghost function Views(s: M.Sched): (v: seq<CardView>)
    ensures |v| == |s.cards|
  {
    var free := M.Available(s);
    seq(|s.cards|, i requires 0 <= i < |s.cards| =>
      CardView(s.cards[i].index, s.cards[i].memMiB, s.cards[i].seats, free[i].seats, free[i].memMiB))
  }

  /** Client and scheduler count the same seats exactly when the share is above the rounding tolerance on
      that card; at or below it the client counts none and the scheduler counts one. */
  lemma CountsAgree(frac: real, seats: int)
    requires 0.0 < frac <= 1.0 && 1 <= seats
    ensures Seats(frac, seats).Ok?
    ensures SeatsNeeded(frac, seats) == Seats(frac, seats).value <==> TOLERANCE < frac * seats as real
    ensures frac * seats as real <= TOLERANCE ==> SeatsNeeded(frac, seats) == 0 && Seats(frac, seats).value == 1
  {
    assert frac * seats as real <= seats as real;
    assert 0.0 < frac * seats as real;
  }

  /** A request for one card of a host. */
  ghost predicate OneCard(r: Request, frac: real, memMiB: nat) {
    r.share == frac && r.memMiB == memMiB && Want(r) == 1
  }

  ghost predicate InService(s: M.Sched) {
    forall c :: c in s.cards ==> !c.down
  }

  /** The share is above the rounding tolerance on the card. */
  predicate Counts(frac: real, c: Card) {
    TOLERANCE < frac * c.seats as real
  }

  predicate AllCount(frac: real, cards: seq<Card>) {
    forall c :: c in cards ==> Counts(frac, c)
  }

  /** Nothing in use is less than nothing. */
  lemma UseNonNegative(s: M.Sched, c: Card)
    requires M.Valid(s) && c in s.cards
    ensures 0 <= UsedSeats(s.running, c.index) <= c.seats && 0 <= UsedMem(s.running, c.index) <= c.memMiB
  {
    UsageMonotone(s.cards, map[], s.running, c);
    assert SeatsOf(map[], c.index) == map[] && MemOf(map[], c.index) == map[];
    SeatCount(s.cards, s.running, c);
  }

  /** The client's test of a card is the scheduler's where the share is above the tolerance on it. */
  lemma RoomAgrees(s: M.Sched, r: Request, frac: real, memMiB: nat, k: nat)
    requires M.Valid(s) && InService(s) && OneCard(r, frac, memMiB) && k < |s.cards|
    requires 0.0 < frac <= 1.0 && Counts(frac, s.cards[k])
    ensures 1 <= s.cards[k].seats
    ensures HasRoom(Views(s)[k], frac, memMiB) <==> Takes(s.running, r, s.cards[k])
  {
    var c := s.cards[k];
    assert c in s.cards;
    CountsAgree(frac, c.seats);
    UseNonNegative(s, c);
  }

  /** The memory that goes with one seat. */
  function MemForOne(memMiB: nat, c: Card): nat
    requires 1 <= c.seats
  {
    if memMiB == 0 then DefaultMemMiB(1, c.seats, c.memMiB) else memMiB
  }

  /** Where it is not above it, the client looks for no seat and the scheduler for one. */
  lemma TinyShare(s: M.Sched, r: Request, frac: real, memMiB: nat, k: nat)
    requires M.Valid(s) && InService(s) && OneCard(r, frac, memMiB) && k < |s.cards|
    requires 0.0 < frac <= 1.0 && !Counts(frac, s.cards[k])
    ensures 1 <= s.cards[k].seats
    ensures var c := s.cards[k];
            && (HasRoom(Views(s)[k], frac, memMiB) <==>
                  UsedMem(s.running, c.index) + (if memMiB == 0 then MIN_MEM_MIB else memMiB) <= c.memMiB)
            && (Takes(s.running, r, c) <==>
                  UsedSeats(s.running, c.index) < c.seats &&
                    UsedMem(s.running, c.index) + MemForOne(memMiB, c) <= c.memMiB)
  {
    var c := s.cards[k];
    assert c in s.cards;
    CountsAgree(frac, c.seats);
    UseNonNegative(s, c);
    assert c.memMiB * 0 == 0;
  }

  /** The two tests disagree on a card exactly when the share is not above the tolerance there, the client sees room,
      and no seat is free or not the memory for one: never the other way round. */
  lemma DisagreeIff(s: M.Sched, r: Request, frac: real, memMiB: nat, k: nat)
    requires M.Valid(s) && InService(s) && OneCard(r, frac, memMiB) && k < |s.cards| && 0.0 < frac <= 1.0
    ensures 1 <= s.cards[k].seats
    ensures var c, sees := s.cards[k], HasRoom(Views(s)[k], frac, memMiB);
            && ((sees <==> Takes(s.running, r, c)) <==>
                  !(!Counts(frac, c) && sees && (c.seats <= UsedSeats(s.running, c.index) ||
                                                 c.memMiB < UsedMem(s.running, c.index) + MemForOne(memMiB, c))))
            && (Takes(s.running, r, c) ==> sees)
  {
    if Counts(frac, s.cards[k]) {
      RoomAgrees(s, r, frac, memMiB, k);
    } else {
      TinyShare(s, r, frac, memMiB, k);
    }
  }

  /** A host's one-card `fit` succeeds exactly when the client finds room on one of its cards. */
  lemma FitAgrees(s: M.Sched, r: Request, frac: real, memMiB: nat)
    requires M.Valid(s) && InService(s) && OneCard(r, frac, memMiB)
    requires 0.0 < frac <= 1.0 && AllCount(frac, s.cards)
    ensures forall k :: 0 <= k < |s.cards| ==> 1 <= s.cards[k].seats
    ensures Fits(s.cards, s.running, r) <==> exists k :: 0 <= k < |s.cards| && HasRoom(Views(s)[k], frac, memMiB)
  {
    forall k | 0 <= k < |s.cards|
      ensures 1 <= s.cards[k].seats && (HasRoom(Views(s)[k], frac, memMiB) <==> Takes(s.running, r, s.cards[k]))
    {
      assert s.cards[k] in s.cards;
      RoomAgrees(s, r, frac, memMiB, k);
    }
    CandsAre(s.cards, s.running, r);
    if Fits(s.cards, s.running, r) {
      var cd := Cands(s.cards, s.running, r)[0];
      assert cd in Cands(s.cards, s.running, r);
      var k :| 0 <= k < |s.cards| && s.cards[k] == cd.card;
      assert HasRoom(Views(s)[k], frac, memMiB);
    }
    if k :| 0 <= k < |s.cards| && HasRoom(Views(s)[k], frac, memMiB) {
      assert CandOf(s.running, r, s.cards[k]) in Cands(s.cards, s.running, r);
    }
  }

  /** The share is above the tolerance on every card of every host that answered. */
  ghost predicate CountsEverywhere(cands: seq<Candidate>, hosts: seq<M.Sched>, frac: real)
    requires |cands| == |hosts|
  {
    forall i :: 0 <= i < |cands| && cands[i].reachable ==> AllCount(frac, hosts[i].cards)
  }

  /** Every reachable host reported its own state. */
  ghost predicate Reported(cands: seq<Candidate>, hosts: seq<M.Sched>) {
    && |cands| == |hosts|
    && forall i :: 0 <= i < |cands| && cands[i].reachable ==>
         M.Valid(hosts[i]) && InService(hosts[i]) && cands[i].cards == Views(hosts[i])
  }

  /** Some card of host `i` can take the job, by the client's test, exactly when its scheduler would place it. */
  lemma PlacementAgrees(cands: seq<Candidate>, hosts: seq<M.Sched>, r: Request, frac: real, memMiB: nat, i: nat)
    requires Sane(cands) && Reported(cands, hosts) && OneCard(r, frac, memMiB) && i < |cands|
    requires 0.0 < frac <= 1.0 && CountsEverywhere(cands, hosts, frac)
    ensures (exists j :: Can(cands, frac, memMiB, i, j)) <==>
              cands[i].reachable && Fits(hosts[i].cards, hosts[i].running, r)
  {
    if cands[i].reachable {
      FitAgrees(hosts[i], r, frac, memMiB);
      if k :| 0 <= k < |hosts[i].cards| && HasRoom(Views(hosts[i])[k], frac, memMiB) {
        assert Can(cands, frac, memMiB, i, k);
      }
      if j :| Can(cands, frac, memMiB, i, j) {
        assert HasRoom(Views(hosts[i])[j], frac, memMiB);
      }
    }
  }

  /** The scheduler of host `i` would place the job now. */
  ghost predicate Would(cands: seq<Candidate>, hosts: seq<M.Sched>, r: Request, i: int)
    requires |cands| == |hosts|
  {
    0 <= i < |cands| && cands[i].reachable && Fits(hosts[i].cards, hosts[i].running, r)
  }

  /** Card `k` of host `i` takes the job, in the scheduler's terms. */
  ghost predicate Offers(cands: seq<Candidate>, hosts: seq<M.Sched>, r: Request, i: int, k: int)
    requires |cands| == |hosts|
  {
    0 <= i < |cands| && cands[i].reachable && 0 <= k < |hosts[i].cards| && Takes(hosts[i].running, r, hosts[i].cards[k])
  }

  /** The seats the scheduler would have left there. */
  ghost function Spare(hosts: seq<M.Sched>, r: Request, i: int, k: int): int
    requires 0 <= i < |hosts| && 0 <= k < |hosts[i].cards| && Need(r, hosts[i].cards[k]).Ok?
  {
    CandOf(hosts[i].running, r, hosts[i].cards[k]).left
  }

  /** What the client sees on a card is what the scheduler would do there, and leave. */
  lemma OfferAgrees(cands: seq<Candidate>, hosts: seq<M.Sched>, r: Request, frac: real, memMiB: nat, i: int, k: int)
    requires Sane(cands) && Reported(cands, hosts) && OneCard(r, frac, memMiB)
    requires 0.0 < frac <= 1.0 && CountsEverywhere(cands, hosts, frac)
    ensures Can(cands, frac, memMiB, i, k) <==> Offers(cands, hosts, r, i, k)
    ensures Offers(cands, hosts, r, i, k) ==> Left(cands[i].cards[k], frac) == Spare(hosts, r, i, k)
  {
    if 0 <= i < |cands| && cands[i].reachable && 0 <= k < |hosts[i].cards| {
      assert hosts[i].cards[k] in hosts[i].cards;
      RoomAgrees(hosts[i], r, frac, memMiB, k);
      SpareAgrees(hosts[i], r, frac, memMiB, k);
    }
  }

  lemma SpareAgrees(s: M.Sched, r: Request, frac: real, memMiB: nat, k: nat)
    requires k < |s.cards| && 1 <= s.cards[k].seats && OneCard(r, frac, memMiB)
    requires 0.0 < frac <= 1.0 && Counts(frac, s.cards[k])
    ensures Need(r, s.cards[k]).Ok? ==> Left(Views(s)[k], frac) == CandOf(s.running, r, s.cards[k]).left
  {
    CountsAgree(frac, s.cards[k].seats);
  }

  /** No card offered leaves more than card `k` of host `i`, and none of an earlier host as much. */
  ghost predicate MostSpare(cands: seq<Candidate>, hosts: seq<M.Sched>, r: Request, i: int, k: int)
    requires |cands| == |hosts|
  {
    Offers(cands, hosts, r, i, k) &&
    forall h, j :: Offers(cands, hosts, r, h, j) ==>
      Spare(hosts, r, h, j) <= Spare(hosts, r, i, k) && (h < i ==> Spare(hosts, r, h, j) < Spare(hosts, r, i, k))
  }

  /** The client's best is the scheduler's. */
  lemma BestIsMostSpare(cands: seq<Candidate>, hosts: seq<M.Sched>, r: Request, frac: real, memMiB: nat, i: int, k: int)
    requires Sane(cands) && Reported(cands, hosts) && OneCard(r, frac, memMiB)
    requires 0.0 < frac <= 1.0 && CountsEverywhere(cands, hosts, frac)
    requires Can(cands, frac, memMiB, i, k)
    requires forall h, j :: Can(cands, frac, memMiB, h, j) ==>
               && Left(cands[h].cards[j], frac) <= Left(cands[i].cards[k], frac)
               && (h < i ==> Left(cands[h].cards[j], frac) < Left(cands[i].cards[k], frac))
    ensures MostSpare(cands, hosts, r, i, k)
  {
    OfferAgrees(cands, hosts, r, frac, memMiB, i, k);
    forall h, j | Offers(cands, hosts, r, h, j)
      ensures Spare(hosts, r, h, j) <= Spare(hosts, r, i, k)
      ensures (h < i ==> Spare(hosts, r, h, j) < Spare(hosts, r, i, k))
    {
      OfferAgrees(cands, hosts, r, frac, memMiB, h, j);
    }
  }

  /** Client-side placement agrees with host admission (cmd/gmux/hosts.go:286-314): the job goes to a host
      whose scheduler would place it whenever there is one, the earliest of those with a card that would be left
      with the most seats, and otherwise to the first host that answered. */
  method PlaceRemote(cands: seq<Candidate>, frac: real, memMiB: nat, ghost hosts: seq<M.Sched>, ghost r: Request)
    returns (target: Option<nat>)
    requires Sane(cands) && Reported(cands, hosts) && OneCard(r, frac, memMiB)
    requires 0.0 < frac <= 1.0 && CountsEverywhere(cands, hosts, frac)
    ensures target.None? <==> forall i :: 0 <= i < |cands| ==> !cands[i].reachable
    ensures target.Some? ==> target.value < |cands| && cands[target.value].reachable
    ensures forall i :: Would(cands, hosts, r, i) ==> target.Some? && Would(cands, hosts, r, target.value)
    ensures target.Some? && Would(cands, hosts, r, target.value) ==>
              exists k :: MostSpare(cands, hosts, r, target.value, k)
    ensures target.Some? && !Would(cands, hosts, r, target.value) ==>
              forall i :: 0 <= i < target.value ==> !cands[i].reachable
  {
    var best := BestHost(cands, frac, memMiB);
    forall i | 0 <= i < |cands|
      ensures (exists j :: Can(cands, frac, memMiB, i, j)) <==> Would(cands, hosts, r, i)
    {
      PlacementAgrees(cands, hosts, r, frac, memMiB, i);
    }
    if 0 <= best {
      ghost var k :| && Can(cands, frac, memMiB, best, k)
                     && forall h, j :: Can(cands, frac, memMiB, h, j) ==>
                          && Left(cands[h].cards[j], frac) <= Left(cands[best].cards[k], frac)
                          && (h < best ==> Left(cands[h].cards[j], frac) < Left(cands[best].cards[k], frac));
      BestIsMostSpare(cands, hosts, r, frac, memMiB, best, k);
      return Some(best);
    }
    assert forall i :: !Would(cands, hosts, r, i);
    var i := 0;
    while i < |cands|
      invariant 0 <= i <= |cands| && forall k :: 0 <= k < i ==> !cands[k].reachable
    {
      if cands[i].reachable {
        return Some(i);
      }
      i := i + 1;
    }
    return None;
  }

  /** An instance: a card with no seat left still looks free to the client. */
  lemma TinyShareDisagrees(v: CardView, r: Request, c: Card, running: Running)
    requires v ==
               CardView(c.index, c.memMiB, c.seats, c.seats - UsedSeats(running, c.index),
                        c.memMiB - UsedMem(running, c.index))
    requires c.seats == 8 && UsedSeats(running, c.index) == 8
    requires r.share == 0.0000000001 && r.memMiB == 1 && UsedMem(running, c.index) < c.memMiB
    ensures HasRoom(v, r.share, r.memMiB) && !Takes(running, r, c)
  {
    CountsAgree(r.share, c.seats);
  }
}
