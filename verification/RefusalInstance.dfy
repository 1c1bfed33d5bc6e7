/** A job refused although pushing another off would make room: a small card stands in service beside a large one
    that a less urgent, preemptible job holds (internal/scheduler/scheduler.go:272-277, 355-376). */
module RefusalInstance {
  import opened Share
  import opened Cards
  import opened Fitting
  import opened SchedulerModel
  import opened Instances
  import P = Preemption
  import L = SchedulerLaws
  import D = DrainLaws

  function Small(): Card { Card(0, "small", 10, 8, false) }
  function Large(): Card { Card(1, "large", 100, 8, false) }
  function Low(): Request { Request("low", 1.0, 50, 1, 0, true, false, false) }
  function High(): Request { Request("high", 1.0, 50, 1, 1, false, false, true) }

  lemma Needs()
    ensures Need(Low(), Large()) == Ok((8, 50)) && Need(High(), Large()) == Ok((8, 50))
    ensures Need(Low(), Small()).Err? && Need(High(), Small()).Err?
    ensures Validate(Low()).None? && Validate(High()).None?
  {
  }

  /** The less urgent job, placed. */
  ghost function Held(): Sched {
    Admit(New([Small(), Large()]), Low()).0
  }

  lemma LargeTakes(running: Running, r: Request)
    requires running == map[] && Need(r, Large()) == Ok((8, 50)) && Want(r) == 1
    ensures Fits([Small(), Large()], running, r)
  {
    assert SeatsOf(running, 1) == map[] && MemOf(running, 1) == map[];
    assert Takes(running, r, Large());
    assert Large() in [Small(), Large()];
    OneWanted([Small(), Large()], running, r);
  }

  lemma HeldIs()
    ensures var s := Held();
            && Valid(s) && s.cards == [Small(), Large()] && s.running.Keys == {"low"} && s.running["low"].req == Low()
  {
    var cards := [Small(), Large()];
    var s := New(cards);
    assert s.cards == cards;
    L.NewValid(cards);
    Needs();
    LargeTakes(s.running, Low());
    D.AdmitPlaces(s, Low());
    AdmitKeepsValid(s, Low());
    AdmitWrites(s, Low());
  }

  /** The job holds all of the large card. */
  lemma LargeFull(s: Sched)
    requires Valid(s) && s.cards == [Small(), Large()] && s.running.Keys == {"low"} && s.running["low"].req == Low()
    ensures UsedSeats(s.running, 1) == 8
  {
    Needs();
    var p := s.running["low"];
    assert JobOk(s.cards, p);
    assert SlotOk(s.cards, p.req, p.slots[0]);
    assert CardOf(s.cards, p.slots[0].card) == Large();
    TheSlot(p.slots, 0);
    UsageRemove(s.running, "low", 1);
    assert s.running - {"low"} == map[];
    assert SeatsOf(map[], 1) == map[];
  }

  /** The more urgent job is refused, though it would fit with the other gone and though it would wait. */
  lemma RefusedThoughRoomCanBeMade()
    ensures var (s, r) := (Held(), High());
            && Valid(s) && D.Considered(s, r) && D.CanMakeRoom(s, r)
            && Admit(s, r).0 == s && Admit(s, r).1.Err? && Admit(s, r).1 != Err(NoFit)
  {
    HeldIs();
    Refused(Held());
  }

  lemma Refused(s: Sched)
    requires Valid(s) && s.cards == [Small(), Large()] && s.running.Keys == {"low"} && s.running["low"].req == Low()
    ensures D.Considered(s, High()) && D.CanMakeRoom(s, High())
    ensures Admit(s, High()).0 == s && Admit(s, High()).1.Err? && Admit(s, High()).1 != Err(NoFit)
  {
    Needs();
    LargeFull(s);
    NoneTakes(s.running, High());
    D.TooLargeRefused(s, High());
    RoomWithout(s, "low", High());
  }

  /** The small card is too small, and the large one full. */
  lemma NoneTakes(running: Running, r: Request)
    requires UsedSeats(running, 1) == 8 && Need(r, Large()) == Ok((8, 50)) && Need(r, Small()).Err?
    ensures TooSmallSomewhere([Small(), Large()], r)
    ensures forall c :: c in [Small(), Large()] ==> !Takes(running, r, c)
  {
    assert Small() in [Small(), Large()] && !Small().down;
  }

  lemma RoomWithout(s: Sched, id: string, r: Request)
    requires s.cards == [Small(), Large()] && s.running.Keys == {id} && P.MayEvict(s.running[id], r)
    requires Need(r, Large()) == Ok((8, 50)) && Want(r) == 1
    ensures D.CanMakeRoom(s, r)
  {
    assert s.running - {id} == map[];
    LargeTakes(s.running - {id}, r);
    assert D.MakesRoom(s, r, {id});
  }
}
