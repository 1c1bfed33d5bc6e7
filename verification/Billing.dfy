/** A budget on the ledger: as long as the open intervals never hold more than a cap at once, no report shows
    more than the cap times the length of its window. */
module Billing {
  import opened Sums
  import opened Accounting
  import opened AccountingLaws

  /** What an open interval holds each second. */
  function Holds(pick: Pick, rate: Rate): Interval -> real {
    (iv: Interval) => if pick(iv) then rate(iv) else 0.0
  }

  /** What all open intervals hold at once. */
  ghost function HeldNow(b: Book, pick: Pick, rate: Rate): real {
    RealSum(Totals(b.open, Holds(pick, rate)))
  }

  /** Everything in the book happened by `now`. */
  ghost predicate Past(b: Book, now: real) {
    && (forall i :: 0 <= i < |b.file| ==> b.file[i].start <= b.file[i].end <= now)
    && (forall job, i :: job in b.open && 0 <= i < |b.open[job]| ==> b.open[job][i].start <= now)
  }

  /** Past windows are within budget. */
  ghost predicate WithinBudget(b: Book, pick: Pick, rate: Rate, cap: real, now: real) {
    forall a: real, t: real :: a <= t <= now ==> Report(b, pick, rate, a, t) <= cap * (t - a)
  }

  ghost predicate Bounded(b: Book, pick: Pick, rate: Rate, cap: real, now: real) {
    && Past(b, now)
    && WithinBudget(b, pick, rate, cap, now)
    && HeldNow(b, pick, rate) <= cap
  }

  lemma FutureWorth(iv: Interval, pick: Pick, rate: Rate, a: real, t: real)
    requires iv.start <= a <= t && EndBlind(pick, rate)
    ensures OpenWorth(pick, rate, a, t)(iv) == Times(t - a)(Holds(pick, rate)(iv))
  {
    var o, h := iv.(end := t), Holds(pick, rate)(iv);
    assert pick(o) == pick(iv) && rate(o) == rate(iv);
    assert Overlap(o, a, t) == t - a;
    assert OpenWorth(pick, rate, a, t)(iv) == Worth(pick, rate, a, t)(o);
    assert Times(t - a)(h) == (t - a) * h;
    if pick(iv) {
      assert h == rate(iv);
    } else {
      assert h == 0.0;
    }
  }

  lemma PastWorth(iv: Interval, pick: Pick, rate: Rate, a: real, t: real)
    requires iv.end <= a <= t
    ensures Worth(pick, rate, a, t)(iv) == 0.0
  {
    assert Overlap(iv, a, t) == 0.0;
  }

  lemma {:induction false} PastTotal(ivs: seq<Interval>, pick: Pick, rate: Rate, a: real, t: real)
    requires a <= t && forall i :: 0 <= i < |ivs| ==> ivs[i].end <= a
    ensures Total(ivs, Worth(pick, rate, a, t)) == 0.0
  {
    if ivs != [] {
      PastTotal(ivs[..|ivs| - 1], pick, rate, a, t);
      PastWorth(ivs[|ivs| - 1], pick, rate, a, t);
    }
  }

  lemma OpenFuture(open: map<string, seq<Interval>>, pick: Pick, rate: Rate, a: real, t: real)
    requires a <= t && EndBlind(pick, rate)
    requires forall job, i :: job in open && 0 <= i < |open[job]| ==> open[job][i].start <= a
    ensures RealSum(Totals(open, OpenWorth(pick, rate, a, t))) == Times(t - a)(RealSum(Totals(open, Holds(pick, rate))))
  {
    var f, g := Holds(pick, rate), OpenWorth(pick, rate, a, t);
    forall job, i | job in open && 0 <= i < |open[job]| ensures g(open[job][i]) == Times(t - a)(f(open[job][i])) {
      FutureWorth(open[job][i], pick, rate, a, t);
    }
    TimesAdditive(t - a);
    TotalsScale(open, f, Times(t - a), g);
  }

  /** A window that starts after the last event shows what is held now, all along. */
  lemma FutureReport(b: Book, pick: Pick, rate: Rate, now: real, a: real, t: real)
    requires Past(b, now) && now <= a <= t && EndBlind(pick, rate)
    ensures Report(b, pick, rate, a, t) == Times(t - a)(HeldNow(b, pick, rate))
  {
    PastTotal(b.file, pick, rate, a, t);
    OpenFuture(b.open, pick, rate, a, t);
  }

  lemma TimesBound(c: real, held: real, cap: real)
    requires 0.0 <= c && held <= cap
    ensures Times(c)(held) <= cap * c
  {
    assert c * held <= c * cap;
  }

  lemma LateWindow(b: Book, pick: Pick, rate: Rate, cap: real, now: real, a: real, t: real)
    requires Past(b, now) && HeldNow(b, pick, rate) <= cap && EndBlind(pick, rate) && now <= a <= t
    ensures Report(b, pick, rate, a, t) <= cap * (t - a)
  {
    FutureReport(b, pick, rate, now, a, t);
    TimesBound(t - a, HeldNow(b, pick, rate), cap);
  }

  lemma SplitCap(cap: real, a: real, m: real, t: real)
    ensures cap * (m - a) + cap * (t - m) == cap * (t - a)
  {
    Distribute(cap, m - a, t - m);
  }

  /** The budget holds for every window, past or future. */
  lemma AnyWindow(b: Book, pick: Pick, rate: Rate, cap: real, now: real, a: real, t: real)
    requires Bounded(b, pick, rate, cap, now) && EndBlind(pick, rate) && a <= t
    ensures Report(b, pick, rate, a, t) <= cap * (t - a)
  {
    if now <= a {
      LateWindow(b, pick, rate, cap, now, a, t);
    } else if now < t {
      LateWindow(b, pick, rate, cap, now, now, t);
      ReportAdds(b, pick, rate, a, now, t);
      SplitCap(cap, a, now, t);
    }
  }

  lemma Advance(b: Book, pick: Pick, rate: Rate, cap: real, now: real, later: real)
    requires Bounded(b, pick, rate, cap, now) && EndBlind(pick, rate) && now <= later
    ensures Bounded(b, pick, rate, cap, later)
  {
    forall a: real, t: real | a <= t <= later ensures Report(b, pick, rate, a, t) <= cap * (t - a) {
      AnyWindow(b, pick, rate, cap, now, a, t);
    }
  }

  /** Opening an interval that still fits under the cap keeps the budget. */
  lemma BeginBounded(b: Book, iv: Interval, pick: Pick, rate: Rate, cap: real, now: real)
    requires Bounded(b, pick, rate, cap, now) && EndBlind(pick, rate) && now <= iv.start
    requires HeldNow(b, pick, rate) + Holds(pick, rate)(iv) <= cap
    ensures Bounded(BeginOne(b, iv), pick, rate, cap, iv.start)
    ensures HeldNow(BeginOne(b, iv), pick, rate) == HeldNow(b, pick, rate) + Holds(pick, rate)(iv)
  {
    Advance(b, pick, rate, cap, now, iv.start);
    TotalsBegin(b, iv, Holds(pick, rate));
    forall a: real, t: real | a <= t <= iv.start ensures Report(BeginOne(b, iv), pick, rate, a, t) <= cap * (t - a) {
      BeginKeepsReports(b, iv, pick, rate, a, t);
    }
    BeginPast(b, iv);
  }

  lemma BeginPast(b: Book, iv: Interval)
    requires Past(b, iv.start)
    ensures Past(BeginOne(b, iv), iv.start)
  {
  }

  lemma {:induction false} TotalNonNegative(ivs: seq<Interval>, f: Interval -> real)
    requires forall i :: 0 <= i < |ivs| ==> 0.0 <= f(ivs[i])
    ensures 0.0 <= Total(ivs, f)
  {
    if ivs != [] {
      TotalNonNegative(ivs[..|ivs| - 1], f);
    }
  }

  /** Closing a job keeps the budget and frees what it held. */
  lemma EndBounded(b: Book, job: string, pick: Pick, rate: Rate, cap: real, now: real, t: real)
    requires Bounded(b, pick, rate, cap, now) && EndBlind(pick, rate) && now <= t
    requires job in b.open ==> forall i :: 0 <= i < |b.open[job]| ==> 0.0 <= Holds(pick, rate)(b.open[job][i])
    ensures Bounded(End(b, job, t), pick, rate, cap, t)
    ensures HeldNow(End(b, job, t), pick, rate) ==
            HeldNow(b, pick, rate) - if job in b.open then Total(b.open[job], Holds(pick, rate)) else 0.0
  {
    Advance(b, pick, rate, cap, now, t);
    if job in b.open {
      TotalsRemove(b.open, job, Holds(pick, rate));
      TotalNonNegative(b.open[job], Holds(pick, rate));
      forall a: real, u: real | a <= u <= t ensures Report(End(b, job, t), pick, rate, a, u) <= cap * (u - a) {
        EndKeepsReports(b, job, t, pick, rate, a, u);
      }
      EndPast(b, job, t);
    }
  }

  lemma EndPast(b: Book, job: string, t: real)
    requires Past(b, t) && job in b.open
    ensures Past(End(b, job, t), t)
  {
    var f := End(b, job, t).file;
    forall i | 0 <= i < |f| ensures f[i].start <= f[i].end <= t {
      if |b.file| <= i { assert f[i] == Closed(b.open[job][i - |b.file|], t); }
    }
  }
}
