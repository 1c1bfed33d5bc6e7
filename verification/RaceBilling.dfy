/** A report that races with the daemon still bills no card for more than itself: what it counts is part of what
    the ledger, taken as a whole, would report (internal/accounting/accounting.go:54-153). */
module RaceBilling {
  import opened Share
  import opened Sums
  import opened Lists
  import opened Cards
  import opened Accounting
  import opened AccountingLaws
  import opened Billing
  import opened DaemonModel
  import opened DaemonLaws
  import opened DaemonRuns
  import Greedy
  import R = LedgerRace

  function Ivs(es: seq<R.Entry>): (ivs: seq<Interval>)
    ensures |ivs| == |es| && forall i :: 0 <= i < |es| ==> ivs[i] == es[i].iv
  {
    seq(|es|, i requires 0 <= i < |es| => es[i].iv)
  }

  ghost function TakenTotals(taken: map<nat, seq<R.Entry>>, f: Interval -> real): map<nat, real> {
    map t | t in taken :: Total(Ivs(taken[t]), f)
  }

  /** The ledger taken as a whole: an interval is closed once it is taken out of memory. */
  ghost predicate Whole(s: R.State, b: Book) {
    && b.open.Keys == s.open.Keys
    && (forall job :: job in s.open ==> b.open[job] == Ivs(s.open[job]))
    && forall f: Interval -> real :: Total(b.file, f) == Total(Ivs(s.file), f) + RealSum(TakenTotals(s.taken, f))
  }

  /** What the daemon does to its ledger: closes a job's intervals, or opens one. */
  datatype Op = Closes(job: string, at: real) | Opens(iv: Interval)

  function Apply(b: Book, op: Op): Book {
    match op
    case Closes(job, at) => End(b, job, at)
    case Opens(iv) => BeginOne(b, iv)
  }

  function Perform(b: Book, ops: seq<Op>): Book {
    if ops == [] then b else Apply(Perform(b, ops[..|ops| - 1]), ops[|ops| - 1])
  }

  /** What an event does to the ledger as a whole. */
  function OpOf(e: R.Event): seq<Op> {
    match e
    case Begins(iv) => [Opens(iv)]
    case Takes(_, job, at) => [Closes(job, at)]
    case _ => []
  }

  function Done(events: seq<R.Event>): seq<Op> {
    if events == [] then [] else Done(events[..|events| - 1]) + OpOf(events[|events| - 1])
  }

  lemma {:induction false} PerformConcat(b: Book, x: seq<Op>, y: seq<Op>)
    ensures Perform(b, x + y) == Perform(Perform(b, x), y)
  {
    if y == [] {
      assert x + y == x;
    } else {
      var init := y[..|y| - 1];
      assert (x + y)[..|x + y| - 1] == x + init;
      PerformConcat(b, x, init);
    }
  }

  lemma PerformOne(b: Book, op: Op)
    ensures Perform(b, [op]) == Apply(b, op)
  {
    var one := [op];
    assert one[..|one| - 1] == [];
    assert Perform(b, []) == b;
    assert Perform(b, one) == Apply(Perform(b, one[..|one| - 1]), one[|one| - 1]);
  }

  lemma TakenWrite(taken: map<nat, seq<R.Entry>>, t: nat, es: seq<R.Entry>, f: Interval -> real)
    ensures RealSum(TakenTotals(taken[t := es], f)) == RealSum(TakenTotals(taken - {t}, f)) + Total(Ivs(es), f)
    ensures t in taken ==>
              RealSum(TakenTotals(taken, f)) == RealSum(TakenTotals(taken - {t}, f)) + Total(Ivs(taken[t]), f)
  {
    RealSumRemove(TakenTotals(taken[t := es], f), t);
    assert TakenTotals(taken[t := es], f) - {t} == TakenTotals(taken - {t}, f);
    if t in taken {
      RealSumRemove(TakenTotals(taken, f), t);
      assert TakenTotals(taken, f) - {t} == TakenTotals(taken - {t}, f);
    }
  }

  lemma TakesWhole(s: R.State, t: nat, job: string, at: real, b: Book)
    requires Whole(s, b) && R.Enabled(s, R.Takes(t, job, at))
    ensures Whole(R.Next(s, R.Takes(t, job, at)), End(b, job, at))
  {
    var closed := R.ClosedAll(R.OpenOf(s, job), at);
    var ended := if job in b.open then AllClosed(b.open[job], at) else [];
    assert Ivs(closed) == ended;
    assert s.taken - {t} == s.taken;
    var after, now := R.Next(s, R.Takes(t, job, at)), End(b, job, at);
    assert now.file == b.file + ended;
    forall f: Interval -> real
      ensures Total(now.file, f) == Total(Ivs(after.file), f) + RealSum(TakenTotals(after.taken, f))
    {
      TotalConcat(b.file, ended, f);
      TakenWrite(s.taken, t, closed, f);
    }
  }

  lemma WritesWhole(s: R.State, t: nat, b: Book)
    requires Whole(s, b) && R.Enabled(s, R.Writes(t))
    ensures Whole(R.Next(s, R.Writes(t)), b)
  {
    var e, rest := s.taken[t][0], s.taken[t][1..];
    var after := R.Next(s, R.Writes(t));
    forall f: Interval -> real
      ensures Total(b.file, f) == Total(Ivs(after.file), f) + RealSum(TakenTotals(after.taken, f))
    {
      assert Ivs(s.taken[t]) == [e.iv] + Ivs(rest);
      TotalConcat([e.iv], Ivs(rest), f);
      assert Ivs(after.file) == Ivs(s.file) + [e.iv];
      TotalConcat(Ivs(s.file), [e.iv], f);
      TakenWrite(s.taken, t, rest, f);
    }
  }

  lemma FinishesWhole(s: R.State, t: nat, b: Book)
    requires Whole(s, b) && R.Enabled(s, R.Finishes(t))
    ensures Whole(R.Next(s, R.Finishes(t)), b)
  {
    forall f: Interval -> real
      ensures RealSum(TakenTotals(s.taken - {t}, f)) == RealSum(TakenTotals(s.taken, f))
    {
      TakenWrite(s.taken, t, [], f);
    }
  }

  lemma BeginsWhole(s: R.State, iv: Interval, b: Book)
    requires Whole(s, b)
    ensures Whole(R.Next(s, R.Begins(iv)), BeginOne(b, iv))
  {
    var after, now := R.Next(s, R.Begins(iv)), BeginOne(b, iv);
    assert now.open[iv.job] == Ivs(after.open[iv.job]);
  }

  lemma StepWhole(s: R.State, e: R.Event, b: Book)
    requires Whole(s, b) && R.Enabled(s, e)
    ensures Whole(R.Next(s, e), Perform(b, OpOf(e)))
  {
    if OpOf(e) != [] {
      PerformOne(b, OpOf(e)[0]);
    }
    match e
    case Begins(iv) => BeginsWhole(s, iv, b);
    case Takes(t, job, at) => TakesWhole(s, t, job, at, b);
    case Writes(t) => WritesWhole(s, t, b);
    case Finishes(t) => FinishesWhole(s, t, b);
    case _ =>
  }

  /** Nobody holds less than nothing. */
  ghost predicate AllPlain(s: R.State) {
    forall p :: R.There(s, p).Some? ==> Plain(R.There(s, p).value.iv)
  }

  predicate Plain(iv: Interval) {
    0.0 <= iv.share && 0 <= iv.memMiB
  }

  lemma StepPlain(s: R.State, e: R.Event)
    requires AllPlain(s) && R.Enabled(s, e) && (e.Begins? ==> Plain(e.iv))
    ensures AllPlain(R.Next(s, e))
  {
    forall q | R.There(R.Next(s, e), q).Some? ensures Plain(R.There(R.Next(s, e), q).value.iv) {
      var p := R.CameFrom(s, e, q);
      if R.There(s, p).Some? && R.Moved(s, e, p) == q {
        assert Plain(R.There(s, p).value.iv);
      }
    }
  }

  /** Nothing negative is opened. */
  ghost predicate PlainOps(ops: seq<Op>) {
    forall i :: 0 <= i < |ops| && ops[i].Opens? ==> Plain(ops[i].iv)
  }

  lemma LoadedWhole(file: seq<Interval>)
    requires AllPlainIvs(file)
    ensures Whole(R.Loaded(file), Book(file, map[])) && AllPlain(R.Loaded(file))
  {
    var s := R.Loaded(file);
    assert Ivs(s.file) == file;
    forall f: Interval -> real ensures RealSum(TakenTotals(s.taken, f)) == 0.0 {
      assert TakenTotals(s.taken, f) == map[];
    }
    forall p | R.There(s, p).Some? ensures Plain(R.There(s, p).value.iv) {
      assert p.Filed? && R.There(s, p).value.iv == file[p.i];
    }
  }

  lemma DoneLast(events: seq<R.Event>)
    requires events != [] && PlainOps(Done(events))
    ensures var init, e := events[..|events| - 1], events[|events| - 1];
            PlainOps(Done(init)) && (e.Begins? ==> Plain(e.iv))
  {
    var all, init, e := Done(events), Done(events[..|events| - 1]), events[|events| - 1];
    assert forall i :: 0 <= i < |init| ==> all[i] == init[i];
    if e.Begins? {
      assert all[|init|] == Opens(e.iv);
    }
  }

  lemma {:induction false} RunWhole(file: seq<Interval>, states: seq<R.State>, events: seq<R.Event>)
    requires R.IsRun(states, events) && states[0] == R.Loaded(file)
    requires AllPlainIvs(file) && PlainOps(Done(events))
    ensures Whole(states[|events|], Perform(Book(file, map[]), Done(events))) && AllPlain(states[|events|])
    decreases |events|
  {
    if events == [] {
      LoadedWhole(file);
    } else {
      var n := |events| - 1;
      assert forall i :: 0 <= i < n ==> events[..n][i] == events[i] && states[..n + 1][i] == states[i];
      DoneLast(events);
      RunWhole(file, states[..n + 1], events[..n]);
      StepWhole(states[n], events[n], Perform(Book(file, map[]), Done(events[..n])));
      StepPlain(states[n], events[n]);
      PerformConcat(Book(file, map[]), Done(events[..n]), OpOf(events[n]));
    }
  }

  // ---- what a racing report shows ----

  /** The intervals of the report, the open ones ended at the window's end. */
  function Shown(r: R.Progress, until: real): seq<Interval>
    requires r.Gathered?
  {
    Ivs(r.read) + Capped(Ivs(r.opens), until)
  }

  ghost function JobTotals(open: map<string, seq<R.Entry>>, jobs: set<string>, f: Interval -> real): map<string, real>
    requires jobs <= open.Keys
  {
    map job | job in jobs :: Total(Ivs(open[job]), f)
  }

  lemma JobTotalsAdd(open: map<string, seq<R.Entry>>, jobs: set<string>, job: string, f: Interval -> real)
    requires jobs <= open.Keys && job in open && job !in jobs
    ensures RealSum(JobTotals(open, jobs + {job}, f)) == RealSum(JobTotals(open, jobs, f)) + Total(Ivs(open[job]), f)
  {
    RealSumRemove(JobTotals(open, jobs + {job}, f), job);
    assert JobTotals(open, jobs + {job}, f) - {job} == JobTotals(open, jobs, f);
  }

  lemma IvsConcat(a: seq<R.Entry>, b: seq<R.Entry>, f: Interval -> real)
    ensures Ivs(a + b) == Ivs(a) + Ivs(b)
    ensures Total(Ivs(a + b), f) == Total(Ivs(a), f) + Total(Ivs(b), f)
  {
    assert Ivs(a + b) == Ivs(a) + Ivs(b);
    TotalConcat(Ivs(a), Ivs(b), f);
  }

  lemma {:induction false} ConcatTotal(open: map<string, seq<R.Entry>>, jobs: seq<string>, f: Interval -> real)
    requires Distinct(jobs) && forall job :: job in jobs ==> job in open
    ensures Total(Ivs(R.Concat(open, jobs)), f) == RealSum(JobTotals(open, Greedy.Set(jobs), f))
  {
    if jobs == [] {
      assert JobTotals(open, Greedy.Set(jobs), f) == map[];
    } else {
      var init, last := jobs[..|jobs| - 1], jobs[|jobs| - 1];
      assert jobs == init + [last] && last !in init;
      ConcatTotal(open, init, f);
      IvsConcat(R.Concat(open, init), open[last], f);
      JobTotalsAdd(open, Greedy.Set(init), last, f);
      assert Greedy.Set(jobs) == Greedy.Set(init) + {last};
    }
  }

  lemma CappedTotal(ivs: seq<Interval>, pick: Pick, rate: Rate, since: real, until: real)
    ensures Total(Capped(ivs, until), Worth(pick, rate, since, until)) ==
              Total(ivs, OpenWorth(pick, rate, since, until))
  {
    TotalSame(Capped(ivs, until), ivs, Worth(pick, rate, since, until), OpenWorth(pick, rate, since, until));
  }

  lemma SameTotals(s: R.State, b: Book, f: Interval -> real)
    requires Whole(s, b)
    ensures JobTotals(s.open, s.open.Keys, f) == Totals(b.open, f)
  {
  }

  /** The open intervals shown come to what the whole ledger's open intervals do. */
  lemma OpensTotal(s: R.State, b: Book, jobs: seq<string>, pick: Pick, rate: Rate, since: real, until: real)
    requires Whole(s, b) && Distinct(jobs) && forall job :: job in jobs <==> job in s.open
    ensures Total(Capped(Ivs(R.Concat(s.open, jobs)), until), Worth(pick, rate, since, until)) ==
            RealSum(Totals(b.open, OpenWorth(pick, rate, since, until)))
  {
    var f := OpenWorth(pick, rate, since, until);
    CappedTotal(Ivs(R.Concat(s.open, jobs)), pick, rate, since, until);
    ConcatTotal(s.open, jobs, f);
    assert Greedy.Set(jobs) == s.open.Keys;
    SameTotals(s, b, f);
  }

  lemma PlainWorth(iv: Interval, pick: Pick, rate: Rate, since: real, until: real)
    requires 0.0 <= rate(iv)
    ensures 0.0 <= Worth(pick, rate, since, until)(iv)
  {
    var x, y := Overlap(iv, since, until), rate(iv);
    assert 0.0 <= x * y;
  }

  ghost predicate PlainRate(rate: Rate) {
    forall iv :: Plain(iv) ==> 0.0 <= rate(iv)
  }

  lemma PlainTotal(es: seq<R.Entry>, pick: Pick, rate: Rate, since: real, until: real)
    requires PlainRate(rate) && forall i :: 0 <= i < |es| ==> Plain(es[i].iv)
    ensures 0.0 <= Total(Ivs(es), Worth(pick, rate, since, until))
  {
    forall i | 0 <= i < |es| ensures 0.0 <= Worth(pick, rate, since, until)(Ivs(es)[i]) {
      PlainWorth(es[i].iv, pick, rate, since, until);
    }
    TotalNonNegative(Ivs(es), Worth(pick, rate, since, until));
  }

  lemma FilePlain(s: R.State, k: nat)
    requires AllPlain(s) && k <= |s.file|
    ensures forall i :: 0 <= i < |s.file[k..]| ==> Plain(s.file[k..][i].iv)
  {
    forall i | 0 <= i < |s.file| - k ensures Plain(s.file[k..][i].iv) {
      assert R.There(s, R.Filed(k + i)) == Some(s.file[k..][i]);
    }
  }

  lemma FileTotal(s: R.State, read: seq<R.Entry>, pick: Pick, rate: Rate, since: real, until: real)
    requires AllPlain(s) && read <= s.file && PlainRate(rate)
    ensures Total(Ivs(read), Worth(pick, rate, since, until)) <= Total(Ivs(s.file), Worth(pick, rate, since, until))
  {
    var rest := s.file[|read|..];
    FilePlain(s, |read|);
    PlainTotal(rest, pick, rate, since, until);
    IvsConcat(read, rest, Worth(pick, rate, since, until));
    assert s.file == read + rest;
  }

  lemma TakenTotal(s: R.State, pick: Pick, rate: Rate, since: real, until: real)
    requires AllPlain(s) && PlainRate(rate)
    ensures 0.0 <= RealSum(TakenTotals(s.taken, Worth(pick, rate, since, until)))
  {
    var f := Worth(pick, rate, since, until);
    forall t | t in s.taken ensures 0.0 <= Total(Ivs(s.taken[t]), f) {
      var es := s.taken[t];
      forall i | 0 <= i < |es| ensures Plain(es[i].iv) {
        assert R.There(s, R.Held(t, |es| - i)) == Some(es[i]);
      }
      PlainTotal(es, pick, rate, since, until);
    }
    var none: map<nat, real> := map[];
    RealSumMonotone(none, TakenTotals(s.taken, f));
  }

  /** A racing report shows no more than a report on the ledger as a whole. */
  lemma ShownWithin(s: R.State, b: Book, jobs: seq<string>, pick: Pick, rate: Rate, since: real, until: real)
    requires R.Ok(s) && Whole(s, b) && AllPlain(s) && R.Enabled(s, R.Gathers(jobs)) && PlainRate(rate)
    ensures Total(Shown(R.Next(s, R.Gathers(jobs)).report, until), Worth(pick, rate, since, until)) <=
            Report(b, pick, rate, since, until)
  {
    var w := Worth(pick, rate, since, until);
    TotalConcat(Ivs(s.report.read), Capped(Ivs(R.Concat(s.open, jobs)), until), w);
    OpensTotal(s, b, jobs, pick, rate, since, until);
    FileTotal(s, s.report.read, pick, rate, since, until);
    TakenTotal(s, pick, rate, since, until);
  }

  // ---- a ledger in the middle of a step ----

  ghost predicate AllPlainIvs(ivs: seq<Interval>) {
    forall i :: 0 <= i < |ivs| ==> Plain(ivs[i])
  }

  ghost predicate AllClose(ops: seq<Op>) {
    forall i :: 0 <= i < |ops| ==> ops[i].Closes?
  }

  ghost predicate AllOpen(ops: seq<Op>) {
    forall i :: 0 <= i < |ops| ==> ops[i].Opens?
  }

  /** `b` is `d` with some jobs closed, or short of some intervals that are opened next. */
  ghost predicate InStep(b: Book, d: Book) {
    || (exists ops :: AllClose(ops) && b == Perform(d, ops))
    || (exists ops :: AllOpen(ops) && PlainOps(ops) && d == Perform(b, ops))
  }

  lemma ClosedLess(iv: Interval, t: real, pick: Pick, rate: Rate, since: real, until: real)
    requires EndBlind(pick, rate) && 0.0 <= rate(iv)
    ensures Worth(pick, rate, since, until)(Closed(iv, t)) <= OpenWorth(pick, rate, since, until)(iv)
  {
    var c, o := Closed(iv, t), iv.(end := until);
    assert pick(c) == pick(iv) == pick(o) && rate(c) == rate(iv) == rate(o);
    var x, y, r := Overlap(c, since, until), Overlap(o, since, until), rate(iv);
    assert x <= y;
    assert x * r <= y * r;
  }

  lemma {:induction false} TotalLess(a: seq<Interval>, b: seq<Interval>, f: Interval -> real, g: Interval -> real)
    requires |a| == |b| && forall i :: 0 <= i < |a| ==> f(a[i]) <= g(b[i])
    ensures Total(a, f) <= Total(b, g)
  {
    if a != [] {
      TotalLess(a[..|a| - 1], b[..|b| - 1], f, g);
    }
  }

  ghost predicate OpenPlain(b: Book) {
    forall job, i :: job in b.open && 0 <= i < |b.open[job]| ==> Plain(b.open[job][i])
  }

  /** Closing a job shows no more of it. */
  lemma EndShrinks(b: Book, job: string, t: real, pick: Pick, rate: Rate, since: real, until: real)
    requires OpenPlain(b) && PlainRate(rate) && EndBlind(pick, rate)
    ensures Report(End(b, job, t), pick, rate, since, until) <= Report(b, pick, rate, since, until)
    ensures OpenPlain(End(b, job, t))
  {
    if job in b.open {
      var ivs, f, g := b.open[job], Worth(pick, rate, since, until), OpenWorth(pick, rate, since, until);
      forall i | 0 <= i < |ivs| ensures f(AllClosed(ivs, t)[i]) <= g(ivs[i]) {
        ClosedLess(ivs[i], t, pick, rate, since, until);
      }
      TotalLess(AllClosed(ivs, t), ivs, f, g);
      TotalConcat(b.file, AllClosed(ivs, t), f);
      TotalsRemove(b.open, job, g);
    }
  }

  lemma {:induction false} ClosingShrinks(b: Book, ops: seq<Op>, pick: Pick, rate: Rate, since: real, until: real)
    requires AllClose(ops) && OpenPlain(b) && PlainRate(rate) && EndBlind(pick, rate)
    ensures Report(Perform(b, ops), pick, rate, since, until) <= Report(b, pick, rate, since, until)
    ensures OpenPlain(Perform(b, ops))
  {
    if ops != [] {
      var init, op := ops[..|ops| - 1], ops[|ops| - 1];
      ClosingShrinks(b, init, pick, rate, since, until);
      EndShrinks(Perform(b, init), op.job, op.at, pick, rate, since, until);
    }
  }

  /** Opening more shows no less. */
  lemma {:induction false} OpeningGrows(b: Book, ops: seq<Op>, pick: Pick, rate: Rate, since: real, until: real)
    requires AllOpen(ops) && PlainOps(ops) && PlainRate(rate) && EndBlind(pick, rate)
    ensures Report(b, pick, rate, since, until) <= Report(Perform(b, ops), pick, rate, since, until)
  {
    if ops != [] {
      var init, iv := ops[..|ops| - 1], ops[|ops| - 1].iv;
      OpeningGrows(b, init, pick, rate, since, until);
      TotalsBegin(Perform(b, init), iv, OpenWorth(pick, rate, since, until));
      assert Plain(iv.(end := until));
      PlainWorth(iv.(end := until), pick, rate, since, until);
    }
  }

  lemma InStepWithin(b: Book, d: Book, pick: Pick, rate: Rate, since: real, until: real)
    requires InStep(b, d) && OpenPlain(d) && PlainRate(rate) && EndBlind(pick, rate)
    ensures Report(b, pick, rate, since, until) <= Report(d, pick, rate, since, until)
  {
    if ops :| AllClose(ops) && b == Perform(d, ops) {
      ClosingShrinks(d, ops, pick, rate, since, until);
    } else {
      var ops :| AllOpen(ops) && PlainOps(ops) && d == Perform(b, ops);
      OpeningGrows(b, ops, pick, rate, since, until);
    }
  }

  lemma RatesPlain()
    ensures PlainRate(PerShare()) && PlainRate(PerGpuHour()) && PlainRate(PerMemHour())
  {
  }

  /** The row a racing report has for a card. */
  ghost predicate RacingWithin(shown: seq<Interval>, key: string, c: Card, since: real, until: real) {
    WithinCard(RowOver(shown, "card", key, since, until), c, since, until)
  }

  lemma ColumnWithin(s: R.State, b: Book, d: Book, jobs: seq<string>, key: string, rate: Rate, since: real, until: real)
    requires R.Ok(s) && Whole(s, b) && AllPlain(s) && R.Enabled(s, R.Gathers(jobs)) && PlainRate(rate)
    requires InStep(b, d) && OpenPlain(d) && EndBlind(HasKey("card", key), rate)
    ensures Total(Shown(R.Next(s, R.Gathers(jobs)).report, until), Worth(HasKey("card", key), rate, since, until)) <=
            Report(d, HasKey("card", key), rate, since, until)
  {
    ShownWithin(s, b, jobs, HasKey("card", key), rate, since, until);
    InStepWithin(b, d, HasKey("card", key), rate, since, until);
  }

  lemma RowSmaller(shown: seq<Interval>, d: Book, key: string, c: Card, since: real, until: real)
    requires Total(shown, Worth(HasKey("card", key), PerShare(), since, until)) <=
               Report(d, HasKey("card", key), PerShare(), since, until)
    requires Total(shown, Worth(HasKey("card", key), PerGpuHour(), since, until)) <=
               Report(d, HasKey("card", key), PerGpuHour(), since, until)
    requires Total(shown, Worth(HasKey("card", key), PerMemHour(), since, until)) <=
               Report(d, HasKey("card", key), PerMemHour(), since, until)
    requires WithinCard(RowFor(d, "card", key, since, until), c, since, until)
    ensures RacingWithin(shown, key, c, since, until)
  {
  }

  /** A report that races with the ledger inside a step of a daemon within budget is within budget. */
  lemma InStepReport(s: R.State, b: Book, d: Book, refs: map<int, CardRef>, cards: seq<Card>, now: real,
                     jobs: seq<string>, c: Card, since: real, until: real)
    requires R.Ok(s) && Whole(s, b) && AllPlain(s) && R.Enabled(s, R.Gathers(jobs)) && InStep(b, d)
    requires AllLabelled(d, refs) && OneWord(refs) && Budgeted(d, cards, now) && c in cards && since <= until
    ensures RacingWithin(Shown(R.Next(s, R.Gathers(jobs)).report, until), KeyOfCard(refs, c.index), c, since, until)
  {
    var key := KeyOfCard(refs, c.index);
    RatesPlain();
    KeysEndBlind("card", key);
    LabelledPlain(d, refs);
    ColumnWithin(s, b, d, jobs, key, PerShare(), since, until);
    ColumnWithin(s, b, d, jobs, key, PerGpuHour(), since, until);
    ColumnWithin(s, b, d, jobs, key, PerMemHour(), since, until);
    RowWithinCard(d, cards, refs, now, c, since, until);
    RowSmaller(Shown(R.Next(s, R.Gathers(jobs)).report, until), d, key, c, since, until);
  }

  lemma LabelledPlain(b: Book, refs: map<int, CardRef>)
    requires AllLabelled(b, refs)
    ensures OpenPlain(b) && AllPlainIvs(b.file)
  {
  }
}
