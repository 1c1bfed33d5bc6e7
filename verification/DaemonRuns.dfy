/** Whole runs of the daemon: no card is ever billed for more than itself
    (internal/daemon/daemon.go:85-136, 159-316; internal/accounting/accounting.go:104-153). */
module DaemonRuns {
  import opened Share
  import opened Sums
  import opened Cards
  import opened Accounting
  import opened Billing
  import opened CardBudget
  import opened CardKeys
  import opened DaemonModel
  import opened DaemonLaws
  import LO = LedgerObject
  import S = SchedulerModel
  import L = SchedulerLaws

  datatype Step = Submitting(request: SubmitRequest, id: string) | Reaping(id: string, proc: nat) | Stopping(id: string)
                | Resizing(id: string, fraction: real, memMiB: int) | Restarting

  /** A daemon over the ledger's file alone. */
  function Boot(cards: seq<Card>, refs: map<int, CardRef>, file: seq<Interval>, tick: nat, launched: nat): Daemon {
    Daemon(S.New(cards), Book(file, map[]), map[], refs, tick, launched)
  }

  ghost function Take(d: Daemon, env: Env, st: Step): Daemon {
    match st
    case Submitting(r, id) => Submit(d, env, r, id).0
    case Reaping(id, proc) => Reap(d, env, id, proc)
    case Stopping(id) => Stop(d, id).0
    case Resizing(id, fraction, mem) => Resize(d, env, id, fraction, mem).0
    case Restarting => Boot(d.sched.cards, d.refs, d.book.file, d.tick, d.launched)
  }

  /** A new job gets an id nobody has. */
  ghost predicate Allowed(d: Daemon, st: Step) {
    st.Submitting? ==> FreshId(d, st.id)
  }

  ghost predicate IsRun(env: Env, states: seq<Daemon>, steps: seq<Step>) {
    && |states| == |steps| + 1
    && forall i :: 0 <= i < |steps| ==> Allowed(states[i], steps[i]) && states[i + 1] == Take(states[i], env, steps[i])
  }

  ghost predicate DistinctIndices(cards: seq<Card>) {
    forall i, j :: 0 <= i < j < |cards| ==> cards[i].index != cards[j].index
  }

  // ---- starting ----

  lemma ShareNonNegative(iv: Interval, refs: map<int, CardRef>, card: int, a: real, t: real)
    requires Labelled(iv, refs)
    ensures 0.0 <= OpenWorth(OnCard(card), PerShare(), a, t)(iv) && 0.0 <= OpenWorth(OnCard(card), PerMem(), a, t)(iv)
  {
    var o := iv.(end := t);
    var x, share, mem := Overlap(o, a, t), iv.share, iv.memMiB as real;
    assert 0.0 <= x * share && 0.0 <= x * mem;
    assert o.share == share && o.memMiB == iv.memMiB;
    assert OpenWorth(OnCard(card), PerShare(), a, t)(iv) == Worth(OnCard(card), PerShare(), a, t)(o);
    assert OpenWorth(OnCard(card), PerMem(), a, t)(iv) == Worth(OnCard(card), PerMem(), a, t)(o);
  }

  lemma TotalsNonNegative(open: map<string, seq<Interval>>, f: Interval -> real)
    requires forall job, i :: job in open && 0 <= i < |open[job]| ==> 0.0 <= f(open[job][i])
    ensures 0.0 <= RealSum(Totals(open, f))
  {
    forall job | job in open ensures 0.0 <= Total(open[job], f) {
      TotalNonNegative(open[job], f);
    }
    var none: map<string, real> := map[];
    RealSumMonotone(none, Totals(open, f));
  }

  /** Losing the open intervals only makes reports smaller. */
  lemma LoseOpen(b: Book, refs: map<int, CardRef>, card: int, rate: Rate, cap: real, now: real)
    requires AllLabelled(b, refs) && (rate == PerShare() || rate == PerMem())
    requires Bounded(b, OnCard(card), rate, cap, now) && 0.0 <= cap
    ensures Bounded(Book(b.file, map[]), OnCard(card), rate, cap, now)
  {
    var lost := Book(b.file, map[]);
    forall a: real, t: real | a <= t <= now ensures Report(lost, OnCard(card), rate, a, t) <= cap * (t - a) {
      var f := OpenWorth(OnCard(card), rate, a, t);
      forall job, i | job in b.open && 0 <= i < |b.open[job]| ensures 0.0 <= f(b.open[job][i]) {
        ShareNonNegative(b.open[job][i], refs, card, a, t);
      }
      TotalsNonNegative(b.open, f);
      assert Totals(lost.open, f) == map[];
      assert Report(b, OnCard(card), rate, a, t) <= cap * (t - a);
    }
    assert Totals(lost.open, Holds(OnCard(card), rate)) == map[];
  }

  /** A file within budget: what an earlier daemon over the same cards leaves behind. */
  ghost predicate Sound(file: seq<Interval>, cards: seq<Card>, refs: map<int, CardRef>, now: real) {
    AllLabelled(Book(file, map[]), refs) && Budgeted(Book(file, map[]), S.New(cards).cards, now)
  }

  lemma EmptySound(cards: seq<Card>, refs: map<int, CardRef>, now: real)
    ensures Sound([], cards, refs, now)
  {
    var b := Book([], map[]);
    forall c | c in S.New(cards).cards ensures CardBudgeted(b, c, now) {
      assert Totals(b.open, Holds(OnCard(c.index), PerShare())) == map[];
      assert Totals(b.open, Holds(OnCard(c.index), PerMem())) == map[];
      forall a: real, t: real | a <= t <= now
        ensures Report(b, OnCard(c.index), PerShare(), a, t) == 0.0 <= 1.0 * (t - a)
        ensures Report(b, OnCard(c.index), PerMem(), a, t) == 0.0 <= c.memMiB as real * (t - a)
      {
        assert Totals(b.open, OpenWorth(OnCard(c.index), PerShare(), a, t)) == map[];
        assert Totals(b.open, OpenWorth(OnCard(c.index), PerMem(), a, t)) == map[];
        var m := c.memMiB as real;
        assert 0.0 <= m * (t - a);
      }
    }
  }

  lemma BootHolds(cards: seq<Card>, refs: map<int, CardRef>, env: Env, file: seq<Interval>, tick: nat, launched: nat)
    requires DistinctIndices(cards) && Sound(file, cards, refs, env.time(tick))
    ensures Inv(Boot(cards, refs, file, tick, launched), env)
  {
    L.NewValid(cards);
  }

  lemma RestartKeeps(d: Daemon, env: Env)
    requires Inv(d, env)
    ensures Inv(Take(d, env, Restarting), env) && Take(d, env, Restarting).sched.cards == d.sched.cards
  {
    var cards := d.sched.cards;
    assert S.New(cards).cards == cards by {
      assert CardsOk(cards);
    }
    forall c | c in cards ensures CardBudgeted(Book(d.book.file, map[]), c, env.time(d.tick)) {
      assert CardBudgeted(d.book, c, env.time(d.tick));
      LoseOpen(d.book, d.refs, c.index, PerShare(), 1.0, env.time(d.tick));
      LoseOpen(d.book, d.refs, c.index, PerMem(), c.memMiB as real, env.time(d.tick));
    }
    BootHolds(cards, d.refs, env, d.book.file, d.tick, d.launched);
  }

  // ---- runs ----

  lemma StepKeeps(d: Daemon, env: Env, st: Step)
    requires Monotone(env) && Inv(d, env) && Allowed(d, st)
    ensures Inv(Take(d, env, st), env) && Take(d, env, st).sched.cards == d.sched.cards
  {
    match st
    case Submitting(r, id) => SubmitKeeps(d, env, r, id);
    case Reaping(id, proc) => ReapKeeps(d, env, id, proc);
    case Stopping(id) => StopKeeps(d, env, id);
    case Resizing(id, fraction, mem) => ResizeKeeps(d, env, id, fraction, mem);
    case Restarting => RestartKeeps(d, env);
  }

  /** The invariant holds after every step of every run. */
  lemma {:induction false} RunKeeps(cards: seq<Card>, refs: map<int, CardRef>, env: Env, file: seq<Interval>,
                                    states: seq<Daemon>, steps: seq<Step>)
    requires Monotone(env) && DistinctIndices(cards) && Sound(file, cards, refs, env.time(0))
    requires IsRun(env, states, steps) && states[0] == Boot(cards, refs, file, 0, 0)
    ensures var last := states[|steps|];
            Inv(last, env) && last.sched.cards == S.New(cards).cards
    decreases |steps|
  {
    if steps == [] {
      BootHolds(cards, refs, env, file, 0, 0);
    } else {
      var n := |steps| - 1;
      assert forall i :: 0 <= i < n ==> steps[..n][i] == steps[i] && states[..n + 1][i] == states[i];
      RunKeeps(cards, refs, env, file, states[..n + 1], steps[..n]);
      StepKeeps(states[n], env, steps[n]);
    }
  }

  // ---- what a report on cards shows ----

  /** Vendor names are single words. */
  ghost predicate OneWord(refs: map<int, CardRef>) {
    forall card :: card in refs ==> ' ' !in refs[card].vendor
  }

  function KeyOfCard(refs: map<int, CardRef>, card: int): string {
    CardKey(RefOf(refs, card).vendor, card, RefOf(refs, card).name)
  }

  lemma SameCard(iv: Interval, refs: map<int, CardRef>, card: int)
    requires OneWord(refs) && Labelled(iv, refs)
    ensures HasKey("card", KeyOfCard(refs, card))(iv) == OnCard(card)(iv)
  {
    var own := CardKey(iv.vendor, iv.card, iv.cardName);
    assert KeyOf(iv, "card") == Some(own);
    if own == KeyOfCard(refs, card) {
      CardKeyInjective(iv.vendor, iv.card, iv.cardName, RefOf(refs, card).vendor, card, RefOf(refs, card).name);
    }
  }

  lemma SameWorth(iv: Interval, refs: map<int, CardRef>, card: int, rate: Rate, a: real, t: real)
    requires OneWord(refs) && Labelled(iv, refs)
    ensures Worth(HasKey("card", KeyOfCard(refs, card)), rate, a, t)(iv) == Worth(OnCard(card), rate, a, t)(iv)
    ensures OpenWorth(HasKey("card", KeyOfCard(refs, card)), rate, a, t)(iv) == OpenWorth(OnCard(card), rate, a, t)(iv)
  {
    SameCard(iv, refs, card);
    SameCard(iv.(end := t), refs, card);
  }

  /** The row of a card is about that card and no other. */
  lemma RowIsCard(b: Book, refs: map<int, CardRef>, card: int, rate: Rate, a: real, t: real)
    requires AllLabelled(b, refs) && OneWord(refs)
    ensures Report(b, HasKey("card", KeyOfCard(refs, card)), rate, a, t) == Report(b, OnCard(card), rate, a, t)
  {
    var f, g := Worth(HasKey("card", KeyOfCard(refs, card)), rate, a, t), Worth(OnCard(card), rate, a, t);
    forall i | 0 <= i < |b.file| ensures f(b.file[i]) == g(b.file[i]) {
      SameWorth(b.file[i], refs, card, rate, a, t);
    }
    TotalSame(b.file, b.file, f, g);
    var x, y := OpenWorth(HasKey("card", KeyOfCard(refs, card)), rate, a, t), OpenWorth(OnCard(card), rate, a, t);
    forall job | job in b.open ensures Total(b.open[job], x) == Total(b.open[job], y) {
      forall i | 0 <= i < |b.open[job]| ensures x(b.open[job][i]) == y(b.open[job][i]) {
        SameWorth(b.open[job][i], refs, card, rate, a, t);
      }
      TotalSame(b.open[job], b.open[job], x, y);
    }
    assert Totals(b.open, x) == Totals(b.open, y);
  }

  lemma WorthScales(iv: Interval, pick: Pick, rate: Rate, scaled: Rate, c: real, a: real, t: real)
    requires scaled(iv) == Times(c)(rate(iv))
    ensures Worth(pick, scaled, a, t)(iv) == Times(c)(Worth(pick, rate, a, t)(iv))
  {
    var o, r := Overlap(iv, a, t), rate(iv);
    assert o * (c * r) == c * (o * r);
  }

  /** A report at a scaled rate is the scaled report. */
  lemma ReportScales(b: Book, pick: Pick, rate: Rate, scaled: Rate, c: real, a: real, t: real)
    requires forall iv :: scaled(iv) == Times(c)(rate(iv))
    ensures Report(b, pick, scaled, a, t) == Times(c)(Report(b, pick, rate, a, t))
  {
    FileScales(b.file, pick, rate, scaled, c, a, t);
    OpenScales(b.open, pick, rate, scaled, c, a, t);
    TimesAdds(c, Total(b.file, Worth(pick, rate, a, t)), RealSum(Totals(b.open, OpenWorth(pick, rate, a, t))));
  }

  lemma FileScales(file: seq<Interval>, pick: Pick, rate: Rate, scaled: Rate, c: real, a: real, t: real)
    requires forall iv :: scaled(iv) == Times(c)(rate(iv))
    ensures Total(file, Worth(pick, scaled, a, t)) == Times(c)(Total(file, Worth(pick, rate, a, t)))
  {
    TimesAdditive(c);
    var f, g := Worth(pick, rate, a, t), Worth(pick, scaled, a, t);
    forall iv ensures g(iv) == Times(c)(f(iv)) {
      WorthScales(iv, pick, rate, scaled, c, a, t);
    }
    TotalScales(file, f, Times(c), g);
  }

  lemma OpenScales(open: map<string, seq<Interval>>, pick: Pick, rate: Rate, scaled: Rate, c: real, a: real, t: real)
    requires forall iv :: scaled(iv) == Times(c)(rate(iv))
    ensures RealSum(Totals(open, OpenWorth(pick, scaled, a, t))) ==
              Times(c)(RealSum(Totals(open, OpenWorth(pick, rate, a, t))))
  {
    TimesAdditive(c);
    var x, y := OpenWorth(pick, rate, a, t), OpenWorth(pick, scaled, a, t);
    forall iv: Interval ensures y(iv) == Times(c)(x(iv)) {
      WorthScales(iv.(end := t), pick, rate, scaled, c, a, t);
      assert x(iv) == Worth(pick, rate, a, t)(iv.(end := t)) && y(iv) == Worth(pick, scaled, a, t)(iv.(end := t));
    }
    TotalsScale(open, x, Times(c), y);
  }

  lemma PerHourIs(iv: Interval)
    ensures PerGpuHour()(iv) == Times(1.0 / 3600.0)(PerShare()(iv))
    ensures PerMemHour()(iv) == Times(1.0 / 1024.0 / 3600.0)(PerMem()(iv))
  {
  }

  /** What a card can deliver in a window. */
  ghost predicate WithinCard(row: Row, c: Card, since: real, until: real) {
    && row.shareSeconds <= until - since
    && row.gpuHours <= (until - since) / 3600.0
    && row.memGiBHours <= c.memMiB as real / 1024.0 * ((until - since) / 3600.0)
  }

  lemma RowWithinCard(b: Book, cards: seq<Card>, refs: map<int, CardRef>, now: real, c: Card, since: real, until: real)
    requires AllLabelled(b, refs) && OneWord(refs) && Budgeted(b, cards, now) && c in cards && since <= until
    ensures WithinCard(RowFor(b, "card", KeyOfCard(refs, c.index), since, until), c, since, until)
  {
    ShareReport(b, c, now, since, until);
    MemReport(b, c, now, since, until);
    RowFromReports(b, refs, c, since, until);
  }

  lemma ShareReport(b: Book, c: Card, now: real, since: real, until: real)
    requires CardBudgeted(b, c, now) && since <= until
    ensures Report(b, OnCard(c.index), PerShare(), since, until) <= 1.0 * (until - since)
  {
    CardRatesBlind(c.index);
    AnyWindow(b, OnCard(c.index), PerShare(), 1.0, now, since, until);
  }

  lemma MemReport(b: Book, c: Card, now: real, since: real, until: real)
    requires CardBudgeted(b, c, now) && since <= until
    ensures Report(b, OnCard(c.index), PerMem(), since, until) <= c.memMiB as real * (until - since)
  {
    CardRatesBlind(c.index);
    AnyWindow(b, OnCard(c.index), PerMem(), c.memMiB as real, now, since, until);
  }

  lemma RowFromReports(b: Book, refs: map<int, CardRef>, c: Card, since: real, until: real)
    requires AllLabelled(b, refs) && OneWord(refs)
    requires Report(b, OnCard(c.index), PerShare(), since, until) <= 1.0 * (until - since)
    requires Report(b, OnCard(c.index), PerMem(), since, until) <= c.memMiB as real * (until - since)
    ensures WithinCard(RowFor(b, "card", KeyOfCard(refs, c.index), since, until), c, since, until)
  {
    RowIsCard(b, refs, c.index, PerShare(), since, until);
    RowIsCard(b, refs, c.index, PerGpuHour(), since, until);
    RowIsCard(b, refs, c.index, PerMemHour(), since, until);
    HourlyReports(b, OnCard(c.index), since, until);
    Hourly(Report(b, OnCard(c.index), PerShare(), since, until), Report(b, OnCard(c.index), PerMem(), since, until),
           c.memMiB as real, until - since);
  }

  lemma HourlyReports(b: Book, pick: Pick, a: real, t: real)
    ensures Report(b, pick, PerGpuHour(), a, t) == Times(1.0 / 3600.0)(Report(b, pick, PerShare(), a, t))
    ensures Report(b, pick, PerMemHour(), a, t) == Times(1.0 / 1024.0 / 3600.0)(Report(b, pick, PerMem(), a, t))
  {
    forall iv
      ensures PerGpuHour()(iv) == Times(1.0 / 3600.0)(PerShare()(iv))
      ensures PerMemHour()(iv) == Times(1.0 / 1024.0 / 3600.0)(PerMem()(iv))
    {
      PerHourIs(iv);
    }
    ReportScales(b, pick, PerShare(), PerGpuHour(), 1.0 / 3600.0, a, t);
    ReportScales(b, pick, PerMem(), PerMemHour(), 1.0 / 1024.0 / 3600.0, a, t);
  }

  lemma Hourly(share: real, used: real, mem: real, window: real)
    requires share <= 1.0 * window && used <= mem * window
    ensures share <= window && Times(1.0 / 3600.0)(share) <= window / 3600.0
    ensures Times(1.0 / 1024.0 / 3600.0)(used) <= mem / 1024.0 * (window / 3600.0)
  {
    assert mem * window / 1024.0 / 3600.0 == mem / 1024.0 * (window / 3600.0);
  }

  /** No card is over-billed: whatever is submitted, pushed off, resized, stopped, lost on a restart or fails
      to start, the row of a card in a report over any window, past or still running, is within the card. */
  lemma NoCardOverbilled(cards: seq<Card>, refs: map<int, CardRef>, env: Env, file: seq<Interval>,
                         states: seq<Daemon>, steps: seq<Step>, since: real, until: real, rows: seq<Row>)
    requires Monotone(env) && DistinctIndices(cards) && OneWord(refs) && Sound(file, cards, refs, env.time(0))
    requires IsRun(env, states, steps) && states[0] == Boot(cards, refs, file, 0, 0)
    requires since <= until && LO.IsReport(states[|steps|].book, "card", since, until, rows)
    ensures forall c, i :: c in S.New(cards).cards && 0 <= i < |rows| && rows[i].key == KeyOfCard(refs, c.index) ==>
              WithinCard(rows[i], c, since, until)
  {
    RunKeeps(cards, refs, env, file, states, steps);
    RefsStay(env, states, steps);
    var last := states[|steps|];
    forall c, i | c in S.New(cards).cards && 0 <= i < |rows| && rows[i].key == KeyOfCard(refs, c.index)
      ensures WithinCard(rows[i], c, since, until)
    {
      RowWithinCard(last.book, last.sched.cards, refs, env.time(last.tick), c, since, until);
    }
  }

  // ---- the cards a daemon was started with stay ----

  lemma {:induction false} PauseRefs(d: Daemon, env: Env, ids: seq<string>)
    ensures PauseAll(d, env, ids).refs == d.refs
    decreases |ids|
  {
    if ids != [] {
      PauseRefs(PauseOne(d, env, ids[0]), env, ids[1..]);
    }
  }

  lemma {:induction false} StartRefs(d: Daemon, env: Env, decs: seq<Decision>)
    ensures StartAll(d, env, decs).refs == d.refs
    decreases |decs|
  {
    if decs != [] {
      StartRefs(StartOne(d, env, decs[0]), env, decs[1..]);
    }
  }

  lemma SubmitRefs(d: Daemon, env: Env, r: SubmitRequest, id: string)
    ensures Submit(d, env, r, id).0.refs == d.refs
  {
    var (sched, res) := S.Admit(d.sched, RequestFor(r, id));
    if r.hasCommand && res.Ok? {
      PauseRefs(d.(sched := sched, jobs := d.jobs[id := NewJob(r, id)]), env, res.value.preempt);
    }
  }

  lemma StepRefs(d: Daemon, env: Env, st: Step)
    ensures Take(d, env, st).refs == d.refs
  {
    match st
    case Submitting(r, id) => SubmitRefs(d, env, r, id);
    case Reaping(id, proc) =>
      if id in d.jobs && d.jobs[id].proc == Some(proc) {
        var (sched, decs) := S.Release(d.sched, id);
        StartRefs(Ended(d, env, id).(sched := sched), env, decs);
      }
    case _ =>
  }

  lemma {:induction false} RefsStay(env: Env, states: seq<Daemon>, steps: seq<Step>)
    requires IsRun(env, states, steps)
    ensures states[|steps|].refs == states[0].refs
    decreases |steps|
  {
    if steps != [] {
      var n := |steps| - 1;
      assert forall i :: 0 <= i < n ==> steps[..n][i] == steps[i] && states[..n + 1][i] == states[i];
      RefsStay(env, states[..n + 1], steps[..n]);
      StepRefs(states[n], env, steps[n]);
    }
  }
}
