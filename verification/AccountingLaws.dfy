/** Reports are additive, stable and independent of the grouping (internal/accounting/accounting.go:101-153). */
module AccountingLaws {
  import opened Share
  import opened Sums
  import opened Accounting
  import opened LedgerObject

  // ---- additivity ----

  /** A window cut in two counts every interval as the whole window does, whether it is closed or open. */
  lemma OverlapAdds(iv: Interval, a: real, m: real, c: real)
    requires a <= m <= c
    ensures Overlap(iv, a, m) + Overlap(iv, m, c) == Overlap(iv, a, c)
    ensures Overlap(iv.(end := m), a, m) + Overlap(iv.(end := c), m, c) == Overlap(iv.(end := c), a, c)
  {
  }

  /** Neither the choice of intervals nor their rate looks at when they ended. */
  ghost predicate EndBlind(pick: Pick, rate: Rate) {
    forall iv: Interval, t: real {:trigger iv.(end := t)} ::
      pick(iv.(end := t)) == pick(iv) && rate(iv.(end := t)) == rate(iv)
  }

  lemma WorthAdds(iv: Interval, pick: Pick, rate: Rate, a: real, m: real, c: real)
    requires a <= m <= c && EndBlind(pick, rate)
    ensures Worth(pick, rate, a, c)(iv) == Worth(pick, rate, a, m)(iv) + Worth(pick, rate, m, c)(iv)
    ensures OpenWorth(pick, rate, a, c)(iv) == OpenWorth(pick, rate, a, m)(iv) + OpenWorth(pick, rate, m, c)(iv)
  {
    OverlapAdds(iv, a, m, c);
    var w := rate(iv);
    Distribute(w, Overlap(iv, a, m), Overlap(iv, m, c));
    Distribute(w, Overlap(iv.(end := m), a, m), Overlap(iv.(end := c), m, c));
  }

  /** Reports on adjoining windows add up to the report on the whole. */
  lemma ReportAdds(b: Book, pick: Pick, rate: Rate, a: real, m: real, c: real)
    requires a <= m <= c && EndBlind(pick, rate)
    ensures Report(b, pick, rate, a, m) + Report(b, pick, rate, m, c) == Report(b, pick, rate, a, c)
  {
    var f, g, h := Worth(pick, rate, a, m), Worth(pick, rate, m, c), Worth(pick, rate, a, c);
    forall iv ensures h(iv) == f(iv) + g(iv) {
      WorthAdds(iv, pick, rate, a, m, c);
    }
    TotalAdds(b.file, f, g, h);
    OpenAdds(b.open, pick, rate, a, m, c);
  }

  lemma OpenAdds(open: map<string, seq<Interval>>, pick: Pick, rate: Rate, a: real, m: real, c: real)
    requires a <= m <= c && EndBlind(pick, rate)
    ensures RealSum(Totals(open, OpenWorth(pick, rate, a, c))) ==
            RealSum(Totals(open, OpenWorth(pick, rate, a, m))) + RealSum(Totals(open, OpenWorth(pick, rate, m, c)))
  {
    var f, g, h := OpenWorth(pick, rate, a, m), OpenWorth(pick, rate, m, c), OpenWorth(pick, rate, a, c);
    forall iv ensures h(iv) == f(iv) + g(iv) {
      WorthAdds(iv, pick, rate, a, m, c);
    }
    TotalsAdd(open, f, g, h);
  }

  lemma KeysEndBlind(group: string, key: string)
    ensures EndBlind(HasKey(group, key), PerSecond()) && EndBlind(HasKey(group, key), PerShare())
    ensures EndBlind(HasKey(group, key), PerGpuHour()) && EndBlind(HasKey(group, key), PerMemHour())
  {
    forall iv: Interval, t: real ensures KeyOf(iv.(end := t), group) == KeyOf(iv, group) {
    }
  }

  function Plus(a: Row, b: Row): Row {
    Row(a.key, a.seconds + b.seconds, a.shareSeconds + b.shareSeconds, a.gpuHours + b.gpuHours,
        a.memGiBHours + b.memGiBHours)
  }

  /** Per key, every column of [a, m) plus [m, c) is that of [a, c). */
  lemma RowsAdd(b: Book, group: string, key: string, a: real, m: real, c: real)
    requires a <= m <= c
    ensures Plus(RowFor(b, group, key, a, m), RowFor(b, group, key, m, c)) == RowFor(b, group, key, a, c)
  {
    KeysEndBlind(group, key);
    ReportAdds(b, HasKey(group, key), PerSecond(), a, m, c);
    ReportAdds(b, HasKey(group, key), PerShare(), a, m, c);
    ReportAdds(b, HasKey(group, key), PerGpuHour(), a, m, c);
    ReportAdds(b, HasKey(group, key), PerMemHour(), a, m, c);
  }

  // ---- stability ----

  lemma ClosedWorth(iv: Interval, t: real, pick: Pick, rate: Rate, since: real, until: real)
    requires until <= t && EndBlind(pick, rate)
    ensures Worth(pick, rate, since, until)(Closed(iv, t)) == OpenWorth(pick, rate, since, until)(iv)
  {
    var c, o := Closed(iv, t), iv.(end := until);
    assert pick(c) == pick(o) && rate(c) == rate(o);
    assert Overlap(c, since, until) == Overlap(o, since, until);
  }

  /** What closing a job writes: its open intervals, in order and as they were but for their end, which is `t`, or their
      start where that is later. */
  lemma EndMeans(b: Book, job: string, t: real)
    ensures var (after, ivs) := (End(b, job, t), if job in b.open then b.open[job] else []);
            && after.open == b.open - {job}
            && |after.file| == |b.file| + |ivs| && after.file[..|b.file|] == b.file
            && forall i :: 0 <= i < |ivs| ==> EndedAt(ivs[i], after.file[|b.file| + i], t)
  {
    if job in b.open {
      EndedAll(b.file, b.open[job], t);
    } else {
      assert b.open - {job} == b.open;
    }
  }

  predicate EndedAt(was: Interval, iv: Interval, t: real) {
    iv == was.(end := iv.end) && (was.start <= t ==> iv.end == t) && (t < was.start ==> iv.end == was.start)
  }

  lemma EndedAll(file: seq<Interval>, ivs: seq<Interval>, t: real)
    ensures var now := file + AllClosed(ivs, t);
            now[..|file|] == file && forall i :: 0 <= i < |ivs| ==> EndedAt(ivs[i], now[|file| + i], t)
  {
  }

  /** Closing at `t` leaves every window that ends by `t` as it was. */
  lemma EndKeepsReports(b: Book, job: string, t: real, pick: Pick, rate: Rate, since: real, until: real)
    requires until <= t && EndBlind(pick, rate)
    ensures Report(End(b, job, t), pick, rate, since, until) == Report(b, pick, rate, since, until)
  {
    if job in b.open {
      var ivs, f, g := b.open[job], Worth(pick, rate, since, until), OpenWorth(pick, rate, since, until);
      TotalConcat(b.file, AllClosed(ivs, t), f);
      forall i | 0 <= i < |ivs| ensures f(AllClosed(ivs, t)[i]) == g(ivs[i]) {
        ClosedWorth(ivs[i], t, pick, rate, since, until);
      }
      TotalSame(AllClosed(ivs, t), ivs, f, g);
      TotalsRemove(b.open, job, g);
    }
  }

  /** Opening an interval leaves every window that ends by its start as it was. */
  lemma BeginKeepsReports(b: Book, iv: Interval, pick: Pick, rate: Rate, since: real, until: real)
    requires until <= iv.start
    ensures Report(BeginOne(b, iv), pick, rate, since, until) == Report(b, pick, rate, since, until)
  {
    TotalsBegin(b, iv, OpenWorth(pick, rate, since, until));
    assert Overlap(iv.(end := until), since, until) == 0.0;
  }

  /** A report on the past does not change when a job is closed. */
  lemma RowsStable(b: Book, job: string, t: real, group: string, key: string, since: real, until: real)
    requires until <= t
    ensures RowFor(End(b, job, t), group, key, since, until) == RowFor(b, group, key, since, until)
  {
    KeysEndBlind(group, key);
    EndKeepsReports(b, job, t, HasKey(group, key), PerSecond(), since, until);
    EndKeepsReports(b, job, t, HasKey(group, key), PerShare(), since, until);
    EndKeepsReports(b, job, t, HasKey(group, key), PerGpuHour(), since, until);
    EndKeepsReports(b, job, t, HasKey(group, key), PerMemHour(), since, until);
  }

  // ---- grouping ----

  /** All open intervals as a report sees them, in some order. */
  ghost function Flat(open: map<string, seq<Interval>>, until: real): seq<Interval>
    decreases open.Keys
  {
    if open == map[] then []
    else
      var job :| job in open;
      assert (open - {job}).Keys == open.Keys - {job};
      Flat(open - {job}, until) + Capped(open[job], until)
  }

  function Capped(ivs: seq<Interval>, until: real): (c: seq<Interval>)
    ensures |c| == |ivs| && forall i :: 0 <= i < |c| ==> c[i] == ivs[i].(end := until)
  {
    seq(|ivs|, i requires 0 <= i < |ivs| => ivs[i].(end := until))
  }

  lemma {:induction false} FlatTotal(open: map<string, seq<Interval>>, pick: Pick, rate: Rate, since: real, until: real)
    ensures Total(Flat(open, until), Worth(pick, rate, since, until)) ==
            RealSum(Totals(open, OpenWorth(pick, rate, since, until)))
    decreases open.Keys
  {
    var f, g := Worth(pick, rate, since, until), OpenWorth(pick, rate, since, until);
    if open == map[] {
      assert Totals(open, g) == map[];
    } else {
      var job :| job in open && Flat(open, until) == Flat(open - {job}, until) + Capped(open[job], until);
      assert (open - {job}).Keys == open.Keys - {job};
      FlatTotal(open - {job}, pick, rate, since, until);
      TotalConcat(Flat(open - {job}, until), Capped(open[job], until), f);
      TotalSame(Capped(open[job], until), open[job], f, g);
      TotalsRemove(open, job, g);
    }
  }

  ghost function AllOf(b: Book, until: real): seq<Interval> {
    b.file + Flat(b.open, until)
  }

  lemma AllOfTotal(b: Book, pick: Pick, rate: Rate, since: real, until: real)
    ensures Total(AllOf(b, until), Worth(pick, rate, since, until)) == Report(b, pick, rate, since, until)
  {
    TotalConcat(b.file, Flat(b.open, until), Worth(pick, rate, since, until));
    FlatTotal(b.open, pick, rate, since, until);
  }

  /** One column of a report, added up over its rows. */
  ghost function SumRows(b: Book, rows: seq<Row>, group: string, rate: Rate, since: real, until: real): real {
    if rows == [] then 0.0
    else SumRows(b, rows[..|rows| - 1], group, rate, since, until)
           + Report(b, HasKey(group, rows[|rows| - 1].key), rate, since, until)
  }

  ghost function AnyOf(rows: seq<Row>, group: string): Pick {
    iv => exists i :: 0 <= i < |rows| && KeyOf(iv, group) == Some(rows[i].key)
  }

  ghost function Everything(): Pick {
    iv => true
  }

  /** The rows of distinct keys total the intervals under any of those keys. */
  lemma {:induction false} RowsCover(b: Book, rows: seq<Row>, group: string, rate: Rate, since: real, until: real)
    requires forall i, j :: 0 <= i < j < |rows| ==> rows[i].key != rows[j].key
    ensures SumRows(b, rows, group, rate, since, until) == Report(b, AnyOf(rows, group), rate, since, until)
  {
    var ivs := AllOf(b, until);
    AllOfTotal(b, AnyOf(rows, group), rate, since, until);
    if rows == [] {
      TotalZero(ivs, Worth(AnyOf(rows, group), rate, since, until));
    } else {
      var init, row := rows[..|rows| - 1], rows[|rows| - 1];
      RowsCover(b, init, group, rate, since, until);
      var p, q, both := AnyOf(init, group), HasKey(group, row.key), AnyOf(rows, group);
      forall iv ensures Worth(both, rate, since, until)(iv) ==
                        Worth(p, rate, since, until)(iv) + Worth(q, rate, since, until)(iv)
      {
        OneKey(iv, rows, group);
      }
      TotalAdds(ivs, Worth(p, rate, since, until), Worth(q, rate, since, until), Worth(both, rate, since, until));
      AllOfTotal(b, p, rate, since, until);
      AllOfTotal(b, q, rate, since, until);
    }
  }

  lemma OneKey(iv: Interval, rows: seq<Row>, group: string)
    requires rows != [] && forall i, j :: 0 <= i < j < |rows| ==> rows[i].key != rows[j].key
    ensures var (p, q) := (AnyOf(rows[..|rows| - 1], group), HasKey(group, rows[|rows| - 1].key));
            !(p(iv) && q(iv)) && AnyOf(rows, group)(iv) == (p(iv) || q(iv))
  {
    var init := rows[..|rows| - 1];
    if AnyOf(init, group)(iv) {
      var i :| 0 <= i < |init| && KeyOf(iv, group) == Some(init[i].key);
      assert rows[i] == init[i];
    }
    if AnyOf(rows, group)(iv) && !HasKey(group, rows[|rows| - 1].key)(iv) {
      var i :| 0 <= i < |rows| && KeyOf(iv, group) == Some(rows[i].key);
      assert init[i] == rows[i];
    }
  }

  lemma {:induction false} TotalZero(ivs: seq<Interval>, f: Interval -> real)
    requires forall iv :: f(iv) == 0.0
    ensures Total(ivs, f) == 0.0
  {
    if ivs != [] {
      TotalZero(ivs[..|ivs| - 1], f);
    }
  }

  /** A total of nothing negative that comes to nothing is a total of nothings. */
  lemma {:induction false} TotalNone(ivs: seq<Interval>, f: Interval -> real)
    requires forall iv :: 0.0 <= f(iv)
    ensures 0.0 <= Total(ivs, f)
    ensures Total(ivs, f) == 0.0 ==> forall i :: 0 <= i < |ivs| ==> f(ivs[i]) == 0.0
  {
    if ivs != [] {
      var n := |ivs| - 1;
      TotalNone(ivs[..n], f);
      if Total(ivs, f) == 0.0 {
        forall i | 0 <= i < |ivs| ensures f(ivs[i]) == 0.0 {
          if i < n { assert ivs[..n][i] == ivs[i]; }
        }
      }
    }
  }

  /** An interval without a row has no time in the window. */
  lemma NoRowNoTime(b: Book, rows: seq<Row>, group: string, since: real, until: real, i: nat)
    requires Known(group) && IsReport(b, group, since, until, rows) && i < |AllOf(b, until)|
    requires !AnyOf(rows, group)(AllOf(b, until)[i])
    ensures Overlap(AllOf(b, until)[i], since, until) == 0.0
  {
    var ivs := AllOf(b, until);
    var key := KeyOf(ivs[i], group).value;
    assert RowFor(b, group, key, since, until) == NoUse(key);
    AllOfTotal(b, HasKey(group, key), PerSecond(), since, until);
    forall iv ensures 0.0 <= Worth(HasKey(group, key), PerSecond(), since, until)(iv) {
      assert PerSecond()(iv) == 1.0;
    }
    TotalNone(ivs, Worth(HasKey(group, key), PerSecond(), since, until));
    assert Worth(HasKey(group, key), PerSecond(), since, until)(ivs[i]) == 0.0;
  }

  /** Whatever the grouping, the rows of a report add up to the same total: that of all intervals. */
  lemma GroupingIrrelevant(b: Book, rows: seq<Row>, group: string, rate: Rate, since: real, until: real)
    requires Known(group) && IsReport(b, group, since, until, rows)
    ensures SumRows(b, rows, group, rate, since, until) == Report(b, Everything(), rate, since, until)
  {
    RowsCover(b, rows, group, rate, since, until);
    var ivs, p := AllOf(b, until), AnyOf(rows, group);
    AllOfTotal(b, p, rate, since, until);
    AllOfTotal(b, Everything(), rate, since, until);
    var f, g := Worth(p, rate, since, until), Worth(Everything(), rate, since, until);
    forall i | 0 <= i < |ivs| ensures f(ivs[i]) == g(ivs[i]) {
      if !p(ivs[i]) { NoRowNoTime(b, rows, group, since, until, i); }
    }
    TotalSame(ivs, ivs, f, g);
  }
}
