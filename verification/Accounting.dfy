/** Who used which share of which card, and when (internal/accounting/accounting.go). Times are seconds; the
    file is the sequence of closed intervals in it. */
module Accounting {
  import opened Share
  import opened Sums

  datatype Interval = Interval(job: string, name: string, owner: string, vendor: string, card: int,
                               cardName: string, share: real, memMiB: int, start: real, end: real)

  datatype Book = Book(file: seq<Interval>, open: map<string, seq<Interval>>)

  datatype Row = Row(key: string, seconds: real, shareSeconds: real, gpuHours: real, memGiBHours: real)

  // ---- keys ----

  function Digit(d: int): char
    requires 0 <= d < 10
  {
    ['0', '1', '2', '3', '4', '5', '6', '7', '8', '9'][d]
  }

  function Digits(n: nat): string {
    if n < 10 then [Digit(n)] else Digits(n / 10) + [Digit(n % 10)]
  }

  function Decimal(n: int): string {
    if n < 0 then "-" + Digits(-n) else Digits(n)
  }

  /** The group an interval is reported under, if the grouping is known. */
  function KeyOf(iv: Interval, group: string): Option<string> {
    if group == "" || group == "job" then Some(if iv.name != "" then iv.name else iv.job)
    else if group == "owner" then Some(if iv.owner == "" then "(none)" else iv.owner)
    else if group == "card" then Some(iv.vendor + " " + Decimal(iv.card) + " " + iv.cardName)
    else if group == "vendor" then Some(iv.vendor)
    else None
  }

  predicate Known(group: string) {
    group in {"", "job", "owner", "card", "vendor"}
  }

  // ---- totals ----

  function MaxR(a: real, b: real): real {
    if a < b then b else a
  }

  function MinR(a: real, b: real): real {
    if b < a then b else a
  }

  /** Seconds of an interval inside a window. */
  function Overlap(iv: Interval, since: real, until: real): real {
    MaxR(0.0, MinR(iv.end, until) - MaxR(iv.start, since))
  }

  type Pick = Interval -> bool
  type Rate = Interval -> real

  /** What an interval adds to a report on a window: its seconds in the window at its rate, if it is picked. */
  function Worth(pick: Pick, rate: Rate, since: real, until: real): Interval -> real {
    iv => if pick(iv) then Overlap(iv, since, until) * rate(iv) else 0.0
  }

  /** Open intervals count up to the end of the window. */
  function OpenWorth(pick: Pick, rate: Rate, since: real, until: real): Interval -> real {
    (iv: Interval) => Worth(pick, rate, since, until)(iv.(end := until))
  }

  function Total(ivs: seq<Interval>, f: Interval -> real): real {
    if ivs == [] then 0.0 else Total(ivs[..|ivs| - 1], f) + f(ivs[|ivs| - 1])
  }

  ghost function Totals(open: map<string, seq<Interval>>, f: Interval -> real): map<string, real> {
    map job | job in open :: Total(open[job], f)
  }

  /** What a report over a window shows for the picked intervals. */
  ghost function Report(b: Book, pick: Pick, rate: Rate, since: real, until: real): real {
    Total(b.file, Worth(pick, rate, since, until)) + RealSum(Totals(b.open, OpenWorth(pick, rate, since, until)))
  }

  function HasKey(group: string, key: string): Pick {
    iv => KeyOf(iv, group) == Some(key)
  }

  function PerSecond(): Rate { (iv: Interval) => 1.0 }
  function PerShare(): Rate { (iv: Interval) => iv.share }
  function PerGpuHour(): Rate { (iv: Interval) => iv.share / 3600.0 }
  function PerMemHour(): Rate { (iv: Interval) => iv.memMiB as real / 1024.0 / 3600.0 }

  // ---- the ledger's steps ----

  function BeginOne(b: Book, iv: Interval): Book {
    b.(open := b.open[iv.job := (if iv.job in b.open then b.open[iv.job] else []) + [iv]])
  }

  function Begin(b: Book, ivs: seq<Interval>): Book {
    if ivs == [] then b else BeginOne(Begin(b, ivs[..|ivs| - 1]), ivs[|ivs| - 1])
  }

  function Closed(iv: Interval, t: real): Interval {
    iv.(end := if t < iv.start then iv.start else t)
  }

  function AllClosed(ivs: seq<Interval>, t: real): (c: seq<Interval>)
    ensures |c| == |ivs| && forall i :: 0 <= i < |c| ==> c[i] == Closed(ivs[i], t)
  {
    seq(|ivs|, i requires 0 <= i < |ivs| => Closed(ivs[i], t))
  }

  function End(b: Book, job: string, t: real): Book {
    if job in b.open then Book(b.file + AllClosed(b.open[job], t), b.open - {job}) else b
  }

  // ---- arithmetic of totals ----

  lemma {:induction false} TotalConcat(a: seq<Interval>, b: seq<Interval>, f: Interval -> real)
    ensures Total(a + b, f) == Total(a, f) + Total(b, f)
  {
    if b == [] {
      assert a + b == a;
    } else {
      var init := b[..|b| - 1];
      assert (a + b)[..|a + b| - 1] == a + init;
      TotalConcat(a, init, f);
    }
  }

  lemma {:induction false} TotalSame(a: seq<Interval>, b: seq<Interval>, f: Interval -> real, g: Interval -> real)
    requires |a| == |b| && forall i :: 0 <= i < |a| ==> f(a[i]) == g(b[i])
    ensures Total(a, f) == Total(b, g)
  {
    if a != [] {
      var m := |a| - 1;
      TotalSame(a[..m], b[..m], f, g);
    }
  }

  lemma {:induction false} TotalAdds(ivs: seq<Interval>, f: Interval -> real, g: Interval -> real, h: Interval -> real)
    requires forall i :: 0 <= i < |ivs| ==> h(ivs[i]) == f(ivs[i]) + g(ivs[i])
    ensures Total(ivs, h) == Total(ivs, f) + Total(ivs, g)
  {
    if ivs != [] {
      TotalAdds(ivs[..|ivs| - 1], f, g, h);
    }
  }

  lemma TotalsAdd(open: map<string, seq<Interval>>, f: Interval -> real, g: Interval -> real, h: Interval -> real)
    requires forall job, i :: job in open && 0 <= i < |open[job]| ==>
               h(open[job][i]) == f(open[job][i]) + g(open[job][i])
    ensures RealSum(Totals(open, h)) == RealSum(Totals(open, f)) + RealSum(Totals(open, g))
  {
    forall job | job in open ensures Total(open[job], h) == Total(open[job], f) + Total(open[job], g) {
      TotalAdds(open[job], f, g, h);
    }
    RealSumAdds(Totals(open, f), Totals(open, g), Totals(open, h));
  }

  lemma {:induction false} TotalScales(ivs: seq<Interval>, f: Interval -> real, scale: real -> real,
                                       g: Interval -> real)
    requires Additive(scale) && forall i :: 0 <= i < |ivs| ==> g(ivs[i]) == scale(f(ivs[i]))
    ensures Total(ivs, g) == scale(Total(ivs, f))
  {
    if ivs != [] {
      TotalScales(ivs[..|ivs| - 1], f, scale, g);
      assert Adds(scale, Total(ivs[..|ivs| - 1], f), f(ivs[|ivs| - 1]));
    }
  }

  lemma TotalsScale(open: map<string, seq<Interval>>, f: Interval -> real, scale: real -> real, g: Interval -> real)
    requires Additive(scale)
    requires forall job, i :: job in open && 0 <= i < |open[job]| ==> g(open[job][i]) == scale(f(open[job][i]))
    ensures RealSum(Totals(open, g)) == scale(RealSum(Totals(open, f)))
  {
    forall job | job in open ensures Total(open[job], g) == scale(Total(open[job], f)) {
      TotalScales(open[job], f, scale, g);
    }
    RealSumScales(Totals(open, f), scale, Totals(open, g));
  }

  /** Taking one job's open intervals out of the total. */
  lemma TotalsRemove(open: map<string, seq<Interval>>, job: string, f: Interval -> real)
    requires job in open
    ensures RealSum(Totals(open, f)) == Total(open[job], f) + RealSum(Totals(open - {job}, f))
  {
    RealSumRemove(Totals(open, f), job);
    assert Totals(open, f) - {job} == Totals(open - {job}, f);
  }

  /** Opening one more interval adds its worth. */
  lemma TotalsBegin(b: Book, iv: Interval, f: Interval -> real)
    ensures RealSum(Totals(BeginOne(b, iv).open, f)) == RealSum(Totals(b.open, f)) + f(iv)
  {
    var after := BeginOne(b, iv).open;
    var was := if iv.job in b.open then b.open[iv.job] else [];
    TotalsRemove(after, iv.job, f);
    assert (was + [iv])[..|was|] == was;
    assert after - {iv.job} == b.open - {iv.job};
    if iv.job in b.open {
      TotalsRemove(b.open, iv.job, f);
    } else {
      assert b.open - {iv.job} == b.open;
    }
  }

  // ---- reports ----

  /** The row a list of intervals gives for a key. */
  function RowOver(ivs: seq<Interval>, group: string, key: string, since: real, until: real): Row {
    Row(key, Total(ivs, Worth(HasKey(group, key), PerSecond(), since, until)),
        Total(ivs, Worth(HasKey(group, key), PerShare(), since, until)),
        Total(ivs, Worth(HasKey(group, key), PerGpuHour(), since, until)),
        Total(ivs, Worth(HasKey(group, key), PerMemHour(), since, until)))
  }

  /** The row of a key in a report on a book. */
  ghost function RowFor(b: Book, group: string, key: string, since: real, until: real): Row {
    Row(key, Report(b, HasKey(group, key), PerSecond(), since, until),
        Report(b, HasKey(group, key), PerShare(), since, until),
        Report(b, HasKey(group, key), PerGpuHour(), since, until),
        Report(b, HasKey(group, key), PerMemHour(), since, until))
  }

  function NoUse(key: string): Row {
    Row(key, 0.0, 0.0, 0.0, 0.0)
  }

  /** Adding an interval's seconds to a row. */
  function Add(r: Row, iv: Interval, sec: real): Row {
    Row(r.key, r.seconds + sec, r.shareSeconds + sec * iv.share, r.gpuHours + sec * iv.share / 3600.0,
        r.memGiBHours + sec * iv.memMiB as real / 1024.0 / 3600.0)
  }

  lemma RowStep(ivs: seq<Interval>, k: nat, group: string, key: string, since: real, until: real)
    requires k < |ivs|
    ensures RowOver(ivs[..k + 1], group, key, since, until) ==
            if KeyOf(ivs[k], group) == Some(key)
            then Add(RowOver(ivs[..k], group, key, since, until), ivs[k], Overlap(ivs[k], since, until))
            else RowOver(ivs[..k], group, key, since, until)
  {
    assert ivs[..k + 1][..k] == ivs[..k];
    var o, m := Overlap(ivs[k], since, until), ivs[k].memMiB as real;
    assert o * (m / 1024.0 / 3600.0) == o * m / 1024.0 / 3600.0;
    assert o * (ivs[k].share / 3600.0) == o * ivs[k].share / 3600.0;
  }
}
