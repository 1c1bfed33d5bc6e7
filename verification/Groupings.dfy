/** What the rows of a report are about, in the fields of the intervals (internal/accounting/accounting.go:101-179). */
module Groupings {
  import opened Sums
  import opened Accounting
  import D = DaemonRuns

  function OfOwner(owner: string): Pick { (iv: Interval) => iv.owner == owner }
  function OfNobody(): Pick { (iv: Interval) => iv.owner == "" || iv.owner == "(none)" }
  function OfVendor(vendor: string): Pick { (iv: Interval) => iv.vendor == vendor }
  function OfJob(name: string): Pick {
    (iv: Interval) => (iv.name != "" && iv.name == name) || (iv.name == "" && iv.job == name)
  }

  function Seconds(): Rate { (iv: Interval) => 1.0 }
  function Shares(): Rate { (iv: Interval) => iv.share }
  function Memory(): Rate { (iv: Interval) => iv.memMiB as real }

  lemma SamePicks(b: Book, p: Pick, q: Pick, rate: Rate, since: real, until: real)
    requires forall iv :: p(iv) == q(iv)
    ensures Report(b, p, rate, since, until) == Report(b, q, rate, since, until)
  {
    var f, g := Worth(p, rate, since, until), Worth(q, rate, since, until);
    TotalSame(b.file, b.file, f, g);
    var x, y := OpenWorth(p, rate, since, until), OpenWorth(q, rate, since, until);
    forall job | job in b.open ensures Total(b.open[job], x) == Total(b.open[job], y) {
      forall i | 0 <= i < |b.open[job]| ensures x(b.open[job][i]) == y(b.open[job][i]) {
        assert p(b.open[job][i].(end := until)) == q(b.open[job][i].(end := until));
      }
      TotalSame(b.open[job], b.open[job], x, y);
    }
    assert Totals(b.open, x) == Totals(b.open, y);
  }

  lemma SameRates(b: Book, pick: Pick, r: Rate, q: Rate, since: real, until: real)
    requires forall iv :: r(iv) == q(iv)
    ensures Report(b, pick, r, since, until) == Report(b, pick, q, since, until)
  {
    var f, g := Worth(pick, r, since, until), Worth(pick, q, since, until);
    TotalSame(b.file, b.file, f, g);
    var x, y := OpenWorth(pick, r, since, until), OpenWorth(pick, q, since, until);
    forall job | job in b.open ensures Total(b.open[job], x) == Total(b.open[job], y) {
      forall i | 0 <= i < |b.open[job]| ensures x(b.open[job][i]) == y(b.open[job][i]) {
        assert r(b.open[job][i].(end := until)) == q(b.open[job][i].(end := until));
      }
      TotalSame(b.open[job], b.open[job], x, y);
    }
    assert Totals(b.open, x) == Totals(b.open, y);
  }

  /** The row holds the seconds of the picked intervals in the window; their seconds times shares; that in whole-card
      hours; and their seconds times memory, in GiB hours. */
  ghost predicate Shows(b: Book, pick: Pick, since: real, until: real, row: Row) {
    && row.seconds == Report(b, pick, Seconds(), since, until)
    && row.shareSeconds == Report(b, pick, Shares(), since, until)
    && row.gpuHours * 3600.0 == Report(b, pick, Shares(), since, until)
    && row.memGiBHours * 3600.0 * 1024.0 == Report(b, pick, Memory(), since, until)
  }

  lemma RowShows(b: Book, group: string, key: string, pick: Pick, since: real, until: real)
    requires forall iv :: HasKey(group, key)(iv) == pick(iv)
    ensures Shows(b, pick, since, until, RowFor(b, group, key, since, until))
  {
    SamePicks(b, HasKey(group, key), pick, PerSecond(), since, until);
    SamePicks(b, HasKey(group, key), pick, PerShare(), since, until);
    SamePicks(b, HasKey(group, key), pick, PerGpuHour(), since, until);
    SamePicks(b, HasKey(group, key), pick, PerMemHour(), since, until);
    Columns(b, pick, since, until);
  }

  lemma Columns(b: Book, pick: Pick, since: real, until: real)
    ensures Report(b, pick, PerSecond(), since, until) == Report(b, pick, Seconds(), since, until)
    ensures Report(b, pick, PerShare(), since, until) == Report(b, pick, Shares(), since, until)
    ensures Report(b, pick, PerGpuHour(), since, until) * 3600.0 == Report(b, pick, Shares(), since, until)
    ensures Report(b, pick, PerMemHour(), since, until) * 3600.0 * 1024.0 == Report(b, pick, Memory(), since, until)
  {
    SameRates(b, pick, PerSecond(), Seconds(), since, until);
    SameRates(b, pick, PerShare(), Shares(), since, until);
    HourColumns(b, pick, since, until);
  }

  lemma HourColumns(b: Book, pick: Pick, since: real, until: real)
    ensures Report(b, pick, PerGpuHour(), since, until) * 3600.0 == Report(b, pick, Shares(), since, until)
    ensures Report(b, pick, PerMemHour(), since, until) * 3600.0 * 1024.0 == Report(b, pick, Memory(), since, until)
  {
    forall iv
      ensures Shares()(iv) == Times(3600.0)(PerGpuHour()(iv))
      ensures Memory()(iv) == Times(3600.0 * 1024.0)(PerMemHour()(iv))
    {
    }
    D.ReportScales(b, pick, PerGpuHour(), Shares(), 3600.0, since, until);
    D.ReportScales(b, pick, PerMemHour(), Memory(), 3600.0 * 1024.0, since, until);
  }

  /** Grouped by owner, the row of an owner is about the intervals of that owner, and the row "(none)" about those of
      nobody. */
  lemma ByOwner(b: Book, owner: string, since: real, until: real)
    ensures owner !in {"", "(none)"} ==> Shows(b, OfOwner(owner), since, until, RowFor(b, "owner", owner, since, until))
    ensures Shows(b, OfNobody(), since, until, RowFor(b, "owner", "(none)", since, until))
  {
    if owner !in {"", "(none)"} {
      forall iv: Interval ensures HasKey("owner", owner)(iv) == OfOwner(owner)(iv) {
      }
      RowShows(b, "owner", owner, OfOwner(owner), since, until);
    }
    forall iv: Interval ensures HasKey("owner", "(none)")(iv) == OfNobody()(iv) {
    }
    RowShows(b, "owner", "(none)", OfNobody(), since, until);
  }

  /** Grouped by vendor, the row of a vendor is about that vendor's cards. */
  lemma ByVendor(b: Book, vendor: string, since: real, until: real)
    ensures Shows(b, OfVendor(vendor), since, until, RowFor(b, "vendor", vendor, since, until))
  {
    forall iv: Interval ensures HasKey("vendor", vendor)(iv) == OfVendor(vendor)(iv) {
    }
    RowShows(b, "vendor", vendor, OfVendor(vendor), since, until);
  }

  /** Grouped by job, as when nothing is said, the row of a name is about the jobs of that name, and the job of that id
      if it has no name. */
  lemma ByJob(b: Book, group: string, name: string, since: real, until: real)
    requires group == "" || group == "job"
    ensures Shows(b, OfJob(name), since, until, RowFor(b, group, name, since, until))
  {
    forall iv: Interval ensures HasKey(group, name)(iv) == OfJob(name)(iv) {
    }
    RowShows(b, group, name, OfJob(name), since, until);
  }

  /** What one closed interval counts in a window: the time it has inside. */
  lemma OneInterval(iv: Interval, pick: Pick, since: real, until: real)
    requires iv.start <= iv.end && since <= until
    ensures var b := Book([iv], map[]);
            var t := Report(b, pick, Seconds(), since, until);
            && (pick(iv) && since <= iv.start && iv.end <= until ==> t == iv.end - iv.start)
            && (pick(iv) && iv.start <= since && until <= iv.end ==> t == until - since)
            && (pick(iv) && iv.start <= since <= iv.end <= until ==> t == iv.end - since)
            && (pick(iv) && since <= iv.start <= until <= iv.end ==> t == until - iv.start)
            && (!pick(iv) || iv.end <= since || until <= iv.start ==> t == 0.0)
            && Report(b, pick, Shares(), since, until) == t * iv.share
            && Report(b, pick, Memory(), since, until) == t * iv.memMiB as real
  {
    OneTotal(iv, Worth(pick, Seconds(), since, until));
    OneTotal(iv, Worth(pick, Shares(), since, until));
    OneTotal(iv, Worth(pick, Memory(), since, until));
    forall f: Interval -> real ensures RealSum(Totals(map[], f)) == 0.0 {
      assert Totals(map[], f) == map[];
    }
  }

  lemma OneTotal(iv: Interval, f: Interval -> real)
    ensures Total([iv], f) == f(iv)
  {
    var one := [iv];
    assert one[..|one| - 1] == [];
    assert Total([], f) == 0.0;
    assert Total(one, f) == Total(one[..|one| - 1], f) + f(one[|one| - 1]);
  }
}
