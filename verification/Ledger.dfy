/** The ledger object (internal/accounting/accounting.go:36-153): the loops behind `Accounting`. */
module LedgerObject {
  import opened Share
  import opened Sums
  import opened A = Accounting
  import Sorting

  class Ledger {
    var file: seq<Interval>
    var open: map<string, seq<Interval>>

    ghost function State(): A.Book
      reads this
    {
      A.Book(file, open)
    }

    constructor ()
      ensures file == [] && open == map[]
    {
      file, open := [], map[];
    }

    /** Opens intervals for a job's slots. */
    method Begin(ivs: seq<Interval>)
      modifies this`open
      ensures State() == A.Begin(old(State()), ivs)
    {
      var i := 0;
      while i < |ivs|
        invariant 0 <= i <= |ivs|
        invariant State() == A.Begin(old(State()), ivs[..i])
      {
        var iv := ivs[i];
        assert ivs[..i + 1][..i] == ivs[..i];
        open := open[iv.job := (if iv.job in open then open[iv.job] else []) + [iv]];
        i := i + 1;
      }
      assert ivs[..i] == ivs;
    }

    /** Closes every open interval of a job and writes them out. */
    method End(job: string, t: real)
      modifies this
      ensures State() == A.End(old(State()), job, t)
    {
      var ivs := if job in open then open[job] else [];
      if job in open {
        open := open - {job};
      }
      var i := 0;
      while i < |ivs|
        invariant 0 <= i <= |ivs| && open == old(open) - {job}
        invariant file == old(file) + AllClosed(ivs, t)[..i]
      {
        var iv := ivs[i].(end := t);
        if iv.end < iv.start {
          iv := iv.(end := iv.start);
        }
        file := file + [iv];
        i := i + 1;
      }
      assert AllClosed(ivs, t)[..i] == AllClosed(ivs, t);
      if job !in old(open) {
        assert old(open) - {job} == old(open);
      }
    }

    /** Every interval a report looks at, the open ones ended at the window's end. */
    method Gather(until: real) returns (ivs: seq<Interval>)
      ensures forall pick: Pick, rate: Rate, since: real ::
                Total(ivs, Worth(pick, rate, since, until)) == Report(State(), pick, rate, since, until)
    {
      ivs := file;
      var todo := open.Keys;
      ghost var rest := open;
      while todo != {}
        invariant rest.Keys == todo && forall job :: job in rest ==> job in open && rest[job] == open[job]
        invariant forall pick: Pick, rate: Rate, since: real ::
                    Total(ivs, Worth(pick, rate, since, until)) +
                      RealSum(Totals(rest, OpenWorth(pick, rate, since, until))) ==
                    Report(State(), pick, rate, since, until)
      {
        var job :| job in todo;
        todo := todo - {job};
        ghost var was := ivs;
        var capped := CapAll(open[job], until);
        ivs := ivs + capped;
        forall pick: Pick, rate: Rate, since: real
          ensures Total(ivs, Worth(pick, rate, since, until)) +
                    RealSum(Totals(rest - {job}, OpenWorth(pick, rate, since, until))) ==
                  Report(State(), pick, rate, since, until)
        {
          TotalConcat(was, capped, Worth(pick, rate, since, until));
          TotalSame(capped, open[job], Worth(pick, rate, since, until), OpenWorth(pick, rate, since, until));
          TotalsRemove(rest, job, OpenWorth(pick, rate, since, until));
        }
        rest := rest - {job};
      }
      forall pick: Pick, rate: Rate, since: real
        ensures Total(ivs, Worth(pick, rate, since, until)) == Report(State(), pick, rate, since, until)
      {
        assert Totals(rest, OpenWorth(pick, rate, since, until)) == map[];
      }
    }

    static method CapAll(ivs: seq<Interval>, until: real) returns (out: seq<Interval>)
      ensures |out| == |ivs| && forall i :: 0 <= i < |out| ==> out[i] == ivs[i].(end := until)
    {
      out := [];
      var i := 0;
      while i < |ivs|
        invariant 0 <= i == |out| <= |ivs|
        invariant forall k :: 0 <= k < i ==> out[k] == ivs[k].(end := until)
      {
        out := out + [ivs[i].(end := until)];
        i := i + 1;
      }
    }

    /** The rows of a report, one for every key with any time in the window. */
    method Tally(ivs: seq<Interval>, group: string, since: real, until: real) returns (rows: map<string, Row>)
      requires Known(group)
      ensures Tallied(rows, ivs, group, since, until)
    {
      rows := map[];
      var k := 0;
      while k < |ivs|
        invariant 0 <= k <= |ivs| && Tallied(rows, ivs[..k], group, since, until)
      {
        var iv := ivs[k];
        var s, e := iv.start, iv.end;
        if s < since {
          s := since;
        }
        if until < e {
          e := until;
        }
        TallyStep(rows, ivs, k, group, since, until);
        if s < e {
          var key := KeyOf(iv, group).value;
          var r := Lookup(rows, key);
          rows := rows[key := Add(r, iv, e - s)];
        }
        k := k + 1;
      }
      assert ivs[..k] == ivs;
    }

    /** The rows as a list, largest share first. */
    method List(rows: map<string, Row>) returns (out: seq<Row>)
      requires forall key :: key in rows ==> rows[key].key == key
      ensures forall i, j :: 0 <= i < j < |out| ==>
                out[i].key != out[j].key && out[j].shareSeconds <= out[i].shareSeconds
      ensures forall i :: 0 <= i < |out| ==> out[i].key in rows && out[i] == rows[out[i].key]
      ensures forall key :: key in rows ==> rows[key] in out
    {
      out := [];
      var todo := rows.Keys;
      while todo != {}
        invariant todo <= rows.Keys
        invariant forall i :: 0 <= i < |out| ==> out[i].key in rows.Keys - todo && out[i] == rows[out[i].key]
        invariant forall i, j :: 0 <= i < j < |out| ==> out[i].key != out[j].key
        invariant forall key :: key in rows.Keys - todo ==> rows[key] in out
      {
        var key :| key in todo;
        todo := todo - {key};
        out := out + [rows[key]];
      }
      SortedReport(rows, out);
      out := Sorting.Sort(out, Larger);
    }

    /** Sums intervals inside a window by job, owner, card or vendor, largest share first. */
    method Usage(since: real, until: real, group: string) returns (res: Option<seq<Row>>)
      ensures res.Some? <==> Known(group)
      ensures res.Some? ==> IsReport(State(), group, since, until, res.value)
    {
      if KeyOf(Interval("", "", "", "", 0, "", 0.0, 0, 0.0, 0.0), group).None? {
        return None;
      }
      var ivs := Gather(until);
      var rows := Tally(ivs, group, since, until);
      TalliedKeys(rows, ivs, group, since, until);
      var out := List(rows);
      forall key ensures RowOver(ivs, group, key, since, until) == RowFor(State(), group, key, since, until) {
      }
      ListedReport(State(), ivs, rows, out, group, since, until);
      return Some(out);
    }
  }

  function Lookup(rows: map<string, Row>, key: string): Row {
    if key in rows then rows[key] else NoUse(key)
  }

  /** The rows hold the totals of the intervals, and only keys with time in the window have one. */
  ghost predicate Tallied(rows: map<string, Row>, ivs: seq<Interval>, group: string, since: real, until: real) {
    && (forall key :: Lookup(rows, key) == RowOver(ivs, group, key, since, until))
    && (forall key :: key in rows ==> 0.0 < rows[key].seconds)
  }

  lemma TalliedKeys(rows: map<string, Row>, ivs: seq<Interval>, group: string, since: real, until: real)
    requires Tallied(rows, ivs, group, since, until)
    ensures forall key :: key in rows ==> rows[key].key == key
  {
    forall key | key in rows ensures rows[key].key == key {
      assert Lookup(rows, key) == RowOver(ivs, group, key, since, until);
    }
  }

  lemma TallyStep(rows: map<string, Row>, ivs: seq<Interval>, k: nat, group: string, since: real, until: real)
    requires k < |ivs| && Known(group) && Tallied(rows, ivs[..k], group, since, until)
    ensures var (iv, o) := (ivs[k], Overlap(ivs[k], since, until));
            && KeyOf(iv, group).Some?
            && (o == 0.0 ==> Tallied(rows, ivs[..k + 1], group, since, until))
            && (0.0 < o ==>
                 var key := KeyOf(iv, group).value;
                 Tallied(rows[key := Add(Lookup(rows, key), iv, o)], ivs[..k + 1], group, since, until))
  {
    var iv, o := ivs[k], Overlap(ivs[k], since, until);
    var own := KeyOf(iv, group).value;
    forall key
      ensures RowOver(ivs[..k + 1], group, key, since, until) ==
              if key == own then Add(Lookup(rows, key), iv, o) else Lookup(rows, key)
    {
      RowStep(ivs, k, group, key, since, until);
      assert Lookup(rows, key) == RowOver(ivs[..k], group, key, since, until);
    }
    if 0.0 < o {
      var after := rows[own := Add(Lookup(rows, own), iv, o)];
      forall key ensures Lookup(after, key) == RowOver(ivs[..k + 1], group, key, since, until) {
        assert Lookup(after, key) == if key == own then Add(Lookup(rows, own), iv, o) else Lookup(rows, key);
      }
    } else {
      forall key ensures Lookup(rows, key) == RowOver(ivs[..k + 1], group, key, since, until) {
      }
    }
  }

  lemma ListedReport(b: Book, ivs: seq<Interval>, rows: map<string, Row>, out: seq<Row>, group: string, since: real,
                     until: real)
    requires Tallied(rows, ivs, group, since, until)
    requires forall key :: RowOver(ivs, group, key, since, until) == RowFor(b, group, key, since, until)
    requires forall i, j :: 0 <= i < j < |out| ==>
               out[i].key != out[j].key && out[j].shareSeconds <= out[i].shareSeconds
    requires forall i :: 0 <= i < |out| ==> out[i].key in rows && out[i] == rows[out[i].key]
    requires forall key :: key in rows ==> rows[key] in out
    ensures IsReport(b, group, since, until, out)
  {
    forall i | 0 <= i < |out| ensures out[i] == RowFor(b, group, out[i].key, since, until) && 0.0 < out[i].seconds {
      assert Lookup(rows, out[i].key) == RowOver(ivs, group, out[i].key, since, until);
    }
    forall key | forall i :: 0 <= i < |out| ==> out[i].key != key
      ensures RowFor(b, group, key, since, until) == NoUse(key)
    {
      assert Lookup(rows, key) == RowOver(ivs, group, key, since, until);
    }
  }

  predicate Larger(a: Row, b: Row) {
    b.shareSeconds < a.shareSeconds
  }

  /** One row for every key with time in the window, with its totals, largest share first. */
  ghost predicate IsReport(b: Book, group: string, since: real, until: real, rows: seq<Row>) {
    && (forall i, j :: 0 <= i < j < |rows| ==>
      rows[i].key != rows[j].key && rows[j].shareSeconds <= rows[i].shareSeconds)
    && (forall i :: 0 <= i < |rows| ==> rows[i] == RowFor(b, group, rows[i].key, since, until) && 0.0 < rows[i].seconds)
    && (forall key :: (forall i :: 0 <= i < |rows| ==> rows[i].key != key) ==>
      RowFor(b, group, key, since, until) == NoUse(key))
  }

  lemma SortedReport(rows: map<string, Row>, out: seq<Row>)
    requires forall i :: 0 <= i < |out| ==> out[i].key in rows && out[i] == rows[out[i].key]
    requires forall i, j :: 0 <= i < j < |out| ==> out[i].key != out[j].key
    requires forall key :: key in rows ==> rows[key] in out && rows[key].key == key
    ensures var s := Sorting.Sort(out, Larger);
            && (forall i, j :: 0 <= i < j < |s| ==> s[i].key != s[j].key && s[j].shareSeconds <= s[i].shareSeconds)
            && (forall i :: 0 <= i < |s| ==> s[i].key in rows && s[i] == rows[s[i].key])
            && (forall key :: key in rows ==> rows[key] in s)
  {
    var s := Sorting.Sort(out, Larger);
    Sorting.SortPermutes(out, Larger);
    Sorting.SortOrders(out, Larger);
    forall i | 0 <= i < |s| ensures s[i].key in rows && s[i] == rows[s[i].key] {
      assert s[i] in out;
    }
    forall i, j | 0 <= i < j < |s| ensures s[i].key != s[j].key {
      assert s[i] in s && s[j] in s;
      var a :| 0 <= a < |out| && out[a] == s[i];
      var b :| 0 <= b < |out| && out[b] == s[j];
      if a == b {
        Sorting.Twice(s, i, j);
        Sorting.Once(out, a);
      }
    }
  }
}
