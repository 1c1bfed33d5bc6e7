/** A report racing with job ends (internal/accounting/accounting.go:54-119). Ending a job takes its intervals
    out of memory under the lock and writes them to the file after it, one by one; a report reads the file, all
    that was in it when the report started and maybe more, and gathers the open intervals later. Each interval
    carries the number it was begun with. */
module LedgerRace {
  import opened Share
  import opened Accounting
  import opened Lists

  datatype Entry = Entry(serial: nat, iv: Interval)

  /** Where an interval is: a place in the file, among a job's open ones, or so many from the end of what a
      thread still has to write. */
  datatype Place = Filed(i: nat) | Opened(job: string, i: nat) | Held(t: nat, left: nat)

  /** A report: begun when the file had `from` entries; then the file read; then the open intervals gathered. */
  datatype Progress =
    | NoReport
    | Started(from: nat)
    | FileRead(from: nat, read: seq<Entry>)
    | Gathered(from: nat, read: seq<Entry>, opens: seq<Entry>)

  datatype State = State(file: seq<Entry>, open: map<string, seq<Entry>>, taken: map<nat, seq<Entry>>, begun: nat,
                         report: Progress)

  datatype Event =
    | Begins(iv: Interval)
    | Takes(t: nat, job: string, at: real)
    | Writes(t: nat)
    | Finishes(t: nat)
    | Starts
    | Reads(n: nat)
    | Gathers(jobs: seq<string>)

  function OpenOf(s: State, job: string): seq<Entry> {
    if job in s.open then s.open[job] else []
  }

  /** The open intervals of some jobs, job after job. */
  function Concat(open: map<string, seq<Entry>>, jobs: seq<string>): seq<Entry>
    requires forall job :: job in jobs ==> job in open
  {
    if jobs == [] then [] else Concat(open, jobs[..|jobs| - 1]) + open[jobs[|jobs| - 1]]
  }

  ghost predicate Enabled(s: State, e: Event) {
    match e
    case Begins(_) => true
    case Takes(t, _, _) => t !in s.taken
    case Writes(t) => t in s.taken && s.taken[t] != []
    case Finishes(t) => t in s.taken && s.taken[t] == []
    case Starts => true
    case Reads(n) => s.report.Started? && s.report.from <= n <= |s.file|
    case Gathers(jobs) => s.report.FileRead? && Distinct(jobs) && forall job :: job in jobs <==> job in s.open
  }

  function ClosedAll(es: seq<Entry>, at: real): (c: seq<Entry>)
    ensures |c| == |es| && forall i :: 0 <= i < |c| ==> c[i] == Entry(es[i].serial, Closed(es[i].iv, at))
  {
    seq(|es|, i requires 0 <= i < |es| => Entry(es[i].serial, Closed(es[i].iv, at)))
  }

  ghost function Next(s: State, e: Event): State
    requires Enabled(s, e)
  {
    match e
    case Begins(iv) => s.(open := s.open[iv.job := OpenOf(s, iv.job) + [Entry(s.begun, iv)]], begun := s.begun + 1)
    case Takes(t, job, at) => s.(open := s.open - {job}, taken := s.taken[t := ClosedAll(OpenOf(s, job), at)])
    case Writes(t) => s.(file := s.file + [s.taken[t][0]], taken := s.taken[t := s.taken[t][1..]])
    case Finishes(t) => s.(taken := s.taken - {t})
    case Starts => s.(report := Started(|s.file|))
    case Reads(n) => s.(report := FileRead(s.report.from, s.file[..n]))
    case Gathers(jobs) => s.(report := Gathered(s.report.from, s.report.read, Concat(s.open, jobs)))
  }

  // ---- every interval is in one place ----

  /** What is at a place. */
  function There(s: State, p: Place): Option<Entry> {
    match p
    case Filed(i) => if i < |s.file| then Some(s.file[i]) else None
    case Opened(job, i) => if job in s.open && i < |s.open[job]| then Some(s.open[job][i]) else None
    case Held(t, left) =>
      if t in s.taken && 0 < left <= |s.taken[t]| then Some(s.taken[t][|s.taken[t]| - left]) else None
  }

  /** `place` says where each interval begun so far is, and nothing is anywhere else. */
  ghost predicate Tracked(s: State, place: map<nat, Place>) {
    && (forall n: nat :: n in place <==> n < s.begun)
    && (forall n :: n in place ==> There(s, place[n]).Some? && There(s, place[n]).value.serial == n)
    && (forall p :: There(s, p).Some? ==> There(s, p).value.serial in place && place[There(s, p).value.serial] == p)
  }

  ghost predicate Trackable(s: State) {
    exists place :: Tracked(s, place)
  }

  /** What was read is the start of the file, past what was in it when the report started. */
  ghost predicate ReadOk(s: State) {
    && (!s.report.NoReport? ==> s.report.from <= |s.file|)
    && (s.report.FileRead? || s.report.Gathered? ==> s.report.read <= s.file && s.report.from <= |s.report.read|)
  }

  ghost predicate Ok(s: State) {
    Trackable(s) && ReadOk(s)
  }

  /** Where a step moves a place. */
  ghost function Moved(s: State, e: Event, p: Place): Place
    requires Enabled(s, e)
  {
    match e
    case Takes(t, job, _) =>
      if p.Opened? && p.job == job && p.i < |OpenOf(s, job)| then Held(t, |OpenOf(s, job)| - p.i) else p
    case Writes(t) => if p == Held(t, |s.taken[t]|) then Filed(|s.file|) else p
    case _ => p
  }

  /** What was at a place is at the place it moved to, with its number. */
  lemma StillThere(s: State, e: Event, p: Place)
    requires Enabled(s, e) && There(s, p).Some?
    ensures There(Next(s, e), Moved(s, e, p)).Some?
    ensures There(Next(s, e), Moved(s, e, p)).value.serial == There(s, p).value.serial
  {
  }

  /** What is at a place came from one, or was just begun. */
  lemma CameFrom(s: State, e: Event, q: Place) returns (p: Place)
    requires Enabled(s, e) && There(Next(s, e), q).Some?
    ensures (There(s, p).Some? && Moved(s, e, p) == q) ||
            (e.Begins? && q == Opened(e.iv.job, |OpenOf(s, e.iv.job)|) && There(Next(s, e), q).value.serial == s.begun)
  {
    p := q;
    match e
    case Takes(t, job, _) => if q.Held? && q.t == t { p := Opened(job, |OpenOf(s, job)| - q.left); }
    case Writes(t) => if q == Filed(|s.file|) { p := Held(t, |s.taken[t]|); }
    case _ =>
  }

  lemma StepTracked(s: State, e: Event, place: map<nat, Place>)
    requires Tracked(s, place) && Enabled(s, e)
    ensures Trackable(Next(s, e))
  {
    var after := Next(s, e);
    var moved := map n | n in place :: Moved(s, e, place[n]);
    var now := if e.Begins? then moved[s.begun := Opened(e.iv.job, |OpenOf(s, e.iv.job)|)] else moved;
    forall n | n in now ensures There(after, now[n]).Some? && There(after, now[n]).value.serial == n {
      if n in place {
        StillThere(s, e, place[n]);
      }
    }
    forall q | There(after, q).Some?
      ensures There(after, q).value.serial in now && now[There(after, q).value.serial] == q
    {
      var p := CameFrom(s, e, q);
      if There(s, p).Some? && Moved(s, e, p) == q {
        StillThere(s, e, p);
      }
    }
    assert Tracked(after, now);
  }

  lemma StepOk(s: State, e: Event)
    requires Ok(s) && Enabled(s, e)
    ensures Ok(Next(s, e))
  {
    var place :| Tracked(s, place);
    StepTracked(s, e, place);
  }

  function Numbered(file: seq<Interval>): (es: seq<Entry>)
    ensures |es| == |file| && forall i :: 0 <= i < |es| ==> es[i] == Entry(i, file[i])
  {
    seq(|file|, i requires 0 <= i < |file| => Entry(i, file[i]))
  }

  /** A ledger opened over a file. */
  function Loaded(file: seq<Interval>): State {
    State(Numbered(file), map[], map[], |file|, NoReport)
  }

  lemma LoadedOk(file: seq<Interval>)
    ensures Ok(Loaded(file))
  {
    var s := Loaded(file);
    var place := map n: nat | n < |file| :: Filed(n);
    forall p | There(s, p).Some? ensures There(s, p).value.serial in place && place[There(s, p).value.serial] == p {
      assert p.Filed?;
    }
    assert Tracked(s, place);
  }

  ghost predicate IsRun(states: seq<State>, events: seq<Event>) {
    && |states| == |events| + 1
    && forall i :: 0 <= i < |events| ==> Enabled(states[i], events[i]) && states[i + 1] == Next(states[i], events[i])
  }

  lemma {:induction false} RunOk(file: seq<Interval>, states: seq<State>, events: seq<Event>)
    requires IsRun(states, events) && states[0] == Loaded(file)
    ensures Ok(states[|events|])
    decreases |events|
  {
    if events == [] {
      LoadedOk(file);
    } else {
      var n := |events| - 1;
      assert forall i :: 0 <= i < n ==> events[..n][i] == events[i] && states[..n + 1][i] == states[i];
      RunOk(file, states[..n + 1], events[..n]);
      StepOk(states[n], events[n]);
    }
  }

  // ---- what the report counts ----

  /** No number occurs twice. */
  ghost predicate Once(es: seq<Entry>) {
    forall i, j :: 0 <= i < j < |es| ==> es[i].serial != es[j].serial
  }

  /** Every entry is open, with a job of the list. */
  lemma {:induction false} ConcatIs(open: map<string, seq<Entry>>, jobs: seq<string>)
    requires forall job :: job in jobs ==> job in open
    ensures forall e :: e in Concat(open, jobs) <==> exists job :: job in jobs && e in open[job]
  {
    if jobs != [] {
      var init, last := jobs[..|jobs| - 1], jobs[|jobs| - 1];
      assert jobs == init + [last];
      ConcatIs(open, init);
      forall e ensures e in Concat(open, jobs) <==> exists job :: job in jobs && e in open[job] {
        if job :| job in jobs && e in open[job] {
          assert job in init || job == last;
        }
      }
    }
  }

  lemma OpenApart(s: State, a: string, i: nat, b: string, j: nat)
    requires Trackable(s) && a in s.open && b in s.open && i < |s.open[a]| && j < |s.open[b]|
    requires s.open[a][i].serial == s.open[b][j].serial
    ensures a == b && i == j
  {
    var place :| Tracked(s, place);
    assert There(s, Opened(a, i)) == Some(s.open[a][i]) && There(s, Opened(b, j)) == Some(s.open[b][j]);
  }

  lemma FiledApart(s: State, i: nat, b: string, j: nat)
    requires Trackable(s) && i < |s.file| && b in s.open && j < |s.open[b]|
    ensures s.file[i].serial != s.open[b][j].serial
  {
    var place :| Tracked(s, place);
    assert There(s, Filed(i)) == Some(s.file[i]) && There(s, Opened(b, j)) == Some(s.open[b][j]);
  }

  lemma FileOnce(s: State)
    requires Trackable(s)
    ensures Once(s.file)
  {
    var place :| Tracked(s, place);
    forall i, j | 0 <= i < j < |s.file| ensures s.file[i].serial != s.file[j].serial {
      assert There(s, Filed(i)) == Some(s.file[i]) && There(s, Filed(j)) == Some(s.file[j]);
    }
  }

  lemma OnceAppend(a: seq<Entry>, b: seq<Entry>)
    requires Once(a) && Once(b) && forall x, y :: x in a && y in b ==> x.serial != y.serial
    ensures Once(a + b)
  {
    var all := a + b;
    forall i, j | 0 <= i < j < |all| ensures all[i].serial != all[j].serial {
      if i < |a| <= j {
        assert all[i] in a && all[j] in b;
      }
    }
  }

  lemma {:induction false} ConcatOnce(s: State, jobs: seq<string>)
    requires Trackable(s) && Distinct(jobs) && forall job :: job in jobs ==> job in s.open
    ensures Once(Concat(s.open, jobs))
  {
    if jobs != [] {
      var init, last := jobs[..|jobs| - 1], jobs[|jobs| - 1];
      assert jobs == init + [last];
      ConcatOnce(s, init);
      ConcatIs(s.open, init);
      forall i, j | 0 <= i < j < |s.open[last]| ensures s.open[last][i].serial != s.open[last][j].serial {
        if s.open[last][i].serial == s.open[last][j].serial {
          OpenApart(s, last, i, last, j);
        }
      }
      forall x, y | x in Concat(s.open, init) && y in s.open[last] ensures x.serial != y.serial {
        var job :| job in init && x in s.open[job];
        var i :| 0 <= i < |s.open[job]| && s.open[job][i] == x;
        var j :| 0 <= j < |s.open[last]| && s.open[last][j] == y;
        assert job != last by {
          var k :| 0 <= k < |init| && init[k] == job;
          assert jobs[k] == job;
        }
        if x.serial == y.serial {
          OpenApart(s, job, i, last, j);
        }
      }
      OnceAppend(Concat(s.open, init), s.open[last]);
    }
  }

  /** Everything the report counts. */
  function Counted(r: Progress): seq<Entry>
    requires r.Gathered?
  {
    r.read + r.opens
  }

  /** The report just finished counts nothing twice, and everything open. */
  lemma GatherCounts(s: State, jobs: seq<string>)
    requires Ok(s) && Enabled(s, Gathers(jobs))
    ensures Once(Counted(Next(s, Gathers(jobs)).report))
    ensures forall job, e :: job in s.open && e in s.open[job] ==> e in Counted(Next(s, Gathers(jobs)).report)
  {
    var read, opens := s.report.read, Concat(s.open, jobs);
    ConcatOnce(s, jobs);
    ConcatIs(s.open, jobs);
    FileOnce(s);
    assert forall i :: 0 <= i < |read| ==> read[i] == s.file[i];
    forall x, y | x in read && y in opens ensures x.serial != y.serial {
      var job :| job in jobs && y in s.open[job];
      var i :| 0 <= i < |read| && read[i] == x;
      var j :| 0 <= j < |s.open[job]| && s.open[job][j] == y;
      FiledApart(s, i, job, j);
    }
    OnceAppend(read, opens);
  }

  /** The file only grows, and a report remembers how long it was when the report started. */
  lemma {:induction false} SinceStart(states: seq<State>, events: seq<Event>, k: nat)
    requires IsRun(states, events) && k < |events| && events[k].Starts?
    requires forall i :: k < i < |events| ==> !events[i].Starts?
    ensures var (start, now) := (states[k], states[|events|]);
            start.file <= now.file && !now.report.NoReport? && now.report.from == |start.file|
    decreases |events|
  {
    var n := |events| - 1;
    if k < n {
      assert forall i :: 0 <= i < n ==> events[..n][i] == events[i] && states[..n + 1][i] == states[i];
      SinceStart(states[..n + 1], events[..n], k);
    }
  }

  /** Where an interval is that the report does not count. */
  ghost predicate ClosedMeanwhile(s: State, from: nat, n: nat) {
    exists p :: There(s, p).Some? && There(s, p).value.serial == n && (p.Held? || (p.Filed? && from <= p.i))
  }

  ghost predicate IsCounted(r: Progress, n: nat)
    requires r.Gathered?
  {
    exists i :: 0 <= i < |Counted(r)| && Counted(r)[i].serial == n
  }

  lemma CountedOrNot(s: State, jobs: seq<string>, n: nat)
    requires Ok(s) && Enabled(s, Gathers(jobs)) && n < s.begun
    ensures IsCounted(Next(s, Gathers(jobs)).report, n) || ClosedMeanwhile(s, s.report.from, n)
  {
    var place :| Tracked(s, place);
    var p := place[n];
    assert There(s, p).Some? && There(s, p).value.serial == n;
    var all := Counted(Next(s, Gathers(jobs)).report);
    GatherCounts(s, jobs);
    if p.Opened? {
      assert There(s, p).value in s.open[p.job];
      assert There(s, p).value in all;
    } else if p.Filed? && p.i < |s.report.read| {
      assert all[p.i] == s.file[p.i];
    }
  }

  /** A report made while jobs begin and end counts no interval twice. It counts every interval that was in the
      file when it started, and every one still open when it gathered; what it misses was being closed
      meanwhile: not yet written, or written since the report started. */
  lemma CountsOnce(file: seq<Interval>, states: seq<State>, events: seq<Event>, k: nat, jobs: seq<string>)
    requires IsRun(states, events) && states[0] == Loaded(file)
    requires k < |events| - 1 && events[k].Starts? && (forall i :: k < i < |events| ==> !events[i].Starts?)
    requires events[|events| - 1] == Gathers(jobs)
    ensures var (start, now) := (states[k], states[|events|]);
            && now.report.Gathered? && Once(Counted(now.report))
            && (forall e :: e in start.file ==> e in Counted(now.report))
            && (forall job, e :: job in now.open && e in now.open[job] ==> e in Counted(now.report))
            && forall n: nat :: n < now.begun && !IsCounted(now.report, n) ==> ClosedMeanwhile(now, |start.file|, n)
  {
    var m := |events| - 1;
    assert forall i :: 0 <= i < m ==> events[..m][i] == events[i] && states[..m + 1][i] == states[i];
    RunOk(file, states[..m + 1], events[..m]);
    var s, now := states[m], states[|events|];
    SinceStart(states[..m + 1], events[..m], k);
    GatherCounts(s, jobs);
    forall e | e in states[k].file ensures e in Counted(now.report) {
      var i :| 0 <= i < |states[k].file| && states[k].file[i] == e;
      assert s.file[i] == e && Counted(now.report)[i] == e;
    }
    forall n: nat | n < now.begun && !IsCounted(now.report, n) ensures ClosedMeanwhile(now, |states[k].file|, n) {
      CountedOrNot(s, jobs, n);
      var p :| There(s, p).Some? && There(s, p).value.serial == n && (p.Held? || (p.Filed? && s.report.from <= p.i));
      assert There(now, p) == There(s, p);
    }
  }
}
