/** What the daemon's steps do to the ledger, one operation after another, and a report racing with a whole run
    (internal/daemon/daemon.go:159-316, internal/accounting/accounting.go:54-153). */
module RaceRuns {
  import opened Share
  import opened Cards
  import opened Accounting
  import opened DaemonModel
  import opened DaemonLaws
  import opened DaemonRuns
  import opened RaceBilling
  import R = LedgerRace
  import S = SchedulerModel

  // ---- the operations of a step ----

  function Openings(ivs: seq<Interval>): (ops: seq<Op>)
    ensures |ops| == |ivs| && forall i :: 0 <= i < |ops| ==> ops[i] == Opens(ivs[i])
  {
    seq(|ivs|, i requires 0 <= i < |ivs| => Opens(ivs[i]))
  }

  /** Pushed-off jobs that have a process are closed, one after another. */
  function PauseOps(d: Daemon, env: Env, ids: seq<string>): seq<Op>
    decreases |ids|
  {
    if ids == [] then []
    else
      (if ids[0] in d.jobs && d.jobs[ids[0]].proc.Some? then [Closes(ids[0], env.time(d.tick))] else []) +
      PauseOps(PauseOne(d, env, ids[0]), env, ids[1..])
  }

  /** A launch that succeeds opens an interval for each slot. */
  function LaunchOps(d: Daemon, env: Env, job: Job, pl: Placement): seq<Op> {
    if env.launch(d.launched) then Openings(Intervals(d.refs, env, d.tick, job, pl.slots)) else []
  }

  function StartOneOps(d: Daemon, env: Env, dec: Decision): seq<Op> {
    if dec.placement.None? then []
    else
      var id := dec.placement.value.jobId;
      if id in d.jobs && (d.jobs[id].state == Queued || d.jobs[id].state == Paused) then
        LaunchOps(d, env, d.jobs[id], dec.placement.value)
      else []
  }

  function StartOps(d: Daemon, env: Env, decs: seq<Decision>): seq<Op>
    decreases |decs|
  {
    if decs == [] then [] else StartOneOps(d, env, decs[0]) + StartOps(StartOne(d, env, decs[0]), env, decs[1..])
  }

  ghost function SubmitOps(d: Daemon, env: Env, r: SubmitRequest, id: string): seq<Op> {
    if !r.hasCommand then []
    else
      match S.Admit(d.sched, RequestFor(r, id))
      case (_, Err(_)) => []
      case (sched, Ok(dec)) =>
        var job := NewJob(r, id);
        var begun := d.(sched := sched, jobs := d.jobs[id := job]);
        PauseOps(begun, env, dec.preempt) +
        if dec.placement.None? then [] else LaunchOps(PauseAll(begun, env, dec.preempt), env, job, dec.placement.value)
  }

  ghost function ReapOps(d: Daemon, env: Env, id: string, proc: nat): seq<Op> {
    if id !in d.jobs || d.jobs[id].proc != Some(proc) then []
    else
      var (sched, decs) := S.Release(d.sched, id);
      [Closes(id, env.time(d.tick))] + StartOps(Ended(d, env, id).(sched := sched), env, decs)
  }

  function AnsweredOps(d: Daemon, env: Env, id: string, res: Result<Placement>): seq<Op>
    requires id in d.jobs
  {
    match res
    case Err(_) => []
    case Ok(pl) => [Closes(id, env.time(d.tick))] + Openings(Intervals(d.refs, env, d.tick + 1, d.jobs[id], pl.slots))
  }

  ghost function ResizeOps(d: Daemon, env: Env, id: string, fraction: real, memMiB: int): seq<Op> {
    if id !in d.jobs || d.jobs[id].state != Running then []
    else
      var (sched, res) := S.Resize(d.sched, id, fraction, memMiB);
      AnsweredOps(d.(sched := sched), env, id, res)
  }

  /** What a step does to the ledger, in order; a restart is a new ledger over the file. */
  ghost function Ops(d: Daemon, env: Env, st: Step): seq<Op> {
    match st
    case Submitting(r, id) => SubmitOps(d, env, r, id)
    case Reaping(id, proc) => ReapOps(d, env, id, proc)
    case Stopping(_) => []
    case Resizing(id, fraction, mem) => ResizeOps(d, env, id, fraction, mem)
    case Restarting => []
  }

  // ---- they are the step, and closings come first ----

  /** `ops` take the book from `b` to `after`, closing intervals before opening any. */
  ghost predicate Leads(b: Book, ops: seq<Op>, after: Book) {
    && after == Perform(b, ops)
    && forall i, j :: 0 <= i < j < |ops| && ops[j].Closes? ==> ops[i].Closes?
  }

  lemma {:induction false} BeginIs(b: Book, ivs: seq<Interval>)
    ensures Begin(b, ivs) == Perform(b, Openings(ivs))
  {
    if ivs != [] {
      var n := |ivs| - 1;
      BeginIs(b, ivs[..n]);
      assert Openings(ivs)[..n] == Openings(ivs[..n]);
    }
  }

  lemma LaunchLeads(d: Daemon, env: Env, job: Job, pl: Placement)
    ensures AllOpen(LaunchOps(d, env, job, pl))
    ensures Launch(d, env, job, pl).0.book == Perform(d.book, LaunchOps(d, env, job, pl))
  {
    BeginIs(d.book, Intervals(d.refs, env, d.tick, job, pl.slots));
  }

  lemma {:induction false} PauseLeads(d: Daemon, env: Env, ids: seq<string>)
    ensures AllClose(PauseOps(d, env, ids))
    ensures PauseAll(d, env, ids).book == Perform(d.book, PauseOps(d, env, ids))
    decreases |ids|
  {
    if ids != [] {
      var after, rest := PauseOne(d, env, ids[0]), PauseOps(PauseOne(d, env, ids[0]), env, ids[1..]);
      PauseLeads(after, env, ids[1..]);
      if ids[0] in d.jobs && d.jobs[ids[0]].proc.Some? {
        var op := Closes(ids[0], env.time(d.tick));
        PerformOne(d.book, op);
        PerformConcat(d.book, [op], rest);
      } else {
        assert [] + rest == rest;
      }
    }
  }

  lemma {:induction false} StartLeads(d: Daemon, env: Env, decs: seq<Decision>)
    ensures AllOpen(StartOps(d, env, decs))
    ensures StartAll(d, env, decs).book == Perform(d.book, StartOps(d, env, decs))
    decreases |decs|
  {
    if decs != [] {
      var first, after := StartOneOps(d, env, decs[0]), StartOne(d, env, decs[0]);
      StartOneLeads(d, env, decs[0]);
      StartLeads(after, env, decs[1..]);
      PerformConcat(d.book, first, StartOps(after, env, decs[1..]));
    }
  }

  lemma StartOneLeads(d: Daemon, env: Env, dec: Decision)
    ensures AllOpen(StartOneOps(d, env, dec))
    ensures StartOne(d, env, dec).book == Perform(d.book, StartOneOps(d, env, dec))
  {
    if dec.placement.Some? && dec.placement.value.jobId in d.jobs {
      LaunchLeads(d, env, d.jobs[dec.placement.value.jobId], dec.placement.value);
    }
  }

  lemma InTurn(b: Book, closes: seq<Op>, opens: seq<Op>)
    requires AllClose(closes) && AllOpen(opens)
    ensures Leads(b, closes + opens, Perform(Perform(b, closes), opens))
  {
    PerformConcat(b, closes, opens);
  }

  lemma SubmitLeads(d: Daemon, env: Env, r: SubmitRequest, id: string)
    ensures Leads(d.book, SubmitOps(d, env, r, id), Submit(d, env, r, id).0.book)
  {
    var (sched, res) := S.Admit(d.sched, RequestFor(r, id));
    if r.hasCommand && res.Ok? {
      var job := NewJob(r, id);
      var begun := d.(sched := sched, jobs := d.jobs[id := job]);
      var paused := PauseAll(begun, env, res.value.preempt);
      PauseLeads(begun, env, res.value.preempt);
      if res.value.placement.None? {
        InTurn(d.book, PauseOps(begun, env, res.value.preempt), []);
      } else {
        LaunchLeads(paused, env, job, res.value.placement.value);
        InTurn(d.book, PauseOps(begun, env, res.value.preempt), LaunchOps(paused, env, job, res.value.placement.value));
      }
    }
  }

  lemma ReapLeads(d: Daemon, env: Env, id: string, proc: nat)
    ensures Leads(d.book, ReapOps(d, env, id, proc), Reap(d, env, id, proc).book)
  {
    if id in d.jobs && d.jobs[id].proc == Some(proc) {
      var (sched, decs) := S.Release(d.sched, id);
      var ended, op := Ended(d, env, id).(sched := sched), Closes(id, env.time(d.tick));
      StartLeads(ended, env, decs);
      PerformOne(d.book, op);
      InTurn(d.book, [op], StartOps(ended, env, decs));
    }
  }

  lemma ReopenLeads(b: Book, id: string, t: real, ivs: seq<Interval>)
    ensures Leads(b, [Closes(id, t)] + Openings(ivs), Begin(End(b, id, t), ivs))
  {
    PerformOne(b, Closes(id, t));
    BeginIs(End(b, id, t), ivs);
    InTurn(b, [Closes(id, t)], Openings(ivs));
  }

  lemma Reopens(d: Daemon, env: Env, id: string, fraction: real, pl: Placement)
    requires id in d.jobs
    ensures ResizeTo(d, env, id, fraction, pl).book ==
            Begin(End(d.book, id, env.time(d.tick)), Intervals(d.refs, env, d.tick + 1, d.jobs[id], pl.slots))
  {
  }

  lemma AnsweredLeads(d: Daemon, env: Env, id: string, fraction: real, res: Result<Placement>)
    requires id in d.jobs
    ensures Leads(d.book, AnsweredOps(d, env, id, res), Answered(d, env, id, fraction, res).0.book)
  {
    if res.Ok? {
      Reopens(d, env, id, fraction, res.value);
      ReopenLeads(d.book, id, env.time(d.tick), Intervals(d.refs, env, d.tick + 1, d.jobs[id], res.value.slots));
    } else {
      assert Leads(d.book, [], d.book);
    }
  }

  lemma ResizeLeads(d: Daemon, env: Env, id: string, fraction: real, memMiB: int)
    ensures Leads(d.book, ResizeOps(d, env, id, fraction, memMiB), Resize(d, env, id, fraction, memMiB).0.book)
  {
    if id in d.jobs && d.jobs[id].state == Running {
      var (sched, res) := S.Resize(d.sched, id, fraction, memMiB);
      AnsweredLeads(d.(sched := sched), env, id, fraction, res);
    }
  }

  /** Every step but a restart performs its operations, closings first. */
  lemma StepLeads(d: Daemon, env: Env, st: Step)
    requires !st.Restarting?
    ensures Leads(d.book, Ops(d, env, st), Take(d, env, st).book)
  {
    match st
    case Submitting(r, id) => SubmitLeads(d, env, r, id);
    case Reaping(id, proc) => ReapLeads(d, env, id, proc);
    case Stopping(_) =>
    case Resizing(id, fraction, mem) => ResizeLeads(d, env, id, fraction, mem);
  }

  // ---- in the middle of a step ----

  /** What is opened and not closed again is open. */
  lemma {:induction false} StaysOpen(b: Book, ops: seq<Op>, i: nat)
    requires i < |ops| && AllOpen(ops[i..])
    ensures ops[i].Opens?
    ensures var open := Perform(b, ops).open;
            ops[i].iv.job in open && ops[i].iv in open[ops[i].iv.job]
    decreases |ops|
  {
    var n := |ops| - 1;
    assert ops[i..][0] == ops[i] && ops[i..][n - i] == ops[n];
    if i < n {
      assert forall j :: 0 <= j < n - i ==> ops[..n][i..][j] == ops[i..][j];
      StaysOpen(b, ops[..n], i);
    }
  }

  lemma LeadsPlain(b: Book, ops: seq<Op>, after: Book)
    requires Leads(b, ops, after) && OpenPlain(after)
    ensures PlainOps(ops)
  {
    forall i | 0 <= i < |ops| && ops[i].Opens? ensures Plain(ops[i].iv) {
      StaysOpen(b, ops, i);
      var ivs := after.open[ops[i].iv.job];
      var k :| 0 <= k < |ivs| && ivs[k] == ops[i].iv;
    }
  }

  /** After any number of its operations the ledger is in the step, seen from before or from after it. */
  lemma PrefixInStep(b: Book, ops: seq<Op>, after: Book, k: nat)
    requires Leads(b, ops, after) && PlainOps(ops) && k <= |ops|
    ensures InStep(Perform(b, ops[..k]), b) || InStep(Perform(b, ops[..k]), after)
  {
    if AllOpen(ops[k..]) {
      assert ops == ops[..k] + ops[k..];
      PerformConcat(b, ops[..k], ops[k..]);
      assert PlainOps(ops[k..]);
    } else {
      assert AllClose(ops[..k]);
    }
  }

  // ---- in the middle of a run ----

  /** Each book comes of the one before by plain operations, closings first. */
  ghost predicate Chain(books: seq<Book>, steps: seq<seq<Op>>) {
    && |books| == |steps| + 1
    && forall i :: 0 <= i < |steps| ==> Leads(books[i], steps[i], books[i + 1]) && PlainOps(steps[i])
  }

  function Flat(steps: seq<seq<Op>>): seq<Op> {
    if steps == [] then [] else Flat(steps[..|steps| - 1]) + steps[|steps| - 1]
  }

  lemma ChainInit(books: seq<Book>, steps: seq<seq<Op>>)
    requires Chain(books, steps) && steps != []
    ensures Chain(books[..|steps|], steps[..|steps| - 1])
  {
  }

  lemma {:induction false} ChainLeads(books: seq<Book>, steps: seq<seq<Op>>)
    requires Chain(books, steps)
    ensures Perform(books[0], Flat(steps)) == books[|steps|] && PlainOps(Flat(steps))
    decreases |steps|
  {
    if steps != [] {
      var n := |steps| - 1;
      ChainInit(books, steps);
      ChainLeads(books[..n + 1], steps[..n]);
      PerformConcat(books[0], Flat(steps[..n]), steps[n]);
    }
  }

  /** However much of a run the ledger has seen, it is at or inside one of its steps. */
  lemma {:induction false} ChainInStep(books: seq<Book>, steps: seq<seq<Op>>, ops: seq<Op>) returns (i: nat)
    requires Chain(books, steps) && ops <= Flat(steps)
    ensures i < |books| && InStep(Perform(books[0], ops), books[i])
    decreases |steps|
  {
    i := |steps|;
    if steps == [] {
      PrefixInStep(books[0], [], books[0], 0);
      assert ops == [][..0];
    } else {
      var n := |steps| - 1;
      var before := Flat(steps[..n]);
      ChainInit(books, steps);
      if |ops| <= |before| {
        i := ChainInStep(books[..n + 1], steps[..n], ops);
      } else {
        var k := |ops| - |before|;
        assert ops == before + steps[n][..k];
        ChainLeads(books[..n + 1], steps[..n]);
        PerformConcat(books[0], before, steps[n][..k]);
        PrefixInStep(books[n], steps[n], books[n + 1], k);
        if !InStep(Perform(books[0], ops), books[n + 1]) {
          i := n;
        }
      }
    }
  }

  /** A daemon process starts at `from` and is not restarted. */
  ghost predicate OneProcess(steps: seq<Step>, from: nat) {
    && from <= |steps| && (0 < from ==> steps[from - 1].Restarting?)
    && forall i :: from <= i < |steps| ==> !steps[i].Restarting?
  }

  /** The books of a run, and what each of its steps does to them. */
  function Books(states: seq<Daemon>): (books: seq<Book>)
    ensures |books| == |states| && forall i :: 0 <= i < |books| ==> books[i] == states[i].book
  {
    seq(|states|, i requires 0 <= i < |states| => states[i].book)
  }

  ghost function RunOps(env: Env, states: seq<Daemon>, steps: seq<Step>): (ops: seq<seq<Op>>)
    requires |states| == |steps| + 1
    ensures |ops| == |steps| && forall i :: 0 <= i < |ops| ==> ops[i] == Ops(states[i], env, steps[i])
  {
    seq(|steps|, i requires 0 <= i < |steps| => Ops(states[i], env, steps[i]))
  }

  lemma StepPlainOps(d: Daemon, after: Daemon, env: Env, st: Step)
    requires after == Take(d, env, st) && Inv(after, env) && !st.Restarting?
    ensures Leads(d.book, Ops(d, env, st), after.book) && PlainOps(Ops(d, env, st))
  {
    StepLeads(d, env, st);
    LabelledPlain(after.book, after.refs);
    LeadsPlain(d.book, Ops(d, env, st), after.book);
  }

  ghost predicate InvAt(states: seq<Daemon>, env: Env, i: nat)
    requires i < |states|
  {
    Inv(states[i], env)
  }

  lemma RunChain(env: Env, states: seq<Daemon>, steps: seq<Step>)
    requires IsRun(env, states, steps) && forall i :: 0 <= i < |steps| ==> !steps[i].Restarting?
    requires forall i :: 0 <= i < |states| ==> InvAt(states, env, i)
    ensures Chain(Books(states), RunOps(env, states, steps))
  {
    var books, ops := Books(states), RunOps(env, states, steps);
    forall i | 0 <= i < |ops| ensures Leads(books[i], ops[i], books[i + 1]) && PlainOps(ops[i]) {
      assert InvAt(states, env, i + 1);
      StepPlainOps(states[i], states[i + 1], env, steps[i]);
    }
  }

  lemma RunSuffix(env: Env, states: seq<Daemon>, steps: seq<Step>, from: nat)
    requires IsRun(env, states, steps) && OneProcess(steps, from)
    requires forall i :: 0 <= i < |states| ==> InvAt(states, env, i)
    ensures Chain(Books(states[from..]), RunOps(env, states[from..], steps[from..]))
  {
    forall i | 0 <= i < |states| - from ensures InvAt(states[from..], env, i) {
      assert InvAt(states, env, from + i);
    }
    RunChain(env, states[from..], steps[from..]);
  }

  /** What holds all along a run, of a state of it. */
  lemma StateKeeps(cards: seq<Card>, refs: map<int, CardRef>, env: Env, file: seq<Interval>,
                   states: seq<Daemon>, steps: seq<Step>, i: nat)
    requires Monotone(env) && DistinctIndices(cards) && Sound(file, cards, refs, env.time(0))
    requires IsRun(env, states, steps) && states[0] == Boot(cards, refs, file, 0, 0) && i < |states|
    ensures InvAt(states, env, i) && AllLabelled(states[i].book, refs)
    ensures Budgeted(states[i].book, S.New(cards).cards, env.time(states[i].tick))
  {
    assert IsRun(env, states[..i + 1], steps[..i]);
    RunKeeps(cards, refs, env, file, states[..i + 1], steps[..i]);
    RefsStay(env, states[..i + 1], steps[..i]);
  }

  /** A daemon process starts without open intervals. */
  lemma ProcessStarts(env: Env, states: seq<Daemon>, steps: seq<Step>, from: nat)
    requires IsRun(env, states, steps) && OneProcess(steps, from) && states[0].book.open == map[]
    ensures states[from].book == Book(states[from].book.file, map[])
  {
  }

  lemma PrefixPlain(ops: seq<Op>, all: seq<Op>)
    requires ops <= all && PlainOps(all)
    ensures PlainOps(ops)
  {
    assert forall i :: 0 <= i < |ops| ==> ops[i] == all[i];
  }

  /** A ledger that has seen some of a chain of steps is, taken as a whole, at or inside one of them. */
  lemma LedgerInStep(file: seq<Interval>, books: seq<Book>, steps: seq<seq<Op>>, ledger: seq<R.State>,
                     events: seq<R.Event>)
    returns (i: nat)
    requires Chain(books, steps) && books[0] == Book(file, map[]) && AllPlainIvs(file)
    requires R.IsRun(ledger, events) && ledger[0] == R.Loaded(file) && Done(events) <= Flat(steps)
    ensures i < |books| && InStep(Perform(books[0], Done(events)), books[i])
    ensures R.Ok(ledger[|events|]) && AllPlain(ledger[|events|])
    ensures Whole(ledger[|events|], Perform(books[0], Done(events)))
  {
    ChainLeads(books, steps);
    PrefixPlain(Done(events), Flat(steps));
    R.RunOk(file, ledger, events);
    RunWhole(file, ledger, events);
    i := ChainInStep(books, steps, Done(events));
  }

  /** A report that races with the daemon bills no card for more than itself. The daemon has run since `from`, its
      last start, and the ledger has so far seen some of what its steps do, perhaps part of a step's; reports,
      writes to the file and the daemon's operations come in any order. Whenever a report then gathers, its row
      of a card over any window is within the card. */
  lemma RacingReportWithinCard(cards: seq<Card>, refs: map<int, CardRef>, env: Env, file: seq<Interval>,
                               states: seq<Daemon>, steps: seq<Step>, from: nat, ledger: seq<R.State>,
                               events: seq<R.Event>, jobs: seq<string>, c: Card, since: real, until: real)
    requires Monotone(env) && DistinctIndices(cards) && OneWord(refs) && Sound(file, cards, refs, env.time(0))
    requires IsRun(env, states, steps) && states[0] == Boot(cards, refs, file, 0, 0) && OneProcess(steps, from)
    requires R.IsRun(ledger, events) && ledger[0] == R.Loaded(states[from].book.file)
    requires Done(events) <= Flat(RunOps(env, states[from..], steps[from..]))
    requires R.Enabled(ledger[|events|], R.Gathers(jobs)) && c in S.New(cards).cards && since <= until
    ensures RacingWithin(Shown(R.Next(ledger[|events|], R.Gathers(jobs)).report, until), KeyOfCard(refs, c.index), c,
                         since, until)
  {
    forall i | 0 <= i < |states| ensures InvAt(states, env, i) {
      StateKeeps(cards, refs, env, file, states, steps, i);
    }
    RunSuffix(env, states, steps, from);
    ProcessStarts(env, states, steps, from);
    StateKeeps(cards, refs, env, file, states, steps, from);
    LabelledPlain(states[from].book, refs);
    var books, ops := Books(states[from..]), RunOps(env, states[from..], steps[from..]);
    var i := LedgerInStep(states[from].book.file, books, ops, ledger, events);
    StateKeeps(cards, refs, env, file, states, steps, from + i);
    InStepReport(ledger[|events|], Perform(books[0], Done(events)), books[i], refs,
                 S.New(cards).cards, env.time(states[from + i].tick), jobs, c, since, until);
  }
}
