/** What every daemon step keeps: open intervals are backed by placements, and no card is over-billed. */
module DaemonLaws {
  import opened Share
  import opened Cards
  import opened Accounting
  import opened AccountingLaws
  import opened Billing
  import opened CardBudget
  import opened DaemonModel
  import Greedy
  import Lists
  import P = Preemption
  import S = SchedulerModel
  import L = SchedulerLaws
  import D = DrainLaws

  /** The clock never goes back. */
  ghost predicate Monotone(env: Env) {
    forall m: nat, n: nat :: m <= n ==> env.time(m) <= env.time(n)
  }

  /** Jobs are filed under their own ids; a job has open intervals exactly when it runs; a running job has a
      process, and only running and paused jobs do. */
  ghost predicate Consistent(jobs: map<string, Job>, open: map<string, seq<Interval>>) {
    && (forall id :: id in jobs ==> jobs[id].id == id && jobs[id].req.id == id)
    && (forall id :: id in open ==> id in jobs && jobs[id].state == Running)
    && (forall id :: id in jobs && jobs[id].state == Running ==> id in open && jobs[id].proc.Some?)
    && (forall id :: id in jobs && jobs[id].proc.Some? ==> jobs[id].state == Running || jobs[id].state == Paused)
  }

  /** The interval carries the vendor and the name of its card, and nothing negative. */
  ghost predicate Labelled(iv: Interval, refs: map<int, CardRef>) {
    && iv.vendor == RefOf(refs, iv.card).vendor && iv.cardName == RefOf(refs, iv.card).name
    && 0.0 <= iv.share && 0 <= iv.memMiB
  }

  ghost predicate AllLabelled(b: Book, refs: map<int, CardRef>) {
    && (forall i :: 0 <= i < |b.file| ==> Labelled(b.file[i], refs))
    && (forall id, i :: id in b.open && 0 <= i < |b.open[id]| ==> Labelled(b.open[id][i], refs))
  }

  /** The share of a card is within one card, and its memory within the card's. */
  ghost predicate Budgeted(b: Book, cards: seq<Card>, now: real) {
    forall c :: c in cards ==> CardBudgeted(b, c, now)
  }

  ghost predicate CardBudgeted(b: Book, c: Card, now: real) {
    && Bounded(b, OnCard(c.index), PerShare(), 1.0, now)
    && Bounded(b, OnCard(c.index), PerMem(), c.memMiB as real, now)
  }

  /** What every step keeps, the clock being at `now`. Inside a step, the intervals of jobs in `but` are
      still to be closed. */
  ghost predicate Holding(s: S.Sched, b: Book, jobs: map<string, Job>, refs: map<int, CardRef>, now: real,
                          but: set<string>) {
    && S.Valid(s)
    && D.Fresh(s.queue, s.running)
    && Backed(b.open, s.running, but)
    && Consistent(jobs, b.open)
    && AllLabelled(b, refs)
    && Budgeted(b, s.cards, now)
  }

  ghost predicate Keeps(d: Daemon, env: Env, but: set<string>) {
    Holding(d.sched, d.book, d.jobs, d.refs, env.time(d.tick), but)
  }

  ghost predicate Inv(d: Daemon, env: Env) {
    Keeps(d, env, {})
  }

  lemma CardRatesBlind(card: int)
    ensures EndBlind(OnCard(card), PerShare()) && EndBlind(OnCard(card), PerMem())
  {
  }

  // ---- ledger steps ----

  lemma EndBudgeted(b: Book, cards: seq<Card>, refs: map<int, CardRef>, id: string, now: real, t: real, later: real)
    requires Budgeted(b, cards, now) && AllLabelled(b, refs) && now <= t <= later
    ensures Budgeted(End(b, id, t), cards, later) && AllLabelled(End(b, id, t), refs)
  {
    forall c | c in cards ensures CardBudgeted(End(b, id, t), c, later) {
      CardRatesBlind(c.index);
      assert CardBudgeted(b, c, now);
      EndBounded(b, id, OnCard(c.index), PerShare(), 1.0, now, t);
      EndBounded(b, id, OnCard(c.index), PerMem(), c.memMiB as real, now, t);
      Advance(End(b, id, t), OnCard(c.index), PerShare(), 1.0, t, later);
      Advance(End(b, id, t), OnCard(c.index), PerMem(), c.memMiB as real, t, later);
    }
    EndLabelled(b, refs, id, t);
  }

  lemma EndLabelled(b: Book, refs: map<int, CardRef>, id: string, t: real)
    requires AllLabelled(b, refs)
    ensures AllLabelled(End(b, id, t), refs)
  {
    var f := End(b, id, t).file;
    forall i | 0 <= i < |f| ensures Labelled(f[i], refs) {
      if |b.file| <= i { assert Labelled(b.open[id][i - |b.file|], refs); }
    }
  }

  lemma AdvanceBudgeted(b: Book, cards: seq<Card>, now: real, later: real)
    requires Budgeted(b, cards, now) && now <= later
    ensures Budgeted(b, cards, later)
  {
    forall c | c in cards ensures CardBudgeted(b, c, later) {
      CardRatesBlind(c.index);
      assert CardBudgeted(b, c, now);
      Advance(b, OnCard(c.index), PerShare(), 1.0, now, later);
      Advance(b, OnCard(c.index), PerMem(), c.memMiB as real, now, later);
    }
  }

  /** Opening a job's intervals one after another writes them all under its id. */
  lemma {:induction false} BeginOpens(b: Book, ivs: seq<Interval>, id: string)
    requires id !in b.open && ivs != [] && forall k :: 0 <= k < |ivs| ==> ivs[k].job == id
    ensures Begin(b, ivs) == b.(open := b.open[id := ivs])
  {
    var n := |ivs| - 1;
    assert ivs == ivs[..n] + [ivs[n]];
    if n == 0 {
      BeginFirst(b, ivs[n]);
    } else {
      BeginOpens(b, ivs[..n], id);
      BeginNext(b, Begin(b, ivs[..n]), ivs[..n], ivs[n]);
    }
  }

  lemma BeginFirst(b: Book, iv: Interval)
    requires iv.job !in b.open
    ensures Begin(b, [iv]) == b.(open := b.open[iv.job := [iv]])
  {
    var one := [iv];
    assert one[..|one| - 1] == [];
    assert Begin(b, []) == b;
    assert Begin(b, one) == BeginOne(b, iv);
    assert [] + [iv] == one;
  }

  lemma BeginLast(b: Book, ivs: seq<Interval>, iv: Interval)
    ensures Begin(b, ivs + [iv]) == BeginOne(Begin(b, ivs), iv)
  {
    var all := ivs + [iv];
    assert all[..|all| - 1] == ivs;
  }

  lemma BeginNext(b: Book, begun: Book, ivs: seq<Interval>, iv: Interval)
    requires begun == Begin(b, ivs) == b.(open := b.open[iv.job := ivs])
    ensures Begin(b, ivs + [iv]) == b.(open := b.open[iv.job := ivs + [iv]])
  {
    BeginLast(b, ivs, iv);
    OneMore(b, begun, ivs, iv);
  }

  lemma OneMore(b: Book, begun: Book, ivs: seq<Interval>, iv: Interval)
    requires begun == b.(open := b.open[iv.job := ivs])
    ensures BeginOne(begun, iv) == b.(open := b.open[iv.job := ivs + [iv]])
  {
  }

  /** Intervals that together fit under the cap can be opened one after another. */
  lemma {:induction false} BeginAllBounded(b: Book, ivs: seq<Interval>, pick: Pick, rate: Rate, cap: real, now: real,
                                           later: real)
    requires Bounded(b, pick, rate, cap, now) && EndBlind(pick, rate)
    requires HeldNow(b, pick, rate) + Total(ivs, Holds(pick, rate)) <= cap
    requires forall k :: 0 <= k < |ivs| ==> 0.0 <= Holds(pick, rate)(ivs[k]) && now <= ivs[k].start <= later
    requires forall j, k :: 0 <= j <= k < |ivs| ==> ivs[j].start <= ivs[k].start
    requires now <= later
    ensures Bounded(Begin(b, ivs), pick, rate, cap, later)
    ensures HeldNow(Begin(b, ivs), pick, rate) == HeldNow(b, pick, rate) + Total(ivs, Holds(pick, rate))
  {
    if ivs == [] {
      Advance(b, pick, rate, cap, now, later);
    } else {
      var n := |ivs| - 1;
      BeginAllBounded(b, ivs[..n], pick, rate, cap, now, ivs[n].start);
      BeginBounded(Begin(b, ivs[..n]), ivs[n], pick, rate, cap, ivs[n].start);
      Advance(Begin(b, ivs), pick, rate, cap, ivs[n].start, later);
    }
  }

  // ---- launching ----

  lemma SlotPlain(cards: seq<Card>, p: Placed, k: nat)
    requires JobOk(cards, p) && k < |p.slots|
    ensures 0.0 <= p.slots[k].granted && 0 <= p.slots[k].memMiB
  {
    assert SlotOk(cards, p.req, p.slots[k]);
  }

  /** Intervals are slots, labelled, with readings of the clock in order. */
  ghost predicate Ready(ivs: seq<Interval>, id: string, slots: seq<Slot>, refs: map<int, CardRef>, now: real,
                        later: real) {
    && Covers(ivs, id, slots)
    && (forall k :: 0 <= k < |ivs| ==> Labelled(ivs[k], refs) && now <= ivs[k].start <= later)
    && (forall j, k :: 0 <= j <= k < |ivs| ==> ivs[j].start <= ivs[k].start)
  }

  lemma IntervalsAre(cards: seq<Card>, refs: map<int, CardRef>, env: Env, tick: nat, job: Job, p: Placed)
    requires Monotone(env) && JobOk(cards, p)
    ensures Ready(Intervals(refs, env, tick, job, p.slots), job.id, p.slots, refs, env.time(tick),
                  env.time(tick + |p.slots|))
  {
    var ivs := Intervals(refs, env, tick, job, p.slots);
    forall k | 0 <= k < |ivs| ensures Labelled(ivs[k], refs) {
      SlotPlain(cards, p, k);
    }
  }

  /** A placed job without open intervals may open them: the card still has that much to give. */
  lemma RoomForIntervals(s: S.Sched, b: Book, c: Card, id: string, ivs: seq<Interval>)
    requires S.Valid(s) && c in s.cards && Backed(b.open, s.running, {}) && id in s.running && id !in b.open
    requires Covers(ivs, id, s.running[id].slots)
    ensures HeldNow(b, OnCard(c.index), PerShare()) + Total(ivs, Holds(OnCard(c.index), PerShare())) <= 1.0
    ensures HeldNow(b, OnCard(c.index), PerMem()) + Total(ivs, Holds(OnCard(c.index), PerMem())) <= c.memMiB as real
  {
    assert JobOk(s.cards, s.running[id]);
    RoomToOpen(s, b, c, id);
    CoveredHolds(s.cards, ivs, id, s.running[id].req, s.running[id].slots, c);
  }

  lemma OpenOnCard(b: Book, ivs: seq<Interval>, refs: map<int, CardRef>, c: Card, now: real, later: real)
    requires CardBudgeted(b, c, now) && now <= later
    requires HeldNow(b, OnCard(c.index), PerShare()) + Total(ivs, Holds(OnCard(c.index), PerShare())) <= 1.0
    requires HeldNow(b, OnCard(c.index), PerMem()) + Total(ivs, Holds(OnCard(c.index), PerMem())) <= c.memMiB as real
    requires forall k :: 0 <= k < |ivs| ==> Labelled(ivs[k], refs) && now <= ivs[k].start <= later
    requires forall j, k :: 0 <= j <= k < |ivs| ==> ivs[j].start <= ivs[k].start
    ensures CardBudgeted(Begin(b, ivs), c, later)
  {
    CardRatesBlind(c.index);
    forall k | 0 <= k < |ivs|
      ensures 0.0 <= Holds(OnCard(c.index), PerShare())(ivs[k]) && 0.0 <= Holds(OnCard(c.index), PerMem())(ivs[k])
    {
      assert Labelled(ivs[k], refs);
    }
    BeginAllBounded(b, ivs, OnCard(c.index), PerShare(), 1.0, now, later);
    BeginAllBounded(b, ivs, OnCard(c.index), PerMem(), c.memMiB as real, now, later);
  }

  lemma OpenBudgeted(s: S.Sched, b: Book, ivs: seq<Interval>, refs: map<int, CardRef>, id: string, now: real,
                     later: real)
    requires S.Valid(s) && Backed(b.open, s.running, {}) && id in s.running && id !in b.open
    requires Ready(ivs, id, s.running[id].slots, refs, now, later) && Budgeted(b, s.cards, now) && now <= later
    ensures Budgeted(Begin(b, ivs), s.cards, later)
  {
    forall c | c in s.cards ensures CardBudgeted(Begin(b, ivs), c, later) {
      RoomForIntervals(s, b, c, id, ivs);
      OpenOnCard(b, ivs, refs, c, now, later);
    }
  }

  lemma OpenBacked(b: Book, running: Running, refs: map<int, CardRef>, ivs: seq<Interval>, id: string, now: real,
                   later: real)
    requires Backed(b.open, running, {}) && AllLabelled(b, refs) && id in running && id !in b.open
    requires Ready(ivs, id, running[id].slots, refs, now, later) && ivs != []
    ensures Begin(b, ivs) == b.(open := b.open[id := ivs])
    ensures Backed(Begin(b, ivs).open, running, {}) && AllLabelled(Begin(b, ivs), refs)
  {
    BeginOpens(b, ivs, id);
  }

  lemma ConsistentRuns(jobs: map<string, Job>, open: map<string, seq<Interval>>, job: Job, ivs: seq<Interval>)
    requires Consistent(jobs, open) && job.req.id == job.id && job.state == Running && job.proc.Some?
    ensures Consistent(jobs[job.id := job], open[job.id := ivs])
  {
  }

  /** Opening a started job's intervals. */
  lemma LaunchHolds(s: S.Sched, b: Book, after: Book, jobs: map<string, Job>, now: map<string, Job>,
                    refs: map<int, CardRef>,
                    job: Job, ivs: seq<Interval>, t: real, later: real)
    requires Holding(s, b, jobs, refs, t, {}) && t <= later
    requires job.id in jobs && jobs[job.id].state != Running && job.req.id == job.id && job.state == Running
    requires job.proc.Some?
    requires job.id in s.running && ivs != [] && Ready(ivs, job.id, s.running[job.id].slots, refs, t, later)
    requires after == Begin(b, ivs) && now == jobs[job.id := job]
    ensures Holding(s, after, now, refs, later, {})
  {
    assert job.id !in b.open;
    OpenBacked(b, s.running, refs, ivs, job.id, t, later);
    OpenBudgeted(s, b, ivs, refs, job.id, t, later);
    ConsistentRuns(jobs, b.open, job, ivs);
  }

  lemma LaunchStarts(d: Daemon, env: Env, job: Job, ivs: seq<Interval>, slots: seq<Slot>, after: Daemon)
    requires Inv(d, env) && env.time(d.tick) <= env.time(after.tick)
    requires Ready(ivs, job.id, slots, d.refs, env.time(d.tick), env.time(after.tick))
    requires job.id in d.sched.running && d.sched.running[job.id].slots == slots && slots != []
    requires job.id in d.jobs && d.jobs[job.id].state != Running && job.req.id == job.id
    requires job.state == Running && job.proc.Some?
    requires after.sched == d.sched && after.refs == d.refs && after.jobs == d.jobs[job.id := job]
    requires after.book == Begin(d.book, ivs)
    ensures Inv(after, env)
  {
    LaunchHolds(d.sched, d.book, after.book, d.jobs, after.jobs, d.refs, job, ivs, env.time(d.tick),
                env.time(after.tick));
  }

  lemma LaunchIdles(d: Daemon, env: Env, tick: nat, launched: nat)
    requires Inv(d, env) && env.time(d.tick) <= env.time(tick)
    ensures Inv(d.(tick := tick, launched := launched), env)
  {
    AdvanceBudgeted(d.book, d.sched.cards, env.time(d.tick), env.time(tick));
  }

  lemma LaunchReady(d: Daemon, env: Env, job: Job, slots: seq<Slot>)
    requires Monotone(env) && Inv(d, env) && job.id in d.sched.running && d.sched.running[job.id].slots == slots
    ensures env.time(d.tick) <= env.time(d.tick + |slots|)
    ensures Ready(Intervals(d.refs, env, d.tick, job, slots), job.id, slots, d.refs, env.time(d.tick),
                  env.time(d.tick + |slots|))
  {
    assert JobOk(d.sched.cards, d.sched.running[job.id]);
    IntervalsAre(d.sched.cards, d.refs, env, d.tick, job, d.sched.running[job.id]);
  }

  /** A launch, successful or not, keeps the invariant. */
  lemma LaunchKeeps(d: Daemon, env: Env, job: Job, pl: Placement)
    requires Monotone(env) && Inv(d, env)
    requires job.id in d.sched.running && d.sched.running[job.id].slots == pl.slots && pl.slots != []
    requires job.id in d.jobs && d.jobs[job.id].state != Running && job.req.id == job.id
    ensures Inv(Launch(d, env, job, pl).0, env)
  {
    LaunchReady(d, env, job, pl.slots);
    LaunchEither(d, env, job, pl);
  }

  lemma LaunchEither(d: Daemon, env: Env, job: Job, pl: Placement)
    requires Inv(d, env) && env.time(d.tick) <= env.time(d.tick + |pl.slots|)
    requires Ready(Intervals(d.refs, env, d.tick, job, pl.slots), job.id, pl.slots, d.refs, env.time(d.tick),
                   env.time(d.tick + |pl.slots|))
    requires job.id in d.sched.running && d.sched.running[job.id].slots == pl.slots && pl.slots != []
    requires job.id in d.jobs && d.jobs[job.id].state != Running && job.req.id == job.id
    ensures Inv(Launch(d, env, job, pl).0, env)
  {
    if env.launch(d.launched) {
      LaunchStarts(d, env, job.(state := Running, placement := Some(pl), proc := Some(d.launched)),
                   Intervals(d.refs, env, d.tick, job, pl.slots), pl.slots, Launch(d, env, job, pl).0);
    } else {
      LaunchIdles(d, env, d.tick + |pl.slots|, d.launched + 1);
    }
  }

  // ---- pausing ----

  ghost predicate Apart(ids: set<string>, s: S.Sched) {
    ids !! s.running.Keys && forall r :: r in s.queue ==> r.id !in ids
  }

  lemma PauseOneKeeps(d: Daemon, env: Env, id: string, but: set<string>)
    requires Monotone(env) && Keeps(d, env, but) && id in but && Apart(but, d.sched)
    ensures var after := PauseOne(d, env, id);
            && Keeps(after, env, but - {id}) && Apart(but - {id}, after.sched)
            && after.sched.running == d.sched.running && after.sched.cards == d.sched.cards && after.refs == d.refs
            && after.jobs.Keys == d.jobs.Keys
            && forall j :: j in d.jobs && j != id ==> after.jobs[j] == d.jobs[j]
  {
    if id in d.jobs && d.jobs[id].proc.Some? {
      EndBudgeted(d.book, d.sched.cards, d.refs, id, env.time(d.tick), env.time(d.tick), env.time(d.tick + 1));
      D.FreshRequeue(d.sched, d.jobs[id].req);
    }
  }

  lemma {:induction false} PauseAllKeeps(d: Daemon, env: Env, ids: seq<string>)
    requires Monotone(env) && Keeps(d, env, Greedy.Set(ids)) && Lists.Distinct(ids) && Apart(Greedy.Set(ids), d.sched)
    ensures var after := PauseAll(d, env, ids);
            && Inv(after, env)
            && after.sched.running == d.sched.running && after.sched.cards == d.sched.cards && after.refs == d.refs
            && after.jobs.Keys == d.jobs.Keys
            && forall j :: j in d.jobs && j !in ids ==> after.jobs[j] == d.jobs[j]
    decreases |ids|
  {
    if ids == [] {
      assert Greedy.Set(ids) == {};
    } else {
      PauseOneKeeps(d, env, ids[0], Greedy.Set(ids));
      assert Greedy.Set(ids) - {ids[0]} == Greedy.Set(ids[1..]);
      PauseAllKeeps(PauseOne(d, env, ids[0]), env, ids[1..]);
    }
  }

  // ---- the steps ----

  lemma StartOneKeeps(d: Daemon, env: Env, dec: Decision)
    requires Monotone(env) && Inv(d, env) && D.PlacedAs(d.sched.running, dec)
    ensures Inv(StartOne(d, env, dec), env) && StartOne(d, env, dec).sched == d.sched
  {
    var pl := dec.placement.value;
    if pl.jobId in d.jobs && (d.jobs[pl.jobId].state == Queued || d.jobs[pl.jobId].state == Paused) {
      assert JobOk(d.sched.cards, d.sched.running[pl.jobId]);
      LaunchKeeps(d, env, d.jobs[pl.jobId], pl);
    }
  }

  lemma {:induction false} StartAllKeeps(d: Daemon, env: Env, decs: seq<Decision>)
    requires Monotone(env) && Inv(d, env) && forall i :: 0 <= i < |decs| ==> D.PlacedAs(d.sched.running, decs[i])
    ensures Inv(StartAll(d, env, decs), env) && StartAll(d, env, decs).sched == d.sched
    decreases |decs|
  {
    if decs != [] {
      StartOneKeeps(d, env, decs[0]);
      StartAllKeeps(StartOne(d, env, decs[0]), env, decs[1..]);
    }
  }

  /** The id is not in use anywhere. */
  ghost predicate FreshId(d: Daemon, id: string) {
    id !in d.jobs && id !in d.sched.running && forall r :: r in d.sched.queue ==> r.id != id
  }

  /** After `Admit`: pushed-off jobs are out of the scheduler and the queue, everyone else is where they were. */
  lemma AdmitApart(d: Daemon, env: Env, r: Request)
    requires Inv(d, env) && FreshId(d, r.id) && S.Admit(d.sched, r).1.Ok?
    ensures var (sched, res) := S.Admit(d.sched, r);
            var but := Greedy.Set(res.value.preempt);
            && S.Valid(sched) && sched.cards == d.sched.cards
            && D.Fresh(sched.queue, sched.running)
            && Lists.Distinct(res.value.preempt) && Apart(but, sched)
            && Backed(d.book.open, sched.running, but)
            && r.id !in but
            && (res.value.placement.None? ==> res.value.preempt == [] && r.id !in sched.running)
            && (res.value.placement.Some? ==> D.PlacedAs(sched.running, res.value)
                                              && res.value.placement.value.jobId == r.id)
  {
    S.AdmitKeepsValid(d.sched, r);
    var (sched, res) := S.Admit(d.sched, r);
    var but := Greedy.Set(res.value.preempt);
    if res.value.placement.None? {
      D.FreshAppend(d.sched, r);
      assert but == {};
    } else {
      D.AdmitSpares(d.sched, r);
      AdmitDistinct(d.sched, r);
      assert sched.running.Keys == d.sched.running.Keys - but + {r.id};
      forall id | id in d.book.open && id !in but
        ensures id in sched.running && Covers(d.book.open[id], id, sched.running[id].slots)
      {
        assert id in sched.running - {r.id};
      }
    }
  }

  lemma AdmitDistinct(s: S.Sched, r: Request)
    requires S.Valid(s) && S.Admit(s, r).1.Ok?
    ensures Lists.Distinct(S.Admit(s, r).1.value.preempt)
  {
    if P.Victims(s.cards, s.running, r).Some? {
      P.VictimsMinimal(s.cards, s.running, r);
    }
  }

  lemma ConsistentAdd(jobs: map<string, Job>, open: map<string, seq<Interval>>, job: Job)
    requires Consistent(jobs, open) && job.id !in open && job.req.id == job.id && job.state != Running && job.proc.None?
    ensures Consistent(jobs[job.id := job], open)
  {
  }

  lemma ConsistentDrop(jobs: map<string, Job>, open: map<string, seq<Interval>>, id: string)
    requires Consistent(jobs, open)
    ensures Consistent(jobs - {id}, open - {id})
  {
  }

  lemma SubmitKeeps(d: Daemon, env: Env, r: SubmitRequest, id: string)
    requires Monotone(env) && Inv(d, env) && FreshId(d, id)
    ensures Inv(Submit(d, env, r, id).0, env) && Submit(d, env, r, id).0.sched.cards == d.sched.cards
  {
    var req := RequestFor(r, id);
    if r.hasCommand && S.Admit(d.sched, req).1.Ok? {
      AdmitApart(d, env, req);
      var (sched, res) := S.Admit(d.sched, req);
      var job := NewJob(r, id);
      var begun := d.(sched := sched, jobs := d.jobs[id := job]);
      ConsistentAdd(d.jobs, d.book.open, job);
      PauseAllKeeps(begun, env, res.value.preempt);
      var paused := PauseAll(begun, env, res.value.preempt);
      assert paused.jobs[id] == job;
      if res.value.placement.None? {
        ConsistentAdd(paused.jobs, paused.book.open, job.(state := Queued));
      } else {
        LaunchSubmitted(paused, env, job, res.value.placement.value);
      }
    }
  }

  /** Launching the job just admitted, and taking it back when the launch fails. */
  lemma LaunchSubmitted(d: Daemon, env: Env, job: Job, pl: Placement)
    requires Monotone(env) && Inv(d, env) && job.id in d.jobs && d.jobs[job.id] == job && job.state == Created
    requires pl.jobId == job.id && job.id in d.sched.running && d.sched.running[job.id].slots == pl.slots
    ensures var (after, ok) := Launch(d, env, job, pl);
            && after.sched.cards == d.sched.cards
            && (ok ==> Inv(after, env))
            && (!ok ==>
                 var undone := after.(sched := S.Release(after.sched, job.id).0, jobs := after.jobs - {job.id});
                 Inv(undone, env) && undone.sched.cards == d.sched.cards)
  {
    assert JobOk(d.sched.cards, d.sched.running[job.id]);
    LaunchKeeps(d, env, job, pl);
    var (after, ok) := Launch(d, env, job, pl);
    if !ok {
      TakeBackKeeps(after, env, job.id);
    }
  }

  /** Taking back a job that has no open intervals. */
  lemma TakeBackKeeps(d: Daemon, env: Env, id: string)
    requires Inv(d, env) && id !in d.book.open
    ensures var undone := d.(sched := S.Release(d.sched, id).0, jobs := d.jobs - {id});
            Inv(undone, env) && undone.sched.cards == d.sched.cards
  {
    ReleaseBacked(d, env, id);
    ConsistentDrop(d.jobs, d.book.open, id);
    assert d.book.open - {id} == d.book.open;
  }

  /** Releasing a job without open intervals leaves every open interval backed. */
  lemma ReleaseBacked(d: Daemon, env: Env, id: string)
    requires Inv(d, env) && id !in d.book.open
    ensures var sched := S.Release(d.sched, id).0;
            && S.Valid(sched) && sched.cards == d.sched.cards
            && D.Fresh(sched.queue, sched.running)
            && Backed(d.book.open, sched.running, {})
            && forall i :: 0 <= i < |S.Release(d.sched, id).1| ==>
              D.PlacedAs(sched.running, S.Release(d.sched, id).1[i])
  {
    D.ReleasePlaces(d.sched, id);
    var sched := S.Release(d.sched, id).0;
    forall j | j in d.book.open ensures j in sched.running && Covers(d.book.open[j], j, sched.running[j].slots) {
      assert j in d.sched.running - {id};
    }
  }

  /** Closing the books on a job that is gone. */
  lemma EndHolds(s: S.Sched, b: Book, after: Book, jobs: map<string, Job>, now: map<string, Job>,
                 refs: map<int, CardRef>,
                 id: string, t: real, later: real)
    requires Holding(s, b, jobs, refs, t, {}) && t <= later && id in jobs
    requires after == End(b, id, t) && now == jobs[id := jobs[id].(state := Exited, proc := None)]
    ensures Holding(s, after, now, refs, later, {})
  {
    EndOpen(b, id, t);
    EndBudgeted(b, s.cards, refs, id, t, t, later);
  }

  lemma EndedKeeps(d: Daemon, env: Env, id: string)
    requires env.time(d.tick) <= env.time(d.tick + 1) && Inv(d, env) && id in d.jobs
    ensures Inv(Ended(d, env, id), env)
  {
    var after := Ended(d, env, id);
    EndHolds(d.sched, d.book, after.book, d.jobs, after.jobs, d.refs, id, env.time(d.tick), env.time(after.tick));
  }

  lemma ReapKeeps(d: Daemon, env: Env, id: string, proc: nat)
    requires Monotone(env) && Inv(d, env)
    ensures Inv(Reap(d, env, id, proc), env) && Reap(d, env, id, proc).sched.cards == d.sched.cards
  {
    if id in d.jobs && d.jobs[id].proc == Some(proc) {
      EndedKeeps(d, env, id);
      ReleaseKeeps(Ended(d, env, id), env, id);
      var (sched, decs) := S.Release(d.sched, id);
      StartAllKeeps(Ended(d, env, id).(sched := sched), env, decs);
    }
  }

  lemma ReleaseKeeps(d: Daemon, env: Env, id: string)
    requires Inv(d, env) && id !in d.book.open
    ensures var (sched, decs) := S.Release(d.sched, id);
            && Inv(d.(sched := sched), env) && sched.cards == d.sched.cards
            && forall i :: 0 <= i < |decs| ==> D.PlacedAs(sched.running, decs[i])
  {
    ReleaseBacked(d, env, id);
  }

  lemma StopKeeps(d: Daemon, env: Env, id: string)
    requires Inv(d, env)
    ensures Inv(Stop(d, id).0, env)
  {
    if id in d.jobs && d.jobs[id].state == Queued {
      D.FreshCancel(d.sched, id);
      ConsistentDrop(d.jobs, d.book.open, id);
      assert d.book.open - {id} == d.book.open;
    }
  }

  /** After a resize in the scheduler, everyone but the resized job is backed as before. */
  lemma ResizeBacked(s: S.Sched, open: map<string, seq<Interval>>, id: string, fraction: real, memMiB: int)
    requires S.Valid(s) && D.Fresh(s.queue, s.running) && Backed(open, s.running, {})
    requires S.Resize(s, id, fraction, memMiB).1.Ok?
    ensures var (after, res) := S.Resize(s, id, fraction, memMiB);
            && S.Valid(after) && after.cards == s.cards && D.Fresh(after.queue, after.running)
            && Backed(open - {id}, after.running, {})
            && id in after.running && after.running[id].slots == res.value.slots
            && JobOk(after.cards, after.running[id])
  {
    L.ResizeKeepsValid(s, id, fraction, memMiB);
    L.ResizeKeepsSeats(s, id, fraction, memMiB);
  }

  lemma ConsistentResize(jobs: map<string, Job>, open: map<string, seq<Interval>>, id: string, job: Job,
                         ivs: seq<Interval>)
    requires Consistent(jobs, open) && id in jobs && jobs[id].state == Running
    requires job == jobs[id].(share := job.share, placement := job.placement)
    ensures Consistent(jobs[id := job], (open - {id})[id := ivs])
  {
  }

  lemma EndOpen(b: Book, id: string, t: real)
    ensures End(b, id, t).open == b.open - {id}
  {
    if id !in b.open { assert b.open - {id} == b.open; }
  }

  /** Closing a job's intervals and opening them again at its new size. */
  lemma ReopenBacked(b: Book, running: Running, refs: map<int, CardRef>, id: string, ivs: seq<Interval>, t: real,
                     now: real, later: real)
    requires AllLabelled(b, refs) && Backed(b.open - {id}, running, {}) && id in running && ivs != []
    requires Ready(ivs, id, running[id].slots, refs, now, later)
    ensures var after := Begin(End(b, id, t), ivs);
            && after.open == (b.open - {id})[id := ivs]
            && Backed(after.open, running, {}) && AllLabelled(after, refs)
  {
    EndOpen(b, id, t);
    EndLabelled(b, refs, id, t);
    OpenBacked(End(b, id, t), running, refs, ivs, id, now, later);
  }

  lemma ReopenBudgeted(s: S.Sched, b: Book, refs: map<int, CardRef>, id: string, ivs: seq<Interval>, t: real, now: real,
                       later: real)
    requires S.Valid(s) && AllLabelled(b, refs) && Backed(b.open - {id}, s.running, {}) && id in s.running
    requires Ready(ivs, id, s.running[id].slots, refs, now, later)
    requires Budgeted(b, s.cards, t) && t <= now <= later
    ensures Budgeted(Begin(End(b, id, t), ivs), s.cards, later)
  {
    EndOpen(b, id, t);
    EndBudgeted(b, s.cards, refs, id, t, t, now);
    OpenBudgeted(s, End(b, id, t), ivs, refs, id, now, later);
  }

  /** Closing and reopening a resized job's intervals, seen as one step of the books. */
  lemma ReopenHolds(s: S.Sched, b: Book, after: Book, jobs: map<string, Job>, now: map<string, Job>,
                    refs: map<int, CardRef>,
                    id: string, ivs: seq<Interval>, t: real, first: real, last: real)
    requires S.Valid(s) && D.Fresh(s.queue, s.running) && AllLabelled(b, refs) && Budgeted(b, s.cards, t)
    requires Consistent(jobs, b.open) && id in jobs && jobs[id].state == Running && id in now
    requires now == jobs[id := jobs[id].(share := now[id].share, placement := now[id].placement)]
    requires Backed(b.open - {id}, s.running, {}) && id in s.running
    requires ivs != [] && t <= first <= last && Ready(ivs, id, s.running[id].slots, refs, first, last)
    requires after == Begin(End(b, id, t), ivs)
    ensures Holding(s, after, now, refs, last, {})
  {
    ReopenBacked(b, s.running, refs, id, ivs, t, first, last);
    ReopenBudgeted(s, b, refs, id, ivs, t, first, last);
    ConsistentResize(jobs, b.open, id, now[id], ivs);
  }

  /** What a granted resize leaves in the scheduler. */
  ghost predicate Resized(d: Daemon, id: string, sched: S.Sched, pl: Placement) {
    && S.Valid(sched) && sched.cards == d.sched.cards && D.Fresh(sched.queue, sched.running)
    && Backed(d.book.open - {id}, sched.running, {})
    && id in sched.running && sched.running[id].slots == pl.slots && pl.slots != []
    && JobOk(sched.cards, sched.running[id])
  }

  /** The readings of the clock a resize takes come in order. */
  ghost predicate InOrder(d: Daemon, env: Env, id: string, pl: Placement) {
    && id in d.jobs
    && env.time(d.tick) <= env.time(d.tick + 1) <= env.time(d.tick + 1 + |pl.slots|)
    && Ready(Intervals(d.refs, env, d.tick + 1, d.jobs[id], pl.slots), id, pl.slots, d.refs,
             env.time(d.tick + 1), env.time(d.tick + 1 + |pl.slots|))
  }

  lemma ReadInOrder(d: Daemon, env: Env, id: string, cards: seq<Card>, pl: Placement, p: Placed)
    requires Monotone(env) && id in d.jobs && d.jobs[id].id == id && JobOk(cards, p) && p.slots == pl.slots
    ensures InOrder(d, env, id, pl)
  {
    IntervalsAre(cards, d.refs, env, d.tick + 1, d.jobs[id], p);
  }

  /** `after` is the daemon with the job's intervals closed and `ivs` opened. */
  ghost predicate Reopened(d: Daemon, env: Env, id: string, sched: S.Sched, after: Daemon, ivs: seq<Interval>) {
    && id in d.jobs && id in after.jobs && after.sched == sched && after.refs == d.refs
    && after.book == Begin(End(d.book, id, env.time(d.tick)), ivs)
    && after.jobs == d.jobs[id := d.jobs[id].(share := after.jobs[id].share, placement := after.jobs[id].placement)]
  }

  lemma ResizeToKeeps(d: Daemon, env: Env, id: string, sched: S.Sched, pl: Placement, after: Daemon, ivs: seq<Interval>,
                      last: real)
    requires Inv(d, env) && id in d.jobs && d.jobs[id].state == Running && Resized(d, id, sched, pl)
    requires env.time(d.tick) <= env.time(d.tick + 1) <= last
    requires Ready(ivs, id, pl.slots, d.refs, env.time(d.tick + 1), last)
    requires Reopened(d, env, id, sched, after, ivs) && env.time(after.tick) == last
    ensures Inv(after, env)
  {
    ReopenHolds(sched, d.book, after.book, d.jobs, after.jobs, d.refs, id, ivs, env.time(d.tick), env.time(d.tick + 1),
                last);
  }

  lemma ResizeToIs(d: Daemon, env: Env, id: string, fraction: real, sched: S.Sched, pl: Placement)
    requires id in d.jobs && d.jobs[id].id == id
    ensures var after := ResizeTo(d.(sched := sched), env, id, fraction, pl);
            && Reopened(d, env, id, sched, after, Intervals(d.refs, env, d.tick + 1, d.jobs[id], pl.slots))
            && env.time(after.tick) == env.time(d.tick + 1 + |pl.slots|)
  {
  }

  lemma ResizeGranted(d: Daemon, env: Env, id: string, fraction: real, sched: S.Sched, pl: Placement)
    requires Inv(d, env) && id in d.jobs && d.jobs[id].state == Running && d.jobs[id].id == id
    requires Resized(d, id, sched, pl)
    requires InOrder(d, env, id, pl)
    ensures Inv(ResizeTo(d.(sched := sched), env, id, fraction, pl), env)
  {
    ResizeToIs(d, env, id, fraction, sched, pl);
    ResizeToKeeps(d, env, id, sched, pl, ResizeTo(d.(sched := sched), env, id, fraction, pl),
                  Intervals(d.refs, env, d.tick + 1, d.jobs[id], pl.slots), env.time(d.tick + 1 + |pl.slots|));
  }

  lemma ResizeKeeps(d: Daemon, env: Env, id: string, fraction: real, memMiB: int)
    requires Monotone(env) && Inv(d, env)
    ensures Inv(Resize(d, env, id, fraction, memMiB).0, env)
    ensures Resize(d, env, id, fraction, memMiB).0.sched.cards == d.sched.cards
  {
    if id in d.jobs && d.jobs[id].state == Running {
      var (sched, res) := S.Resize(d.sched, id, fraction, memMiB);
      if res.Ok? {
        ResizeBacked(d.sched, d.book.open, id, fraction, memMiB);
        ReadInOrder(d, env, id, sched.cards, res.value, sched.running[id]);
        ResizeGranted(d, env, id, fraction, sched, res.value);
      } else {
        assert d.(sched := sched) == d;
      }
    }
  }
}
