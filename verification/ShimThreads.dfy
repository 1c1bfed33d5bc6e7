/** The memory cap under any interleaving of threads (shim/gmux_shim.c:27-40, 110-160). An allocation reserves
    its size, asks the driver, and records the pointer or gives the size back, each under the lock on its own;
    a free forgets the pointer, gives its size back, and calls the driver. */
module ShimThreads {
  import opened Share
  import opened Lists
  import opened Sums
  import opened ShimTable

  const U64: nat := 0x1_0000_0000_0000_0000

  /** Reserves bytes, in 64-bit arithmetic; a limit of 0 is no limit. */
  function Reserve(limit: nat, used: nat, size: nat): (nat, bool) {
    if limit == 0 then ((used + size) % U64, true)
    else if limit < (used + size) % U64 then (used, false)
    else ((used + size) % U64, true)
  }

  function Release(used: nat, size: nat): nat {
    if used < size then 0 else used - size
  }

  /** Where a thread is inside an allocation or a free. */
  datatype Phase =
    | Idle
    | Reserved(size: nat)
    | Refused(size: nat)
    | Allocated(p: nat, size: nat)
    | Forgotten(p: nat, size: nat)
    | Uncounted(p: nat, size: nat)

  /** `live` is what the driver has handed out; `lost` counts bytes that found no place in the table. */
  datatype State = State(limit: nat, used: nat, table: Table, threads: map<nat, Phase>, live: map<nat, nat>, lost: nat)

  datatype Event =
    | Cap(t: nat, size: nat)
    | Driver(t: nat, got: Option<nat>)
    | Note(t: nat)
    | Undo(t: nat)
    | Drop(t: nat, p: nat)
    | Uncap(t: nat)
    | Give(t: nat, ok: bool)

  function PhaseAt(threads: map<nat, Phase>, t: nat): Phase {
    if t in threads then threads[t] else Idle
  }

  function PhaseOf(s: State, t: nat): Phase {
    PhaseAt(s.threads, t)
  }

  /** The thread is at that point. The driver's pointers are not live already and neither 0 nor 1, and the
      counter does not overflow. */
  predicate Enabled(s: State, e: Event) {
    match e
    case Cap(t, size) => PhaseOf(s, t).Idle? && s.used + size < U64
    case Driver(t, p) => PhaseOf(s, t).Reserved? && (p.Some? ==> p.value !in s.live && Real(p.value))
    case Note(t) => PhaseOf(s, t).Allocated?
    case Undo(t) => PhaseOf(s, t).Refused?
    case Drop(t, p) => PhaseOf(s, t).Idle?
    case Uncap(t) => PhaseOf(s, t).Forgotten?
    case Give(t, ok) => PhaseOf(s, t).Uncounted?
  }

  function Next(s: State, e: Event): State
    requires Enabled(s, e)
  {
    match e
    case Cap(t, size) =>
      var (used, ok) := Reserve(s.limit, s.used, size);
      if ok then s.(used := used, threads := s.threads[t := Reserved(size)]) else s
    case Driver(t, p) =>
      var size := PhaseOf(s, t).size;
      if p.Some? then s.(threads := s.threads[t := Allocated(p.value, size)], live := s.live[p.value := size])
      else s.(threads := s.threads[t := Refused(size)])
    case Note(t) =>
      var a := PhaseOf(s, t);
      s.(table := Remember(s.table, a.p, a.size), threads := s.threads[t := Idle],
         lost := if FirstVacant(s.table, Home(a.p), 0).Some? then s.lost else s.lost + a.size)
    case Undo(t) => s.(used := Release(s.used, PhaseOf(s, t).size), threads := s.threads[t := Idle])
    case Drop(t, p) =>
      var (table, n) := Forget(s.table, p);
      s.(table := table, threads := s.threads[t := Forgotten(p, n)])
    case Uncap(t) =>
      var f := PhaseOf(s, t);
      s.(used := Release(s.used, f.size), threads := s.threads[t := Uncounted(f.p, f.size)])
    case Give(t, ok) =>
      s.(threads := s.threads[t := Idle], live := if ok then s.live - {PhaseOf(s, t).p} else s.live)
  }

  // ---- the books ----

  /** Bytes counted as used that are in no thread's table entry: reserved, or forgotten and not yet given back. */
  function InFlight(ph: Phase): nat {
    if ph.Idle? || ph.Uncounted? then 0 else ph.size
  }

  ghost function Flights(threads: map<nat, Phase>): map<nat, int> {
    map t | t in threads :: InFlight(threads[t])
  }

  ghost predicate Books(s: State) {
    && TombsEmpty(s.table)
    && (forall t :: t in s.threads && s.threads[t].Allocated? ==> Real(s.threads[t].p))
    && s.used == Bytes(s.table, MAP) + Sum(Flights(s.threads)) + s.lost
    && s.used < U64
    && (s.limit != 0 ==> s.used <= s.limit)
  }

  lemma FlightsMove(s: State, t: nat, ph: Phase)
    ensures Sum(Flights(s.threads[t := ph])) == Sum(Flights(s.threads)) - InFlight(PhaseOf(s, t)) + InFlight(ph)
  {
    SumUpdate(Flights(s.threads), t, InFlight(ph));
    assert Flights(s.threads[t := ph]) == Flights(s.threads)[t := InFlight(ph)];
    if t in s.threads {
      SumRemove(Flights(s.threads), t);
    } else {
      assert Flights(s.threads) - {t} == Flights(s.threads);
    }
  }

  lemma FlightsCover(s: State, t: nat)
    ensures InFlight(PhaseOf(s, t)) <= Sum(Flights(s.threads))
  {
    if t in s.threads {
      var one: map<nat, int> := map[t := InFlight(s.threads[t])];
      SumMonotone(one, Flights(s.threads));
      SumRemove(one, t);
      assert one - {t} == map[];
    } else {
      var none: map<nat, int> := map[];
      SumMonotone(none, Flights(s.threads));
    }
  }

  /** What a thread gives back was counted: the clamp at zero never acts. */
  lemma NoClamp(s: State, t: nat)
    requires Books(s)
    ensures PhaseOf(s, t).Refused? || PhaseOf(s, t).Forgotten? ==>
              PhaseOf(s, t).size <= s.used && Release(s.used, PhaseOf(s, t).size) == s.used - PhaseOf(s, t).size
  {
    FlightsCover(s, t);
  }

  lemma StepKeepsBooks(s: State, e: Event)
    requires Books(s) && Enabled(s, e)
    ensures Books(Next(s, e)) && Next(s, e).limit == s.limit
  {
    NoClamp(s, e.t);
    FlightsMove(s, e.t, PhaseOf(Next(s, e), e.t));
    match e
    case Note(t) => RememberBytes(s.table, PhaseOf(s, t).p, PhaseOf(s, t).size);
      RememberTombs(s.table, PhaseOf(s, t).p, PhaseOf(s, t).size);
    case Drop(t, p) => ForgetBytes(s.table, p);
    case _ =>
  }

  lemma RememberTombs(t: Table, p: nat, n: nat)
    requires TombsEmpty(t) && Real(p)
    ensures TombsEmpty(Remember(t, p, n))
  {
    if FirstVacant(t, Home(p), 0).Some? {
      DistAt(Home(p), FirstVacant(t, Home(p), 0).value);
    }
  }

  ghost predicate IsRun(states: seq<State>, events: seq<Event>) {
    && |states| == |events| + 1
    && forall i :: 0 <= i < |events| ==> Enabled(states[i], events[i]) && states[i + 1] == Next(states[i], events[i])
  }

  function Start(limit: nat): State {
    State(limit, 0, seq(MAP, i => Entry(NULL, 0)), map[], map[], 0)
  }

  lemma {:induction false} EmptyBytes(t: Table, k: nat)
    requires k <= MAP && forall i :: 0 <= i < MAP ==> t[i] == Entry(NULL, 0)
    ensures Bytes(t, k) == 0
  {
    if k > 0 {
      EmptyBytes(t, k - 1);
    }
  }

  lemma StartBooks(limit: nat)
    ensures Books(Start(limit)) && Sound(Start(limit).table) && Contents(Start(limit).table) == map[]
  {
    var t := Start(limit).table;
    assert forall i :: 0 <= i < MAP ==> t[i] == Entry(NULL, 0);
    EmptyBytes(t, MAP);
    EmptySound(t);
    assert Flights(map[]) == map[];
  }

  /** The books balance after every interleaving of any number of threads, whatever pointers are freed and
      however often, and the counter never passes a limit; bytes are lost only to a full table. */
  lemma {:induction false} BooksBalance(limit: nat, states: seq<State>, events: seq<Event>)
    requires IsRun(states, events) && states[0] == Start(limit)
    ensures var s := states[|events|];
            && Books(s) && s.limit == limit
            && s.used == Bytes(s.table, MAP) + Sum(Flights(s.threads)) + s.lost
            && (limit != 0 ==> s.used <= limit)
            && forall t :: PhaseOf(s, t).Refused? || PhaseOf(s, t).Forgotten? ==> PhaseOf(s, t).size <= s.used
    decreases |events|
  {
    if events == [] {
      StartBooks(limit);
    } else {
      var n := |events| - 1;
      assert forall i :: 0 <= i < n ==> events[..n][i] == events[i] && states[..n + 1][i] == states[i];
      BooksBalance(limit, states[..n + 1], events[..n]);
      StepKeepsBooks(states[n], events[n]);
    }
    forall t | PhaseOf(states[|events|], t).Refused? || PhaseOf(states[|events|], t).Forgotten?
      ensures PhaseOf(states[|events|], t).size <= states[|events|].used
    {
      NoClamp(states[|events|], t);
    }
  }

  /** A reservation says whether the size fits, and counts it, exactly when the sum does not overflow: past
      64 bits an allocation that does not fit is let through. */
  lemma ReserveExact(limit: nat, used: nat, size: nat)
    requires limit < U64 && used < U64 && size < U64 && (limit != 0 ==> used <= limit)
    ensures var (after, ok) := Reserve(limit, used, size);
            (ok == (limit == 0 || used + size <= limit)) && (ok ==> after == used + size) <==> used + size < U64
  {
    assert U64 <= used + size ==> (used + size) % U64 == used + size - U64;
  }

  /** A limit of two bytes, one in use: a reservation of all but one byte of the address space is granted. */
  lemma OverflowAdmits()
    ensures Reserve(2, 1, U64 - 1) == (0, true)
  {
  }

  // ---- what the driver has handed out ----

  predicate Carries(ph: Phase, p: nat) {
    (ph.Allocated? || ph.Forgotten? || ph.Uncounted?) && ph.p == p
  }

  /** Clients free what they hold, once; the driver's frees succeed; and at most a tableful is live. */
  ghost predicate Honest(s: State, e: Event) {
    && Enabled(s, e)
    && |s.live| <= MAP
    && (e.Drop? ==> Recorded(s.table, e.p))
    && (e.Give? ==> e.ok)
  }

  /** Every live pointer is recorded or in one thread's hands, with its size. */
  ghost predicate Kept(m: map<nat, nat>, live: map<nat, nat>, threads: map<nat, Phase>) {
    && (forall p :: p in m ==> p in live && live[p] == m[p])
    && (forall t, p :: Carries(PhaseAt(threads, t), p) ==>
      p in live && live[p] == PhaseAt(threads, t).size && p !in m && Real(p))
    && (forall t, u, p :: Carries(PhaseAt(threads, t), p) && Carries(PhaseAt(threads, u), p) ==> t == u)
    && (forall p :: p in live ==> p in m || Held(threads, p))
  }

  ghost predicate Held(threads: map<nat, Phase>, p: nat) {
    exists t :: Carries(PhaseAt(threads, t), p)
  }

  ghost predicate Faithful(s: State) {
    Sound(s.table) && s.lost == 0 && Kept(Contents(s.table), s.live, s.threads)
  }

  /** A pointer some other thread holds stays held. */
  lemma StillHeld(threads: map<nat, Phase>, t: nat, ph: Phase, p: nat)
    requires Held(threads, p) && !Carries(PhaseAt(threads, t), p)
    ensures Held(threads[t := ph], p)
  {
    var u :| Carries(PhaseAt(threads, u), p);
    assert Carries(PhaseAt(threads[t := ph], u), p);
  }

  /** A thread that holds the same pointer, or none, before and after. */
  lemma KeptSame(m: map<nat, nat>, live: map<nat, nat>, threads: map<nat, Phase>, t: nat, ph: Phase)
    requires Kept(m, live, threads) && forall p :: Carries(ph, p) <==> Carries(PhaseAt(threads, t), p)
    requires forall p :: Carries(ph, p) ==> ph.size == PhaseAt(threads, t).size
    ensures Kept(m, live, threads[t := ph])
  {
    var after := threads[t := ph];
    assert forall u, p :: Carries(PhaseAt(after, u), p) <==> Carries(PhaseAt(threads, u), p);
    forall p | p in live && p !in m ensures Held(after, p) {
      var u :| Carries(PhaseAt(threads, u), p);
      assert Carries(PhaseAt(after, u), p);
    }
  }

  /** The driver hands out a new pointer. */
  lemma KeptGets(m: map<nat, nat>, live: map<nat, nat>, threads: map<nat, Phase>, t: nat, p: nat, n: nat)
    requires Kept(m, live, threads) && p !in live && Real(p) && forall q :: !Carries(PhaseAt(threads, t), q)
    ensures Kept(m, live[p := n], threads[t := Allocated(p, n)])
  {
    var after := threads[t := Allocated(p, n)];
    assert forall u :: u != t ==> PhaseAt(after, u) == PhaseAt(threads, u);
    assert Carries(PhaseAt(after, t), p);
    forall q | q in live && q !in m ensures Held(after, q) {
      StillHeld(threads, t, Allocated(p, n), q);
    }
  }

  lemma LetsGo(threads: map<nat, Phase>, t: nat)
    ensures var after := threads[t := Idle];
            forall u, q :: Carries(PhaseAt(after, u), q) ==>
              u != t && PhaseAt(after, u) == PhaseAt(threads, u) && Carries(PhaseAt(threads, u), q)
  {
  }

  /** A thread lets go of its pointer, which is recorded. */
  lemma KeptStores(m: map<nat, nat>, live: map<nat, nat>, threads: map<nat, Phase>, t: nat, p: nat)
    requires Kept(m, live, threads) && Carries(PhaseAt(threads, t), p)
    ensures Kept(m[p := PhaseAt(threads, t).size], live, threads[t := Idle])
  {
    var after := threads[t := Idle];
    LetsGo(threads, t);
    forall q | q in live && q !in m && q != p ensures Held(after, q) {
      StillHeld(threads, t, Idle, q);
    }
  }

  /** A thread hands its pointer back to the driver. */
  lemma KeptGives(m: map<nat, nat>, live: map<nat, nat>, threads: map<nat, Phase>, t: nat, p: nat)
    requires Kept(m, live, threads) && Carries(PhaseAt(threads, t), p)
    ensures Kept(m, live - {p}, threads[t := Idle])
  {
    var after := threads[t := Idle];
    LetsGo(threads, t);
    forall q | q in live && q !in m && q != p ensures Held(after, q) {
      StillHeld(threads, t, Idle, q);
    }
  }

  /** A thread takes a recorded pointer out of the table. */
  lemma KeptTakes(m: map<nat, nat>, rest: map<nat, nat>, live: map<nat, nat>, threads: map<nat, Phase>, t: nat, p: nat,
                  n: nat)
    requires Kept(m, live, threads) && p in m && Real(p) && forall q :: !Carries(PhaseAt(threads, t), q)
    requires rest == m - {p} && n == m[p]
    ensures Kept(rest, live, threads[t := Forgotten(p, n)])
  {
    var ph := Forgotten(p, n);
    var after := threads[t := ph];
    assert forall u :: u != t ==> PhaseAt(after, u) == PhaseAt(threads, u);
    assert Carries(PhaseAt(after, t), p);
    forall q | q in live && q !in rest ensures Held(after, q) {
      if q !in m {
        StillHeld(threads, t, ph, q);
      }
    }
  }

  lemma RoomLeft(s: State, p: nat)
    requires Faithful(s) && |s.live| <= MAP && p in s.live && p !in Contents(s.table)
    ensures FirstVacant(s.table, Home(p), 0).Some?
  {
    FewerRecorded(Contents(s.table), s.live, p);
    RoomToRemember(s.table, Home(p));
  }

  lemma FewerRecorded(m: map<nat, nat>, live: map<nat, nat>, p: nat)
    requires (forall q :: q in m ==> q in live) && p in live && p !in m
    ensures |m| < |live|
  {
    assert m.Keys <= live.Keys - {p};
    SubsetCount(m.Keys, live.Keys - {p});
    assert |m| == |m.Keys| && |live| == |live.Keys|;
  }

  lemma NoteKeepsFaithful(s: State, t: nat)
    requires Faithful(s) && Honest(s, Note(t))
    ensures Faithful(Next(s, Note(t)))
  {
    var p := PhaseOf(s, t).p;
    assert Carries(PhaseAt(s.threads, t), p);
    RoomLeft(s, p);
    RememberAdds(s.table, p, PhaseOf(s, t).size);
    KeptStores(Contents(s.table), s.live, s.threads, t, p);
  }

  lemma DriverKeepsFaithful(s: State, t: nat, got: Option<nat>)
    requires Faithful(s) && Honest(s, Driver(t, got))
    ensures Faithful(Next(s, Driver(t, got)))
  {
    if got.Some? {
      KeptGets(Contents(s.table), s.live, s.threads, t, got.value, PhaseOf(s, t).size);
    } else {
      KeptSame(Contents(s.table), s.live, s.threads, t, Refused(PhaseOf(s, t).size));
    }
  }

  lemma ForgetRecorded(t: Table, p: nat)
    requires Sound(t) && Recorded(t, p)
    ensures var (after, n) := Forget(t, p);
            && Real(p) && p in Contents(t) && n == Contents(t)[p]
            && Sound(after) && Contents(after) == Contents(t) - {p}
  {
    ForgetRemoves(t, p);
  }

  /** A thread that held nothing took a pointer out of the table. */
  lemma TakenOut(s: State, t: nat, p: nat, table: Table, n: nat, after: State)
    requires Faithful(s) && PhaseOf(s, t).Idle? && Real(p) && p in Contents(s.table) && n == Contents(s.table)[p]
    requires Sound(table) && Contents(table) == Contents(s.table) - {p}
    requires after == s.(table := table, threads := s.threads[t := Forgotten(p, n)])
    ensures Faithful(after)
  {
    KeptTakes(Contents(s.table), Contents(table), s.live, s.threads, t, p, n);
  }

  lemma DropKeepsFaithful(s: State, t: nat, p: nat)
    requires Faithful(s) && Honest(s, Drop(t, p))
    ensures Faithful(Next(s, Drop(t, p)))
  {
    var (table, n) := Forget(s.table, p);
    ForgetRecorded(s.table, p);
    TakenOut(s, t, p, table, n, Next(s, Drop(t, p)));
  }

  lemma GiveKeepsFaithful(s: State, t: nat, ok: bool)
    requires Faithful(s) && Honest(s, Give(t, ok))
    ensures Faithful(Next(s, Give(t, ok)))
  {
    assert Carries(PhaseAt(s.threads, t), PhaseOf(s, t).p);
    KeptGives(Contents(s.table), s.live, s.threads, t, PhaseOf(s, t).p);
  }

  lemma CountKeepsFaithful(s: State, e: Event)
    requires Faithful(s) && Honest(s, e) && (e.Cap? || e.Undo? || e.Uncap?)
    ensures Faithful(Next(s, e))
  {
    KeptSame(Contents(s.table), s.live, s.threads, e.t, PhaseOf(Next(s, e), e.t));
  }

  lemma StepKeepsFaithful(s: State, e: Event)
    requires Faithful(s) && Honest(s, e)
    ensures Faithful(Next(s, e))
  {
    match e
    case Driver(t, got) => DriverKeepsFaithful(s, t, got);
    case Note(t) => NoteKeepsFaithful(s, t);
    case Drop(t, p) => DropKeepsFaithful(s, t, p);
    case Give(t, ok) => GiveKeepsFaithful(s, t, ok);
    case _ => CountKeepsFaithful(s, e);
  }

  /** Bytes counted that the driver has not handed out yet, or never will. */
  function Ahead(ph: Phase): nat {
    if ph.Reserved? || ph.Refused? then ph.size else 0
  }

  /** Bytes given back that the driver still has out. */
  function Behind(ph: Phase): nat {
    if ph.Uncounted? then ph.size else 0
  }

  ghost function Of(threads: map<nat, Phase>, f: Phase -> int): map<nat, int> {
    map t | t in threads :: f(threads[t])
  }

  function AheadOf(): Phase -> int { (ph: Phase) => Ahead(ph) }
  function BehindOf(): Phase -> int { (ph: Phase) => Behind(ph) }

  ghost function Sizes(live: map<nat, nat>): map<nat, int> {
    map p | p in live :: live[p]
  }

  ghost function LiveBytes(live: map<nat, nat>): int {
    Sum(Sizes(live))
  }

  /** What the driver has out is what is counted, but for allocations and frees on their way. */
  ghost predicate Level(s: State) {
    LiveBytes(s.live) + Sum(Of(s.threads, AheadOf())) == s.used + Sum(Of(s.threads, BehindOf()))
  }

  lemma OfMoves(s: State, t: nat, ph: Phase, f: Phase -> int)
    requires f(Idle) == 0
    ensures Sum(Of(s.threads[t := ph], f)) == Sum(Of(s.threads, f)) - f(PhaseOf(s, t)) + f(ph)
  {
    SumUpdate(Of(s.threads, f), t, f(ph));
    assert Of(s.threads[t := ph], f) == Of(s.threads, f)[t := f(ph)];
    if t in s.threads {
      SumRemove(Of(s.threads, f), t);
    } else {
      assert Of(s.threads, f) - {t} == Of(s.threads, f);
    }
  }

  lemma LiveAdds(live: map<nat, nat>, p: nat, n: nat)
    requires p !in live
    ensures LiveBytes(live[p := n]) == LiveBytes(live) + n
  {
    assert Sizes(live[p := n]) == Sizes(live)[p := n];
    SumUpdate(Sizes(live), p, n);
    assert Sizes(live) - {p} == Sizes(live);
  }

  lemma LiveDrops(live: map<nat, nat>, p: nat)
    requires p in live
    ensures LiveBytes(live - {p}) == LiveBytes(live) - live[p]
  {
    SumRemove(Sizes(live), p);
    assert Sizes(live - {p}) == Sizes(live) - {p};
  }

  /** How far a step moves each side. */
  lemma PhasesMove(s: State, e: Event)
    requires Enabled(s, e)
    ensures var (was, now) := (PhaseOf(s, e.t), PhaseOf(Next(s, e), e.t));
            && Sum(Of(Next(s, e).threads, AheadOf())) == Sum(Of(s.threads, AheadOf())) - Ahead(was) + Ahead(now)
            && Sum(Of(Next(s, e).threads, BehindOf())) == Sum(Of(s.threads, BehindOf())) - Behind(was) + Behind(now)
  {
    var now := PhaseOf(Next(s, e), e.t);
    OfMoves(s, e.t, now, AheadOf());
    OfMoves(s, e.t, now, BehindOf());
  }

  /** By how much a step changes the bytes the driver has out, and the bytes counted. */
  function LiveChange(s: State, e: Event): int
    requires Enabled(s, e)
  {
    match e
    case Driver(t, got) => if got.Some? then PhaseOf(s, t).size else 0
    case Give(t, _) => 0 - PhaseOf(s, t).size
    case _ => 0
  }

  function UsedChange(s: State, e: Event): int
    requires Enabled(s, e)
  {
    match e
    case Cap(_, size) => if Reserve(s.limit, s.used, size).1 then size else 0
    case Undo(t) => 0 - PhaseOf(s, t).size
    case Uncap(t) => 0 - PhaseOf(s, t).size
    case _ => 0
  }

  /** The driver gets back a pointer it has out. */
  ghost predicate GivesBack(s: State, e: Event) {
    Enabled(s, e) &&
    (e.Give? ==> e.ok && PhaseOf(s, e.t).p in s.live && s.live[PhaseOf(s, e.t).p] == PhaseOf(s, e.t).size)
  }

  lemma HonestGivesBack(s: State, e: Event)
    requires Faithful(s) && Honest(s, e)
    ensures GivesBack(s, e)
  {
    if e.Give? {
      assert Carries(PhaseAt(s.threads, e.t), PhaseOf(s, e.t).p);
    }
  }

  lemma LiveMoves(s: State, e: Event)
    requires GivesBack(s, e)
    ensures LiveBytes(Next(s, e).live) == LiveBytes(s.live) + LiveChange(s, e)
  {
    match e
    case Driver(t, got) => if got.Some? { LiveAdds(s.live, got.value, PhaseOf(s, t).size); }
    case Give(t, _) => LiveDrops(s.live, PhaseOf(s, t).p);
    case _ =>
  }

  lemma UsedMoves(s: State, e: Event)
    requires Books(s) && Enabled(s, e)
    ensures Next(s, e).used == s.used + UsedChange(s, e)
  {
    NoClamp(s, e.t);
  }

  lemma ChangesAgree(s: State, e: Event)
    requires Enabled(s, e)
    ensures var (was, now) := (PhaseOf(s, e.t), PhaseOf(Next(s, e), e.t));
            LiveChange(s, e) + Ahead(now) - Ahead(was) == UsedChange(s, e) + Behind(now) - Behind(was)
  {
  }

  lemma StepKeepsLevel(s: State, e: Event)
    requires Books(s) && Faithful(s) && Honest(s, e) && Level(s)
    ensures Level(Next(s, e))
  {
    PhasesMove(s, e);
    HonestGivesBack(s, e);
    LiveMoves(s, e);
    UsedMoves(s, e);
    ChangesAgree(s, e);
  }

  ghost predicate HonestRun(states: seq<State>, events: seq<Event>) {
    && IsRun(states, events)
    && forall i :: 0 <= i < |events| ==> Honest(states[i], events[i])
  }

  lemma StartFaithful(limit: nat)
    ensures Faithful(Start(limit)) && Level(Start(limit))
  {
    StartBooks(limit);
    assert Of(Start(limit).threads, AheadOf()) == map[] && Of(Start(limit).threads, BehindOf()) == map[];
    assert Sizes(Start(limit).live) == map[];
  }

  lemma {:induction false} HonestKeeps(limit: nat, states: seq<State>, events: seq<Event>)
    requires HonestRun(states, events) && states[0] == Start(limit)
    ensures Faithful(states[|events|]) && Level(states[|events|])
    decreases |events|
  {
    if events == [] {
      StartFaithful(limit);
    } else {
      var n := |events| - 1;
      assert forall i :: 0 <= i < n ==> events[..n][i] == events[i] && states[..n + 1][i] == states[i];
      HonestKeeps(limit, states[..n + 1], events[..n]);
      BooksBalance(limit, states[..n + 1], events[..n]);
      StepKeepsFaithful(states[n], events[n]);
      StepKeepsLevel(states[n], events[n]);
    }
  }

  /** The cap: what the driver has out never exceeds the limit by more than the frees on their way to it, and
      every live pointer's size is on record where its free will find it. */
  lemma CapHolds(limit: nat, states: seq<State>, events: seq<Event>)
    requires HonestRun(states, events) && states[0] == Start(limit) && limit != 0
    ensures var s := states[|events|];
            && LiveBytes(s.live) <= limit + Sum(Of(s.threads, BehindOf()))
            && forall p :: p in s.live && !Held(s.threads, p) ==> Forget(s.table, p).1 == s.live[p]
  {
    var s := states[|events|];
    HonestKeeps(limit, states, events);
    BooksBalance(limit, states, events);
    var none: map<nat, int> := map[];
    SumMonotone(none, Of(s.threads, AheadOf()));
    forall p | p in s.live && !Held(s.threads, p) ensures Forget(s.table, p).1 == s.live[p] {
      ForgetRemoves(s.table, p);
    }
  }
}
