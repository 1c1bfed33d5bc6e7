/** The memory shim's pointer table: open addressing with tombstones (shim/gmux_shim.c:124-146). Pointers and
    sizes are the numbers behind them. */
module ShimTable {
  import opened Share
  import opened Lists

  const MAP: nat := 65536
  const NULL: nat := 0
  const TOMB: nat := 1

  datatype Entry = Entry(p: nat, n: nat)

  type Table = t: seq<Entry> | |t| == MAP witness seq(MAP, i => Entry(NULL, 0))

  /** Where the search for a pointer starts. */
  function Home(p: nat): nat {
    p / 256 % MAP
  }

  /** The `k`-th place a search that starts at `h` looks at. */
  function At(h: nat, k: nat): nat {
    (h + k) % MAP
  }

  /** How far place `i` is from `h`. */
  function Dist(h: nat, i: nat): nat {
    (i - h) % MAP
  }

  lemma AtDist(h: nat, i: nat)
    requires i < MAP
    ensures Dist(h, i) < MAP && At(h, Dist(h, i)) == i
  {
    assert h + (i - h) % MAP == i - MAP * ((i - h) / MAP);
  }

  lemma DistAt(h: nat, k: nat)
    requires k < MAP
    ensures At(h, k) < MAP && Dist(h, At(h, k)) == k
  {
    assert (h + k) % MAP - h == k - MAP * ((h + k) / MAP);
  }

  lemma AtNext(h: nat, k: nat)
    ensures (At(h, k) + 1) % MAP == At(h, k + 1)
  {
  }

  predicate Real(p: nat) {
    p != NULL && p != TOMB
  }

  predicate Vacant(e: Entry) {
    !Real(e.p)
  }

  /** The first vacant place from the `k`-th on. */
  function FirstVacant(t: Table, h: nat, k: nat): (r: Option<nat>)
    ensures r.Some? ==> k <= r.value < MAP && Vacant(t[At(h, r.value)])
    ensures forall j :: k <= j < (if r.Some? then r.value else MAP) ==> !Vacant(t[At(h, j)])
    decreases MAP - k
  {
    if MAP <= k then None
    else if Vacant(t[At(h, k)]) then Some(k)
    else FirstVacant(t, h, k + 1)
  }

  /** Records a pointer; a full table stays as it is. */
  function Remember(t: Table, p: nat, n: nat): Table {
    match FirstVacant(t, Home(p), 0)
    case Some(k) => t[At(Home(p), k) := Entry(p, n)]
    case None => t
  }

  /** The first place that holds `p`, from the `k`-th on and before the first empty place. */
  function Find(t: Table, p: nat, k: nat): (r: Option<nat>)
    ensures r.Some? ==> k <= r.value < MAP && t[At(Home(p), r.value)].p == p != NULL
    ensures r.Some? ==> forall j :: k <= j < r.value ==> t[At(Home(p), j)].p != p
    decreases MAP - k
  {
    if MAP <= k || t[At(Home(p), k)].p == NULL then None
    else if t[At(Home(p), k)].p == p then Some(k)
    else Find(t, p, k + 1)
  }

  /** The search at its `k`-th place: it ends there, or goes on. */
  lemma FindAt(t: Table, p: nat, k: nat)
    requires k < MAP
    ensures t[At(Home(p), k)].p == NULL ==> Find(t, p, k) == None
    ensures t[At(Home(p), k)].p == p != NULL ==> Find(t, p, k) == Some(k)
    ensures t[At(Home(p), k)].p != p && t[At(Home(p), k)].p != NULL ==> Find(t, p, k) == Find(t, p, k + 1)
  {
  }

  lemma VacantAt(t: Table, h: nat, k: nat)
    requires k < MAP
    ensures Vacant(t[At(h, k)]) ==> FirstVacant(t, h, k) == Some(k)
    ensures !Vacant(t[At(h, k)]) ==> FirstVacant(t, h, k) == FirstVacant(t, h, k + 1)
  {
  }

  /** Takes a pointer out and gives the size recorded with it, or 0. */
  function Forget(t: Table, p: nat): (Table, nat) {
    match Find(t, p, 0)
    case Some(k) => (t[At(Home(p), k) := Entry(TOMB, 0)], t[At(Home(p), k)].n)
    case None => (t, 0)
  }

  // ---- what the table means ----

  /** Every recorded pointer can be reached from its home across places that are not empty. */
  ghost predicate Reachable(t: Table) {
    forall i, k :: 0 <= i < MAP && Real(t[i].p) && 0 <= k < Dist(Home(t[i].p), i) ==> t[At(Home(t[i].p), k)].p != NULL
  }

  /** No pointer is recorded twice. */
  ghost predicate Unique(t: Table) {
    forall i, j :: 0 <= i < j < MAP && Real(t[i].p) ==> t[i].p != t[j].p
  }

  /** Tombstones weigh nothing. */
  ghost predicate TombsEmpty(t: Table) {
    forall i :: 0 <= i < MAP && t[i].p == TOMB ==> t[i].n == 0
  }

  ghost predicate Sound(t: Table) {
    Reachable(t) && Unique(t) && TombsEmpty(t)
  }

  ghost predicate Recorded(t: Table, p: nat) {
    exists i :: 0 <= i < MAP && t[i].p == p && Real(p)
  }

  /** The sizes by pointer. */
  ghost function Contents(t: Table): (m: map<nat, nat>)
    requires Unique(t)
    ensures forall p :: p in m <==> Recorded(t, p)
    ensures forall i :: 0 <= i < MAP && Real(t[i].p) ==> t[i].p in m && m[t[i].p] == t[i].n
  {
    map i | 0 <= i < MAP && Real(t[i].p) :: t[i].p := t[i].n
  }

  lemma EmptySound(t: Table)
    requires forall i :: 0 <= i < MAP ==> t[i] == Entry(NULL, 0)
    ensures Sound(t) && Contents(t) == map[]
  {
  }

  /** A recorded pointer is found where it is. */
  lemma FindRecorded(t: Table, p: nat, i: nat)
    requires Reachable(t) && Unique(t) && i < MAP && Real(p) && t[i].p == p
    ensures Find(t, p, 0) == Some(Dist(Home(p), i)) && At(Home(p), Dist(Home(p), i)) == i
  {
    AtDist(Home(p), i);
    FindFrom(t, p, i, 0);
  }

  lemma {:induction false} FindFrom(t: Table, p: nat, i: nat, k: nat)
    requires Reachable(t) && Unique(t) && i < MAP && Real(p) && t[i].p == p && k <= Dist(Home(p), i)
    ensures Find(t, p, k) == Some(Dist(Home(p), i))
    decreases MAP - k
  {
    AtDist(Home(p), i);
    if k < Dist(Home(p), i) {
      DistAt(Home(p), k);
      assert t[At(Home(p), k)].p != p;
      FindFrom(t, p, i, k + 1);
    }
  }

  /** Writing a pointer or a tombstone over a place breaks no chain, if the pointer itself can be reached. */
  lemma SetReachable(t: Table, i: nat, e: Entry)
    requires Reachable(t) && i < MAP && e.p != NULL
    requires Real(e.p) ==> forall k :: 0 <= k < Dist(Home(e.p), i) ==> t[At(Home(e.p), k)].p != NULL
    ensures Reachable(t[i := e])
  {
    var after: Table := t[i := e];
    forall j, k | 0 <= j < MAP && Real(after[j].p) && 0 <= k < Dist(Home(after[j].p), j)
      ensures after[At(Home(after[j].p), k)].p != NULL
    {
      assert At(Home(after[j].p), k) != i ==> t[At(Home(after[j].p), k)].p != NULL;
    }
  }

  lemma SetRecorded(t: Table, i: nat, e: Entry, q: nat)
    requires Unique(t) && i < MAP
    ensures Recorded(t[i := e], q) <==> (Recorded(t, q) && q != t[i].p) || (q == e.p && Real(q))
  {
    var after: Table := t[i := e];
    if j :| 0 <= j < MAP && t[j].p == q && Real(q) && q != t[i].p {
      assert after[j].p == q;
    }
    if q == e.p && Real(q) {
      assert after[i].p == q;
    }
    if j :| 0 <= j < MAP && after[j].p == q && Real(q) && j != i {
      assert t[j].p == q;
    }
  }

  /** What the contents become when a place is written. */
  ghost function Written(m: map<nat, nat>, was: nat, e: Entry): map<nat, nat> {
    if Real(e.p) then (m - {was})[e.p := e.n] else m - {was}
  }

  lemma SetContents(t: Table, i: nat, e: Entry)
    requires Unique(t) && i < MAP && Unique(t[i := e])
    ensures Contents(t[i := e]) == Written(Contents(t), t[i].p, e)
  {
    var m, w := Contents(t[i := e]), Written(Contents(t), t[i].p, e);
    forall q ensures Lookup(m, q) == Lookup(w, q) {
      SetValue(t, i, e, q);
    }
    SameLookups(m, w);
  }

  ghost function Lookup(m: map<nat, nat>, q: nat): Option<nat> {
    if q in m then Some(m[q]) else None
  }

  lemma SameLookups(m: map<nat, nat>, w: map<nat, nat>)
    requires forall q :: Lookup(m, q) == Lookup(w, q)
    ensures m == w
  {
    forall q ensures q in m <==> q in w ensures q in m && q in w ==> m[q] == w[q] {
      assert Lookup(m, q) == Lookup(w, q);
    }
  }

  lemma SetValue(t: Table, i: nat, e: Entry, q: nat)
    requires Unique(t) && i < MAP && Unique(t[i := e])
    ensures Lookup(Contents(t[i := e]), q) == Lookup(Written(Contents(t), t[i].p, e), q)
  {
    SetRecorded(t, i, e, q);
    if Recorded(t[i := e], q) {
      if q == e.p {
        ValueAt(t[i := e], i);
      } else {
        OldValue(t, i, e, q);
      }
    }
  }

  lemma ValueAt(t: Table, i: nat)
    requires Unique(t) && i < MAP && Real(t[i].p)
    ensures t[i].p in Contents(t) && Contents(t)[t[i].p] == t[i].n
  {
  }

  lemma OldValue(t: Table, i: nat, e: Entry, q: nat)
    requires Unique(t) && i < MAP && Unique(t[i := e]) && Recorded(t[i := e], q) && q != e.p
    ensures q in Contents(t) && q in Contents(t[i := e]) && Contents(t[i := e])[q] == Contents(t)[q]
  {
    var after: Table := t[i := e];
    var j :| 0 <= j < MAP && after[j].p == q && Real(q);
    assert t[j] == after[j];
    ValueAt(t, j);
    ValueAt(after, j);
  }

  /** Recording a new pointer with a place free adds just that pointer. */
  lemma RememberAdds(t: Table, p: nat, n: nat)
    requires Sound(t) && Real(p) && p !in Contents(t) && FirstVacant(t, Home(p), 0).Some?
    ensures Sound(Remember(t, p, n)) && Contents(Remember(t, p, n)) == Contents(t)[p := n]
  {
    var k := FirstVacant(t, Home(p), 0).value;
    var at := At(Home(p), k);
    DistAt(Home(p), k);
    SetReachable(t, at, Entry(p, n));
    assert forall j :: 0 <= j < MAP ==> t[j].p != p;
    SetContents(t, at, Entry(p, n));
    assert Contents(t) - {t[at].p} == Contents(t);
  }

  /** Forgetting gives the size recorded, or 0, and removes that pointer alone; empty and removed places
      answer like unknown pointers. */
  lemma ForgetRemoves(t: Table, p: nat)
    requires Sound(t)
    ensures var (after, n) := Forget(t, p);
            && Sound(after) && Contents(after) == Contents(t) - {p}
            && n == if p in Contents(t) then Contents(t)[p] else 0
  {
    if p in Contents(t) {
      var i :| 0 <= i < MAP && t[i].p == p && Real(p);
      ForgetKnown(t, p, i);
    } else {
      ForgetUnknown(t, p);
      assert Contents(t) - {p} == Contents(t);
    }
  }

  lemma ForgetUnknown(t: Table, p: nat)
    requires TombsEmpty(t) && forall i :: 0 <= i < MAP && Real(p) ==> t[i].p != p
    ensures Forget(t, p) == (t, 0)
  {
    if Find(t, p, 0).Some? {
      var at := At(Home(p), Find(t, p, 0).value);
      assert t[at] == Entry(TOMB, 0);
      assert t[at := Entry(TOMB, 0)] == t;
    }
  }

  lemma ForgetKnown(t: Table, p: nat, i: nat)
    requires Sound(t) && i < MAP && Real(p) && t[i].p == p
    ensures var (after, n) := Forget(t, p);
            && Sound(after) && Contents(after) == Contents(t) - {p} && n == t[i].n
  {
    FindRecorded(t, p, i);
    SetReachable(t, i, Entry(TOMB, 0));
    SetContents(t, i, Entry(TOMB, 0));
  }

  // ---- room ----

  ghost function Pointers(t: Table, k: nat): set<nat>
    requires k <= MAP
  {
    set i | 0 <= i < k :: t[i].p
  }

  lemma {:induction false} PointersCount(t: Table, k: nat)
    requires k <= MAP && Unique(t) && forall i :: 0 <= i < k ==> Real(t[i].p)
    ensures |Pointers(t, k)| == k
  {
    if k > 0 {
      PointersCount(t, k - 1);
      assert Pointers(t, k) == Pointers(t, k - 1) + {t[k - 1].p};
    } else {
      assert Pointers(t, 0) == {};
    }
  }

  /** With fewer pointers than places, every search for a free place ends well. */
  lemma RoomToRemember(t: Table, h: nat)
    requires Unique(t) && |Contents(t)| < 65536
    ensures FirstVacant(t, h, 0).Some?
  {
    assert |Contents(t).Keys| == |Contents(t)|;
    if FirstVacant(t, h, 0).None? {
      forall i | 0 <= i < MAP ensures Real(t[i].p) {
        AtDist(h, i);
        assert !Vacant(t[At(h, Dist(h, i))]);
      }
      PointersCount(t, MAP);
      forall p | p in Pointers(t, MAP) ensures p in Contents(t) {
        var i :| 0 <= i < MAP && t[i].p == p;
        assert Recorded(t, p);
      }
      SubsetCount(Pointers(t, MAP), Contents(t).Keys);
    }
  }

  // ---- any sequence of calls ----

  datatype Op = Remembering(p: nat, n: nat) | Forgetting(p: nat)

  /** The table and the answers after some calls. */
  function Run(t: Table, ops: seq<Op>): (Table, seq<nat>) {
    if ops == [] then (t, [])
    else
      var (u, out) := Run(t, ops[..|ops| - 1]);
      match ops[|ops| - 1]
      case Remembering(p, n) => (Remember(u, p, n), out)
      case Forgetting(p) => var (v, n) := Forget(u, p); (v, out + [n])
  }

  /** The same calls on a plain map. */
  function RunMap(m: map<nat, nat>, ops: seq<Op>): (map<nat, nat>, seq<nat>) {
    if ops == [] then (m, [])
    else
      var (u, out) := RunMap(m, ops[..|ops| - 1]);
      match ops[|ops| - 1]
      case Remembering(p, n) => (u[p := n], out)
      case Forgetting(p) => (u - {p}, out + [if p in u then u[p] else 0])
  }

  /** Pointers recorded are real and not yet there, and there is room. */
  predicate Proper(m: map<nat, nat>, ops: seq<Op>) {
    ops == [] ||
    (&& Proper(m, ops[..|ops| - 1])
     && var last := ops[|ops| - 1];
        last.Remembering? ==>
          var u := RunMap(m, ops[..|ops| - 1]).0;
          Real(last.p) && last.p !in u && |u| < MAP)
  }

  /** The table is a map, whatever the sequence of calls. */
  lemma {:induction false} TableIsMap(t: Table, ops: seq<Op>)
    requires Sound(t) && Proper(Contents(t), ops)
    ensures var (u, out) := Run(t, ops);
            Sound(u) && (Contents(u), out) == RunMap(Contents(t), ops)
  {
    if ops != [] {
      var init, last := ops[..|ops| - 1], ops[|ops| - 1];
      TableIsMap(t, init);
      var u := Run(t, init).0;
      match last
      case Remembering(p, n) =>
        RoomToRemember(u, Home(p));
        RememberAdds(u, p, n);
      case Forgetting(p) =>
        ForgetRemoves(u, p);
    }
  }

  // ---- why pointers must not be null ----

  /** The search for the pointer at place `i` crosses place `at`. */
  predicate Crosses(t: Table, i: nat, at: nat)
    requires i < MAP
  {
    Real(t[i].p) && Dist(Home(t[i].p), at) < Dist(Home(t[i].p), i)
  }

  /** Recording the null pointer keeps the table sound exactly when no recorded pointer is searched across the
      place it is written to. */
  lemma RememberNull(t: Table, n: nat)
    requires Sound(t) && FirstVacant(t, Home(NULL), 0).Some?
    ensures var at := At(Home(NULL), FirstVacant(t, Home(NULL), 0).value);
            Sound(Remember(t, NULL, n)) <==> forall i: nat :: i < MAP ==> !Crosses(t, i, at)
  {
    var at := At(Home(NULL), FirstVacant(t, Home(NULL), 0).value);
    var after := Remember(t, NULL, n);
    assert forall i :: 0 <= i < MAP && Real(after[i].p) ==> i != at && after[i] == t[i];
    if i: nat :| i < MAP && Crosses(t, i, at) {
      AtDist(Home(t[i].p), at);
      var k := Dist(Home(t[i].p), at);
      assert i != at && after[i] == t[i];
      assert after[At(Home(after[i].p), k)].p == NULL && k < Dist(Home(after[i].p), i);
    }
    if forall i: nat :: i < MAP ==> !Crosses(t, i, at) {
      forall i, k | 0 <= i < MAP && Real(after[i].p) && 0 <= k < Dist(Home(after[i].p), i)
        ensures after[At(Home(after[i].p), k)].p != NULL
      {
        DistAt(Home(t[i].p), k);
        assert !Crosses(t, i, at);
        assert t[At(Home(t[i].p), k)].p != NULL;
      }
    }
  }

  function Empty(): (t: Table)
    ensures forall i :: 0 <= i < MAP ==> t[i] == Entry(NULL, 0)
  {
    seq(MAP, i => Entry(NULL, 0))
  }

  /** Two pointers recorded and the first freed. */
  function Calls(): seq<Op> {
    [Remembering(3, 1), Remembering(2, 5), Forgetting(3)]
  }

  lemma RunLast(t: Table, ops: seq<Op>, op: Op)
    ensures Run(t, ops + [op]).0 ==
              (if op.Remembering? then Remember(Run(t, ops).0, op.p, op.n) else Forget(Run(t, ops).0, op.p).0)
  {
    assert (ops + [op])[..|ops|] == ops;
  }

  lemma CallsRun()
    ensures Run(Empty(), Calls()).0 == Forget(Remember(Remember(Empty(), 3, 1), 2, 5), 3).0
  {
    var none: seq<Op> := [];
    RunLast(Empty(), none, Remembering(3, 1));
    RunLast(Empty(), none + [Remembering(3, 1)], Remembering(2, 5));
    RunLast(Empty(), none + [Remembering(3, 1)] + [Remembering(2, 5)], Forgetting(3));
    assert Calls() == none + [Remembering(3, 1)] + [Remembering(2, 5)] + [Forgetting(3)];
  }

  lemma FirstPlaces()
    ensures Home(2) == 0 && Home(3) == 0 && Home(NULL) == 0 && At(0, 0) == 0 && At(0, 1) == 1
  {
  }

  lemma TakesFirst(t: Table, p: nat, n: nat)
    requires Home(p) == 0 && Vacant(t[0]) && At(0, 0) == 0
    ensures FirstVacant(t, 0, 0).Some? && Remember(t, p, n) == t[0 := Entry(p, n)]
  {
  }

  lemma TakesSecond(t: Table, p: nat, n: nat)
    requires Home(p) == 0 && !Vacant(t[0]) && Vacant(t[1]) && At(0, 0) == 0 && At(0, 1) == 1
    ensures FirstVacant(t, 0, 0).Some? && Remember(t, p, n) == t[1 := Entry(p, n)]
  {
    assert FirstVacant(t, 0, 0) == FirstVacant(t, 0, 1) == Some(1);
  }

  lemma ForgetsFirst(t: Table, p: nat)
    requires Home(p) == 0 && t[0].p == p != NULL && At(0, 0) == 0
    ensures Forget(t, p).0 == t[0 := Entry(TOMB, 0)]
  {
  }

  /** Where those calls put the two pointers. */
  lemma CallsLeave()
    ensures Run(Empty(), Calls()).0[0] == Entry(TOMB, 0)
  {
    CallsRun();
    FirstPlaces();
    TakesFirst(Empty(), 3, 1);
    TakesSecond(Remember(Empty(), 3, 1), 2, 5);
    ForgetsFirst(Remember(Remember(Empty(), 3, 1), 2, 5), 3);
  }

  /** Recording a pointer with fewer recorded than there are places. */
  lemma Adds(t: Table, m: map<nat, nat>, p: nat, n: nat)
    requires Sound(t) && Contents(t) == m && Real(p) && p !in m && |m| < MAP
    ensures Sound(Remember(t, p, n)) && Contents(Remember(t, p, n)) == m[p := n]
  {
    RoomToRemember(t, Home(p));
    RememberAdds(t, p, n);
  }

  ghost predicate Holding(t: Table, m: map<nat, nat>) {
    Sound(t) && Contents(t) == m
  }

  lemma FirstCall()
    ensures Holding(Remember(Empty(), 3, 1), map[3 := 1])
  {
    EmptySound(Empty());
    Adds(Empty(), map[], 3, 1);
  }

  lemma SecondCall()
    ensures Holding(Remember(Remember(Empty(), 3, 1), 2, 5), map[3 := 1, 2 := 5])
  {
    FirstCall();
    assert |map[3 := 1]| == 1;
    Adds(Remember(Empty(), 3, 1), map[3 := 1], 2, 5);
  }

  lemma Forgets(t: Table, m: map<nat, nat>, p: nat, u: Table, rest: map<nat, nat>)
    requires Holding(t, m) && u == Forget(t, p).0 && rest == m - {p}
    ensures Holding(u, rest)
  {
    ForgetRemoves(t, p);
  }

  lemma ThirdCall(t: Table, u: Table)
    requires Holding(t, map[3 := 1, 2 := 5]) && u == Forget(t, 3).0
    ensures Holding(u, map[2 := 5])
  {
    LastLeft();
    Forgets(t, map[3 := 1, 2 := 5], 3, u, map[2 := 5]);
  }

  lemma LastLeft()
    ensures map[3 := 1, 2 := 5] - {3} == map[2 := 5]
  {
  }

  lemma CallsSound()
    ensures Holding(Run(Empty(), Calls()).0, map[2 := 5])
  {
    CallsRun();
    SecondCall();
    ThirdCall(Remember(Remember(Empty(), 3, 1), 2, 5), Run(Empty(), Calls()).0);
  }

  /** A recorded pointer lost: after those calls the second is recorded, and once the null pointer has come back
      from the driver its size can no longer be found. */
  lemma NullLosesPointer()
    ensures var t := Run(Empty(), Calls()).0;
            && Sound(t) && Contents(t) == map[2 := 5]
            && Forget(t, 2).1 == 5 && Forget(Remember(t, NULL, 0), 2).1 == 0
  {
    CallsSound();
    CallsLeave();
    NullHides(Run(Empty(), Calls()).0);
    ForgetRemoves(Run(Empty(), Calls()).0, 2);
  }

  lemma NullHides(t: Table)
    requires t[0] == Entry(TOMB, 0)
    ensures Forget(Remember(t, NULL, 0), 2).1 == 0
  {
    assert At(0, 0) == 0 && FirstVacant(t, 0, 0) == Some(0);
    assert Remember(t, NULL, 0)[0].p == NULL;
  }

  // ---- bytes ----

  /** Bytes recorded in the first `k` places. */
  function Bytes(t: Table, k: nat): nat
    requires k <= MAP
  {
    if k == 0 then 0 else Bytes(t, k - 1) + if Real(t[k - 1].p) then t[k - 1].n else 0
  }

  lemma {:induction false} BytesWrite(t: Table, i: nat, e: Entry, k: nat)
    requires i < MAP && k <= MAP
    ensures Bytes(t[i := e], k) == Bytes(t, k) +
            if i < k then (if Real(e.p) then e.n else 0) - (if Real(t[i].p) then t[i].n else 0) else 0
  {
    if k > 0 {
      BytesWrite(t, i, e, k - 1);
    }
  }

  /** What recording a pointer adds to the table: its size, if there was room. */
  lemma RememberBytes(t: Table, p: nat, n: nat)
    requires Real(p)
    ensures Bytes(Remember(t, p, n), MAP) == Bytes(t, MAP) + if FirstVacant(t, Home(p), 0).Some? then n else 0
  {
    if FirstVacant(t, Home(p), 0).Some? {
      DistAt(Home(p), FirstVacant(t, Home(p), 0).value);
      BytesWrite(t, At(Home(p), FirstVacant(t, Home(p), 0).value), Entry(p, n), MAP);
    }
  }

  /** What forgetting takes out of the table is what it answers. */
  lemma ForgetBytes(t: Table, p: nat)
    requires TombsEmpty(t)
    ensures TombsEmpty(Forget(t, p).0) && Bytes(t, MAP) == Bytes(Forget(t, p).0, MAP) + Forget(t, p).1
  {
    if Find(t, p, 0).Some? {
      DistAt(Home(p), Find(t, p, 0).value);
      BytesWrite(t, At(Home(p), Find(t, p, 0).value), Entry(TOMB, 0), MAP);
    }
  }
}
