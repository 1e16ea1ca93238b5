/** Interleaved use of the pool: where every connected client is, and what a reference count is worth. */
module PoolRuns {
  import opened Wrappers
  import opened MapSum
  import opened Pool

  /** Where a goroutine stands in its use of the pool. A flight is one execution of the coalesced creation
      function; its leader runs it and others may join it. */
  datatype Pc =
    | Missed(conn: string)
    | Looking(conn: string, flight: nat)
    | Dialing(conn: string, flight: nat)
    | Dialed(conn: string, flight: nat, own: Client)
    | Dropping(conn: string, flight: nat, own: Client, got: Client)
    | Returning(conn: string, flight: nat, result: Option<Client>)
    | Joined(conn: string, flight: nat)
    | Holding(conn: string, client: Client)

  /** Where a connected client is. */
  datatype Place = Pooled(conn: string) | InHand(tid: nat) | Doomed | Closed

  /** doomed holds the clients evictors have taken out and not yet disconnected; closes counts the Disconnect
      calls per client; home records each client's place. */
  datatype System = System(table: Table, flights: map<string, nat>, results: map<nat, Option<Client>>,
                           pcs: map<nat, Pc>, doomed: set<Client>, closes: map<Client, nat>,
                           home: map<Client, Place>, nextFlight: nat, nextClient: nat)

  const INITIAL := System(map[], map[], map[], map[], {}, map[], map[], 0, 0)

  datatype Step =
    | Begin(tid: nat, conn: string, now: Time)
    | Lead(tid: nat)
    | Join(tid: nat)
    | Look(tid: nat, now: Time)
    | Dial(tid: nat, ok: bool)
    | Keep(tid: nat, now: Time)
    | Drop(tid: nat)
    | Finish(tid: nat)
    | Wake(tid: nat)
    | Release(tid: nat, now: Time)
    | Evict(idle: Time, now: Time)
    | Disconnect(client: Client)

  predicate Enabled(y: System, st: Step) {
    match st
    case Begin(tid, conn, _) => tid !in y.pcs && conn != ""
    case Lead(tid) => tid in y.pcs && y.pcs[tid].Missed? && y.pcs[tid].conn !in y.flights
    case Join(tid) => tid in y.pcs && y.pcs[tid].Missed? && y.pcs[tid].conn in y.flights
    case Look(tid, _) => tid in y.pcs && y.pcs[tid].Looking?
    case Dial(tid, _) => tid in y.pcs && y.pcs[tid].Dialing?
    case Keep(tid, _) => tid in y.pcs && y.pcs[tid].Dialed?
    case Drop(tid) => tid in y.pcs && y.pcs[tid].Dropping?
    case Finish(tid) => tid in y.pcs && y.pcs[tid].Returning?
    case Wake(tid) => tid in y.pcs && y.pcs[tid].Joined? && y.pcs[tid].flight in y.results
    case Release(tid, _) => tid in y.pcs && y.pcs[tid].Holding?
    case Evict(_, _) => true
    case Disconnect(client) => client in y.doomed
  }

  /** Get returns: the caller holds the client, or got an error. */
  function Return(pcs: map<nat, Pc>, tid: nat, conn: string, r: Option<Client>): map<nat, Pc> {
    if r.Some? then pcs[tid := Holding(conn, r.value)] else pcs - {tid}
  }

  function ClientsOf(t: Table, conns: set<string>): set<Client> {
    set conn | conn in conns && conn in t :: t[conn].client
  }

  function Closes(closes: map<Client, nat>, c: Client): nat {
    if c in closes then closes[c] else 0
  }

  function Apply(y: System, st: Step): System
    requires Enabled(y, st)
  {
    match st
    case Begin(tid, conn, now) =>
      var (r, t) := Grab(y.table, conn, now);
      y.(table := t, pcs := y.pcs[tid := if r.Some? then Holding(conn, r.value) else Missed(conn)])
    case Lead(tid) =>
      y.(flights := y.flights[y.pcs[tid].conn := y.nextFlight],
         pcs := y.pcs[tid := Looking(y.pcs[tid].conn, y.nextFlight)], nextFlight := y.nextFlight + 1)
    case Join(tid) =>
      y.(pcs := y.pcs[tid := Joined(y.pcs[tid].conn, y.flights[y.pcs[tid].conn])])
    case Look(tid, now) =>
      var p := y.pcs[tid];
      var (r, t) := Grab(y.table, p.conn, now);
      y.(table := t,
         pcs := y.pcs[tid := if r.Some? then Returning(p.conn, p.flight, r) else Dialing(p.conn, p.flight)])
    case Dial(tid, ok) =>
      var p := y.pcs[tid];
      if !ok then y.(pcs := y.pcs[tid := Returning(p.conn, p.flight, None)])
      else
        var c := Client(y.nextClient);
        y.(pcs := y.pcs[tid := Dialed(p.conn, p.flight, c)], home := y.home[c := InHand(tid)],
           nextClient := y.nextClient + 1)
    case Keep(tid, now) =>
      var p := y.pcs[tid];
      var (c, t) := Put(y.table, p.conn, p.own, now);
      if p.conn in y.table then y.(table := t, pcs := y.pcs[tid := Dropping(p.conn, p.flight, p.own, c)])
      else y.(table := t, pcs := y.pcs[tid := Returning(p.conn, p.flight, Some(p.own))],
              home := y.home[p.own := Pooled(p.conn)])
    case Drop(tid) =>
      var p := y.pcs[tid];
      y.(pcs := y.pcs[tid := Returning(p.conn, p.flight, Some(p.got))],
         closes := y.closes[p.own := Closes(y.closes, p.own) + 1], home := y.home[p.own := Closed])
    case Finish(tid) =>
      var p := y.pcs[tid];
      y.(flights := y.flights - {p.conn}, results := y.results[p.flight := p.result],
         pcs := Return(y.pcs, tid, p.conn, p.result))
    case Wake(tid) =>
      var p := y.pcs[tid];
      y.(pcs := Return(y.pcs, tid, p.conn, y.results[p.flight]))
    case Release(tid, now) =>
      y.(table := Released(y.table, y.pcs[tid].conn, now), pcs := y.pcs - {tid})
    case Evict(idle, now) =>
      var gone := Idle(y.table, idle, now);
      y.(table := y.table - gone, doomed := y.doomed + ClientsOf(y.table, gone),
         home := map k | k in y.home :: if y.home[k].Pooled? && y.home[k].conn in gone then Doomed else y.home[k])
    case Disconnect(client) =>
      y.(doomed := y.doomed - {client}, closes := y.closes[client := Closes(y.closes, client) + 1],
         home := y.home[client := Closed])
  }

  ghost predicate Reaches(y: System, steps: seq<Step>, end: System)
    decreases |steps|
  {
    if steps == [] then y == end else Enabled(y, steps[0]) && Reaches(Apply(y, steps[0]), steps[1..], end)
  }

  // ---------------------------------------------------------------- flights

  predicate Leads(p: Pc) {
    p.Looking? || p.Dialing? || p.Dialed? || p.Dropping? || p.Returning?
  }

  predicate Dials(p: Pc) {
    p.Dialing? || p.Dialed?
  }

  /** Leaders fly registered flights; while one dials, its connection is not in the pool; and nobody ever loses
      the race to insert. */
  ghost predicate LeadersOk(pcs: map<nat, Pc>, flights: map<string, nat>, pooled: set<string>) {
    forall i :: i in pcs ==>
      && (Leads(pcs[i]) ==> pcs[i].conn in flights)
      && (Dials(pcs[i]) ==> pcs[i].conn !in pooled)
      && !pcs[i].Dropping?
  }

  /** A connection has at most one leader. */
  ghost predicate LeadersApart(pcs: map<nat, Pc>) {
    forall i, j | i in pcs && j in pcs && Leads(pcs[i]) && Leads(pcs[j]) && pcs[i].conn == pcs[j].conn :: i == j
  }

  ghost predicate FlightsOk(y: System) {
    LeadersOk(y.pcs, y.flights, y.table.Keys) && LeadersApart(y.pcs)
  }

  lemma LeadKeepsFlights(y: System, st: Step)
    requires FlightsOk(y) && Enabled(y, st) && st.Lead?
    ensures FlightsOk(Apply(y, st))
  {
  }

  lemma KeepKeepsFlights(y: System, st: Step)
    requires FlightsOk(y) && Enabled(y, st) && st.Keep?
    ensures FlightsOk(Apply(y, st))
  {
  }

  lemma FinishKeepsFlights(y: System, st: Step)
    requires FlightsOk(y) && Enabled(y, st) && st.Finish?
    ensures FlightsOk(Apply(y, st))
  {
  }

  lemma BeginKeepsFlights(y: System, st: Step)
    requires FlightsOk(y) && Enabled(y, st) && (st.Begin? || st.Look?)
    ensures FlightsOk(Apply(y, st))
  {
    assert Apply(y, st).table.Keys == y.table.Keys;
  }

  lemma ReleaseKeepsFlights(y: System, st: Step)
    requires FlightsOk(y) && Enabled(y, st) && (st.Release? || st.Evict?)
    ensures FlightsOk(Apply(y, st))
  {
    assert Apply(y, st).table.Keys <= y.table.Keys;
  }

  lemma FlightsStayOk(y: System, st: Step)
    requires FlightsOk(y) && Enabled(y, st)
    ensures FlightsOk(Apply(y, st))
  {
    match st
    case Begin(_, _, _) => BeginKeepsFlights(y, st);
    case Lead(_) => LeadKeepsFlights(y, st);
    case Look(_, _) => BeginKeepsFlights(y, st);
    case Keep(_, _) => KeepKeepsFlights(y, st);
    case Finish(_) => FinishKeepsFlights(y, st);
    case Release(_, _) => ReleaseKeepsFlights(y, st);
    case Evict(_, _) => ReleaseKeepsFlights(y, st);
    case _ =>
  }

  // ---------------------------------------------------------------- where clients are

  type Homes = map<Client, Place>

  predicate At(home: Homes, c: Client, p: Place) {
    c in home && home[c] == p
  }

  predicate InPool(t: Table, conn: string, c: Client) {
    conn in t && t[conn].client == c
  }

  predicate HasInHand(pcs: map<nat, Pc>, tid: nat, c: Client) {
    tid in pcs && (pcs[tid].Dialed? || pcs[tid].Dropping?) && pcs[tid].own == c
  }

  ghost predicate PoolHome(t: Table, home: Homes) {
    forall c, conn :: InPool(t, conn, c) <==> At(home, c, Pooled(conn))
  }

  ghost predicate HandHome(pcs: map<nat, Pc>, home: Homes) {
    forall c, tid :: HasInHand(pcs, tid, c) <==> At(home, c, InHand(tid))
  }

  ghost predicate DoomHome(doomed: set<Client>, home: Homes) {
    forall c :: c in doomed <==> At(home, c, Doomed)
  }

  ghost predicate CloseHome(closes: map<Client, nat>, home: Homes) {
    forall c :: Closes(closes, c) == if At(home, c, Closed) then 1 else 0
  }

  ghost predicate HomeOk(y: System) {
    && (forall c :: c in y.home <==> c.number < y.nextClient)
    && PoolHome(y.table, y.home) && HandHome(y.pcs, y.home) && DoomHome(y.doomed, y.home)
    && CloseHome(y.closes, y.home)
  }

  lemma DialKeepsHome(y: System, st: Step)
    requires HomeOk(y) && FlightsOk(y) && Enabled(y, st) && st.Dial?
    ensures HomeOk(Apply(y, st))
  {
    var z, c := Apply(y, st), Client(y.nextClient);
    if st.ok {
      assert forall d, p :: At(z.home, d, p) <==> if d == c then p == InHand(st.tid) else At(y.home, d, p);
      assert forall d, i :: HasInHand(z.pcs, i, d) <==> if i == st.tid then d == c else HasInHand(y.pcs, i, d);
    }
  }

  lemma KeepKeepsHome(y: System, st: Step)
    requires HomeOk(y) && FlightsOk(y) && Enabled(y, st) && st.Keep?
    ensures HomeOk(Apply(y, st))
  {
    var z, p := Apply(y, st), y.pcs[st.tid];
    assert HasInHand(y.pcs, st.tid, p.own);
    assert forall d, q :: At(z.home, d, q) <==> if d == p.own then q == Pooled(p.conn) else At(y.home, d, q);
    assert forall d, conn ::
        InPool(z.table, conn, d) <==> if conn == p.conn then d == p.own else InPool(y.table, conn, d);
    assert forall d, i :: HasInHand(z.pcs, i, d) <==> i != st.tid && HasInHand(y.pcs, i, d);
  }

  lemma EvictKeepsHome(y: System, st: Step)
    requires HomeOk(y) && Enabled(y, st) && st.Evict?
    ensures HomeOk(Apply(y, st))
  {
    var z := Apply(y, st);
    var gone := Idle(y.table, st.idle, st.now);
    forall c ensures c in z.doomed <==> At(z.home, c, Doomed) {
      if c in ClientsOf(y.table, gone) {
        var conn :| conn in gone && conn in y.table && y.table[conn].client == c;
        assert InPool(y.table, conn, c);
      }
      if c in y.home && y.home[c].Pooled? && y.home[c].conn in gone {
        assert InPool(y.table, y.home[c].conn, c);
      }
    }
    forall c, conn ensures InPool(z.table, conn, c) <==> At(z.home, c, Pooled(conn)) {
      assert InPool(z.table, conn, c) <==> InPool(y.table, conn, c) && conn !in gone;
    }
    forall c, tid ensures HasInHand(z.pcs, tid, c) <==> At(z.home, c, InHand(tid)) {
      assert At(z.home, c, InHand(tid)) <==> At(y.home, c, InHand(tid));
    }
    forall c ensures Closes(z.closes, c) == if At(z.home, c, Closed) then 1 else 0 {
      assert At(z.home, c, Closed) <==> At(y.home, c, Closed);
    }
  }

  lemma DisconnectKeepsHome(y: System, st: Step)
    requires HomeOk(y) && Enabled(y, st) && st.Disconnect?
    ensures HomeOk(Apply(y, st))
  {
    var z := Apply(y, st);
    assert At(y.home, st.client, Doomed);
    assert forall d, q :: At(z.home, d, q) <==> if d == st.client then q == Closed else At(y.home, d, q);
  }

  lemma OtherKeepsHome(y: System, st: Step)
    requires HomeOk(y) && FlightsOk(y) && Enabled(y, st)
    requires st.Begin? || st.Lead? || st.Join? || st.Look? || st.Finish? || st.Wake? || st.Release?
    ensures HomeOk(Apply(y, st))
  {
    var z := Apply(y, st);
    assert forall conn, c :: InPool(z.table, conn, c) <==> InPool(y.table, conn, c);
    assert forall tid, c :: HasInHand(z.pcs, tid, c) <==> HasInHand(y.pcs, tid, c);
  }

  lemma HomeStaysOk(y: System, st: Step)
    requires HomeOk(y) && FlightsOk(y) && Enabled(y, st)
    ensures HomeOk(Apply(y, st))
  {
    match st
    case Dial(_, _) => DialKeepsHome(y, st);
    case Keep(_, _) => KeepKeepsHome(y, st);
    case Drop(_) =>
    case Evict(_, _) => EvictKeepsHome(y, st);
    case Disconnect(_) => DisconnectKeepsHome(y, st);
    case _ => OtherKeepsHome(y, st);
  }

  // ---------------------------------------------------------------- what a reference count is worth

  /** Whether this goroutine is to release conn: its Get has succeeded or is about to. */
  predicate Owns(p: Pc, conn: string) {
    p.conn == conn && (p.Holding? || p.Dropping? || (p.Returning? && p.result.Some?))
  }

  function Owes(conn: string): Pc -> int {
    (p: Pc) => if Owns(p, conn) then 1 else 0
  }

  /** The outstanding Gets for a connection. */
  ghost function Held(pcs: map<nat, Pc>, conn: string): int {
    Total(pcs, Owes(conn))
  }

  function Refs(t: Table, conn: string): nat {
    if conn in t then t[conn].refs else 0
  }

  /** What a step adds to the outstanding Gets for conn. */
  function Change(y: System, st: Step, conn: string): int
    requires Enabled(y, st)
  {
    match st
    case Begin(_, c, _) => if c == conn && c in y.table then 1 else 0
    case Look(tid, _) => if y.pcs[tid].conn == conn && conn in y.table then 1 else 0
    case Keep(tid, _) => if y.pcs[tid].conn == conn then 1 else 0
    case Wake(tid) => if y.pcs[tid].conn == conn && y.results[y.pcs[tid].flight].Some? then 1 else 0
    case Release(tid, _) => if y.pcs[tid].conn == conn then -1 else 0
    case _ => 0
  }

  lemma HeldSet(pcs: map<nat, Pc>, tid: nat, p: Pc, conn: string)
    ensures Held(pcs[tid := p], conn) ==
            Held(pcs, conn) + Owes(conn)(p) - if tid in pcs then Owes(conn)(pcs[tid]) else 0
  {
    TotalWith(pcs, Owes(conn), tid, p);
  }

  lemma HeldDrop(pcs: map<nat, Pc>, tid: nat, conn: string)
    requires tid in pcs
    ensures Held(pcs - {tid}, conn) == Held(pcs, conn) - Owes(conn)(pcs[tid])
  {
    TotalWithout(pcs, Owes(conn), tid);
  }

  lemma FlightChangesHeld(y: System, st: Step, conn: string)
    requires Enabled(y, st) && FlightsOk(y)
    requires st.Lead? || st.Join? || st.Look? || st.Dial? || st.Keep? || st.Drop?
    ensures Held(Apply(y, st).pcs, conn) == Held(y.pcs, conn) + Change(y, st, conn)
  {
    HeldSet(y.pcs, st.tid, Apply(y, st).pcs[st.tid], conn);
  }

  lemma ReturnChangesHeld(y: System, st: Step, conn: string)
    requires Enabled(y, st) && (st.Begin? || st.Finish? || st.Wake? || st.Release?)
    ensures Held(Apply(y, st).pcs, conn) == Held(y.pcs, conn) + Change(y, st, conn)
  {
    var pcs := Apply(y, st).pcs;
    if st.tid in pcs {
      HeldSet(y.pcs, st.tid, pcs[st.tid], conn);
    } else {
      HeldDrop(y.pcs, st.tid, conn);
    }
  }

  lemma HeldChanges(y: System, st: Step, conn: string)
    requires Enabled(y, st) && FlightsOk(y)
    ensures Held(Apply(y, st).pcs, conn) == Held(y.pcs, conn) + Change(y, st, conn)
  {
    if st.Begin? || st.Finish? || st.Wake? || st.Release? {
      ReturnChangesHeld(y, st, conn);
    } else if !st.Evict? && !st.Disconnect? {
      FlightChangesHeld(y, st, conn);
    }
  }

  /** A step changes the count as it changes the outstanding Gets, except that nobody counts the goroutines
      that wake with a shared result. */
  lemma RefsChange(y: System, st: Step, conn: string)
    requires Enabled(y, st) && FlightsOk(y)
    ensures var refs := Refs(Apply(y, st).table, conn);
            if st.Wake? then refs == Refs(y.table, conn)
            else if st.Release? && Refs(y.table, conn) == 0 then refs == 0
            else refs == Refs(y.table, conn) + Change(y, st, conn)
  {
  }

  lemma HolderIsHeld(y: System, tid: nat, conn: string)
    requires tid in y.pcs && Owns(y.pcs[tid], conn)
    ensures Held(y.pcs, conn) >= 1
  {
    TotalAtLeast(y.pcs, Owes(conn), tid);
  }

  ghost predicate RefsCovered(y: System) {
    forall conn :: Refs(y.table, conn) <= Held(y.pcs, conn)
  }

  lemma RefsStayCovered(y: System, st: Step)
    requires RefsCovered(y) && FlightsOk(y) && Enabled(y, st)
    ensures RefsCovered(Apply(y, st))
  {
    forall conn ensures Refs(Apply(y, st).table, conn) <= Held(Apply(y, st).pcs, conn) {
      HeldChanges(y, st, conn);
      RefsChange(y, st, conn);
      if st.Release? && y.pcs[st.tid].conn == conn {
        HolderIsHeld(y, st.tid, conn);
      }
    }
  }

  // ---------------------------------------------------------------- one connection, shared or not

  ghost predicate Exact(y: System, conn: string) {
    Refs(y.table, conn) == Held(y.pcs, conn)
  }

  /** A second caller comes back with the client of a flight that has been counted once. */
  predicate Shares(y: System, st: Step, conn: string)
    requires Enabled(y, st)
  {
    st.Wake? && y.pcs[st.tid].conn == conn && y.results[y.pcs[st.tid].flight].Some?
  }

  /** No client of the connection is shared in the run; flights that fail, and other connections' flights, may be. */
  ghost predicate Unshared(y: System, steps: seq<Step>, conn: string)
    decreases |steps|
  {
    steps == []
    || (Enabled(y, steps[0]) && !Shares(y, steps[0], conn) && Unshared(Apply(y, steps[0]), steps[1..], conn))
  }

  /** The count equals the outstanding Gets before the run and after each of its steps. */
  ghost predicate AlwaysExact(y: System, steps: seq<Step>, conn: string)
    decreases |steps|
  {
    Exact(y, conn)
    && (steps == [] || (Enabled(y, steps[0]) && AlwaysExact(Apply(y, steps[0]), steps[1..], conn)))
  }

  lemma StepExactExactlyWhenUnshared(y: System, st: Step, conn: string)
    requires FlightsOk(y) && Enabled(y, st) && Exact(y, conn)
    ensures Exact(Apply(y, st), conn) <==> !Shares(y, st, conn)
  {
    HeldChanges(y, st, conn);
    RefsChange(y, st, conn);
    if st.Release? && y.pcs[st.tid].conn == conn {
      HolderIsHeld(y, st.tid, conn);
    }
  }

  lemma {:induction false} ExactWhileUnshared(y: System, steps: seq<Step>, end: System, conn: string)
    requires FlightsOk(y) && Reaches(y, steps, end) && Exact(y, conn)
    ensures AlwaysExact(y, steps, conn) <==> Unshared(y, steps, conn)
    ensures Unshared(y, steps, conn) ==> Exact(end, conn)
    decreases |steps|
  {
    if steps != [] {
      var z := Apply(y, steps[0]);
      StepExactExactlyWhenUnshared(y, steps[0], conn);
      FlightsStayOk(y, steps[0]);
      if Exact(z, conn) {
        ExactWhileUnshared(z, steps[1..], end, conn);
      }
    }
  }

  /** The client a goroutine holds, or is about to. */
  function ClientOf(p: Pc): Option<Client> {
    match p
    case Holding(_, c) => Some(c)
    case Returning(_, _, r) => r
    case _ => None
  }

  predicate Has(pcs: map<nat, Pc>, tid: nat, conn: string, c: Client) {
    tid in pcs && pcs[tid].conn == conn && ClientOf(pcs[tid]) == Some(c)
  }

  /** Every held client of the connection is in the pool. */
  ghost predicate HeldPooled(y: System, conn: string) {
    forall tid: nat, c :: Has(y.pcs, tid, conn, c) ==> InPool(y.table, conn, c)
  }

  lemma NothingHeld(y: System, conn: string)
    requires Held(y.pcs, conn) == 0
    ensures HeldPooled(y, conn)
  {
    forall tid: nat, c | Has(y.pcs, tid, conn, c) ensures false {
      HolderIsHeld(y, tid, conn);
    }
  }

  lemma EvictSparesHeld(y: System, st: Step, conn: string)
    requires HeldPooled(y, conn) && Exact(y, conn) && Enabled(y, st) && st.Evict?
    ensures HeldPooled(Apply(y, st), conn)
  {
    forall tid: nat, c | Has(y.pcs, tid, conn, c) ensures conn !in Idle(y.table, st.idle, st.now) {
      HolderIsHeld(y, tid, conn);
    }
  }

  lemma UnsharedSparesHeld(y: System, st: Step, conn: string)
    requires HeldPooled(y, conn) && FlightsOk(y) && Enabled(y, st) && !st.Evict? && !Shares(y, st, conn)
    ensures HeldPooled(Apply(y, st), conn)
  {
    var z := Apply(y, st);
    forall tid: nat, c | Has(z.pcs, tid, conn, c) && Has(y.pcs, tid, conn, c) ensures InPool(z.table, conn, c) {
      assert InPool(y.table, conn, c);
    }
  }

  /** Counts that are exact keep held clients in the pool, whatever has happened before. */
  ghost predicate SafeWhenExact(y: System, conn: string) {
    Exact(y, conn) ==> HeldPooled(y, conn)
  }

  /** A count that was short is exact again only when nothing is held. */
  lemma ShortUntilFree(y: System, st: Step, conn: string)
    requires FlightsOk(y) && RefsCovered(y) && Enabled(y, st)
    requires !Exact(y, conn) && Exact(Apply(y, st), conn)
    ensures Held(Apply(y, st).pcs, conn) == 0
  {
    HeldChanges(y, st, conn);
    RefsChange(y, st, conn);
  }

  lemma SafeWhenExactStays(y: System, st: Step, conn: string)
    requires SafeWhenExact(y, conn) && FlightsOk(y) && RefsCovered(y) && Enabled(y, st)
    ensures SafeWhenExact(Apply(y, st), conn)
  {
    if Exact(Apply(y, st), conn) {
      if !Exact(y, conn) {
        ShortUntilFree(y, st, conn);
        NothingHeld(Apply(y, st), conn);
      } else if st.Evict? {
        EvictSparesHeld(y, st, conn);
      } else {
        StepExactExactlyWhenUnshared(y, st, conn);
        UnsharedSparesHeld(y, st, conn);
      }
    }
  }

  // ---------------------------------------------------------------- clients belong to connections

  /** c was pooled under conn: it is there still, or an evictor has it, or it is disconnected. */
  predicate Belongs(home: Homes, conn: string, c: Client) {
    c in home && (home[c] == Pooled(conn) || home[c] == Doomed || home[c] == Closed)
  }

  ghost predicate HeldBelong(pcs: map<nat, Pc>, home: Homes) {
    forall tid: nat, conn, c :: Has(pcs, tid, conn, c) ==> Belongs(home, conn, c)
  }

  /** Registered flights are numbered apart, and none of them has a result yet. */
  ghost predicate FlightsApart(flights: map<string, nat>, results: map<nat, Option<Client>>, next: nat) {
    && (forall a, b | a in flights && b in flights && flights[a] == flights[b] :: a == b)
    && (forall a :: a in flights ==> flights[a] < next && flights[a] !in results)
    && (forall f: nat :: f in results ==> f < next)
  }

  predicate Joins(pcs: map<nat, Pc>, tid: nat, conn: string, flight: nat) {
    tid in pcs && pcs[tid] == Joined(conn, flight)
  }

  /** Who joined a flight waits for it, or finds a client of its connection, or a failure. */
  predicate Awaits(y: System, conn: string, flight: nat) {
    if flight in y.results then y.results[flight].Some? ==> Belongs(y.home, conn, y.results[flight].value)
    else conn in y.flights && y.flights[conn] == flight
  }

  ghost predicate FlightsNumbered(y: System) {
    && FlightsApart(y.flights, y.results, y.nextFlight)
    && LeadersNumbered(y.pcs, y.flights)
    && JoinersAwait(y)
  }

  ghost predicate LeadersNumbered(pcs: map<nat, Pc>, flights: map<string, nat>) {
    forall tid :: tid in pcs && Leads(pcs[tid]) ==>
                    pcs[tid].conn in flights && flights[pcs[tid].conn] == pcs[tid].flight
  }

  ghost predicate JoinersAwait(y: System) {
    forall tid: nat, conn, flight: nat :: Joins(y.pcs, tid, conn, flight) ==> Awaits(y, conn, flight)
  }

  ghost predicate OwnersOk(y: System) {
    HeldBelong(y.pcs, y.home) && FlightsNumbered(y)
  }

  lemma BelongsStays(y: System, st: Step, conn: string, c: Client)
    requires Enabled(y, st) && HomeOk(y) && FlightsOk(y) && Belongs(y.home, conn, c)
    ensures Belongs(Apply(y, st).home, conn, c)
  {
    match st
    case Keep(tid, _) => assert HasInHand(y.pcs, tid, y.pcs[tid].own);
    case Disconnect(client) => assert At(y.home, client, Doomed);
    case _ =>
  }

  lemma TakenBelongs(y: System, st: Step)
    requires Enabled(y, st) && HomeOk(y) && FlightsOk(y) && HeldBelong(y.pcs, y.home)
    requires st.Begin? || st.Look? || st.Keep?
    ensures HeldBelong(Apply(y, st).pcs, Apply(y, st).home)
  {
    var z := Apply(y, st);
    HomeStaysOk(y, st);
    forall tid: nat, conn, c | Has(z.pcs, tid, conn, c) ensures Belongs(z.home, conn, c) {
      if tid == st.tid {
        assert InPool(z.table, conn, c);
      } else {
        assert Has(y.pcs, tid, conn, c);
        BelongsStays(y, st, conn, c);
      }
    }
  }

  lemma PassedOnBelongs(y: System, st: Step)
    requires Enabled(y, st) && HomeOk(y) && FlightsOk(y) && OwnersOk(y) && !st.Begin? && !st.Look? && !st.Keep?
    ensures HeldBelong(Apply(y, st).pcs, Apply(y, st).home)
  {
    var z := Apply(y, st);
    forall tid: nat, conn, c | Has(z.pcs, tid, conn, c) ensures Belongs(z.home, conn, c) {
      if Has(y.pcs, tid, conn, c) {
        BelongsStays(y, st, conn, c);
      } else {
        assert Joins(y.pcs, st.tid, conn, y.pcs[st.tid].flight);
      }
    }
  }

  lemma LeadKeepsNumbers(y: System, st: Step)
    requires Enabled(y, st) && FlightsOk(y) && OwnersOk(y) && st.Lead?
    ensures FlightsNumbered(Apply(y, st))
  {
    var z := Apply(y, st);
    forall tid: nat, conn, flight: nat | Joins(z.pcs, tid, conn, flight) ensures Awaits(z, conn, flight) {
      assert Joins(y.pcs, tid, conn, flight);
    }
  }

  lemma FinishKeepsNumbers(y: System, st: Step)
    requires Enabled(y, st) && FlightsOk(y) && OwnersOk(y) && st.Finish?
    ensures FlightsNumbered(Apply(y, st))
  {
    var z, p := Apply(y, st), y.pcs[st.tid];
    forall tid: nat, conn, flight: nat | Joins(z.pcs, tid, conn, flight) ensures Awaits(z, conn, flight) {
      assert Joins(y.pcs, tid, conn, flight);
      if flight == p.flight && p.result.Some? {
        assert Has(y.pcs, st.tid, p.conn, p.result.value);
      }
    }
  }

  lemma JoinKeepsNumbers(y: System, st: Step)
    requires Enabled(y, st) && OwnersOk(y) && st.Join?
    ensures FlightsNumbered(Apply(y, st))
  {
    var z := Apply(y, st);
    forall tid: nat, conn, flight: nat | Joins(z.pcs, tid, conn, flight) ensures Awaits(z, conn, flight) {
      assert tid != st.tid ==> Joins(y.pcs, tid, conn, flight);
    }
  }

  lemma AwaitsStays(y: System, st: Step, conn: string, flight: nat)
    requires Enabled(y, st) && HomeOk(y) && FlightsOk(y) && Awaits(y, conn, flight)
    requires !st.Lead? && !st.Finish?
    ensures Awaits(Apply(y, st), conn, flight)
  {
    if flight in y.results && y.results[flight].Some? {
      BelongsStays(y, st, conn, y.results[flight].value);
    }
  }

  lemma OthersKeepLeaders(y: System, st: Step)
    requires Enabled(y, st) && LeadersNumbered(y.pcs, y.flights) && !st.Lead? && !st.Finish? && !st.Join?
    ensures LeadersNumbered(Apply(y, st).pcs, Apply(y, st).flights)
  {
  }

  lemma OthersKeepJoiners(y: System, st: Step)
    requires Enabled(y, st) && HomeOk(y) && FlightsOk(y) && JoinersAwait(y) && !st.Lead? && !st.Finish? && !st.Join?
    ensures JoinersAwait(Apply(y, st))
  {
    var z := Apply(y, st);
    forall tid: nat, conn, flight: nat | Joins(z.pcs, tid, conn, flight) ensures Awaits(z, conn, flight) {
      assert Joins(y.pcs, tid, conn, flight);
      AwaitsStays(y, st, conn, flight);
    }
  }

  lemma OwnersStayOk(y: System, st: Step)
    requires Enabled(y, st) && HomeOk(y) && FlightsOk(y) && OwnersOk(y)
    ensures OwnersOk(Apply(y, st))
  {
    if st.Begin? || st.Look? || st.Keep? {
      TakenBelongs(y, st);
    } else {
      PassedOnBelongs(y, st);
    }
    if st.Lead? {
      LeadKeepsNumbers(y, st);
    } else if st.Finish? {
      FinishKeepsNumbers(y, st);
    } else if st.Join? {
      JoinKeepsNumbers(y, st);
    } else {
      OthersKeepLeaders(y, st);
      OthersKeepJoiners(y, st);
    }
  }

  // ---------------------------------------------------------------- theorems over runs

  ghost predicate Inv(y: System) {
    FlightsOk(y) && HomeOk(y) && RefsCovered(y) && OwnersOk(y)
  }

  lemma StepKeepsInv(y: System, st: Step)
    requires Inv(y) && Enabled(y, st)
    ensures Inv(Apply(y, st))
  {
    FlightsStayOk(y, st);
    HomeStaysOk(y, st);
    RefsStayCovered(y, st);
    OwnersStayOk(y, st);
  }

  lemma {:induction false} RunsKeep(y: System, steps: seq<Step>, end: System, conn: string)
    requires Reaches(y, steps, end) && Inv(y) && SafeWhenExact(y, conn)
    ensures Inv(end) && SafeWhenExact(end, conn)
    decreases |steps|
  {
    if steps != [] {
      StepKeepsInv(y, steps[0]);
      SafeWhenExactStays(y, steps[0], conn);
      RunsKeep(Apply(y, steps[0]), steps[1..], end, conn);
    }
  }

  lemma InitialOk(conn: string)
    ensures Inv(INITIAL) && Exact(INITIAL, conn) && SafeWhenExact(INITIAL, conn)
  {
    forall c ensures Held(INITIAL.pcs, c) == 0 {
    }
  }

  /** In every interleaving, every connected client is in exactly one place: under one connection of the pool,
      in the hands of one creator, on an evictor's list, or disconnected, and then exactly once. */
  lemma ClientsConserved(steps: seq<Step>, y: System, c: Client)
    requires Reaches(INITIAL, steps, y) && c.number < y.nextClient
    ensures Closes(y.closes, c) <= 1
    ensures (exists conn :: InPool(y.table, conn, c)) || (exists tid :: HasInHand(y.pcs, tid, c)) || c in y.doomed
            || Closes(y.closes, c) == 1
    ensures forall conn :: InPool(y.table, conn, c) ==>
              && (forall d :: InPool(y.table, d, c) ==> d == conn)
              && (forall tid :: !HasInHand(y.pcs, tid, c)) && c !in y.doomed && Closes(y.closes, c) == 0
    ensures forall tid :: HasInHand(y.pcs, tid, c) ==>
              && (forall i :: HasInHand(y.pcs, i, c) ==> i == tid)
              && c !in y.doomed && Closes(y.closes, c) == 0
    ensures c in y.doomed ==> Closes(y.closes, c) == 0
  {
    InitialOk("");
    RunsKeep(INITIAL, steps, y, "");
    match y.home[c]
    case Pooled(conn) => assert InPool(y.table, conn, c);
    case InHand(tid) => assert HasInHand(y.pcs, tid, c);
    case Doomed => assert c in y.doomed;
    case Closed => assert Closes(y.closes, c) == 1;
  }

  /** In every interleaving a count never exceeds the outstanding Gets, and no creator ever finds that another
      has been faster. */
  lemma RefsNeverExceedGets(steps: seq<Step>, y: System, conn: string)
    requires Reaches(INITIAL, steps, y)
    ensures Refs(y.table, conn) <= Held(y.pcs, conn)
    ensures forall tid :: tid in y.pcs && y.pcs[tid].Dialed? ==> y.pcs[tid].conn !in y.table
  {
    InitialOk("");
    RunsKeep(INITIAL, steps, y, "");
  }

  /** Over every run, the count of a connection equals its outstanding Gets throughout if and only if no second
      caller ever comes back with the client of a shared flight of that connection. */
  lemma ExactExactlyWhenUnshared(steps: seq<Step>, y: System, conn: string)
    requires Reaches(INITIAL, steps, y)
    ensures AlwaysExact(INITIAL, steps, conn) <==> Unshared(INITIAL, steps, conn)
  {
    InitialOk(conn);
    ExactWhileUnshared(INITIAL, steps, y, conn);
  }

  lemma PooledIsOpen(y: System, conn: string, c: Client)
    requires HomeOk(y) && InPool(y.table, conn, c)
    ensures c !in y.doomed && Closes(y.closes, c) == 0
  {
    assert At(y.home, c, Pooled(conn));
  }

  /** In such a run every held client of the connection is in the pool, neither on an evictor's list nor
      disconnected, whatever is shared on other connections and whichever shared flights fail. */
  lemma UnsharedClientsSafe(steps: seq<Step>, y: System, conn: string)
    requires Reaches(INITIAL, steps, y) && Unshared(INITIAL, steps, conn)
    ensures Refs(y.table, conn) == Held(y.pcs, conn)
    ensures forall tid: nat, c :: Has(y.pcs, tid, conn, c) ==>
              InPool(y.table, conn, c) && c !in y.doomed && Closes(y.closes, c) == 0
  {
    InitialOk(conn);
    ExactWhileUnshared(INITIAL, steps, y, conn);
    RunsKeep(INITIAL, steps, y, conn);
    forall tid: nat, c | Has(y.pcs, tid, conn, c)
      ensures InPool(y.table, conn, c) && c !in y.doomed && Closes(y.closes, c) == 0
    {
      PooledIsOpen(y, conn, c);
    }
  }

  /** From here on, without any further sharing, a client of the connection may be disconnected while it is held. */
  ghost predicate MayLose(y: System, conn: string) {
    exists steps, end, tid: nat, c :: Loses(y, steps, end, tid, conn, c)
  }

  ghost predicate Loses(y: System, steps: seq<Step>, end: System, tid: nat, conn: string, c: Client) {
    && Reaches(y, steps, end) && Unshared(y, steps, conn)
    && tid in end.pcs && end.pcs[tid] == Holding(conn, c) && Closes(end.closes, c) == 1
  }

  lemma LosesLater(y: System, st: Step, conn: string)
    requires Enabled(y, st) && !st.Wake? && MayLose(Apply(y, st), conn)
    ensures MayLose(y, conn)
  {
    var steps, end, tid: nat, c :| Loses(Apply(y, st), steps, end, tid, conn, c);
    assert ([st] + steps)[1..] == steps;
    assert Loses(y, [st] + steps, end, tid, conn, c);
  }

  lemma LosesNow(y: System, tid: nat, conn: string, c: Client)
    requires tid in y.pcs && y.pcs[tid] == Holding(conn, c) && Closes(y.closes, c) == 1
    ensures MayLose(y, conn)
  {
    assert Loses(y, [], y, tid, conn, c);
  }

  /** Somebody holds the connection's client, or is about to. */
  lemma {:induction false} SomeOwner(pcs: map<nat, Pc>, conn: string) returns (tid: nat)
    requires Held(pcs, conn) >= 1
    ensures tid in pcs && Owns(pcs[tid], conn)
    decreases |pcs|
  {
    var k :| k in pcs && Held(pcs, conn) == Owes(conn)(pcs[k]) + Held(pcs - {k}, conn);
    if Owns(pcs[k], conn) {
      tid := k;
    } else {
      tid := SomeOwner(pcs - {k}, conn);
    }
  }

  /** A goroutine that holds a client that has left the pool loses it when the evictor gets to it. */
  lemma LoseUnpooled(y: System, tid: nat, conn: string, c: Client)
    requires Inv(y) && tid in y.pcs && y.pcs[tid] == Holding(conn, c) && conn !in y.table
    ensures MayLose(y, conn)
  {
    assert Has(y.pcs, tid, conn, c);
    assert At(y.home, c, Pooled(conn)) ==> InPool(y.table, conn, c);
    if At(y.home, c, Doomed) {
      var z := Apply(y, Disconnect(c));
      DisconnectKeepsHome(y, Disconnect(c));
      LosesNow(z, tid, conn, c);
      LosesLater(y, Disconnect(c), conn);
    } else {
      LosesNow(y, tid, conn, c);
    }
  }

  /** A count that is short lets a held client be lost: release what is counted, evict, disconnect. */
  lemma {:induction false} ShortCountLoses(y: System, conn: string)
    requires Inv(y) && Refs(y.table, conn) < Held(y.pcs, conn)
    ensures MayLose(y, conn)
    decreases Held(y.pcs, conn), 1
  {
    var tid := SomeOwner(y.pcs, conn);
    if y.pcs[tid].Returning? {
      var st := Finish(tid);
      StepKeepsInv(y, st);
      HeldChanges(y, st, conn);
      HolderShortLoses(Apply(y, st), tid, conn);
      LosesLater(y, st, conn);
    } else {
      HolderShortLoses(y, tid, conn);
    }
  }

  lemma {:induction false} HolderShortLoses(y: System, tid: nat, conn: string)
    requires Inv(y) && Refs(y.table, conn) < Held(y.pcs, conn)
    requires tid in y.pcs && y.pcs[tid].Holding? && y.pcs[tid].conn == conn
    ensures MayLose(y, conn)
    decreases Held(y.pcs, conn), 0
  {
    if Refs(y.table, conn) > 0 {
      var st := Release(tid, 0);
      StepKeepsInv(y, st);
      HeldChanges(y, st, conn);
      RefsChange(y, st, conn);
      ShortCountLoses(Apply(y, st), conn);
      LosesLater(y, st, conn);
    } else if conn in y.table {
      var st := Evict(1, y.table[conn].lastUsed + 1);
      StepKeepsInv(y, st);
      assert conn in Idle(y.table, st.idle, st.now);
      LoseUnpooled(Apply(y, st), tid, conn, y.pcs[tid].client);
      LosesLater(y, st, conn);
    } else {
      LoseUnpooled(y, tid, conn, y.pcs[tid].client);
    }
  }

  /** At every reachable state, the held clients of a connection are safe from now on, as long as nothing more is
      shared, if and only if its count equals its outstanding Gets; and then they are all in the pool. */
  lemma SafeExactlyWhenExact(steps: seq<Step>, y: System, conn: string)
    requires Reaches(INITIAL, steps, y)
    ensures !MayLose(y, conn) <==> Refs(y.table, conn) == Held(y.pcs, conn)
    ensures Refs(y.table, conn) == Held(y.pcs, conn) ==> HeldPooled(y, conn)
  {
    InitialOk(conn);
    RunsKeep(INITIAL, steps, y, conn);
    if Exact(y, conn) {
      forall more, end, tid: nat, c | Loses(y, more, end, tid, conn, c) ensures false {
        ExactWhileUnshared(y, more, end, conn);
        RunsKeep(y, more, end, conn);
        assert Has(end.pcs, tid, conn, c);
        PooledIsOpen(end, conn, c);
      }
    } else {
      assert Refs(y.table, conn) <= Held(y.pcs, conn);
      ShortCountLoses(y, conn);
    }
  }

  /** Two callers miss; one leads a flight and the other joins it. */
  function TwoCallers(conn: string): seq<Step> {
    [Begin(0, conn, 0), Begin(1, conn, 0), Lead(0), Look(0, 0), Join(1)]
  }

  /** The leader connects. */
  function Connects(): seq<Step> {
    [Dial(0, true), Keep(0, 0)]
  }

  /** Both come back with its client. */
  function BothServed(): seq<Step> {
    [Finish(0), Wake(1)]
  }

  /** The first caller is done, and eviction comes by. */
  function FirstDone(): seq<Step> {
    [Release(0, 0), Evict(1, 1)]
  }

  lemma TwoCallersRun(conn: string) returns (y: System)
    requires conn != ""
    ensures Reaches(INITIAL, TwoCallers(conn), y)
    ensures y == INITIAL.(flights := map[conn := 0], pcs := map[0 := Dialing(conn, 0), 1 := Joined(conn, 0)],
                          nextFlight := 1)
  {
    var steps := TwoCallers(conn);
    var a := Apply(INITIAL, steps[0]);
    var b := Apply(a, steps[1]);
    var c := Apply(b, steps[2]);
    var d := Apply(c, steps[3]);
    y := Apply(d, steps[4]);
    assert steps[5..] == [];
    ReachesBack(d, steps, 4, y);
    ReachesBack(c, steps, 3, y);
    ReachesBack(b, steps, 2, y);
    ReachesBack(a, steps, 1, y);
    ReachesBack(INITIAL, steps, 0, y);
    assert steps[0..] == steps;
  }

  lemma PairRun(x: System, one: Step, two: Step)
    requires Enabled(x, one) && Enabled(Apply(x, one), two)
    ensures Reaches(x, [one, two], Apply(Apply(x, one), two))
  {
    assert [one, two][1..] == [two] && [two][1..] == [];
  }

  lemma ConnectsRun(x: System, conn: string) returns (y: System)
    requires x == INITIAL.(flights := map[conn := 0], pcs := map[0 := Dialing(conn, 0), 1 := Joined(conn, 0)],
                           nextFlight := 1)
    ensures Reaches(x, Connects(), y)
    ensures y.table == map[conn := Entry(Client(0), 1, 0)]
    ensures y.pcs == map[0 := Returning(conn, 0, Some(Client(0))), 1 := Joined(conn, 0)]
    ensures y.doomed == {} && Closes(y.closes, Client(0)) == 0
  {
    PairRun(x, Dial(0, true), Keep(0, 0));
    y := Apply(Apply(x, Dial(0, true)), Keep(0, 0));
  }

  lemma BothServedRun(x: System, conn: string) returns (y: System)
    requires x.pcs == map[0 := Returning(conn, 0, Some(Client(0))), 1 := Joined(conn, 0)]
    ensures Reaches(x, BothServed(), y)
    ensures y.table == x.table && y.doomed == x.doomed && y.closes == x.closes
    ensures y.pcs == map[0 := Holding(conn, Client(0)), 1 := Holding(conn, Client(0))]
  {
    PairRun(x, Finish(0), Wake(1));
    y := Apply(Apply(x, Finish(0)), Wake(1));
  }

  lemma ReachesBack(y: System, steps: seq<Step>, i: nat, end: System)
    requires i < |steps| && Enabled(y, steps[i]) && Reaches(Apply(y, steps[i]), steps[i + 1..], end)
    ensures Reaches(y, steps[i..], end)
  {
    assert steps[i..][0] == steps[i] && steps[i..][1..] == steps[i + 1..];
  }

  lemma {:induction false} ReachesJoin(y: System, steps: seq<Step>, mid: System, more: seq<Step>, end: System)
    requires Reaches(y, steps, mid) && Reaches(mid, more, end)
    ensures Reaches(y, steps + more, end)
    decreases |steps|
  {
    if steps == [] {
      assert steps + more == more;
    } else {
      ReachesJoin(Apply(y, steps[0]), steps[1..], mid, more, end);
      assert (steps + more)[1..] == steps[1..] + more;
    }
  }

  lemma FirstDoneRun(x: System, conn: string) returns (y: System)
    requires x.table == map[conn := Entry(Client(0), 1, 0)]
    requires x.pcs == map[0 := Holding(conn, Client(0)), 1 := Holding(conn, Client(0))]
    ensures Reaches(x, FirstDone(), y)
    ensures y.pcs == map[1 := Holding(conn, Client(0))] && Client(0) in y.doomed && y.closes == x.closes
  {
    PairRun(x, Release(0, 0), Evict(1, 1));
    var a := Apply(x, Release(0, 0));
    assert a.table == map[conn := Entry(Client(0), 0, 0)];
    y := Apply(a, Evict(1, 1));
    assert conn in Idle(a.table, 1, 1);
    assert InPool(a.table, conn, Client(0));
  }

  /** When a flight is joined, a client can be disconnected while it is held. */
  lemma SharedFlightUnsafe(conn: string) returns (steps: seq<Step>, y: System)
    requires conn != ""
    ensures Reaches(INITIAL, steps, y)
    ensures y.pcs == map[1 := Holding(conn, Client(0))] && Closes(y.closes, Client(0)) == 1
  {
    var a := TwoCallersRun(conn);
    var b := ConnectsRun(a, conn);
    var c := BothServedRun(b, conn);
    var d := FirstDoneRun(c, conn);
    y := Apply(d, Disconnect(Client(0)));
    assert Reaches(d, [Disconnect(Client(0))], y);
    ReachesJoin(c, FirstDone(), d, [Disconnect(Client(0))], y);
    var last := FirstDone() + [Disconnect(Client(0))];
    ReachesJoin(b, BothServed(), c, last, y);
    ReachesJoin(a, Connects(), b, BothServed() + last, y);
    steps := TwoCallers(conn) + (Connects() + (BothServed() + last));
    ReachesJoin(INITIAL, TwoCallers(conn), a, Connects() + (BothServed() + last), y);
  }
}
