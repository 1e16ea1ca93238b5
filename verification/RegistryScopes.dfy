/** Who gets the documents of a backend cursor, and what one find, getMore or kill does. */
module RegistryScopes {
  import opened CursorRegistry
  import opened RegistryRuns
  import opened CursorScopes

  function ScopeOfOwner(o: Owner): Scope {
    Scope(o.tenantID, o.connKey)
  }

  // ---------------------------------------------------------------- one call

  /** A find hands out the first n documents, 101 if no number is given, and keeps a cursor over the others exactly
      if it found that many and was not asked for a single batch; an iterator that fails on the way keeps nothing. */
  lemma FindMeaning(s: State, tenantID: string, connKey: string, ns: string, all: seq<string>, broken: bool, n: int,
                    single: bool, now: Time)
    ensures var (r, t) := FirstBatch(s, tenantID, connKey, ns, all, broken, n, single, now);
            var k := if n <= 0 then 101 else n;
            && (|all| < k && broken ==> r == BackendFailed && t == s)
            && (|all| < k && !broken ==> r == Batch(0, ns, all) && t == s)
            && (k <= |all| && single ==> r == Batch(0, ns, all[..k]) && t == s)
            && (k <= |all| && !single ==>
                  && r == Batch(s.nextID + 1, ns, all[..k])
                  && t == State(s.table[r.id := Cur(Owner(tenantID, connKey, ns), all[k..], broken, now)], r.id))
  {
  }

  /** A getMore under another tenant or connection is not found and changes nothing. */
  lemma StrangersFindNothing(s: State, id: int, tenantID: string, connKey: string, n: int, now: Time)
    requires id in s.table ==> Scope(tenantID, connKey) != ScopeOfOwner(s.table[id].owner)
    ensures GetMore(s, id, tenantID, connKey, n, now) == (CursorNotFound, s)
  {
  }

  /** The owner gets the next n documents, 101 if no number is given, and the cursor keeps the rest; when there are
      fewer it gets those under id 0, or the iterator's failure, and the cursor is gone. */
  lemma OwnerGetsMore(s: State, id: int, n: int, now: Time)
    requires id in s.table
    ensures var c := s.table[id];
            var (r, t) := GetMore(s, id, c.owner.tenantID, c.owner.connKey, n, now);
            var k := if n <= 0 then 101 else n;
            && (|c.rest| < k ==> t == State(s.table - {id}, s.nextID))
            && (|c.rest| < k && c.broken ==> r == BackendFailed)
            && (|c.rest| < k && !c.broken ==> r == Batch(0, c.owner.ns, c.rest))
            && (k <= |c.rest| ==>
                  && r == Batch(id, c.owner.ns, c.rest[..k])
                  && t == State(s.table[id := Cur(c.owner, c.rest[k..], c.broken, now)], s.nextID))
  {
  }

  /** Kills, disconnects and prunings take exactly the caller's cursor, the connection's cursors and the cursors
      last used before the cutoff, and hand out nothing. */
  lemma RemovalsAreExact(s: State, log: Log, q: Request, id: nat)
    requires q.Kill? || q.Disconnect? || q.PruneAll?
    ensures var t := Serve(s, log, q).0;
            && t.nextID == s.nextID
            && (id in t.table ==> id in s.table && t.table[id] == s.table[id])
            && (id in s.table ==> (id !in t.table <==>
                  match q
                  case Kill(i, tenantID, connKey) =>
                    i == id && tenantID == s.table[id].owner.tenantID && connKey == s.table[id].owner.connKey
                  case Disconnect(connKey) => connKey == s.table[id].owner.connKey
                  case PruneAll(cutoff) => s.table[id].lastUsed < cutoff
                  case _ => false))
  {
    if q.Disconnect? {
      assert id in OfConn(s.table, q.connKey) <==> id in s.table && s.table[id].owner.connKey == q.connKey;
    } else if q.PruneAll? {
      assert id in IdleSince(s.table, q.cutoff) <==> id in s.table && s.table[id].lastUsed < q.cutoff;
    }
  }

  // ---------------------------------------------------------------- who is served, over runs

  datatype Ledger = Ledger(owners: map<nat, Registration>, deliveries: seq<Delivery>)

  /** The ledger after one more request, from its arguments and its reply. */
  function Entered(s: State, q: Request, a: Ledger): Ledger {
    match q
    case Find(tenantID, connKey, ns, all, broken, n, single, now) =>
      var r := FirstBatch(s, tenantID, connKey, ns, all, broken, n, single, now).0;
      if !r.Batch? || r.id == 0 then a else
      Ledger(a.owners[r.id := Registration(Scope(tenantID, connKey), ns, all)],
             a.deliveries + [Delivery(r.id, Scope(tenantID, connKey), r.ns, r.docs, false)])
    case More(id, tenantID, connKey, n, now) =>
      var r := GetMore(s, id, tenantID, connKey, n, now).0;
      if !r.Batch? then a else
      a.(deliveries := a.deliveries + [Delivery(id, Scope(tenantID, connKey), r.ns, r.docs, r.id == 0)])
    case _ => a
  }

  function EnteredAll(s: State, log: Log, qs: seq<Request>, a: Ledger): Ledger
    decreases |qs|
  {
    if qs == [] then a
    else
      var (t, l) := Serve(s, log, qs[0]);
      EnteredAll(t, l, qs[1..], Entered(s, qs[0], a))
  }

  predicate ToRegistrar(a: Ledger, d: Delivery) {
    d.id in a.owners && d.to == a.owners[d.id].scope && d.ns == a.owners[d.id].ns
  }

  predicate HeldFor(a: Ledger, id: nat, c: Cur) {
    id in a.owners && ScopeOfOwner(c.owner) == a.owners[id].scope && c.owner.ns == a.owners[id].ns
  }

  predicate Booked(log: Log, a: Ledger, id: nat) {
    && (id in log.given <==> id in a.owners)
    && (id in log.given <==> id in log.docs)
    && (id in log.done <==> Ended(a.deliveries, id))
    && (id in log.given ==> Handed(a.deliveries, id) == log.given[id] && log.docs[id] == a.owners[id].docs)
    && (id !in log.given ==> Handed(a.deliveries, id) == [])
  }

  ghost predicate AllBooked(log: Log, a: Ledger) {
    forall id :: Booked(log, a, id)
  }

  ghost predicate LedgerOk(s: State, log: Log, a: Ledger) {
    && (forall id :: id in s.table ==> HeldFor(a, id, s.table[id]))
    && (forall i | 0 <= i < |a.deliveries| :: ToRegistrar(a, a.deliveries[i]))
    && AllBooked(log, a)
    && (forall id :: id in a.owners ==> id <= s.nextID)
  }

  lemma OpeningIsBooked(log: Log, a: Ledger, key: nat, r: Registration, first: seq<string>)
    requires AllBooked(log, a) && key !in a.owners && key !in log.done
    ensures var d := Delivery(key, r.scope, r.ns, first, false);
            AllBooked(Opened(log, key, r.docs, first), Ledger(a.owners[key := r], a.deliveries + [d]))
  {
    var d := Delivery(key, r.scope, r.ns, first, false);
    var l, b := Opened(log, key, r.docs, first), Ledger(a.owners[key := r], a.deliveries + [d]);
    forall id: nat ensures Booked(l, b, id) {
      assert Booked(log, a, id);
      OneMore(a.deliveries, d, id);
    }
  }

  lemma FindKeepsLedger(s: State, log: Log, q: Request, a: Ledger)
    requires LogOk(s, log) && LedgerOk(s, log, a) && q.Find?
    ensures var (t, l) := Serve(s, log, q); LedgerOk(t, l, Entered(s, q, a))
  {
    FindMeaning(s, q.tenantID, q.connKey, q.ns, q.all, q.broken, q.n, q.single, q.now);
    var r := FirstBatch(s, q.tenantID, q.connKey, q.ns, q.all, q.broken, q.n, q.single, q.now).0;
    if r.Batch? && r.id != 0 {
      OpeningIsBooked(log, a, r.id, Registration(Scope(q.tenantID, q.connKey), q.ns, q.all), r.docs);
    }
  }

  lemma MoreKeepsLedger(s: State, log: Log, q: Request, a: Ledger)
    requires LogOk(s, log) && LedgerOk(s, log, a) && q.More? && 0 !in s.table
    ensures var (t, l) := Serve(s, log, q); LedgerOk(t, l, Entered(s, q, a))
  {
    var (t, l) := Serve(s, log, q);
    var b := Entered(s, q, a);
    if q.id in s.table && Scope(q.tenantID, q.connKey) == ScopeOfOwner(s.table[q.id].owner) {
      OwnerGetsMore(s, q.id, q.n, q.now);
      assert HeldFor(a, q.id, s.table[q.id]) && Tracks(log, q.id, s.table[q.id]);
      forall id: nat ensures Booked(l, b, id) {
        assert Booked(log, a, id);
        if b != a {
          OneMore(a.deliveries, b.deliveries[|a.deliveries|], id);
        }
      }
    } else {
      StrangersFindNothing(s, q.id, q.tenantID, q.connKey, q.n, q.now);
    }
  }

  lemma ServeKeepsLedger(s: State, log: Log, q: Request, a: Ledger)
    requires LogOk(s, log) && LedgerOk(s, log, a) && 0 !in s.table
    ensures var (t, l) := Serve(s, log, q); LedgerOk(t, l, Entered(s, q, a))
  {
    match q
    case Find(_, _, _, _, _, _, _, _) => FindKeepsLedger(s, log, q, a);
    case More(_, _, _, _, _) => MoreKeepsLedger(s, log, q, a);
    case _ =>
      var (t, l) := Serve(s, log, q);
      forall id: nat ensures Booked(l, a, id) {
        assert Booked(log, a, id);
      }
      forall id | id in t.table ensures HeldFor(a, id, t.table[id]) {
        RemovalsAreExact(s, log, q, id);
      }
  }

  lemma {:induction false} RunsKeepLedger(s: State, log: Log, qs: seq<Request>, a: Ledger)
    requires LogOk(s, log) && LedgerOk(s, log, a) && 0 !in s.table
    ensures var (t, l) := ServeAll(s, log, qs);
            LogOk(t, l) && LedgerOk(t, l, EnteredAll(s, log, qs, a))
    decreases |qs|
  {
    if qs != [] {
      ServeKeepsLog(s, log, qs[0]);
      ServeKeepsLedger(s, log, qs[0], a);
      var (t, l) := Serve(s, log, qs[0]);
      RunsKeepLedger(t, l, qs[1..], Entered(s, qs[0], a));
    }
  }

  /** Over every run of finds, getMores, kills, disconnects and prunings: each batch of a cursor went to the tenant
      and connection whose find registered it; its batches in order are a prefix of what its iterator yields, and
      all of it once a batch came with id 0. */
  lemma DeliveredToTheFinder(qs: seq<Request>, id: nat)
    ensures var a := EnteredAll(EMPTY, NO_LOG, qs, Ledger(map[], []));
            && (forall i | 0 <= i < |a.deliveries| ::
                  && a.deliveries[i].id in a.owners
                  && a.deliveries[i].to == a.owners[a.deliveries[i].id].scope
                  && a.deliveries[i].ns == a.owners[a.deliveries[i].id].ns)
            && (id in a.owners ==> Handed(a.deliveries, id) <= a.owners[id].docs)
            && (id in a.owners && Ended(a.deliveries, id) ==> Handed(a.deliveries, id) == a.owners[id].docs)
  {
    RunsKeepLedger(EMPTY, NO_LOG, qs, Ledger(map[], []));
    var a := EnteredAll(EMPTY, NO_LOG, qs, Ledger(map[], []));
    var (t, l) := ServeAll(EMPTY, NO_LOG, qs);
    assert Booked(l, a, id);
    forall i | 0 <= i < |a.deliveries| ensures ToRegistrar(a, a.deliveries[i]) {
    }
  }
}
