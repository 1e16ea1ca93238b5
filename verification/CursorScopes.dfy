/** Who gets the documents of an emulated cursor, what one batch is, and which cursors make room. */
module CursorScopes {
  import opened CachedCursor
  import opened CursorRuns

  datatype Scope = Scope(tenantID: string, connKey: string)

  function ScopeOf(c: Cur): Scope {
    Scope(c.tenantID, c.connKey)
  }

  // ---------------------------------------------------------------- one call

  /** A batch or a kill under another tenant or connection does nothing and hands out nothing. */
  lemma StrangersGetNothing(s: State, id: int, tenantID: string, connKey: string, n: int, now: Time)
    requires id in s.table ==> Sound(s.table[id])
    requires id in s.table ==> Scope(tenantID, connKey) != ScopeOf(s.table[id])
    ensures Fetch(s, id, tenantID, connKey, n, now) == (Batch("", [], true, false), s)
    ensures Killed(s, id, tenantID, connKey) == s
  {
  }

  /** The owner gets the next n documents, 101 if no number is given; the cursor keeps the rest, or is dropped
      with its bytes when there is none. */
  lemma OwnerIsServed(s: State, id: int, n: int, now: Time)
    requires id in s.table && Sound(s.table[id])
    ensures var c := s.table[id];
            var (b, t) := Fetch(s, id, c.tenantID, c.connKey, n, now);
            var k := if n <= 0 then 101 else n;
            && b == Batch(c.ns, b.docs, c.pos + k >= |c.docs|, true)
            && c.docs[c.pos..] == b.docs + c.docs[c.pos + |b.docs|..]
            && |b.docs| == (if c.pos + k >= |c.docs| then |c.docs| - c.pos else k)
            && t.nextID == s.nextID
            && (b.exhausted ==> t.table == s.table - {id} && t.curBytes == s.curBytes - c.bytes)
            && (!b.exhausted ==> t.curBytes == s.curBytes
                                 && t.table == s.table[id := c.(pos := c.pos + |b.docs|, lastUsed := now)])
            && Killed(s, id, c.tenantID, c.connKey) == State(s.table - {id}, s.curBytes - c.bytes, s.nextID)
  {
  }

  /** Of the listed cursors exactly the caller's own are dropped, and no other. */
  lemma {:induction false} KillsTheCallersOwn(s: State, ids: seq<int>, tenantID: string, connKey: string, id: nat)
    ensures var t := KilledMany(s, ids, tenantID, connKey).table;
            && (id in t <==> id in s.table && !(id in ids && ScopeOf(s.table[id]) == Scope(tenantID, connKey)))
            && (id in t ==> t[id] == s.table[id])
    decreases |ids|
  {
    if ids != [] {
      var front, last := ids[..|ids| - 1], ids[|ids| - 1];
      assert ids == front + [last];
      KillsTheCallersOwn(s, front, tenantID, connKey, id);
    }
  }

  /** Pruning takes the cursors last used before the cutoff and leaves every other as it was. */
  lemma PruneIsExact(s: State, cutoff: Time, id: nat)
    ensures var t := AfterPrune(s, cutoff).table;
            && (id in t <==> id in s.table && cutoff <= s.table[id].lastUsed)
            && (id in t ==> t[id] == s.table[id])
  {
    assert id in IdleSince(s.table, cutoff) <==> id in s.table && s.table[id].lastUsed < cutoff;
  }

  /** Making room takes the least recently used cursors, and no more of them than needed. */
  lemma {:induction false} OldestMakeRoom(s: State, need: int, max: int, victims: seq<nat>, end: State)
    requires Chain(s, need, max, victims, end)
    ensures forall j :: j in end.table <==> j in s.table && j !in victims
    ensures forall j :: j in end.table ==> end.table[j] == s.table[j]
    ensures forall v :: v in victims ==> v in s.table
    ensures forall v, j :: v in victims && j in end.table ==> s.table[v].lastUsed <= s.table[j].lastUsed
    ensures victims != [] ==> end.curBytes + s.table[victims[|victims| - 1]].bytes + need > max
    ensures victims == [] ==> end == s
    decreases |victims|
  {
    if victims != [] {
      OldestMakeRoom(Drop(s, victims[0]), need, max, victims[1..], end);
      assert victims == [victims[0]] + victims[1..];
    }
  }

  /** All documents as one string. */
  function Joined(docs: seq<string>): string {
    if docs == [] then "" else docs[0] + Joined(docs[1..])
  }

  lemma {:induction false} JoinedSnoc(docs: seq<string>, d: string)
    ensures |Joined(docs + [d])| == |Joined(docs)| + |d|
  {
    if docs == [] {
      assert (docs + [d])[1..] == [];
    } else {
      assert (docs + [d])[1..] == docs[1..] + [d];
      JoinedSnoc(docs[1..], d);
    }
  }

  lemma {:induction false} BytesAreLengths(docs: seq<string>)
    ensures DocBytes(docs) == |Joined(docs)|
  {
    if docs != [] {
      BytesAreLengths(docs[..|docs| - 1]);
      JoinedSnoc(docs[..|docs| - 1], docs[|docs| - 1]);
      assert docs == docs[..|docs| - 1] + [docs[|docs| - 1]];
    }
  }

  // ---------------------------------------------------------------- who is served, over interleavings

  /** What a call registered. */
  datatype Registration = Registration(scope: Scope, ns: string, docs: seq<string>)

  /** A batch as its caller gets it. */
  datatype Delivery = Delivery(id: int, to: Scope, ns: string, docs: seq<string>, exhausted: bool)

  /** The registration behind each goroutine and behind each cursor, and every batch handed out, in order; all of
      it from the arguments and results of the calls. */
  datatype Audit = Audit(callers: map<nat, Registration>, owners: map<nat, Registration>, deliveries: seq<Delivery>)

  ghost function Audited(y: System, st: Step, a: Audit): Audit
    requires Enabled(y, st)
  {
    match st
    case Start(tid, tenantID, connKey, ns, docs, _) =>
      a.(callers := a.callers[tid := Registration(Scope(tenantID, connKey), ns, docs)])
    case Alloc(tid, _) =>
      if tid !in a.callers then a else
      var r, pos := a.callers[tid], y.pcs[tid].c.pos;
      var first := if 0 <= pos <= |r.docs| then r.docs[..pos] else [];
      Audit(a.callers, a.owners[y.s.nextID + 1 := r],
            a.deliveries + [Delivery(y.s.nextID + 1, r.scope, r.ns, first, false)])
    case Next(id, tenantID, connKey, n, now) =>
      var b := Fetch(y.s, id, tenantID, connKey, n, now).0;
      if !b.ok && b.docs == [] then a
      else a.(deliveries := a.deliveries + [Delivery(id, Scope(tenantID, connKey), b.ns, b.docs, b.exhausted)])
    case _ => a
  }

  ghost predicate AuditedRun(y: System, steps: seq<Step>, max: int, end: System, a: Audit, b: Audit)
    decreases |steps|
  {
    if steps == [] then y == end && a == b
    else Enabled(y, steps[0])
         && AuditedRun(Apply(y, steps[0], max), steps[1..], max, end, Audited(y, steps[0], a), b)
  }

  predicate DraftedBy(r: Registration, c: Cur) {
    r == Registration(ScopeOf(c), c.ns, c.docs) && c.bytes == |Joined(c.docs)|
  }

  predicate OwnedBy(a: Audit, id: int, c: Cur) {
    id in a.owners && DraftedBy(a.owners[id], c)
  }

  ghost predicate PcOk(a: Audit, tid: nat, p: Pc) {
    match p
    case Placed(_, _) => true
    case Named(id, c) => OwnedBy(a, id, c)
    case _ => tid in a.callers && DraftedBy(a.callers[tid], p.c)
  }

  predicate ToOwner(a: Audit, d: Delivery) {
    d.id in a.owners && d.to == a.owners[d.id].scope && d.ns == a.owners[d.id].ns
  }

  ghost predicate Scoped(y: System, a: Audit) {
    && (forall id :: id in y.s.table ==> OwnedBy(a, id, y.s.table[id]))
    && (forall tid :: tid in y.pcs ==> PcOk(a, tid, y.pcs[tid]))
    && (forall id :: id in a.owners ==> id <= y.s.nextID)
    && (forall i | 0 <= i < |a.deliveries| :: ToOwner(a, a.deliveries[i]))
  }

  lemma AllocKeepsScoped(y: System, st: Step, a: Audit, max: int)
    requires Enabled(y, st) && Scoped(y, a) && st.Alloc?
    ensures Scoped(Apply(y, st, max), Audited(y, st, a))
  {
    var z, b := Apply(y, st, max), Audited(y, st, a);
    assert PcOk(a, st.tid, y.pcs[st.tid]);
    forall tid | tid in z.pcs ensures PcOk(b, tid, z.pcs[tid]) {
      assert tid != st.tid ==> PcOk(a, tid, y.pcs[tid]);
    }
  }

  lemma NextKeepsScoped(y: System, st: Step, a: Audit, max: int)
    requires Enabled(y, st) && Scoped(y, a) && st.Next?
    ensures Scoped(Apply(y, st, max), Audited(y, st, a))
  {
    if st.id !in y.s.table || ScopeOf(y.s.table[st.id]) != Scope(st.tenantID, st.connKey) {
      StrangersGetNothing(y.s, st.id, st.tenantID, st.connKey, st.n, st.now);
    } else {
      OwnerIsServed(y.s, st.id, st.n, st.now);
    }
  }

  lemma StepKeepsScoped(y: System, st: Step, a: Audit, max: int)
    requires Enabled(y, st) && Scoped(y, a)
    ensures Scoped(Apply(y, st, max), Audited(y, st, a))
  {
    match st
    case Alloc(_, _) => AllocKeepsScoped(y, st, a, max);
    case Next(_, _, _, _, _) => NextKeepsScoped(y, st, a, max);
    case Start(_, _, _, _, docs, _) => BytesAreLengths(docs);
    case Place(tid) => assert PcOk(a, tid, y.pcs[tid]);
    case _ =>
  }

  // ---------------------------------------------------------------- what is handed out, over interleavings

  /** Everything handed out of a cursor, in order. */
  function Handed(ds: seq<Delivery>, id: nat): seq<string> {
    if ds == [] then [] else
    Handed(ds[..|ds| - 1], id) + if ds[|ds| - 1].id == id then ds[|ds| - 1].docs else []
  }

  /** Some batch of the cursor reported that it was the last. */
  predicate Ended(ds: seq<Delivery>, id: nat) {
    exists i | 0 <= i < |ds| :: ds[i].id == id && ds[i].exhausted
  }

  lemma OneMore(ds: seq<Delivery>, d: Delivery, id: nat)
    ensures Handed(ds + [d], id) == Handed(ds, id) + if d.id == id then d.docs else []
    ensures Ended(ds + [d], id) <==> Ended(ds, id) || (d.id == id && d.exhausted)
  {
    assert (ds + [d])[..|ds|] == ds;
    if Ended(ds, id) {
      var i :| 0 <= i < |ds| && ds[i].id == id && ds[i].exhausted;
      assert (ds + [d])[i] == ds[i];
    }
    assert (ds + [d])[|ds|] == d;
  }

  /** The log of CursorRuns is what the audit says of a cursor. */
  predicate Logged(log: Log, a: Audit, id: nat) {
    && (id in log.given <==> id in a.owners)
    && (id in log.given <==> id in log.docs)
    && (id in log.done <==> Ended(a.deliveries, id))
    && (id in log.given ==> Handed(a.deliveries, id) == log.given[id] && log.docs[id] == a.owners[id].docs)
    && (id !in log.given ==> Handed(a.deliveries, id) == [] && id !in log.done)
  }

  ghost predicate AllLogged(log: Log, a: Audit) {
    forall id :: Logged(log, a, id)
  }

  lemma AllocKeepsLogged(y: System, st: Step, a: Audit, max: int)
    requires Enabled(y, st) && Scoped(y, a) && Delivers(y) && AllLogged(y.log, a) && st.Alloc?
    ensures AllLogged(Apply(y, st, max).log, Audited(y, st, a))
  {
    var z, b := Apply(y, st, max), Audited(y, st, a);
    assert PcOk(a, st.tid, y.pcs[st.tid]) && Partly(y.pcs[st.tid].c);
    forall id: nat ensures Logged(z.log, b, id) {
      assert Logged(y.log, a, id);
      OneMore(a.deliveries, b.deliveries[|a.deliveries|], id);
    }
  }

  lemma NextKeepsLogged(y: System, st: Step, a: Audit, max: int)
    requires Enabled(y, st) && Scoped(y, a) && Delivers(y) && AllLogged(y.log, a) && st.Next?
    ensures AllLogged(Apply(y, st, max).log, Audited(y, st, a))
  {
    if st.id !in y.s.table || ScopeOf(y.s.table[st.id]) != Scope(st.tenantID, st.connKey) {
      StrangersGetNothing(y.s, st.id, st.tenantID, st.connKey, st.n, st.now);
    } else {
      var z, b := Apply(y, st, max), Audited(y, st, a);
      OwnerIsServed(y.s, st.id, st.n, st.now);
      assert Tracks(y.log, st.id, y.s.table[st.id]);
      forall id: nat ensures Logged(z.log, b, id) {
        assert Logged(y.log, a, id);
        OneMore(a.deliveries, b.deliveries[|a.deliveries|], id);
      }
    }
  }

  lemma StepKeepsLogged(y: System, st: Step, a: Audit, max: int)
    requires Enabled(y, st) && Scoped(y, a) && Delivers(y) && AllLogged(y.log, a)
    ensures AllLogged(Apply(y, st, max).log, Audited(y, st, a))
  {
    match st
    case Alloc(_, _) => AllocKeepsLogged(y, st, a, max);
    case Next(_, _, _, _, _) => NextKeepsLogged(y, st, a, max);
    case Start(_, _, _, _, _, _) =>
      forall id: nat ensures Logged(y.log, Audited(y, st, a), id) {
        assert Logged(y.log, a, id);
      }
    case _ =>
  }

  lemma {:induction false} RunsAudited(y: System, steps: seq<Step>, max: int, end: System, a: Audit, b: Audit)
    requires AuditedRun(y, steps, max, end, a, b) && Scoped(y, a) && Delivers(y) && AllLogged(y.log, a)
    ensures Scoped(end, b) && Delivers(end) && AllLogged(end.log, b)
    decreases |steps|
  {
    if steps != [] {
      StepKeepsScoped(y, steps[0], a, max);
      StepDelivers(y, steps[0], max);
      StepKeepsLogged(y, steps[0], a, max);
      RunsAudited(Apply(y, steps[0], max), steps[1..], max, end, Audited(y, steps[0], a), b);
    }
  }

  /** In every interleaving from the empty store: each batch of a cursor went to the tenant and connection whose
      call registered it; its batches in order are a prefix of the documents registered, and all of them exactly
      when one reported that it was the last; and the bytes of a cursor held are the lengths of its documents. */
  lemma DeliveredToTheOwner(steps: seq<Step>, max: int, end: System, a: Audit, id: nat)
    requires AuditedRun(INITIAL, steps, max, end, Audit(map[], map[], []), a) && id in a.owners
    ensures forall i | 0 <= i < |a.deliveries| && a.deliveries[i].id == id ::
              a.deliveries[i].to == a.owners[id].scope && a.deliveries[i].ns == a.owners[id].ns
    ensures Handed(a.deliveries, id) <= a.owners[id].docs
    ensures Handed(a.deliveries, id) == a.owners[id].docs <==> Ended(a.deliveries, id)
    ensures id in end.s.table ==>
              end.s.table[id].bytes == |Joined(a.owners[id].docs)| && !Ended(a.deliveries, id)
  {
    RunsAudited(INITIAL, steps, max, end, Audit(map[], map[], []), a);
    assert Logged(end.log, a, id);
    assert Consistent(end.log, id, end.s.nextID);
    forall i | 0 <= i < |a.deliveries| ensures ToOwner(a, a.deliveries[i]) {
    }
    if id in end.s.table {
      assert OwnedBy(a, id, end.s.table[id]) && Tracks(end.log, id, end.s.table[id]);
    }
  }

  /** Nothing was ever handed out of an id that no call registered. */
  lemma NothingUnregistered(steps: seq<Step>, max: int, end: System, a: Audit, i: nat)
    requires AuditedRun(INITIAL, steps, max, end, Audit(map[], map[], []), a) && i < |a.deliveries|
    ensures a.deliveries[i].id in a.owners
  {
    RunsAudited(INITIAL, steps, max, end, Audit(map[], map[], []), a);
    assert ToOwner(a, a.deliveries[i]);
  }
}
