/** Runs of the emulated cursor store: the byte budget when calls run one at a time, and accounting and
    delivery when they interleave. */
module CursorRuns {
  import opened MapSum
  import opened CachedCursor

  // ---------------------------------------------------------------- calls one at a time

  datatype Call =
    | RegisterCall(tenantID: string, connKey: string, ns: string, docs: seq<string>, n: int, now: Time)
    | NextCall(id: int, tenantID: string, connKey: string, n: int, now: Time)
    | KillCall(id: int, tenantID: string, connKey: string)
    | CleanupCall(connKey: string)
    | PruneCall(cutoff: Time)

  ghost predicate AllSound(t: Table) {
    forall id :: id in t ==> Sound(t[id]) && t[id].bytes >= 0
  }

  /** What Store's methods promise: the state t a call may leave. */
  ghost predicate Performs(s: State, call: Call, max: int, t: State)
    requires AllSound(s.table)
  {
    match call
    case RegisterCall(tenantID, connKey, ns, docs, n, now) =>
      if Size(n) >= |docs| then t == s
      else exists victims, end :: Evicts(s, DocBytes(docs), max, victims, end)
                                  && t == Insert(end, Draft(tenantID, connKey, ns, docs, n, now))
    case NextCall(id, tenantID, connKey, n, now) => t == Fetch(s, id, tenantID, connKey, n, now).1
    case KillCall(id, tenantID, connKey) => t == Killed(s, id, tenantID, connKey)
    case CleanupCall(connKey) => t == DropAll(s, OfConn(s.table, connKey))
    case PruneCall(cutoff) => t == DropAll(s, IdleSince(s.table, cutoff))
  }

  ghost predicate Accounted(s: State) {
    && AllSound(s.table) && s.curBytes == Sum(s.table)
    && forall id :: id in s.table ==> id <= s.nextID
  }

  /** The budget holds, or a single cursor larger than it is alone in the table. */
  predicate InBudget(s: State, max: int) {
    s.curBytes <= max || |s.table| == 1
  }

  lemma DropKeeps(s: State, id: nat, max: int)
    requires Accounted(s) && id in s.table && 0 < max
    ensures Accounted(Drop(s, id))
    ensures InBudget(s, max) ==> InBudget(Drop(s, id), max)
  {
    TotalWithout(s.table, Bytes, id);
    if |s.table| == 1 {
      assert |s.table - {id}| == 0;
      assert s.table - {id} == map[];
    }
  }

  lemma DropAllKeeps(s: State, ids: set<nat>, max: int)
    requires Accounted(s) && 0 < max
    ensures Accounted(DropAll(s, ids))
    ensures InBudget(s, max) ==> InBudget(DropAll(s, ids), max)
  {
    TotalShrinks(s.table, Bytes, ids);
    if |s.table| == 1 {
      OneLeftOrNone(s.table, ids);
    }
  }

  lemma OneLeftOrNone(t: Table, ids: set<nat>)
    requires |t| == 1
    ensures t - ids == t || t - ids == map[]
  {
    var k :| k in t;
    assert |t - {k}| == 0;
    assert t - {k} == map[];
    assert t == map[k := t[k]];
  }

  lemma {:induction false} ChainKeeps(s: State, need: int, max: int, victims: seq<nat>, end: State)
    requires Accounted(s) && Chain(s, need, max, victims, end) && 0 < max
    ensures Accounted(end) && end.nextID == s.nextID
    decreases |victims|
  {
    if victims != [] {
      DropKeeps(s, victims[0], max);
      ChainKeeps(Drop(s, victims[0]), need, max, victims[1..], end);
    }
  }

  lemma InsertKeeps(s: State, c: Cur, max: int)
    requires Accounted(s) && Sound(c) && c.bytes >= 0
    requires s.curBytes + c.bytes <= max || s.table == map[]
    ensures Accounted(Insert(s, c)) && InBudget(Insert(s, c), max)
  {
    TotalWith(s.table, Bytes, s.nextID + 1, c);
    assert s.table == map[] ==> s.table[s.nextID + 1 := c] == map[s.nextID + 1 := c];
  }

  lemma AdvanceKeeps(s: State, id: nat, c: Cur, max: int)
    requires Accounted(s) && id in s.table && Sound(c) && c.bytes == s.table[id].bytes
    ensures Accounted(s.(table := s.table[id := c]))
    ensures InBudget(s, max) ==> InBudget(s.(table := s.table[id := c]), max)
  {
    TotalWith(s.table, Bytes, id, c);
    assert s.table[id := c].Keys == s.table.Keys;
    assert |s.table[id := c].Keys| == |s.table.Keys|;
  }

  /** One call at a time: curBytes is exact, and only a lone cursor may exceed the budget. */
  lemma CallKeepsBudget(s: State, call: Call, max: int, t: State)
    requires Accounted(s) && InBudget(s, max) && 0 < max && Performs(s, call, max, t)
    ensures Accounted(t) && InBudget(t, max)
  {
    match call
    case RegisterCall(tenantID, connKey, ns, docs, n, now) =>
      if Size(n) < |docs| {
        var victims, end :| Evicts(s, DocBytes(docs), max, victims, end)
                            && t == Insert(end, Draft(tenantID, connKey, ns, docs, n, now));
        ChainKeeps(s, DocBytes(docs), max, victims, end);
        InsertKeeps(end, Draft(tenantID, connKey, ns, docs, n, now), max);
      }
    case NextCall(id, tenantID, connKey, n, now) =>
      if Owned(s.table, id, tenantID, connKey) {
        DropKeeps(s, id, max);
        AdvanceKeeps(s, id, Advanced(s.table[id], n, now), max);
      }
    case KillCall(id, tenantID, connKey) =>
      if Owned(s.table, id, tenantID, connKey) {
        DropKeeps(s, id, max);
      }
    case CleanupCall(connKey) => DropAllKeeps(s, OfConn(s.table, connKey), max);
    case PruneCall(cutoff) => DropAllKeeps(s, IdleSince(s.table, cutoff), max);
  }

  /** states is what a run over calls passes through. */
  ghost predicate SequentialRun(calls: seq<Call>, states: seq<State>, max: int) {
    && |states| == |calls| + 1 && states[0] == State(map[], 0, BASE_ID)
    && forall i | 0 <= i < |calls| :: AllSound(states[i].table) && Performs(states[i], calls[i], max, states[i + 1])
  }

  /** In every sequential run, at every point, curBytes is the table's bytes and the budget holds or the table
      holds exactly one cursor. */
  lemma {:induction false} BudgetOverRuns(calls: seq<Call>, states: seq<State>, max: int, i: nat)
    requires SequentialRun(calls, states, max) && 0 < max && i < |states|
    ensures Accounted(states[i]) && InBudget(states[i], max)
    decreases i
  {
    if i != 0 {
      BudgetOverRuns(calls, states, max, i - 1);
      CallKeepsBudget(states[i - 1], calls[i - 1], max, states[i]);
    }
  }

  /** After a connection is cleaned up none of its cursors is left and every other cursor is as it was. */
  lemma CleanupIsExact(s: State, connKey: string)
    ensures var t := DropAll(s, OfConn(s.table, connKey)).table;
            && (forall id :: id in t ==> t[id].connKey != connKey)
            && (forall id :: id in s.table && s.table[id].connKey != connKey ==> id in t && t[id] == s.table[id])
  {
    assert forall id :: id in OfConn(s.table, connKey) <==> id in s.table && s.table[id].connKey == connKey;
  }

  // ---------------------------------------------------------------- interleaved calls

  /** Where a goroutine stands inside Register. */
  datatype Pc =
    | Checking(c: Cur)
    | Due(c: Cur)
    | Ready(c: Cur)
    | Named(id: nat, c: Cur)
    | Placed(id: nat, bytes: int)

  /** Per id ever allocated: all its documents, those delivered so far, and whether delivery was reported
      exhausted. */
  datatype Log = Log(docs: map<nat, seq<string>>, given: map<nat, seq<string>>, done: set<nat>)

  datatype System = System(s: State, pcs: map<nat, Pc>, log: Log)

  datatype Step =
    | Start(tid: nat, tenantID: string, connKey: string, ns: string, docs: seq<string>, n: int)
    | Check(tid: nat)
    | Evict(tid: nat, victim: nat)
    | Alloc(tid: nat, now: Time)
    | Place(tid: nat)
    | Account(tid: nat)
    | Next(id: int, tenantID: string, connKey: string, n: int, now: Time)
    | Kill(id: int, tenantID: string, connKey: string)
    | Cleanup(connKey: string)
    | Prune(cutoff: Time)

  predicate At(y: System, tid: nat) {
    tid in y.pcs
  }

  ghost predicate Enabled(y: System, st: Step) {
    match st
    case Start(tid, _, _, _, docs, n) => tid !in y.pcs && Size(n) < |docs|
    case Check(tid) => At(y, tid) && y.pcs[tid].Checking?
    case Evict(tid, victim) => At(y, tid) && y.pcs[tid].Due? && (y.s.table == map[] || Oldest(y.s.table, victim))
    case Alloc(tid, _) => At(y, tid) && y.pcs[tid].Ready?
    case Place(tid) => At(y, tid) && y.pcs[tid].Named?
    case Account(tid) => At(y, tid) && y.pcs[tid].Placed?
    case Next(id, _, _, _, _) => id in y.s.table ==> Sound(y.s.table[id])
    case _ => true
  }

  function Recorded(log: Log, id: nat, b: Batch): Log
    requires id in log.given
  {
    log.(given := log.given[id := log.given[id] + b.docs], done := if b.exhausted then log.done + {id} else log.done)
  }

  ghost function Apply(y: System, st: Step, max: int): System
    requires Enabled(y, st)
  {
    match st
    case Start(tid, tenantID, connKey, ns, docs, n) =>
      y.(pcs := y.pcs[tid := Checking(Draft(tenantID, connKey, ns, docs, n, 0))])
    case Check(tid) =>
      var c := y.pcs[tid].c;
      y.(pcs := y.pcs[tid := if y.s.curBytes + c.bytes > max then Due(c) else Ready(c)])
    case Evict(tid, victim) =>
      var c := y.pcs[tid].c;
      if y.s.table == map[] then y.(pcs := y.pcs[tid := Ready(c)])
      else y.(s := Drop(y.s, victim), pcs := y.pcs[tid := Checking(c)])
    case Alloc(tid, now) =>
      var c := y.pcs[tid].c.(lastUsed := now);
      var id := y.s.nextID + 1;
      System(y.s.(nextID := id), y.pcs[tid := Named(id, c)],
             y.log.(docs := y.log.docs[id := c.docs],
                    given := y.log.given[id := c.docs[..if 0 <= c.pos <= |c.docs| then c.pos else 0]]))
    case Place(tid) =>
      var p := y.pcs[tid];
      y.(s := y.s.(table := y.s.table[p.id := p.c]), pcs := y.pcs[tid := Placed(p.id, p.c.bytes)])
    case Account(tid) =>
      y.(s := y.s.(curBytes := y.s.curBytes + y.pcs[tid].bytes), pcs := y.pcs - {tid})
    case Next(id, tenantID, connKey, n, now) =>
      var (b, s) := Fetch(y.s, id, tenantID, connKey, n, now);
      y.(s := s, log := if b.ok && id in y.log.given then Recorded(y.log, id, b) else y.log)
    case Kill(id, tenantID, connKey) => y.(s := Killed(y.s, id, tenantID, connKey))
    case Cleanup(connKey) => y.(s := DropAll(y.s, OfConn(y.s.table, connKey)))
    case Prune(cutoff) => y.(s := DropAll(y.s, IdleSince(y.s.table, cutoff)))
  }

  const INITIAL := System(State(map[], 0, BASE_ID), map[], Log(map[], map[], {}))

  ghost predicate Reaches(y: System, steps: seq<Step>, max: int, end: System)
    decreases |steps|
  {
    if steps == [] then y == end
    else Enabled(y, steps[0]) && Reaches(Apply(y, steps[0], max), steps[1..], max, end)
  }

  // ---------------------------------------------------------------- accounting

  function Unaccounted(p: Pc): int {
    if p.Placed? then p.bytes else 0
  }

  /** curBytes and the bytes inserted but not yet added make up the table's bytes. */
  ghost predicate Balanced(y: System) {
    y.s.curBytes + Total(y.pcs, Unaccounted) == Sum(y.s.table)
  }

  lemma Balances(y: System, st: Step, max: int)
    requires Enabled(y, st) && Balanced(y)
    requires st.Place? ==> y.pcs[st.tid].id !in y.s.table
    ensures Balanced(Apply(y, st, max))
  {
    match st
    case Start(tid, _, _, _, _, _) => TotalWith(y.pcs, Unaccounted, tid, Apply(y, st, max).pcs[tid]);
    case Check(tid) => TotalWith(y.pcs, Unaccounted, tid, Apply(y, st, max).pcs[tid]);
    case Evict(tid, victim) =>
      TotalWith(y.pcs, Unaccounted, tid, Apply(y, st, max).pcs[tid]);
      if y.s.table != map[] {
        TotalWithout(y.s.table, Bytes, victim);
      }
    case Alloc(tid, _) => TotalWith(y.pcs, Unaccounted, tid, Apply(y, st, max).pcs[tid]);
    case Place(tid) =>
      TotalWith(y.pcs, Unaccounted, tid, Apply(y, st, max).pcs[tid]);
      TotalWith(y.s.table, Bytes, y.pcs[tid].id, y.pcs[tid].c);
    case Account(tid) => TotalWithout(y.pcs, Unaccounted, tid);
    case Next(id, tenantID, connKey, n, now) =>
      if Owned(y.s.table, id, tenantID, connKey) {
        TotalWithout(y.s.table, Bytes, id);
        TotalWith(y.s.table, Bytes, id, Advanced(y.s.table[id], n, now));
      }
    case Kill(id, tenantID, connKey) =>
      if Owned(y.s.table, id, tenantID, connKey) {
        TotalWithout(y.s.table, Bytes, id);
      }
    case Cleanup(_) =>
    case Prune(_) =>
  }

  // ---------------------------------------------------------------- delivery

  predicate Partly(c: Cur) {
    0 <= c.pos < |c.docs|
  }

  /** The cursor's position is exactly what the log says has been delivered. */
  predicate Tracks(log: Log, id: nat, c: Cur) {
    && Partly(c)
    && id in log.docs && id in log.given && id !in log.done
    && log.docs[id] == c.docs && log.given[id] == c.docs[..c.pos]
  }

  ghost predicate TableTracked(y: System) {
    forall id :: id in y.s.table ==> Tracks(y.log, id, y.s.table[id])
  }

  ghost predicate NamedTracked(y: System) {
    forall tid :: At(y, tid) && y.pcs[tid].Named? ==>
                    y.pcs[tid].id !in y.s.table && Tracks(y.log, y.pcs[tid].id, y.pcs[tid].c)
  }

  ghost predicate NamesApart(y: System) {
    forall i, j | At(y, i) && At(y, j) && y.pcs[i].Named? && y.pcs[j].Named? && y.pcs[i].id == y.pcs[j].id :: i == j
  }

  ghost predicate DraftsPartly(y: System) {
    forall tid | At(y, tid) && (y.pcs[tid].Checking? || y.pcs[tid].Due? || y.pcs[tid].Ready?) :: Partly(y.pcs[tid].c)
  }

  predicate Consistent(log: Log, id: nat, nextID: nat) {
    && BASE_ID < id <= nextID && id in log.docs && id in log.given
    && log.given[id] <= log.docs[id]
    && (id in log.done <==> log.given[id] == log.docs[id])
  }

  /** What has been delivered of any cursor is a prefix of its documents, and all of them exactly when delivery
      was reported exhausted. */
  ghost predicate LogOk(log: Log, nextID: nat) {
    && nextID >= BASE_ID
    && (forall id :: id in log.docs || id in log.given || id in log.done ==> Consistent(log, id, nextID))
  }

  ghost predicate Delivers(y: System) {
    && LogOk(y.log, y.s.nextID)
    && TableTracked(y) && NamedTracked(y) && NamesApart(y) && DraftsPartly(y)
  }

  /** A batch for a tracked cursor is not empty and extends what was delivered. */
  lemma BatchExtends(y: System, st: Step, max: int)
    requires Enabled(y, st) && Delivers(y) && st.Next? && Owned(y.s.table, st.id, st.tenantID, st.connKey)
    ensures var b := Fetch(y.s, st.id, st.tenantID, st.connKey, st.n, st.now).0;
            && b.ok && b.docs != [] && st.id in y.log.given
            && y.log.given[st.id] + b.docs == y.s.table[st.id].docs[..Advanced(y.s.table[st.id], st.n, st.now).pos]
            && (b.exhausted <==> y.log.given[st.id] + b.docs == y.log.docs[st.id])
  {
    var c := y.s.table[st.id];
    assert Tracks(y.log, st.id, c);
    var d := Advanced(c, st.n, st.now);
    assert c.docs[..c.pos] + c.docs[c.pos..d.pos] == c.docs[..d.pos];
    if d.pos < |c.docs| {
      assert |c.docs[..d.pos]| < |c.docs|;
    } else {
      assert c.docs[..d.pos] == c.docs;
    }
  }

  lemma RecordKeeps(log: Log, nextID: nat, id: nat, b: Batch)
    requires LogOk(log, nextID) && id in log.given && log.given[id] + b.docs <= log.docs[id]
    requires b.exhausted <==> log.given[id] + b.docs == log.docs[id]
    requires id !in log.done
    ensures LogOk(Recorded(log, id, b), nextID)
    ensures forall j: nat, c :: Tracks(log, j, c) && j != id ==> Tracks(Recorded(log, id, b), j, c)
  {
    var l := Recorded(log, id, b);
    forall j | j in l.docs || j in l.given || j in l.done ensures Consistent(l, j, nextID) {
      assert Consistent(log, j, nextID);
    }
  }

  lemma NextKeeps(y: System, st: Step, max: int)
    requires Enabled(y, st) && Delivers(y) && st.Next?
    ensures Delivers(Apply(y, st, max))
  {
    if Owned(y.s.table, st.id, st.tenantID, st.connKey) {
      BatchExtends(y, st, max);
      var c := y.s.table[st.id];
      assert Tracks(y.log, st.id, c);
      assert Consistent(y.log, st.id, y.s.nextID);
      RecordKeeps(y.log, y.s.nextID, st.id, Fetch(y.s, st.id, st.tenantID, st.connKey, st.n, st.now).0);
    }
  }

  function Opened(log: Log, id: nat, c: Cur): Log
    requires Partly(c)
  {
    log.(docs := log.docs[id := c.docs], given := log.given[id := c.docs[..c.pos]])
  }

  lemma OpenKeeps(log: Log, nextID: nat, c: Cur)
    requires LogOk(log, nextID) && Partly(c)
    ensures LogOk(Opened(log, nextID + 1, c), nextID + 1) && Tracks(Opened(log, nextID + 1, c), nextID + 1, c)
    ensures forall id: nat, d :: Tracks(log, id, d) ==> id <= nextID && Tracks(Opened(log, nextID + 1, c), id, d)
  {
    var l := Opened(log, nextID + 1, c);
    assert |c.docs[..c.pos]| < |c.docs|;
    forall id | id in l.docs || id in l.given || id in l.done ensures Consistent(l, id, nextID + 1) {
      if id != nextID + 1 || id in log.done {
        assert Consistent(log, id, nextID);
      }
    }
    forall id: nat, d | Tracks(log, id, d) ensures id <= nextID {
      assert Consistent(log, id, nextID);
    }
  }

  lemma AllocKeeps(y: System, st: Step, max: int)
    requires Enabled(y, st) && Delivers(y) && st.Alloc?
    ensures Delivers(Apply(y, st, max))
  {
    var c := y.pcs[st.tid].c.(lastUsed := st.now);
    assert Partly(y.pcs[st.tid].c);
    OpenKeeps(y.log, y.s.nextID, c);
    assert Apply(y, st, max).log == Opened(y.log, y.s.nextID + 1, c);
  }

  lemma PlaceKeeps(y: System, st: Step, max: int)
    requires Enabled(y, st) && Delivers(y) && st.Place?
    ensures Delivers(Apply(y, st, max)) && y.pcs[st.tid].id !in y.s.table
  {
    var z := Apply(y, st, max);
    assert Tracks(y.log, y.pcs[st.tid].id, y.pcs[st.tid].c);
    forall tid | At(z, tid) && z.pcs[tid].Named? ensures z.pcs[tid].id != y.pcs[st.tid].id {
    }
  }

  lemma StepDelivers(y: System, st: Step, max: int)
    requires Enabled(y, st) && Delivers(y)
    ensures Delivers(Apply(y, st, max))
  {
    match st
    case Next(_, _, _, _, _) => NextKeeps(y, st, max);
    case Alloc(_, _) => AllocKeeps(y, st, max);
    case Place(_) => PlaceKeeps(y, st, max);
    case _ =>
  }

  /** In every interleaving of registrations, batches, kills, cleanups, prunings and evictions, accounting
      balances and delivery is a prefix with no gap or repeat. */
  lemma {:induction false} RunsBalanceAndDeliver(y: System, steps: seq<Step>, max: int, end: System)
    requires Reaches(y, steps, max, end) && Balanced(y) && Delivers(y)
    ensures Balanced(end) && Delivers(end)
    decreases |steps|
  {
    if steps != [] {
      if steps[0].Place? {
        PlaceKeeps(y, steps[0], max);
      }
      Balances(y, steps[0], max);
      StepDelivers(y, steps[0], max);
      RunsBalanceAndDeliver(Apply(y, steps[0], max), steps[1..], max, end);
    }
  }

  /** From an empty store, for every cursor ever registered: the first batch and the batches after it are a
      prefix of its documents, and all of them exactly when exhaustion was reported. */
  lemma PaginationIsExact(steps: seq<Step>, max: int, end: System, id: nat)
    requires Reaches(INITIAL, steps, max, end) && id in end.log.docs
    ensures id in end.log.given && end.log.given[id] <= end.log.docs[id]
    ensures id in end.log.done <==> end.log.given[id] == end.log.docs[id]
    ensures end.s.curBytes + Total(end.pcs, Unaccounted) == Sum(end.s.table)
    ensures id in end.s.table ==> Tracks(end.log, id, end.s.table[id])
  {
    RunsBalanceAndDeliver(INITIAL, steps, max, end);
    assert Consistent(end.log, id, end.s.nextID);
  }
}
