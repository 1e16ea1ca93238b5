/** Runs over the backend cursor registry: what clients are sent, which registry a getMore reaches, and that
    every cursor is closed once. */
module RegistryRuns {
  import opened CursorRegistry
  import CachedCursor
  import CursorRuns

  // ---------------------------------------------------------------- one client draining one cursor

  /** The replies to getMores of the given sizes, up to the first that does not keep the cursor open. */
  function Replies(s: State, id: nat, tenantID: string, connKey: string, sizes: seq<int>, now: Time): seq<Reply>
    decreases |sizes|
  {
    if sizes == [] then []
    else
      var (r, t) := GetMore(s, id, tenantID, connKey, sizes[0], now);
      [r] + if r.Batch? && r.id != 0 then Replies(t, id, tenantID, connKey, sizes[1..], now) else []
  }

  /** The documents of the replies, in order. */
  function Docs(rs: seq<Reply>): seq<string> {
    if rs == [] then [] else (if rs[0].Batch? then rs[0].docs else []) + Docs(rs[1..])
  }

  /** Every reply but the last keeps the id, and the last ends the cursor with id 0. */
  predicate EndsOnce(rs: seq<Reply>, id: nat)
    decreases |rs|
  {
    && rs != [] && rs[0].Batch?
    && if rs[0].id == 0 then |rs| == 1 else rs[0].id == id && EndsOnce(rs[1..], id)
  }

  /** Every reply keeps the id. */
  predicate StaysOpen(rs: seq<Reply>, id: nat) {
    forall i | 0 <= i < |rs| :: rs[i].Batch? && rs[i].id == id
  }

  /** What the replies are worth when rest was left before them. */
  predicate Delivers(rs: seq<Reply>, id: nat, rest: seq<string>, asked: nat) {
    && (EndsOnce(rs, id) ==> Docs(rs) == rest)
    && (!EndsOnce(rs, id) ==> StaysOpen(rs, id) && Docs(rs) <= rest && |rs| == asked)
    && (asked > |rest| ==> EndsOnce(rs, id))
  }

  lemma DeliversMore(r: Reply, rs: seq<Reply>, id: nat, docs: seq<string>, rest: seq<string>, asked: nat)
    requires r.Batch? && r.id == id && id != 0 && r.docs == docs && docs != [] && Delivers(rs, id, rest, asked)
    ensures Delivers([r] + rs, id, docs + rest, asked + 1)
  {
    var all := [r] + rs;
    assert all[1..] == rs;
    assert Docs(all) == docs + Docs(rs);
    assert EndsOnce(all, id) <==> EndsOnce(rs, id);
  }

  /** Whatever the sizes: the replies deliver what is left with no gap or repeat, a prefix while the cursor
      stays open and all of it exactly when it ends; and enough getMores end it. */
  lemma {:induction false} RepliesDeliver(s: State, id: nat, tenantID: string, connKey: string, sizes: seq<int>,
                                          now: Time)
    requires Owned(s.table, id, tenantID, connKey) && !s.table[id].broken && id != 0
    ensures Delivers(Replies(s, id, tenantID, connKey, sizes, now), id, s.table[id].rest, |sizes|)
    decreases |sizes|
  {
    if sizes != [] {
      var rest := s.table[id].rest;
      var n := Size(sizes[0]);
      var (r, t) := GetMore(s, id, tenantID, connKey, sizes[0], now);
      if |rest| < n {
        var rs := [r] + [];
        assert rs == [r] && rs[1..] == [];
        assert Docs(rs) == rest;
      } else {
        RepliesDeliver(t, id, tenantID, connKey, sizes[1..], now);
        DeliversMore(r, Replies(t, id, tenantID, connKey, sizes[1..], now), id, rest[..n], rest[n..], |sizes| - 1);
        assert rest == rest[..n] + rest[n..];
      }
    }
  }

  /** The first batch and the replies make up all exactly when the cursor has ended, and are a prefix before. */
  predicate Streams(first: seq<string>, rs: seq<Reply>, id: nat, all: seq<string>, asked: nat) {
    && (EndsOnce(rs, id) ==> first + Docs(rs) == all)
    && (!EndsOnce(rs, id) ==> StaysOpen(rs, id) && first + Docs(rs) <= all)
    && (asked > |all| - |first| ==> EndsOnce(rs, id))
  }

  lemma DeliversStreams(first: seq<string>, rs: seq<Reply>, id: nat, rest: seq<string>, asked: nat)
    requires Delivers(rs, id, rest, asked)
    ensures Streams(first, rs, id, first + rest, asked)
  {
  }

  /** A find that is not singleBatch keeps its cursor exactly when the first batch is full. */
  lemma FirstBatchKeeps(s: State, tenantID: string, connKey: string, ns: string, all: seq<string>, batchSize: int,
                        now: Time)
    ensures var (r, t) := FirstBatch(s, tenantID, connKey, ns, all, false, batchSize, false, now);
            && r.Batch?
            && (r.id == 0 ==> r.docs == all && t == s && |all| < Size(batchSize))
            && (r.id != 0 ==>
                  && Owned(t.table, r.id, tenantID, connKey) && !t.table[r.id].broken
                  && |r.docs| == Size(batchSize) && r.docs + t.table[r.id].rest == all)
  {
    var n := Size(batchSize);
    if n <= |all| {
      assert all[..n] + all[n..] == all;
    }
  }

  /** The first batch of a find and the getMores after it, of any sizes, on an iterator that does not fail:
      they concatenate to the iterator's whole output exactly when id 0 is returned, which happens once, at the
      end, and within one getMore more than there are documents left. */
  lemma StreamIsExact(s: State, tenantID: string, connKey: string, ns: string, all: seq<string>, batchSize: int,
                      sizes: seq<int>, now: Time)
    ensures var (r, t) := FirstBatch(s, tenantID, connKey, ns, all, false, batchSize, false, now);
            && r.Batch?
            && (r.id == 0 ==> r.docs == all)
            && (r.id != 0 ==> Streams(r.docs, Replies(t, r.id, tenantID, connKey, sizes, now), r.id, all, |sizes|))
  {
    FirstBatchKeeps(s, tenantID, connKey, ns, all, batchSize, now);
    var (r, t) := FirstBatch(s, tenantID, connKey, ns, all, false, batchSize, false, now);
    if r.id != 0 {
      RepliesStream(t, r.id, tenantID, connKey, sizes, now, r.docs, all);
    }
  }

  lemma RepliesStream(s: State, id: nat, tenantID: string, connKey: string, sizes: seq<int>, now: Time,
                      first: seq<string>, all: seq<string>)
    requires id != 0 && Owned(s.table, id, tenantID, connKey) && !s.table[id].broken
    requires first + s.table[id].rest == all
    ensures Streams(first, Replies(s, id, tenantID, connKey, sizes, now), id, all, |sizes|)
  {
    RepliesDeliver(s, id, tenantID, connKey, sizes, now);
    DeliversStreams(first, Replies(s, id, tenantID, connKey, sizes, now), id, s.table[id].rest, |sizes|);
  }

  // ---------------------------------------------------------------- many clients, many cursors

  /** Per registered cursor: what its iterator had to yield, what has been delivered, whether id 0 was returned
      for it, and whether it was given up by a kill, a cleanup, a pruning or a failure. */
  datatype Log = Log(docs: map<nat, seq<string>>, given: map<nat, seq<string>>, done: set<nat>, lost: set<nat>)

  datatype Request =
    | Find(tenantID: string, connKey: string, ns: string, all: seq<string>, broken: bool, n: int, single: bool,
           now: Time)
    | More(id: int, tenantID: string, connKey: string, n: int, now: Time)
    | Kill(id: int, tenantID: string, connKey: string)
    | Disconnect(connKey: string)
    | PruneAll(cutoff: Time)

  /** The log after a getMore on one of its cursors has been answered. */
  function Noted(log: Log, id: nat, r: Reply): Log
    requires id in log.given
  {
    match r
    case Batch(outID, _, docs) =>
      log.(given := log.given[id := log.given[id] + docs], done := if outID == 0 then log.done + {id} else log.done)
    case CursorNotFound => log
    case BackendFailed => log.(lost := log.lost + {id})
  }

  function Opened(log: Log, id: nat, all: seq<string>, first: seq<string>): Log {
    log.(docs := log.docs[id := all], given := log.given[id := first])
  }

  function Lost(log: Log, ids: set<nat>): Log {
    log.(lost := log.lost + ids)
  }

  function Serve(s: State, log: Log, q: Request): (State, Log) {
    match q
    case Find(tenantID, connKey, ns, all, broken, n, single, now) =>
      var (r, t) := FirstBatch(s, tenantID, connKey, ns, all, broken, n, single, now);
      (t, if r.Batch? && r.id != 0 then Opened(log, r.id, all, r.docs) else log)
    case More(id, tenantID, connKey, n, now) =>
      var (r, t) := GetMore(s, id, tenantID, connKey, n, now);
      (t, if Owned(s.table, id, tenantID, connKey) && id in log.given then Noted(log, id, r) else log)
    case Kill(id, tenantID, connKey) =>
      if Owned(s.table, id, tenantID, connKey) then (s.(table := s.table - {id}), Lost(log, {id})) else (s, log)
    case Disconnect(connKey) => (s.(table := s.table - OfConn(s.table, connKey)), Lost(log, OfConn(s.table, connKey)))
    case PruneAll(cutoff) => (s.(table := s.table - IdleSince(s.table, cutoff)), Lost(log, IdleSince(s.table, cutoff)))
  }

  function ServeAll(s: State, log: Log, qs: seq<Request>): (State, Log)
    decreases |qs|
  {
    if qs == [] then (s, log)
    else
      var (t, l) := Serve(s, log, qs[0]);
      ServeAll(t, l, qs[1..])
  }

  const NO_LOG := Log(map[], map[], {}, {})

  /** What was delivered and what is left make up the documents. */
  predicate Tracks(log: Log, id: nat, c: Cur) {
    && id in log.docs && id in log.given && id !in log.done && id !in log.lost
    && log.given[id] + c.rest == log.docs[id]
  }

  /** A cursor that has left the table was ended or lost, not both; if ended, all of it was delivered. */
  predicate Settled(log: Log, id: nat, open: bool) {
    && id in log.docs && id in log.given && log.given[id] <= log.docs[id]
    && (id in log.done ==> log.given[id] == log.docs[id])
    && (if open then id !in log.done && id !in log.lost else (id in log.done <==> id !in log.lost))
  }

  ghost predicate LogOk(s: State, log: Log) {
    && (forall id :: id in s.table ==> Tracks(log, id, s.table[id]))
    && (forall id :: id in log.docs || id in log.given || id in log.done || id in log.lost ==>
                       id <= s.nextID && Settled(log, id, id in s.table))
  }

  lemma FindKeepsLog(s: State, log: Log, q: Request)
    requires LogOk(s, log) && q.Find?
    ensures var (t, l) := Serve(s, log, q); LogOk(t, l)
  {
    var n := Size(q.n);
    if n <= |q.all| {
      assert q.all[..n] + q.all[n..] == q.all;
    }
    assert s.nextID + 1 !in log.docs && s.nextID + 1 !in log.done && s.nextID + 1 !in log.lost;
  }

  /** A reply takes from what is left exactly what it delivers. */
  lemma MoreTakes(s: State, q: Request)
    requires q.More? && Owned(s.table, q.id, q.tenantID, q.connKey) && q.id != 0
    ensures var (r, t) := GetMore(s, q.id, q.tenantID, q.connKey, q.n, q.now);
            && !r.CursorNotFound?
            && (q.id in t.table <==> r.Batch? && r.id != 0)
            && (r.Batch? ==> r.docs + (if q.id in t.table then t.table[q.id].rest else []) == s.table[q.id].rest)
  {
    var n, rest := Size(q.n), s.table[q.id].rest;
    if n <= |rest| {
      assert rest[..n] + rest[n..] == rest;
    } else {
      assert rest + [] == rest;
    }
  }

  lemma NotedKeeps(log: Log, id: nat, r: Reply, rest: seq<string>, left: seq<string>)
    requires id in log.docs && id in log.given && id !in log.done && id !in log.lost
    requires log.given[id] + rest == log.docs[id] && !r.CursorNotFound?
    requires r.Batch? ==> r.docs + left == rest && (r.id == 0 ==> left == [])
    ensures var l := Noted(log, id, r);
            && (r.Batch? ==> l.given[id] + left == l.docs[id])
            && Settled(l, id, r.Batch? && r.id != 0)
            && forall i: nat, open: bool :: i != id && Settled(log, i, open) ==> Settled(l, i, open)
  {
    if r.Batch? {
      assert (log.given[id] + r.docs) + left == log.docs[id];
    }
  }

  lemma MoreKeepsLog(s: State, log: Log, q: Request)
    requires LogOk(s, log) && q.More? && 0 !in s.table
    ensures var (t, l) := Serve(s, log, q); LogOk(t, l)
  {
    if Owned(s.table, q.id, q.tenantID, q.connKey) {
      var (r, t) := GetMore(s, q.id, q.tenantID, q.connKey, q.n, q.now);
      assert Tracks(log, q.id, s.table[q.id]);
      MoreTakes(s, q);
      NotedKeeps(log, q.id, r, s.table[q.id].rest, if q.id in t.table then t.table[q.id].rest else []);
    }
  }

  lemma LostKeepsLog(s: State, log: Log, ids: set<nat>)
    requires LogOk(s, log) && ids <= s.table.Keys
    ensures LogOk(s.(table := s.table - ids), Lost(log, ids))
  {
    var l := Lost(log, ids);
    forall id | id in l.docs || id in l.given || id in l.done || id in l.lost
      ensures id <= s.nextID && Settled(l, id, id in s.table - ids)
    {
      if id in ids {
        assert Tracks(log, id, s.table[id]);
      }
      assert Settled(log, id, id in s.table);
    }
  }

  lemma ServeKeepsLog(s: State, log: Log, q: Request)
    requires LogOk(s, log) && 0 !in s.table
    ensures var (t, l) := Serve(s, log, q); LogOk(t, l) && 0 !in t.table
  {
    match q
    case Find(_, _, _, _, _, _, _, _) => FindKeepsLog(s, log, q);
    case More(_, _, _, _, _) => MoreKeepsLog(s, log, q);
    case Kill(id, tenantID, connKey) =>
      if Owned(s.table, id, tenantID, connKey) {
        LostKeepsLog(s, log, {id});
      }
    case Disconnect(connKey) => LostKeepsLog(s, log, OfConn(s.table, connKey));
    case PruneAll(cutoff) => LostKeepsLog(s, log, IdleSince(s.table, cutoff));
  }

  lemma {:induction false} ServeAllKeepsLog(s: State, log: Log, qs: seq<Request>)
    requires LogOk(s, log) && 0 !in s.table
    ensures var (t, l) := ServeAll(s, log, qs); LogOk(t, l)
    decreases |qs|
  {
    if qs != [] {
      ServeKeepsLog(s, log, qs[0]);
      var (t, l) := Serve(s, log, qs[0]);
      ServeAllKeepsLog(t, l, qs[1..]);
    }
  }

  /** Over every run of finds, getMores, kills, disconnects and prunings, of any number of clients and cursors:
      what was delivered of a cursor is a prefix of its iterator's output, and all of it once id 0 has been
      returned; and each cursor is open, ended or lost, exactly one of these. */
  lemma DeliveryOverRuns(qs: seq<Request>, id: nat)
    ensures var (s, log) := ServeAll(State(map[], FIRST_ID), NO_LOG, qs);
            id in log.docs ==>
              && id in log.given && log.given[id] <= log.docs[id]
              && (id in log.done ==> log.given[id] == log.docs[id])
              && (id in s.table ==> log.given[id] + s.table[id].rest == log.docs[id])
              && (id in s.table ==> id !in log.done && id !in log.lost)
              && (id !in s.table ==> (id in log.done <==> id !in log.lost))
  {
    ServeAllKeepsLog(State(map[], FIRST_ID), NO_LOG, qs);
    var (s, log) := ServeAll(State(map[], FIRST_ID), NO_LOG, qs);
    if id in s.table {
      assert Tracks(log, id, s.table[id]);
    }
  }

  // ---------------------------------------------------------------- two registries, one id space

  const EMPTY := State(map[], FIRST_ID)

  function Finds(qs: seq<Request>): nat {
    if qs == [] then 0 else Finds(qs[1..]) + if qs[0].Find? then 1 else 0
  }

  /** The registry after a run of requests. */
  function Served(qs: seq<Request>): State {
    ServeAll(EMPTY, NO_LOG, qs).0
  }

  /** The registrations of a run; ids are never used twice. */
  function Registrations(qs: seq<Request>): int {
    Served(qs).nextID - FIRST_ID
  }

  ghost predicate IdsIssued(s: State) {
    s.nextID >= FIRST_ID && forall id :: id in s.table ==> FIRST_ID < id <= s.nextID
  }

  lemma ServeIssues(s: State, log: Log, q: Request)
    requires IdsIssued(s)
    ensures IdsIssued(Serve(s, log, q).0)
    ensures s.nextID <= Serve(s, log, q).0.nextID <= s.nextID + if q.Find? then 1 else 0
  {
  }

  lemma {:induction false} ServeAllIssues(s: State, log: Log, qs: seq<Request>)
    requires IdsIssued(s)
    ensures IdsIssued(ServeAll(s, log, qs).0)
    ensures s.nextID <= ServeAll(s, log, qs).0.nextID <= s.nextID + Finds(qs)
    decreases |qs|
  {
    if qs != [] {
      ServeIssues(s, log, qs[0]);
      var (t, l) := Serve(s, log, qs[0]);
      ServeAllIssues(t, l, qs[1..]);
    }
  }

  /** The emulated cursors of every interleaving have ids above BASE_ID. */
  lemma EmulatedIds(steps: seq<CursorRuns.Step>, max: int, end: CursorRuns.System)
    requires CursorRuns.Reaches(CursorRuns.INITIAL, steps, max, end)
    ensures forall id :: id in end.s.table ==> CachedCursor.BASE_ID < id && CachedCursor.Sound(end.s.table[id])
  {
    CursorRuns.RunsBalanceAndDeliver(CursorRuns.INITIAL, steps, max, end);
    forall id | id in end.s.table ensures CachedCursor.BASE_ID < id && CachedCursor.Sound(end.s.table[id]) {
      assert CursorRuns.Tracks(end.log, id, end.s.table[id]);
      assert CursorRuns.Consistent(end.log, id, end.s.nextID);
    }
  }

  ghost predicate AllSound(k: CachedCursor.State) {
    forall id :: id in k.table ==> CachedCursor.Sound(k.table[id])
  }

  /** getMore asks the emulated cursors first: whether they answered, and both stores afterwards. */
  ghost function Route(k: CachedCursor.State, s: State, id: int, tenantID: string, connKey: string, n: int, now: Time)
    : (bool, CachedCursor.State, State)
    requires AllSound(k)
  {
    var (b, l) := CachedCursor.Fetch(k, id, tenantID, connKey, n, now);
    if b.ok then (true, l, s) else (false, k, GetMore(s, id, tenantID, connKey, n, now).1)
  }

  /** A getMore on a backend cursor is served by the registry, and one on an emulated cursor leaves it alone. */
  ghost predicate RoutesRight(k: CachedCursor.State, s: State) {
    && AllSound(k)
    && forall id: int, tenantID, connKey, n, now ::
         && (id in s.table ==> Route(k, s, id, tenantID, connKey, n, now) ==
                               (false, k, GetMore(s, id, tenantID, connKey, n, now).1))
         && (id in k.table ==> Route(k, s, id, tenantID, connKey, n, now).2 == s)
  }

  /** After every run of requests with fewer than 10^9 registrations (a find makes at most one), beside every
      interleaving of the emulated cursors, getMore reaches the right one. */
  lemma RoutesApart(qs: seq<Request>, steps: seq<CursorRuns.Step>, max: int, end: CursorRuns.System)
    requires Registrations(qs) < 1_000_000_000 && CursorRuns.Reaches(CursorRuns.INITIAL, steps, max, end)
    ensures RoutesRight(end.s, Served(qs)) && Registrations(qs) <= Finds(qs)
  {
    ServeAllIssues(EMPTY, NO_LOG, qs);
    EmulatedIds(steps, max, end);
  }

  /** No run with r registrations, beside any interleaving of the emulated cursors, has an id in both. */
  ghost predicate NeverMeet(r: nat) {
    forall qs, steps, max, end, id |
      Registrations(qs) == r && CursorRuns.Reaches(CursorRuns.INITIAL, steps, max, end) && id in end.s.table ::
      id !in Served(qs).table
  }

  /** r finds that each leave a cursor open. */
  function OpenMany(r: nat): seq<Request> {
    if r == 0 then [] else [Find("", "", "", ["d"], false, 1, false, 0)] + OpenMany(r - 1)
  }

  lemma {:induction false} OpenManyRegisters(s: State, log: Log, r: nat)
    ensures var t := ServeAll(s, log, OpenMany(r)).0;
            && t.nextID == s.nextID + r
            && (forall id :: id in s.table || s.nextID < id <= t.nextID ==> id in t.table)
    decreases r
  {
    if r != 0 {
      var q := OpenMany(r)[0];
      assert OpenMany(r)[1..] == OpenMany(r - 1);
      var (t, l) := Serve(s, log, q);
      OpenManyRegisters(t, l, r - 1);
    }
  }

  /** One emulated cursor of two documents. */
  lemma OneEmulated() returns (steps: seq<CursorRuns.Step>, end: CursorRuns.System)
    ensures CursorRuns.Reaches(CursorRuns.INITIAL, steps, 1, end)
    ensures CachedCursor.BASE_ID + 1 in end.s.table
  {
    var a := CursorRuns.Start(0, "", "", "", ["", ""], 1);
    var b, c, d := CursorRuns.Check(0), CursorRuns.Alloc(0, 0), CursorRuns.Place(0);
    var v := CursorRuns.Apply(CursorRuns.INITIAL, a, 1);
    var w := CursorRuns.Apply(v, b, 1);
    assert CachedCursor.DocBytes(["", ""]) == 0 by {
      assert ["", ""][..1] == [""] && [""][..0] == [];
    }
    var x := CursorRuns.Apply(w, c, 1);
    end := CursorRuns.Apply(x, d, 1);
    steps := [a, b, c, d];
    assert steps[1..] == [b, c, d] && steps[1..][1..] == [c, d] && steps[1..][1..][1..] == [d];
    assert CursorRuns.Reaches(x, [d], 1, end);
    assert CursorRuns.Reaches(w, [c, d], 1, end);
    assert CursorRuns.Reaches(v, [b, c, d], 1, end);
  }

  /** The two id ranges stay disjoint exactly below 10^9 registrations. */
  lemma NeverMeetExactlyBelow(r: nat)
    ensures NeverMeet(r) <==> r < 1_000_000_000
  {
    if r < 1_000_000_000 {
      forall qs, steps, max, end, id |
        Registrations(qs) == r && CursorRuns.Reaches(CursorRuns.INITIAL, steps, max, end) && id in end.s.table
        ensures id !in Served(qs).table
      {
        ServeAllIssues(EMPTY, NO_LOG, qs);
        EmulatedIds(steps, max, end);
      }
    } else {
      OpenManyRegisters(EMPTY, NO_LOG, r);
      var steps, end := OneEmulated();
      assert Registrations(OpenMany(r)) == r;
      assert CachedCursor.BASE_ID + 1 in Served(OpenMany(r)).table;
    }
  }

  // ---------------------------------------------------------------- every cursor is closed once

  /** A goroutine between taking an id and inserting the cursor, or one with cursors left to close. */
  datatype Pc = Inserting(id: nat, c: Cur) | Closing(ids: set<nat>)

  datatype Place = Coming(tid: nat) | InTable | Taken(tid: nat) | Shut

  /** closes counts the Close calls per cursor; home records each cursor's place. */
  datatype System = System(table: Table, nextID: nat, pcs: map<nat, Pc>, closes: map<nat, nat>, home: map<nat, Place>)

  const INITIAL := System(map[], FIRST_ID, map[], map[], map[])

  datatype Step =
    | Alloc(tid: nat, c: Cur)
    | Insert(tid: nat)
    | Touch(id: nat, c: Cur)
    | Remove(tid: nat, id: nat, tenantID: string, connKey: string)
    | Cleanup(tid: nat, connKey: string)
    | Prune(tid: nat, cutoff: Time)
    | CloseOne(tid: nat, id: nat)
    | Done(tid: nat)

  predicate Enabled(y: System, st: Step) {
    match st
    case Alloc(tid, _) => tid !in y.pcs
    case Insert(tid) => tid in y.pcs && y.pcs[tid].Inserting?
    case Touch(id, c) => id in y.table && c.owner == y.table[id].owner
    case Remove(tid, _, _, _) => tid !in y.pcs
    case Cleanup(tid, _) => tid !in y.pcs
    case Prune(tid, _) => tid !in y.pcs
    case CloseOne(tid, id) => tid in y.pcs && y.pcs[tid].Closing? && id in y.pcs[tid].ids
    case Done(tid) => tid in y.pcs && y.pcs[tid] == Closing({})
  }

  function Closes(closes: map<nat, nat>, id: nat): nat {
    if id in closes then closes[id] else 0
  }

  /** A remover takes cursors out of the table, to close them after it has let go of the lock. */
  function Take(y: System, tid: nat, ids: set<nat>): System {
    y.(table := y.table - ids, pcs := y.pcs[tid := Closing(ids)],
       home := map i | i in y.home :: if i in ids then Taken(tid) else y.home[i])
  }

  function Apply(y: System, st: Step): System
    requires Enabled(y, st)
  {
    match st
    case Alloc(tid, c) =>
      y.(nextID := y.nextID + 1, pcs := y.pcs[tid := Inserting(y.nextID + 1, c)],
         home := y.home[y.nextID + 1 := Coming(tid)])
    case Insert(tid) =>
      var p := y.pcs[tid];
      y.(table := y.table[p.id := p.c], pcs := y.pcs - {tid}, home := y.home[p.id := InTable])
    case Touch(id, c) => y.(table := y.table[id := c])
    case Remove(tid, id, tenantID, connKey) =>
      if Owned(y.table, id, tenantID, connKey) then Take(y, tid, {id}) else y
    case Cleanup(tid, connKey) => Take(y, tid, OfConn(y.table, connKey))
    case Prune(tid, cutoff) => Take(y, tid, IdleSince(y.table, cutoff))
    case CloseOne(tid, id) =>
      y.(pcs := y.pcs[tid := Closing(y.pcs[tid].ids - {id})], closes := y.closes[id := Closes(y.closes, id) + 1],
         home := y.home[id := Shut])
    case Done(tid) => y.(pcs := y.pcs - {tid})
  }

  ghost predicate Reaches(y: System, steps: seq<Step>, end: System)
    decreases |steps|
  {
    if steps == [] then y == end else Enabled(y, steps[0]) && Reaches(Apply(y, steps[0]), steps[1..], end)
  }

  predicate At(home: map<nat, Place>, id: nat, p: Place) {
    id in home && home[id] == p
  }

  predicate InsertedBy(pcs: map<nat, Pc>, tid: nat, id: nat) {
    tid in pcs && pcs[tid].Inserting? && pcs[tid].id == id
  }

  predicate ClosedBy(pcs: map<nat, Pc>, tid: nat, id: nat) {
    tid in pcs && pcs[tid].Closing? && id in pcs[tid].ids
  }

  predicate Issued(id: nat, nextID: nat) {
    FIRST_ID < id <= nextID
  }

  ghost predicate PcsHome(pcs: map<nat, Pc>, home: map<nat, Place>) {
    && (forall id: nat, tid: nat :: InsertedBy(pcs, tid, id) <==> At(home, id, Coming(tid)))
    && (forall id: nat, tid: nat :: ClosedBy(pcs, tid, id) <==> At(home, id, Taken(tid)))
  }

  ghost predicate HomeOk(y: System) {
    && y.nextID >= FIRST_ID
    && (forall id: nat :: id in y.home <==> Issued(id, y.nextID))
    && (forall id: nat :: id in y.table <==> At(y.home, id, InTable))
    && (forall id: nat :: Closes(y.closes, id) == if At(y.home, id, Shut) then 1 else 0)
    && PcsHome(y.pcs, y.home)
  }

  lemma TakeKeepsHome(y: System, tid: nat, ids: set<nat>)
    requires HomeOk(y) && tid !in y.pcs && ids <= y.table.Keys
    ensures HomeOk(Take(y, tid, ids))
  {
    var z := Take(y, tid, ids);
    forall id: nat, p: Place ensures At(z.home, id, p) <==> if id in ids then p == Taken(tid) else At(y.home, id, p) {
      assert id in ids ==> At(y.home, id, InTable);
    }
    forall t: nat, i: nat
      ensures InsertedBy(z.pcs, t, i) <==> InsertedBy(y.pcs, t, i)
      ensures ClosedBy(z.pcs, t, i) <==> if t == tid then i in ids else ClosedBy(y.pcs, t, i)
    {
    }
    forall i: nat ensures !At(y.home, i, Coming(tid)) && !At(y.home, i, Taken(tid)) {
      assert !InsertedBy(y.pcs, tid, i) && !ClosedBy(y.pcs, tid, i);
    }
  }

  lemma CloseKeepsHome(y: System, st: Step)
    requires HomeOk(y) && Enabled(y, st) && st.CloseOne?
    ensures HomeOk(Apply(y, st))
  {
    var z := Apply(y, st);
    assert ClosedBy(y.pcs, st.tid, st.id);
    forall t: nat, i: nat ensures InsertedBy(z.pcs, t, i) <==> InsertedBy(y.pcs, t, i) {
    }
    forall id: nat, p: Place ensures At(z.home, id, p) <==> if id == st.id then p == Shut else At(y.home, id, p) {
    }
    forall id: nat, tid: nat ensures ClosedBy(z.pcs, tid, id) <==> ClosedBy(y.pcs, tid, id) && id != st.id {
      if ClosedBy(y.pcs, tid, st.id) {
        assert At(y.home, st.id, Taken(tid)) && At(y.home, st.id, Taken(st.tid));
      }
    }
  }

  lemma AllocKeepsHome(y: System, st: Step)
    requires HomeOk(y) && Enabled(y, st) && st.Alloc?
    ensures HomeOk(Apply(y, st))
  {
    var z, id := Apply(y, st), y.nextID + 1;
    assert !Issued(id, y.nextID);
    forall i: nat, p: Place ensures At(z.home, i, p) <==> if i == id then p == Coming(st.tid) else At(y.home, i, p) {
    }
    forall t: nat, i: nat
      ensures InsertedBy(z.pcs, t, i) <==> if t == st.tid then i == id else InsertedBy(y.pcs, t, i)
      ensures ClosedBy(z.pcs, t, i) <==> ClosedBy(y.pcs, t, i)
    {
    }
    forall i: nat ensures !At(y.home, i, Coming(st.tid)) && !At(y.home, i, Taken(st.tid)) {
      assert !InsertedBy(y.pcs, st.tid, i) && !ClosedBy(y.pcs, st.tid, i);
    }
    forall i: nat ensures Issued(i, z.nextID) <==> i == id || Issued(i, y.nextID) {
    }
  }

  lemma InsertKeepsHome(y: System, st: Step)
    requires HomeOk(y) && Enabled(y, st) && st.Insert?
    ensures HomeOk(Apply(y, st))
  {
    var z, id := Apply(y, st), y.pcs[st.tid].id;
    assert InsertedBy(y.pcs, st.tid, id);
    forall i: nat, p: Place ensures At(z.home, i, p) <==> if i == id then p == InTable else At(y.home, i, p) {
    }
    forall t: nat, i: nat
      ensures InsertedBy(z.pcs, t, i) <==> t != st.tid && InsertedBy(y.pcs, t, i)
      ensures ClosedBy(z.pcs, t, i) <==> ClosedBy(y.pcs, t, i)
    {
    }
  }

  lemma HomeStaysOk(y: System, st: Step)
    requires HomeOk(y) && Enabled(y, st)
    ensures HomeOk(Apply(y, st))
  {
    match st
    case Alloc(_, _) => AllocKeepsHome(y, st);
    case Insert(_) => InsertKeepsHome(y, st);
    case Touch(_, _) =>
    case Remove(tid, id, tenantID, connKey) =>
      if Owned(y.table, id, tenantID, connKey) {
        TakeKeepsHome(y, tid, {id});
      }
    case Cleanup(tid, connKey) => TakeKeepsHome(y, tid, OfConn(y.table, connKey));
    case Prune(tid, cutoff) => TakeKeepsHome(y, tid, IdleSince(y.table, cutoff));
    case CloseOne(_, _) => CloseKeepsHome(y, st);
    case Done(_) =>
  }

  lemma {:induction false} RunsKeepHome(y: System, steps: seq<Step>, end: System)
    requires Reaches(y, steps, end) && HomeOk(y)
    ensures HomeOk(end)
    decreases |steps|
  {
    if steps != [] {
      HomeStaysOk(y, steps[0]);
      RunsKeepHome(Apply(y, steps[0]), steps[1..], end);
    }
  }

  /** In every interleaving of registration, Remove, KillMany, CleanupConn and PruneIdle, each cursor is about to
      be inserted by one goroutine, in the table, to be closed by exactly one remover, or closed exactly once. */
  lemma ClosedExactlyOnce(steps: seq<Step>, y: System, id: nat)
    requires Reaches(INITIAL, steps, y) && Issued(id, y.nextID)
    ensures Closes(y.closes, id) <= 1
    ensures (exists tid :: InsertedBy(y.pcs, tid, id)) || id in y.table || (exists tid :: ClosedBy(y.pcs, tid, id))
            || Closes(y.closes, id) == 1
    ensures id in y.table ==> Closes(y.closes, id) == 0 && forall tid: nat ::
                                !InsertedBy(y.pcs, tid, id) && !ClosedBy(y.pcs, tid, id)
    ensures forall tid: nat :: ClosedBy(y.pcs, tid, id) ==>
              Closes(y.closes, id) == 0 && forall i: nat :: ClosedBy(y.pcs, i, id) ==> i == tid
  {
    RunsKeepHome(INITIAL, steps, y);
    match y.home[id]
    case Coming(tid) => assert InsertedBy(y.pcs, tid, id);
    case InTable => assert id in y.table;
    case Taken(tid) => assert ClosedBy(y.pcs, tid, id);
    case Shut => assert Closes(y.closes, id) == 1;
  }

  /** Cleaning up a connection leaves none of its cursors in the table, hands each to the cleaner to close, and
      leaves the others' entries as they were. */
  lemma CleanupTakesAll(y: System, tid: nat, connKey: string)
    requires Enabled(y, Cleanup(tid, connKey))
    ensures var z := Apply(y, Cleanup(tid, connKey));
            && (forall id :: id in z.table ==> z.table[id].owner.connKey != connKey)
            && (forall id :: id in y.table && y.table[id].owner.connKey == connKey ==> ClosedBy(z.pcs, tid, id))
            && (forall id :: id in y.table && y.table[id].owner.connKey != connKey ==>
                               id in z.table && z.table[id] == y.table[id])
  {
    assert forall id :: id in OfConn(y.table, connKey) <==> id in y.table && y.table[id].owner.connKey == connKey;
  }
}
