/** Emulated cursors: snapshots of cached results handed out batch by batch, under a global byte budget. */
module CachedCursor {
  import opened MapSum

  type Time = int

  const BASE_ID: nat := 1_000_000_000
  const DEFAULT_BATCH := 101
  const DEFAULT_IDLE: Time := 600
  const DEFAULT_BUDGET := 64 * 1024 * 1024

  /** One cursor: the documents still held and how far they have been delivered. */
  datatype Cur = Cur(tenantID: string, connKey: string, ns: string, docs: seq<string>, pos: int, lastUsed: Time,
                     bytes: int)

  type Table = map<nat, Cur>

  datatype State = State(table: Table, curBytes: int, nextID: nat)

  function DocBytes(docs: seq<string>): (n: nat)
  {
    if docs == [] then 0 else DocBytes(docs[..|docs| - 1]) + |docs[|docs| - 1]|
  }

  function Size(n: int): (size: int)
    ensures size > 0
  {
    if n <= 0 then DEFAULT_BATCH else n
  }

  function Bytes(c: Cur): int {
    c.bytes
  }

  /** The bytes of all cursors of a table. */
  ghost function Sum(t: Table): int {
    Total(t, Bytes)
  }

  // ---------------------------------------------------------------- what the operations mean

  function Drop(s: State, id: int): State
    requires id in s.table
  {
    State(s.table - {id}, s.curBytes - s.table[id].bytes, s.nextID)
  }

  ghost function DropAll(s: State, ids: set<nat>): State {
    State(s.table - ids, s.curBytes - (Sum(s.table) - Sum(s.table - ids)), s.nextID)
  }

  predicate Owned(t: Table, id: int, tenantID: string, connKey: string) {
    id in t && t[id].tenantID == tenantID && t[id].connKey == connKey
  }

  datatype Batch = Batch(ns: string, docs: seq<string>, exhausted: bool, ok: bool)

  const NO_CURSOR := Batch("", [], true, false)

  /** The cursor after a batch of at most n documents. */
  function Advanced(c: Cur, n: int, now: Time): Cur {
    c.(pos := if c.pos + Size(n) > |c.docs| then |c.docs| else c.pos + Size(n), lastUsed := now)
  }

  predicate Sound(c: Cur) {
    0 <= c.pos <= |c.docs|
  }

  function Fetch(s: State, id: int, tenantID: string, connKey: string, n: int, now: Time): (Batch, State)
    requires id in s.table ==> Sound(s.table[id])
  {
    if !Owned(s.table, id, tenantID, connKey) then (NO_CURSOR, s)
    else
      var c := s.table[id];
      var d := Advanced(c, n, now);
      (Batch(c.ns, c.docs[c.pos..d.pos], d.pos == |c.docs|, true),
       if d.pos == |c.docs| then Drop(s, id) else s.(table := s.table[id := d]))
  }

  function Killed(s: State, id: int, tenantID: string, connKey: string): State {
    if Owned(s.table, id, tenantID, connKey) then Drop(s, id) else s
  }

  function KilledMany(s: State, ids: seq<int>, tenantID: string, connKey: string): State {
    if ids == [] then s
    else Killed(KilledMany(s, ids[..|ids| - 1], tenantID, connKey), ids[|ids| - 1], tenantID, connKey)
  }

  function OfConn(t: Table, connKey: string): set<nat> {
    set id | id in t && t[id].connKey == connKey
  }

  function IdleSince(t: Table, cutoff: Time): set<nat> {
    set id | id in t && t[id].lastUsed < cutoff
  }

  ghost function AfterPrune(s: State, cutoff: Time): State {
    DropAll(s, IdleSince(s.table, cutoff))
  }

  predicate Oldest(t: Table, id: int) {
    id in t && forall j :: j in t ==> t[id].lastUsed <= t[j].lastUsed
  }

  /** The given victims, dropped in turn, each the least recently used and each while room is short. */
  predicate Chain(s: State, need: int, max: int, victims: seq<nat>, end: State)
    decreases |victims|
  {
    if victims == [] then end == s
    else
      && s.curBytes + need > max && Oldest(s.table, victims[0])
      && Chain(Drop(s, victims[0]), need, max, victims[1..], end)
  }

  /** Evicting the victims makes room for need bytes or empties the table. */
  predicate Evicts(s: State, need: int, max: int, victims: seq<nat>, end: State) {
    Chain(s, need, max, victims, end) && (end.curBytes + need <= max || end.table == map[])
  }

  lemma {:induction false} ChainNext(s: State, need: int, max: int, victims: seq<nat>, end: State, v: nat)
    requires Chain(s, need, max, victims, end) && end.curBytes + need > max && Oldest(end.table, v)
    ensures Chain(s, need, max, victims + [v], Drop(end, v))
    decreases |victims|
  {
    if victims == [] {
      assert ([] + [v])[1..] == [];
    } else {
      ChainNext(Drop(s, victims[0]), need, max, victims[1..], end, v);
      assert (victims + [v])[1..] == victims[1..] + [v];
    }
  }

  function Insert(s: State, c: Cur): State {
    State(s.table[s.nextID + 1 := c], s.curBytes + c.bytes, s.nextID + 1)
  }

  function Draft(tenantID: string, connKey: string, ns: string, docs: seq<string>, n: int, now: Time): Cur {
    Cur(tenantID, connKey, ns, docs, Size(n), now, DocBytes(docs))
  }

  // ---------------------------------------------------------------- the store

  class Entry {
    const id: int
    const tenantID: string
    const connKey: string
    const ns: string
    const docs: seq<string>
    const bytes: int
    var pos: int
    var lastUsed: Time

    ghost function View(): Cur
      reads this
    {
      Cur(tenantID, connKey, ns, docs, pos, lastUsed, bytes)
    }

    constructor (id: int, c: Cur)
      ensures this.id == id && View() == c
    {
      this.id, tenantID, connKey, ns, docs, bytes := id, c.tenantID, c.connKey, c.ns, c.docs, c.bytes;
      pos, lastUsed := c.pos, c.lastUsed;
    }

    /** The next n documents. */
    method Take(n: int, now: Time) returns (batch: seq<string>)
      requires n > 0 && Sound(View())
      modifies this
      ensures View() == Advanced(old(View()), n, now)
      ensures batch == docs[old(pos)..pos]
    {
      lastUsed := now;
      var end := pos + n;
      if end > |docs| {
        end := |docs|;
      }
      batch := docs[pos..end];
      pos := end;
    }
  }

  class Store {
    var byID: map<nat, Entry>
    var nextID: nat
    var curBytes: int
    ghost var table: Table
    const idleTTL: Time
    const maxBytes: int

    ghost function Entries(): set<Entry>
      reads this
    {
      set id | id in byID :: byID[id]
    }

    ghost function Now(): State
      reads this
    {
      State(table, curBytes, nextID)
    }

    /** table shows the entries, which are filed under their own ids in (BASE_ID, nextID] and are only partly
        delivered. */
    ghost predicate Valid()
      reads this, Entries()
    {
      && nextID >= BASE_ID && maxBytes > 0
      && byID.Keys == table.Keys
      && forall id :: id in byID ==> Filed(byID[id], id)
    }

    ghost predicate Filed(e: Entry, id: nat)
      requires id in table
      reads this, e
    {
      e.id == id && BASE_ID < id <= nextID && e.View() == table[id] && Sound(table[id])
    }

    constructor (idleTTL: Time, maxBytes: int)
      ensures Valid() && Now() == State(map[], 0, BASE_ID)
      ensures this.idleTTL == (if idleTTL <= 0 then 600 else idleTTL)
      ensures this.maxBytes == (if maxBytes <= 0 then 67108864 else maxBytes)
    {
      this.idleTTL := if idleTTL <= 0 then DEFAULT_IDLE else idleTTL;
      this.maxBytes := if maxBytes <= 0 then DEFAULT_BUDGET else maxBytes;
      byID, nextID, curBytes, table := map[], BASE_ID, 0, map[];
    }

    /** victims are the cursors evicted on the way; end is the state just before the insertion. */
    method Register(tenantID: string, connKey: string, ns: string, docs: seq<string>, firstBatchSize: int, now: Time)
        returns (id: int, first: seq<string>, restPos: int, ghost victims: seq<nat>, ghost end: State)
      requires Valid()
      modifies this
      ensures Valid() && fresh(Entries() - old(Entries()))
      ensures var n := Size(firstBatchSize);
              if n >= |docs| then id == 0 && first == docs && restPos == |docs| && Now() == old(Now())
              else
                && id == nextID && first == docs[..n] && restPos == n
                && Evicts(old(Now()), DocBytes(docs), maxBytes, victims, end)
                && Now() == Insert(end, Draft(tenantID, connKey, ns, docs, firstBatchSize, now))
    {
      var n := if firstBatchSize <= 0 then 101 else firstBatchSize;
      victims, end := [], Now();
      if n >= |docs| {
        return 0, docs, |docs|, victims, end;
      }
      var bytes := 0;
      var i := 0;
      while i < |docs|
        invariant 0 <= i <= |docs| && bytes == DocBytes(docs[..i])
      {
        assert docs[..i + 1][..i] == docs[..i];
        bytes := bytes + |docs[i]|;
        i := i + 1;
      }
      assert docs[..i] == docs;
      victims := MakeRoom(bytes);
      end := Now();
      id := Add(Cur(tenantID, connKey, ns, docs, n, now, bytes));
      return id, docs[..n], n, victims, end;
    }

    method Add(c: Cur) returns (id: int)
      requires Valid() && Sound(c)
      modifies this
      ensures Valid() && fresh(Entries() - old(Entries()))
      ensures id == nextID && Now() == Insert(old(Now()), c)
    {
      id := nextID + 1;
      nextID := id;
      var ent := new Entry(id, c);
      byID := byID[id := ent];
      table := table[id := c];
      curBytes := curBytes + c.bytes;
    }

    method MakeRoom(bytes: int) returns (ghost victims: seq<nat>)
      requires Valid()
      modifies this
      ensures Valid() && Entries() <= old(Entries())
      ensures Evicts(old(Now()), bytes, maxBytes, victims, Now())
    {
      victims := [];
      while curBytes + bytes > maxBytes
        invariant Valid() && Entries() <= old(Entries())
        invariant Chain(old(Now()), bytes, maxBytes, victims, Now())
        decreases |byID|
      {
        ghost var before := Now();
        var ok, victim := EvictOldest();
        if !ok {
          break;
        }
        ChainNext(old(Now()), bytes, maxBytes, victims, before, victim);
        victims := victims + [victim];
      }
    }

    method EvictOldest() returns (ok: bool, ghost victim: nat)
      requires Valid()
      modifies this
      ensures Valid() && Entries() <= old(Entries())
      ensures ok <==> old(byID) != map[]
      ensures !ok ==> Now() == old(Now())
      ensures ok ==> Oldest(old(Now()).table, victim) && Now() == Drop(old(Now()), victim)
                     && byID == old(byID) - {victim} && victim in old(byID)
    {
      var oldestID := 0;
      var oldestTime := 0;
      var todo := byID.Keys;
      while todo != {}
        invariant todo <= byID.Keys
        invariant oldestID == 0 ==> todo == byID.Keys
        invariant oldestID != 0 ==> oldestID in byID && oldestID !in todo && oldestTime == byID[oldestID].lastUsed
        invariant oldestID != 0 ==> forall j :: j in byID && j !in todo ==> oldestTime <= byID[j].lastUsed
      {
        var id :| id in todo;
        if oldestID == 0 || byID[id].lastUsed < oldestTime {
          oldestID := id;
          oldestTime := byID[id].lastUsed;
        }
        todo := todo - {id};
      }
      victim := oldestID;
      if oldestID == 0 {
        return false, victim;
      }
      Remove(oldestID);
      return true, victim;
    }

    method Remove(id: nat)
      requires Valid() && id in byID
      modifies this
      ensures Valid() && Entries() <= old(Entries())
      ensures byID == old(byID) - {id} && Now() == Drop(old(Now()), id)
    {
      curBytes := curBytes - byID[id].bytes;
      byID, table := byID - {id}, table - {id};
    }

    method NextBatch(id: int, tenantID: string, connKey: string, batchSize: int, now: Time) returns (b: Batch)
      requires Valid()
      modifies this, Entries()
      ensures Valid() && Entries() <= old(Entries())
      ensures (b, Now()) == Fetch(old(Now()), id, tenantID, connKey, batchSize, now)
      ensures b.ok <==> id in old(table) && old(table)[id].tenantID == tenantID && old(table)[id].connKey == connKey
      ensures !b.ok ==> b.docs == [] && Now() == old(Now())
    {
      var n := if batchSize <= 0 then 101 else batchSize;
      if id !in byID || byID[id].tenantID != tenantID || byID[id].connKey != connKey {
        return Batch("", [], true, false);
      }
      assert Filed(byID[id], id);
      ghost var was := table;
      var docs := Advance(id, n, now);
      var e := byID[id];
      assert Filed(e, id);
      assert table - {id} == was - {id};
      var exhausted := e.pos >= |e.docs|;
      if exhausted {
        Remove(id);
      }
      return Batch(e.ns, docs, exhausted, true);
    }

    method Advance(id: nat, n: int, now: Time) returns (docs: seq<string>)
      requires Valid() && id in byID && n > 0
      modifies this, Entries()
      ensures Valid() && byID == old(byID)
      ensures Now() == old(Now()).(table := old(table)[id := Advanced(old(table)[id], n, now)])
      ensures docs == old(table)[id].docs[old(table)[id].pos..table[id].pos]
    {
      var e := byID[id];
      assert Filed(e, id);
      docs := e.Take(n, now);
      table := table[id := e.View()];
    }

    method Kill(id: int, tenantID: string, connKey: string)
      requires Valid()
      modifies this
      ensures Valid() && Entries() <= old(Entries())
      ensures Now() == Killed(old(Now()), id, tenantID, connKey)
      ensures id in table ==> table[id].tenantID != tenantID || table[id].connKey != connKey
    {
      if id !in byID || byID[id].tenantID != tenantID || byID[id].connKey != connKey {
        return;
      }
      Remove(id);
    }

    method KillMany(ids: seq<int>, tenantID: string, connKey: string)
      requires Valid()
      modifies this
      ensures Valid() && Entries() <= old(Entries())
      ensures Now() == KilledMany(old(Now()), ids, tenantID, connKey)
    {
      var i := 0;
      while i < |ids|
        invariant 0 <= i <= |ids|
        invariant Valid() && Entries() <= old(Entries())
        invariant Now() == KilledMany(old(Now()), ids[..i], tenantID, connKey)
      {
        Kill(ids[i], tenantID, connKey);
        assert ids[..i + 1][..i] == ids[..i];
        i := i + 1;
      }
      assert ids[..i] == ids;
    }

    method CleanupConn(connKey: string)
      requires Valid()
      modifies this
      ensures Valid() && Entries() <= old(Entries())
      ensures Now() == DropAll(old(Now()), OfConn(old(Now()).table, connKey))
    {
      ghost var was := Now();
      ghost var target := OfConn(was.table, connKey);
      ghost var gone: set<nat> := {};
      DropNone(was);
      var todo := byID.Keys;
      while todo != {}
        invariant Valid() && Entries() <= old(Entries())
        invariant todo <= byID.Keys && Now() == DropAll(was, gone)
        invariant gone <= target <= gone + todo
      {
        var id :| id in todo;
        assert Filed(byID[id], id) && table[id] == was.table[id];
        if byID[id].connKey == connKey {
          DropOneMore(was, gone, id);
          gone := gone + {id};
          Remove(id);
        }
        todo := todo - {id};
      }
      assert gone == target;
    }

    /** Returns how many cursors it has dropped. */
    method PruneIdle(now: Time) returns (n: int)
      requires Valid()
      modifies this
      ensures Valid() && Entries() <= old(Entries())
      ensures Now() == AfterPrune(old(Now()), now - idleTTL)
      ensures n == |IdleSince(old(table), now - idleTTL)|
    {
      ghost var was := Now();
      n := DropIdle(now - idleTTL);
      IdleCounted(was, now - idleTTL);
    }

    method DropIdle(cutoff: Time) returns (n: int)
      requires Valid()
      modifies this
      ensures Valid() && Entries() <= old(Entries())
      ensures Now() == AfterPrune(old(Now()), cutoff)
      ensures n == Rows(old(table)) - Rows(table)
    {
      ghost var was := Now();
      ghost var target := IdleSince(was.table, cutoff);
      ghost var gone: set<nat> := {};
      DropNone(was);
      n := 0;
      var todo := byID.Keys;
      while todo != {}
        invariant Valid() && Entries() <= old(Entries())
        invariant todo <= byID.Keys && Now() == DropAll(was, gone)
        invariant gone <= target <= gone + todo
        invariant n == Rows(was.table) - Rows(table)
      {
        var id :| id in todo;
        assert Filed(byID[id], id) && table[id] == was.table[id];
        if byID[id].lastUsed < cutoff {
          DropOneMore(was, gone, id);
          OneRowLess(table, id);
          gone := gone + {id};
          Remove(id);
          n := n + 1;
        }
        todo := todo - {id};
      }
      assert gone == target;
    }
  }

  function One(c: Cur): int {
    1
  }

  /** The number of cursors of a table. */
  ghost function Rows(t: Table): int {
    Total(t, One)
  }

  lemma OneRowLess(t: Table, id: nat)
    requires id in t
    ensures Rows(t - {id}) == Rows(t) - 1
  {
    TotalWithout(t, One, id);
  }

  lemma {:induction false} RowsCount(t: Table)
    ensures Rows(t) == |t|
    decreases |t|
  {
    if t != map[] {
      var id :| id in t;
      OneRowLess(t, id);
      RowsCount(t - {id});
    }
  }

  /** The rows a pruning drops are the idle ones. */
  lemma IdleCounted(s: State, cutoff: Time)
    ensures Rows(s.table) - Rows(AfterPrune(s, cutoff).table) == |IdleSince(s.table, cutoff)|
  {
    var ids := IdleSince(s.table, cutoff);
    RowsCount(s.table);
    RowsCount(s.table - ids);
    assert (s.table - ids).Keys == s.table.Keys - ids;
    assert |(s.table - ids).Keys| == |s.table.Keys| - |ids|;
  }

  lemma DropNone(s: State)
    ensures DropAll(s, {}) == s
  {
    assert s.table - {} == s.table;
  }

  lemma DropOneMore(s: State, gone: set<nat>, id: nat)
    requires id in s.table && id !in gone
    ensures DropAll(s, gone + {id}) == Drop(DropAll(s, gone), id)
  {
    TotalWithout(s.table - gone, Bytes, id);
    assert (s.table - gone) - {id} == s.table - (gone + {id});
  }
}
