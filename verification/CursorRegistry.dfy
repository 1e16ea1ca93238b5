/** Backend cursors exposed to clients under synthetic ids, and the find and getMore paths that drain them. */
module CursorRegistry {
  import opened Wrappers

  type Time = int

  const FIRST_ID: nat := 1
  const DEFAULT_BATCH := 101
  const DEFAULT_IDLE: Time := 600

  /** A registered cursor: what its iterator has yet to yield, and whether it then fails rather than ends. */
  datatype Cur = Cur(owner: Owner, rest: seq<string>, broken: bool, lastUsed: Time)

  /** Whose cursor it is, and over what collection. */
  datatype Owner = Owner(tenantID: string, connKey: string, ns: string)

  type Table = map<nat, Cur>

  datatype Reply = Batch(id: nat, ns: string, docs: seq<string>) | CursorNotFound | BackendFailed

  datatype State = State(table: Table, nextID: nat)

  function Size(n: int): (size: nat)
    ensures size > 0
  {
    if n <= 0 then DEFAULT_BATCH else n
  }

  predicate Owned(t: Table, id: int, tenantID: string, connKey: string) {
    id in t && t[id].owner.tenantID == tenantID && t[id].owner.connKey == connKey
  }

  // ---------------------------------------------------------------- what the operations mean

  /** The documents the iterator yields when asked for n. */
  function Pulled(rest: seq<string>, n: nat): seq<string> {
    if n <= |rest| then rest[..n] else rest
  }

  function Left(rest: seq<string>, n: nat): seq<string> {
    if n <= |rest| then rest[n..] else []
  }

  /** The iterator was asked past its end, and failed there. */
  predicate Fails(rest: seq<string>, broken: bool, n: nat) {
    broken && |rest| < n
  }

  function Registered(s: State, c: Cur): State {
    State(s.table[s.nextID + 1 := c], s.nextID + 1)
  }

  /** firstBatchFromCursor. */
  function FirstBatch(s: State, tenantID: string, connKey: string, ns: string, all: seq<string>, broken: bool,
                      batchSize: int, singleBatch: bool, now: Time): (Reply, State) {
    var n := Size(batchSize);
    if Fails(all, broken, n) then (BackendFailed, s)
    else if !singleBatch && |all| >= n then
      (Batch(s.nextID + 1, ns, Pulled(all, n)),
       Registered(s, Cur(Owner(tenantID, connKey, ns), Left(all, n), broken, now)))
    else (Batch(0, ns, Pulled(all, n)), s)
  }

  /** handleGetMore, once the session is authenticated. */
  function GetMore(s: State, id: int, tenantID: string, connKey: string, batchSize: int, now: Time): (Reply, State) {
    if !Owned(s.table, id, tenantID, connKey) then (CursorNotFound, s)
    else
      var n, c := Size(batchSize), s.table[id];
      if Fails(c.rest, c.broken, n) then (BackendFailed, s.(table := s.table - {id}))
      else if |c.rest| < n then (Batch(0, c.owner.ns, c.rest), s.(table := s.table - {id}))
      else (Batch(id, c.owner.ns, Pulled(c.rest, n)),
            s.(table := s.table[id := c.(rest := Left(c.rest, n), lastUsed := now)]))
  }

  function OfConn(t: Table, connKey: string): set<nat> {
    set id | id in t && t[id].owner.connKey == connKey
  }

  function IdleSince(t: Table, cutoff: Time): set<nat> {
    set id | id in t && t[id].lastUsed < cutoff
  }

  // ---------------------------------------------------------------- backend cursors

  /** A driver cursor, as an iterator that counts its Close calls, with the fields under which the registry
      files it. */
  class BackendCursor {
    var rest: seq<string>
    const broken: bool
    var failed: bool
    var closes: nat

    var id: nat
    var owner: Owner
    var lastUsed: Time

    ghost function View(): Cur
      reads this
    {
      Cur(owner, rest, broken, lastUsed)
    }

    /** Only a broken iterator fails, at its end. */
    ghost predicate Sane()
      reads this
    {
      failed ==> broken && rest == []
    }

    constructor (all: seq<string>, broken: bool)
      ensures rest == all && this.broken == broken && !failed && closes == 0 && id == 0
    {
      rest, this.broken, failed, closes := all, broken, false, 0;
      id, owner, lastUsed := 0, Owner("", "", ""), 0;
    }

    method Next() returns (doc: Option<string>)
      modifies this`rest, this`failed
      ensures old(rest) == [] ==> doc == None && rest == [] && failed == (old(failed) || broken)
      ensures old(rest) != [] ==> doc == Some(old(rest)[0]) && rest == old(rest)[1..] && failed == old(failed)
    {
      if rest == [] {
        failed := failed || broken;
        return None;
      }
      doc := Some(rest[0]);
      rest := rest[1..];
    }

    method Close()
      modifies this`closes
      ensures closes == old(closes) + 1
    {
      closes := closes + 1;
    }

    method File(id: nat, owner: Owner, now: Time)
      modifies this`id, this`owner, this`lastUsed
      ensures this.id == id && View() == Cur(owner, rest, broken, now)
    {
      this.id, this.owner, lastUsed := id, owner, now;
    }

    /** Up to n documents. */
    method Pull(n: nat) returns (docs: seq<string>)
      requires n > 0 && Sane()
      modifies this`rest, this`failed
      ensures docs == Pulled(old(rest), n) && rest == Left(old(rest), n)
      ensures failed == Fails(old(rest), broken, n) && Sane()
    {
      docs := [];
      while |docs| < n
        invariant |docs| <= n && docs + rest == old(rest) && failed == old(failed)
        decreases n - |docs|
      {
        var d := Next();
        if d.None? {
          return;
        }
        docs := docs + [d.value];
      }
    }
  }

  // ---------------------------------------------------------------- the registry

  class Registry {
    var byID: map<nat, BackendCursor>
    var nextID: nat
    const idleTTL: Time
    ghost var table: Table
    ghost var cursors: map<nat, BackendCursor>

    ghost function Now(): State
      reads this
    {
      State(table, nextID)
    }

    /** cursors are all cursors ever registered, by id; each is open if it is in the table, and has been closed
        exactly once if not. */
    ghost predicate Valid()
      reads this, cursors.Values
    {
      && nextID >= FIRST_ID
      && byID.Keys == table.Keys <= cursors.Keys
      && (forall id :: id in byID ==> byID[id] == cursors[id])
      && (forall id :: id in cursors ==> Kept(cursors[id], id))
    }

    ghost predicate Kept(c: BackendCursor, id: nat)
      reads this, c
    {
      && c.id == id && FIRST_ID < id <= nextID
      && (if id in table then c.closes == 0 && c.Sane() && c.View() == table[id] else c.closes == 1)
    }

    constructor (idleTTL: Time)
      ensures Valid() && Now() == State(map[], FIRST_ID) && cursors == map[]
      ensures this.idleTTL == if idleTTL <= 0 then 600 else idleTTL
    {
      this.idleTTL := if idleTTL <= 0 then DEFAULT_IDLE else idleTTL;
      byID, nextID, table, cursors := map[], FIRST_ID, map[], map[];
    }

    method Register(tenantID: string, connKey: string, ns: string, cur: BackendCursor, now: Time) returns (id: nat)
      requires Valid() && cur.id == 0 && cur.closes == 0 && !cur.failed
      modifies this, cur`id, cur`owner, cur`lastUsed
      ensures Valid() && id == nextID && cursors == old(cursors)[id := cur]
      ensures Now() == Registered(old(Now()), Cur(Owner(tenantID, connKey, ns), cur.rest, cur.broken, now))
    {
      id := nextID + 1;
      cur.File(id, Owner(tenantID, connKey, ns), now);
      Add(cur);
    }

    method Add(cur: BackendCursor)
      requires Valid() && cur.id == nextID + 1 && cur.closes == 0 && cur.Sane()
      modifies this
      ensures Valid() && cursors == old(cursors)[nextID := cur] && Now() == Registered(old(Now()), cur.View())
    {
      var id := nextID + 1;
      nextID, byID, cursors, table := id, byID[id := cur], cursors[id := cur], table[id := cur.View()];
    }

    method Get(id: int, tenantID: string, connKey: string, now: Time) returns (c: Option<BackendCursor>)
      requires Valid()
      modifies this, cursors.Values
      ensures Valid() && byID == old(byID) && cursors == old(cursors)
      ensures c.Some? <==> id in old(table) && old(table)[id].owner.tenantID == tenantID
                           && old(table)[id].owner.connKey == connKey
      ensures c.Some? ==> id in byID && c.value == byID[id]
      ensures Now() == if c.Some? then old(Now()).(table := old(table)[id := old(table)[id].(lastUsed := now)])
                       else old(Now())
    {
      if id !in byID {
        return None;
      }
      var st := byID[id];
      assert Kept(st, id);
      if st.owner.tenantID != tenantID || st.owner.connKey != connKey {
        return None;
      }
      st.lastUsed := now;
      table := table[id := table[id].(lastUsed := now)];
      return Some(st);
    }

    /** Takes an entry out and closes its cursor. */
    method CloseOne(id: nat)
      requires Valid() && id in byID
      modifies this, cursors.Values
      ensures Valid() && cursors == old(cursors) && nextID == old(nextID)
      ensures byID == old(byID) - {id} && table == old(table) - {id}
    {
      assert Kept(cursors[id], id);
      var cur := byID[id];
      byID, table := byID - {id}, table - {id};
      cur.Close();
    }

    method Remove(id: int, tenantID: string, connKey: string)
      requires Valid()
      modifies this, cursors.Values
      ensures Valid() && cursors == old(cursors) && nextID == old(nextID)
      ensures table == if Owned(old(table), id, tenantID, connKey) then old(table) - {id} else old(table)
      ensures id in table ==> table[id].owner.tenantID != tenantID || table[id].owner.connKey != connKey
    {
      if id !in byID {
        return;
      }
      var st := byID[id];
      assert Kept(st, id);
      if st.owner.tenantID == tenantID && st.owner.connKey == connKey {
        CloseOne(id);
      }
    }

    method KillMany(ids: seq<int>, tenantID: string, connKey: string)
      requires Valid()
      modifies this, cursors.Values
      ensures Valid() && cursors == old(cursors) && nextID == old(nextID)
      ensures forall id :: id in table <==> id in old(table) && !(id in ids && Owned(old(table), id, tenantID, connKey))
      ensures forall id :: id in table ==> table[id] == old(table)[id]
    {
      ghost var was := table;
      var i := 0;
      while i < |ids|
        invariant 0 <= i <= |ids|
        invariant Valid() && cursors == old(cursors) && nextID == old(nextID)
        invariant forall id :: id in table <==> id in was && !(id in ids[..i] && Owned(was, id, tenantID, connKey))
        invariant forall id :: id in table ==> table[id] == was[id]
      {
        Remove(ids[i], tenantID, connKey);
        assert ids[..i + 1] == ids[..i] + [ids[i]];
        i := i + 1;
      }
      assert ids[..i] == ids;
    }

    method CleanupConn(connKey: string)
      requires Valid()
      modifies this, cursors.Values
      ensures Valid() && cursors == old(cursors) && nextID == old(nextID)
      ensures table == old(table) - OfConn(old(table), connKey)
    {
      ghost var was, target := table, OfConn(table, connKey);
      ghost var gone: set<nat> := {};
      assert table - gone == table;
      var todo := byID.Keys;
      while todo != {}
        invariant Valid() && cursors == old(cursors) && nextID == old(nextID)
        invariant todo <= byID.Keys && table == was - gone
        invariant gone <= target <= gone + todo
      {
        var id :| id in todo;
        assert Kept(byID[id], id) && table[id] == was[id];
        var mine := byID[id].owner.connKey == connKey;
        assert mine <==> id in target;
        if mine {
          gone := gone + {id};
          CloseOne(id);
        }
        todo := todo - {id};
      }
      assert gone == target;
    }

    method PruneIdle(now: Time) returns (n: int)
      requires Valid()
      modifies this, cursors.Values
      ensures Valid() && cursors == old(cursors) && nextID == old(nextID)
      ensures table == old(table) - IdleSince(old(table), now - idleTTL)
      ensures n == |IdleSince(old(table), now - idleTTL)|
    {
      var before := |byID|;
      ghost var was := table;
      CloseIdle(now - idleTTL);
      CountGone(was, IdleSince(was, now - idleTTL));
      n := before - |byID|;
    }

    method CloseIdle(cutoff: Time)
      requires Valid()
      modifies this, cursors.Values
      ensures Valid() && cursors == old(cursors) && nextID == old(nextID)
      ensures table == old(table) - IdleSince(old(table), cutoff)
    {
      ghost var was, target := table, IdleSince(table, cutoff);
      ghost var gone: set<nat> := {};
      assert table - gone == table;
      var todo := byID.Keys;
      while todo != {}
        invariant Valid() && cursors == old(cursors) && nextID == old(nextID)
        invariant todo <= byID.Keys && table == was - gone
        invariant gone <= target <= gone + todo
      {
        var id :| id in todo;
        assert Kept(byID[id], id) && table[id] == was[id];
        if byID[id].lastUsed < cutoff {
          gone := gone + {id};
          CloseOne(id);
        }
        todo := todo - {id};
      }
      assert gone == target;
    }

    /** Reads up to n documents off a registered cursor. */
    method Drain(id: nat, n: nat) returns (docs: seq<string>, failed: bool)
      requires Valid() && id in byID && n > 0
      modifies this, cursors.Values
      ensures Valid() && cursors == old(cursors) && byID == old(byID) && nextID == old(nextID)
      ensures docs == Pulled(old(table)[id].rest, n)
      ensures failed == Fails(old(table)[id].rest, old(table)[id].broken, n)
      ensures table == old(table)[id := old(table)[id].(rest := Left(old(table)[id].rest, n))]
    {
      var cur := byID[id];
      assert Kept(cur, id);
      docs := cur.Pull(n);
      failed := cur.failed;
      table := table[id := cur.View()];
    }
  }

  lemma CountGone(t: Table, ids: set<nat>)
    requires ids <= t.Keys
    ensures |(t - ids).Keys| == |t.Keys| - |ids|
  {
    assert (t - ids).Keys == t.Keys - ids;
  }

  lemma UpdateTwice(t: Table, k: nat, c: Cur, d: Cur)
    ensures t[k := c][k := d] == t[k := d] && t[k := c] - {k} == t - {k}
  {
  }

  /** The find and getMore paths of the proxy's handler. */
  class CursorHandler {
    const registry: Registry

    constructor (registry: Registry)
      ensures this.registry == registry
    {
      this.registry := registry;
    }

    /** A cursor that is not registered is closed once. */
    method FirstBatchFromCursor(tenantID: string, connKey: string, ns: string, cur: BackendCursor,
                                batchSize: int, singleBatch: bool, now: Time) returns (r: Reply)
      requires registry.Valid() && cur.id == 0 && cur.closes == 0 && !cur.failed
      modifies registry, cur
      ensures registry.Valid()
      ensures (r, registry.Now()) ==
              FirstBatch(old(registry.Now()), tenantID, connKey, ns, old(cur.rest), cur.broken, batchSize, singleBatch,
                         now)
      ensures if registry.nextID == old(registry.nextID)
              then cur.closes == 1 && registry.cursors == old(registry.cursors)
              else registry.cursors == old(registry.cursors)[registry.nextID := cur]
    {
      var n := if batchSize <= 0 then 101 else batchSize;
      var firstBatch := cur.Pull(n);
      if cur.failed {
        cur.Close();
        return BackendFailed;
      }
      if !singleBatch && |firstBatch| >= n {
        var id := registry.Register(tenantID, connKey, ns, cur, now);
        return Batch(id, ns, firstBatch);
      }
      cur.Close();
      return Batch(0, ns, firstBatch);
    }

    method HandleGetMore(id: int, tenantID: string, connKey: string, batchSize: int, now: Time) returns (r: Reply)
      requires registry.Valid()
      modifies registry, registry.cursors.Values
      ensures registry.Valid() && registry.cursors == old(registry.cursors)
      ensures (r, registry.Now()) == GetMore(old(registry.Now()), id, tenantID, connKey, batchSize, now)
    {
      var n := if batchSize <= 0 then 101 else batchSize;
      ghost var before := registry.table;
      var st := registry.Get(id, tenantID, connKey, now);
      if st.None? {
        return CursorNotFound;
      }
      var key: nat := id;
      ghost var c := before[key].(lastUsed := now);
      UpdateTwice(before, key, c, c.(rest := Left(c.rest, n)));
      r := ReadBatch(key, tenantID, connKey, n);
    }

    /** What handleGetMore does with a cursor it has found. */
    method ReadBatch(key: nat, tenantID: string, connKey: string, n: nat) returns (r: Reply)
      requires registry.Valid() && Owned(registry.table, key, tenantID, connKey) && n > 0
      modifies registry, registry.cursors.Values
      ensures registry.Valid() && registry.cursors == old(registry.cursors) && registry.nextID == old(registry.nextID)
      ensures var c := old(registry.table)[key];
              if |c.rest| < n then
                && r == (if c.broken then BackendFailed else Batch(0, c.owner.ns, c.rest))
                && registry.table == old(registry.table) - {key}
              else
                && r == Batch(key, c.owner.ns, Pulled(c.rest, n))
                && registry.table == old(registry.table)[key := c.(rest := Left(c.rest, n))]
    {
      ghost var was := registry.table;
      assert registry.Kept(registry.byID[key], key);
      var ns := registry.byID[key].owner.ns;
      var nextBatch, failed := registry.Drain(key, n);
      if failed || |nextBatch| < n {
        registry.Remove(key, tenantID, connKey);
        assert registry.table == was - {key};
        return if failed then BackendFailed else Batch(0, ns, nextBatch);
      }
      return Batch(key, ns, nextBatch);
    }
  }
}
