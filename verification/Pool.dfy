/** The pool of backend clients: one per source connection, reference-counted, evicted when idle. */
module Pool {
  import opened Wrappers

  /** Seconds. */
  type Time = int

  /** Backend clients, numbered in the order in which they were connected. */
  datatype Client = Client(number: nat)

  datatype Entry = Entry(client: Client, refs: nat, lastUsed: Time)

  type Table = map<string, Entry>

  // ---------------------------------------------------------------- the critical sections

  /** Takes a reference to the pooled client, if there is one. */
  function Grab(t: Table, conn: string, now: Time): (Option<Client>, Table) {
    if conn in t then (Some(t[conn].client), t[conn := Entry(t[conn].client, t[conn].refs + 1, now)]) else (None, t)
  }

  /** Stores a new client with one reference, unless another creator has been faster. */
  function Put(t: Table, conn: string, client: Client, now: Time): (Client, Table) {
    if conn in t then (t[conn].client, t[conn := Entry(t[conn].client, t[conn].refs + 1, now)])
    else (client, t[conn := Entry(client, 1, now)])
  }

  function Released(t: Table, conn: string, now: Time): Table {
    if conn in t
    then t[conn := Entry(t[conn].client, if t[conn].refs > 0 then t[conn].refs - 1 else 0, now)]
    else t
  }

  /** Unreferenced and unused for long enough. */
  predicate Evictable(e: Entry, idle: Time, now: Time) {
    e.refs == 0 && now - e.lastUsed >= idle
  }

  function Idle(t: Table, idle: Time, now: Time): set<string> {
    if idle <= 0 then {} else set c | c in t && Evictable(t[c], idle, now)
  }

  /** Taking a client, storing one and giving one back each note the time of use of that connection, change its count by
      one, and touch no other; and no eviction takes the client before the idle time has passed since. */
  lemma RecentUseProtects(t: Table, conn: string, client: Client, now: Time, idle: Time, later: Time)
    ensures var g, p, r := Grab(t, conn, now).1, Put(t, conn, client, now).1, Released(t, conn, now);
            && conn in p && p[conn].lastUsed == now && (conn !in t ==> p[conn] == Entry(client, 1, now))
            && (conn in t ==> g == p == t[conn := Entry(t[conn].client, t[conn].refs + 1, now)])
            && (conn in t ==> r == t[conn := Entry(t[conn].client, r[conn].refs, now)])
            && (conn in t && 0 < t[conn].refs ==> r[conn].refs == t[conn].refs - 1)
            && (later - now < idle ==>
                  conn !in Idle(g, idle, later) && conn !in Idle(p, idle, later) && conn !in Idle(r, idle, later))
  {
  }

  class TenantClient {
    const conn: string
    const client: Client
    var refs: nat
    var lastUsed: Time

    ghost function View(): Entry
      reads this
    {
      Entry(client, refs, lastUsed)
    }

    constructor (conn: string, client: Client, now: Time)
      ensures this.conn == conn && View() == Entry(client, 1, now)
    {
      this.conn, this.client, this.refs, this.lastUsed := conn, client, 1, now;
    }
  }

  class Manager {
    var clients: map<string, TenantClient>
    const idleTimeout: Time
    ghost var table: Table

    ghost function Entries(): set<TenantClient>
      reads this
    {
      set c | c in clients :: clients[c]
    }

    /** table shows the entries, each filed under its own connection. */
    ghost predicate Valid()
      reads this, Entries()
    {
      && clients.Keys == table.Keys
      && forall c :: c in clients ==> clients[c].conn == c && clients[c].View() == table[c]
    }

    constructor (idleTimeout: Time)
      ensures Valid() && table == map[] && this.idleTimeout == idleTimeout
    {
      this.idleTimeout := idleTimeout;
      clients, table := map[], map[];
    }

    /** The fast path of Get, and the second look inside a flight. */
    method GetPooled(conn: string, now: Time) returns (r: Option<Client>)
      requires Valid()
      modifies this, Entries()
      ensures Valid() && Entries() == old(Entries())
      ensures (r, table) == Grab(old(table), conn, now)
    {
      if conn !in clients {
        return None;
      }
      var e := clients[conn];
      e.refs := e.refs + 1;
      e.lastUsed := now;
      table := table[conn := e.View()];
      return Some(e.client);
    }

    /** The end of a flight that has connected a client; lost tells the caller to disconnect it. */
    method Keep(conn: string, client: Client, now: Time) returns (c: Client, lost: bool)
      requires Valid()
      modifies this, Entries()
      ensures Valid() && fresh(Entries() - old(Entries()))
      ensures (c, table) == Put(old(table), conn, client, now)
      ensures lost <==> conn in old(table)
    {
      var existing := GetPooled(conn, now);
      if existing.Some? {
        return existing.value, true;
      }
      var e := new TenantClient(conn, client, now);
      clients := clients[conn := e];
      table := table[conn := e.View()];
      return client, false;
    }

    method Release(conn: string, now: Time)
      requires Valid()
      modifies this, Entries()
      ensures Valid() && Entries() == old(Entries())
      ensures table == if conn == "" then old(table) else Released(old(table), conn, now)
    {
      if conn == "" || conn !in clients {
        return;
      }
      var e := clients[conn];
      if e.refs > 0 {
        e.refs := e.refs - 1;
      }
      e.lastUsed := now;
      table := table[conn := e.View()];
    }

    /** Takes the idle clients out of the pool, each once; the caller disconnects each client of the result. */
    method EvictIdle(now: Time) returns (toClose: seq<(string, Client)>)
      requires Valid()
      modifies this
      ensures Valid() && Entries() <= old(Entries())
      ensures table == old(table) - Idle(old(table), idleTimeout, now)
      ensures forall c, k :: (c, k) in toClose <==>
                && 0 < idleTimeout && c in old(table) && k == old(table)[c].client
                && old(table)[c].refs == 0 && idleTimeout <= now - old(table)[c].lastUsed
      ensures forall i, j | 0 <= i < j < |toClose| :: toClose[i].0 != toClose[j].0
    {
      toClose := [];
      if idleTimeout <= 0 {
        assert table - {} == table;
        return;
      }
      ghost var was := table;
      ghost var target := Idle(was, idleTimeout, now);
      ghost var gone: set<string> := {};
      assert was - gone == was;
      var todo := clients.Keys;
      while todo != {}
        invariant Valid() && Entries() <= old(Entries())
        invariant todo <= clients.Keys && table == was - gone
        invariant gone <= target <= gone + todo
        invariant Lists(toClose, was, gone)
      {
        var c :| c in todo;
        assert table[c] == was[c];
        todo := todo - {c};
        var client := TakeIdle(c, now);
        if client.Some? {
          ListsNext(toClose, was, gone, c);
          gone := gone + {c};
          toClose := toClose + [(c, client.value)];
        }
      }
      assert gone == target;
    }

    method TakeIdle(conn: string, now: Time) returns (client: Option<Client>)
      requires Valid() && conn in clients
      modifies this
      ensures Valid() && Entries() <= old(Entries())
      ensures client == if Evictable(old(table)[conn], idleTimeout, now) then Some(old(table)[conn].client) else None
      ensures clients == if client.Some? then old(clients) - {conn} else old(clients)
      ensures table == if client.Some? then old(table) - {conn} else old(table)
    {
      if clients[conn].refs > 0 {
        return None;
      }
      if now - clients[conn].lastUsed < idleTimeout {
        return None;
      }
      client := Some(clients[conn].client);
      clients, table := clients - {conn}, table - {conn};
    }
  }

  /** closing lists the clients of the given connections, each connection once. */
  ghost predicate Lists(closing: seq<(string, Client)>, t: Table, conns: set<string>)
    requires conns <= t.Keys
  {
    && (forall c, k :: (c, k) in closing <==> c in conns && k == t[c].client)
    && (forall i, j | 0 <= i < j < |closing| :: closing[i].0 != closing[j].0)
  }

  lemma ListsNext(closing: seq<(string, Client)>, t: Table, conns: set<string>, c: string)
    requires conns <= t.Keys && Lists(closing, t, conns) && c in t && c !in conns
    ensures Lists(closing + [(c, t[c].client)], t, conns + {c})
  {
    forall i | 0 <= i < |closing| ensures closing[i].0 != c {
      assert (closing[i].0, closing[i].1) in closing;
    }
  }
}
