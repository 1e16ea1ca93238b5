/** The control-plane store: tenants, source connections, proxy tokens, users, members and invites.
    The rows are values; every getter of the store hands out a copy. */
module Store {
  import opened Wrappers
  import opened Text

  /** A point in time or a duration, in seconds. */
  type Time = int

  type Role = string
  const OWNER: Role := "owner"
  const ADMIN: Role := "admin"
  const MEMBER: Role := "member"

  datatype Tenant = Tenant(name: string, status: string)

  datatype Connection = Connection(tenantID: string, name: string, autoInvalidateOnWrite: bool)

  /** hash is the bcrypt hash of the raw secret, lookup its SHA-256 fingerprint ("" on legacy rows). */
  datatype Token = Token(tenantID: string, connectionID: string, expiresAt: Option<Time>, revokedAt: Option<Time>,
                         hash: string, lookup: string)

  datatype Invite = Invite(tenantID: string, email: string, role: Role, expiresAt: Time, accepted: bool)

  datatype Db = Db(
    tenants: map<string, Tenant>,
    connections: map<string, Connection>,
    tokens: map<string, Token>,
    users: map<string, string>,
    usersByEmail: map<string, string>,
    members: Members,
    invites: map<string, Invite>)

  datatype StoreError = NotFound | Duplicate

  const EMPTY := Db(map[], map[], map[], map[], map[], map[], map[])

  // ---------------------------------------------------------------- what the operations mean

  /** Deleting a tenant takes its members, connections, invites and tokens with it. */
  function WithoutTenant(db: Db, id: string): Db {
    db.(tenants := db.tenants - {id},
        members := db.members - {id},
        connections := map c | c in db.connections && db.connections[c].tenantID != id :: db.connections[c],
        invites := map i | i in db.invites && db.invites[i].tenantID != id :: db.invites[i],
        tokens := map t | t in db.tokens && db.tokens[t].tenantID != id :: db.tokens[t])
  }

  /** Deleting a connection takes the tokens bound to it with it. */
  function WithoutConnection(db: Db, id: string): Db {
    db.(connections := db.connections - {id},
        tokens := map t | t in db.tokens && db.tokens[t].connectionID != id :: db.tokens[t])
  }

  ghost predicate NameTaken(db: Db, tenantID: string, name: string) {
    exists c :: c in db.connections && db.connections[c].tenantID == tenantID
                && ToLower(db.connections[c].name) == ToLower(name)
  }

  predicate Expired(tok: Token, now: Time) {
    tok.expiresAt.Some? && tok.expiresAt.value < now
  }

  predicate ActiveFor(tok: Token, tenantID: string, now: Time) {
    tok.tenantID == tenantID && tok.revokedAt.None? && tok.connectionID != "" && !Expired(tok, now)
  }

  /** An invite that can still be accepted. */
  predicate Pending(inv: Invite, now: Time) {
    !inv.accepted && now <= inv.expiresAt
  }

  type Members = map<string, map<string, Role>>

  function RoleOf(members: Members, tenantID: string, userID: string): (r: Option<Role>)
    ensures r.Some? <==> tenantID in members && userID in members[tenantID]
  {
    if tenantID in members && userID in members[tenantID] then Some(members[tenantID][userID]) else None
  }

  function WithMember(members: Members, tenantID: string, userID: string, role: Role): (m: Members)
    ensures RoleOf(m, tenantID, userID) == Some(role)
    ensures forall t, u :: (t, u) != (tenantID, userID) ==> RoleOf(m, t, u) == RoleOf(members, t, u)
  {
    var roles := if tenantID in members then members[tenantID] else map[];
    members[tenantID := roles[userID := role]]
  }

  function WithoutMember(members: Members, tenantID: string, userID: string): (m: Members)
    ensures RoleOf(m, tenantID, userID) == None
    ensures forall t, u :: (t, u) != (tenantID, userID) ==> RoleOf(m, t, u) == RoleOf(members, t, u)
  {
    if tenantID in members then members[tenantID := members[tenantID] - {userID}] else members
  }

  const USER_PREFIX := "usr_mem_"

  function NormalEmail(email: string): string {
    ToLower(TrimSpace(email))
  }

  /** The user of an address, registered if need be. */
  function WithUser(db: Db, email: string): Db {
    if email in db.usersByEmail then db
    else db.(users := db.users[USER_PREFIX + email := email],
             usersByEmail := db.usersByEmail[email := USER_PREFIX + email])
  }

  // ---------------------------------------------------------------- the store itself

  class MemoryStore {
    var tenants: map<string, Tenant>
    var connections: map<string, Connection>
    var tokens: map<string, Token>
    var users: map<string, string>
    var usersByEmail: map<string, string>
    var members: Members
    var invites: map<string, Invite>

    ghost function Contents(): Db
      reads this
    {
      Db(tenants, connections, tokens, users, usersByEmail, members, invites)
    }

    constructor ()
      ensures Contents() == EMPTY
    {
      tenants, connections, tokens := map[], map[], map[];
      users, usersByEmail, members, invites := map[], map[], map[], map[];
    }

    method CreateTenant(id: string, t: Tenant)
      modifies this
      ensures Contents() == old(Contents()).(tenants := old(tenants)[id := t])
    {
      tenants := tenants[id := t];
    }

    method GetTenant(id: string) returns (r: Result<Tenant, StoreError>)
      ensures r == if id in tenants then Ok(tenants[id]) else Err(NotFound)
    {
      r := if id in tenants then Ok(tenants[id]) else Err(NotFound);
    }

    method DeleteTenant(id: string) returns (err: Option<StoreError>)
      modifies this
      ensures err.Some? <==> id !in old(tenants)
      ensures Contents() == if err.Some? then old(Contents()) else WithoutTenant(old(Contents()), id)
      ensures err.None? ==>
                && tenants == old(tenants) - {id} && members == old(members) - {id}
                && connections == (map c | c in old(connections) && old(connections)[c].tenantID != id
                                     :: old(connections)[c])
                && invites == (map i | i in old(invites) && old(invites)[i].tenantID != id :: old(invites)[i])
                && tokens == (map t | t in old(tokens) && old(tokens)[t].tenantID != id :: old(tokens)[t])
                && users == old(users) && usersByEmail == old(usersByEmail)
    {
      if id !in tenants {
        return Some(NotFound);
      }
      tenants := tenants - {id};
      members := members - {id};
      DropConnectionsOf(id);
      DropInvitesOf(id);
      DropTokensOf(id);
      return None;
    }

    method DropConnectionsOf(id: string)
      modifies this`connections
      ensures connections == WithoutTenant(old(Contents()), id).connections
    {
      ghost var was := connections;
      var todo := connections.Keys;
      while todo != {}
        invariant todo <= was.Keys
        invariant connections == map c | c in was && (c in todo || was[c].tenantID != id) :: was[c]
      {
        var c :| c in todo;
        if connections[c].tenantID == id {
          connections := connections - {c};
        }
        todo := todo - {c};
      }
    }

    method DropInvitesOf(id: string)
      modifies this`invites
      ensures invites == WithoutTenant(old(Contents()), id).invites
    {
      ghost var was := invites;
      var todo := invites.Keys;
      while todo != {}
        invariant todo <= was.Keys
        invariant invites == map i | i in was && (i in todo || was[i].tenantID != id) :: was[i]
      {
        var i :| i in todo;
        if invites[i].tenantID == id {
          invites := invites - {i};
        }
        todo := todo - {i};
      }
    }

    method DropTokensOf(id: string)
      modifies this`tokens
      ensures tokens == WithoutTenant(old(Contents()), id).tokens
    {
      ghost var was := tokens;
      var todo := tokens.Keys;
      while todo != {}
        invariant todo <= was.Keys
        invariant tokens == map t | t in was && (t in todo || was[t].tenantID != id) :: was[t]
      {
        var t :| t in todo;
        if tokens[t].tenantID == id {
          tokens := tokens - {t};
        }
        todo := todo - {t};
      }
    }

    method CreateConnection(id: string, c: Connection) returns (err: Option<StoreError>)
      modifies this
      ensures err == if NameTaken(old(Contents()), c.tenantID, c.name) then Some(Duplicate) else None
      ensures Contents() == if err.Some? then old(Contents())
                            else old(Contents()).(connections := old(connections)[id := c])
    {
      var todo := connections.Keys;
      while todo != {}
        invariant todo <= connections.Keys
        invariant forall e | e in connections && e !in todo ::
                    connections[e].tenantID != c.tenantID || ToLower(connections[e].name) != ToLower(c.name)
      {
        var e :| e in todo;
        if connections[e].tenantID == c.tenantID && ToLower(connections[e].name) == ToLower(c.name) {
          return Some(Duplicate);
        }
        todo := todo - {e};
      }
      connections := connections[id := c];
      return None;
    }

    method GetConnection(id: string) returns (r: Result<Connection, StoreError>)
      ensures r == if id in connections then Ok(connections[id]) else Err(NotFound)
    {
      r := if id in connections then Ok(connections[id]) else Err(NotFound);
    }

    method DeleteConnection(id: string) returns (err: Option<StoreError>)
      modifies this
      ensures err.Some? <==> id !in old(connections)
      ensures Contents() == if err.Some? then old(Contents()) else WithoutConnection(old(Contents()), id)
      ensures err.None? ==>
                && connections == old(connections) - {id}
                && tokens == (map t | t in old(tokens) && old(tokens)[t].connectionID != id :: old(tokens)[t])
    {
      if id !in connections {
        return Some(NotFound);
      }
      connections := connections - {id};
      ghost var was := tokens;
      var todo := tokens.Keys;
      while todo != {}
        invariant todo <= was.Keys
        invariant tokens == map t | t in was && (t in todo || was[t].connectionID != id) :: was[t]
        invariant connections == old(connections) - {id} && tenants == old(tenants) && users == old(users)
        invariant usersByEmail == old(usersByEmail) && members == old(members) && invites == old(invites)
      {
        var t :| t in todo;
        if tokens[t].connectionID == id {
          tokens := tokens - {t};
        }
        todo := todo - {t};
      }
      return None;
    }

    method CreateToken(id: string, tok: Token)
      modifies this
      ensures Contents() == old(Contents()).(tokens := old(tokens)[id := tok])
    {
      tokens := tokens[id := tok];
    }

    method GetTokenByID(id: string) returns (r: Result<Token, StoreError>)
      ensures r == if id in tokens then Ok(tokens[id]) else Err(NotFound)
    {
      r := if id in tokens then Ok(tokens[id]) else Err(NotFound);
    }

    /** The ids of the tenant's active tokens, in no particular order. */
    method ListActiveTokenHashes(tenantID: string, now: Time) returns (out: seq<string>)
      ensures forall t :: t in out <==>
                && t in tokens && tokens[t].tenantID == tenantID && tokens[t].connectionID != ""
                && tokens[t].revokedAt == None
                && (tokens[t].expiresAt == None || now <= tokens[t].expiresAt.value)
    {
      out := [];
      var todo := tokens.Keys;
      while todo != {}
        invariant todo <= tokens.Keys
        invariant forall t :: t in out <==> t in tokens && t !in todo && ActiveFor(tokens[t], tenantID, now)
      {
        var t :| t in todo;
        todo := todo - {t};
        if ActiveFor(tokens[t], tenantID, now) {
          out := out + [t];
        }
      }
    }

    /** Some active token of the tenant with this fingerprint. */
    method GetActiveTokenByLookup(tenantID: string, lookup: string, now: Time) returns (r: Option<string>)
      ensures r.Some? ==>
                && r.value in tokens && tokens[r.value].lookup == lookup
                && tokens[r.value].tenantID == tenantID && tokens[r.value].connectionID != ""
                && tokens[r.value].revokedAt == None
                && (tokens[r.value].expiresAt == None || now <= tokens[r.value].expiresAt.value)
      ensures r.None? && lookup != "" ==>
                forall t :: t in tokens && ActiveFor(tokens[t], tenantID, now) ==> tokens[t].lookup != lookup
      ensures lookup == "" ==> r.None?
    {
      if lookup == "" {
        return None;
      }
      var todo := tokens.Keys;
      while todo != {}
        invariant todo <= tokens.Keys
        invariant forall t :: t in tokens && t !in todo && ActiveFor(tokens[t], tenantID, now) ==>
                                tokens[t].lookup != lookup
      {
        var t :| t in todo;
        if tokens[t].lookup == lookup && ActiveFor(tokens[t], tenantID, now) {
          return Some(t);
        }
        todo := todo - {t};
      }
      return None;
    }

    method RevokeToken(id: string, now: Time) returns (err: Option<StoreError>)
      modifies this
      ensures err.Some? <==> id !in old(tokens)
      ensures Contents() == if err.Some? then old(Contents())
              else old(Contents()).(tokens := old(tokens)[id := old(tokens)[id].(revokedAt := Some(now))])
    {
      if id !in tokens {
        return Some(NotFound);
      }
      tokens := tokens[id := tokens[id].(revokedAt := Some(now))];
      return None;
    }

    method ClearTokenRevocation(id: string) returns (err: Option<StoreError>)
      modifies this
      ensures err.Some? <==> id !in old(tokens) || old(tokens)[id].revokedAt.None?
      ensures Contents() == if err.Some? then old(Contents())
              else old(Contents()).(tokens := old(tokens)[id := old(tokens)[id].(revokedAt := None)])
    {
      if id !in tokens || tokens[id].revokedAt.None? {
        return Some(NotFound);
      }
      tokens := tokens[id := tokens[id].(revokedAt := None)];
      return None;
    }

    method UpsertUserByEmail(email: string) returns (id: string)
      modifies this
      ensures var e := NormalEmail(email);
              && e in usersByEmail && id == usersByEmail[e]
              && Contents() == WithUser(old(Contents()), e)
    {
      var e := NormalEmail(email);
      if e in usersByEmail {
        return usersByEmail[e];
      }
      id := USER_PREFIX + e;
      users := users[id := e];
      usersByEmail := usersByEmail[e := id];
    }

    method GetUserByEmail(email: string) returns (r: Result<string, StoreError>)
      ensures r == if NormalEmail(email) in usersByEmail then Ok(usersByEmail[NormalEmail(email)]) else Err(NotFound)
    {
      var e := NormalEmail(email);
      r := if e in usersByEmail then Ok(usersByEmail[e]) else Err(NotFound);
    }

    method AddMember(tenantID: string, userID: string, role: Role)
      modifies this
      ensures Contents() == old(Contents()).(members := WithMember(old(members), tenantID, userID, role))
    {
      if tenantID !in members {
        members := members[tenantID := map[]];
      }
      members := members[tenantID := members[tenantID][userID := role]];
    }

    method RemoveMember(tenantID: string, userID: string)
      modifies this
      ensures Contents() == old(Contents()).(members := WithoutMember(old(members), tenantID, userID))
    {
      if tenantID in members {
        members := members[tenantID := members[tenantID] - {userID}];
      }
    }

    method GetMember(tenantID: string, userID: string) returns (r: Option<Role>)
      ensures r == RoleOf(members, tenantID, userID)
    {
      r := if tenantID in members && userID in members[tenantID] then Some(members[tenantID][userID]) else None;
    }

    /** The tenant's members with their roles, each member once, in no particular order. */
    method ListMembers(tenantID: string) returns (out: seq<(string, Role)>)
      ensures forall i | 0 <= i < |out| :: RoleOf(members, tenantID, out[i].0) == Some(out[i].1)
      ensures forall i, j | 0 <= i < j < |out| :: out[i].0 != out[j].0
      ensures forall u :: RoleOf(members, tenantID, u).Some? ==> exists i | 0 <= i < |out| :: out[i].0 == u
    {
      out := [];
      var roles := if tenantID in members then members[tenantID] else map[];
      var todo := roles.Keys;
      while todo != {}
        invariant todo <= roles.Keys
        invariant forall i | 0 <= i < |out| :: out[i].0 in roles && out[i].0 !in todo && roles[out[i].0] == out[i].1
        invariant forall i, j | 0 <= i < j < |out| :: out[i].0 != out[j].0
        invariant forall u | u in roles && u !in todo :: exists i | 0 <= i < |out| :: out[i].0 == u
      {
        var u :| u in todo;
        ghost var was := out;
        out := out + [(u, roles[u])];
        todo := todo - {u};
        assert out[|was|].0 == u && forall i | 0 <= i < |was| :: out[i] == was[i];
      }
    }

    method GetInviteByID(id: string) returns (r: Result<Invite, StoreError>)
      ensures r == if id in invites then Ok(invites[id]) else Err(NotFound)
    {
      r := if id in invites then Ok(invites[id]) else Err(NotFound);
    }

    method CreateInvite(id: string, inv: Invite)
      modifies this
      ensures Contents() == old(Contents()).(invites := old(invites)[id := inv])
    {
      invites := invites[id := inv];
    }

    /** The tenant's pending invites with their ids, in no particular order. */
    method ListPendingInvitesForTenant(tenantID: string, now: Time) returns (out: seq<(string, Invite)>)
      ensures forall i, inv :: (i, inv) in out <==> i in invites && inv == invites[i]
                                                    && inv.tenantID == tenantID
                                                    && !inv.accepted && now <= inv.expiresAt
    {
      out := [];
      var todo := invites.Keys;
      while todo != {}
        invariant todo <= invites.Keys
        invariant forall i, inv :: (i, inv) in out <==> i in invites && i !in todo && inv == invites[i]
                                                        && inv.tenantID == tenantID && Pending(inv, now)
      {
        var i :| i in todo;
        todo := todo - {i};
        if invites[i].tenantID == tenantID && Pending(invites[i], now) {
          out := out + [(i, invites[i])];
        }
      }
    }

    method MarkInviteAccepted(id: string)
      modifies this
      ensures Contents() == if id in old(invites)
              then old(Contents()).(invites := old(invites)[id := old(invites)[id].(accepted := true)])
              else old(Contents())
    {
      if id in invites {
        invites := invites[id := invites[id].(accepted := true)];
      }
    }

    method DeleteInvite(id: string)
      modifies this
      ensures Contents() == old(Contents()).(invites := old(invites) - {id})
    {
      invites := invites - {id};
    }
  }
}
