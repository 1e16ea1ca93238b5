/** The control-plane services that change tenants, connections and tokens, with their guards. */
module Services {
  import opened Wrappers
  import opened Text
  import opened Store

  datatype ServiceError =
    | MissingField
    | TenantNotFound
    | ConnectionNotFound
    | DuplicateName
    | InvalidToken
    | TokenNotRevoked
    | ReenableDisabled
    | ReenableWindowExpired
    | RowNotFound

  /** The store after a service call, and why the call failed if it did. */
  datatype Outcome = Outcome(db: Db, err: Option<ServiceError>)

  function Done(db: Db): Outcome {
    Outcome(db, None)
  }

  function Refused(db: Db, e: ServiceError): Outcome {
    Outcome(db, Some(e))
  }

  // ---------------------------------------------------------------- what the calls mean

  function TenantCreate(db: Db, id: string, name: string): Outcome {
    if id == "" || name == "" then Refused(db, MissingField)
    else Done(db.(tenants := db.tenants[id := Tenant(name, "active")]))
  }

  function TenantDelete(db: Db, id: string): Outcome {
    if id !in db.tenants then Refused(db, TenantNotFound) else Done(WithoutTenant(db, id))
  }

  ghost function ConnectionCreate(db: Db, tenantID: string, id: string, name: string, uri: string): Outcome {
    var trimmed := TrimSpace(name);
    if trimmed == "" || uri == "" then Refused(db, MissingField)
    else if tenantID !in db.tenants then Refused(db, TenantNotFound)
    else if NameTaken(db, tenantID, trimmed) then Refused(db, DuplicateName)
    else Done(db.(connections := db.connections[id := Connection(tenantID, trimmed, false)]))
  }

  predicate OwnsConnection(db: Db, tenantID: string, connectionID: string) {
    connectionID in db.connections && db.connections[connectionID].tenantID == tenantID
  }

  function ConnectionDelete(db: Db, tenantID: string, id: string): Outcome {
    if !OwnsConnection(db, tenantID, id) then Refused(db, ConnectionNotFound) else Done(WithoutConnection(db, id))
  }

  /** A new token is bound to a live connection of the same tenant and never expires by itself. */
  function TokenIssue(db: Db, tenantID: string, connectionID: string, id: string, hash: string, lookup: string)
    : Outcome
  {
    if !OwnsConnection(db, tenantID, connectionID) then Refused(db, ConnectionNotFound)
    else Done(db.(tokens := db.tokens[id := Token(tenantID, connectionID, None, None, hash, lookup)]))
  }

  function TokenRevoke(db: Db, id: string, now: Time): Outcome {
    if id !in db.tokens then Refused(db, RowNotFound)
    else Done(db.(tokens := db.tokens[id := db.tokens[id].(revokedAt := Some(now))]))
  }

  function TokenReenable(db: Db, id: string, window: Time, now: Time): Outcome {
    if window <= 0 then Refused(db, ReenableDisabled)
    else if id !in db.tokens then Refused(db, InvalidToken)
    else if db.tokens[id].revokedAt.None? then Refused(db, TokenNotRevoked)
    else if db.tokens[id].revokedAt.value + window < now then Refused(db, ReenableWindowExpired)
    else Done(db.(tokens := db.tokens[id := db.tokens[id].(revokedAt := None)]))
  }

  // ---------------------------------------------------------------- the services

  class TenantService {
    const store: MemoryStore

    constructor (store: MemoryStore)
      ensures this.store == store
    {
      this.store := store;
    }

    method Create(id: string, name: string) returns (err: Option<ServiceError>)
      modifies store
      ensures Outcome(store.Contents(), err) == TenantCreate(old(store.Contents()), id, name)
    {
      if id == "" || name == "" {
        return Some(MissingField);
      }
      store.CreateTenant(id, Tenant(name, "active"));
      return None;
    }
  }

  class ConnectionService {
    const store: MemoryStore

    constructor (store: MemoryStore)
      ensures this.store == store
    {
      this.store := store;
    }

    method Create(tenantID: string, id: string, name: string, uri: string) returns (err: Option<ServiceError>)
      modifies store
      ensures Outcome(store.Contents(), err) == ConnectionCreate(old(store.Contents()), tenantID, id, name, uri)
    {
      var trimmed := TrimSpace(name);
      if trimmed == "" {
        return Some(MissingField);
      }
      if uri == "" {
        return Some(MissingField);
      }
      var t := store.GetTenant(tenantID);
      if t.Err? {
        return Some(TenantNotFound);
      }
      var e := store.CreateConnection(id, Connection(tenantID, trimmed, false));
      if e.Some? {
        return Some(DuplicateName);
      }
      return None;
    }

    method Delete(tenantID: string, connectionID: string) returns (err: Option<ServiceError>)
      modifies store
      ensures Outcome(store.Contents(), err) == ConnectionDelete(old(store.Contents()), tenantID, connectionID)
    {
      var c := store.GetConnection(connectionID);
      if c.Err? {
        return Some(ConnectionNotFound);
      }
      if c.value.tenantID != tenantID {
        return Some(ConnectionNotFound);
      }
      var _ := store.DeleteConnection(connectionID);
      return None;
    }
  }

  class TokenService {
    const store: MemoryStore
    const reenableWindow: Time

    constructor (store: MemoryStore, reenableWindow: Time)
      ensures this.store == store && this.reenableWindow == if reenableWindow < 0 then 0 else reenableWindow
    {
      this.store := store;
      this.reenableWindow := if reenableWindow < 0 then 0 else reenableWindow;
    }

    /** id, hash and lookup are what the random source, bcrypt and SHA-256 made of the raw secret. */
    method Issue(tenantID: string, connectionID: string, id: string, hash: string, lookup: string)
        returns (err: Option<ServiceError>)
      modifies store
      ensures Outcome(store.Contents(), err) ==
              TokenIssue(old(store.Contents()), tenantID, connectionID, id, hash, lookup)
    {
      var c := store.GetConnection(connectionID);
      if c.Err? {
        return Some(ConnectionNotFound);
      }
      if c.value.tenantID != tenantID {
        return Some(ConnectionNotFound);
      }
      store.CreateToken(id, Token(tenantID, connectionID, None, None, hash, lookup));
      return None;
    }

    method Revoke(id: string, now: Time) returns (err: Option<ServiceError>)
      modifies store
      ensures Outcome(store.Contents(), err) == TokenRevoke(old(store.Contents()), id, now)
    {
      var e := store.RevokeToken(id, now);
      return if e.Some? then Some(RowNotFound) else None;
    }

    method Reenable(id: string, now: Time) returns (err: Option<ServiceError>)
      modifies store
      ensures Outcome(store.Contents(), err) == TokenReenable(old(store.Contents()), id, reenableWindow, now)
    {
      if reenableWindow <= 0 {
        return Some(ReenableDisabled);
      }
      var tok := store.GetTokenByID(id);
      if tok.Err? {
        return Some(InvalidToken);
      }
      if tok.value.revokedAt.None? {
        return Some(TokenNotRevoked);
      }
      var deadline := tok.value.revokedAt.value + reenableWindow;
      if deadline < now {
        return Some(ReenableWindowExpired);
      }
      var _ := store.ClearTokenRevocation(id);
      return None;
    }
  }
}
