/** The data-plane validator: credentials against the token store, with a cache of past successes
    that is only partly re-checked on a hit. */
module Auth {
  import opened Wrappers
  import opened Text
  import opened Store
  import opened Services

  const MAX_CACHE_BEFORE_PRUNE := 10_000

  /** The hash functions: sha is ProxyTokenLookupHash, matches(hash, password) is bcrypt's comparison. */
  datatype Crypto = Crypto(sha: string -> string, matches: (string, string) -> bool)

  /** SHA-256 taken as injective; its hex form is not empty and holds no NUL. */
  ghost predicate CryptoOk(cr: Crypto) {
    && (forall p :: cr.sha(p) != "" && '\0' !in cr.sha(p))
    && (forall p, q :: cr.sha(p) == cr.sha(q) ==> p == q)
  }

  datatype TenantContext = TenantContext(tenantID: string, connectionID: string, tokenID: string)
  datatype AuthError = AuthFailed | TenantInactive | NoConnection
  type AuthResult = Result<TenantContext, AuthError>

  datatype CacheEntry = CacheEntry(tc: TenantContext, exp: Time)
  type AuthCache = map<string, CacheEntry>

  function CacheKey(user: string, lookup: string): string {
    user + (['\0'] + lookup)
  }

  /** Two credentials share a cache slot only if they are the same. */
  lemma CacheKeyInjective(u: string, l: string, v: string, m: string)
    requires '\0' !in l && '\0' !in m && CacheKey(u, l) == CacheKey(v, m)
    ensures u == v && l == m
  {
    SplitLast(u, v, '\0', l, m);
  }

  // ---------------------------------------------------------------- the full lookup

  predicate StatusActive(t: Tenant) {
    t.status == "" || t.status == "active"
  }

  /** Whether the password is the secret of the row. */
  predicate SecretOf(cr: Crypto, row: Token, password: string) {
    if row.lookup != "" then row.lookup == cr.sha(password) else cr.matches(row.hash, password)
  }

  /** Row t authenticates the password through the fingerprint index. */
  predicate LookupHit(cr: Crypto, db: Db, now: Time, user: string, password: string, t: string) {
    && t in db.tokens
    && ActiveFor(db.tokens[t], user, now)
    && db.tokens[t].lookup == cr.sha(password)
  }

  /** Row t has no fingerprint and authenticates the password through bcrypt. */
  predicate LegacyHit(cr: Crypto, db: Db, now: Time, user: string, password: string, t: string) {
    && t in db.tokens
    && ActiveFor(db.tokens[t], user, now)
    && db.tokens[t].lookup == ""
    && cr.matches(db.tokens[t].hash, password)
  }

  function FromRow(db: Db, user: string, t: string): AuthResult
    requires t in db.tokens
  {
    var c := db.tokens[t].connectionID;
    if c == "" || c !in db.connections then Err(NoConnection) else Ok(TenantContext(user, c, t))
  }

  ghost predicate RowAnswer(cr: Crypto, db: Db, now: Time, user: string, password: string, r: AuthResult) {
    if exists t :: LookupHit(cr, db, now, user, password, t)
    then exists t :: LookupHit(cr, db, now, user, password, t) && r == FromRow(db, user, t)
    else if exists t :: LegacyHit(cr, db, now, user, password, t)
    then exists t :: LegacyHit(cr, db, now, user, password, t) && r == FromRow(db, user, t)
    else r == Err(AuthFailed)
  }

  /** r is an answer the store alone can give; the order in which rows are scanned is left open. */
  ghost predicate FullAnswer(cr: Crypto, db: Db, now: Time, user: string, password: string, r: AuthResult) {
    if user !in db.tenants then r == Err(AuthFailed)
    else if !StatusActive(db.tenants[user]) then r == Err(TenantInactive)
    else RowAnswer(cr, db, now, user, password, r)
  }

  // ---------------------------------------------------------------- the cached lookup

  /** revalidateToken: what a hit still checks. */
  predicate Revalidates(db: Db, now: Time, tc: TenantContext) {
    && tc.tokenID in db.tokens
    && ActiveFor(db.tokens[tc.tokenID], tc.tenantID, now)
  }

  predicate FreshEntry(ttl: Time, cache: AuthCache, now: Time, key: string) {
    0 < ttl && key in cache && now <= cache[key].exp
  }

  predicate CacheAnswers(ttl: Time, db: Db, cache: AuthCache, now: Time, key: string) {
    FreshEntry(ttl, cache, now, key) && Revalidates(db, now, cache[key].tc)
  }

  function CachedContext(db: Db, cache: AuthCache, key: string): TenantContext
    requires key in cache && cache[key].tc.tokenID in db.tokens
  {
    cache[key].tc.(connectionID := db.tokens[cache[key].tc.tokenID].connectionID)
  }

  /** r is an answer of Authenticate. */
  ghost predicate AuthAnswer(cr: Crypto, ttl: Time, db: Db, cache: AuthCache, now: Time,
                             username: string, password: string, r: AuthResult) {
    var user := TrimSpace(username);
    var key := CacheKey(user, cr.sha(password));
    if user == "" || password == "" then r == Err(AuthFailed)
    else if CacheAnswers(ttl, db, cache, now, key) then r == Ok(CachedContext(db, cache, key))
    else FullAnswer(cr, db, now, user, password, r)
  }

  function Pruned(cache: AuthCache, now: Time): AuthCache {
    map k | k in cache && now <= cache[k].exp :: cache[k]
  }

  function CachePut(cache: AuthCache, ttl: Time, now: Time, key: string, tc: TenantContext): AuthCache {
    if ttl <= 0 then cache
    else (if |cache| > MAX_CACHE_BEFORE_PRUNE then Pruned(cache, now) else cache)[key := CacheEntry(tc, now + ttl)]
  }

  /** The cache after Authenticate has answered r. */
  function CacheAfter(cr: Crypto, ttl: Time, db: Db, cache: AuthCache, now: Time,
                      username: string, password: string, r: AuthResult): AuthCache {
    var user := TrimSpace(username);
    var key := CacheKey(user, cr.sha(password));
    if user == "" || password == "" || CacheAnswers(ttl, db, cache, now, key) then cache
    else
      var kept := if FreshEntry(ttl, cache, now, key) then cache - {key} else cache;
      if r.Ok? then CachePut(kept, ttl, now, key, r.value) else kept
  }

  /** The cache without the successes of a token. */
  function Forgotten(cache: AuthCache, tokenID: string): AuthCache {
    map k | k in cache && cache[k].tc.tokenID != tokenID :: cache[k]
  }

  class Validator {
    const store: MemoryStore
    const crypto: Crypto
    const cacheTTL: Time
    var cache: AuthCache

    constructor (store: MemoryStore, crypto: Crypto, cacheTTL: Time)
      ensures this.store == store && this.crypto == crypto && cache == map[]
      ensures this.cacheTTL == if cacheTTL < 0 then 0 else cacheTTL
    {
      this.store, this.crypto, this.cache := store, crypto, map[];
      this.cacheTTL := if cacheTTL < 0 then 0 else cacheTTL;
    }

    method Authenticate(username: string, password: string, now: Time) returns (res: AuthResult)
      requires CryptoOk(crypto)
      modifies this
      ensures AuthAnswer(crypto, cacheTTL, store.Contents(), old(cache), now, username, password, res)
      ensures cache == CacheAfter(crypto, cacheTTL, store.Contents(), old(cache), now, username, password, res)
    {
      var user := TrimSpace(username);
      if user == "" || password == "" {
        return Err(AuthFailed);
      }
      var key := CacheKey(user, crypto.sha(password));
      if cacheTTL > 0 {
        var hit := CacheGet(key, now);
        if hit.Some? {
          var tc := Revalidate(hit.value, now);
          if tc.Some? {
            return Ok(tc.value);
          }
          cache := cache - {key};
        }
      }
      res := LookupInStore(user, password, now);
      if res.Ok? {
        StoreResult(key, res.value, now);
      }
    }

    method InvalidateAuthCache()
      modifies this
      ensures cache == map[]
    {
      cache := map[];
    }

    method InvalidateToken(tokenID: string)
      modifies this
      ensures cache == Forgotten(old(cache), tokenID)
    {
      ghost var was := cache;
      var todo := cache.Keys;
      while todo != {}
        invariant todo <= was.Keys
        invariant cache == map k | k in was && (k in todo || was[k].tc.tokenID != tokenID) :: was[k]
      {
        var k :| k in todo;
        if cache[k].tc.tokenID == tokenID {
          cache := cache - {k};
        }
        todo := todo - {k};
      }
    }

    method LookupInStore(user: string, password: string, now: Time) returns (res: AuthResult)
      requires CryptoOk(crypto)
      ensures FullAnswer(crypto, store.Contents(), now, user, password, res)
    {
      var tenant := store.GetTenant(user);
      if tenant.Err? {
        return Err(AuthFailed);
      }
      if tenant.value.status != "" && tenant.value.status != "active" {
        return Err(TenantInactive);
      }
      var row := store.GetActiveTokenByLookup(user, crypto.sha(password), now);
      if row.Some? {
        assert LookupHit(crypto, store.Contents(), now, user, password, row.value);
        res := ContextFromRow(user, row.value);
        return;
      }
      assert crypto.sha(password) != "";
      var rows := store.ListActiveTokenHashes(user, now);
      var i := 0;
      while i < |rows|
        invariant 0 <= i <= |rows|
        invariant forall j :: 0 <= j < i ==> !LegacyHit(crypto, store.Contents(), now, user, password, rows[j])
      {
        var t := rows[i];
        assert t in rows;
        i := i + 1;
        if store.tokens[t].lookup != "" {
          continue;
        }
        if !crypto.matches(store.tokens[t].hash, password) {
          continue;
        }
        assert LegacyHit(crypto, store.Contents(), now, user, password, t);
        res := ContextFromRow(user, t);
        return;
      }
      assert forall t :: LegacyHit(crypto, store.Contents(), now, user, password, t) ==> t in rows;
      return Err(AuthFailed);
    }

    method ContextFromRow(tenantID: string, t: string) returns (res: AuthResult)
      requires t in store.tokens
      ensures res == FromRow(store.Contents(), tenantID, t)
    {
      var connectionID := store.tokens[t].connectionID;
      if connectionID == "" {
        return Err(NoConnection);
      }
      var c := store.GetConnection(connectionID);
      if c.Err? {
        return Err(NoConnection);
      }
      return Ok(TenantContext(tenantID, connectionID, t));
    }

    method Revalidate(tc: TenantContext, now: Time) returns (r: Option<TenantContext>)
      ensures r == if Revalidates(store.Contents(), now, tc)
                   then Some(tc.(connectionID := store.tokens[tc.tokenID].connectionID)) else None
      ensures r.Some? <==>
                && tc.tokenID in store.tokens && store.tokens[tc.tokenID].tenantID == tc.tenantID
                && store.tokens[tc.tokenID].revokedAt == None && store.tokens[tc.tokenID].connectionID != ""
                && (store.tokens[tc.tokenID].expiresAt == None || now <= store.tokens[tc.tokenID].expiresAt.value)
    {
      var tok := store.GetTokenByID(tc.tokenID);
      if tok.Err? {
        return None;
      }
      if tok.value.tenantID != tc.tenantID {
        return None;
      }
      if tok.value.revokedAt.Some? {
        return None;
      }
      if tok.value.expiresAt.Some? && tok.value.expiresAt.value < now {
        return None;
      }
      if tok.value.connectionID == "" {
        return None;
      }
      return Some(tc.(connectionID := tok.value.connectionID));
    }

    method CacheGet(key: string, now: Time) returns (r: Option<TenantContext>)
      ensures r == if key in cache && now <= cache[key].exp then Some(cache[key].tc) else None
    {
      if key !in cache || cache[key].exp < now {
        return None;
      }
      return Some(cache[key].tc);
    }

    method StoreResult(key: string, tc: TenantContext, now: Time)
      modifies this
      ensures cache == CachePut(old(cache), cacheTTL, now, key, tc)
    {
      if cacheTTL <= 0 {
        return;
      }
      if |cache| > MAX_CACHE_BEFORE_PRUNE {
        ghost var was := cache;
        var todo := cache.Keys;
        while todo != {}
          invariant todo <= was.Keys
          invariant cache == map k | k in was && (k in todo || now <= was[k].exp) :: was[k]
        {
          var k :| k in todo;
          if cache[k].exp < now {
            cache := cache - {k};
          }
          todo := todo - {k};
        }
      }
      cache := cache[key := CacheEntry(tc, now + cacheTTL)];
    }
  }

  // ---------------------------------------------------------------- why the partial re-check is enough

  /** Every tenant is active, every connection belongs to a tenant, and every token names a tenant and,
      if it is bound at all, a connection of that tenant. */
  ghost predicate RowsBound(db: Db) {
    && (forall i :: i in db.tenants ==> StatusActive(db.tenants[i]))
    && (forall c :: c in db.connections ==> db.connections[c].tenantID in db.tenants)
    && (forall t :: t in db.tokens ==> TokenBound(db, db.tokens[t]))
  }

  predicate TokenBound(db: Db, row: Token) {
    && row.tenantID in db.tenants
    && (row.connectionID == "" || OwnsConnection(db, row.tenantID, row.connectionID))
  }

  /** No password is the secret of two rows of one tenant. */
  ghost predicate SecretsUnique(cr: Crypto, db: Db) {
    forall t, u, p | t in db.tokens && u in db.tokens && db.tokens[t].tenantID == db.tokens[u].tenantID
                     && SecretOf(cr, db.tokens[t], p) && SecretOf(cr, db.tokens[u], p) :: t == u
  }

  /** A cached success names its own tenant, and a token whose secret is the cached password, if that
      token still exists. */
  ghost predicate CacheSound(cr: Crypto, db: Db, cache: AuthCache) {
    forall u, p :: CacheKey(u, cr.sha(p)) in cache ==> EntrySound(cr, db, cache[CacheKey(u, cr.sha(p))].tc, u, p)
  }

  ghost predicate EntrySound(cr: Crypto, db: Db, tc: TenantContext, user: string, password: string) {
    && tc.tenantID == user
    && (tc.tokenID in db.tokens ==>
          db.tokens[tc.tokenID].tenantID == user && SecretOf(cr, db.tokens[tc.tokenID], password))
  }

  /** The whole state of a run; issued holds every token id ever handed out. */
  datatype State = State(db: Db, cache: AuthCache, issued: set<string>)

  ghost predicate IdsIssued(s: State) {
    && s.db.tokens.Keys <= s.issued
    && forall k :: k in s.cache ==> s.cache[k].tc.tokenID in s.issued
  }

  ghost predicate StoreInv(cr: Crypto, db: Db) {
    RowsBound(db) && SecretsUnique(cr, db)
  }

  ghost predicate Inv(cr: Crypto, s: State) {
    StoreInv(cr, s.db) && CacheSound(cr, s.db, s.cache) && IdsIssued(s)
  }

  /** With unique secrets, the store alone has one answer. */
  lemma FullAnswerUnique(cr: Crypto, db: Db, now: Time, user: string, password: string, r: AuthResult, q: AuthResult)
    requires CryptoOk(cr) && SecretsUnique(cr, db)
    requires FullAnswer(cr, db, now, user, password, r) && FullAnswer(cr, db, now, user, password, q)
    ensures r == q
  {
    if user in db.tenants && StatusActive(db.tenants[user]) {
      assert cr.sha(password) != "";
      forall t, u | (LookupHit(cr, db, now, user, password, t) && LookupHit(cr, db, now, user, password, u))
                    || (LegacyHit(cr, db, now, user, password, t) && LegacyHit(cr, db, now, user, password, u))
        ensures t == u
      {
        assert SecretOf(cr, db.tokens[t], password) && SecretOf(cr, db.tokens[u], password);
      }
    }
  }

  /** A hit that passes the partial re-check gives the answer the store would give. */
  lemma HitAgreesWithStore(cr: Crypto, db: Db, cache: AuthCache, now: Time, ttl: Time, user: string, password: string)
    requires CryptoOk(cr) && StoreInv(cr, db) && CacheSound(cr, db, cache)
    requires CacheAnswers(ttl, db, cache, now, CacheKey(user, cr.sha(password)))
    ensures FullAnswer(cr, db, now, user, password,
                       Ok(CachedContext(db, cache, CacheKey(user, cr.sha(password)))))
  {
    var key := CacheKey(user, cr.sha(password));
    var tc := cache[key].tc;
    assert EntrySound(cr, db, tc, user, password);
    var row := db.tokens[tc.tokenID];
    assert TokenBound(db, row);
    assert FromRow(db, user, tc.tokenID) == Ok(CachedContext(db, cache, key));
    assert cr.sha(password) != "";
    if row.lookup != "" {
      assert LookupHit(cr, db, now, user, password, tc.tokenID);
    } else {
      assert LegacyHit(cr, db, now, user, password, tc.tokenID);
      forall t | LookupHit(cr, db, now, user, password, t) ensures false {
        assert SecretOf(cr, db.tokens[t], password) && SecretOf(cr, row, password);
      }
    }
  }

  // ---------------------------------------------------------------- runs

  datatype Event =
    | CreateTenant(id: string, name: string)
    | DeleteTenant(id: string)
    | CreateConnection(tenantID: string, connectionID: string, name: string, uri: string)
    | DeleteConnection(tenantID: string, connectionID: string)
    | IssueToken(tenantID: string, connectionID: string, id: string, hash: string, secret: string)
    | RevokeToken(id: string, now: Time)
    | ReenableToken(id: string, window: Time, now: Time)
    | InvalidateAuthCache
    | InvalidateToken(tokenID: string)
    | Authenticate(username: string, password: string, now: Time)

  /** A call of a control-plane service, which changes the store and not the cache. */
  predicate IsCall(ev: Event) {
    !ev.Authenticate? && !ev.InvalidateAuthCache? && !ev.InvalidateToken?
  }

  datatype Output = Called(err: Option<ServiceError>) | Answered(res: AuthResult)

  ghost function ServiceCall(cr: Crypto, db: Db, ev: Event): Outcome
    requires IsCall(ev)
  {
    match ev
    case CreateTenant(id, name) => TenantCreate(db, id, name)
    case DeleteTenant(id) => TenantDelete(db, id)
    case CreateConnection(t, c, name, uri) => ConnectionCreate(db, t, c, name, uri)
    case DeleteConnection(t, c) => ConnectionDelete(db, t, c)
    case IssueToken(t, c, id, hash, secret) => TokenIssue(db, t, c, id, hash, cr.sha(secret))
    case RevokeToken(id, now) => TokenRevoke(db, id, now)
    case ReenableToken(id, window, now) => TokenReenable(db, id, window, now)
  }

  /** What the random source guarantees: connection ids and token ids are new, and so is the secret. */
  ghost predicate Fresh(cr: Crypto, s: State, ev: Event) {
    match ev
    case CreateConnection(_, c, _, _) => c !in s.db.connections
    case IssueToken(_, _, id, _, secret) =>
      id !in s.issued && forall t :: t in s.db.tokens ==> !SecretOf(cr, s.db.tokens[t], secret)
    case _ => true
  }

  ghost predicate Allowed(cr: Crypto, ttl: Time, s: State, ev: Event, out: Output) {
    && Fresh(cr, s, ev)
    && (if ev.Authenticate?
        then out.Answered? && AuthAnswer(cr, ttl, s.db, s.cache, ev.now, ev.username, ev.password, out.res)
        else out == Called(if IsCall(ev) then ServiceCall(cr, s.db, ev).err else None))
  }

  ghost function Next(cr: Crypto, ttl: Time, s: State, ev: Event, out: Output): State
    requires Allowed(cr, ttl, s, ev, out)
  {
    match ev
    case Authenticate(username, password, now) =>
      s.(cache := CacheAfter(cr, ttl, s.db, s.cache, now, username, password, out.res))
    case InvalidateAuthCache => s.(cache := map[])
    case InvalidateToken(tokenID) => s.(cache := Forgotten(s.cache, tokenID))
    case IssueToken(_, _, id, _, _) => s.(db := ServiceCall(cr, s.db, ev).db, issued := s.issued + {id})
    case _ => s.(db := ServiceCall(cr, s.db, ev).db)
  }

  /** outs is what a run over evs from s may report. */
  ghost predicate Run(cr: Crypto, ttl: Time, s: State, evs: seq<Event>, outs: seq<Output>)
    decreases |evs|
  {
    if evs == [] then outs == []
    else outs != [] && Allowed(cr, ttl, s, evs[0], outs[0])
         && Run(cr, ttl, Next(cr, ttl, s, evs[0], outs[0]), evs[1..], outs[1..])
  }

  /** Service calls keep rows bound: cascading deletes, guarded issue, tenants created active. */
  lemma ServiceKeepsRowsBound(cr: Crypto, s: State, ev: Event)
    requires RowsBound(s.db) && Fresh(cr, s, ev) && IsCall(ev)
    ensures RowsBound(ServiceCall(cr, s.db, ev).db)
  {
    var db := ServiceCall(cr, s.db, ev).db;
    forall t | t in db.tokens ensures TokenBound(db, db.tokens[t]) {
      if t in s.db.tokens {
        assert TokenBound(s.db, s.db.tokens[t]);
      }
    }
  }

  lemma IssueKeepsSecretsUnique(cr: Crypto, s: State, ev: Event)
    requires CryptoOk(cr) && SecretsUnique(cr, s.db) && ev.IssueToken? && Fresh(cr, s, ev)
    ensures SecretsUnique(cr, ServiceCall(cr, s.db, ev).db)
  {
    var db := ServiceCall(cr, s.db, ev).db;
    forall t, u, p | t in db.tokens && u in db.tokens && db.tokens[t].tenantID == db.tokens[u].tenantID
                     && SecretOf(cr, db.tokens[t], p) && SecretOf(cr, db.tokens[u], p)
      ensures t == u
    {
      assert cr.sha(ev.secret) != "";
      if OwnsConnection(s.db, ev.tenantID, ev.connectionID) && (t == ev.id || u == ev.id) {
        assert p == ev.secret;
      }
    }
  }

  /** Calls other than issue add no row and change no secret. */
  lemma SecretsKept(cr: Crypto, s: State, ev: Event)
    requires IsCall(ev) && !ev.IssueToken?
    ensures var db := ServiceCall(cr, s.db, ev).db;
            forall t :: t in db.tokens ==>
              && t in s.db.tokens && db.tokens[t].tenantID == s.db.tokens[t].tenantID
              && db.tokens[t].hash == s.db.tokens[t].hash && db.tokens[t].lookup == s.db.tokens[t].lookup
  {
  }

  lemma ServiceKeepsSecretsUnique(cr: Crypto, s: State, ev: Event)
    requires CryptoOk(cr) && SecretsUnique(cr, s.db) && Fresh(cr, s, ev) && IsCall(ev)
    ensures SecretsUnique(cr, ServiceCall(cr, s.db, ev).db)
  {
    if ev.IssueToken? {
      IssueKeepsSecretsUnique(cr, s, ev);
    } else {
      SecretsKept(cr, s, ev);
      var db := ServiceCall(cr, s.db, ev).db;
      forall t, u, p | t in db.tokens && u in db.tokens && db.tokens[t].tenantID == db.tokens[u].tenantID
                       && SecretOf(cr, db.tokens[t], p) && SecretOf(cr, db.tokens[u], p)
        ensures t == u
      {
        assert SecretOf(cr, s.db.tokens[t], p) && SecretOf(cr, s.db.tokens[u], p);
      }
    }
  }

  lemma ServiceKeepsCacheSound(cr: Crypto, s: State, ev: Event)
    requires CryptoOk(cr) && Inv(cr, s) && Fresh(cr, s, ev) && IsCall(ev)
    ensures CacheSound(cr, ServiceCall(cr, s.db, ev).db, s.cache)
  {
    var db := ServiceCall(cr, s.db, ev).db;
    forall u, p | CacheKey(u, cr.sha(p)) in s.cache
      ensures EntrySound(cr, db, s.cache[CacheKey(u, cr.sha(p))].tc, u, p)
    {
      var tc := s.cache[CacheKey(u, cr.sha(p))].tc;
      assert EntrySound(cr, s.db, tc, u, p);
      if tc.tokenID in db.tokens {
        if !ev.IssueToken? {
          SecretsKept(cr, s, ev);
        }
        assert tc.tokenID in s.issued;
        assert tc.tokenID in s.db.tokens;
      }
    }
  }

  lemma PutKeepsCacheSound(cr: Crypto, db: Db, cache: AuthCache, ttl: Time, now: Time, user: string, password: string,
                           tc: TenantContext)
    requires CryptoOk(cr) && CacheSound(cr, db, cache) && EntrySound(cr, db, tc, user, password)
    ensures CacheSound(cr, db, CachePut(cache, ttl, now, CacheKey(user, cr.sha(password)), tc))
  {
    var key := CacheKey(user, cr.sha(password));
    var c := CachePut(cache, ttl, now, key, tc);
    forall u, p | CacheKey(u, cr.sha(p)) in c
      ensures EntrySound(cr, db, c[CacheKey(u, cr.sha(p))].tc, u, p)
    {
      if CacheKey(u, cr.sha(p)) == key {
        CacheKeyInjective(u, cr.sha(p), user, cr.sha(password));
      }
    }
  }

  /** A success of the full lookup names a row of the tenant whose secret is the password. */
  lemma FullAnswerSound(cr: Crypto, db: Db, now: Time, user: string, password: string, tc: TenantContext)
    requires CryptoOk(cr) && FullAnswer(cr, db, now, user, password, Ok(tc))
    ensures tc.tokenID in db.tokens && EntrySound(cr, db, tc, user, password)
  {
    assert cr.sha(password) != "";
  }

  lemma AuthenticateKeepsInv(cr: Crypto, ttl: Time, s: State, ev: Event, out: Output)
    requires CryptoOk(cr) && Inv(cr, s) && ev.Authenticate? && Allowed(cr, ttl, s, ev, out)
    ensures Inv(cr, Next(cr, ttl, s, ev, out))
  {
    var user := TrimSpace(ev.username);
    var key := CacheKey(user, cr.sha(ev.password));
    var kept := if FreshEntry(ttl, s.cache, ev.now, key) then s.cache - {key} else s.cache;
    if user != "" && ev.password != "" && !CacheAnswers(ttl, s.db, s.cache, ev.now, key) && out.res.Ok? {
      FullAnswerSound(cr, s.db, ev.now, user, ev.password, out.res.value);
      PutKeepsCacheSound(cr, s.db, kept, ttl, ev.now, user, ev.password, out.res.value);
    }
  }

  lemma StepKeepsInv(cr: Crypto, ttl: Time, s: State, ev: Event, out: Output)
    requires CryptoOk(cr) && Inv(cr, s) && Allowed(cr, ttl, s, ev, out)
    ensures Inv(cr, Next(cr, ttl, s, ev, out))
  {
    if ev.Authenticate? {
      AuthenticateKeepsInv(cr, ttl, s, ev, out);
    } else if IsCall(ev) {
      ServiceKeepsRowsBound(cr, s, ev);
      ServiceKeepsSecretsUnique(cr, s, ev);
      ServiceKeepsCacheSound(cr, s, ev);
      if !ev.IssueToken? {
        SecretsKept(cr, s, ev);
      }
    }
  }

  /** Cached and uncached validators have the same answers in a state of the invariant. */
  lemma AnswersAgree(cr: Crypto, ttl: Time, db: Db, cache: AuthCache, other: AuthCache, now: Time,
                     username: string, password: string, r: AuthResult)
    requires CryptoOk(cr) && StoreInv(cr, db) && CacheSound(cr, db, cache)
    ensures AuthAnswer(cr, ttl, db, cache, now, username, password, r) <==>
            AuthAnswer(cr, 0, db, other, now, username, password, r)
  {
    var user := TrimSpace(username);
    var key := CacheKey(user, cr.sha(password));
    if user != "" && password != "" && CacheAnswers(ttl, db, cache, now, key) {
      HitAgreesWithStore(cr, db, cache, now, ttl, user, password);
      if FullAnswer(cr, db, now, user, password, r) {
        FullAnswerUnique(cr, db, now, user, password, r, Ok(CachedContext(db, cache, key)));
      }
    }
  }

  /** The cache is transparent: over any run of store operations and logins, a validator with the cache
      reports exactly what one without it reports. */
  lemma {:induction false} CacheTransparent(cr: Crypto, ttl: Time, s: State, plain: State,
                                            evs: seq<Event>, outs: seq<Output>)
    requires CryptoOk(cr) && Inv(cr, s) && plain.db == s.db && plain.issued == s.issued
    ensures Run(cr, ttl, s, evs, outs) <==> Run(cr, 0, plain, evs, outs)
    decreases |evs|
  {
    if evs != [] && outs != [] {
      var ev, out := evs[0], outs[0];
      if ev.Authenticate? && out.Answered? {
        AnswersAgree(cr, ttl, s.db, s.cache, plain.cache, ev.now, ev.username, ev.password, out.res);
      }
      assert Allowed(cr, ttl, s, ev, out) <==> Allowed(cr, 0, plain, ev, out);
      if Allowed(cr, ttl, s, ev, out) {
        StepKeepsInv(cr, ttl, s, ev, out);
        CacheTransparent(cr, ttl, Next(cr, ttl, s, ev, out), Next(cr, 0, plain, ev, out), evs[1..], outs[1..]);
      }
    }
  }

  /** The invariant holds at the start: an empty store and an empty cache. */
  lemma EmptyStoreTransparent(cr: Crypto, ttl: Time, evs: seq<Event>, outs: seq<Output>)
    requires CryptoOk(cr)
    ensures var s := State(EMPTY, map[], {});
            Run(cr, ttl, s, evs, outs) <==> Run(cr, 0, s, evs, outs)
  {
    var s := State(EMPTY, map[], {});
    CacheTransparent(cr, ttl, s, s, evs, outs);
  }
}
