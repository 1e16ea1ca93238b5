/** Who may log in: the answers of the validator, on the fields of the rows and on the history of calls. */
module AuthSafety {
  import opened Wrappers
  import opened Text
  import opened Store
  import opened Services
  import opened Auth

  /** What a row must be to let the password in for the tenant. */
  predicate Admits(cr: Crypto, row: Token, user: string, password: string, now: Time) {
    && row.tenantID == user
    && row.revokedAt == None
    && (row.expiresAt == None || now <= row.expiresAt.value)
    && row.connectionID != ""
    && (if row.lookup == "" then cr.matches(row.hash, password) else row.lookup == cr.sha(password))
  }

  /** A login succeeds, with or without the help of the cache, exactly on an active tenant with an unrevoked,
      unexpired row of its own that is bound to an existing connection and whose secret is the password. */
  lemma LoginExactly(cr: Crypto, ttl: Time, s: State, now: Time, username: string, password: string, tc: TenantContext)
    requires CryptoOk(cr) && Inv(cr, s)
    ensures AuthAnswer(cr, ttl, s.db, s.cache, now, username, password, Ok(tc)) <==>
            && tc.tenantID == TrimSpace(username) && tc.tenantID != "" && password != ""
            && tc.tenantID in s.db.tenants && s.db.tenants[tc.tenantID].status in ["", "active"]
            && tc.tokenID in s.db.tokens
            && Admits(cr, s.db.tokens[tc.tokenID], tc.tenantID, password, now)
            && tc.connectionID == s.db.tokens[tc.tokenID].connectionID
            && tc.connectionID in s.db.connections
            && s.db.connections[tc.connectionID].tenantID == tc.tenantID
  {
    var user := TrimSpace(username);
    if user != "" && password != "" {
      AnswersAgree(cr, ttl, s.db, s.cache, s.cache, now, username, password, Ok(tc));
      assert AuthAnswer(cr, ttl, s.db, s.cache, now, username, password, Ok(tc)) <==>
             FullAnswer(cr, s.db, now, user, password, Ok(tc));
      FullLookupExactly(cr, s.db, now, user, password, tc);
      if tc.tokenID in s.db.tokens {
        assert TokenBound(s.db, s.db.tokens[tc.tokenID]);
      }
    }
  }

  lemma FullLookupExactly(cr: Crypto, db: Db, now: Time, user: string, password: string, tc: TenantContext)
    requires CryptoOk(cr) && StoreInv(cr, db)
    ensures FullAnswer(cr, db, now, user, password, Ok(tc)) <==>
            && tc.tenantID == user && user in db.tenants
            && tc.tokenID in db.tokens
            && Admits(cr, db.tokens[tc.tokenID], user, password, now)
            && tc.connectionID == db.tokens[tc.tokenID].connectionID
  {
    assert cr.sha(password) != "";
    if tc.tokenID in db.tokens && Admits(cr, db.tokens[tc.tokenID], user, password, now) {
      var row := db.tokens[tc.tokenID];
      assert TokenBound(db, row);
      if row.lookup != "" {
        assert LookupHit(cr, db, now, user, password, tc.tokenID);
      } else {
        assert LegacyHit(cr, db, now, user, password, tc.tokenID);
      }
      forall t | LookupHit(cr, db, now, user, password, t) || LegacyHit(cr, db, now, user, password, t)
        ensures t == tc.tokenID
      {
        assert SecretOf(cr, db.tokens[t], password) && SecretOf(cr, row, password);
      }
    }
  }

  predicate RowHit(cr: Crypto, db: Db, now: Time, user: string, password: string, t: string) {
    LookupHit(cr, db, now, user, password, t) || LegacyHit(cr, db, now, user, password, t)
  }

  lemma HitAdmits(cr: Crypto, db: Db, now: Time, user: string, password: string, t: string)
    requires CryptoOk(cr)
    ensures RowHit(cr, db, now, user, password, t) <==>
            t in db.tokens && Admits(cr, db.tokens[t], user, password, now)
  {
    assert cr.sha(password) != "";
  }

  /** Which refusal a login without the cache gets, whatever the rows are. */
  lemma RefusalsMeaning(cr: Crypto, db: Db, now: Time, username: string, password: string, r: AuthResult)
    requires CryptoOk(cr) && AuthAnswer(cr, 0, db, map[], now, username, password, r)
    ensures r == Err(TenantInactive) <==>
            && TrimSpace(username) != "" && password != "" && TrimSpace(username) in db.tenants
            && db.tenants[TrimSpace(username)].status !in ["", "active"]
    ensures r == Err(NoConnection) ==>
            exists t | t in db.tokens ::
              Admits(cr, db.tokens[t], TrimSpace(username), password, now)
              && db.tokens[t].connectionID !in db.connections
    ensures r == Err(AuthFailed) && TrimSpace(username) != "" && password != "" && TrimSpace(username) in db.tenants ==>
            forall t | t in db.tokens :: !Admits(cr, db.tokens[t], TrimSpace(username), password, now)
  {
    var user := TrimSpace(username);
    assert cr.sha(password) != "";
    if r == Err(NoConnection) {
      var t :| RowHit(cr, db, now, user, password, t) && FromRow(db, user, t) == r;
      HitAdmits(cr, db, now, user, password, t);
    }
    if r == Err(AuthFailed) && user != "" && password != "" && user in db.tenants {
      forall t | t in db.tokens ensures !Admits(cr, db.tokens[t], user, password, now) {
        HitAdmits(cr, db, now, user, password, t);
      }
    }
  }

  // ---------------------------------------------------------------- revocation over runs

  /** The state a run ends in. */
  ghost function After(cr: Crypto, ttl: Time, s: State, evs: seq<Event>, outs: seq<Output>): State
    requires Run(cr, ttl, s, evs, outs)
    decreases |evs|
  {
    if evs == [] then s else After(cr, ttl, Next(cr, ttl, s, evs[0], outs[0]), evs[1..], outs[1..])
  }

  /** The token has been handed out, and is revoked or deleted. */
  ghost predicate LockedOut(s: State, id: string) {
    id in s.issued && (id in s.db.tokens ==> s.db.tokens[id].revokedAt != None)
  }

  predicate Reenables(ev: Event, out: Output, id: string) {
    ev.ReenableToken? && ev.id == id && out == Called(None)
  }

  lemma StaysLockedOut(cr: Crypto, ttl: Time, s: State, ev: Event, out: Output, id: string)
    requires Allowed(cr, ttl, s, ev, out) && LockedOut(s, id) && !Reenables(ev, out, id)
    ensures LockedOut(Next(cr, ttl, s, ev, out), id)
  {
  }

  /** No login reports a token that is revoked or deleted, until a call re-enables it. */
  lemma {:induction false} LockedOutUntilReenabled(cr: Crypto, ttl: Time, s: State, evs: seq<Event>, outs: seq<Output>,
                                                   id: string, j: nat)
    requires CryptoOk(cr) && Inv(cr, s) && Run(cr, ttl, s, evs, outs) && LockedOut(s, id)
    requires j < |evs| && j < |outs|
    requires forall i | 0 <= i < j :: !Reenables(evs[i], outs[i], id)
    ensures outs[j].Answered? && outs[j].res.Ok? ==> outs[j].res.value.tokenID != id
    decreases j
  {
    if j == 0 {
      if outs[0].Answered? && outs[0].res.Ok? {
        LoginExactly(cr, ttl, s, evs[0].now, evs[0].username, evs[0].password, outs[0].res.value);
      }
    } else {
      var t := Next(cr, ttl, s, evs[0], outs[0]);
      StepKeepsInv(cr, ttl, s, evs[0], outs[0]);
      StaysLockedOut(cr, ttl, s, evs[0], outs[0], id);
      LockedOutUntilReenabled(cr, ttl, t, evs[1..], outs[1..], id, j - 1);
    }
  }

  /** After a revocation that succeeded, no login reports the token until a call re-enables it. */
  lemma RevokedUntilReenabled(cr: Crypto, ttl: Time, s: State, evs: seq<Event>, outs: seq<Output>, id: string, j: nat)
    requires CryptoOk(cr) && Inv(cr, s) && Run(cr, ttl, s, evs, outs)
    requires 0 < j < |evs| && |outs| == |evs|
    requires evs[0].RevokeToken? && evs[0].id == id && outs[0] == Called(None)
    requires forall i | 0 < i < j :: !Reenables(evs[i], outs[i], id)
    ensures outs[j].Answered? && outs[j].res.Ok? ==> outs[j].res.value.tokenID != id
  {
    StepKeepsInv(cr, ttl, s, evs[0], outs[0]);
    LockedOutUntilReenabled(cr, ttl, Next(cr, ttl, s, evs[0], outs[0]), evs[1..], outs[1..], id, j - 1);
  }

  // ---------------------------------------------------------------- a token's whole history

  /** What the calls so far have made of a token. */
  datatype Standing = Standing(tenantID: string, connectionID: string, secret: string, revoked: Option<Time>)

  /** The standing after one more call, from the call and its report alone. */
  function Follow(id: string, st: Option<Standing>, ev: Event, out: Output): Option<Standing> {
    if out != Called(None) then st
    else if ev.IssueToken? && ev.id == id then Some(Standing(ev.tenantID, ev.connectionID, ev.secret, None))
    else if st.None? then None
    else
      match ev
      case RevokeToken(i, now) => if i == id then Some(st.value.(revoked := Some(now))) else st
      case ReenableToken(i, _, _) => if i == id then Some(st.value.(revoked := None)) else st
      case DeleteTenant(t) => if t == st.value.tenantID then None else st
      case DeleteConnection(_, c) => if c == st.value.connectionID then None else st
      case _ => st
  }

  function History(id: string, st: Option<Standing>, evs: seq<Event>, outs: seq<Output>): Option<Standing>
    requires |outs| == |evs|
    decreases |evs|
  {
    if evs == [] then st else History(id, Follow(id, st, evs[0], outs[0]), evs[1..], outs[1..])
  }

  /** The rows agree with the standing. */
  ghost predicate Stands(cr: Crypto, s: State, id: string, st: Option<Standing>) {
    match st
    case None => id !in s.db.tokens
    case Some(v) =>
      && id in s.db.tokens
      && s.db.tokens[id] == Token(v.tenantID, v.connectionID, None, v.revoked, s.db.tokens[id].hash, cr.sha(v.secret))
  }

  lemma IssueStands(cr: Crypto, ttl: Time, s: State, ev: Event, out: Output, id: string, st: Option<Standing>)
    requires IdsIssued(s) && Allowed(cr, ttl, s, ev, out) && Stands(cr, s, id, st) && ev.IssueToken?
    ensures Stands(cr, Next(cr, ttl, s, ev, out), id, Follow(id, st, ev, out))
  {
  }

  lemma RevocationStands(cr: Crypto, ttl: Time, s: State, ev: Event, out: Output, id: string, st: Option<Standing>)
    requires Allowed(cr, ttl, s, ev, out) && Stands(cr, s, id, st)
    requires ev.RevokeToken? || ev.ReenableToken?
    ensures Stands(cr, Next(cr, ttl, s, ev, out), id, Follow(id, st, ev, out))
  {
  }

  lemma DeletionStands(cr: Crypto, ttl: Time, s: State, ev: Event, out: Output, id: string, st: Option<Standing>)
    requires Allowed(cr, ttl, s, ev, out) && Stands(cr, s, id, st)
    requires ev.DeleteTenant? || ev.DeleteConnection?
    ensures Stands(cr, Next(cr, ttl, s, ev, out), id, Follow(id, st, ev, out))
  {
  }

  lemma StepStands(cr: Crypto, ttl: Time, s: State, ev: Event, out: Output, id: string, st: Option<Standing>)
    requires IdsIssued(s) && Allowed(cr, ttl, s, ev, out) && Stands(cr, s, id, st)
    ensures Stands(cr, Next(cr, ttl, s, ev, out), id, Follow(id, st, ev, out))
  {
    match ev
    case DeleteTenant(_) => DeletionStands(cr, ttl, s, ev, out, id, st);
    case DeleteConnection(_, _) => DeletionStands(cr, ttl, s, ev, out, id, st);
    case IssueToken(_, _, _, _, _) => IssueStands(cr, ttl, s, ev, out, id, st);
    case RevokeToken(_, _) => RevocationStands(cr, ttl, s, ev, out, id, st);
    case ReenableToken(_, _, _) => RevocationStands(cr, ttl, s, ev, out, id, st);
    case _ =>
  }

  lemma {:induction false} RunStands(cr: Crypto, ttl: Time, s: State, evs: seq<Event>, outs: seq<Output>,
                                     id: string, st: Option<Standing>)
    requires CryptoOk(cr) && Inv(cr, s) && Run(cr, ttl, s, evs, outs) && Stands(cr, s, id, st)
    ensures |outs| == |evs|
    ensures Inv(cr, After(cr, ttl, s, evs, outs))
    ensures Stands(cr, After(cr, ttl, s, evs, outs), id, History(id, st, evs, outs))
    decreases |evs|
  {
    if evs != [] {
      StepKeepsInv(cr, ttl, s, evs[0], outs[0]);
      StepStands(cr, ttl, s, evs[0], outs[0], id, st);
      RunStands(cr, ttl, Next(cr, ttl, s, evs[0], outs[0]), evs[1..], outs[1..], id, Follow(id, st, evs[0], outs[0]));
    }
  }

  /** After any run from the empty store, a login reports a token exactly if the calls so far issued it to the
      tenant for this secret and connection and have neither revoked it nor deleted its tenant or connection. */
  lemma LoginsOverRuns(cr: Crypto, ttl: Time, evs: seq<Event>, outs: seq<Output>,
                       now: Time, username: string, password: string, tc: TenantContext)
    requires CryptoOk(cr) && Run(cr, ttl, State(EMPTY, map[], {}), evs, outs) && |outs| == |evs|
    ensures var s := After(cr, ttl, State(EMPTY, map[], {}), evs, outs);
            AuthAnswer(cr, ttl, s.db, s.cache, now, username, password, Ok(tc)) <==>
            && History(tc.tokenID, None, evs, outs) == Some(Standing(tc.tenantID, tc.connectionID, password, None))
            && tc.tenantID == TrimSpace(username) && tc.tenantID != "" && password != "" && tc.connectionID != ""
  {
    RunStands(cr, ttl, State(EMPTY, map[], {}), evs, outs, tc.tokenID, None);
    var s := After(cr, ttl, State(EMPTY, map[], {}), evs, outs);
    LoginExactly(cr, ttl, s, now, username, password, tc);
    if tc.tokenID in s.db.tokens {
      assert TokenBound(s.db, s.db.tokens[tc.tokenID]);
    }
  }

  /** After any run from the empty store, revoking succeeds exactly on a token that stands, and re-enabling
      exactly on a revoked one while the window lasts. */
  lemma RevocationsOverRuns(cr: Crypto, ttl: Time, evs: seq<Event>, outs: seq<Output>, id: string, window: Time,
                            now: Time)
    requires CryptoOk(cr) && Run(cr, ttl, State(EMPTY, map[], {}), evs, outs) && |outs| == |evs|
    ensures var db := After(cr, ttl, State(EMPTY, map[], {}), evs, outs).db;
            var st := History(id, None, evs, outs);
            && (TokenRevoke(db, id, now).err == None <==> st.Some?)
            && (TokenReenable(db, id, window, now).err == None <==>
                  && 0 < window && st.Some? && st.value.revoked.Some?
                  && now <= st.value.revoked.value + window)
  {
    RunStands(cr, ttl, State(EMPTY, map[], {}), evs, outs, id, None);
  }

  // ---------------------------------------------------------------- connections and their names

  /** When tenants and connections are created and deleted, and what that stores. */
  lemma CreatesAndDeletesExactly(db: Db, t: string, c: string, name: string, uri: string)
    ensures TenantCreate(db, t, name).err == None <==> t != "" && name != ""
    ensures TenantCreate(db, t, name).err == None ==>
              TenantCreate(db, t, name).db == db.(tenants := db.tenants[t := Tenant(name, "active")])
    ensures TenantDelete(db, t).err == None <==> t in db.tenants
    ensures ConnectionCreate(db, t, c, name, uri).err == None <==>
            && TrimSpace(name) != "" && uri != "" && t in db.tenants
            && forall d | d in db.connections :: db.connections[d].tenantID == t ==>
                 ToLower(db.connections[d].name) != ToLower(TrimSpace(name))
    ensures ConnectionCreate(db, t, c, name, uri).err == None ==>
              ConnectionCreate(db, t, c, name, uri).db ==
              db.(connections := db.connections[c := Connection(t, TrimSpace(name), false)])
    ensures ConnectionDelete(db, t, c).err == None <==> c in db.connections && db.connections[c].tenantID == t
  {
  }

  /** Deleting a tenant takes exactly what belongs to it, and deleting a connection it and its tokens. */
  lemma DeletionsAreExact(db: Db, id: string, k: string)
    ensures var t, c := WithoutTenant(db, id), WithoutConnection(db, id);
            && (k in t.connections <==> k in db.connections && db.connections[k].tenantID != id)
            && (k in t.tokens <==> k in db.tokens && db.tokens[k].tenantID != id)
            && (k in t.invites <==> k in db.invites && db.invites[k].tenantID != id)
            && (k in t.tenants <==> k in db.tenants && k != id) && (k in t.members <==> k in db.members && k != id)
            && (k in c.connections <==> k in db.connections && k != id)
            && (k in c.tokens <==> k in db.tokens && db.tokens[k].connectionID != id)
            && c.tenants == db.tenants && c.members == db.members && c.invites == db.invites
  {
  }

  /** A tenant's connections have different names, letter case aside. */
  ghost predicate NamesApart(db: Db) {
    forall c, d | c in db.connections && d in db.connections && db.connections[c].tenantID == db.connections[d].tenantID
                  && ToLower(db.connections[c].name) == ToLower(db.connections[d].name) :: c == d
  }

  lemma {:induction false} NamesStayApart(cr: Crypto, ttl: Time, s: State, evs: seq<Event>, outs: seq<Output>)
    requires Run(cr, ttl, s, evs, outs) && NamesApart(s.db)
    ensures NamesApart(After(cr, ttl, s, evs, outs).db)
    decreases |evs|
  {
    if evs != [] {
      NamesStayApart(cr, ttl, Next(cr, ttl, s, evs[0], outs[0]), evs[1..], outs[1..]);
    }
  }

  // ---------------------------------------------------------------- what the cache keeps

  /** Storing a success keeps every other entry that is still good and overwrites none but its own slot. */
  lemma PutKeepsTheLive(cache: AuthCache, ttl: Time, now: Time, key: string, tc: TenantContext, k: string)
    ensures var c := CachePut(cache, ttl, now, key, tc);
            && (0 < ttl ==> key in c && c[key] == CacheEntry(tc, now + ttl))
            && (ttl <= 0 ==> c == cache)
            && (k != key && k in c ==> k in cache && c[k] == cache[k])
            && (k != key && k in cache && now <= cache[k].exp ==> k in c)
            && (k != key && k in cache && |cache| <= 10000 ==> k in c)
  {
  }

  /** Invalidating a token drops exactly its successes. */
  lemma ForgetsExactly(cache: AuthCache, tokenID: string, k: string)
    ensures k in Forgotten(cache, tokenID) <==> k in cache && cache[k].tc.tokenID != tokenID
    ensures k in Forgotten(cache, tokenID) ==> Forgotten(cache, tokenID)[k] == cache[k]
  {
  }

  /** With the cache in use, a success is found there afterwards and a refusal is not. */
  lemma OnlySuccessesAreCached(cr: Crypto, ttl: Time, db: Db, cache: AuthCache, now: Time, username: string,
                               password: string, r: AuthResult)
    requires 0 < ttl && TrimSpace(username) != "" && password != ""
    requires AuthAnswer(cr, ttl, db, cache, now, username, password, r)
    ensures var key := TrimSpace(username) + (['\0'] + cr.sha(password));
            var c := CacheAfter(cr, ttl, db, cache, now, username, password, r);
            && (r.Ok? ==> key in c && now <= c[key].exp && c[key].tc.(connectionID := r.value.connectionID) == r.value)
            && (r.Ok? && c != cache ==> c[key] == CacheEntry(r.value, now + ttl))
            && (r.Err? ==> !(key in c && now <= c[key].exp))
  {
  }
}
