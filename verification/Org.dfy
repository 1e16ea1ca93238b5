/** Organisation membership: creating organisations, inviting, accepting, removing, and why an organisation
    never loses its last owner. */
module Org {
  import opened Wrappers
  import opened Text
  import opened Store
  import Services

  const WEEK: Time := 7 * 24 * 3600

  datatype OrgError =
    | CreationDisabled
    | NameRequired
    | BadID
    | IDExists
    | InvalidEmail
    | InvalidRole
    | OnlyOwnersInviteOwners
    | Forbidden
    | AlreadyMember
    | InviteNotFound
    | InviteExpired
    | TenantMissing
    | NotMember
    | OnlyOwnersRemoveOwners
    | LastOwner

  datatype Outcome = Outcome(db: Db, err: Option<OrgError>)

  function Done(db: Db): Outcome {
    Outcome(db, None)
  }

  function Refused(db: Db, e: OrgError): Outcome {
    Outcome(db, Some(e))
  }

  // ---------------------------------------------------------------- organisation ids

  predicate SlugEdge(c: char) {
    'a' <= c <= 'z' || '0' <= c <= '9'
  }

  predicate SlugInner(c: char) {
    SlugEdge(c) || c == '_' || c == '-'
  }

  /** The regular expression an id must match: one edge character, or three to sixty-four characters. */
  predicate SlugRe(s: string) {
    && s != [] && SlugEdge(s[0])
    && (|s| == 1 || (3 <= |s| <= 64 && SlugEdge(s[|s| - 1]) && forall i | 1 <= i < |s| - 1 :: SlugInner(s[i])))
  }

  /** Runs of other characters become one dash. */
  function Dashed(s: string, prevDash: bool): string {
    if s == [] then []
    else if SlugEdge(s[0]) then [s[0]] + Dashed(s[1..], false)
    else if !prevDash then ['-'] + Dashed(s[1..], true)
    else Dashed(s[1..], true)
  }

  function TrimDashesLeft(s: string): string {
    if s != [] && s[0] == '-' then TrimDashesLeft(s[1..]) else s
  }

  function TrimDashesRight(s: string): string {
    if s != [] && s[|s| - 1] == '-' then TrimDashesRight(s[..|s| - 1]) else s
  }

  function TrimDashes(s: string): string {
    TrimDashesRight(TrimDashesLeft(s))
  }

  /** hex4 and hex3 are the random suffixes. */
  function Slug(name: string, hex4: string, hex3: string): string {
    var out := TrimDashes(Dashed(ToLower(TrimSpace(name)), false));
    var base := if out == "" then "org-" + hex4 else out;
    var cut := if |base| > 48 then base[..48] else base;
    cut + ("-" + hex3)
  }

  method Slugify(name: string, hex4: string, hex3: string) returns (id: string)
    ensures id == Slug(name, hex4, hex3)
  {
    var b := WriteDashed(ToLower(TrimSpace(name)));
    var out := TrimDashes(b);
    if out == "" {
      out := "org-" + hex4;
    }
    if |out| > 48 {
      out := out[..48];
    }
    return out + ("-" + hex3);
  }

  lemma DashedStep(b: string, rest: string, prevDash: bool)
    requires rest != []
    ensures b + Dashed(rest, prevDash) ==
            if SlugEdge(rest[0]) then (b + [rest[0]]) + Dashed(rest[1..], false)
            else if !prevDash then (b + ['-']) + Dashed(rest[1..], true)
            else b + Dashed(rest[1..], true)
  {
  }

  method WriteDashed(s: string) returns (b: string)
    ensures b == Dashed(s, false)
  {
    b := "";
    var prevDash := false;
    var i := 0;
    while i < |s|
      invariant 0 <= i <= |s|
      invariant Dashed(s, false) == b + Dashed(s[i..], prevDash)
    {
      ghost var rest := s[i..];
      assert rest[0] == s[i] && rest[1..] == s[i + 1..];
      DashedStep(b, rest, prevDash);
      if SlugEdge(s[i]) {
        b := b + [s[i]];
        prevDash := false;
      } else if !prevDash {
        b := b + ['-'];
        prevDash := true;
      }
      i := i + 1;
    }
  }

  predicate Hex(s: string, n: nat) {
    |s| == n && forall i | 0 <= i < n :: SlugEdge(s[i])
  }

  predicate Dashy(s: string) {
    forall i | 0 <= i < |s| :: SlugEdge(s[i]) || s[i] == '-'
  }

  lemma {:induction false} DashedIsDashy(s: string, prevDash: bool)
    ensures Dashy(Dashed(s, prevDash))
    decreases |s|
  {
    if s != [] {
      DashedIsDashy(s[1..], false);
      DashedIsDashy(s[1..], true);
    }
  }

  lemma {:induction false} TrimLeftDashy(s: string)
    requires Dashy(s)
    ensures var t := TrimDashesLeft(s); Dashy(t) && (t != [] ==> SlugEdge(t[0]))
  {
    if s != [] && s[0] == '-' {
      TrimLeftDashy(s[1..]);
    }
  }

  lemma {:induction false} TrimRightDashy(s: string)
    requires Dashy(s)
    ensures var t := TrimDashesRight(s); Dashy(t) && t <= s && (t != [] ==> SlugEdge(t[|t| - 1]))
  {
    if s != [] && s[|s| - 1] == '-' {
      TrimRightDashy(s[..|s| - 1]);
    }
  }

  lemma SuffixedSlug(base: string, hex3: string)
    requires base != "" && |base| <= 48 && Dashy(base) && SlugEdge(base[0]) && Hex(hex3, 6)
    ensures SlugRe(base + ("-" + hex3)) && |base + ("-" + hex3)| == |base| + 7
  {
    var s := base + ("-" + hex3);
    assert s[|s| - 1] == hex3[5];
    forall i | 1 <= i < |s| - 1 ensures SlugInner(s[i]) {
      if |base| < i {
        assert s[i] == hex3[i - |base| - 1];
      }
    }
  }

  /** A generated id always passes the id check, whatever the name. */
  lemma SlugIsValid(name: string, hex4: string, hex3: string)
    requires Hex(hex4, 8) && Hex(hex3, 6)
    ensures SlugRe(Slug(name, hex4, hex3)) && 8 <= |Slug(name, hex4, hex3)| <= 55
  {
    var d := Dashed(ToLower(TrimSpace(name)), false);
    DashedIsDashy(ToLower(TrimSpace(name)), false);
    TrimLeftDashy(d);
    TrimRightDashy(TrimDashesLeft(d));
    var out := TrimDashes(d);
    assert Dashy(out) && (out != "" ==> SlugEdge(out[0]));
    var base := if out == "" then "org-" + hex4 else out;
    assert Dashy("org-") && base[0] == (if out == "" then 'o' else out[0]);
    assert Dashy(base);
    var cut := if |base| > 48 then base[..48] else base;
    SuffixedSlug(cut, hex3);
  }

  /** A valid id survives trimming and lower-casing, and cannot close the hash tag of a cache key. */
  lemma SlugIsClean(id: string)
    requires SlugRe(id)
    ensures TrimSpace(id) == id && ToLower(id) == id && '}' !in id
  {
    forall i | 0 <= i < |id| ensures SlugInner(id[i]) {
    }
    TrimIdle(id);
    assert ToLower(id) == id;
  }

  // ---------------------------------------------------------------- what the calls mean

  /** The id an organisation gets: the one asked for, or one made from its name. */
  function OrgID(id: string, name: string, hex4: string, hex3: string): string {
    var asked := TrimSpace(id);
    ToLower(if asked == "" then Slug(TrimSpace(name), hex4, hex3) else asked)
  }

  function CreateOrg(db: Db, inviteOnly: bool, userID: string, id: string, name: string, hex4: string, hex3: string)
    : Outcome
  {
    var org := OrgID(id, name, hex4, hex3);
    if inviteOnly then Refused(db, CreationDisabled)
    else if TrimSpace(name) == "" then Refused(db, NameRequired)
    else if !SlugRe(org) then Refused(db, BadID)
    else if org in db.tenants then Refused(db, IDExists)
    else Done(db.(tenants := db.tenants[org := Tenant(TrimSpace(name), "active")],
                  members := WithMember(db.members, org, userID, OWNER)))
  }

  predicate SameAddress(a: string, b: string) {
    ToLower(a) == ToLower(b)
  }

  function WithoutPending(db: Db, tenantID: string, email: string, now: Time): map<string, Invite> {
    map i | i in db.invites && !(db.invites[i].tenantID == tenantID && Pending(db.invites[i], now)
                                 && SameAddress(db.invites[i].email, email)) :: db.invites[i]
  }

  /** emailOk is the verdict of the address syntax check; "" asks for the default role. */
  function Invited(db: Db, tenantID: string, email: string, emailOk: bool, role: Role, inviterRole: Role,
                   id: string, now: Time): Outcome {
    var address := NormalEmail(email);
    var given := if role == "" then MEMBER else role;
    if address == "" || !emailOk then Refused(db, InvalidEmail)
    else if given !in {MEMBER, ADMIN, OWNER} then Refused(db, InvalidRole)
    else if inviterRole == ADMIN && given == OWNER then Refused(db, OnlyOwnersInviteOwners)
    else if inviterRole !in {OWNER, ADMIN} then Refused(db, Forbidden)
    else if address in db.usersByEmail && RoleOf(db.members, tenantID, db.usersByEmail[address]).Some?
    then Refused(db, AlreadyMember)
    else Done(db.(invites := WithoutPending(db, tenantID, address, now)
                             [id := Invite(tenantID, address, given, now + WEEK, false)]))
  }

  function Accepted(db: Db, userID: string, userEmail: string, inviteID: string, now: Time): Outcome {
    if inviteID !in db.invites || db.invites[inviteID].accepted then Refused(db, InviteNotFound)
    else
      var inv := db.invites[inviteID];
      if inv.expiresAt < now then Refused(db, InviteExpired)
      else if !SameAddress(inv.email, userEmail) then Refused(db, Forbidden)
      else
        Outcome(db.(members := WithMember(db.members, inv.tenantID, userID, inv.role),
                    invites := db.invites[inviteID := inv.(accepted := true)]),
                if inv.tenantID in db.tenants then None else Some(TenantMissing))
  }

  function Owners(members: Members, tenantID: string): (owners: set<string>)
    ensures forall u :: u in owners <==> RoleOf(members, tenantID, u) == Some(OWNER)
  {
    if tenantID in members
    then set u | u in members[tenantID] && members[tenantID][u] == OWNER
    else {}
  }

  ghost function OwnersIn(members: seq<(string, Role)>): set<string> {
    set m | m in members && m.1 == OWNER :: m.0
  }

  lemma OwnersInNext(members: seq<(string, Role)>, i: nat)
    requires i < |members|
    requires forall j, k | 0 <= j < k < |members| :: members[j].0 != members[k].0
    ensures |OwnersIn(members[..i + 1])| == |OwnersIn(members[..i])| + if members[i].1 == OWNER then 1 else 0
  {
    assert members[..i + 1] == members[..i] + [members[i]];
    assert OwnersIn(members[..i + 1]) ==
           OwnersIn(members[..i]) + if members[i].1 == OWNER then {members[i].0} else {};
  }

  lemma OwnersInAll(members: Members, tenantID: string, list: seq<(string, Role)>)
    requires forall i | 0 <= i < |list| :: RoleOf(members, tenantID, list[i].0) == Some(list[i].1)
    requires forall u :: RoleOf(members, tenantID, u).Some? ==> exists i | 0 <= i < |list| :: list[i].0 == u
    ensures OwnersIn(list) == Owners(members, tenantID)
  {
  }

  function Removed(db: Db, tenantID: string, target: string, actorRole: Role): Outcome {
    var role := RoleOf(db.members, tenantID, target);
    if role.None? then Refused(db, NotMember)
    else if role.value == OWNER && actorRole != OWNER then Refused(db, OnlyOwnersRemoveOwners)
    else if role.value == OWNER && |Owners(db.members, tenantID)| <= 1 then Refused(db, LastOwner)
    else Done(db.(members := WithoutMember(db.members, tenantID, target)))
  }

  function Revoked(db: Db, tenantID: string, inviteID: string): Outcome {
    if inviteID !in db.invites || db.invites[inviteID].tenantID != tenantID then Refused(db, InviteNotFound)
    else Done(db.(invites := db.invites - {inviteID}))
  }

  // ---------------------------------------------------------------- the service

  class OrgService {
    const store: MemoryStore
    const inviteOnly: bool

    constructor (store: MemoryStore, inviteOnly: bool)
      ensures this.store == store && this.inviteOnly == inviteOnly
    {
      this.store, this.inviteOnly := store, inviteOnly;
    }

    method CreateOrganization(userID: string, id: string, name: string, hex4: string, hex3: string)
        returns (err: Option<OrgError>)
      modifies store
      ensures Outcome(store.Contents(), err) ==
              CreateOrg(old(store.Contents()), inviteOnly, userID, id, name, hex4, hex3)
    {
      if inviteOnly {
        return Some(CreationDisabled);
      }
      var trimmed := TrimSpace(name);
      if trimmed == "" {
        return Some(NameRequired);
      }
      var org := TrimSpace(id);
      if org == "" {
        org := Slugify(trimmed, hex4, hex3);
      }
      org := ToLower(org);
      if !SlugRe(org) {
        return Some(BadID);
      }
      var existing := store.GetTenant(org);
      if existing.Ok? {
        return Some(IDExists);
      }
      store.CreateTenant(org, Tenant(trimmed, "active"));
      store.AddMember(org, userID, OWNER);
      return None;
    }

    method InviteMember(tenantID: string, email: string, emailOk: bool, role: Role, inviterRole: Role,
                        id: string, now: Time) returns (err: Option<OrgError>)
      modifies store
      ensures Outcome(store.Contents(), err) ==
              Invited(old(store.Contents()), tenantID, email, emailOk, role, inviterRole, id, now)
    {
      var address := NormalEmail(email);
      if address == "" || !emailOk {
        return Some(InvalidEmail);
      }
      var given := if role == "" then MEMBER else role;
      if given != MEMBER && given != ADMIN && given != OWNER {
        return Some(InvalidRole);
      }
      if inviterRole == ADMIN && given == OWNER {
        return Some(OnlyOwnersInviteOwners);
      }
      if inviterRole != OWNER && inviterRole != ADMIN {
        return Some(Forbidden);
      }
      CleanIdempotent(email);
      var u := store.GetUserByEmail(address);
      if u.Ok? {
        var m := store.GetMember(tenantID, u.value);
        if m.Some? {
          return Some(AlreadyMember);
        }
      }
      DropPending(tenantID, address, now);
      store.CreateInvite(id, Invite(tenantID, address, given, now + WEEK, false));
      return None;
    }

    method DropPending(tenantID: string, email: string, now: Time)
      modifies store
      ensures store.Contents() == old(store.Contents()).(
                invites := WithoutPending(old(store.Contents()), tenantID, email, now))
    {
      var existing := store.ListPendingInvitesForTenant(tenantID, now);
      ghost var was := store.Contents();
      var k := 0;
      while k < |existing|
        invariant 0 <= k <= |existing|
        invariant store.Contents() == was.(invites := store.invites)
        invariant store.invites == map i | i in was.invites &&
                    !((i, was.invites[i]) in existing[..k] && SameAddress(was.invites[i].email, email))
                    :: was.invites[i]
      {
        var e := existing[k];
        assert (e.0, e.1) in existing;
        assert existing[..k + 1] == existing[..k] + [e];
        if SameAddress(e.1.email, email) {
          store.DeleteInvite(e.0);
        }
        k := k + 1;
      }
      assert existing[..k] == existing;
    }

    method AcceptInvite(userID: string, userEmail: string, inviteID: string, now: Time)
        returns (err: Option<OrgError>)
      modifies store
      ensures Outcome(store.Contents(), err) == Accepted(old(store.Contents()), userID, userEmail, inviteID, now)
    {
      var r := store.GetInviteByID(inviteID);
      if r.Err? {
        return Some(InviteNotFound);
      }
      var inv := r.value;
      if inv.accepted {
        return Some(InviteNotFound);
      }
      if inv.expiresAt < now {
        return Some(InviteExpired);
      }
      if !SameAddress(inv.email, userEmail) {
        return Some(Forbidden);
      }
      store.AddMember(inv.tenantID, userID, inv.role);
      store.MarkInviteAccepted(inviteID);
      var t := store.GetTenant(inv.tenantID);
      return if t.Err? then Some(TenantMissing) else None;
    }

    method RemoveMember(tenantID: string, target: string, actorRole: Role) returns (err: Option<OrgError>)
      modifies store
      ensures Outcome(store.Contents(), err) == Removed(old(store.Contents()), tenantID, target, actorRole)
    {
      var role := store.GetMember(tenantID, target);
      if role.None? {
        return Some(NotMember);
      }
      if role.value == OWNER && actorRole != OWNER {
        return Some(OnlyOwnersRemoveOwners);
      }
      if role.value == OWNER {
        var owners := CountOwners(tenantID);
        if owners <= 1 {
          return Some(LastOwner);
        }
      }
      store.RemoveMember(tenantID, target);
      return None;
    }

    method CountOwners(tenantID: string) returns (owners: nat)
      ensures owners == |Owners(store.members, tenantID)|
    {
      var members := store.ListMembers(tenantID);
      owners := 0;
      var i := 0;
      while i < |members|
        invariant 0 <= i <= |members|
        invariant owners == |OwnersIn(members[..i])|
      {
        OwnersInNext(members, i);
        if members[i].1 == OWNER {
          owners := owners + 1;
        }
        i := i + 1;
      }
      assert members[..i] == members;
      OwnersInAll(store.members, tenantID, members);
    }

    method RevokeInvite(tenantID: string, inviteID: string) returns (err: Option<OrgError>)
      modifies store
      ensures Outcome(store.Contents(), err) == Revoked(old(store.Contents()), tenantID, inviteID)
    {
      var r := store.GetInviteByID(inviteID);
      if r.Err? {
        return Some(InviteNotFound);
      }
      if r.value.tenantID != tenantID {
        return Some(InviteNotFound);
      }
      store.DeleteInvite(inviteID);
      return None;
    }
  }

  // ---------------------------------------------------------------- runs

  /** free holds the organisations that invites may name although they do not exist; it never changes. The
      database schema has a foreign key, which makes it empty. */
  datatype State = State(db: Db, now: Time, free: set<string>)

  datatype Event =
    | Tick(now: Time)
    | Register(email: string)
    | CreateTenant(id: string, name: string)
    | CreateOrganization(inviteOnly: bool, userID: string, id: string, name: string, hex4: string, hex3: string)
    | SendInvite(tenantID: string, email: string, emailOk: bool, role: Role, inviterRole: Role, id: string)
    | Accept(userID: string, inviteID: string)
    | Remove(tenantID: string, target: string, actorRole: Role)
    | Revoke(tenantID: string, inviteID: string)
    | Delete(tenantID: string)

  /** The clock does not go back, sessions belong to registered users, invite ids are new, and invites refer to
      existing tenants, those in free aside. */
  function Known(s: State): set<string> {
    s.db.tenants.Keys + s.free
  }

  predicate Allowed(s: State, ev: Event) {
    match ev
    case Tick(now) => s.now <= now
    case CreateOrganization(_, userID, _, _, _, _) => userID in s.db.users
    case SendInvite(tenantID, _, _, _, _, id) => tenantID in Known(s) && id !in s.db.invites
    case Accept(userID, _) => userID in s.db.users
    case _ => true
  }

  function Effect(db: Db, now: Time, ev: Event): Db
    requires ev.Accept? ==> ev.userID in db.users
  {
    match ev
    case Tick(_) => db
    case Register(email) => WithUser(db, NormalEmail(email))
    case CreateTenant(id, name) => Services.TenantCreate(db, id, name).db
    case CreateOrganization(inviteOnly, u, id, name, hex4, hex3) =>
      CreateOrg(db, inviteOnly, u, id, name, hex4, hex3).db
    case SendInvite(t, email, ok, role, inviterRole, id) => Invited(db, t, email, ok, role, inviterRole, id, now).db
    case Accept(u, id) => Accepted(db, u, db.users[u], id, now).db
    case Remove(t, u, actorRole) => Removed(db, t, u, actorRole).db
    case Revoke(t, id) => Revoked(db, t, id).db
    case Delete(t) => Services.TenantDelete(db, t).db
  }

  function Next(s: State, ev: Event): State
    requires Allowed(s, ev)
  {
    s.(db := Effect(s.db, s.now, ev), now := if ev.Tick? then ev.now else s.now)
  }

  ghost predicate Reaches(s: State, evs: seq<Event>, end: State)
    decreases |evs|
  {
    if evs == [] then s == end else Allowed(s, evs[0]) && Reaches(Next(s, evs[0]), evs[1..], end)
  }

  // ---------------------------------------------------------------- the joint invariant

  predicate Lower(email: string) {
    ToLower(email) == email
  }

  type Users = map<string, string>
  type Invites = map<string, Store.Invite>

  ghost predicate UsersOk(users: Users, byEmail: Users) {
    && (forall u :: u in users ==> u == USER_PREFIX + users[u] && Lower(users[u]) && users[u] in byEmail)
    && (forall e :: e in byEmail ==> byEmail[e] in users && users[byEmail[e]] == e)
  }

  ghost predicate MembersOk(known: set<string>, users: Users, members: Members) {
    forall t, u :: RoleOf(members, t, u).Some? ==> t in known && u in users
  }

  ghost predicate InvitesOk(known: set<string>, invites: Invites) {
    forall i :: i in invites ==> invites[i].tenantID in known && Lower(invites[i].email)
  }

  predicate Live(invites: Invites, now: Time, i: string) {
    i in invites && Pending(invites[i], now)
  }

  /** No member has a live invite to the organisation it is in. */
  ghost predicate NoneInvitedInside(users: Users, members: Members, invites: Invites, now: Time) {
    forall i, u | Live(invites, now, i) && u in users && users[u] == invites[i].email ::
      RoleOf(members, invites[i].tenantID, u) == None
  }

  /** An address has at most one live invite per organisation. */
  ghost predicate OneLiveInvite(invites: Invites, now: Time) {
    forall i, j | Live(invites, now, i) && Live(invites, now, j) && invites[i].tenantID == invites[j].tenantID
                  && invites[i].email == invites[j].email :: i == j
  }

  /** None of these can become an organisation through CreateOrganization. */
  predicate NoSlugs(free: set<string>) {
    forall t :: t in free ==> !SlugRe(t)
  }

  ghost predicate Inv(s: State) {
    && UsersOk(s.db.users, s.db.usersByEmail) && MembersOk(Known(s), s.db.users, s.db.members)
    && InvitesOk(Known(s), s.db.invites) && NoSlugs(s.free)
    && NoneInvitedInside(s.db.users, s.db.members, s.db.invites, s.now) && OneLiveInvite(s.db.invites, s.now)
  }

  lemma NewUser(users: Users, byEmail: Users, e: string)
    requires UsersOk(users, byEmail) && Lower(e) && e !in byEmail
    ensures USER_PREFIX + e !in users
    ensures UsersOk(users[USER_PREFIX + e := e], byEmail[e := USER_PREFIX + e])
  {
    if USER_PREFIX + e in users {
      CancelPrefix(USER_PREFIX, users[USER_PREFIX + e], e);
    }
  }

  lemma RegisterKeepsInv(s: State, ev: Event)
    requires Inv(s) && Allowed(s, ev) && ev.Register?
    ensures Inv(Next(s, ev))
  {
    var e := NormalEmail(ev.email);
    CleanIdempotent(ev.email);
    if e !in s.db.usersByEmail {
      NewUser(s.db.users, s.db.usersByEmail, e);
    }
  }

  /** Dropping and marking invites, or letting time pass, leaves fewer of them live. */
  lemma FewerInvites(s: State, invites: Invites, now: Time)
    requires Inv(s)
    requires forall i :: Live(invites, now, i) ==> Live(s.db.invites, s.now, i) && invites[i] == s.db.invites[i]
    ensures NoneInvitedInside(s.db.users, s.db.members, invites, now) && OneLiveInvite(invites, now)
  {
  }

  lemma InviteKeepsInv(s: State, ev: Event)
    requires Inv(s) && Allowed(s, ev) && ev.SendInvite?
    ensures Inv(Next(s, ev))
  {
    CleanIdempotent(ev.email);
    var db := Next(s, ev).db;
    if db != s.db {
      var address := NormalEmail(ev.email);
      var kept := WithoutPending(s.db, ev.tenantID, address, s.now);
      FewerInvites(s, kept, s.now);
      forall i | Live(kept, s.now, i) && kept[i].tenantID == ev.tenantID ensures kept[i].email != address {
      }
    }
  }

  lemma AcceptKeepsInv(s: State, ev: Event)
    requires Inv(s) && Allowed(s, ev) && ev.Accept?
    ensures Inv(Next(s, ev))
  {
    var db := Next(s, ev).db;
    if db != s.db {
      var inv := s.db.invites[ev.inviteID];
      assert Lower(inv.email) && Lower(s.db.users[ev.userID]);
      FewerInvites(s, db.invites, s.now);
    }
  }

  lemma DeleteKeepsInv(s: State, ev: Event)
    requires Inv(s) && Allowed(s, ev) && ev.Delete?
    ensures Inv(Next(s, ev))
  {
    var db := Next(s, ev).db;
    if db != s.db {
      assert forall t, u :: RoleOf(db.members, t, u) == if t == ev.tenantID then None else RoleOf(s.db.members, t, u);
      FewerInvites(s, db.invites, s.now);
    }
  }

  lemma RevokeKeepsInv(s: State, ev: Event)
    requires Inv(s) && Allowed(s, ev) && ev.Revoke?
    ensures Inv(Next(s, ev))
  {
    FewerInvites(s, Next(s, ev).db.invites, s.now);
  }

  lemma FewerMembers(s: State, t: string, u: string)
    requires Inv(s)
    ensures var members := WithoutMember(s.db.members, t, u);
            && MembersOk(Known(s), s.db.users, members)
            && NoneInvitedInside(s.db.users, members, s.db.invites, s.now)
  {
    var members := WithoutMember(s.db.members, t, u);
    forall a, b ensures RoleOf(members, a, b) == if (a, b) == (t, u) then None else RoleOf(s.db.members, a, b) {
    }
  }

  lemma RemoveKeepsInv(s: State, ev: Event)
    requires Inv(s) && Allowed(s, ev) && ev.Remove?
    ensures Inv(Next(s, ev))
  {
    FewerMembers(s, ev.tenantID, ev.target);
  }

  lemma TenantKeepsInv(s: State, ev: Event)
    requires Inv(s) && Allowed(s, ev) && ev.CreateTenant?
    ensures Inv(Next(s, ev))
  {
  }

  lemma CreateKeepsInv(s: State, ev: Event)
    requires Inv(s) && Allowed(s, ev) && ev.CreateOrganization?
    ensures Inv(Next(s, ev))
  {
    assert NoSlugs(s.free);
  }

  lemma StepKeepsInv(s: State, ev: Event)
    requires Inv(s) && Allowed(s, ev)
    ensures Inv(Next(s, ev))
  {
    match ev
    case Tick(now) => FewerInvites(s, s.db.invites, now);
    case Register(_) => RegisterKeepsInv(s, ev);
    case CreateTenant(_, _) => TenantKeepsInv(s, ev);
    case CreateOrganization(_, _, _, _, _, _) => CreateKeepsInv(s, ev);
    case SendInvite(_, _, _, _, _, _) => InviteKeepsInv(s, ev);
    case Accept(_, _) => AcceptKeepsInv(s, ev);
    case Remove(_, _, _) => RemoveKeepsInv(s, ev);
    case Revoke(_, _) => RevokeKeepsInv(s, ev);
    case Delete(_) => DeleteKeepsInv(s, ev);
  }

  // ---------------------------------------------------------------- roles and owners

  lemma AcceptedIsNew(s: State, ev: Event)
    requires Inv(s) && Allowed(s, ev) && ev.Accept? && Next(s, ev).db != s.db
    ensures RoleOf(s.db.members, s.db.invites[ev.inviteID].tenantID, ev.userID) == None
  {
    var inv := s.db.invites[ev.inviteID];
    assert Lower(inv.email) && Lower(s.db.users[ev.userID]);
    assert Live(s.db.invites, s.now, ev.inviteID);
  }

  /** A role, once given, changes only by removal of the member or deletion of the organisation: accepting an
      invite never changes a role. */
  lemma RolesStay(s: State, ev: Event, t: string, u: string)
    requires Inv(s) && Allowed(s, ev) && RoleOf(s.db.members, t, u).Some?
    ensures var role := RoleOf(Next(s, ev).db.members, t, u);
            || role == RoleOf(s.db.members, t, u)
            || (role == None && (ev == Delete(t) || (ev.Remove? && ev.tenantID == t && ev.target == u)))
  {
    if ev.Accept? && Next(s, ev).db != s.db {
      AcceptedIsNew(s, ev);
    }
  }

  /** Removing an owner is refused exactly when no other owner would be left. */
  lemma RemoveRefusal(db: Db, t: string, u: string)
    requires RoleOf(db.members, t, u) == Some(OWNER)
    ensures Removed(db, t, u, OWNER).err == Some(LastOwner) <==> Owners(db.members, t) == {u}
    ensures Removed(db, t, u, OWNER).err == None ==> Owners(Removed(db, t, u, OWNER).db.members, t) != {}
  {
    var owners := Owners(db.members, t);
    assert u in owners && owners == {u} + (owners - {u});
    if owners != {u} {
      var v :| v in owners && v != u;
      assert RoleOf(WithoutMember(db.members, t, u), t, v) == Some(OWNER);
    }
  }

  lemma StepKeepsOwner(s: State, ev: Event, t: string)
    requires Inv(s) && Allowed(s, ev) && ev != Delete(t) && Owners(s.db.members, t) != {}
    ensures Owners(Next(s, ev).db.members, t) != {}
  {
    var u :| u in Owners(s.db.members, t);
    RolesStay(s, ev, t, u);
    if ev.Remove? && ev.tenantID == t && ev.target == u {
      RemoveRefusal(s.db, t, u);
    } else {
      assert u in Owners(Next(s, ev).db.members, t);
    }
  }

  /** Over every run, an organisation that has an owner keeps one until it is deleted. */
  lemma {:induction false} LastOwnerStays(s: State, evs: seq<Event>, end: State, t: string)
    requires Inv(s) && Reaches(s, evs, end) && Delete(t) !in evs && Owners(s.db.members, t) != {}
    ensures Inv(end) && Owners(end.db.members, t) != {}
    decreases |evs|
  {
    if evs != [] {
      StepKeepsInv(s, evs[0]);
      StepKeepsOwner(s, evs[0], t);
      LastOwnerStays(Next(s, evs[0]), evs[1..], end, t);
    }
  }

  lemma {:induction false} RunsKeepInv(s: State, evs: seq<Event>, end: State)
    requires Inv(s) && Reaches(s, evs, end)
    ensures Inv(end)
    decreases |evs|
  {
    if evs != [] {
      StepKeepsInv(s, evs[0]);
      RunsKeepInv(Next(s, evs[0]), evs[1..], end);
    }
  }

  lemma CreatorAlone(s: State, ev: Event)
    requires Inv(s) && ev.CreateOrganization? && Allowed(s, ev)
    requires CreateOrg(s.db, ev.inviteOnly, ev.userID, ev.id, ev.name, ev.hex4, ev.hex3).err == None
    ensures Owners(Next(s, ev).db.members, OrgID(ev.id, ev.name, ev.hex4, ev.hex3)) == {ev.userID}
  {
    var t := OrgID(ev.id, ev.name, ev.hex4, ev.hex3);
    forall u | u != ev.userID ensures RoleOf(Next(s, ev).db.members, t, u) == None {
      assert RoleOf(s.db.members, t, u) == None;
    }
  }

  /** From an empty store: an organisation just created has its creator as owner, and an owner ever after,
      until it is deleted. */
  lemma CreatedOrgStaysOwned(before: seq<Event>, s: State, ev: Event, after: seq<Event>, end: State)
    requires NoSlugs(s.free) && Reaches(State(EMPTY, 0, s.free), before, s)
    requires ev.CreateOrganization? && Allowed(s, ev)
    requires CreateOrg(s.db, ev.inviteOnly, ev.userID, ev.id, ev.name, ev.hex4, ev.hex3).err == None
    requires Reaches(Next(s, ev), after, end)
    ensures var t := OrgID(ev.id, ev.name, ev.hex4, ev.hex3);
            && Owners(Next(s, ev).db.members, t) == {ev.userID}
            && (Delete(t) !in after ==> Owners(end.db.members, t) != {})
  {
    RunsKeepInv(State(EMPTY, 0, s.free), before, s);
    StepKeepsInv(s, ev);
    var t := OrgID(ev.id, ev.name, ev.hex4, ev.hex3);
    CreatorAlone(s, ev);
    if Delete(t) !in after {
      LastOwnerStays(Next(s, ev), after, end, t);
    }
  }

  /** An invite sent to an organisation that does not exist yet. */
  function EarlyInvite(org: string): seq<Event> {
    [Register("a"), SendInvite(org, "a", true, MEMBER, OWNER, "i")]
  }

  function Creation(org: string): Event {
    CreateOrganization(false, USER_PREFIX + "a", org, "n", "", "")
  }

  function Acceptance(): Event {
    Accept(USER_PREFIX + "a", "i")
  }

  lemma InvitedBefore(org: string, free: set<string>) returns (s: State)
    requires org in free
    ensures Reaches(State(EMPTY, 0, free), EarlyInvite(org), s)
    ensures s == State(WithUser(EMPTY, "a").(invites := map["i" := Store.Invite(org, "a", MEMBER, WEEK, false)]), 0,
                       free)
  {
    var evs := EarlyInvite(org);
    assert NormalEmail("a") == "a";
    var s0 := State(EMPTY, 0, free);
    var s1 := Next(s0, evs[0]);
    assert s1.db == WithUser(EMPTY, "a");
    s := Next(s1, evs[1]);
    assert s.db.invites == map["i" := Store.Invite(org, "a", MEMBER, WEEK, false)];
    assert Reaches(s1, [evs[1]], s);
    assert evs[1..] == [evs[1]];
  }

  lemma DemotedAfter(org: string, x: State) returns (s: State, end: State)
    requires SlugRe(org) && x.now == 0
    requires x.db == WithUser(EMPTY, "a").(invites := map["i" := Store.Invite(org, "a", MEMBER, WEEK, false)])
    ensures Reaches(x, [Creation(org)], s) && Reaches(s, [Acceptance()], end)
    ensures Owners(s.db.members, org) == {USER_PREFIX + "a"} && Owners(end.db.members, org) == {}
  {
    SlugIsClean(org);
    assert TrimSpace("n") == "n" && OrgID(org, "n", "", "") == org;
    s := Next(x, Creation(org));
    end := Next(s, Acceptance());
  }

  lemma {:induction false} ReachesJoin(s: State, evs: seq<Event>, mid: State, more: seq<Event>, end: State)
    requires Reaches(s, evs, mid) && Reaches(mid, more, end)
    ensures Reaches(s, evs + more, end)
    decreases |evs|
  {
    if evs == [] {
      assert evs + more == more;
    } else {
      ReachesJoin(Next(s, evs[0]), evs[1..], mid, more, end);
      assert (evs + more)[1..] == evs[1..] + more;
    }
  }

  /** The invite demotes the owner who later creates the organisation and accepts. */
  lemma ForeignKeyNeeded(org: string, free: set<string>) returns (s: State, end: State)
    requires SlugRe(org) && org in free
    ensures Reaches(State(EMPTY, 0, free), EarlyInvite(org) + [Creation(org)], s) && Reaches(s, [Acceptance()], end)
    ensures Owners(s.db.members, org) == {USER_PREFIX + "a"} && Owners(end.db.members, org) == {}
  {
    var x := InvitedBefore(org, free);
    s, end := DemotedAfter(org, x);
    ReachesJoin(State(EMPTY, 0, free), EarlyInvite(org), x, [Creation(org)], s);
  }

  /** In every run from an empty store, an organisation that has an owner keeps one until it is deleted. */
  ghost predicate KeepsOwners(free: set<string>) {
    forall before, s, evs, end, t |
      Reaches(State(EMPTY, 0, free), before, s) && Reaches(s, evs, end) && Delete(t) !in evs
      && Owners(s.db.members, t) != {} ::
      Owners(end.db.members, t) != {}
  }

  /** Invites to missing organisations are harmless to last owners exactly when none of those organisations has an
      id that CreateOrganization accepts; the foreign key allows none at all. */
  lemma OwnersKeptExactlyWithoutSlugs(free: set<string>)
    ensures KeepsOwners(free) <==> NoSlugs(free)
  {
    if NoSlugs(free) {
      forall before, s, evs, end, t |
        Reaches(State(EMPTY, 0, free), before, s) && Reaches(s, evs, end) && Delete(t) !in evs
        && Owners(s.db.members, t) != {}
        ensures Owners(end.db.members, t) != {}
      {
        RunsKeepInv(State(EMPTY, 0, free), before, s);
        LastOwnerStays(s, evs, end, t);
      }
    } else {
      var t :| t in free && SlugRe(t);
      var s, end := ForeignKeyNeeded(t, free);
      assert Delete(t) !in [Acceptance()];
    }
  }
}
