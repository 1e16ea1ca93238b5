/** Who may give and take roles: the role hierarchy of organisations, call by call and over whole runs. */
module OrgAuthority {
  import opened Wrappers
  import opened Text
  import opened Store
  import opened Org

  // ---------------------------------------------------------------- one call

  /** The inviter's role suffices: owners invite anyone, admins anyone but owners. */
  predicate MayInvite(inviterRole: string, role: string) {
    inviterRole == "owner" || (inviterRole == "admin" && role != "owner")
  }

  /** An invitation is stored exactly for a good address that is not a member's, a known role or none, and an
      inviter whose role suffices; otherwise nothing changes. */
  lemma InvitesExactly(db: Db, t: string, email: string, ok: bool, role: Role, inviterRole: Role, id: string, now: Time)
    ensures var address := ToLower(TrimSpace(email));
            var r := Invited(db, t, email, ok, role, inviterRole, id, now);
            && (r.err == None <==>
                  && address != "" && ok && role in ["", "member", "admin", "owner"] && MayInvite(inviterRole, role)
                  && !(address in db.usersByEmail && RoleOf(db.members, t, db.usersByEmail[address]).Some?))
            && (r.err != None ==> r.db == db)
            && (r.err == None ==> r.db == db.(invites := r.db.invites))
  {
  }

  /** Why an invitation is refused: the address before the role, the role before the inviter, and membership last. */
  lemma InviteRefusals(db: Db, t: string, email: string, ok: bool, role: Role, inviterRole: Role, id: string, now: Time)
    ensures var address := ToLower(TrimSpace(email));
            var known := role in ["", "member", "admin", "owner"];
            var err := Invited(db, t, email, ok, role, inviterRole, id, now).err;
            && (err == Some(InvalidEmail) <==> address == "" || !ok)
            && (err == Some(InvalidRole) <==> address != "" && ok && !known)
            && (err == Some(OnlyOwnersInviteOwners) <==>
                  address != "" && ok && role == "owner" && inviterRole == "admin")
            && (err == Some(Forbidden) <==> address != "" && ok && known && inviterRole !in ["owner", "admin"])
            && (err == Some(AlreadyMember) <==>
                  && address != "" && ok && known && MayInvite(inviterRole, role)
                  && address in db.usersByEmail && RoleOf(db.members, t, db.usersByEmail[address]).Some?)
  {
  }

  /** What is stored: the invite lasts a week, gives the role asked for or "member", and replaces the pending
      invites of the same address to the same organisation and no others. */
  lemma InviteReplaces(db: Db, t: string, email: string, ok: bool, role: Role, inviterRole: Role, id: string, now: Time,
                       i: string)
    requires Invited(db, t, email, ok, role, inviterRole, id, now).err == None
    ensures var address := ToLower(TrimSpace(email));
            var invites := Invited(db, t, email, ok, role, inviterRole, id, now).db.invites;
            && id in invites
            && invites[id] == Invite(t, address, if role == "" then "member" else role, now + 604800, false)
            && (i != id ==> (i in invites <==>
                  i in db.invites && !(db.invites[i].tenantID == t && ToLower(db.invites[i].email) == address
                                       && !db.invites[i].accepted && now <= db.invites[i].expiresAt)))
            && (i != id && i in invites ==> invites[i] == db.invites[i])
  {
    CleanIdempotent(email);
  }

  /** An invite is accepted exactly while it is pending and by its own address; the member gets its role. */
  lemma AcceptsExactly(db: Db, u: string, address: string, i: string, now: Time)
    ensures var r := Accepted(db, u, address, i, now);
            && (r.db != db ==> i in db.invites)
            && (i in db.invites ==>
                  var inv := db.invites[i];
                  if !inv.accepted && now <= inv.expiresAt && ToLower(inv.email) == ToLower(address)
                  then && RoleOf(r.db.members, inv.tenantID, u) == Some(inv.role)
                       && (forall t, v :: (t, v) != (inv.tenantID, u) ==>
                             RoleOf(r.db.members, t, v) == RoleOf(db.members, t, v))
                       && r.db == db.(members := r.db.members, invites := db.invites[i := inv.(accepted := true)])
                       && (r.err == None <==> inv.tenantID in db.tenants)
                  else r.db == db && r.err != None)
  {
  }

  /** A member is removed exactly if it is no owner, or by an owner while another owner is left. */
  lemma RemovesExactly(db: Db, t: string, u: string, actorRole: Role)
    ensures var role := RoleOf(db.members, t, u);
            var r := Removed(db, t, u, actorRole);
            && (r.err == None <==>
                  && role != None
                  && (role == Some("owner") ==>
                        actorRole == "owner" && exists v :: v != u && RoleOf(db.members, t, v) == Some("owner")))
            && (r.err != None ==> r.db == db)
            && (r.err == None ==>
                  && RoleOf(r.db.members, t, u) == None && r.db == db.(members := r.db.members)
                  && forall s, v :: (s, v) != (t, u) ==> RoleOf(r.db.members, s, v) == RoleOf(db.members, s, v))
  {
    if RoleOf(db.members, t, u) == Some("owner") && actorRole == "owner" {
      RemoveRefusal(db, t, u);
      var owners := Owners(db.members, t);
      if owners == {u} {
        assert forall v :: RoleOf(db.members, t, v) == Some("owner") ==> v in owners;
      } else {
        var v :| v in owners && v != u;
      }
    }
  }

  /** Only an organisation's own invite is revoked. */
  lemma RevokesExactly(db: Db, t: string, i: string, j: string)
    ensures var r := Revoked(db, t, i);
            && (r.err == None <==> i in db.invites && db.invites[i].tenantID == t)
            && (r.err != None ==> r.db == db)
            && (j in r.db.invites <==> j in db.invites && !(j == i && r.err == None))
  {
  }

  /** An organisation is created exactly where creation is open, under a name and a free, well-formed id. */
  lemma CreatesExactly(db: Db, inviteOnly: bool, u: string, id: string, name: string, hex4: string, hex3: string)
    ensures var r := CreateOrg(db, inviteOnly, u, id, name, hex4, hex3);
            var org := ToLower(if TrimSpace(id) == "" then Slug(TrimSpace(name), hex4, hex3) else TrimSpace(id));
            && (r.err == None <==> !inviteOnly && TrimSpace(name) != "" && SlugRe(org) && org !in db.tenants)
            && (r.err != None ==> r.db == db)
            && (r.err == None ==>
                  && r.db.tenants == db.tenants[org := Tenant(TrimSpace(name), "active")]
                  && RoleOf(r.db.members, org, u) == Some("owner"))
  {
  }

  predicate Alphanumeric(c: char) {
    'a' <= c <= 'z' || '0' <= c <= '9'
  }

  /** A well-formed id: letters and digits, dashes and underscores inside, one or three to sixty-four of them. */
  lemma SlugMeaning(s: string)
    ensures SlugRe(s) <==>
            && (|s| == 1 || 3 <= |s| <= 64)
            && Alphanumeric(s[0]) && Alphanumeric(s[|s| - 1])
            && forall i | 0 <= i < |s| :: Alphanumeric(s[i]) || s[i] == '_' || s[i] == '-'
  {
  }

  lemma {:induction false} PlainIsDashed(s: string)
    requires forall i | 0 <= i < |s| :: Alphanumeric(s[i])
    ensures Dashed(s, false) == s
  {
    if s != [] {
      PlainIsDashed(s[1..]);
    }
  }

  lemma {:induction false} OthersAreOneDash(s: string, prevDash: bool)
    requires forall i | 0 <= i < |s| :: !Alphanumeric(s[i])
    ensures Dashed(s, prevDash) == if prevDash || s == [] then "" else "-"
  {
    if s != [] {
      OthersAreOneDash(s[1..], true);
    }
  }

  /** A name of small letters and digits gives its first 48 characters and a random suffix. */
  lemma SlugOfPlainName(name: string, hex4: string, hex3: string)
    requires name != "" && forall i | 0 <= i < |name| :: Alphanumeric(name[i])
    ensures Slug(name, hex4, hex3) == (if |name| <= 48 then name else name[..48]) + ("-" + hex3)
  {
    TrimIdle(name);
    assert ToLower(TrimSpace(name)) == name;
    PlainIsDashed(name);
    assert TrimDashesLeft(name) == name && TrimDashesRight(name) == name;
  }

  /** A name without any letter or digit gives "org-", random digits and a random suffix. */
  lemma SlugOfOtherName(name: string, hex4: string, hex3: string)
    requires |hex4| == 8 && forall i | 0 <= i < |name| :: !Alphanumeric(ToLower(name)[i])
    ensures Slug(name, hex4, hex3) == "org-" + hex4 + ("-" + hex3)
  {
    var i, j := TrimMeaning(name);
    var t := ToLower(TrimSpace(name));
    forall k | 0 <= k < |t| ensures !Alphanumeric(t[k]) {
      assert t[k] == ToLower(name)[i + k];
    }
    OthersAreOneDash(t, false);
    assert TrimDashes("-") == "" && TrimDashes("") == "";
  }

  // ---------------------------------------------------------------- an owner leaves

  /** Whoever stops being an owner of an organisation was removed by an owner while another owner stayed, or the
      organisation was deleted. */
  lemma OwnersLeaveOnlyThrough(s: State, ev: Event, t: string, u: string)
    requires Inv(s) && Allowed(s, ev)
    requires RoleOf(s.db.members, t, u) == Some("owner")
    requires RoleOf(Next(s, ev).db.members, t, u) != Some("owner")
    ensures ev == Delete(t)
            || (ev == Remove(t, u, "owner")
                && exists v :: v != u && RoleOf(Next(s, ev).db.members, t, v) == Some("owner"))
  {
    RolesStay(s, ev, t, u);
    if ev != Delete(t) {
      RemovesExactly(s.db, t, u, ev.actorRole);
      var v :| v != u && RoleOf(s.db.members, t, v) == Some("owner");
      assert RoleOf(Next(s, ev).db.members, t, v) == Some("owner");
    }
  }

  // ---------------------------------------------------------------- where roles come from, over runs

  /** The event is an invitation, by someone entitled to it, of this address to this role. */
  predicate Sends(ev: Event, i: string, t: string, address: string, role: Role) {
    && ev.SendInvite? && ev.id == i && ev.tenantID == t && ev.emailOk
    && address == ToLower(TrimSpace(ev.email)) && address != ""
    && role == (if ev.role == "" then "member" else ev.role) && role in ["member", "admin", "owner"]
    && MayInvite(ev.inviterRole, role)
  }

  ghost predicate Sent(past: seq<Event>, i: string, t: string, address: string, role: Role) {
    exists j | 0 <= j < |past| :: Sends(past[j], i, t, address, role)
  }

  /** The last of these events made u a member in this role: by creating the organisation, or by accepting an
      invitation to its own address that was sent before. */
  ghost predicate Gives(past: seq<Event>, ev: Event, t: string, u: string, role: Role) {
    match ev
    case CreateOrganization(inviteOnly, creator, id, name, hex4, hex3) =>
      !inviteOnly && creator == u && role == "owner"
      && t == ToLower(if TrimSpace(id) == "" then Slug(TrimSpace(name), hex4, hex3) else TrimSpace(id))
    case Accept(userID, i) =>
      userID == u && exists address :: u == "usr_mem_" + address && Sent(past, i, t, address, role)
    case _ => false
  }

  ghost predicate Given(past: seq<Event>, t: string, u: string, role: Role) {
    exists k | 0 <= k < |past| :: Gives(past[..k], past[k], t, u, role)
  }

  /** Every role and every invite has its origin in the past. */
  ghost predicate Justified(past: seq<Event>, s: State) {
    && (forall t, u :: RoleOf(s.db.members, t, u).Some? ==> Given(past, t, u, RoleOf(s.db.members, t, u).value))
    && (forall i :: i in s.db.invites ==>
          Sent(past, i, s.db.invites[i].tenantID, s.db.invites[i].email, s.db.invites[i].role))
    && UsersOk(s.db.users, s.db.usersByEmail)
  }

  lemma SentStays(past: seq<Event>, ev: Event, i: string, t: string, address: string, role: Role)
    ensures Sent(past + [ev], i, t, address, role) <==>
            Sent(past, i, t, address, role) || Sends(ev, i, t, address, role)
  {
    if Sent(past, i, t, address, role) {
      var j :| 0 <= j < |past| && Sends(past[j], i, t, address, role);
      assert (past + [ev])[j] == past[j];
    }
    assert (past + [ev])[|past|] == ev;
  }

  lemma GivenStays(past: seq<Event>, ev: Event, t: string, u: string, role: Role)
    ensures Given(past + [ev], t, u, role) <==> Given(past, t, u, role) || Gives(past, ev, t, u, role)
  {
    var more := past + [ev];
    assert forall k | 0 <= k < |past| :: more[..k] == past[..k] && more[k] == past[k];
    assert more[..|past|] == past && more[|past|] == ev;
    if Given(past, t, u, role) {
      var k :| 0 <= k < |past| && Gives(past[..k], past[k], t, u, role);
      assert Gives(more[..k], more[k], t, u, role);
    }
    if Gives(past, ev, t, u, role) {
      assert Gives(more[..|past|], more[|past|], t, u, role);
    }
  }

  lemma UsersStayOk(s: State, ev: Event)
    requires UsersOk(s.db.users, s.db.usersByEmail) && Allowed(s, ev)
    ensures UsersOk(Next(s, ev).db.users, Next(s, ev).db.usersByEmail)
  {
    if ev.Register? {
      var e := NormalEmail(ev.email);
      CleanIdempotent(ev.email);
      if e !in s.db.usersByEmail {
        NewUser(s.db.users, s.db.usersByEmail, e);
      }
    }
  }

  lemma InvitesJustified(past: seq<Event>, s: State, ev: Event, i: string)
    requires Justified(past, s) && Allowed(s, ev) && i in Next(s, ev).db.invites
    ensures var inv := Next(s, ev).db.invites[i];
            Sent(past + [ev], i, inv.tenantID, inv.email, inv.role)
  {
    var inv := Next(s, ev).db.invites[i];
    SentStays(past, ev, i, inv.tenantID, inv.email, inv.role);
    if ev.SendInvite? {
      InvitesExactly(s.db, ev.tenantID, ev.email, ev.emailOk, ev.role, ev.inviterRole, ev.id, s.now);
      if Next(s, ev).db != s.db {
        InviteReplaces(s.db, ev.tenantID, ev.email, ev.emailOk, ev.role, ev.inviterRole, ev.id, s.now, i);
      }
    }
  }

  /** Only creating an organisation and accepting an invite give a role. */
  lemma OnlyTheseGive(s: State, ev: Event, t: string, u: string)
    requires Allowed(s, ev) && RoleOf(Next(s, ev).db.members, t, u) !in [None, RoleOf(s.db.members, t, u)]
    ensures ev.CreateOrganization? || (ev.Accept? && Next(s, ev).db != s.db)
  {
    match ev
    case SendInvite(org, email, ok, role, inviterRole, id) =>
      InvitesExactly(s.db, org, email, ok, role, inviterRole, id, s.now);
    case Remove(org, target, actorRole) => RemovesExactly(s.db, org, target, actorRole);
    case Revoke(org, id) => RevokesExactly(s.db, org, id, id);
    case _ =>
  }

  predicate NewRole(s: State, ev: Event, t: string, u: string, role: Role)
    requires Allowed(s, ev)
  {
    RoleOf(Next(s, ev).db.members, t, u) == Some(role) && RoleOf(s.db.members, t, u) != Some(role)
  }

  lemma CreationJustified(past: seq<Event>, s: State, ev: Event, t: string, u: string, role: Role)
    requires Allowed(s, ev) && ev.CreateOrganization? && NewRole(s, ev, t, u, role)
    ensures Gives(past, ev, t, u, role)
  {
    CreatesExactly(s.db, ev.inviteOnly, ev.userID, ev.id, ev.name, ev.hex4, ev.hex3);
  }

  lemma AcceptGivesOne(s: State, ev: Event, t: string, u: string, role: Role)
    requires Allowed(s, ev) && ev.Accept? && NewRole(s, ev, t, u, role)
    ensures ev.inviteID in s.db.invites && Next(s, ev).db != s.db
    ensures var inv := s.db.invites[ev.inviteID]; (t, u, role) == (inv.tenantID, ev.userID, inv.role)
  {
    AcceptsExactly(s.db, ev.userID, s.db.users[ev.userID], ev.inviteID, s.now);
  }

  lemma NewRoleJustified(past: seq<Event>, s: State, ev: Event, t: string, u: string, role: Role)
    requires Justified(past, s) && Allowed(s, ev) && NewRole(s, ev, t, u, role)
    ensures Gives(past, ev, t, u, role)
  {
    OnlyTheseGive(s, ev, t, u);
    if ev.Accept? {
      AcceptGivesOne(s, ev, t, u, role);
      AcceptanceJustified(past, s, ev);
    } else {
      CreationJustified(past, s, ev, t, u, role);
    }
  }

  lemma RolesJustified(past: seq<Event>, s: State, ev: Event, t: string, u: string, role: Role)
    requires Justified(past, s) && Allowed(s, ev) && RoleOf(Next(s, ev).db.members, t, u) == Some(role)
    ensures Given(past + [ev], t, u, role)
  {
    GivenStays(past, ev, t, u, role);
    if RoleOf(s.db.members, t, u) != Some(role) {
      NewRoleJustified(past, s, ev, t, u, role);
    }
  }

  lemma AcceptanceJustified(past: seq<Event>, s: State, ev: Event)
    requires Justified(past, s) && Allowed(s, ev) && ev.Accept? && Next(s, ev).db != s.db
    ensures ev.inviteID in s.db.invites
    ensures var inv := s.db.invites[ev.inviteID]; Gives(past, ev, inv.tenantID, ev.userID, inv.role)
  {
    AcceptsExactly(s.db, ev.userID, s.db.users[ev.userID], ev.inviteID, s.now);
    var inv := s.db.invites[ev.inviteID];
    assert Sent(past, ev.inviteID, inv.tenantID, inv.email, inv.role);
    var j :| 0 <= j < |past| && Sends(past[j], ev.inviteID, inv.tenantID, inv.email, inv.role);
    CleanIdempotent(past[j].email);
    assert ev.userID == "usr_mem_" + inv.email;
  }

  lemma StepJustified(past: seq<Event>, s: State, ev: Event)
    requires Justified(past, s) && Allowed(s, ev)
    ensures Justified(past + [ev], Next(s, ev))
  {
    var z := Next(s, ev);
    UsersStayOk(s, ev);
    forall t, u | RoleOf(z.db.members, t, u).Some? ensures Given(past + [ev], t, u, RoleOf(z.db.members, t, u).value) {
      RolesJustified(past, s, ev, t, u, RoleOf(z.db.members, t, u).value);
    }
    forall i | i in z.db.invites
      ensures Sent(past + [ev], i, z.db.invites[i].tenantID, z.db.invites[i].email, z.db.invites[i].role)
    {
      InvitesJustified(past, s, ev, i);
    }
  }

  lemma {:induction false} RunsJustified(past: seq<Event>, s: State, evs: seq<Event>, end: State)
    requires Justified(past, s) && Reaches(s, evs, end)
    ensures Justified(past + evs, end)
    decreases |evs|
  {
    if evs == [] {
      assert past + evs == past;
    } else {
      StepJustified(past, s, evs[0]);
      RunsJustified(past + [evs[0]], Next(s, evs[0]), evs[1..], end);
      assert past + [evs[0]] + evs[1..] == past + evs;
    }
  }

  /** Over every run from the empty store: an owner created the organisation where creation was open, or accepted
      an invitation to its own address as owner that was sent in the role of an owner; and every other member
      accepted an invitation to its role that was sent in the role of an owner or an admin. */
  lemma RolesComeFromAuthority(evs: seq<Event>, free: set<string>, end: State, t: string, u: string)
    requires Reaches(State(EMPTY, 0, free), evs, end) && RoleOf(end.db.members, t, u).Some?
    ensures exists k | 0 <= k < |evs| :: Gives(evs[..k], evs[k], t, u, RoleOf(end.db.members, t, u).value)
  {
    RunsJustified([], State(EMPTY, 0, free), evs, end);
    assert [] + evs == evs;
    assert Given(evs, t, u, RoleOf(end.db.members, t, u).value);
  }

  /** An invite that a call has newly stored is that call's, and its sender was entitled to send it. */
  lemma NewInvitesAreAuthorised(s: State, ev: Event, i: string)
    requires Allowed(s, ev) && i in Next(s, ev).db.invites && i !in s.db.invites
    ensures ev.SendInvite? && ev.id == i && ev.inviterRole in ["owner", "admin"]
    ensures Next(s, ev).db.invites[i].role == "owner" ==> ev.inviterRole == "owner"
    ensures Next(s, ev).db.invites[i] ==
            Invite(ev.tenantID, ToLower(TrimSpace(ev.email)), if ev.role == "" then "member" else ev.role,
                   s.now + 604800, false)
  {
    if ev.SendInvite? {
      InvitesExactly(s.db, ev.tenantID, ev.email, ev.emailOk, ev.role, ev.inviterRole, ev.id, s.now);
      if Next(s, ev).db != s.db {
        InviteReplaces(s.db, ev.tenantID, ev.email, ev.emailOk, ev.role, ev.inviterRole, ev.id, s.now, i);
      }
    }
  }
}
