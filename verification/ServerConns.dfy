/** Per-tenant connection counts of the proxy server, from accept to disconnect. */
module ServerConns {
  import opened Wrappers
  import opened MapSum

  type Counts = map<string, int>

  function Count(m: Counts, t: string): int {
    if t in m then m[t] else 0
  }

  // ---------------------------------------------------------------- the four locked operations

  function Acquired(limit: int, m: Counts, t: string): (bool, Counts) {
    if limit <= 0 then (true, m)
    else if Count(m, t) >= limit then (false, m)
    else (true, m[t := Count(m, t) + 1])
  }

  function Freed(limit: int, m: Counts, t: string): Counts {
    if limit <= 0 || Count(m, t) <= 0 then m
    else if Count(m, t) == 1 then m - {t}
    else m[t := Count(m, t) - 1]
  }

  function Included(m: Counts, t: string): Counts {
    if t == "" then m else m[t := Count(m, t) + 1]
  }

  function Excluded(m: Counts, t: string): Counts {
    if t == "" then m
    else if Count(m, t) == 1 || Count(m, t) == 0 then m - {t}
    else if Count(m, t) > 0 then m[t := Count(m, t) - 1]
    else m
  }

  /** The fields of a connection's state that the server uses. */
  class ConnState {
    var authed: bool
    var tenant: Option<string>
    var tenantCounted: bool
    var countedTenantID: string

    constructor ()
      ensures !authed && tenant == None && !tenantCounted && countedTenantID == ""
    {
      authed, tenant, tenantCounted, countedTenantID := false, None, false, "";
    }
  }

  class Server {
    var tenantN: Counts
    var authN: Counts
    const maxConnsPerTenant: int

    constructor (maxConnsPerTenant: int)
      ensures tenantN == map[] && authN == map[] && this.maxConnsPerTenant == maxConnsPerTenant
    {
      this.maxConnsPerTenant := maxConnsPerTenant;
      tenantN, authN := map[], map[];
    }

    method TryAcquireTenantConn(t: string) returns (ok: bool)
      modifies this`tenantN
      ensures (ok, tenantN) == Acquired(maxConnsPerTenant, old(tenantN), t)
    {
      if maxConnsPerTenant <= 0 {
        return true;
      }
      var n := if t in tenantN then tenantN[t] else 0;
      if n >= maxConnsPerTenant {
        return false;
      }
      tenantN := tenantN[t := n + 1];
      return true;
    }

    method ReleaseTenantConn(t: string)
      modifies this`tenantN
      ensures tenantN == Freed(maxConnsPerTenant, old(tenantN), t)
    {
      if maxConnsPerTenant <= 0 {
        return;
      }
      if t in tenantN && tenantN[t] > 0 {
        tenantN := tenantN[t := tenantN[t] - 1];
        if tenantN[t] == 0 {
          tenantN := tenantN - {t};
        }
      }
    }

    method IncAuthenticated(t: string)
      modifies this`authN
      ensures authN == Included(old(authN), t)
    {
      if t == "" {
        return;
      }
      authN := authN[t := (if t in authN then authN[t] else 0) + 1];
    }

    method DecAuthenticated(t: string)
      modifies this`authN
      ensures authN == Excluded(old(authN), t)
    {
      if t == "" {
        return;
      }
      if t in authN && authN[t] > 0 {
        authN := authN[t := authN[t] - 1];
      }
      var n := if t in authN then authN[t] else 0;
      if n == 0 {
        authN := authN - {t};
      }
    }

    /** What follows every handled message; refused tells the caller to close the connection. */
    method EnforceLimit(cs: ConnState) returns (refused: bool)
      modifies this, cs
      ensures cs.authed == old(cs.authed) && cs.tenant == old(cs.tenant)
      ensures var due := old(cs.authed && cs.tenant.Some? && !cs.tenantCounted);
              var t := if due then old(cs.tenant.value) else "";
              var (ok, m) := Acquired(maxConnsPerTenant, old(tenantN), t);
              if !due then
                !refused && tenantN == old(tenantN) && authN == old(authN)
                && cs.tenantCounted == old(cs.tenantCounted) && cs.countedTenantID == old(cs.countedTenantID)
              else
                && refused == !ok && tenantN == m
                && authN == (if ok then Included(old(authN), t) else old(authN))
                && cs.tenantCounted == ok && cs.countedTenantID == if ok then t else old(cs.countedTenantID)
    {
      if cs.authed && cs.tenant.Some? && !cs.tenantCounted {
        var ok := TryAcquireTenantConn(cs.tenant.value);
        if !ok {
          return true;
        }
        cs.tenantCounted := true;
        cs.countedTenantID := cs.tenant.value;
        IncAuthenticated(cs.countedTenantID);
      }
      return false;
    }

    method Disconnect(cs: ConnState)
      modifies this
      ensures !cs.tenantCounted ==> tenantN == old(tenantN) && authN == old(authN)
      ensures var t := if cs.countedTenantID == "" && cs.tenant.Some? then cs.tenant.value else cs.countedTenantID;
              cs.tenantCounted ==>
                && tenantN == Freed(maxConnsPerTenant, old(tenantN), t)
                && authN == Excluded(old(authN), t)
    {
      if cs.tenantCounted {
        var t := cs.countedTenantID;
        if t == "" && cs.tenant.Some? {
          t := cs.tenant.value;
        }
        DecAuthenticated(t);
        ReleaseTenantConn(t);
      }
    }
  }

  // ---------------------------------------------------------------- interleaved connections

  /** Serving: between messages. Checking: a message is handled, the limit not yet looked at. Taken: a slot is
      taken, the authenticated count not yet raised. Closing: refused. Uncounted: leaving, the authenticated
      count lowered, the slot not yet given back. */
  datatype Phase = Serving | Checking | Taken | Closing | Uncounted

  datatype Conn = Conn(tenant: Option<string>, counted: Option<string>, phase: Phase)

  datatype System = System(tenantN: Counts, authN: Counts, conns: map<nat, Conn>)

  const INITIAL := System(map[], map[], map[])

  datatype Step =
    | Accept(id: nat)
    | Login(id: nat, tenant: string)
    | Logout(id: nat)
    | Other(id: nat)
    | Enforce(id: nat)
    | Raise(id: nat)
    | Leave(id: nat)
    | GiveBack(id: nat)

  predicate In(y: System, id: nat, p: Phase) {
    id in y.conns && y.conns[id].phase == p
  }

  /** Tenant ids are not empty: the validator refuses an empty user name. */
  predicate Enabled(y: System, st: Step) {
    match st
    case Accept(id) => id !in y.conns
    case Login(id, t) => In(y, id, Serving) && t != ""
    case Logout(id) => In(y, id, Serving)
    case Other(id) => In(y, id, Serving)
    case Enforce(id) => In(y, id, Checking)
    case Raise(id) => In(y, id, Taken) && y.conns[id].tenant.Some?
    case Leave(id) => In(y, id, Serving) || In(y, id, Closing)
    case GiveBack(id) => In(y, id, Uncounted) && y.conns[id].counted.Some?
  }

  function Apply(limit: int, y: System, st: Step): System
    requires Enabled(y, st)
  {
    match st
    case Accept(id) => y.(conns := y.conns[id := Conn(None, None, Serving)])
    case Login(id, t) => y.(conns := y.conns[id := y.conns[id].(tenant := Some(t), phase := Checking)])
    case Logout(id) => y.(conns := y.conns[id := y.conns[id].(tenant := None, phase := Checking)])
    case Other(id) => y.(conns := y.conns[id := y.conns[id].(phase := Checking)])
    case Enforce(id) =>
      var c := y.conns[id];
      if c.tenant.None? || c.counted.Some? then y.(conns := y.conns[id := c.(phase := Serving)])
      else
        var (ok, m) := Acquired(limit, y.tenantN, c.tenant.value);
        y.(tenantN := m, conns := y.conns[id := c.(phase := if ok then Taken else Closing)])
    case Raise(id) =>
      var c := y.conns[id];
      y.(authN := Included(y.authN, c.tenant.value),
         conns := y.conns[id := c.(counted := c.tenant, phase := Serving)])
    case Leave(id) =>
      var c := y.conns[id];
      if c.counted.None? then y.(conns := y.conns - {id})
      else y.(authN := Excluded(y.authN, c.counted.value), conns := y.conns[id := c.(phase := Uncounted)])
    case GiveBack(id) =>
      y.(tenantN := Freed(limit, y.tenantN, y.conns[id].counted.value), conns := y.conns - {id})
  }

  ghost predicate Reaches(limit: int, y: System, steps: seq<Step>, end: System)
    decreases |steps|
  {
    if steps == [] then y == end
    else Enabled(y, steps[0]) && Reaches(limit, Apply(limit, y, steps[0]), steps[1..], end)
  }

  // ---------------------------------------------------------------- the counts are exact

  /** The connection is counted as authenticated under t. */
  predicate CountedUnder(c: Conn, t: string) {
    c.counted == Some(t) && c.phase != Uncounted
  }

  /** The connection has one of the slots of t. */
  predicate HasSlot(c: Conn, t: string) {
    c.counted == Some(t) || (c.phase == Taken && c.tenant == Some(t))
  }

  function CountedFor(t: string): Conn -> int {
    (c: Conn) => if CountedUnder(c, t) then 1 else 0
  }

  function SlotFor(t: string): Conn -> int {
    (c: Conn) => if HasSlot(c, t) then 1 else 0
  }

  /** A connection is counted once, under a named tenant. */
  predicate Regular(c: Conn) {
    && (c.tenant.Some? ==> c.tenant.value != "")
    && (c.counted.Some? ==> c.counted.value != "")
    && (c.phase == Taken ==> c.counted.None? && c.tenant.Some?)
    && (c.phase == Closing ==> c.counted.None?)
    && (c.phase == Uncounted ==> c.counted.Some?)
  }

  ghost predicate AllRegular(conns: map<nat, Conn>) {
    forall id :: id in conns ==> Regular(conns[id])
  }

  ghost predicate Exact(m: Counts, t: string, n: int) {
    Count(m, t) == n && (t in m ==> m[t] > 0)
  }

  ghost predicate AuthExact(authN: Counts, conns: map<nat, Conn>) {
    forall t :: Exact(authN, t, Total(conns, CountedFor(t)))
  }

  ghost predicate SlotsWithin(limit: int, tenantN: Counts, conns: map<nat, Conn>, t: string) {
    Exact(tenantN, t, Total(conns, SlotFor(t))) && Total(conns, SlotFor(t)) <= limit
  }

  ghost predicate SlotsExact(limit: int, tenantN: Counts, conns: map<nat, Conn>) {
    if limit <= 0 then tenantN == map[]
    else forall t :: SlotsWithin(limit, tenantN, conns, t)
  }

  ghost predicate Inv(limit: int, y: System) {
    AllRegular(y.conns) && AuthExact(y.authN, y.conns) && SlotsExact(limit, y.tenantN, y.conns)
  }

  /** A total after one connection has changed or gone. */
  lemma TotalMoves(conns: map<nat, Conn>, id: nat, next: map<nat, Conn>, w: Conn -> int)
    requires next == conns - {id} || (id in next && next == conns[id := next[id]])
    ensures Total(next, w) == Total(conns, w) - (if id in conns then w(conns[id]) else 0)
                                              + (if id in next then w(next[id]) else 0)
  {
    if id in next {
      TotalWith(conns, w, id, next[id]);
    } else if id in conns {
      TotalWithout(conns, w, id);
    } else {
      assert conns - {id} == conns;
    }
  }

  lemma AuthStaysExact(limit: int, y: System, st: Step, t: string)
    requires AllRegular(y.conns) && Exact(y.authN, t, Total(y.conns, CountedFor(t))) && Enabled(y, st)
    ensures Exact(Apply(limit, y, st).authN, t, Total(Apply(limit, y, st).conns, CountedFor(t)))
  {
    TotalMoves(y.conns, st.id, Apply(limit, y, st).conns, CountedFor(t));
    if st.id in y.conns {
      TotalAtLeast(y.conns, CountedFor(t), st.id);
    }
  }

  lemma EnforceKeepsSlots(limit: int, y: System, st: Step, t: string)
    requires AllRegular(y.conns) && SlotsWithin(limit, y.tenantN, y.conns, t)
    requires Enabled(y, st) && 0 < limit && st.Enforce?
    ensures SlotsWithin(limit, Apply(limit, y, st).tenantN, Apply(limit, y, st).conns, t)
  {
    TotalMoves(y.conns, st.id, Apply(limit, y, st).conns, SlotFor(t));
  }

  lemma OtherKeepsSlots(limit: int, y: System, st: Step, t: string)
    requires AllRegular(y.conns) && SlotsWithin(limit, y.tenantN, y.conns, t)
    requires Enabled(y, st) && 0 < limit && !st.Enforce?
    ensures SlotsWithin(limit, Apply(limit, y, st).tenantN, Apply(limit, y, st).conns, t)
  {
    TotalMoves(y.conns, st.id, Apply(limit, y, st).conns, SlotFor(t));
    if st.id in y.conns {
      TotalAtLeast(y.conns, SlotFor(t), st.id);
    }
  }

  lemma StepKeepsInv(limit: int, y: System, st: Step)
    requires Inv(limit, y) && Enabled(y, st)
    ensures Inv(limit, Apply(limit, y, st))
  {
    forall t ensures Exact(Apply(limit, y, st).authN, t, Total(Apply(limit, y, st).conns, CountedFor(t))) {
      AuthStaysExact(limit, y, st, t);
    }
    if limit > 0 {
      forall t ensures SlotsWithin(limit, Apply(limit, y, st).tenantN, Apply(limit, y, st).conns, t) {
        assert SlotsWithin(limit, y.tenantN, y.conns, t);
        if st.Enforce? {
          EnforceKeepsSlots(limit, y, st, t);
        } else {
          OtherKeepsSlots(limit, y, st, t);
        }
      }
    }
  }

  lemma {:induction false} RunsKeepInv(limit: int, y: System, steps: seq<Step>, end: System)
    requires Reaches(limit, y, steps, end) && Inv(limit, y)
    ensures Inv(limit, end)
    decreases |steps|
  {
    if steps != [] {
      StepKeepsInv(limit, y, steps[0]);
      RunsKeepInv(limit, Apply(limit, y, steps[0]), steps[1..], end);
    }
  }

  /** In every interleaving of accepts, logins, logouts, re-logins as other tenants and disconnects, the
      authenticated count of a tenant is the number of connections counted under it; with a limit, so is its
      slot count for those that have a slot, and it never exceeds the limit; no entry is zero; and without a
      limit there are no slot counts. */
  lemma CountsExact(limit: int, steps: seq<Step>, y: System, t: string)
    requires Reaches(limit, INITIAL, steps, y)
    ensures Count(y.authN, t) == Total(y.conns, CountedFor(t)) && (t in y.authN ==> y.authN[t] > 0)
    ensures limit > 0 ==> Count(y.tenantN, t) == Total(y.conns, SlotFor(t)) <= limit
    ensures limit > 0 && t in y.tenantN ==> y.tenantN[t] > 0
    ensures limit <= 0 ==> y.tenantN == map[]
  {
    RunsKeepInv(limit, INITIAL, steps, y);
    assert Exact(y.authN, t, Total(y.conns, CountedFor(t)));
    assert limit > 0 ==> SlotsWithin(limit, y.tenantN, y.conns, t);
  }

  /** A login is refused exactly when there is a limit and that many connections have the tenant's slots. */
  lemma RefusedExactlyWhenFull(limit: int, steps: seq<Step>, y: System, id: nat)
    requires Reaches(limit, INITIAL, steps, y) && In(y, id, Checking)
    requires y.conns[id].tenant.Some? && y.conns[id].counted.None?
    ensures Apply(limit, y, Enforce(id)).conns[id].phase == Closing <==>
            limit > 0 && Total(y.conns, SlotFor(y.conns[id].tenant.value)) == limit
  {
    CountsExact(limit, steps, y, y.conns[id].tenant.value);
  }

  /** Between messages the two counts agree: every counted connection has one slot, under the tenant it first
      logged in as, whatever it logged in as since. */
  lemma CountsAgreeAtRest(limit: int, steps: seq<Step>, y: System, t: string)
    requires Reaches(limit, INITIAL, steps, y) && limit > 0
    requires forall id :: id in y.conns ==> y.conns[id].phase != Taken && y.conns[id].phase != Uncounted
    ensures Count(y.tenantN, t) == Count(y.authN, t)
  {
    CountsExact(limit, steps, y, t);
    SameTotals(y.conns, t);
  }

  lemma {:induction false} SameTotals(conns: map<nat, Conn>, t: string)
    requires forall id :: id in conns ==> conns[id].phase != Taken && conns[id].phase != Uncounted
    ensures Total(conns, SlotFor(t)) == Total(conns, CountedFor(t))
    decreases |conns|
  {
    if conns != map[] {
      var id :| id in conns;
      TotalWithout(conns, SlotFor(t), id);
      TotalWithout(conns, CountedFor(t), id);
      SameTotals(conns - {id}, t);
    }
  }

  /** Once counted, a connection stays counted under the same tenant for as long as it lives: logging in again
      under another tenant, after a logout or without one, moves no count. */
  lemma {:induction false} CountedOnce(limit: int, y: System, steps: seq<Step>, end: System, id: nat)
    requires Reaches(limit, y, steps, end) && Inv(limit, y) && Accept(id) !in steps
    requires id in y.conns && y.conns[id].counted.Some? && id in end.conns
    ensures end.conns[id].counted == y.conns[id].counted
    decreases |steps|
  {
    if steps != [] {
      var z := Apply(limit, y, steps[0]);
      assert steps == [steps[0]] + steps[1..];
      StepKeepsInv(limit, y, steps[0]);
      if id in z.conns {
        CountedOnce(limit, z, steps[1..], end, id);
      } else {
        NeverBack(limit, z, steps[1..], end, id);
      }
    }
  }

  lemma {:induction false} NeverBack(limit: int, y: System, steps: seq<Step>, end: System, id: nat)
    requires Reaches(limit, y, steps, end) && id !in y.conns && Accept(id) !in steps
    ensures id !in end.conns
    decreases |steps|
  {
    if steps != [] {
      assert steps == [steps[0]] + steps[1..];
      NeverBack(limit, Apply(limit, y, steps[0]), steps[1..], end, id);
    }
  }
}
