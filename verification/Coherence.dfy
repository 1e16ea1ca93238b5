/** The query path of the proxy: read-through caching of opted-in reads and flushing on writes. Commands run
    one at a time against backends whose answers depend on the normalised command and the collection's
    contents. */
module Coherence {
  import opened Wrappers
  import opened Text
  import opened NormalForm
  import opened Command
  import opened CacheKeys
  import opened CacheStore
  import Store
  import Services

  /** A collection as a backend knows it; tenants and connections do not exist there. */
  datatype Loc = Loc(backend: string, db: string, coll: string)

  /** A backend reply: an ok:0 document, or the payload its documents serialise to. */
  datatype Answer = ErrorReply | Reply(payload: string)

  type AnswerFn = (Loc, string, Value, string) -> Answer

  datatype Decision = Decision(ttl: Time, maxResultBytes: int, keyVersion: int)

  /** What stays fixed: the key codec, the control-plane rows, the connections in use and the backend each
      of them was made for, and the backends' query semantics. */
  datatype Config = Config(codec: Codec, rows: Store.Db, backendOf: string -> string, conns: set<string>,
                           answer: AnswerFn)

  type Data = map<Loc, string>

  datatype State = State(cache: Cache, data: Data)

  /** A client message with what its environment contributes: the backend its connection reaches, whether the
      session is admitted and over its rate, the policy in force, the clock, whether each attempt to reach the
      backend succeeds, for a write whether it reports an error, and what the backend makes of its collections when
      it runs the command, whatever the proxy takes the command to be. */
  datatype Event = Event(tenantID: string, connectionID: string, backend: string, admitted: bool, limited: bool,
                         cmd: seq<Elem>, seqs: seq<Sequence>, dec: Decision, now: Time, up1: bool, up2: bool,
                         failed: bool, changes: map<(string, string), string>)

  datatype Served =
    | BadValue
    | NotAuthorized
    | RateLimited
    | Local
    | Unreachable
    | Hit(payload: string)
    | Loaded(payload: string)
    | Passed(answer: Answer)
    | Wrote(failed: bool)
    | Ran

  datatype Request = Request(info: Info, lname: string, db: string, coll: string, useCache: bool)

  /** Commands that need no session. */
  const PREAUTH: set<string> := {
    "hello", "ismaster", "saslstart", "saslcontinue", "authenticate", "logout", "getnonce", "ping", "buildinfo",
    "getcmdlineopts", "whatsmyuri", "getlog", "listcommands", "connectionstatus", "hostinfo", "features"}

  /** Commands that the proxy answers itself. */
  const LOCAL: set<string> := PREAUTH + {"getmore", "killcursors"}

  /** The collection name the client wrote. */
  function Asked(info: Info, cmd: seq<Elem>, seqs: seq<Sequence>): string {
    if info.coll != "" then info.coll else FirstString(Merged(cmd, seqs), info.name)
  }

  function Parse(cmd: seq<Elem>, seqs: seq<Sequence>): Option<Request> {
    var info := Classify(cmd);
    if info.None? then None
    else
      var db := LastString(cmd, "$db");
      var (coll, useCache) := ResolveCacheCollection(Asked(info.value, cmd, seqs));
      Some(Request(info.value, ToLower(info.value.name), if db == "" then info.value.db else db, coll, useCache))
  }

  function ContentsAt(data: Data, l: Loc): string {
    if l in data then data[l] else ""
  }

  function NsOf(ev: Event, r: Request): Namespace {
    Namespace(ev.tenantID, ev.connectionID, r.db, r.coll)
  }

  function LocOf(cfg: Config, ns: Namespace): Loc {
    Loc(cfg.backendOf(ns.connectionID), ns.db, ns.coll)
  }

  /** The collection that the command reaches. */
  function Target(ev: Event, r: Request): Loc {
    Loc(ev.backend, r.db, r.coll)
  }

  /** The key is made from the message body alone. */
  function KeyFor(cfg: Config, ev: Event, r: Request): string {
    CacheKey(cfg.codec, NsOf(ev, r), r.info.name, Doc(ev.cmd), ev.dec.keyVersion)
  }

  /** The backend's reply now; it is sent the merged command. */
  function AnswerNow(cfg: Config, s: State, ev: Event, r: Request): Answer {
    cfg.answer(Target(ev, r), r.lname, Norm(Doc(Merged(ev.cmd, ev.seqs))), ContentsAt(s.data, Target(ev, r)))
  }

  function Bypasses(ev: Event, r: Request): bool {
    ShouldBypassCache(r.info.name, ev.cmd, r.info.isTxn)
  }

  /** The data after the backend has run a command. */
  function Touched(data: Data, ev: Event): Data {
    data + map l: Loc | l in LocsOn(ev.backend, ev.changes.Keys) :: ev.changes[(l.db, l.coll)]
  }

  function LocsOn(backend: string, names: set<(string, string)>): set<Loc> {
    set n | n in names :: Loc(backend, n.0, n.1)
  }

  /** A reply that may be stored. */
  predicate Cacheable(ev: Event, a: Answer) {
    a.Reply? && |a.payload| <= ev.dec.maxResultBytes
  }

  function Stored(cfg: Config, cache: Cache, ev: Event, r: Request, a: Answer): Cache {
    if Cacheable(ev, a) then AfterPut(cache, NsOf(ev, r), KeyFor(cfg, ev, r), a.payload, ev.dec.ttl, ev.now) else cache
  }

  // ---------------------------------------------------------------- what one command does

  /** tryCacheRead: the served reply, if it handled the command, and the state it leaves. */
  function TryCacheRead(cfg: Config, s: State, ev: Event, r: Request): (Option<Served>, State) {
    if r.coll == "" || Bypasses(ev, r) then (None, s)
    else
      var key := KeyFor(cfg, ev, r);
      var found := Fetched(s.cache, key, ev.now);
      var kept := s.(cache := AfterGet(s.cache, key, ev.now));
      if found.Some? then (Some(Hit(found.value)), kept)
      else if !ev.up1 then (None, kept)
      else
        var a := AnswerNow(cfg, s, ev, r);
        (if Cacheable(ev, a) then Some(Loaded(a.payload)) else None,
         State(Stored(cfg, kept.cache, ev, r, a), Touched(s.data, ev)))
  }

  predicate FlushesOnWrite(cfg: Config, connectionID: string) {
    connectionID in cfg.rows.connections && cfg.rows.connections[connectionID].autoInvalidateOnWrite
  }

  /** The collection a write flushes: the suffix comes off a second time. */
  function Flushed(ev: Event, r: Request): Namespace {
    Namespace(ev.tenantID, ev.connectionID, r.db, RealName(r.coll))
  }

  function Passthrough(cfg: Config, s: State, ev: Event, r: Request): (Served, State) {
    if !ev.up2 then (Unreachable, s)
    else if r.info.kind == Read then
      var a := AnswerNow(cfg, s, ev, r);
      var t := s.(data := Touched(s.data, ev));
      (Passed(a),
       if r.useCache && r.coll != "" && !Bypasses(ev, r) then t.(cache := Stored(cfg, s.cache, ev, r, a)) else t)
    else if r.info.kind == Write then
      var wrote := s.(data := Touched(s.data, ev));
      (Wrote(ev.failed),
       if !ev.failed && r.coll != "" && FlushesOnWrite(cfg, ev.connectionID)
       then wrote.(cache := AfterInvalidate(s.cache, Flushed(ev, r))) else wrote)
    else (Ran, s.(data := Touched(s.data, ev)))
  }

  function HandlePassthrough(cfg: Config, s: State, ev: Event, r: Request): (Served, State) {
    if ev.tenantID == "" || ev.connectionID == "" then (NotAuthorized, s)
    else
      var (served, t) := if r.useCache then TryCacheRead(cfg, s, ev, r) else (None, s);
      if served.Some? then (served.value, t) else Passthrough(cfg, t, ev, r)
  }

  function Handle(cfg: Config, s: State, ev: Event): (Served, State) {
    var p := Parse(ev.cmd, ev.seqs);
    if p.None? then (BadValue, s)
    else if !ev.admitted && p.value.lname !in PREAUTH then (NotAuthorized, s)
    else if ev.limited && p.value.lname !in PREAUTH then (RateLimited, s)
    else if p.value.lname in LOCAL then (Local, s)
    else HandlePassthrough(cfg, s, ev, p.value)
  }

  // ---------------------------------------------------------------- the handler

  /** The pooled backend clients, as far as their collections go. */
  class Backends {
    var data: Data

    constructor (data: Data)
      ensures this.data == data
    {
      this.data := data;
    }

    /** Runs a command; merged is what the backend is sent. */
    method Run(cfg: Config, ev: Event, r: Request, merged: seq<Elem>) returns (a: Answer)
      requires merged == Merged(ev.cmd, ev.seqs)
      modifies this
      ensures forall c :: a == AnswerNow(cfg, State(c, old(data)), ev, r)
      ensures data == Touched(old(data), ev)
    {
      var l := Target(ev, r);
      a := cfg.answer(l, r.lname, Norm(Doc(merged)), ContentsAt(data, l));
      data := Touched(data, ev);
    }
  }

  class Handler {
    const cfg: Config
    const coordinator: Coordinator
    const backends: Backends

    constructor (cfg: Config, coordinator: Coordinator, backends: Backends)
      ensures this.cfg == cfg && this.coordinator == coordinator && this.backends == backends
    {
      this.cfg, this.coordinator, this.backends := cfg, coordinator, backends;
    }

    ghost function Now(): State
      reads coordinator.store, backends
    {
      State(coordinator.store.Contents(), backends.data)
    }

    method HandleMessage(ev: Event) returns (out: Served)
      modifies coordinator.store, backends
      ensures (out, Now()) == Handle(cfg, old(Now()), ev)
    {
      var p := Parse(ev.cmd, ev.seqs);
      if p.None? {
        return BadValue;
      }
      if !ev.admitted && p.value.lname !in PREAUTH {
        return NotAuthorized;
      }
      if ev.limited && p.value.lname !in PREAUTH {
        return RateLimited;
      }
      if p.value.lname in LOCAL {
        return Local;
      }
      out := PassThrough(ev, p.value);
    }

    method PassThrough(ev: Event, r: Request) returns (out: Served)
      modifies coordinator.store, backends
      ensures (out, Now()) == HandlePassthrough(cfg, old(Now()), ev, r)
    {
      if ev.tenantID == "" || ev.connectionID == "" {
        return NotAuthorized;
      }
      var merged := MergeDocumentSequences(ev.cmd, ev.seqs);
      if r.useCache {
        var reply := TryRead(ev, r, merged);
        if reply.Some? {
          return reply.value;
        }
      }
      out := RunOnBackend(ev, r, merged);
    }

    method RunOnBackend(ev: Event, r: Request, merged: seq<Elem>) returns (out: Served)
      requires merged == Merged(ev.cmd, ev.seqs)
      modifies coordinator.store, backends
      ensures (out, Now()) == Passthrough(cfg, old(Now()), ev, r)
    {
      if !ev.up2 {
        return Unreachable;
      }
      if r.info.kind == Read {
        var a := backends.Run(cfg, ev, r, merged);
        if r.useCache && r.coll != "" {
          MaybePopulateCache(ev, r, a);
        }
        return Passed(a);
      } else if r.info.kind == Write {
        var _ := backends.Run(cfg, ev, r, merged);
        if r.coll != "" && !ev.failed {
          MaybeAutoInvalidateOnWrite(ev, r);
        }
        return Wrote(ev.failed);
      }
      var _ := backends.Run(cfg, ev, r, merged);
      return Ran;
    }

    method TryRead(ev: Event, r: Request, merged: seq<Elem>) returns (reply: Option<Served>)
      requires merged == Merged(ev.cmd, ev.seqs)
      modifies coordinator.store, backends
      ensures (reply, Now()) == TryCacheRead(cfg, old(Now()), ev, r)
    {
      if r.coll == "" {
        return None;
      }
      if ShouldBypassCache(r.info.name, ev.cmd, r.info.isTxn) {
        return None;
      }
      var key := KeyFor(cfg, ev, r);
      var found := coordinator.store.Get(key, ev.now);
      if found.Some? {
        return Some(Hit(found.value));
      }
      if !ev.up1 {
        return None;
      }
      var a := backends.Run(cfg, ev, r, merged);
      if a.ErrorReply? {
        return None;
      }
      if |a.payload| > ev.dec.maxResultBytes {
        return None;
      }
      coordinator.BestEffortSet(NsOf(ev, r), key, a.payload, ev.dec.ttl, ev.now);
      return Some(Loaded(a.payload));
    }

    method MaybePopulateCache(ev: Event, r: Request, a: Answer)
      modifies coordinator.store
      ensures Now().cache == if Bypasses(ev, r) then old(Now()).cache else Stored(cfg, old(Now()).cache, ev, r, a)
    {
      if a.ErrorReply? || ShouldBypassCache(r.info.name, ev.cmd, r.info.isTxn) {
        return;
      }
      if |a.payload| > ev.dec.maxResultBytes {
        return;
      }
      coordinator.BestEffortSet(NsOf(ev, r), KeyFor(cfg, ev, r), a.payload, ev.dec.ttl, ev.now);
    }

    method MaybeAutoInvalidateOnWrite(ev: Event, r: Request)
      modifies coordinator.store
      ensures Now().cache == if FlushesOnWrite(cfg, ev.connectionID)
                             then AfterInvalidate(old(Now()).cache, Flushed(ev, r)) else old(Now()).cache
    {
      if ev.connectionID !in cfg.rows.connections || !cfg.rows.connections[ev.connectionID].autoInvalidateOnWrite {
        return;
      }
      var target := RealName(r.coll);
      if target == "" {
        target := r.coll;
      }
      coordinator.BestEffortInvalidate(Namespace(ev.tenantID, ev.connectionID, r.db, target));
    }
  }

  // ---------------------------------------------------------------- coherence

  /** A collection reached through an authenticated session: the connection is the tenant's own, and the
      names are ones the key format keeps apart. A command may name no collection; then nothing is cached. */
  ghost predicate SessionNs(cfg: Config, ns: Namespace) {
    && Plain(ns) && ns.coll != "" && ns.connectionID != "" && ns.connectionID in cfg.conns
    && Services.OwnsConnection(cfg.rows, ns.tenantID, ns.connectionID)
  }

  /** No two connections in use reach one backend. */
  ghost predicate Separate(cfg: Config) {
    forall a, b :: a in cfg.conns && b in cfg.conns && cfg.backendOf(a) == cfg.backendOf(b) ==> a == b
  }

  lemma SessionNsOne(cfg: Config, a: Namespace, b: Namespace)
    requires SessionNs(cfg, a) && SessionNs(cfg, b)
    requires SameNamespace(a, b) || (Separate(cfg) && LocOf(cfg, a) == LocOf(cfg, b))
    ensures a == b
  {
  }

  /** Every stored result is registered, and is what the backend would answer now. */
  ghost predicate Current(cfg: Config, s: State) {
    forall ns, m, v, i ::
      SessionNs(cfg, ns) && CacheKey(cfg.codec, ns, m, v, i) in s.cache.mu ==>
        && CacheKey(cfg.codec, ns, m, v, i) in Registry(s.cache, ns)
        && cfg.answer(LocOf(cfg, ns), ToLower(m), Norm(v), ContentsAt(s.data, LocOf(cfg, ns)))
           == Reply(s.cache.mu[CacheKey(cfg.codec, ns, m, v, i)].val)
  }

  lemma GetKeepsCurrent(cfg: Config, s: State, key: string, now: Time)
    requires Current(cfg, s)
    ensures Current(cfg, s.(cache := AfterGet(s.cache, key, now)))
  {
    assert forall ns :: Registry(AfterGet(s.cache, key, now), ns) == Registry(s.cache, ns);
  }

  lemma PutKeepsCurrent(cfg: Config, s: State, ns: Namespace, m: string, v: Value, i: int, val: string,
                        ttl: Time, now: Time)
    requires CodecOk(cfg.codec) && Current(cfg, s) && SessionNs(cfg, ns)
    requires cfg.answer(LocOf(cfg, ns), ToLower(m), Norm(v), ContentsAt(s.data, LocOf(cfg, ns))) == Reply(val)
    ensures Current(cfg, s.(cache := AfterPut(s.cache, ns, CacheKey(cfg.codec, ns, m, v, i), val, ttl, now)))
  {
    var key := CacheKey(cfg.codec, ns, m, v, i);
    var next := AfterPut(s.cache, ns, key, val, ttl, now);
    forall a, n, w, j | SessionNs(cfg, a) && CacheKey(cfg.codec, a, n, w, j) in next.mu
      ensures CacheKey(cfg.codec, a, n, w, j) in Registry(next, a)
      ensures cfg.answer(LocOf(cfg, a), ToLower(n), Norm(w), ContentsAt(s.data, LocOf(cfg, a)))
              == Reply(next.mu[CacheKey(cfg.codec, a, n, w, j)].val)
    {
      RegistryAfterRegister(AfterSet(s.cache, key, val, ttl, now), ns, key, a);
      CacheKeyMeaning(cfg.codec, a, n, w, j, ns, m, v, i);
    }
  }

  /** Changing a collection and flushing it leaves only current results, of every collection. */
  lemma WriteKeepsCurrent(cfg: Config, s: State, ns: Namespace, data: Data)
    requires CodecOk(cfg.codec) && Current(cfg, s) && SessionNs(cfg, ns) && Separate(cfg)
    requires forall l: Loc :: l != LocOf(cfg, ns) ==> ContentsAt(data, l) == ContentsAt(s.data, l)
    ensures Current(cfg, State(AfterInvalidate(s.cache, ns), data))
  {
    var next := AfterInvalidate(s.cache, ns);
    forall a, m, v, i | SessionNs(cfg, a) && CacheKey(cfg.codec, a, m, v, i) in next.mu
      ensures CacheKey(cfg.codec, a, m, v, i) in Registry(next, a) && LocOf(cfg, a) != LocOf(cfg, ns)
    {
      RegistryAfterInvalidate(s.cache, ns, a);
      if LocOf(cfg, a) == LocOf(cfg, ns) {
        SessionNsOne(cfg, a, ns);
      }
    }
  }

  /** Commands that name no collection change none of a session. */
  lemma NamelessKeepsCurrent(cfg: Config, s: State, data: Data)
    requires Current(cfg, s)
    requires forall l: Loc :: l.coll != "" ==> ContentsAt(data, l) == ContentsAt(s.data, l)
    ensures Current(cfg, s.(data := data))
  {
  }

  // ---------------------------------------------------------------- what backends and clients may do

  /** The server's commands that write to the collection they name. */
  const WRITING: set<string> := {
    "insert", "update", "delete", "findandmodify", "bulkwrite", "create", "createcollection", "createindexes",
    "drop", "dropdatabase", "dropindexes", "renamecollection", "createuser"}

  /** The server's commands that never change anything. */
  const PURE: set<string> := {"find", "count", "estimateddocumentcount", "distinct"}

  /** An aggregation that writes its output to a collection. */
  predicate WritesOut(es: seq<Elem>) {
    var p := Lookup(es, "pipeline");
    p.Some? && p.value.Arr? && exists i | 0 <= i < |p.value.items| :: OutputStage(p.value.items[i])
  }

  predicate OutputStage(v: Value) {
    v.Doc? && exists j | 0 <= j < |v.elems| :: v.elems[j].key in {"$out", "$merge"}
  }

  /** What may happen: the collection names of writes, the names of commands that may change other collections
      than the one they name as a write, whether connections may share a backend, whether opted-in reads may
      carry document sequences, whether a write that reports an error may have been applied, and whether a
      connection may come to reach another backend. */
  datatype Usage = Usage(writable: set<string>, changing: set<string>, shared: bool, sequences: bool, partial: bool,
                         relinked: bool)

  /** A message sent through an authenticated session on a connection that flushes on writes. */
  ghost predicate Fits(cfg: Config, u: Usage, ev: Event) {
    && Services.OwnsConnection(cfg.rows, ev.tenantID, ev.connectionID) && ev.connectionID in cfg.conns
    && FlushesOnWrite(cfg, ev.connectionID)
    && '}' !in ev.tenantID && ':' !in ev.connectionID
    && (ev.backend == cfg.backendOf(ev.connectionID) || u.relinked)
    && (Parse(ev.cmd, ev.seqs).Some? ==> Keeps(u, ev, Parse(ev.cmd, ev.seqs).value))
  }

  /** The server's part of this goes by the command's own name and arguments, never by the proxy's classes. */
  predicate Keeps(u: Usage, ev: Event, r: Request) {
    && '.' !in r.db
    && (r.lname in PURE ==> ev.changes == map[])
    && (r.lname == "aggregate" && !WritesOut(Merged(ev.cmd, ev.seqs)) ==> ev.changes == map[])
    && (ev.changes == map[] || r.info.name in u.changing
        || (r.lname in WRITING && ev.changes.Keys <= {(r.db, r.coll)}))
    && (r.lname in WRITING ==> Asked(r.info, ev.cmd, ev.seqs) in u.writable)
    && (r.lname in WRITING && ev.failed && ev.changes != map[] ==> u.partial)
    && (r.useCache && ev.seqs != [] ==> u.sequences)
  }

  /** A command of this name is not sent to the backend, or changes nothing there. */
  predicate Harmless(name: string) {
    name in META_KEYS || ToLower(name) in LOCAL || ToLower(name) in PURE
  }

  /** Some write names a collection. */
  predicate Writes(u: Usage) {
    exists w :: w in u.writable && w != ""
  }

  /** A reply served from the cache is the one the backend would give now. */
  ghost predicate HitCurrent(cfg: Config, s: State, ev: Event) {
    var out := Handle(cfg, s, ev).0;
    out.Hit? ==> AnswerNow(cfg, s, ev, Parse(ev.cmd, ev.seqs).value) == Reply(out.payload)
  }

  ghost predicate HitsCurrent(cfg: Config, s: State, evs: seq<Event>)
    decreases |evs|
  {
    evs == [] || (HitCurrent(cfg, s, evs[0]) && HitsCurrent(cfg, Handle(cfg, s, evs[0]).1, evs[1..]))
  }

  /** What keeps the cache coherent. */
  predicate Careful(u: Usage) {
    && (forall w :: w in u.writable ==> SafeTarget(w))
    && (forall n :: n in u.changing ==> Harmless(n) || (ToLower(n) in WRITING && u.writable == {}))
    && !u.sequences
    && !(u.shared && Writes(u)) && !(u.partial && Writes(u)) && !u.relinked
  }

  /** The connection reaches the backend it was made for. */
  predicate Linked(cfg: Config, ev: Event) {
    ev.backend == cfg.backendOf(ev.connectionID)
  }

  /** The request of a careful message: no hidden sequences, no hidden changes, writes to safe names. */
  predicate CarefulRequest(ev: Event, r: Request) {
    && r.lname == ToLower(r.info.name)
    && (r.useCache ==> ev.seqs == [])
    && (r.lname !in LOCAL && r.lname !in WRITING ==> ev.changes == map[])
    && (r.lname in WRITING ==>
          && RealName(r.coll) == r.coll && ev.changes.Keys <= {(r.db, r.coll)}
          && (r.coll != "" && ev.failed ==> ev.changes == map[]))
  }

  lemma ChangesOwnTarget(u: Usage, ev: Event, r: Request)
    requires Careful(u) && Keeps(u, ev, r) && r.info.name !in META_KEYS && r.lname == ToLower(r.info.name)
    requires r.lname !in LOCAL && ev.changes != map[]
    ensures r.lname in WRITING && ev.changes.Keys <= {(r.db, r.coll)}
  {
  }

  lemma CarefulParse(cfg: Config, u: Usage, ev: Event)
    requires Careful(u) && Fits(cfg, u, ev) && Parse(ev.cmd, ev.seqs).Some?
    ensures CarefulRequest(ev, Parse(ev.cmd, ev.seqs).value)
  {
    var r := Parse(ev.cmd, ev.seqs).value;
    assert r.info.name !in META_KEYS;
    if r.lname !in LOCAL && ev.changes != map[] {
      ChangesOwnTarget(u, ev, r);
    }
    if r.lname in WRITING {
      WritesAreClassified(r.lname);
      assert SafeTarget(Asked(r.info, ev.cmd, ev.seqs));
    }
  }

  /** The proxy takes exactly the server's writing commands for writes. */
  lemma WritesAreClassified(lname: string)
    ensures KindOf(lname) == Write <==> lname in WRITING
    ensures lname in WRITING ==> lname !in LOCAL && lname !in CACHEABLE && lname !in PURE && lname != "aggregate"
  {
  }

  lemma UntouchedData(data: Data, ev: Event)
    requires ev.changes == map[]
    ensures Touched(data, ev) == data
  {
    assert LocsOn(ev.backend, {}) == {};
  }

  lemma TouchedElsewhere(data: Data, ev: Event, l: Loc)
    requires (l.db, l.coll) !in ev.changes || l.backend != ev.backend
    ensures ContentsAt(Touched(data, ev), l) == ContentsAt(data, l)
  {
  }

  lemma StoredKeepsCurrent(cfg: Config, s: State, ev: Event, r: Request)
    requires CodecOk(cfg.codec) && Current(cfg, s) && SessionNs(cfg, NsOf(ev, r))
    requires r.lname == ToLower(r.info.name) && ev.seqs == [] && Linked(cfg, ev)
    ensures Current(cfg, s.(cache := Stored(cfg, s.cache, ev, r, AnswerNow(cfg, s, ev, r))))
  {
    var a := AnswerNow(cfg, s, ev, r);
    if Cacheable(ev, a) {
      PutKeepsCurrent(cfg, s, NsOf(ev, r), r.info.name, Doc(ev.cmd), ev.dec.keyVersion, a.payload, ev.dec.ttl, ev.now);
    }
  }

  lemma CacheReadKeepsCurrent(cfg: Config, s: State, ev: Event, r: Request)
    requires CodecOk(cfg.codec) && Current(cfg, s) && (r.coll != "" ==> SessionNs(cfg, NsOf(ev, r)))
    requires CarefulRequest(ev, r) && Linked(cfg, ev) && r.useCache && r.lname !in WRITING && r.lname !in LOCAL
    ensures var (served, t) := TryCacheRead(cfg, s, ev, r);
            && Current(cfg, t) && t.data == s.data
            && (served.Some? && served.value.Hit? ==> AnswerNow(cfg, s, ev, r) == Reply(served.value.payload))
  {
    var kept := s.(cache := AfterGet(s.cache, KeyFor(cfg, ev, r), ev.now));
    GetKeepsCurrent(cfg, s, KeyFor(cfg, ev, r), ev.now);
    if r.coll != "" {
      StoredKeepsCurrent(cfg, kept, ev, r);
    }
    UntouchedData(s.data, ev);
    assert AnswerNow(cfg, kept, ev, r) == AnswerNow(cfg, s, ev, r);
  }

  lemma WriteBypasses(ev: Event, r: Request)
    requires r.lname in WRITING && r.lname == ToLower(r.info.name)
    ensures Bypasses(ev, r)
  {
    WritesAreClassified(r.lname);
  }

  /** A careful write changes and flushes the one collection it names. */
  lemma WritingKeepsCurrent(cfg: Config, s: State, ev: Event, r: Request)
    requires CodecOk(cfg.codec) && Current(cfg, s) && (r.coll != "" ==> SessionNs(cfg, NsOf(ev, r)))
    requires CarefulRequest(ev, r) && Linked(cfg, ev) && FlushesOnWrite(cfg, ev.connectionID)
    requires r.lname in WRITING && r.info.kind == KindOf(r.lname) && (r.coll != "" ==> Separate(cfg))
    ensures Current(cfg, Passthrough(cfg, s, ev, r).1)
  {
    var data := Touched(s.data, ev);
    forall l | l != Target(ev, r) ensures ContentsAt(data, l) == ContentsAt(s.data, l) {
      TouchedElsewhere(s.data, ev, l);
    }
    WritesAreClassified(r.lname);
    if r.coll == "" {
      NamelessKeepsCurrent(cfg, s, data);
    } else if ev.failed {
      UntouchedData(s.data, ev);
    } else {
      WriteKeepsCurrent(cfg, s, NsOf(ev, r), data);
    }
  }

  lemma OthersKeepCurrent(cfg: Config, s: State, ev: Event, r: Request)
    requires CodecOk(cfg.codec) && Current(cfg, s) && (r.coll != "" ==> SessionNs(cfg, NsOf(ev, r)))
    requires CarefulRequest(ev, r) && Linked(cfg, ev)
    requires r.lname !in LOCAL && r.lname !in WRITING && r.info.kind == KindOf(r.lname)
    ensures Current(cfg, Passthrough(cfg, s, ev, r).1)
  {
    UntouchedData(s.data, ev);
    WritesAreClassified(r.lname);
    if r.useCache && r.coll != "" {
      StoredKeepsCurrent(cfg, s, ev, r);
    }
  }

  /** One careful command keeps every stored result current. */
  lemma HandleKeepsCurrent(cfg: Config, u: Usage, s: State, ev: Event)
    requires CodecOk(cfg.codec) && Current(cfg, s) && Careful(u) && Fits(cfg, u, ev) && (u.shared || Separate(cfg))
    ensures Current(cfg, Handle(cfg, s, ev).1) && HitCurrent(cfg, s, ev)
  {
    var p := Parse(ev.cmd, ev.seqs);
    if p.Some? && p.value.lname !in LOCAL && ev.tenantID != "" && ev.connectionID != "" {
      var r := p.value;
      CarefulParse(cfg, u, ev);
      if r.lname in WRITING {
        WriteBypasses(ev, r);
        WritingKeepsCurrent(cfg, s, ev, r);
      } else {
        if r.useCache {
          CacheReadKeepsCurrent(cfg, s, ev, r);
        }
        OthersKeepCurrent(cfg, if r.useCache then TryCacheRead(cfg, s, ev, r).1 else s, ev, r);
      }
    }
  }

  /** Over runs of any length, every hit is what the backend would answer at that moment. */
  lemma {:induction false} RunsCoherent(cfg: Config, u: Usage, s: State, evs: seq<Event>)
    requires CodecOk(cfg.codec) && Current(cfg, s) && Careful(u) && (u.shared || Separate(cfg))
    requires forall ev :: ev in evs ==> Fits(cfg, u, ev)
    ensures HitsCurrent(cfg, s, evs)
    decreases |evs|
  {
    if evs != [] {
      HandleKeepsCurrent(cfg, u, s, evs[0]);
      RunsCoherent(cfg, u, Handle(cfg, s, evs[0]).1, evs[1..]);
    }
  }
}
