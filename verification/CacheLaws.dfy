/** What enters the result cache, what is served from it and what leaves it: laws on the names and elements of
    commands, for single commands and over runs. */
module CacheLaws {
  import opened Wrappers
  import opened Text
  import opened NormalForm
  import opened Command
  import opened CacheKeys
  import opened CacheStore
  import opened Coherence

  // ---------------------------------------------------------------- deadlines

  /** A stored payload is served up to its deadline, and for ever when there is no lifetime. */
  lemma ServedUntilDeadline(c: Cache, key: string, val: string, ttl: Time, now: Time, later: Time)
    ensures var s := AfterSet(c, key, val, ttl, now);
            && (ttl <= 0 || later <= now + ttl ==> Fetched(s, key, later) == Some(val) && AfterGet(s, key, later) == s)
            && (0 < ttl && now + ttl < later ==>
                  Fetched(s, key, later) == None && AfterGet(s, key, later).mu == c.mu - {key})
  {
  }

  // ---------------------------------------------------------------- commands that never use the cache

  lemma {:induction false} LookupFinds(es: seq<Elem>, key: string)
    ensures Lookup(es, key).Some? <==> exists i | 0 <= i < |es| :: es[i].key == key
  {
    if es != [] && es[0].key != key {
      LookupFinds(es[1..], key);
      assert forall i | 1 <= i < |es| :: es[i] == es[1..][i - 1];
      assert forall i | 0 <= i < |es| - 1 :: es[1..][i] == es[i + 1];
    }
  }

  predicate HasElement(es: seq<Elem>, key: string) {
    exists i | 0 <= i < |es| :: es[i].key == key
  }

  /** The command belongs to a transaction or a retryable write. */
  predicate InTransaction(es: seq<Elem>) {
    HasElement(es, "startTransaction") || HasElement(es, "autocommit") || HasElement(es, "txnNumber")
  }

  predicate HasStage(es: seq<Elem>, stage: string) {
    var p := Lookup(es, "pipeline");
    p.Some? && p.value.Arr?
    && exists i | 0 <= i < |p.value.items| :: p.value.items[i].Doc? && HasElement(p.value.items[i].elems, stage)
  }

  /** Writes its output, or follows changes. */
  predicate Uncacheable(es: seq<Elem>) {
    HasStage(es, "$out") || HasStage(es, "$merge") || HasStage(es, "$changeStream")
  }

  lemma StagesForbidden(es: seq<Elem>)
    ensures HasForbiddenAggStage(es) <==> Uncacheable(es)
  {
    var p := Lookup(es, "pipeline");
    if p.Some? && p.value.Arr? {
      forall i | 0 <= i < |p.value.items| && p.value.items[i].Doc?
        ensures var s := p.value.items[i].elems;
                ForbiddenStage(p.value.items[i]) <==>
                HasElement(s, "$out") || HasElement(s, "$merge") || HasElement(s, "$changeStream")
      {
      }
    }
  }

  /** The cache serves the five reads outside transactions; no aggregation that writes or follows changes. */
  predicate Cached(lname: string, es: seq<Elem>) {
    && (lname in {"find", "count", "estimateddocumentcount", "distinct"}
        || (lname == "aggregate" && !Uncacheable(es)))
    && !InTransaction(es)
  }

  lemma BypassMeaning(ev: Event, r: Request)
    requires Parse(ev.cmd, ev.seqs) == Some(r)
    ensures Bypasses(ev, r) <==> !Cached(r.lname, ev.cmd)
  {
    LookupFinds(ev.cmd, "startTransaction");
    LookupFinds(ev.cmd, "autocommit");
    LookupFinds(ev.cmd, "txnNumber");
    StagesForbidden(ev.cmd);
  }

  // ---------------------------------------------------------------- what a command names

  lemma {:induction false} LastStringAt(es: seq<Elem>, key: string, i: nat)
    requires i < |es| && es[i].key == key && IsString(es[i].val) && forall j | i < j < |es| :: es[j].key != key
    ensures LastString(es, key) == es[i].val.text
    decreases |es|
  {
    if i < |es| - 1 {
      LastStringAt(es[..|es| - 1], key, i);
    }
  }

  lemma {:induction false} NoLastString(es: seq<Elem>, key: string)
    requires !HasElement(es, key)
    ensures LastString(es, key) == ""
    decreases |es|
  {
    if es != [] {
      assert forall i | 0 <= i < |es| - 1 :: es[..|es| - 1][i] == es[i];
      NoLastString(es[..|es| - 1], key);
    }
  }

  /** A read or write names its collection, without one suffix, in its first element, and its database under "$db";
      without that it is "admin". */
  lemma ParseMeaning(es: seq<Elem>, seqs: seq<Sequence>)
    requires es != [] && es[0].key !in META_KEYS && IsString(es[0].val) && es[0].val.text != ""
    requires WritingName(ToLower(es[0].key)) || ReadingName(ToLower(es[0].key))
    ensures Parse(es, seqs).Some?
    ensures var r := Parse(es, seqs).value;
            && r.info.name == es[0].key && r.lname == ToLower(es[0].key)
            && (r.coll, r.useCache) == ResolveCacheCollection(es[0].val.text)
            && (!HasElement(es, "$db") ==> r.db == "admin")
            && (forall i | 0 <= i < |es| && es[i].key == "$db" && IsString(es[i].val) && es[i].val.text != ""
                           && forall j | i < j < |es| :: es[j].key != "$db" :: r.db == es[i].val.text)
  {
    WritingIsWrite(ToLower(es[0].key));
    ReadingIsRead(ToLower(es[0].key));
    LookupFinds(es, "$db");
    if !HasElement(es, "$db") {
      NoLastString(es, "$db");
    }
    forall i | 0 <= i < |es| && es[i].key == "$db" && IsString(es[i].val) && es[i].val.text != ""
               && forall j | i < j < |es| :: es[j].key != "$db"
      ensures LastString(es, "$db") == es[i].val.text
    {
      LastStringAt(es, "$db", i);
    }
  }

  // ---------------------------------------------------------------- what the backend is sent

  lemma {:induction false} SetFieldElsewhere(es: seq<Elem>, key: string, v: Value, k: string)
    requires k != key
    ensures Lookup(SetField(es, key, v), k) == Lookup(es, k)
  {
    if es != [] && es[0].key != key {
      SetFieldElsewhere(es[1..], key, v, k);
    }
  }

  predicate NoSequence(seqs: seq<Sequence>, k: string) {
    forall i | 0 <= i < |seqs| :: seqs[i].0 != k
  }

  /** The merged command has under each name its last document sequence of that name, as an array, and otherwise what
      the command itself has; sequences without a name count for nothing. */
  lemma {:induction false} MergedMeaning(es: seq<Elem>, seqs: seq<Sequence>, k: string)
    ensures k == "" || NoSequence(seqs, k) ==> Lookup(Merged(es, seqs), k) == Lookup(es, k)
    ensures forall i | 0 <= i < |seqs| && k != "" && seqs[i].0 == k && NoSequence(seqs[i + 1..], k) ::
              Lookup(Merged(es, seqs), k) == Some(Arr(seqs[i].1))
    decreases |seqs|
  {
    if seqs != [] {
      var name, rest := seqs[0].0, seqs[1..];
      var next := if name == "" then es else SetField(es, name, Arr(seqs[0].1));
      MergedMeaning(next, rest, k);
      if k != name && name != "" {
        SetFieldElsewhere(es, name, Arr(seqs[0].1), k);
      }
      forall i | 0 <= i < |seqs| && k != "" && seqs[i].0 == k && NoSequence(seqs[i + 1..], k)
        ensures Lookup(Merged(es, seqs), k) == Some(Arr(seqs[i].1))
      {
        if i > 0 {
          assert rest[i - 1] == seqs[i] && rest[i - 1 + 1..] == seqs[i + 1..];
        }
      }
    }
  }

  // ---------------------------------------------------------------- what enters

  /** The entry is new, or another than before. */
  predicate Entered(before: Cache, after: Cache, k: string) {
    k in after.mu && !(k in before.mu && before.mu[k] == after.mu[k])
  }

  /** The entry holds the backend's answer to the command, not empty and no larger than allowed. */
  predicate HoldsAnswer(cfg: Config, s: State, ev: Event, r: Request, e: MemEntry) {
    && 0 < |e.val| <= ev.dec.maxResultBytes
    && e.exp == (if 0 < ev.dec.ttl then Some(ev.now + ev.dec.ttl) else None)
    && AnswerNow(cfg, s, ev, r) == Reply(e.val)
  }

  lemma StoredHolds(cfg: Config, cache: Cache, s: State, ev: Event, r: Request, k: string)
    requires Entered(cache, Stored(cfg, cache, ev, r, AnswerNow(cfg, s, ev, r)), k)
    ensures k == KeyFor(cfg, ev, r)
    ensures HoldsAnswer(cfg, s, ev, r, Stored(cfg, cache, ev, r, AnswerNow(cfg, s, ev, r)).mu[k])
  {
  }

  lemma ReadStores(cfg: Config, s: State, ev: Event, r: Request, k: string)
    requires Entered(s.cache, TryCacheRead(cfg, s, ev, r).1.cache, k)
    ensures r.coll != "" && !Bypasses(ev, r) && k == KeyFor(cfg, ev, r)
    ensures HoldsAnswer(cfg, s, ev, r, TryCacheRead(cfg, s, ev, r).1.cache.mu[k])
  {
    var kept := AfterGet(s.cache, KeyFor(cfg, ev, r), ev.now);
    if Entered(kept, Stored(cfg, kept, ev, r, AnswerNow(cfg, s, ev, r)), k) {
      StoredHolds(cfg, kept, s, ev, r, k);
    }
  }

  lemma PassStores(cfg: Config, s: State, ev: Event, r: Request, k: string)
    requires Entered(s.cache, Passthrough(cfg, s, ev, r).1.cache, k)
    ensures r.useCache && r.coll != "" && !Bypasses(ev, r) && k == KeyFor(cfg, ev, r)
    ensures HoldsAnswer(cfg, s, ev, r, Passthrough(cfg, s, ev, r).1.cache.mu[k])
  {
    if Entered(s.cache, Stored(cfg, s.cache, ev, r, AnswerNow(cfg, s, ev, r)), k) {
      StoredHolds(cfg, s.cache, s, ev, r, k);
    }
  }

  lemma HandledStores(cfg: Config, s: State, ev: Event, r: Request, k: string)
    requires Entered(s.cache, HandlePassthrough(cfg, s, ev, r).1.cache, k)
    ensures ev.tenantID != "" && ev.connectionID != ""
    ensures r.useCache && r.coll != "" && !Bypasses(ev, r) && k == KeyFor(cfg, ev, r)
    ensures var e := HandlePassthrough(cfg, s, ev, r).1.cache.mu[k];
            HoldsAnswer(cfg, s, ev, r, e) || HoldsAnswer(cfg, s.(data := Touched(s.data, ev)), ev, r, e)
  {
    if r.useCache && Entered(s.cache, TryCacheRead(cfg, s, ev, r).1.cache, k) {
      ReadStores(cfg, s, ev, r, k);
    }
    var t := if r.useCache then TryCacheRead(cfg, s, ev, r).1 else s;
    if Entered(t.cache, Passthrough(cfg, t, ev, r).1.cache, k) {
      PassStores(cfg, t, ev, r, k);
    }
  }

  /** Whatever a command puts into the cache is the backend's answer to it, before or after the changes it makes,
      under its own key; and the command is an opted-in, cached read of an admitted session. */
  lemma StoresOnlyAnswers(cfg: Config, s: State, ev: Event, k: string)
    requires Entered(s.cache, Handle(cfg, s, ev).1.cache, k)
    ensures Parse(ev.cmd, ev.seqs).Some?
    ensures var r := Parse(ev.cmd, ev.seqs).value;
            var e := Handle(cfg, s, ev).1.cache.mu[k];
            && ev.admitted && !ev.limited && ev.tenantID != "" && ev.connectionID != ""
            && r.useCache && r.coll != "" && Cached(r.lname, ev.cmd)
            && k == CacheKey(cfg.codec, Namespace(ev.tenantID, ev.connectionID, r.db, r.coll), r.info.name,
                             Doc(ev.cmd), ev.dec.keyVersion)
            && (HoldsAnswer(cfg, s, ev, r, e) || HoldsAnswer(cfg, s.(data := Touched(s.data, ev)), ev, r, e))
  {
    var r := Parse(ev.cmd, ev.seqs).value;
    HandledStores(cfg, s, ev, r, k);
    BypassMeaning(ev, r);
  }

  // ---------------------------------------------------------------- what is served

  /** An admitted command that the proxy sends on. */
  predicate Served(ev: Event, r: Request) {
    && Parse(ev.cmd, ev.seqs) == Some(r) && ev.admitted && !ev.limited && ev.tenantID != "" && ev.connectionID != ""
    && r.lname !in {"hello", "ismaster", "saslstart", "saslcontinue", "authenticate", "logout", "getnonce", "ping",
                    "buildinfo", "getcmdlineopts", "whatsmyuri", "getlog", "listcommands", "connectionstatus",
                    "hostinfo", "features", "getmore", "killcursors"}
  }

  lemma ServedMeaning(cfg: Config, s: State, ev: Event, r: Request)
    requires Served(ev, r)
    ensures Handle(cfg, s, ev) == HandlePassthrough(cfg, s, ev, r)
  {
  }

  /** A command without session or over its rate reaches neither the cache nor the backend; without a session only
      the handshake is answered. */
  lemma NoSessionNoAccess(cfg: Config, s: State, ev: Event)
    requires !ev.admitted || ev.limited || ev.tenantID == "" || ev.connectionID == ""
    ensures Handle(cfg, s, ev).1 == s
    ensures !ev.admitted && Handle(cfg, s, ev).0 == Local ==>
              Parse(ev.cmd, ev.seqs).value.lname in {
                "hello", "ismaster", "saslstart", "saslcontinue", "authenticate", "logout", "getnonce", "ping",
                "buildinfo", "getcmdlineopts", "whatsmyuri", "getlog", "listcommands", "connectionstatus", "hostinfo",
                "features"}
  {
  }

  /** An opted-in, cached read that the cache does not hold is answered by the backend and stored, if it fits. */
  lemma FirstReadLoads(cfg: Config, s: State, ev: Event, r: Request, p: string)
    requires Served(ev, r) && r.useCache && r.coll != "" && Cached(r.lname, ev.cmd) && ev.up1
    requires Fetched(s.cache, KeyFor(cfg, ev, r), ev.now) == None
    requires AnswerNow(cfg, s, ev, r) == Reply(p) && 0 < |p| <= ev.dec.maxResultBytes
    ensures var (out, t) := Handle(cfg, s, ev);
            out == Loaded(p) && (0 <= ev.dec.ttl ==> Fetched(t.cache, KeyFor(cfg, ev, r), ev.now) == Some(p))
  {
    ServedMeaning(cfg, s, ev, r);
    BypassMeaning(ev, r);
  }

  /** The same read within the lifetime is a hit, from whatever client of that tenant and connection. */
  lemma SecondReadHits(cfg: Config, s: State, ev: Event, r: Request, p: string, again: Event)
    requires Served(ev, r) && r.useCache && r.coll != "" && Cached(r.lname, ev.cmd) && ev.up1
    requires Fetched(s.cache, KeyFor(cfg, ev, r), ev.now) == None
    requires AnswerNow(cfg, s, ev, r) == Reply(p) && 0 < |p| <= ev.dec.maxResultBytes
    requires Served(again, r) && again.cmd == ev.cmd && again.dec.keyVersion == ev.dec.keyVersion
    requires again.tenantID == ev.tenantID && again.connectionID == ev.connectionID
    requires ev.dec.ttl <= 0 || again.now <= ev.now + ev.dec.ttl
    ensures Handle(cfg, Handle(cfg, s, ev).1, again) == (Hit(p), Handle(cfg, s, ev).1)
  {
    ServedMeaning(cfg, s, ev, r);
    ServedMeaning(cfg, Handle(cfg, s, ev).1, again, r);
    BypassMeaning(ev, r);
    BypassMeaning(again, r);
  }

  /** Commands that are not cached are never answered from the cache and put nothing into it; reads that did not opt
      in neither. */
  lemma UncachedNeverHit(cfg: Config, s: State, ev: Event, r: Request, k: string)
    requires Parse(ev.cmd, ev.seqs) == Some(r) && (!Cached(r.lname, ev.cmd) || !r.useCache)
    ensures !Handle(cfg, s, ev).0.Hit? && !Handle(cfg, s, ev).0.Loaded?
    ensures !Entered(s.cache, Handle(cfg, s, ev).1.cache, k)
  {
    BypassMeaning(ev, r);
    if Entered(s.cache, Handle(cfg, s, ev).1.cache, k) {
      StoresOnlyAnswers(cfg, s, ev, k);
    }
  }

  predicate ReadingName(lname: string) {
    lname in {"find", "aggregate", "count", "estimateddocumentcount", "distinct", "listcollections", "listindexes",
              "listdatabases", "collstats", "dbstats", "currentop", "explain"}
  }

  lemma ReadingIsRead(lname: string)
    ensures ReadingName(lname) <==> KindOf(lname) == Read
  {
  }

  /** Reads that are not served from the cache get the backend's answer. */
  lemma OtherReadsPass(cfg: Config, s: State, ev: Event, r: Request)
    requires Served(ev, r) && ev.up2 && (!r.useCache || r.coll == "" || !Cached(r.lname, ev.cmd))
    requires ReadingName(r.lname)
    ensures Handle(cfg, s, ev) == (Passed(AnswerNow(cfg, s, ev, r)), s.(data := Touched(s.data, ev)))
  {
    ServedMeaning(cfg, s, ev, r);
    ReadingIsRead(r.lname);
    BypassMeaning(ev, r);
  }

  // ---------------------------------------------------------------- what leaves

  /** Every stored key of a collection is registered for it, and nothing else is: the invariant of the interleaved
      store, between calls. */
  ghost predicate Registered(codec: Codec, cache: Cache) {
    Inv(codec, System(cache, map[]))
  }

  /** The names of the message are ones the key format keeps apart. */
  predicate PlainMessage(ev: Event) {
    Parse(ev.cmd, ev.seqs).Some? ==> Plain(NsOf(ev, Parse(ev.cmd, ev.seqs).value))
  }

  lemma PutKeepsRegistered(codec: Codec, cache: Cache, ns: Namespace, m: string, v: Value, i: int, val: string,
                           ttl: Time, now: Time)
    requires CodecOk(codec) && Registered(codec, cache) && Plain(ns)
    ensures Registered(codec, AfterPut(cache, ns, CacheKey(codec, ns, m, v, i), val, ttl, now))
  {
    if val != "" {
      var none: map<int, Writer> := map[];
      var st := SetStep(0, ns, m, v, i, val, ttl, now);
      var mid := Apply(codec, System(cache, none), st);
      StepKeepsInv(codec, System(cache, none), st);
      StepKeepsInv(codec, mid, RegisterStep(0));
      assert mid.writers - {0} == none;
    }
  }

  lemma GetKeepsRegistered(codec: Codec, cache: Cache, key: string, now: Time)
    requires CodecOk(codec) && Registered(codec, cache)
    ensures Registered(codec, AfterGet(cache, key, now))
  {
    StepKeepsInv(codec, System(cache, map[]), GetStep(key, now));
  }

  lemma FlushKeepsRegistered(codec: Codec, cache: Cache, ns: Namespace)
    requires CodecOk(codec) && Registered(codec, cache) && Plain(ns)
    ensures Registered(codec, AfterInvalidate(cache, ns))
  {
    StepKeepsInv(codec, System(cache, map[]), InvalidateStep(ns));
  }

  /** Flushing a collection takes its keys and no other. */
  lemma FlushIsExact(codec: Codec, cache: Cache, ns: Namespace, a: Namespace, m: string, v: Value, i: int)
    requires CodecOk(codec) && Registered(codec, cache) && Plain(ns) && Plain(a)
    ensures var key := CacheKey(codec, a, m, v, i);
            key in AfterInvalidate(cache, ns).mu <==> key in cache.mu && !SameNamespace(a, ns)
  {
    var key := CacheKey(codec, a, m, v, i);
    assert KeyOf(codec, a, key);
    RegistryAfterInvalidate(cache, ns, a);
    if key in cache.mu && SameNamespace(a, ns) {
      assert !AwaitingRegistration(System(cache, map[]), key);
      assert key in Registry(cache, a);
    }
    if key in Registry(cache, ns) {
      KeyOfOne(codec, a, ns, key);
    }
  }

  lemma ReadKeepsRegistered(cfg: Config, s: State, ev: Event, r: Request)
    requires CodecOk(cfg.codec) && Registered(cfg.codec, s.cache) && Plain(NsOf(ev, r))
    ensures Registered(cfg.codec, TryCacheRead(cfg, s, ev, r).1.cache)
  {
    var key := KeyFor(cfg, ev, r);
    GetKeepsRegistered(cfg.codec, s.cache, key, ev.now);
    var a := AnswerNow(cfg, s, ev, r);
    if a.Reply? {
      PutKeepsRegistered(cfg.codec, AfterGet(s.cache, key, ev.now), NsOf(ev, r), r.info.name, Doc(ev.cmd),
                         ev.dec.keyVersion, a.payload, ev.dec.ttl, ev.now);
    }
  }

  lemma PassKeepsRegistered(cfg: Config, s: State, ev: Event, r: Request)
    requires CodecOk(cfg.codec) && Registered(cfg.codec, s.cache) && Plain(NsOf(ev, r))
    ensures Registered(cfg.codec, Passthrough(cfg, s, ev, r).1.cache)
  {
    var a := AnswerNow(cfg, s, ev, r);
    if a.Reply? {
      PutKeepsRegistered(cfg.codec, s.cache, NsOf(ev, r), r.info.name, Doc(ev.cmd), ev.dec.keyVersion, a.payload,
                         ev.dec.ttl, ev.now);
    }
    FlushKeepsRegistered(cfg.codec, s.cache, Flushed(ev, r));
  }

  lemma HandleKeepsRegistered(cfg: Config, s: State, ev: Event)
    requires CodecOk(cfg.codec) && Registered(cfg.codec, s.cache) && PlainMessage(ev)
    ensures Registered(cfg.codec, Handle(cfg, s, ev).1.cache)
  {
    var p := Parse(ev.cmd, ev.seqs);
    if p.Some? {
      ReadKeepsRegistered(cfg, s, ev, p.value);
      PassKeepsRegistered(cfg, if p.value.useCache then TryCacheRead(cfg, s, ev, p.value).1 else s, ev, p.value);
    }
  }

  /** The state after a run of messages. */
  function HandleAll(cfg: Config, s: State, evs: seq<Event>): State
    decreases |evs|
  {
    if evs == [] then s else HandleAll(cfg, Handle(cfg, s, evs[0]).1, evs[1..])
  }

  lemma {:induction false} RunsRegistered(cfg: Config, s: State, evs: seq<Event>)
    requires CodecOk(cfg.codec) && Registered(cfg.codec, s.cache) && forall ev :: ev in evs ==> PlainMessage(ev)
    ensures Registered(cfg.codec, HandleAll(cfg, s, evs).cache)
    decreases |evs|
  {
    if evs != [] {
      HandleKeepsRegistered(cfg, s, evs[0]);
      RunsRegistered(cfg, Handle(cfg, s, evs[0]).1, evs[1..]);
    }
  }

  predicate WritingName(lname: string) {
    lname in {"insert", "update", "delete", "findandmodify", "bulkwrite", "create", "createcollection",
              "createindexes", "drop", "dropdatabase", "dropindexes", "renamecollection", "createuser"}
  }

  lemma WritingIsWrite(lname: string)
    ensures WritingName(lname) <==> KindOf(lname) == Write
  {
  }

  lemma WriteBypassed(ev: Event, r: Request)
    requires Parse(ev.cmd, ev.seqs) == Some(r) && WritingName(r.lname)
    ensures r.info.kind == Write && Bypasses(ev, r)
  {
    WritingIsWrite(r.lname);
    BypassMeaning(ev, r);
  }

  lemma WriteHandled(cfg: Config, s: State, ev: Event, r: Request)
    requires Served(ev, r) && WritingName(r.lname) && ev.up2
    ensures var (out, t) := Handle(cfg, s, ev);
            && out == Wrote(ev.failed) && t.data == Touched(s.data, ev)
            && t.cache == if !ev.failed && r.coll != "" && FlushesOnWrite(cfg, ev.connectionID)
                          then AfterInvalidate(s.cache, Flushed(ev, r)) else s.cache
  {
    ServedMeaning(cfg, s, ev, r);
    WriteBypassed(ev, r);
  }

  /** After any run from an empty cache, a write that succeeds on a connection with the flag leaves no key of the
      collection it names, if that name has no second suffix, and leaves the keys of every other collection; a
      write that fails, or on a connection without the flag, leaves the cache alone. */
  lemma WritesFlushTheirCollection(cfg: Config, data: Data, evs: seq<Event>, ev: Event, r: Request, a: Namespace,
                                   m: string, v: Value, i: int)
    requires CodecOk(cfg.codec) && (forall e :: e in evs ==> PlainMessage(e)) && PlainMessage(ev) && Plain(a)
    requires Served(ev, r) && WritingName(r.lname) && ev.up2 && r.coll != "" && RealName(r.coll) == r.coll
    ensures var s := HandleAll(cfg, State(EMPTY, data), evs);
            var t := Handle(cfg, s, ev).1;
            var flagged := ev.connectionID in cfg.rows.connections
                           && cfg.rows.connections[ev.connectionID].autoInvalidateOnWrite;
            var key := CacheKey(cfg.codec, a, m, v, i);
            var named := SameNamespace(a, Namespace(ev.tenantID, ev.connectionID, r.db, r.coll));
            && (flagged && !ev.failed && named ==> key !in t.cache.mu)
            && (flagged && !ev.failed && !named ==> (key in t.cache.mu <==> key in s.cache.mu))
            && (!flagged || ev.failed ==> t.cache == s.cache)
  {
    var s := HandleAll(cfg, State(EMPTY, data), evs);
    RunsRegistered(cfg, State(EMPTY, data), evs);
    WriteHandled(cfg, s, ev, r);
    FlushIsExact(cfg.codec, s.cache, NsOf(ev, r), a, m, v, i);
  }
}
