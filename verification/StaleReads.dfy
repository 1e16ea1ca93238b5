/** What makes the cache serve stale results, and that nothing else does. */
module StaleReads {
  import opened Wrappers
  import opened Text
  import opened NormalForm
  import opened Command
  import opened CacheKeys
  import opened CacheStore
  import opened Coherence
  import Store

  const T := "t"
  const C := "c"
  const E := "e"
  const P := "p"
  const B := "b"
  const Z := "z"

  predicate HasP(v: Value) {
    v.Doc? && ValuesOf(v.elems, P) != []
  }

  /** A tenant with two connections to one backend, of which one or both are in use; replies show the contents and
      whether the command has an element P. */
  function Demo(codec: Codec, shared: bool): Config {
    Config(codec,
           Store.EMPTY.(tenants := map[T := Store.Tenant(T, "active")],
                        connections := map[C := Store.Connection(T, C, true), E := Store.Connection(T, E, true)]),
           c => B,
           if shared then {C, E} else {C},
           (l, m, v, contents) => Reply("=" + (contents + if HasP(v) then P else "")))
  }

  function Str(s: string): Value {
    Atom(STRING_KIND, s)
  }

  function Cmd(name: string, coll: string): seq<Elem> {
    [Elem(name, Str(coll)), Elem("$db", Str("d"))]
  }

  /** A command with a writing stage, in case it is an aggregation. */
  function Changer(name: string): seq<Elem> {
    [Elem(name, Str("y")), Elem("$db", Str("d")), Elem("pipeline", Arr([Doc([Elem("$out", Str("x"))])]))]
  }

  function Send(conn: string, cmd: seq<Elem>): Event {
    Event(T, conn, B, true, false, cmd, [], Decision(0, 100, 1), 0, true, true, false, map[])
  }

  /** The event, and with it a change of a collection. */
  function Changing(ev: Event, coll: string): Event {
    ev.(changes := map[("d", coll) := "1"])
  }

  /** An insert into the collection behind the name. */
  function Insert(conn: string, coll: string): Event {
    Changing(Send(conn, Cmd("insert", coll)), RealName(coll))
  }

  /** An opted-in read of x, where the connection reaches the given backend. */
  function ReadAt(x: string, backend: string): Event {
    Send(C, Cmd("find", x + SUFFIX)).(backend := backend)
  }

  function ReadOf(x: string): Event {
    ReadAt(x, B)
  }

  lemma FindIsRead()
    ensures ToLower("find") == "find" && "find" !in META_KEYS && "find" !in LOCAL
    ensures KindOf("find") == Read && "find" in CACHEABLE && "find" != "aggregate"
  {
    assert ToLower("find") == "find";
    assert "find"[0] == 'f' && "find"[1] == 'i';
  }

  lemma InsertIsWrite()
    ensures ToLower("insert") == "insert" && "insert" !in META_KEYS && "insert" !in LOCAL && KindOf("insert") == Write
  {
    assert ToLower("insert") == "insert";
    assert "insert"[0] == 'i' && "insert"[1] == 'n';
  }

  lemma LookupNext(es: seq<Elem>, key: string, val: Value, rest: seq<Elem>)
    requires es == [Elem(key, val)] + rest
    ensures forall k :: Lookup(es, k) == if k == key then Some(val) else Lookup(rest, k)
  {
    assert es[1..] == rest;
  }

  predicate NoDb(rest: seq<Elem>) {
    forall i | 0 <= i < |rest| :: rest[i].key != "$db"
  }

  function Head(name: string, coll: string): seq<Elem> {
    [Elem(name, Str(coll)), Elem("$db", Str("d"))]
  }

  lemma NameFields(es: seq<Elem>, name: string, coll: string, rest: seq<Elem>)
    requires name !in META_KEYS && es == Head(name, coll) + rest
    ensures CommandName(es) == Some(name)
    ensures LookupString(es, name) == coll && FirstString(es, name) == coll
  {
  }

  lemma OtherFields(es: seq<Elem>, name: string, coll: string, rest: seq<Elem>)
    requires name != "$db" && es == Head(name, coll) + rest
    ensures LookupString(es, "$db") == "d"
    ensures forall k :: k != name && k != "$db" ==> Lookup(es, k) == Lookup(rest, k)
  {
    var tail := [Elem("$db", Str("d"))] + rest;
    assert es == [Elem(name, Str(coll))] + tail;
    LookupNext(es, name, Str(coll), tail);
    LookupNext(tail, "$db", Str("d"), rest);
  }

  /** The fields of a command that starts with its name and its database. */
  lemma Fields(es: seq<Elem>, name: string, coll: string, rest: seq<Elem>)
    requires name !in META_KEYS && es == Head(name, coll) + rest && NoDb(rest)
    ensures CommandName(es) == Some(name)
    ensures LookupString(es, name) == coll && FirstString(es, name) == coll
    ensures LookupString(es, "$db") == "d" && LastString(es, "$db") == "d"
    ensures forall k :: k != name && k != "$db" ==> Lookup(es, k) == Lookup(rest, k)
  {
    assert "$db" in META_KEYS;
    NameFields(es, name, coll, rest);
    OtherFields(es, name, coll, rest);
    LastDb(es, Head(name, coll), rest);
  }

  lemma {:induction false} LastDb(es: seq<Elem>, head: seq<Elem>, rest: seq<Elem>)
    requires es == head + rest && |head| > 0 && head[|head| - 1] == Elem("$db", Str("d"))
    requires NoDb(rest)
    ensures LastString(es, "$db") == "d"
    decreases |rest|
  {
    if rest != [] {
      var shorter := rest[..|rest| - 1];
      assert es[..|es| - 1] == head + shorter && es[|es| - 1] == rest[|rest| - 1];
      LastDb(es[..|es| - 1], head, shorter);
    }
  }

  lemma ParseRead(coll: string, seqs: seq<Sequence>)
    requires coll != ""
    ensures var (name, useCache) := ResolveCacheCollection(coll);
            Parse(Cmd("find", coll), seqs) ==
            Some(Request(Info("find", "d", coll, Read, false), "find", "d", name, useCache))
    ensures !ShouldBypassCache("find", Cmd("find", coll), false)
  {
    FindIsRead();
    Fields(Cmd("find", coll), "find", coll, []);
  }

  lemma ParseWrite(coll: string)
    requires coll != ""
    ensures var (name, useCache) := ResolveCacheCollection(coll);
            Parse(Cmd("insert", coll), []) ==
            Some(Request(Info("insert", "d", coll, Write, false), "insert", "d", name, useCache))
    ensures ShouldBypassCache("insert", Cmd("insert", coll), false)
  {
    InsertIsWrite();
    Fields(Cmd("insert", coll), "insert", coll, []);
  }

  /** The stored result of a first read of x: its key, its collection, and the cache that holds it. */
  function XNs(x: string): Namespace {
    Namespace(T, C, "d", x)
  }

  function XKey(codec: Codec, x: string): string {
    CacheKey(codec, XNs(x), "find", Doc(Cmd("find", x + SUFFIX)), 1)
  }

  function XLoc(x: string): Loc {
    Loc(B, "d", x)
  }

  const FRESH := State(EMPTY, map[])

  function Holding(codec: Codec, x: string, payload: string): State {
    FRESH.(cache := AfterPut(EMPTY, XNs(x), XKey(codec, x), payload, 0, 0))
  }

  lemma PlainRead(coll: string)
    ensures !HasP(Norm(Doc(Cmd("find", coll))))
  {
    var es := Cmd("find", coll);
    DuplicateKeysKeepOrder(es, P);
    var tail := es[1..];
    assert tail[1..] == [] && tail[0].key == "$db" && es[0].key == "find";
    assert |"find"| == 4 && |"$db"| == 3 && |P| == 1;
    assert ValuesOf(tail, P) == ValuesOf(tail[1..], P) == [];
    assert ValuesOf(es, P) == ValuesOf(tail, P);
  }

  /** What the handler makes of a plain read of x. */
  lemma ReadFacts(codec: Codec, shared: bool, x: string, b: string, s: State)
    requires x != ""
    ensures var cfg, ev := Demo(codec, shared), ReadAt(x, b);
            var p := Parse(ev.cmd, ev.seqs);
            && p == Some(Request(Info("find", "d", x + SUFFIX, Read, false), "find", "d", x, true))
            && !Bypasses(ev, p.value) && "find" !in LOCAL
            && NsOf(ev, p.value) == XNs(x) && KeyFor(cfg, ev, p.value) == XKey(codec, x)
            && AnswerNow(cfg, s, ev, p.value) == Reply("=" + (ContentsAt(s.data, Loc(b, "d", x)) + ""))
            && Touched(s.data, ev) == s.data
  {
    ParseRead(x + SUFFIX, []);
    ResolveAppended(x);
    FindIsRead();
    PlainRead(x + SUFFIX);
    UntouchedData(s.data, ReadAt(x, b));
  }

  /** An opted-in read on a fresh cache stores what the backend replies. */
  lemma LoadRuns(cfg: Config, data: Data, ev: Event, r: Request, payload: string)
    requires Parse(ev.cmd, ev.seqs) == Some(r) && r.useCache && r.coll != "" && r.lname !in LOCAL
    requires ev.tenantID != "" && ev.connectionID != "" && ev.admitted && !ev.limited && ev.up1 && !Bypasses(ev, r)
    requires AnswerNow(cfg, State(EMPTY, data), ev, r) == Reply(payload) && |payload| <= ev.dec.maxResultBytes
    requires Touched(data, ev) == data
    ensures Handle(cfg, State(EMPTY, data), ev).1 ==
            State(AfterPut(EMPTY, NsOf(ev, r), KeyFor(cfg, ev, r), payload, ev.dec.ttl, ev.now), data)
  {
  }

  lemma FirstRead(codec: Codec, shared: bool, x: string, data: Data)
    requires x != "" && XLoc(x) !in data
    ensures Handle(Demo(codec, shared), State(EMPTY, data), ReadOf(x)).1 == Holding(codec, x, "=").(data := data)
  {
    ReadFacts(codec, shared, x, B, State(EMPTY, data));
    assert "=" + ("" + "") == "=";
    LoadRuns(Demo(codec, shared), data, ReadOf(x), Parse(ReadOf(x).cmd, []).value, "=");
  }

  /** A read is stale when the held payload has another length than what the contents show. */
  lemma StaleRead(codec: Codec, shared: bool, x: string, b: string, s: State, held: string)
    requires x != "" && XKey(codec, x) in s.cache.mu && s.cache.mu[XKey(codec, x)] == MemEntry(held, None)
    requires |held| != 1 + |ContentsAt(s.data, Loc(b, "d", x))|
    ensures !HitCurrent(Demo(codec, shared), s, ReadAt(x, b))
  {
    ReadFacts(codec, shared, x, b, s);
  }

  lemma StaleNow(cfg: Config, s: State, ev: Event)
    requires !HitCurrent(cfg, s, ev)
    ensures !HitsCurrent(cfg, s, [ev])
  {
  }

  lemma StaleLater(cfg: Config, s: State, ev: Event, evs: seq<Event>)
    requires !HitsCurrent(cfg, Handle(cfg, s, ev).1, evs)
    ensures !HitsCurrent(cfg, s, [ev] + evs)
  {
    assert ([ev] + evs)[1..] == evs;
  }

  /** Something changes x and misses its held result. */
  ghost predicate Misses(codec: Codec, shared: bool, x: string, mid: Event) {
    var t := Handle(Demo(codec, shared), Holding(codec, x, "="), mid).1;
    && t.cache.mu == Holding(codec, x, "=").cache.mu
    && XLoc(x) in t.data && t.data[XLoc(x)] == "1"
  }

  lemma StaleHeld(codec: Codec, shared: bool, x: string, mid: Event)
    requires x != "" && Misses(codec, shared, x, mid)
    ensures !HitsCurrent(Demo(codec, shared), Holding(codec, x, "="), [mid] + [ReadOf(x)])
  {
    var cfg := Demo(codec, shared);
    var t := Handle(cfg, Holding(codec, x, "="), mid).1;
    StaleRead(codec, shared, x, B, t, "=");
    StaleNow(cfg, t, ReadOf(x));
    StaleLater(cfg, Holding(codec, x, "="), mid, [ReadOf(x)]);
  }

  /** Read x, let something happen, read x again. */
  function Around(x: string, mid: Event): seq<Event> {
    [ReadOf(x)] + ([mid] + [ReadOf(x)])
  }

  lemma StaleRun(codec: Codec, shared: bool, x: string, mid: Event)
    requires x != "" && Misses(codec, shared, x, mid)
    ensures !HitsCurrent(Demo(codec, shared), FRESH, Around(x, mid))
  {
    FirstRead(codec, shared, x, map[]);
    StaleHeld(codec, shared, x, mid);
    StaleLater(Demo(codec, shared), FRESH, ReadOf(x), [mid] + [ReadOf(x)]);
  }

  /** A write flushes nothing of x if it flushes another collection. */
  lemma MissedFlush(codec: Codec, x: string, other: Namespace)
    requires Plain(other) && !SameNamespace(other, XNs(x))
    ensures AfterInvalidate(Holding(codec, x, "=").cache, other).mu == Holding(codec, x, "=").cache.mu
  {
    RegistryKeyMeaning(other, XNs(x));
    assert Registry(Holding(codec, x, "=").cache, other) == {};
  }

  /** What a write does. */
  lemma WriteRuns(cfg: Config, s: State, ev: Event, r: Request)
    requires Parse(ev.cmd, ev.seqs) == Some(r) && r.info.kind == Write && r.lname !in LOCAL
    requires ev.tenantID != "" && ev.connectionID != "" && ev.admitted && !ev.limited && ev.up2
    requires Bypasses(ev, r) && FlushesOnWrite(cfg, ev.connectionID)
    ensures Handle(cfg, s, ev).1 ==
            State(if r.coll == "" || ev.failed then s.cache else AfterInvalidate(s.cache, Flushed(ev, r)),
                  Touched(s.data, ev))
  {
  }

  lemma ChangeTouches(data: Data, ev: Event, x: string)
    requires ev.backend == B && ev.changes == map[("d", x) := "1"]
    ensures XLoc(x) in Touched(data, ev) && Touched(data, ev)[XLoc(x)] == "1"
  {
    var keys := ev.changes.Keys;
    assert ("d", x) in keys && XLoc(x) in LocsOn(B, keys);
  }

  /** What an insert does to the held result of x. */
  lemma InsertRuns(codec: Codec, shared: bool, s: State, conn: string, coll: string)
    requires coll != "" && conn in {C, E}
    ensures var t := Handle(Demo(codec, shared), s, Insert(conn, coll)).1;
            && t.cache == AfterInvalidate(s.cache, Namespace(T, conn, "d", RealName(RealName(coll))))
            && XLoc(RealName(coll)) in t.data && t.data[XLoc(RealName(coll))] == "1"
  {
    var cfg, ev := Demo(codec, shared), Insert(conn, coll);
    ParseWrite(coll);
    InsertIsWrite();
    var r := Parse(ev.cmd, ev.seqs).value;
    ChangeTouches(s.data, ev, RealName(coll));
    WriteRuns(cfg, s, ev, r);
  }

  lemma WriteMisses(codec: Codec, shared: bool, x: string, conn: string, coll: string)
    requires x != "" && coll != "" && RealName(coll) == x && conn in {C, E} && (shared || conn == C)
    requires conn == E || RealName(x) != x
    ensures var t := Handle(Demo(codec, shared), Holding(codec, x, "="), Insert(conn, coll)).1;
            && t.cache.mu == Holding(codec, x, "=").cache.mu
            && XLoc(x) in t.data && t.data[XLoc(x)] == "1"
  {
    InsertRuns(codec, shared, Holding(codec, x, "="), conn, coll);
    MissedFlush(codec, x, Namespace(T, conn, "d", RealName(x)));
  }

  /** A name with the suffix twice makes a stale hit: its write flushes the wrong collection. */
  lemma StaleHit(codec: Codec, coll: string)
    requires CodecOk(codec) && !SafeTarget(coll)
    ensures var x := RealName(coll); !HitsCurrent(Demo(codec, false), FRESH, Around(x, Insert(C, coll)))
  {
    var x := RealName(coll);
    WriteMisses(codec, false, x, C, coll);
    StaleRun(codec, false, x, Insert(C, coll));
  }

  /** So does any write through another connection to the same backend. */
  lemma StaleAcrossConnections(codec: Codec, coll: string)
    requires CodecOk(codec) && coll != ""
    ensures var x := RealName(coll); !HitsCurrent(Demo(codec, true), FRESH, Around(x, Insert(E, coll)))
  {
    var x := RealName(coll);
    WriteMisses(codec, true, x, E, coll);
    StaleRun(codec, true, x, Insert(E, coll));
  }

  /** An insert that is applied and reports an error. */
  function FailingWrite(coll: string): Event {
    Insert(C, coll).(failed := true)
  }

  lemma FailureMisses(codec: Codec, coll: string)
    requires coll != ""
    ensures var x := RealName(coll);
            var t := Handle(Demo(codec, false), Holding(codec, x, "="), FailingWrite(coll)).1;
            && t.cache == Holding(codec, x, "=").cache && XLoc(x) in t.data && t.data[XLoc(x)] == "1"
  {
    var ev, s := FailingWrite(coll), Holding(codec, RealName(coll), "=");
    ParseWrite(coll);
    InsertIsWrite();
    var r := Parse(ev.cmd, ev.seqs).value;
    assert Bypasses(ev, r);
    ChangeTouches(s.data, ev, RealName(coll));
    WriteRuns(Demo(codec, false), s, ev, r);
  }

  /** So does a write to any collection that is applied and reports an error: nothing is flushed. */
  lemma StaleAfterFailure(codec: Codec, coll: string)
    requires CodecOk(codec) && coll != ""
    ensures var x := RealName(coll); !HitsCurrent(Demo(codec, false), FRESH, Around(x, FailingWrite(coll)))
  {
    FailureMisses(codec, coll);
    StaleRun(codec, false, RealName(coll), FailingWrite(coll));
  }

  /** And so does a connection that comes to reach another backend: keys carry the connection only. */
  lemma StaleAfterRelink(codec: Codec, x: string)
    requires CodecOk(codec) && x != ""
    ensures !HitsCurrent(Demo(codec, false), State(EMPTY, map[Loc(Z, "d", x) := "1"]), [ReadOf(x), ReadAt(x, Z)])
  {
    var data: Data := map[Loc(Z, "d", x) := "1"];
    var s := Holding(codec, x, "=").(data := data);
    assert XLoc(x) !in data;
    FirstRead(codec, false, x, data);
    StaleRead(codec, false, x, Z, s, "=");
    StaleNow(Demo(codec, false), s, ReadAt(x, Z));
    StaleLater(Demo(codec, false), State(EMPTY, data), ReadOf(x), [ReadAt(x, Z)]);
    assert [ReadOf(x)] + [ReadAt(x, Z)] == [ReadOf(x), ReadAt(x, Z)];
  }

  function Change(name: string): Event {
    Changing(Send(C, Changer(name)), "x")
  }

  lemma ParseChanger(name: string)
    requires !Harmless(name) && ToLower(name) !in WRITING
    ensures var p := Parse(Changer(name), []);
            && p.Some? && p.value.info.name == name && p.value.lname == ToLower(name) && p.value.db == "d"
            && p.value.info.kind == KindOf(ToLower(name)) && !p.value.useCache
            && (ToLower(name) == "aggregate" ==> WritesOut(Changer(name)))
  {
    var es := Changer(name);
    var rest := [Elem("pipeline", Arr([Doc([Elem("$out", Str("x"))])]))];
    assert "pipeline" != "$db";
    Fields(es, name, "y", rest);
    assert ResolveCacheCollection("y") == ("y", false);
    if ToLower(name) == "aggregate" {
      assert |name| == |"aggregate"| && |"pipeline"| == 8;
      assert Lookup(es, "pipeline") == Lookup(rest, "pipeline") == Some(rest[0].val);
      assert rest[0].val.items[0].elems[0].key == "$out";
      assert OutputStage(rest[0].val.items[0]);
    }
  }

  lemma ChangeMisses(codec: Codec, name: string)
    requires !Harmless(name) && ToLower(name) !in WRITING
    ensures var t := Handle(Demo(codec, false), Holding(codec, "x", "="), Change(name)).1;
            && t.cache.mu == Holding(codec, "x", "=").cache.mu
            && XLoc("x") in t.data && t.data[XLoc("x")] == "1"
  {
    var cfg, ev := Demo(codec, false), Change(name);
    ParseChanger(name);
    WritesAreClassified(ToLower(name));
    ChangeTouches(FRESH.data, ev, "x");
  }

  /** So does any command that changes data and is not classified as a write. */
  lemma StaleAfterOther(codec: Codec, name: string)
    requires CodecOk(codec) && !Harmless(name) && ToLower(name) !in WRITING
    ensures !HitsCurrent(Demo(codec, false), FRESH, Around("x", Change(name)))
  {
    ChangeMisses(codec, name);
    StaleRun(codec, false, "x", Change(name));
  }

  /** A write to w that also changes a collection with a longer name. */
  function WideWrite(name: string, w: string): Event {
    Changing(Send(C, Cmd(name, w)), w + "z")
  }

  lemma ParseWide(name: string, w: string)
    requires name !in META_KEYS && ToLower(name) in WRITING
    ensures var p := Parse(Cmd(name, w), []);
            && p == Some(Request(Info(name, "d", w, Write, false), ToLower(name), "d", RealName(w),
                                 ResolveCacheCollection(w).1))
            && Bypasses(WideWrite(name, w), p.value)
            && ToLower(name) !in LOCAL
  {
    WritesAreClassified(ToLower(name));
    Fields(Cmd(name, w), name, w, []);
    assert name != "startTransaction" && name != "autocommit";
  }

  lemma ShorterNames(w: string)
    ensures |RealName(w)| <= |w| && |RealName(RealName(w))| <= |w|
  {
  }

  lemma WideRuns(codec: Codec, s: State, name: string, w: string)
    requires name !in META_KEYS && ToLower(name) in WRITING
    ensures var cfg, ev := Demo(codec, false), WideWrite(name, w);
            var p := Parse(ev.cmd, ev.seqs);
            && p.Some?
            && Handle(cfg, s, ev).1 ==
               State(if p.value.coll == "" then s.cache else AfterInvalidate(s.cache, Flushed(ev, p.value)),
                     Touched(s.data, ev))
            && p.value.coll == RealName(w)
            && Flushed(ev, p.value) == Namespace(T, C, "d", RealName(RealName(w)))
  {
    ParseWide(name, w);
    WriteRuns(Demo(codec, false), s, WideWrite(name, w), Parse(Cmd(name, w), []).value);
  }

  lemma WideMisses(codec: Codec, name: string, w: string)
    requires name !in META_KEYS && ToLower(name) in WRITING
    ensures var x := w + "z";
            var t := Handle(Demo(codec, false), Holding(codec, x, "="), WideWrite(name, w)).1;
            && t.cache.mu == Holding(codec, x, "=").cache.mu
            && XLoc(x) in t.data && t.data[XLoc(x)] == "1"
  {
    var x := w + "z";
    WideRuns(codec, Holding(codec, x, "="), name, w);
    ShorterNames(w);
    assert |x| == |w| + 1;
    MissedFlush(codec, x, Namespace(T, C, "d", RealName(RealName(w))));
    ChangeTouches(FRESH.data, WideWrite(name, w), x);
  }

  /** So does any write that changes another collection as well. */
  lemma StaleAfterWideWrite(codec: Codec, name: string, w: string)
    requires CodecOk(codec) && name !in META_KEYS && ToLower(name) in WRITING
    ensures var x := w + "z"; !HitsCurrent(Demo(codec, false), FRESH, Around(x, WideWrite(name, w)))
  {
    WideMisses(codec, name, w);
    StaleRun(codec, false, w + "z", WideWrite(name, w));
  }

  function Hidden(): Event {
    ReadOf("x").(seqs := [(P, [])])
  }

  lemma MergedHasP(coll: string)
    ensures HasP(Norm(Doc(Merged(Cmd("find", coll), [(P, [])]))))
  {
    var es := Cmd("find", coll);
    var v := Arr([]);
    assert |"find"| == 4 && |"$db"| == 3 && |P| == 1 && P !in VOLATILE;
    SetFieldAt(es, P, v, 2);
    var merged := es + [Elem(P, v)];
    var seqs: seq<Sequence> := [(P, [])];
    assert seqs[1..] == [];
    assert Merged(es, seqs) == merged;
    var tail := merged[1..];
    var last := tail[1..];
    assert last == [Elem(P, v)] && last[1..] == [] && tail[0].key == "$db" && merged[0].key == "find";
    assert ValuesOf(last, P) == [v] + ValuesOf(last[1..], P) == [v];
    assert ValuesOf(tail, P) == ValuesOf(last, P);
    assert ValuesOf(merged, P) == ValuesOf(tail, P);
    DuplicateKeysKeepOrder(merged, P);
    assert NormItems([v]) != [];
  }

  /** The result of a read with a sequence is stored under the key of the read without. */
  lemma HiddenIsStored(codec: Codec)
    ensures Handle(Demo(codec, false), FRESH, Hidden()).1 == Holding(codec, "x", "=" + ("" + P))
  {
    var cfg, ev := Demo(codec, false), Hidden();
    ParseRead("x" + SUFFIX, ev.seqs);
    ResolveAppended("x");
    FindIsRead();
    MergedHasP("x" + SUFFIX);
    var r := Parse(ev.cmd, ev.seqs).value;
    assert AnswerNow(cfg, FRESH, ev, r) == Reply("=" + ("" + P));
    assert KeyFor(cfg, ev, r) == XKey(codec, "x") && NsOf(ev, r) == XNs("x");
    LoadRuns(cfg, FRESH.data, ev, r, "=" + ("" + P));
  }

  /** And so does a sequence, which the backend is sent and the key leaves out. */
  lemma StaleSequence(codec: Codec)
    requires CodecOk(codec)
    ensures !HitsCurrent(Demo(codec, false), FRESH, [Hidden(), ReadOf("x")])
  {
    var held := "=" + ("" + P);
    HiddenIsStored(codec);
    assert |held| == 2;
    StaleRead(codec, false, "x", B, Holding(codec, "x", held), held);
    assert [Hidden(), ReadOf("x")][1..] == [ReadOf("x")];
  }

  // ---------------------------------------------------------------- exactly when the cache is coherent

  /** Every run on fresh caches, under every configuration the usage allows, serves only current hits. */
  ghost predicate AlwaysCoherent(codec: Codec, u: Usage) {
    forall cfg: Config, data, evs |
      cfg.codec == codec && (u.shared || Separate(cfg)) && (forall ev :: ev in evs ==> Fits(cfg, u, ev)) ::
      HitsCurrent(cfg, State(EMPTY, data), evs)
  }

  lemma ReadFits(codec: Codec, shared: bool, x: string, b: string, u: Usage)
    requires x != "" && (b == B || u.relinked)
    ensures Fits(Demo(codec, shared), u, ReadAt(x, b))
  {
    ParseRead(x + SUFFIX, []);
  }

  lemma WriteFits(codec: Codec, shared: bool, conn: string, coll: string, u: Usage)
    requires coll != "" && coll in u.writable && (conn == C || (conn == E && shared))
    ensures Fits(Demo(codec, shared), u, Insert(conn, coll))
  {
    ParseWrite(coll);
  }

  lemma Breaks(codec: Codec, u: Usage, shared: bool, x: string, mid: Event)
    requires u.shared || !shared
    requires Fits(Demo(codec, shared), u, ReadOf(x)) && Fits(Demo(codec, shared), u, mid)
    requires !HitsCurrent(Demo(codec, shared), FRESH, Around(x, mid))
    ensures !AlwaysCoherent(codec, u)
  {
    var data: Data := map[];
    assert State(EMPTY, data) == FRESH;
    assert shared || Separate(Demo(codec, shared));
  }

  lemma UnsafeWriteBreaks(codec: Codec, u: Usage, w: string)
    requires CodecOk(codec) && w in u.writable && !SafeTarget(w)
    ensures !AlwaysCoherent(codec, u)
  {
    var x := RealName(w);
    ReadFits(codec, false, x, B, u);
    WriteFits(codec, false, C, w, u);
    StaleHit(codec, w);
    Breaks(codec, u, false, x, Insert(C, w));
  }

  lemma OtherBreaks(codec: Codec, u: Usage, n: string)
    requires CodecOk(codec) && n in u.changing && !Harmless(n) && ToLower(n) !in WRITING
    ensures !AlwaysCoherent(codec, u)
  {
    ReadFits(codec, false, "x", B, u);
    ParseChanger(n);
    StaleAfterOther(codec, n);
    Breaks(codec, u, false, "x", Change(n));
  }

  lemma WideKeeps(u: Usage, n: string, w: string, r: Request)
    requires n in u.changing && n !in META_KEYS && ToLower(n) in WRITING && w in u.writable
    requires r.info.name == n && r.info.coll == w && r.lname == ToLower(n) && r.db == "d"
    ensures Keeps(u, WideWrite(n, w), r)
  {
    WritesAreClassified(r.lname);
    Fields(Cmd(n, w), n, w, []);
  }

  lemma WideFits(codec: Codec, u: Usage, n: string, w: string)
    requires n in u.changing && n !in META_KEYS && ToLower(n) in WRITING && w in u.writable
    ensures Fits(Demo(codec, false), u, WideWrite(n, w))
  {
    ParseWide(n, w);
    WideKeeps(u, n, w, Parse(Cmd(n, w), []).value);
  }

  lemma WideWriteBreaks(codec: Codec, u: Usage, n: string, w: string)
    requires CodecOk(codec) && n in u.changing && !Harmless(n) && ToLower(n) in WRITING
    requires w in u.writable
    ensures !AlwaysCoherent(codec, u)
  {
    var x := w + "z";
    ReadFits(codec, false, x, B, u);
    WideFits(codec, u, n, w);
    StaleAfterWideWrite(codec, n, w);
    Breaks(codec, u, false, x, WideWrite(n, w));
  }

  lemma HiddenFits(codec: Codec, u: Usage)
    requires u.sequences
    ensures Fits(Demo(codec, false), u, Hidden())
  {
    ParseRead("x" + SUFFIX, Hidden().seqs);
  }

  lemma PairBreaks(codec: Codec, u: Usage, data: Data, a: Event, b: Event)
    requires Fits(Demo(codec, false), u, a) && Fits(Demo(codec, false), u, b)
    requires !HitsCurrent(Demo(codec, false), State(EMPTY, data), [a, b])
    ensures !AlwaysCoherent(codec, u)
  {
    assert Separate(Demo(codec, false));
  }

  lemma SequenceBreaks(codec: Codec, u: Usage)
    requires CodecOk(codec) && u.sequences
    ensures !AlwaysCoherent(codec, u)
  {
    ReadFits(codec, false, "x", B, u);
    HiddenFits(codec, u);
    StaleSequence(codec);
    PairBreaks(codec, u, FRESH.data, Hidden(), ReadOf("x"));
  }

  lemma FailureBreaks(codec: Codec, u: Usage, w: string)
    requires CodecOk(codec) && u.partial && w in u.writable && w != ""
    ensures !AlwaysCoherent(codec, u)
  {
    var x := RealName(w);
    ReadFits(codec, false, x, B, u);
    ParseWrite(w);
    StaleAfterFailure(codec, w);
    Breaks(codec, u, false, x, FailingWrite(w));
  }

  lemma RelinkBreaks(codec: Codec, u: Usage)
    requires CodecOk(codec) && u.relinked
    ensures !AlwaysCoherent(codec, u)
  {
    ReadFits(codec, false, "x", B, u);
    ReadFits(codec, false, "x", Z, u);
    StaleAfterRelink(codec, "x");
    PairBreaks(codec, u, map[Loc(Z, "d", "x") := "1"], ReadOf("x"), ReadAt("x", Z));
  }

  lemma SharedWriteBreaks(codec: Codec, u: Usage, w: string)
    requires CodecOk(codec) && u.shared && w in u.writable && w != ""
    ensures !AlwaysCoherent(codec, u)
  {
    var x := RealName(w);
    ReadFits(codec, true, x, B, u);
    WriteFits(codec, true, E, w, u);
    StaleAcrossConnections(codec, w);
    Breaks(codec, u, true, x, Insert(E, w));
  }

  /** The cache is coherent exactly when no write names a collection with the suffix twice, no command changes
      data other than the collection it names as a write, no opted-in read carries document sequences, no two
      connections share a backend that is written to, no write to a collection is applied and reports an error,
      and no connection comes to reach another backend. */
  lemma CoherentExactlyWhenCareful(codec: Codec, u: Usage)
    requires CodecOk(codec)
    ensures AlwaysCoherent(codec, u) <==> Careful(u)
  {
    if Careful(u) {
      forall cfg: Config, data, evs |
        cfg.codec == codec && (u.shared || Separate(cfg)) && (forall ev :: ev in evs ==> Fits(cfg, u, ev))
        ensures HitsCurrent(cfg, State(EMPTY, data), evs)
      {
        RunsCoherent(cfg, u, State(EMPTY, data), evs);
      }
    } else {
      if w :| w in u.writable && !SafeTarget(w) {
        UnsafeWriteBreaks(codec, u, w);
      } else if n :| n in u.changing && !Harmless(n) && ToLower(n) !in WRITING {
        OtherBreaks(codec, u, n);
      } else if n, w :| n in u.changing && !Harmless(n) && w in u.writable {
        WideWriteBreaks(codec, u, n, w);
      } else if u.sequences {
        SequenceBreaks(codec, u);
      } else if u.relinked {
        RelinkBreaks(codec, u);
      } else {
        var w :| w in u.writable && w != "";
        if u.shared {
          SharedWriteBreaks(codec, u, w);
        } else {
          FailureBreaks(codec, u, w);
        }
      }
    }
  }
}
