/** The result cache: stored payloads with expiry, and one registry of keys per collection. */
module CacheStore {
  import opened Wrappers
  import opened NormalForm
  import opened CacheKeys

  type Time = int

  datatype MemEntry = MemEntry(val: string, exp: Option<Time>)

  datatype Cache = Cache(mu: map<string, MemEntry>, sets: map<string, set<string>>)

  const EMPTY := Cache(map[], map[])

  predicate Expired(e: MemEntry, now: Time) {
    e.exp.Some? && e.exp.value < now
  }

  function Fetched(c: Cache, key: string, now: Time): (r: Option<string>)
    ensures r.Some? ==> key in c.mu && c.mu[key].val == r.value
  {
    if key in c.mu && !Expired(c.mu[key], now) then Some(c.mu[key].val) else None
  }

  function AfterGet(c: Cache, key: string, now: Time): Cache {
    if key in c.mu && Expired(c.mu[key], now) then c.(mu := c.mu - {key}) else c
  }

  function AfterSet(c: Cache, key: string, val: string, ttl: Time, now: Time): Cache {
    c.(mu := c.mu[key := MemEntry(val, if ttl > 0 then Some(now + ttl) else None)])
  }

  /** The keys registered for a collection. */
  function Registry(c: Cache, ns: Namespace): set<string> {
    if RegistryKey(ns) in c.sets then c.sets[RegistryKey(ns)] else {}
  }

  function AfterRegister(c: Cache, ns: Namespace, key: string): Cache {
    c.(sets := c.sets[RegistryKey(ns) := Registry(c, ns) + {key}])
  }

  function AfterInvalidate(c: Cache, ns: Namespace): Cache {
    Cache(c.mu - Registry(c, ns), c.sets - {RegistryKey(ns)})
  }

  /** Both halves of BestEffortSet, run without interruption. */
  function AfterPut(c: Cache, ns: Namespace, key: string, val: string, ttl: Time, now: Time): Cache {
    if val == "" then c else AfterRegister(AfterSet(c, key, val, ttl, now), ns, key)
  }

  class MemoryStore {
    var mu: map<string, MemEntry>
    var sets: map<string, set<string>>

    ghost function Contents(): Cache
      reads this
    {
      Cache(mu, sets)
    }

    constructor ()
      ensures Contents() == EMPTY
    {
      mu, sets := map[], map[];
    }

    method Get(key: string, now: Time) returns (r: Option<string>)
      modifies this
      ensures r == Fetched(old(Contents()), key, now)
      ensures Contents() == AfterGet(old(Contents()), key, now)
    {
      if key !in mu || (mu[key].exp.Some? && mu[key].exp.value < now) {
        if key in mu {
          mu := mu - {key};
        }
        return None;
      }
      return Some(mu[key].val);
    }

    method Set(key: string, value: string, ttl: Time, now: Time)
      modifies this
      ensures Contents() == AfterSet(old(Contents()), key, value, ttl, now)
    {
      var exp := None;
      if ttl > 0 {
        exp := Some(now + ttl);
      }
      mu := mu[key := MemEntry(value, exp)];
    }

    method RegisterKey(ns: Namespace, key: string)
      modifies this
      ensures Contents() == AfterRegister(old(Contents()), ns, key)
    {
      var rk := RegistryKey(ns);
      if rk !in sets {
        sets := sets[rk := {}];
      }
      sets := sets[rk := sets[rk] + {key}];
    }

    method InvalidateNamespace(ns: Namespace)
      modifies this
      ensures Contents() == AfterInvalidate(old(Contents()), ns)
    {
      var rk := RegistryKey(ns);
      var todo := if rk in sets then sets[rk] else {};
      ghost var all := todo;
      while todo != {}
        invariant todo <= all && sets == old(sets)
        invariant mu == old(mu) - (all - todo)
      {
        var k :| k in todo;
        mu := mu - {k};
        todo := todo - {k};
      }
      sets := sets - {rk};
    }
  }

  class Coordinator {
    const store: MemoryStore

    constructor (store: MemoryStore)
      ensures this.store == store
    {
      this.store := store;
    }

    method BestEffortSet(ns: Namespace, key: string, value: string, ttl: Time, now: Time)
      modifies store
      ensures store.Contents() == AfterPut(old(store.Contents()), ns, key, value, ttl, now)
    {
      if |value| == 0 {
        return;
      }
      store.Set(key, value, ttl, now);
      store.RegisterKey(ns, key);
    }

    method BestEffortInvalidate(ns: Namespace)
      modifies store
      ensures store.Contents() == AfterInvalidate(old(store.Contents()), ns)
    {
      store.InvalidateNamespace(ns);
    }
  }

  // ---------------------------------------------------------------- interleaved writers

  /** A goroutine between the two halves of BestEffortSet: it has set key and has yet to register it. */
  datatype Writer = Writer(ns: Namespace, key: string)

  datatype System = System(cache: Cache, writers: map<int, Writer>)

  /** One atomic store operation of some goroutine. */
  datatype Step =
    | SetStep(tid: int, ns: Namespace, name: string, cmd: Value, version: int, val: string, ttl: Time, now: Time)
    | RegisterStep(tid: int)
    | GetStep(key: string, now: Time)
    | InvalidateStep(ns: Namespace)

  predicate Enabled(sys: System, st: Step) {
    match st
    case SetStep(tid, ns, _, _, _, val, _, _) => tid !in sys.writers && Plain(ns) && val != ""
    case RegisterStep(tid) => tid in sys.writers
    case GetStep(_, _) => true
    case InvalidateStep(ns) => Plain(ns)
  }

  function Apply(c: Codec, sys: System, st: Step): System
    requires Enabled(sys, st)
  {
    match st
    case SetStep(tid, ns, name, cmd, version, val, ttl, now) =>
      var key := CacheKey(c, ns, name, cmd, version);
      System(AfterSet(sys.cache, key, val, ttl, now), sys.writers[tid := Writer(ns, key)])
    case RegisterStep(tid) =>
      var w := sys.writers[tid];
      System(AfterRegister(sys.cache, w.ns, w.key), sys.writers - {tid})
    case GetStep(key, now) => sys.(cache := AfterGet(sys.cache, key, now))
    case InvalidateStep(ns) => sys.(cache := AfterInvalidate(sys.cache, ns))
  }

  ghost predicate Reaches(c: Codec, sys: System, steps: seq<Step>, end: System)
    decreases |steps|
  {
    if steps == [] then sys == end
    else Enabled(sys, steps[0]) && Reaches(c, Apply(c, sys, steps[0]), steps[1..], end)
  }

  /** key is a key of collection ns. */
  ghost predicate KeyOf(c: Codec, ns: Namespace, key: string) {
    exists m, v, i :: key == CacheKey(c, ns, m, v, i)
  }

  lemma KeyOfOne(c: Codec, a: Namespace, b: Namespace, key: string)
    requires CodecOk(c) && Plain(a) && Plain(b) && KeyOf(c, a, key) && KeyOf(c, b, key)
    ensures SameNamespace(a, b)
  {
    var m, v, i :| key == CacheKey(c, a, m, v, i);
    var n, w, j :| key == CacheKey(c, b, n, w, j);
    CacheKeyMeaning(c, a, m, v, i, b, n, w, j);
  }

  lemma KeyOfSame(c: Codec, a: Namespace, b: Namespace, key: string)
    requires SameNamespace(a, b) && KeyOf(c, a, key)
    ensures KeyOf(c, b, key)
  {
    var m, v, i :| key == CacheKey(c, a, m, v, i);
    assert key == CacheKey(c, b, m, v, i);
  }

  predicate AwaitingRegistration(sys: System, key: string) {
    exists tid :: tid in sys.writers && sys.writers[tid].key == key
  }

  ghost predicate WritersSound(c: Codec, sys: System) {
    forall t :: t in sys.writers ==> Plain(sys.writers[t].ns) && KeyOf(c, sys.writers[t].ns, sys.writers[t].key)
  }

  ghost predicate RegistriesSound(c: Codec, cache: Cache) {
    forall ns, k :: Plain(ns) && k in Registry(cache, ns) ==> KeyOf(c, ns, k)
  }

  /** A stored key is in its collection's registry, or its writer has not yet registered it. */
  ghost predicate Covered(c: Codec, sys: System) {
    forall ns, k :: Plain(ns) && k in sys.cache.mu && KeyOf(c, ns, k) ==>
                      k in Registry(sys.cache, ns) || AwaitingRegistration(sys, k)
  }

  ghost predicate Inv(c: Codec, sys: System) {
    WritersSound(c, sys) && RegistriesSound(c, sys.cache) && Covered(c, sys)
  }

  lemma RegistryAfterRegister(cache: Cache, ns: Namespace, key: string, a: Namespace)
    requires Plain(ns) && Plain(a)
    ensures Registry(AfterRegister(cache, ns, key), a) ==
            if SameNamespace(a, ns) then Registry(cache, a) + {key} else Registry(cache, a)
  {
    RegistryKeyMeaning(a, ns);
  }

  lemma RegistryAfterInvalidate(cache: Cache, ns: Namespace, a: Namespace)
    requires Plain(ns) && Plain(a)
    ensures Registry(AfterInvalidate(cache, ns), a) == if SameNamespace(a, ns) then {} else Registry(cache, a)
    ensures SameNamespace(a, ns) ==> Registry(cache, a) == Registry(cache, ns)
  {
    RegistryKeyMeaning(a, ns);
  }

  lemma SetKeepsInv(c: Codec, sys: System, st: Step)
    requires Inv(c, sys) && Enabled(sys, st) && st.SetStep?
    ensures Inv(c, Apply(c, sys, st))
  {
    var next := Apply(c, sys, st);
    var key := CacheKey(c, st.ns, st.name, st.cmd, st.version);
    assert next.writers[st.tid].key == key;
    forall ns, k | Plain(ns) && k in next.cache.mu && KeyOf(c, ns, k)
      ensures k in Registry(next.cache, ns) || AwaitingRegistration(next, k)
    {
      if k != key && AwaitingRegistration(sys, k) {
        var t :| t in sys.writers && sys.writers[t].key == k;
        assert next.writers[t].key == k;
      }
    }
  }

  lemma RegisterKeepsInv(c: Codec, sys: System, st: Step)
    requires CodecOk(c) && Inv(c, sys) && Enabled(sys, st) && st.RegisterStep?
    ensures Inv(c, Apply(c, sys, st))
  {
    var w := sys.writers[st.tid];
    var next := Apply(c, sys, st);
    forall ns, k | Plain(ns) && k in Registry(next.cache, ns) ensures KeyOf(c, ns, k) {
      RegistryAfterRegister(sys.cache, w.ns, w.key, ns);
      if k !in Registry(sys.cache, ns) {
        KeyOfSame(c, w.ns, ns, k);
      }
    }
    forall ns, k | Plain(ns) && k in next.cache.mu && KeyOf(c, ns, k)
      ensures k in Registry(next.cache, ns) || AwaitingRegistration(next, k)
    {
      RegistryAfterRegister(sys.cache, w.ns, w.key, ns);
      if k == w.key {
        KeyOfOne(c, ns, w.ns, k);
      } else if AwaitingRegistration(sys, k) {
        var t :| t in sys.writers && sys.writers[t].key == k;
        assert next.writers[t].key == k;
      }
    }
  }

  lemma InvalidateKeepsInv(c: Codec, sys: System, st: Step)
    requires CodecOk(c) && Inv(c, sys) && Enabled(sys, st) && st.InvalidateStep?
    ensures Inv(c, Apply(c, sys, st))
  {
    var next := Apply(c, sys, st);
    forall ns | Plain(ns)
      ensures Registry(next.cache, ns) <= Registry(sys.cache, ns)
      ensures SameNamespace(ns, st.ns) ==> Registry(sys.cache, ns) == Registry(sys.cache, st.ns)
      ensures !SameNamespace(ns, st.ns) ==> Registry(next.cache, ns) == Registry(sys.cache, ns)
    {
      RegistryAfterInvalidate(sys.cache, st.ns, ns);
    }
    forall k | AwaitingRegistration(sys, k) ensures AwaitingRegistration(next, k) {
      var t :| t in sys.writers && sys.writers[t].key == k;
      assert next.writers[t].key == k;
    }
  }

  lemma GetKeepsInv(c: Codec, sys: System, st: Step)
    requires Inv(c, sys) && Enabled(sys, st) && st.GetStep?
    ensures Inv(c, Apply(c, sys, st))
  {
    var next := Apply(c, sys, st);
    assert forall ns :: Registry(next.cache, ns) == Registry(sys.cache, ns);
    forall k | AwaitingRegistration(sys, k) ensures AwaitingRegistration(next, k) {
      var t :| t in sys.writers && sys.writers[t].key == k;
      assert next.writers[t].key == k;
    }
  }

  lemma StepKeepsInv(c: Codec, sys: System, st: Step)
    requires CodecOk(c) && Inv(c, sys) && Enabled(sys, st)
    ensures Inv(c, Apply(c, sys, st))
  {
    match st
    case SetStep(_, _, _, _, _, _, _, _) => SetKeepsInv(c, sys, st);
    case RegisterStep(_) => RegisterKeepsInv(c, sys, st);
    case GetStep(_, _) => GetKeepsInv(c, sys, st);
    case InvalidateStep(_) => InvalidateKeepsInv(c, sys, st);
  }

  /** In every interleaving, from an empty cache, every stored key stays covered. */
  lemma {:induction false} RunsCovered(c: Codec, sys: System, steps: seq<Step>, end: System)
    requires CodecOk(c) && Inv(c, sys) && Reaches(c, sys, steps, end)
    ensures Inv(c, end)
    decreases |steps|
  {
    if steps != [] {
      StepKeepsInv(c, sys, steps[0]);
      RunsCovered(c, Apply(c, sys, steps[0]), steps[1..], end);
    }
  }

  /** At any point of any run, invalidating a collection leaves only those of its keys that some writer has
      set and not yet registered, and none if there is no such writer; it leaves every other collection's
      keys, payloads and registry as they were. */
  lemma InvalidationIsExact(c: Codec, steps: seq<Step>, sys: System, ns: Namespace)
    requires CodecOk(c) && Plain(ns) && Reaches(c, System(EMPTY, map[]), steps, sys)
    ensures var after := AfterInvalidate(sys.cache, ns);
            && (forall k :: k in after.mu && KeyOf(c, ns, k) ==> AwaitingRegistration(sys, k))
            && ((forall t :: t in sys.writers ==> !SameNamespace(sys.writers[t].ns, ns)) ==>
                  forall k :: k in after.mu ==> !KeyOf(c, ns, k))
            && (forall a, k :: Plain(a) && !SameNamespace(a, ns) && KeyOf(c, a, k) ==>
                  (k in after.mu <==> k in sys.cache.mu) && (k in after.mu ==> after.mu[k] == sys.cache.mu[k]))
            && (forall a :: Plain(a) && !SameNamespace(a, ns) ==> Registry(after, a) == Registry(sys.cache, a))
  {
    RunsCovered(c, System(EMPTY, map[]), steps, sys);
    var after := AfterInvalidate(sys.cache, ns);
    forall k | k in after.mu && KeyOf(c, ns, k) ensures AwaitingRegistration(sys, k) {
      assert k !in Registry(sys.cache, ns);
    }
    forall k, t | k in after.mu && KeyOf(c, ns, k) && t in sys.writers && sys.writers[t].key == k
      ensures SameNamespace(sys.writers[t].ns, ns)
    {
      KeyOfOne(c, sys.writers[t].ns, ns, k);
    }
    forall a, k | Plain(a) && !SameNamespace(a, ns) && KeyOf(c, a, k) ensures k !in Registry(sys.cache, ns) {
      if k in Registry(sys.cache, ns) {
        KeyOfOne(c, a, ns, k);
      }
    }
    forall a | Plain(a) && !SameNamespace(a, ns) ensures Registry(after, a) == Registry(sys.cache, a) {
      RegistryAfterInvalidate(sys.cache, ns, a);
    }
  }
}
