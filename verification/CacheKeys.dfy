/** The strings under which results, registries and tags are stored, and what their equality means. */
module CacheKeys {
  import opened Text
  import opened NormalForm

  /** The byte-level functions the key is built from: BSON serialisation and hex SHA-256. */
  datatype Codec = Codec(marshal: Value -> string, sha: string -> string)

  /** SHA-256 taken as injective, its hex form without ':'; a BSON document as self-delimiting. */
  ghost predicate CodecOk(c: Codec) {
    && (forall s :: ':' !in c.sha(s))
    && (forall s, t :: c.sha(s) == c.sha(t) ==> s == t)
    && (forall v, w, x, y :: c.marshal(v) + x == c.marshal(w) + y ==> v == w)
  }

  // ---------------------------------------------------------------- decimal numbers

  function Digits(n: nat): (s: string)
    ensures s != [] && forall i | 0 <= i < |s| :: '0' <= s[i] <= '9'
  {
    var d := [(n % 10 + '0' as int) as char];
    if n < 10 then d else Digits(n / 10) + d
  }

  /** fmt's %d. */
  function Decimal(n: int): (s: string)
    ensures ':' !in s && '|' !in s
  {
    if n < 0 then "-" + Digits(-n) else Digits(n)
  }

  lemma {:induction false} DigitsInjective(m: nat, n: nat)
    requires Digits(m) == Digits(n)
    ensures m == n
  {
    var s, t := Digits(m), Digits(n);
    assert s[|s| - 1] == (m % 10 + '0' as int) as char && t[|t| - 1] == (n % 10 + '0' as int) as char;
    if m >= 10 && n >= 10 {
      assert s[..|s| - 1] == Digits(m / 10) && t[..|t| - 1] == Digits(n / 10);
      DigitsInjective(m / 10, n / 10);
    }
  }

  lemma DecimalInjective(m: int, n: int)
    requires Decimal(m) == Decimal(n)
    ensures m == n
  {
    assert m < 0 <==> Decimal(m)[0] == '-';
    assert n < 0 <==> Decimal(n)[0] == '-';
    if m < 0 {
      CancelPrefix("-", Digits(-m), Digits(-n));
      DigitsInjective(-m, -n);
    } else {
      DigitsInjective(m, n);
    }
  }

  // ---------------------------------------------------------------- the keys

  /** A collection of one tenant's connection. */
  datatype Namespace = Namespace(tenantID: string, connectionID: string, db: string, coll: string)

  function ConnLabel(connectionID: string): string {
    if connectionID == "" then "_" else connectionID
  }

  /** "nance:tenant:{%s}:conn:%s:ns:%s.%s" followed by tail. */
  function NsKey(ns: Namespace, tail: string): string {
    "nance:tenant:{" + (ns.tenantID + (['}'] + (":conn:" + (ConnLabel(ns.connectionID) +
    ([':'] + ("ns:" + (ns.db + (['.'] + (ns.coll + tail)))))))))
  }

  function HashInput(c: Codec, cmdName: string, cmd: Value, version: int): string {
    c.marshal(Norm(cmd)) + (['|'] + (ToLower(cmdName) + (['|'] + ("v" + Decimal(version)))))
  }

  function CmdTail(c: Codec, cmdName: string, cmd: Value, version: int): string {
    (":cmd" + ([':'] + c.sha(HashInput(c, cmdName, cmd, version)))) + ([':'] + ("v" + Decimal(version)))
  }

  function CacheKey(c: Codec, ns: Namespace, cmdName: string, cmd: Value, version: int): string {
    NsKey(ns, CmdTail(c, cmdName, cmd, version))
  }

  function CacheKeyWithGeneration(c: Codec, ns: Namespace, cmdName: string, cmd: Value, version: int,
                                  generation: int): string {
    CacheKey(c, ns, cmdName, cmd, version) + ([':'] + ("g" + Decimal(generation)))
  }

  function RegistryKey(ns: Namespace): string {
    NsKey(ns, [':'] + "known_keys")
  }

  function TagRegistryKey(tenantID: string, tag: string): string {
    "nance:tenant:{" + (tenantID + (['}'] + (":tag:" + (tag + ":keys"))))
  }

  /** What the key format needs to keep its fields apart. */
  predicate PlainConn(ns: Namespace) {
    '}' !in ns.tenantID && ':' !in ns.connectionID
  }

  predicate Plain(ns: Namespace) {
    PlainConn(ns) && '.' !in ns.db
  }

  /** Namespaces that the key format does not tell apart even when plain: "" and "_" are one connection label. */
  predicate SameNamespace(a: Namespace, b: Namespace) {
    && a.tenantID == b.tenantID && ConnLabel(a.connectionID) == ConnLabel(b.connectionID)
    && a.db == b.db && a.coll == b.coll
  }

  function Dotted(ns: Namespace, tail: string): string {
    ns.db + (['.'] + (ns.coll + tail))
  }

  lemma NsKeySplit(a: Namespace, b: Namespace, x: string, y: string)
    requires PlainConn(a) && PlainConn(b) && NsKey(a, x) == NsKey(b, y)
    ensures a.tenantID == b.tenantID && ConnLabel(a.connectionID) == ConnLabel(b.connectionID)
    ensures Dotted(a, x) == Dotted(b, y)
  {
    var p, q := "ns:" + Dotted(a, x), "ns:" + Dotted(b, y);
    var r, s := ConnLabel(a.connectionID) + ([':'] + p), ConnLabel(b.connectionID) + ([':'] + q);
    CancelPrefix("nance:tenant:{", a.tenantID + (['}'] + (":conn:" + r)), b.tenantID + (['}'] + (":conn:" + s)));
    SplitFirst(a.tenantID, b.tenantID, '}', ":conn:" + r, ":conn:" + s);
    CancelPrefix(":conn:", r, s);
    SplitFirst(ConnLabel(a.connectionID), ConnLabel(b.connectionID), ':', p, q);
    CancelPrefix("ns:", Dotted(a, x), Dotted(b, y));
  }

  lemma DottedSplit(a: Namespace, b: Namespace, x: string, y: string)
    requires '.' !in a.db && '.' !in b.db && Dotted(a, x) == Dotted(b, y)
    ensures a.db == b.db && a.coll + x == b.coll + y
  {
    SplitFirst(a.db, b.db, '.', a.coll + x, b.coll + y);
  }

  /** Two registries are one exactly when tenant and connection agree and "db.coll" reads the same. */
  lemma RegistryKeyMeaning(a: Namespace, b: Namespace)
    requires PlainConn(a) && PlainConn(b)
    ensures RegistryKey(a) == RegistryKey(b) <==>
            && a.tenantID == b.tenantID && ConnLabel(a.connectionID) == ConnLabel(b.connectionID)
            && a.db + (['.'] + a.coll) == b.db + (['.'] + b.coll)
    ensures Plain(a) && Plain(b) ==> (RegistryKey(a) == RegistryKey(b) <==> SameNamespace(a, b))
  {
    var tail := [':'] + "known_keys";
    var da, db := a.db + (['.'] + a.coll), b.db + (['.'] + b.coll);
    assert Dotted(a, tail) == da + tail && Dotted(b, tail) == db + tail;
    if RegistryKey(a) == RegistryKey(b) {
      NsKeySplit(a, b, tail, tail);
      SplitLength(da, db, tail, tail);
    }
    if Plain(a) && Plain(b) && da == db {
      SplitFirst(a.db, b.db, '.', a.coll, b.coll);
    }
  }

  lemma VersionInjective(i: int, j: int)
    requires "v" + Decimal(i) == "v" + Decimal(j)
    ensures i == j
  {
    CancelPrefix("v", Decimal(i), Decimal(j));
    DecimalInjective(i, j);
  }

  lemma HashTailSplit(m: string, i: int, n: string, j: int)
    requires ToLower(m) + (['|'] + ("v" + Decimal(i))) == ToLower(n) + (['|'] + ("v" + Decimal(j)))
    ensures ToLower(m) == ToLower(n) && i == j
  {
    SplitLast(ToLower(m), ToLower(n), '|', "v" + Decimal(i), "v" + Decimal(j));
    VersionInjective(i, j);
  }

  lemma HashInputInjective(c: Codec, m: string, v: Value, i: int, n: string, w: Value, j: int)
    requires CodecOk(c) && HashInput(c, m, v, i) == HashInput(c, n, w, j)
    ensures Norm(v) == Norm(w) && ToLower(m) == ToLower(n) && i == j
  {
    var p, q := ToLower(m) + (['|'] + ("v" + Decimal(i))), ToLower(n) + (['|'] + ("v" + Decimal(j)));
    assert c.marshal(Norm(v)) + (['|'] + p) == c.marshal(Norm(w)) + (['|'] + q);
    CancelPrefix(c.marshal(Norm(v)), ['|'] + p, ['|'] + q);
    CancelPrefix(['|'], p, q);
    HashTailSplit(m, i, n, j);
  }

  lemma Regroup(a: string, d: string, e: string, c: char, x: string)
    ensures a + ((d + ([c] + e)) + x) == (a + (d + ([c] + e))) + x
    ensures a + (d + ([c] + e)) == (a + d) + ([c] + e)
  {
  }

  lemma TailSplit(a: string, f: string, x: string, b: string, g: string, y: string)
    requires ':' !in f && ':' !in g && ':' !in x && ':' !in y
    requires a + ((":cmd" + ([':'] + f)) + ([':'] + x)) == b + ((":cmd" + ([':'] + g)) + ([':'] + y))
    ensures a == b && f == g && x == y
  {
    Regroup(a, ":cmd", f, ':', [':'] + x);
    Regroup(b, ":cmd", g, ':', [':'] + y);
    SplitLast(a + (":cmd" + ([':'] + f)), b + (":cmd" + ([':'] + g)), ':', x, y);
    SplitLast(a + ":cmd", b + ":cmd", ':', f, g);
    SplitLength(a, b, ":cmd", ":cmd");
  }

  lemma CmdTailSplit(c: Codec, a: string, m: string, v: Value, i: int, b: string, n: string, w: Value, j: int)
    requires CodecOk(c) && a + CmdTail(c, m, v, i) == b + CmdTail(c, n, w, j)
    ensures a == b && Norm(v) == Norm(w) && ToLower(m) == ToLower(n) && i == j
  {
    var h, k := HashInput(c, m, v, i), HashInput(c, n, w, j);
    TailSplit(a, c.sha(h), "v" + Decimal(i), b, c.sha(k), "v" + Decimal(j));
    HashInputInjective(c, m, v, i, n, w, j);
  }

  /** Two commands share a cache key exactly when they agree on namespace, normal form, lower-cased name
      and key version. */
  lemma CacheKeyMeaning(c: Codec, a: Namespace, m: string, v: Value, i: int, b: Namespace, n: string, w: Value, j: int)
    requires CodecOk(c) && Plain(a) && Plain(b)
    ensures CacheKey(c, a, m, v, i) == CacheKey(c, b, n, w, j) <==>
            SameNamespace(a, b) && Norm(v) == Norm(w) && ToLower(m) == ToLower(n) && i == j
  {
    if CacheKey(c, a, m, v, i) == CacheKey(c, b, n, w, j) {
      var x, y := CmdTail(c, m, v, i), CmdTail(c, n, w, j);
      NsKeySplit(a, b, x, y);
      DottedSplit(a, b, x, y);
      CmdTailSplit(c, a.coll, m, v, i, b.coll, n, w, j);
    }
  }

  /** A generation suffix keeps generations apart and never makes a key without one. */
  lemma GenerationMeaning(c: Codec, a: Namespace, m: string, v: Value, i: int, g: int,
                          b: Namespace, n: string, w: Value, j: int, h: int)
    requires CodecOk(c)
    ensures CacheKeyWithGeneration(c, a, m, v, i, g) == CacheKeyWithGeneration(c, b, n, w, j, h) <==>
            CacheKey(c, a, m, v, i) == CacheKey(c, b, n, w, j) && g == h
    ensures CacheKeyWithGeneration(c, a, m, v, i, g) != CacheKey(c, b, n, w, j)
  {
    var k, l := CacheKey(c, a, m, v, i), CacheKey(c, b, n, w, j);
    var x, y, z := "g" + Decimal(g), "g" + Decimal(h), "v" + Decimal(j);
    if k + ([':'] + x) == l + ([':'] + y) {
      SplitLast(k, l, ':', x, y);
      CancelPrefix("g", Decimal(g), Decimal(h));
      DecimalInjective(g, h);
    }
    assert x[0] == 'g' && z[0] == 'v';
    if k + ([':'] + x) == l {
      var front := KeyFront(c, b, n, w, j);
      SplitLast(k, front, ':', x, z);
    }
  }

  lemma KeyFront(c: Codec, ns: Namespace, m: string, v: Value, i: int) returns (front: string)
    ensures CacheKey(c, ns, m, v, i) == front + ([':'] + ("v" + Decimal(i)))
  {
    var d, x := ":cmd" + ([':'] + c.sha(HashInput(c, m, v, i))), [':'] + ("v" + Decimal(i));
    front := NsKey(ns, d);
    NsKeyAppend(ns, d, x);
  }

  lemma NsKeyAppend(ns: Namespace, x: string, y: string)
    ensures NsKey(ns, x + y) == NsKey(ns, x) + y
  {
    assert ns.coll + (x + y) == (ns.coll + x) + y;
  }

  /** A registry is stored under no result's key, and under no tag's key of any plain tenant. */
  lemma RegistryKeysApart(c: Codec, a: Namespace, b: Namespace, m: string, v: Value, i: int,
                          tenantID: string, tag: string)
    requires CodecOk(c)
    ensures RegistryKey(a) != CacheKey(c, b, m, v, i)
    ensures PlainConn(a) && '}' !in tenantID ==> RegistryKey(a) != TagRegistryKey(tenantID, tag)
  {
    assert "known_keys"[0] == 'k' && ("v" + Decimal(i))[0] == 'v';
    if RegistryKey(a) == CacheKey(c, b, m, v, i) {
      var front := KeyFront(c, b, m, v, i);
      NsKeyAppend(a, "", [':'] + "known_keys");
      assert "" + ([':'] + "known_keys") == [':'] + "known_keys";
      SplitLast(NsKey(a, ""), front, ':', "known_keys", "v" + Decimal(i));
    }
    var r := ConnLabel(a.connectionID) + ([':'] + ("ns:" + Dotted(a, [':'] + "known_keys")));
    var t := tag + ":keys";
    assert (":conn:" + r)[1] == 'c' && (":tag:" + t)[1] == 't';
    if PlainConn(a) && '}' !in tenantID && RegistryKey(a) == TagRegistryKey(tenantID, tag) {
      CancelPrefix("nance:tenant:{", a.tenantID + (['}'] + (":conn:" + r)), tenantID + (['}'] + (":tag:" + t)));
      SplitFirst(a.tenantID, tenantID, '}', ":conn:" + r, ":tag:" + t);
    }
  }
}
