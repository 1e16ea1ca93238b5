/** Command normalisation before hashing: filter volatile keys, sort by key, widen integers, at every depth. */
module NormalForm {
  /** A decoded BSON value. Atom stands for every scalar the normaliser leaves alone. */
  datatype Value =
    | Doc(elems: seq<Elem>)
    | Arr(items: seq<Value>)
    | Int32(n: int)
    | Int64(n: int)
    | Atom(kind: int, text: string)

  datatype Elem = Elem(key: string, val: Value)

  const VOLATILE: set<string> := {
    "$db", "$clusterTime", "$readPreference", "lsid", "txnNumber", "autocommit", "$comment", "comment",
    "maxTimeMS", "readConcern", "$readConcern", "apiVersion", "apiStrict", "apiDeprecationErrors"}

  // ---------------------------------------------------------------- key order and stable sort

  /** a <= b in the lexicographic order of strings. */
  predicate LessEq(a: string, b: string) {
    a == [] || (b != [] && (a[0] < b[0] || (a[0] == b[0] && LessEq(a[1..], b[1..]))))
  }

  lemma LessEqTotal(a: string, b: string)
    ensures LessEq(a, b) || LessEq(b, a)
  {
  }

  lemma LessEqAntisymmetric(a: string, b: string)
    requires LessEq(a, b) && LessEq(b, a)
    ensures a == b
  {
    if a != [] {
      LessEqAntisymmetric(a[1..], b[1..]);
      assert a == [a[0]] + a[1..] && b == [b[0]] + b[1..];
    }
  }

  lemma LessEqTransitive(a: string, b: string, c: string)
    requires LessEq(a, b) && LessEq(b, c)
    ensures LessEq(a, c)
  {
  }

  predicate Sorted(es: seq<Elem>) {
    |es| < 2 || (LessEq(es[0].key, es[1].key) && Sorted(es[1..]))
  }

  /** Places e before the first element whose key is not smaller. */
  function Insert(e: Elem, s: seq<Elem>): seq<Elem> {
    if s == [] || LessEq(e.key, s[0].key) then [e] + s else [s[0]] + Insert(e, s[1..])
  }

  /** sort.SliceStable by key. */
  function SortByKey(es: seq<Elem>): seq<Elem> {
    if es == [] then [] else Insert(es[0], SortByKey(es[1..]))
  }

  lemma {:induction false} InsertSorted(e: Elem, s: seq<Elem>)
    requires Sorted(s)
    ensures Sorted(Insert(e, s))
  {
    if s != [] && !LessEq(e.key, s[0].key) {
      InsertSorted(e, s[1..]);
      LessEqTotal(e.key, s[0].key);
      var r := Insert(e, s[1..]);
      assert r[0] == e || r[0] == s[1];
      assert ([s[0]] + r)[1..] == r;
    } else if s != [] {
      assert ([e] + s)[1..] == s;
    }
  }

  lemma {:induction false} SortByKeySorted(es: seq<Elem>)
    ensures Sorted(SortByKey(es))
  {
    if es != [] {
      SortByKeySorted(es[1..]);
      InsertSorted(es[0], SortByKey(es[1..]));
    }
  }

  lemma {:induction false} SortedUnchanged(es: seq<Elem>)
    requires Sorted(es)
    ensures SortByKey(es) == es
  {
    if es != [] {
      SortedUnchanged(es[1..]);
      assert es == [es[0]] + es[1..];
    }
  }

  /** Elements with different keys may be inserted in either order. */
  lemma {:induction false} InsertCommutes(a: Elem, b: Elem, s: seq<Elem>)
    requires a.key != b.key && Sorted(s)
    ensures Insert(a, Insert(b, s)) == Insert(b, Insert(a, s))
  {
    LessEqTotal(a.key, b.key);
    if LessEq(a.key, b.key) && LessEq(b.key, a.key) {
      LessEqAntisymmetric(a.key, b.key);
    }
    if s == [] {
      return;
    }
    var h := s[0];
    LessEqTotal(a.key, h.key);
    LessEqTotal(b.key, h.key);
    if LessEq(a.key, b.key) && LessEq(b.key, h.key) {
      LessEqTransitive(a.key, b.key, h.key);
    }
    if LessEq(b.key, a.key) && LessEq(a.key, h.key) {
      LessEqTransitive(b.key, a.key, h.key);
    }
    if !LessEq(a.key, h.key) && !LessEq(b.key, h.key) {
      InsertCommutes(a, b, s[1..]);
      assert ([h] + Insert(b, s[1..]))[1..] == Insert(b, s[1..]);
      assert ([h] + Insert(a, s[1..]))[1..] == Insert(a, s[1..]);
    } else {
      assert ([a] + s)[1..] == s && ([b] + s)[1..] == s;
      assert ([h] + Insert(b, s[1..]))[1..] == Insert(b, s[1..]);
      assert ([h] + Insert(a, s[1..]))[1..] == Insert(a, s[1..]);
    }
  }

  // ---------------------------------------------------------------- the normaliser

  function Norm(v: Value): Value
    decreases v
  {
    match v
    case Doc(es) => Doc(SortByKey(NormElems(es)))
    case Arr(xs) => Arr(NormItems(xs))
    case Int32(n) => Int64(n)
    case Int64(_) => v
    case Atom(_, _) => v
  }

  function NormElems(es: seq<Elem>): seq<Elem>
    decreases es
  {
    if es == [] then []
    else if es[0].key in VOLATILE then NormElems(es[1..])
    else [Elem(es[0].key, Norm(es[0].val))] + NormElems(es[1..])
  }

  function NormItems(xs: seq<Value>): seq<Value>
    decreases xs
  {
    if xs == [] then [] else [Norm(xs[0])] + NormItems(xs[1..])
  }

  /** normalizeValue: builds the filtered elements in a loop, then sorts them. */
  method NormalizeValue(v: Value) returns (r: Value)
    ensures r == Norm(v)
    decreases v
  {
    match v
    case Doc(es) =>
      var filtered: seq<Elem> := [];
      var i := 0;
      while i < |es|
        invariant 0 <= i <= |es|
        invariant filtered + NormElems(es[i..]) == NormElems(es)
      {
        var e := es[i];
        assert es[i..][1..] == es[i + 1..];
        i := i + 1;
        if e.key in VOLATILE {
          continue;
        }
        var val := NormalizeValue(e.val);
        filtered := filtered + [Elem(e.key, val)];
      }
      assert filtered == NormElems(es);
      var sorted := SortStable(filtered);
      r := Doc(sorted);
    case Arr(xs) =>
      var out: seq<Value> := [];
      var i := 0;
      while i < |xs|
        invariant 0 <= i <= |xs|
        invariant out + NormItems(xs[i..]) == NormItems(xs)
      {
        assert xs[i..][1..] == xs[i + 1..];
        var item := NormalizeValue(xs[i]);
        out := out + [item];
        i := i + 1;
      }
      assert out == NormItems(xs);
      r := Arr(out);
    case Int32(n) =>
      r := Int64(n);
    case Int64(_) =>
      r := v;
    case Atom(_, _) =>
      r := v;
  }

  lemma {:induction false} InsertAt(e: Elem, s: seq<Elem>, k: nat)
    requires k <= |s| && forall j | 0 <= j < k :: !LessEq(e.key, s[j].key)
    requires k < |s| ==> LessEq(e.key, s[k].key)
    ensures Insert(e, s) == s[..k] + [e] + s[k..]
    decreases k
  {
    if k != 0 {
      InsertAt(e, s[1..], k - 1);
      assert s[..k] + [e] + s[k..] == [s[0]] + (s[1..][..k - 1] + [e] + s[1..][k - 1..]);
    }
  }

  /** sort.SliceStable, as an insertion sort. */
  method SortStable(es: seq<Elem>) returns (sorted: seq<Elem>)
    ensures sorted == SortByKey(es)
  {
    sorted := [];
    var i := |es|;
    while 0 < i
      invariant 0 <= i <= |es|
      invariant sorted == SortByKey(es[i..])
    {
      i := i - 1;
      assert es[i..][0] == es[i] && es[i..][1..] == es[i + 1..];
      var k := 0;
      while k < |sorted| && !LessEq(es[i].key, sorted[k].key)
        invariant 0 <= k <= |sorted|
        invariant forall j | 0 <= j < k :: !LessEq(es[i].key, sorted[j].key)
      {
        k := k + 1;
      }
      InsertAt(es[i], sorted, k);
      sorted := sorted[..k] + [es[i]] + sorted[k..];
    }
  }

  // ---------------------------------------------------------------- what the normal form looks like

  /** Sorted by key, no volatile key and no 32-bit integer, at every depth. */
  predicate IsNormal(v: Value)
    decreases v
  {
    match v
    case Doc(es) => Sorted(es) && NormalElems(es)
    case Arr(xs) => NormalItems(xs)
    case Int32(_) => false
    case Int64(_) => true
    case Atom(_, _) => true
  }

  predicate NormalElems(es: seq<Elem>)
    decreases es
  {
    es == [] || (es[0].key !in VOLATILE && IsNormal(es[0].val) && NormalElems(es[1..]))
  }

  predicate NormalItems(xs: seq<Value>)
    decreases xs
  {
    xs == [] || (IsNormal(xs[0]) && NormalItems(xs[1..]))
  }

  lemma {:induction false} InsertNormal(e: Elem, s: seq<Elem>)
    requires e.key !in VOLATILE && IsNormal(e.val) && NormalElems(s)
    ensures NormalElems(Insert(e, s))
  {
    if s != [] && !LessEq(e.key, s[0].key) {
      InsertNormal(e, s[1..]);
      assert Insert(e, s)[1..] == Insert(e, s[1..]);
    } else {
      assert ([e] + s)[1..] == s;
    }
  }

  lemma {:induction false} SortNormal(es: seq<Elem>)
    requires NormalElems(es)
    ensures NormalElems(SortByKey(es))
  {
    if es != [] {
      SortNormal(es[1..]);
      InsertNormal(es[0], SortByKey(es[1..]));
    }
  }

  /** The result is normal. */
  lemma {:induction false} NormIsNormal(v: Value)
    ensures IsNormal(Norm(v))
    decreases v
  {
    match v
    case Doc(es) =>
      NormElemsNormal(es);
      SortNormal(NormElems(es));
      SortByKeySorted(NormElems(es));
    case Arr(xs) =>
      NormItemsNormal(xs);
    case _ =>
  }

  lemma {:induction false} NormElemsNormal(es: seq<Elem>)
    ensures NormalElems(NormElems(es))
    decreases es
  {
    if es != [] {
      NormElemsNormal(es[1..]);
      if es[0].key !in VOLATILE {
        NormIsNormal(es[0].val);
        assert NormElems(es)[1..] == NormElems(es[1..]);
      }
    }
  }

  lemma {:induction false} NormItemsNormal(xs: seq<Value>)
    ensures NormalItems(NormItems(xs))
    decreases xs
  {
    if xs != [] {
      NormItemsNormal(xs[1..]);
      NormIsNormal(xs[0]);
      assert NormItems(xs)[1..] == NormItems(xs[1..]);
    }
  }

  /** A normal value is left alone. */
  lemma {:induction false} NormalUnchanged(v: Value)
    requires IsNormal(v)
    ensures Norm(v) == v
    decreases v
  {
    match v
    case Doc(es) =>
      NormalElemsUnchanged(es);
      SortedUnchanged(es);
    case Arr(xs) =>
      NormalItemsUnchanged(xs);
    case _ =>
  }

  lemma {:induction false} NormalElemsUnchanged(es: seq<Elem>)
    requires NormalElems(es)
    ensures NormElems(es) == es
    decreases es
  {
    if es != [] {
      NormalUnchanged(es[0].val);
      NormalElemsUnchanged(es[1..]);
      assert es == [es[0]] + es[1..];
    }
  }

  lemma {:induction false} NormalItemsUnchanged(xs: seq<Value>)
    requires NormalItems(xs)
    ensures NormItems(xs) == xs
    decreases xs
  {
    if xs != [] {
      NormalUnchanged(xs[0]);
      NormalItemsUnchanged(xs[1..]);
      assert xs == [xs[0]] + xs[1..];
    }
  }

  /** The fixed points of the normaliser are the normal values, and one pass reaches one. */
  lemma NormIdempotent(v: Value)
    ensures Norm(Norm(v)) == Norm(v)
    ensures Norm(v) == v <==> IsNormal(v)
  {
    NormIsNormal(v);
    NormalUnchanged(Norm(v));
    if IsNormal(v) {
      NormalUnchanged(v);
    }
  }

  // ---------------------------------------------------------------- duplicate keys

  /** The values under key k, in order. */
  function ValuesOf(es: seq<Elem>, k: string): seq<Value> {
    if es == [] then []
    else if es[0].key == k then [es[0].val] + ValuesOf(es[1..], k)
    else ValuesOf(es[1..], k)
  }

  lemma {:induction false} InsertValues(e: Elem, s: seq<Elem>, k: string)
    requires Sorted(s)
    ensures ValuesOf(Insert(e, s), k) == ValuesOf([e] + s, k)
  {
    assert ([e] + s)[1..] == s;
    if s != [] && !LessEq(e.key, s[0].key) {
      InsertValues(e, s[1..], k);
      LessEqTotal(e.key, e.key);
      assert ([e] + s[1..])[1..] == s[1..];
      assert Insert(e, s)[1..] == Insert(e, s[1..]);
    }
  }

  lemma {:induction false} SortValues(es: seq<Elem>, k: string)
    ensures ValuesOf(SortByKey(es), k) == ValuesOf(es, k)
  {
    if es != [] {
      SortValues(es[1..], k);
      SortByKeySorted(es[1..]);
      InsertValues(es[0], SortByKey(es[1..]), k);
      assert ([es[0]] + SortByKey(es[1..]))[1..] == SortByKey(es[1..]);
    }
  }

  /** Under a key that is kept, the normal form holds the normalised values in their original order. */
  lemma {:induction false} DuplicateKeysKeepOrder(es: seq<Elem>, k: string)
    ensures ValuesOf(Norm(Doc(es)).elems, k) == if k in VOLATILE then [] else NormItems(ValuesOf(es, k))
  {
    SortValues(NormElems(es), k);
    NormElemsValues(es, k);
  }

  lemma {:induction false} NormElemsValues(es: seq<Elem>, k: string)
    ensures ValuesOf(NormElems(es), k) == if k in VOLATILE then [] else NormItems(ValuesOf(es, k))
  {
    if es != [] {
      NormElemsValues(es[1..], k);
      if es[0].key !in VOLATILE {
        assert NormElems(es)[1..] == NormElems(es[1..]);
      }
      if es[0].key == k {
        assert ValuesOf(es, k)[1..] == ValuesOf(es[1..], k);
      }
    }
  }

  // ---------------------------------------------------------------- the equivalence it decides

  /** One rewriting at one place: widen an integer, drop a volatile element, or swap neighbours
      whose keys differ. */
  predicate Rewrites(v: Value, w: Value)
    decreases v
  {
    match v
    case Doc(es) => w.Doc? && RewritesElems(es, w.elems)
    case Arr(xs) => w.Arr? && RewritesItems(xs, w.items)
    case Int32(n) => w == Int64(n)
    case Int64(_) => false
    case Atom(_, _) => false
  }

  predicate RewritesElems(es: seq<Elem>, fs: seq<Elem>)
    decreases es
  {
    && es != []
    && (|| (es[0].key in VOLATILE && fs == es[1..])
        || (|es| >= 2 && es[0].key != es[1].key && fs == [es[1], es[0]] + es[2..])
        || (fs != [] && es[0].key == fs[0].key && Rewrites(es[0].val, fs[0].val) && es[1..] == fs[1..])
        || (fs != [] && es[0] == fs[0] && RewritesElems(es[1..], fs[1..])))
  }

  predicate RewritesItems(xs: seq<Value>, ys: seq<Value>)
    decreases xs
  {
    && xs != [] && ys != []
    && (|| (Rewrites(xs[0], ys[0]) && xs[1..] == ys[1..])
        || (xs[0] == ys[0] && RewritesItems(xs[1..], ys[1..])))
  }

  predicate Linked(v: Value, w: Value) {
    Rewrites(v, w) || Rewrites(w, v)
  }

  /** n rewritings, forwards or backwards, lead from v to w. */
  ghost predicate Joined(v: Value, w: Value, n: nat)
    decreases n
  {
    if n == 0 then v == w else exists u :: Linked(v, u) && Joined(u, w, n - 1)
  }

  ghost predicate Equivalent(v: Value, w: Value) {
    exists n: nat :: Joined(v, w, n)
  }

  lemma {:induction false} RewriteKeepsNorm(v: Value, w: Value)
    requires Rewrites(v, w)
    ensures Norm(v) == Norm(w)
    decreases v
  {
    match v
    case Doc(es) => RewriteElemsKeepsSort(es, w.elems);
    case Arr(xs) => RewriteItemsKeepsNorm(xs, w.items);
    case _ =>
  }

  lemma {:induction false} RewriteItemsKeepsNorm(xs: seq<Value>, ys: seq<Value>)
    requires RewritesItems(xs, ys)
    ensures NormItems(xs) == NormItems(ys)
    decreases xs
  {
    if Rewrites(xs[0], ys[0]) && xs[1..] == ys[1..] {
      RewriteKeepsNorm(xs[0], ys[0]);
    } else {
      RewriteItemsKeepsNorm(xs[1..], ys[1..]);
    }
  }

  lemma SortCons(es: seq<Elem>)
    requires es != []
    ensures SortByKey(NormElems(es)) ==
            if es[0].key in VOLATILE then SortByKey(NormElems(es[1..]))
            else Insert(Elem(es[0].key, Norm(es[0].val)), SortByKey(NormElems(es[1..])))
  {
    if es[0].key !in VOLATILE {
      assert NormElems(es)[1..] == NormElems(es[1..]);
    }
  }

  lemma {:induction false} RewriteElemsKeepsSort(es: seq<Elem>, fs: seq<Elem>)
    requires RewritesElems(es, fs)
    ensures SortByKey(NormElems(es)) == SortByKey(NormElems(fs))
    decreases es
  {
    SortCons(es);
    if es[0].key in VOLATILE && fs == es[1..] {
    } else if |es| >= 2 && es[0].key != es[1].key && fs == [es[1], es[0]] + es[2..] {
      SwapKeepsSort(es, fs);
    } else {
      SortCons(fs);
      if es[0].key == fs[0].key && Rewrites(es[0].val, fs[0].val) && es[1..] == fs[1..] {
        RewriteKeepsNorm(es[0].val, fs[0].val);
      } else {
        RewriteElemsKeepsSort(es[1..], fs[1..]);
      }
    }
  }

  lemma SwapKeepsSort(es: seq<Elem>, fs: seq<Elem>)
    requires |es| >= 2 && es[0].key != es[1].key && fs == [es[1], es[0]] + es[2..]
    ensures SortByKey(NormElems(es)) == SortByKey(NormElems(fs))
  {
    assert es[1..][1..] == es[2..] && fs[1..][1..] == es[2..];
    SortCons(es);
    SortCons(es[1..]);
    SortCons(fs);
    SortCons(fs[1..]);
    var tail := SortByKey(NormElems(es[2..]));
    SortByKeySorted(NormElems(es[2..]));
    InsertCommutes(Elem(es[0].key, Norm(es[0].val)), Elem(es[1].key, Norm(es[1].val)), tail);
  }

  lemma {:induction false} JoinedKeepsNorm(v: Value, w: Value, n: nat)
    requires Joined(v, w, n)
    ensures Norm(v) == Norm(w)
    decreases n
  {
    if n != 0 {
      var u :| Linked(v, u) && Joined(u, w, n - 1);
      if Rewrites(v, u) {
        RewriteKeepsNorm(v, u);
      } else {
        RewriteKeepsNorm(u, v);
      }
      JoinedKeepsNorm(u, w, n - 1);
    }
  }

  lemma {:induction false} JoinedAppend(u: Value, v: Value, w: Value, m: nat, n: nat)
    requires Joined(u, v, m) && Joined(v, w, n)
    ensures Joined(u, w, m + n)
    decreases m
  {
    if m != 0 {
      var x :| Linked(u, x) && Joined(x, v, m - 1);
      JoinedAppend(x, v, w, m - 1, n);
    }
  }

  lemma {:induction false} JoinedReverse(v: Value, w: Value, n: nat)
    requires Joined(v, w, n)
    ensures Joined(w, v, n)
    decreases n
  {
    if n != 0 {
      var u :| Linked(v, u) && Joined(u, w, n - 1);
      JoinedReverse(u, w, n - 1);
      assert Linked(u, v) && Joined(v, v, 0);
      assert Joined(u, v, 1);
      JoinedAppend(w, u, v, n - 1, 1);
    }
  }

  /** A rewriting inside the first value of a document is one of the document. */
  lemma {:induction false} JoinedAtHead(k: string, v: Value, w: Value, rest: seq<Elem>, n: nat)
    requires Joined(v, w, n)
    ensures Joined(Doc([Elem(k, v)] + rest), Doc([Elem(k, w)] + rest), n)
    decreases n
  {
    if n != 0 {
      var u :| Linked(v, u) && Joined(u, w, n - 1);
      var es, fs := [Elem(k, v)] + rest, [Elem(k, u)] + rest;
      assert es[1..] == rest && fs[1..] == rest;
      assert Linked(Doc(es), Doc(fs));
      JoinedAtHead(k, u, w, rest, n - 1);
    }
  }

  lemma {:induction false} JoinedAtTail(e: Elem, es: seq<Elem>, fs: seq<Elem>, n: nat)
    requires Joined(Doc(es), Doc(fs), n)
    ensures Joined(Doc([e] + es), Doc([e] + fs), n)
    decreases n
  {
    if n != 0 {
      var u :| Linked(Doc(es), u) && Joined(u, Doc(fs), n - 1);
      assert ([e] + es)[1..] == es && ([e] + u.elems)[1..] == u.elems;
      assert Linked(Doc([e] + es), Doc([e] + u.elems));
      JoinedAtTail(e, u.elems, fs, n - 1);
    }
  }

  lemma {:induction false} JoinedAtFirstItem(v: Value, w: Value, rest: seq<Value>, n: nat)
    requires Joined(v, w, n)
    ensures Joined(Arr([v] + rest), Arr([w] + rest), n)
    decreases n
  {
    if n != 0 {
      var u :| Linked(v, u) && Joined(u, w, n - 1);
      assert ([v] + rest)[1..] == rest && ([u] + rest)[1..] == rest;
      assert Linked(Arr([v] + rest), Arr([u] + rest));
      JoinedAtFirstItem(u, w, rest, n - 1);
    }
  }

  lemma {:induction false} JoinedAtOtherItems(x: Value, xs: seq<Value>, ys: seq<Value>, n: nat)
    requires Joined(Arr(xs), Arr(ys), n)
    ensures Joined(Arr([x] + xs), Arr([x] + ys), n)
    decreases n
  {
    if n != 0 {
      var u :| Linked(Arr(xs), u) && Joined(u, Arr(ys), n - 1);
      assert ([x] + xs)[1..] == xs && ([x] + u.items)[1..] == u.items;
      assert Linked(Arr([x] + xs), Arr([x] + u.items));
      JoinedAtOtherItems(x, u.items, ys, n - 1);
    }
  }

  lemma JoinedStep(v: Value, u: Value, w: Value, n: nat)
    requires Rewrites(v, u) && Joined(u, w, n)
    ensures Joined(v, w, n + 1)
  {
    assert Linked(v, u);
  }

  /** Insertion is a series of swaps. */
  lemma {:induction false} JoinedInsert(e: Elem, s: seq<Elem>) returns (n: nat)
    ensures Joined(Doc([e] + s), Doc(Insert(e, s)), n)
    decreases s
  {
    if s == [] || LessEq(e.key, s[0].key) {
      return 0;
    }
    var m := JoinedInsert(e, s[1..]);
    JoinedAtTail(s[0], [e] + s[1..], Insert(e, s[1..]), m);
    var es := [e] + s;
    var fs := [s[0]] + ([e] + s[1..]);
    LessEqTotal(e.key, e.key);
    assert es[2..] == s[1..] && fs == [es[1], es[0]] + es[2..];
    JoinedStep(Doc(es), Doc(fs), Doc(Insert(e, s)), m);
    n := m + 1;
  }

  lemma {:induction false} JoinedSort(es: seq<Elem>) returns (n: nat)
    ensures Joined(Doc(es), Doc(SortByKey(es)), n)
    decreases es
  {
    if es == [] {
      return 0;
    }
    var m := JoinedSort(es[1..]);
    JoinedAtTail(es[0], es[1..], SortByKey(es[1..]), m);
    assert es == [es[0]] + es[1..];
    var k := JoinedInsert(es[0], SortByKey(es[1..]));
    JoinedAppend(Doc(es), Doc([es[0]] + SortByKey(es[1..])), Doc(SortByKey(es)), m, k);
    n := m + k;
  }

  /** Every value is joined to its normal form. */
  lemma {:induction false} JoinedNorm(v: Value) returns (n: nat)
    ensures Joined(v, Norm(v), n)
    decreases v
  {
    match v
    case Doc(es) =>
      var m := JoinedNormElems(es);
      var k := JoinedSort(NormElems(es));
      JoinedAppend(v, Doc(NormElems(es)), Norm(v), m, k);
      n := m + k;
    case Arr(xs) =>
      n := JoinedNormItems(xs);
    case Int32(i) =>
      JoinedStep(v, Int64(i), Int64(i), 0);
      n := 1;
    case _ =>
      n := 0;
  }

  lemma {:induction false} JoinedNormElems(es: seq<Elem>) returns (n: nat)
    ensures Joined(Doc(es), Doc(NormElems(es)), n)
    decreases es
  {
    if es == [] {
      return 0;
    }
    var m := JoinedNormElems(es[1..]);
    if es[0].key in VOLATILE {
      JoinedStep(Doc(es), Doc(es[1..]), Doc(NormElems(es)), m);
      n := m + 1;
    } else {
      var k := JoinedNorm(es[0].val);
      var e := Elem(es[0].key, Norm(es[0].val));
      assert es == [Elem(es[0].key, es[0].val)] + es[1..];
      JoinedAtHead(es[0].key, es[0].val, Norm(es[0].val), es[1..], k);
      JoinedAtTail(e, es[1..], NormElems(es[1..]), m);
      JoinedAppend(Doc(es), Doc([e] + es[1..]), Doc(NormElems(es)), k, m);
      n := k + m;
    }
  }

  lemma {:induction false} JoinedNormItems(xs: seq<Value>) returns (n: nat)
    ensures Joined(Arr(xs), Arr(NormItems(xs)), n)
    decreases xs
  {
    if xs == [] {
      return 0;
    }
    var k := JoinedNorm(xs[0]);
    var m := JoinedNormItems(xs[1..]);
    assert xs == [xs[0]] + xs[1..];
    JoinedAtFirstItem(xs[0], Norm(xs[0]), xs[1..], k);
    JoinedAtOtherItems(Norm(xs[0]), xs[1..], NormItems(xs[1..]), m);
    JoinedAppend(Arr(xs), Arr([Norm(xs[0])] + xs[1..]), Arr(NormItems(xs)), k, m);
    n := k + m;
  }

  /** The normal form is canonical: two values share it exactly when rewritings lead from one to the other. */
  lemma NormIsCanonical(v: Value, w: Value)
    ensures Norm(v) == Norm(w) <==> Equivalent(v, w)
  {
    if Norm(v) == Norm(w) {
      var m := JoinedNorm(v);
      var n := JoinedNorm(w);
      JoinedReverse(w, Norm(w), n);
      JoinedAppend(v, Norm(v), w, m, n);
    }
    if Equivalent(v, w) {
      var n: nat :| Joined(v, w, n);
      JoinedKeepsNorm(v, w, n);
    }
  }

  // ---------------------------------------------------------------- which elements count

  lemma {:induction false} SortLength(es: seq<Elem>)
    ensures |SortByKey(es)| == |es|
  {
    if es != [] {
      SortLength(es[1..]);
      InsertLength(es[0], SortByKey(es[1..]));
    }
  }

  lemma {:induction false} InsertLength(e: Elem, s: seq<Elem>)
    ensures |Insert(e, s)| == |s| + 1
  {
    if s != [] && !LessEq(e.key, s[0].key) {
      InsertLength(e, s[1..]);
    }
  }

  lemma {:induction false} NormElemsSnoc(es: seq<Elem>, e: Elem)
    ensures NormElems(es + [e]) == NormElems(es) + NormElems([e])
  {
    if es == [] {
      assert es + [e] == [e];
    } else {
      assert (es + [e])[1..] == es[1..] + [e];
      NormElemsSnoc(es[1..], e);
    }
  }

  /** One more element leaves the normal form of a command as it was exactly if it has one of these names. */
  lemma IgnoredExactly(es: seq<Elem>, e: Elem)
    ensures Norm(Doc(es + [e])) == Norm(Doc(es)) <==>
            e.key in {"$db", "$clusterTime", "$readPreference", "lsid", "txnNumber", "autocommit", "$comment",
                      "comment", "maxTimeMS", "readConcern", "$readConcern", "apiVersion", "apiStrict",
                      "apiDeprecationErrors"}
  {
    NormElemsSnoc(es, e);
    assert NormElems([e][1..]) == [];
    SortLength(NormElems(es));
    SortLength(NormElems(es + [e]));
    if e.key in VOLATILE {
      assert NormElems(es) + [] == NormElems(es);
    }
  }
}
