/** What the proxy reads off a command document: its name, its collection, its kind, and whether the
    client asked for the cache. */
module Command {
  import opened Wrappers
  import opened Text
  import opened NormalForm

  datatype Kind = Handshake | AuthKind | Read | Write | CursorKind | Txn | Admin | Other

  datatype Info = Info(name: string, db: string, coll: string, kind: Kind, isTxn: bool)

  /** The tag of a string among the scalars. */
  const STRING_KIND := 2

  const META_KEYS: set<string> := {
    "$db", "$clusterTime", "$readPreference", "$configTime", "$topologyVersion", "lsid", "txnNumber", "autocommit",
    "startTransaction", "readConcern", "writeConcern", "maxTimeMS", "comment", "apiVersion", "apiStrict",
    "apiDeprecationErrors", "$audit", "$client", "$configServerState", "databaseVersion", "shardVersion"}

  const READS: set<string> := {
    "find", "aggregate", "count", "estimateddocumentcount", "distinct", "listcollections", "listindexes",
    "listdatabases", "collstats", "dbstats", "currentop", "explain"}

  const WRITES: set<string> := {
    "insert", "update", "delete", "findandmodify", "bulkwrite", "create", "createcollection", "createindexes",
    "drop", "dropdatabase", "dropindexes", "renamecollection", "createuser"}

  const CACHEABLE: set<string> := {"find", "aggregate", "count", "estimateddocumentcount", "distinct"}

  function KindOf(lname: string): Kind {
    if lname in {"hello", "ismaster"} then Handshake
    else if lname in {"saslstart", "saslcontinue", "authenticate", "logout", "getnonce"} then AuthKind
    else if lname in {"getmore", "killcursors"} then CursorKind
    else if lname in {"aborttransaction", "committransaction", "endsessions", "refreshsessions", "startsession"}
    then Txn
    else if lname in {"buildinfo", "getcmdlineopts", "ping", "whatsmyuri", "getlog", "listcommands",
                      "connectionstatus", "hostinfo", "features", "getparameter"} then Admin
    else if lname in READS then Read
    else if lname in WRITES then Write
    else Other
  }

  function Lookup(es: seq<Elem>, key: string): Option<Value> {
    if es == [] then None else if es[0].key == key then Some(es[0].val) else Lookup(es[1..], key)
  }

  predicate IsString(v: Value) {
    v.Atom? && v.kind == STRING_KIND
  }

  function LookupString(es: seq<Elem>, key: string): string {
    var v := Lookup(es, key);
    if v.Some? && IsString(v.value) then v.value.text else ""
  }

  /** fieldString: the first string under key. */
  function FirstString(es: seq<Elem>, key: string): string {
    if es == [] then ""
    else if es[0].key == key && IsString(es[0].val) then es[0].val.text
    else FirstString(es[1..], key)
  }

  /** The last string under key, as StripForRunCommand picks the database. */
  function LastString(es: seq<Elem>, key: string): string {
    if es == [] then ""
    else
      var e := es[|es| - 1];
      if e.key == key && IsString(e.val) then e.val.text else LastString(es[..|es| - 1], key)
  }

  function CommandName(es: seq<Elem>): (name: Option<string>)
    ensures name.Some? ==> name.value !in META_KEYS
  {
    if es == [] then None
    else if es[0].key in META_KEYS then CommandName(es[1..])
    else Some(es[0].key)
  }

  function Classify(es: seq<Elem>): Option<Info> {
    var name := CommandName(es);
    if name.None? then None
    else
      var db := LookupString(es, "$db");
      var kind := KindOf(ToLower(name.value));
      var coll := if kind in {Read, Write, Other} then LookupString(es, name.value) else "";
      var isTxn := Lookup(es, "startTransaction").Some? || Lookup(es, "autocommit").Some?;
      Some(Info(name.value, if db == "" then "admin" else db, coll, kind, isTxn))
  }

  function ForbiddenStage(v: Value): bool {
    v.Doc? && exists i | 0 <= i < |v.elems| :: v.elems[i].key in {"$out", "$merge", "$changeStream"}
  }

  function HasForbiddenAggStage(es: seq<Elem>): bool {
    var p := Lookup(es, "pipeline");
    p.Some? && p.value.Arr? && exists i | 0 <= i < |p.value.items| :: ForbiddenStage(p.value.items[i])
  }

  function ShouldBypassCache(name: string, es: seq<Elem>, isTxn: bool): bool {
    || isTxn
    || Lookup(es, "txnNumber").Some?
    || (ToLower(name) == "aggregate" && HasForbiddenAggStage(es))
    || ToLower(name) !in CACHEABLE
  }

  // ---------------------------------------------------------------- Kind 1 document sequences

  /** A document sequence of a message: its identifier and its documents. */
  type Sequence = (string, seq<Value>)

  /** Replaces the first element under key, or adds one. */
  function SetField(es: seq<Elem>, key: string, v: Value): (r: seq<Elem>)
    ensures Lookup(r, key) == Some(v)
  {
    if es == [] then [Elem(key, v)]
    else if es[0].key == key then [Elem(key, v)] + es[1..]
    else [es[0]] + SetField(es[1..], key, v)
  }

  /** The command the backend gets: each named sequence as an array under its identifier. */
  function Merged(es: seq<Elem>, seqs: seq<Sequence>): seq<Elem>
    decreases |seqs|
  {
    if seqs == [] then es
    else Merged(if seqs[0].0 == "" then es else SetField(es, seqs[0].0, Arr(seqs[0].1)), seqs[1..])
  }

  method MergeDocumentSequences(cmd: seq<Elem>, seqs: seq<Sequence>) returns (merged: seq<Elem>)
    ensures merged == Merged(cmd, seqs)
  {
    merged := cmd;
    var k := 0;
    while k < |seqs|
      invariant 0 <= k <= |seqs|
      invariant Merged(merged, seqs[k..]) == Merged(cmd, seqs)
    {
      var s := seqs[k];
      assert seqs[k..][0] == s && seqs[k..][1..] == seqs[k + 1..];
      k := k + 1;
      if s.0 == "" {
        continue;
      }
      merged := PutField(merged, s.0, Arr(s.1));
    }
  }

  method PutField(es: seq<Elem>, key: string, v: Value) returns (r: seq<Elem>)
    ensures r == SetField(es, key, v)
  {
    var i := 0;
    while i < |es| && es[i].key != key
      invariant 0 <= i <= |es|
      invariant forall j | 0 <= j < i :: es[j].key != key
    {
      i := i + 1;
    }
    SetFieldAt(es, key, v, i);
    r := if i < |es| then es[i := Elem(key, v)] else es + [Elem(key, v)];
  }

  lemma {:induction false} SetFieldAt(es: seq<Elem>, key: string, v: Value, i: nat)
    requires i <= |es| && (forall j | 0 <= j < i :: es[j].key != key) && (i < |es| ==> es[i].key == key)
    ensures SetField(es, key, v) == if i < |es| then es[i := Elem(key, v)] else es + [Elem(key, v)]
    decreases |es|
  {
    if i > 0 {
      SetFieldAt(es[1..], key, v, i - 1);
    }
  }

  // ---------------------------------------------------------------- the "_cache" suffix

  const SUFFIX := "_cache"

  predicate HasSuffix(s: string, suffix: string) {
    |suffix| <= |s| && s[|s| - |suffix|..] == suffix
  }

  /** The collection behind a name, and whether the client opted into the cache. */
  function ResolveCacheCollection(coll: string): (r: (string, bool))
    ensures r.1 <==> r.0 != coll
    ensures r.1 <==> r.0 != "" && coll == r.0 + SUFFIX
    ensures r.1 <==> HasSuffix(coll, SUFFIX) && |coll| > |SUFFIX|
  {
    if coll == "" || !HasSuffix(coll, SUFFIX) then
      assert forall p :: coll == p + SUFFIX ==> HasSuffix(coll, SUFFIX);
      (coll, false)
    else if |coll| == |SUFFIX| then (coll, false)
    else
      assert coll == coll[..|coll| - |SUFFIX|] + SUFFIX;
      (coll[..|coll| - |SUFFIX|], true)
  }

  function RealName(coll: string): string {
    ResolveCacheCollection(coll).0
  }

  /** A name whose suffix comes off once and for all. */
  predicate SafeTarget(coll: string) {
    RealName(RealName(coll)) == RealName(coll)
  }

  /** The names that lose two suffixes are exactly those of the form x + "_cache_cache" with x not empty. */
  lemma UnsafeTargets(coll: string)
    ensures !SafeTarget(coll) <==> exists x :: x != "" && coll == (x + SUFFIX) + SUFFIX
  {
    if x: string :| x != "" && coll == (x + SUFFIX) + SUFFIX {
      ResolveAppended(x + SUFFIX);
      ResolveAppended(x);
    }
    if !SafeTarget(coll) {
      var x := RealName(RealName(coll));
      assert RealName(coll) == x + SUFFIX;
      assert coll == RealName(coll) + SUFFIX;
    }
  }

  lemma ResolveAppended(x: string)
    requires x != ""
    ensures ResolveCacheCollection(x + SUFFIX) == (x, true)
  {
    var s := x + SUFFIX;
    assert s[|s| - |SUFFIX|..] == SUFFIX && s[..|s| - |SUFFIX|] == x;
  }
}
