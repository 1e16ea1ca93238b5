/** OP_MSG (opcode 2013): the section parser, the reply writer and the grammar they realise. */
module WireMsg {
  import opened Wrappers
  import opened Bytes
  import opened WireHeader

  const OP_MSG := 2013
  const SECTION_BODY: byte := 0
  const SECTION_DOCUMENT: byte := 1

  datatype WireError =
    | NotOpMsg(opCode: int32)
    | InvalidMessageLength(messageLength: int32)
    | BodyTooShort(length: nat)
    | Io(cause: IoError)
    | ChecksumTooShort
    | TruncatedKind0
    | InvalidKind0Length(length: nat)
    | TruncatedKind1
    | InvalidKind1Size(size: nat)
    | MissingIdentifierTerminator
    | InvalidKind1DocLength(length: nat)
    | UnsupportedKind(kind: byte)
    | MissingBody

  datatype DocumentSequence = DocumentSequence(identifier: seq<byte>, documents: seq<seq<byte>>)

  /** What the sections contribute; an empty body means that no Kind 0 section was seen. */
  datatype Content = Content(body: seq<byte>, sequences: seq<DocumentSequence>)

  datatype Msg = Msg(header: Header, flagBits: nat, content: Content, checksum: Option<nat>)

  // ---------------------------------------------------------------- grammar

  /** A section as it stands on the wire. Up to three bytes may trail the documents of a
      Kind 1 section: the parser skips them. */
  datatype Section =
    | Kind0(doc: seq<byte>)
    | Kind1(identifier: seq<byte>, documents: seq<seq<byte>>, slack: seq<byte>)

  /** A BSON document as far as the codec looks: its int32 prefix is its own length. */
  predicate IsDoc(d: seq<byte>) {
    5 <= |d| && LE32(d[..4]) == |d|
  }

  predicate WellFormed(s: Section) {
    match s
    case Kind0(doc) => IsDoc(doc)
    case Kind1(identifier, documents, slack) =>
      && 0 !in identifier
      && AllDocs(documents)
      && |slack| < 4
      && Kind1Size(s) < TWO_32
  }

  predicate AllDocs(docs: seq<seq<byte>>) {
    docs == [] || (IsDoc(docs[0]) && AllDocs(docs[1..]))
  }

  predicate AllWellFormed(ss: seq<Section>) {
    ss == [] || (WellFormed(ss[0]) && AllWellFormed(ss[1..]))
  }

  predicate HasBody(ss: seq<Section>) {
    ss != [] && (ss[0].Kind0? || HasBody(ss[1..]))
  }

  function Flatten(docs: seq<seq<byte>>): seq<byte> {
    if docs == [] then [] else docs[0] + Flatten(docs[1..])
  }

  function Kind1Size(s: Section): nat
    requires s.Kind1?
  {
    4 + |s.identifier| + 1 + |Flatten(s.documents)| + |s.slack|
  }

  /** A Kind 1 section after its kind byte. */
  function EncodeKind1(s: Section): (b: seq<byte>)
    requires s.Kind1? && WellFormed(s)
    ensures |b| == Kind1Size(s)
  {
    PutLE32(Kind1Size(s)) + (s.identifier + ([0] + (Flatten(s.documents) + s.slack)))
  }

  function EncodeSection(s: Section): (b: seq<byte>)
    requires WellFormed(s)
    ensures b != []
  {
    if s.Kind0? then [SECTION_BODY] + s.doc else [SECTION_DOCUMENT] + EncodeKind1(s)
  }

  function EncodeSections(ss: seq<Section>): seq<byte>
    requires AllWellFormed(ss)
  {
    if ss == [] then [] else EncodeSection(ss[0]) + EncodeSections(ss[1..])
  }

  function Meaning(ss: seq<Section>, acc: Content): Content {
    if ss == [] then acc else
    Meaning(ss[1..], Contribute(ss[0], acc))
  }

  /** A later Kind 0 section replaces the body of an earlier one; Kind 1 sections accumulate in order. */
  function Contribute(s: Section, acc: Content): Content {
    match s
    case Kind0(doc) => acc.(body := doc)
    case Kind1(id, docs, _) => acc.(sequences := acc.sequences + [DocumentSequence(id, docs)])
  }

  const NOTHING := Content([], [])

  function EncodeBody(flagBits: nat, ss: seq<Section>, checksum: Option<nat>): seq<byte>
    requires flagBits < TWO_32 && (checksum.Some? ==> checksum.value < TWO_32)
    requires AllWellFormed(ss)
  {
    PutLE32(flagBits) + EncodeSections(ss) + if checksum.Some? then PutLE32(checksum.value) else []
  }

  // ---------------------------------------------------------------- parser, as a function of the bytes

  /** bytes.IndexByte(b[from:end], 0), counted from the start of b. */
  function IndexOfZero(b: seq<byte>, from: nat, end: nat): (k: Option<nat>)
    requires from <= end <= |b|
    ensures k.None? ==> forall i | from <= i < end :: b[i] != 0
    ensures k.Some? ==> from <= k.value < end && b[k.value] == 0 && forall i | from <= i < k.value :: b[i] != 0
    decreases end - from
  {
    if from == end then None else if b[from] == 0 then Some(from) else IndexOfZero(b, from + 1, end)
  }

  /** The documents of a Kind 1 section from offset; fewer than four trailing bytes are skipped. */
  function ParseDocs(b: seq<byte>, offset: nat, end: nat, acc: seq<seq<byte>>): Result<seq<seq<byte>>, WireError>
    requires offset <= end <= |b|
    decreases end - offset
  {
    if end < offset + 4 then Ok(acc) else
    var n := LE32(b[offset..offset + 4]);
    if n < 5 || end < offset + n then Err(InvalidKind1DocLength(n))
    else ParseDocs(b, offset + n, end, acc + [b[offset..offset + n]])
  }

  /** A Kind 1 section whose size field is at start, with the offset of its end. */
  function ParseKind1(b: seq<byte>, start: nat, end: nat): (r: Result<(DocumentSequence, nat), WireError>)
    requires start <= end <= |b|
    ensures r.Ok? ==> start + 5 <= r.value.1 <= end
  {
    if end < start + 4 then Err(TruncatedKind1) else
    var size := LE32(b[start..start + 4]);
    if size < 5 || end < start + size then Err(InvalidKind1Size(size)) else
    match IndexOfZero(b, start + 4, start + size)
    case None => Err(MissingIdentifierTerminator)
    case Some(k) =>
      match ParseDocs(b, k + 1, start + size, [])
      case Err(e) => Err(e)
      case Ok(docs) => Ok((DocumentSequence(b[start + 4..k], docs), start + size))
  }

  /** One section from its kind byte: what it adds to acc, and the offset of the next one. */
  function ParseSection(b: seq<byte>, offset: nat, end: nat, acc: Content): (r: Result<(Content, nat), WireError>)
    requires offset < end <= |b|
    ensures r.Ok? ==> offset < r.value.1 <= end
  {
    var at := offset + 1;
    if b[offset] == SECTION_BODY then
      if end < at + 4 then Err(TruncatedKind0) else
      var n := LE32(b[at..at + 4]);
      if n < 5 || end < at + n then Err(InvalidKind0Length(n))
      else Ok((acc.(body := b[at..at + n]), at + n))
    else if b[offset] == SECTION_DOCUMENT then
      match ParseKind1(b, at, end)
      case Err(e) => Err(e)
      case Ok((ds, next)) => Ok((acc.(sequences := acc.sequences + [ds]), next))
    else Err(UnsupportedKind(b[offset]))
  }

  function ParseSections(b: seq<byte>, offset: nat, end: nat, acc: Content): Result<Content, WireError>
    requires offset <= end <= |b|
    decreases end - offset
  {
    if offset == end then Ok(acc) else
    match ParseSection(b, offset, end, acc)
    case Err(e) => Err(e)
    case Ok((acc', next)) => ParseSections(b, next, end, acc')
  }

  function PayloadEnd(b: seq<byte>): (end: Option<nat>)
    requires 4 <= |b|
    ensures end.Some? ==> 4 <= end.value <= |b|
  {
    if LE32(b[..4]) % 2 == 0 then Some(|b|) else if |b| < 8 then None else Some(|b| - 4)
  }

  /** The message whose header is h and whose remaining bytes are exactly b. */
  function ParseBody(h: Header, b: seq<byte>): Result<Msg, WireError> {
    if |b| < 4 then Err(BodyTooShort(|b|)) else
    match PayloadEnd(b)
    case None => Err(ChecksumTooShort)
    case Some(end) =>
      match ParseSections(b, 4, end, NOTHING)
      case Err(e) => Err(e)
      case Ok(c) =>
        if c.body == [] then Err(MissingBody)
        else Ok(Msg(h, LE32(b[..4]), c, if end < |b| then Some(LE32(b[end..])) else None))
  }

  /** ReadMsg as a function: the outcome and what it leaves of the stream. */
  function ReadMsgSpec(h: Header, stream: seq<byte>): (r: (Result<Msg, WireError>, seq<byte>)) {
    if h.opCode != OP_MSG then (Err(NotOpMsg(h.opCode)), stream) else
    match BodyLength(h)
    case None => (Err(InvalidMessageLength(h.messageLength)), stream)
    case Some(n) =>
      if n < 4 then (Err(BodyTooShort(n)), stream)
      else if |stream| < n then (Err(Io(if stream == [] then Eof else UnexpectedEof)), [])
      else (ParseBody(h, stream[..n]), stream[n..])
  }

  // ---------------------------------------------------------------- the parser inverts the grammar

  lemma {:induction false} ParseDocsComplete(b: seq<byte>, offset: nat, end: nat, docs: seq<seq<byte>>,
                                             slack: seq<byte>, acc: seq<seq<byte>>)
    requires offset <= end <= |b| && b[offset..end] == Flatten(docs) + slack
    requires AllDocs(docs) && |slack| < 4
    ensures ParseDocs(b, offset, end, acc) == Ok(acc + docs)
    decreases |docs|
  {
    if docs == [] {
      assert acc + docs == acc;
    } else {
      var next := offset + |docs[0]|;
      assert Flatten(docs) + slack == docs[0] + (Flatten(docs[1..]) + slack);
      SplitWindow(b, offset, end, docs[0], Flatten(docs[1..]) + slack);
      assert b[offset..offset + 4] == b[offset..next][..4];
      ParseDocsComplete(b, next, end, docs[1..], slack, acc + [docs[0]]);
      assert acc + [docs[0]] + docs[1..] == acc + docs;
    }
  }

  lemma {:induction false} ParseDocsSound(b: seq<byte>, offset: nat, end: nat, acc: seq<seq<byte>>)
      returns (docs: seq<seq<byte>>, slack: seq<byte>)
    requires offset <= end <= |b| && ParseDocs(b, offset, end, acc).Ok?
    ensures ParseDocs(b, offset, end, acc).value == acc + docs
    ensures b[offset..end] == Flatten(docs) + slack
    ensures AllDocs(docs) && |slack| < 4
    decreases end - offset
  {
    if end < offset + 4 {
      docs, slack := [], b[offset..end];
    } else {
      var next := offset + LE32(b[offset..offset + 4]);
      var d := b[offset..next];
      var rest;
      rest, slack := ParseDocsSound(b, next, end, acc + [d]);
      docs := [d] + rest;
      assert d[..4] == b[offset..offset + 4];
      assert docs[1..] == rest;
      JoinWindow(b, offset, next, end);
      assert acc + [d] + rest == acc + docs;
    }
  }

  lemma IndexOfZeroAt(b: seq<byte>, from: nat, end: nat, k: nat)
    requires from <= k < end <= |b| && b[k] == 0 && forall i | from <= i < k :: b[i] != 0
    ensures IndexOfZero(b, from, end) == Some(k)
    decreases k - from
  {
    if from < k {
      IndexOfZeroAt(b, from + 1, end, k);
    }
  }

  lemma Kind1Windows(b: seq<byte>, start: nat, next: nat, s: Section)
    requires s.Kind1? && WellFormed(s) && start <= next <= |b| && b[start..next] == EncodeKind1(s)
    ensures var k := start + 4 + |s.identifier|;
            && k < next == start + Kind1Size(s)
            && b[start..start + 4] == PutLE32(Kind1Size(s))
            && b[start + 4..k] == s.identifier && b[k..k + 1] == [0]
            && b[k + 1..next] == Flatten(s.documents) + s.slack
  {
    var content := Flatten(s.documents) + s.slack;
    SplitWindow(b, start, next, PutLE32(Kind1Size(s)), s.identifier + ([0] + content));
    SplitWindow(b, start + 4, next, s.identifier, [0] + content);
    SplitWindow(b, start + 4 + |s.identifier|, next, [0], content);
  }

  lemma ParseKind1Complete(b: seq<byte>, start: nat, next: nat, end: nat, s: Section)
    requires s.Kind1? && WellFormed(s) && start <= next <= end <= |b|
    requires b[start..next] == EncodeKind1(s)
    ensures ParseKind1(b, start, end) == Ok((DocumentSequence(s.identifier, s.documents), next))
  {
    var k := start + 4 + |s.identifier|;
    Kind1Windows(b, start, next, s);
    assert b[k] == b[k..k + 1][0];
    forall i | start + 4 <= i < k ensures b[i] != 0 {
      assert b[i] == s.identifier[i - start - 4];
    }
    IndexOfZeroAt(b, start + 4, next, k);
    ParseDocsComplete(b, k + 1, next, s.documents, s.slack, []);
    assert [] + s.documents == s.documents;
  }

  lemma ParseKind1Sound(b: seq<byte>, start: nat, end: nat) returns (s: Section)
    requires start <= end <= |b| && ParseKind1(b, start, end).Ok?
    ensures var (ds, next) := ParseKind1(b, start, end).value;
            s.Kind1? && WellFormed(s) && ds == DocumentSequence(s.identifier, s.documents)
            && b[start..next] == EncodeKind1(s)
  {
    var next := start + LE32(b[start..start + 4]);
    var k := IndexOfZero(b, start + 4, next).value;
    var docs, slack := ParseDocsSound(b, k + 1, next, []);
    assert [] + docs == docs;
    s := Kind1(b[start + 4..k], docs, slack);
    assert b[k..k + 1] == [0];
    JoinKind1(b, start, k, next, s);
  }

  lemma JoinKind1(b: seq<byte>, start: nat, k: nat, next: nat, s: Section)
    requires start + 4 <= k < next <= |b| && LE32(b[start..start + 4]) == next - start
    requires s.Kind1? && s.identifier == b[start + 4..k] && b[k..k + 1] == [0]
    requires b[k + 1..next] == Flatten(s.documents) + s.slack
    ensures Kind1Size(s) == next - start
    ensures b[start..next] == PutLE32(Kind1Size(s)) + (s.identifier + ([0] + (Flatten(s.documents) + s.slack)))
  {
    PutLE32OfLE32(b[start..start + 4]);
    JoinWindow(b, k, k + 1, next);
    JoinWindow(b, start + 4, k, next);
    JoinWindow(b, start, start + 4, next);
  }

  lemma ParseSectionComplete(b: seq<byte>, offset: nat, next: nat, end: nat, s: Section, acc: Content)
    requires offset < next <= end <= |b| && WellFormed(s) && b[offset..next] == EncodeSection(s)
    ensures ParseSection(b, offset, end, acc) == Ok((Contribute(s, acc), next))
  {
    var at := offset + 1;
    if s.Kind0? {
      SplitWindow(b, offset, next, [SECTION_BODY], s.doc);
      assert b[offset] == b[offset..at][0];
      assert b[at..at + 4] == b[at..next][..4];
    } else {
      SplitWindow(b, offset, next, [SECTION_DOCUMENT], EncodeKind1(s));
      assert b[offset] == b[offset..at][0];
      ParseKind1Complete(b, at, next, end, s);
    }
  }

  lemma ParseSectionSound(b: seq<byte>, offset: nat, end: nat, acc: Content) returns (s: Section)
    requires offset < end <= |b| && ParseSection(b, offset, end, acc).Ok?
    ensures var (acc', next) := ParseSection(b, offset, end, acc).value;
            WellFormed(s) && acc' == Contribute(s, acc) && b[offset..next] == EncodeSection(s)
  {
    var at := offset + 1;
    var next := ParseSection(b, offset, end, acc).value.1;
    if b[offset] == SECTION_BODY {
      s := Kind0(b[at..next]);
      assert s.doc[..4] == b[at..at + 4];
    } else {
      s := ParseKind1Sound(b, at, end);
    }
    JoinWindow(b, offset, at, next);
    assert b[offset..at] == [b[offset]];
  }

  lemma ParseSectionsStep(b: seq<byte>, offset: nat, next: nat, end: nat, s: Section, acc: Content)
    requires offset < next <= end <= |b| && WellFormed(s) && b[offset..next] == EncodeSection(s)
    ensures ParseSections(b, offset, end, acc) == ParseSections(b, next, end, Contribute(s, acc))
  {
    ParseSectionComplete(b, offset, next, end, s, acc);
  }

  lemma {:induction false} ParseSectionsComplete(b: seq<byte>, offset: nat, end: nat, ss: seq<Section>, acc: Content)
    requires offset <= end <= |b|
    requires AllWellFormed(ss) && b[offset..end] == EncodeSections(ss)
    ensures ParseSections(b, offset, end, acc) == Ok(Meaning(ss, acc))
    decreases |ss|
  {
    if ss != [] {
      var e, tail := EncodeSection(ss[0]), EncodeSections(ss[1..]);
      var next := offset + |e|;
      SplitWindow(b, offset, end, e, tail);
      ParseSectionsStep(b, offset, next, end, ss[0], acc);
      ParseSectionsComplete(b, next, end, ss[1..], Contribute(ss[0], acc));
    }
  }

  lemma {:induction false} ParseSectionsSound(b: seq<byte>, offset: nat, end: nat, acc: Content)
      returns (ss: seq<Section>)
    requires offset <= end <= |b| && ParseSections(b, offset, end, acc).Ok?
    ensures AllWellFormed(ss) && b[offset..end] == EncodeSections(ss)
    ensures ParseSections(b, offset, end, acc) == Ok(Meaning(ss, acc))
    decreases end - offset
  {
    if offset == end {
      return [];
    }
    var (acc', next) := ParseSection(b, offset, end, acc).value;
    var first := ParseSectionSound(b, offset, end, acc);
    var rest := ParseSectionsSound(b, next, end, acc');
    ss := ConsSection(b, offset, next, end, first, rest);
  }

  lemma ConsSection(b: seq<byte>, offset: nat, next: nat, end: nat, first: Section, rest: seq<Section>)
      returns (ss: seq<Section>)
    requires offset <= next <= end <= |b|
    requires WellFormed(first) && b[offset..next] == EncodeSection(first)
    requires AllWellFormed(rest) && b[next..end] == EncodeSections(rest)
    ensures ss == [first] + rest && ss[1..] == rest
    ensures AllWellFormed(ss) && b[offset..end] == EncodeSections(ss)
  {
    ss := [first] + rest;
    assert ss[1..] == rest;
    JoinWindow(b, offset, next, end);
  }

  /** The body that counts is the document of some Kind 0 section (the last one). */
  lemma MeaningBody(ss: seq<Section>, acc: Content)
    requires AllWellFormed(ss)
    requires acc.body == [] || IsDoc(acc.body)
    ensures Meaning(ss, acc).body == [] || IsDoc(Meaning(ss, acc).body)
    ensures Meaning(ss, acc).body == [] <==> acc.body == [] && !HasBody(ss)
  {
    if ss != [] {
      MeaningBody(ss[1..], Contribute(ss[0], acc));
    }
  }

  /** ss, flags and checksum spell b and mean m. */
  ghost predicate Spells(h: Header, ss: seq<Section>, b: seq<byte>, m: Msg) {
    && m.header == h
    && m.flagBits < TWO_32
    && (m.checksum.Some? <==> m.flagBits % 2 == 1)
    && (m.checksum.Some? ==> m.checksum.value < TWO_32)
    && AllWellFormed(ss)
    && HasBody(ss)
    && b == EncodeBody(m.flagBits, ss, m.checksum)
    && m.content == Meaning(ss, NOTHING)
  }

  lemma BodyParts(b: seq<byte>, flags: seq<byte>, payload: seq<byte>, tail: seq<byte>)
    requires |flags| == 4 && b == flags + payload + tail
    ensures b[..4] == flags && b[4..4 + |payload|] == payload && b[4 + |payload|..] == tail
  {
  }

  /** Every message of the grammar is read back: body, sequences in order, flags and checksum. */
  lemma ParserInvertsEncoder(h: Header, ss: seq<Section>, b: seq<byte>, m: Msg)
    requires Spells(h, ss, b, m)
    ensures ParseBody(h, b) == Ok(m)
  {
    var e := EncodeSections(ss);
    var end := 4 + |e|;
    BodyParts(b, PutLE32(m.flagBits), e, if m.checksum.Some? then PutLE32(m.checksum.value) else []);
    ParseSectionsComplete(b, 4, end, ss, NOTHING);
    MeaningBody(ss, NOTHING);
  }

  /** Whatever is accepted is a message of the grammar: its sections tile the payload exactly. */
  lemma AcceptedIsGrammatical(h: Header, b: seq<byte>) returns (ss: seq<Section>)
    requires ParseBody(h, b).Ok?
    ensures Spells(h, ss, b, ParseBody(h, b).value)
  {
    var end := PayloadEnd(b).value;
    ss := ParseSectionsSound(b, 4, end, NOTHING);
    MeaningBody(ss, NOTHING);
    BodyWindows(b, end);
  }

  lemma BodyWindows(b: seq<byte>, end: nat)
    requires 4 <= |b| && PayloadEnd(b) == Some(end)
    ensures b == PutLE32(LE32(b[..4])) + b[4..end] + if end < |b| then PutLE32(LE32(b[end..])) else []
  {
    PutLE32OfLE32(b[..4]);
    if end < |b| {
      PutLE32OfLE32(b[end..]);
    }
    JoinWindow(b, 0, 4, end);
    JoinWindow(b, 0, end, |b|);
    assert b == b[0..|b|] && b[0..4] == b[..4] && b[end..|b|] == b[end..] && b[0..end] == b[..end];
  }

  /** The parser accepts b as m exactly when b is the encoding of a message that means m. */
  lemma AcceptsExactlyTheGrammar(h: Header, b: seq<byte>, m: Msg)
    ensures ParseBody(h, b) == Ok(m) <==> exists ss :: Spells(h, ss, b, m)
  {
    if ParseBody(h, b) == Ok(m) {
      var ss := AcceptedIsGrammatical(h, b);
    }
    if ss :| Spells(h, ss, b, m) {
      ParserInvertsEncoder(h, ss, b, m);
    }
  }

  // ---------------------------------------------------------------- the imperative reader and writer

  method ReadMsg(r: Reader, h: Header) returns (res: Result<Msg, WireError>)
    requires r.Valid()
    modifies r
    ensures r.Valid()
    ensures (res, r.Rest()) == ReadMsgSpec(h, old(r.Rest()))
  {
    if h.opCode != OP_MSG {
      return Err(NotOpMsg(h.opCode));
    }
    var bodyLen := BodyLength(h);
    if bodyLen.None? {
      return Err(InvalidMessageLength(h.messageLength));
    }
    if bodyLen.value < 4 {
      return Err(BodyTooShort(bodyLen.value));
    }
    var body := new byte[bodyLen.value](_ => 0);
    var err := r.ReadFull(body);
    if err.Some? {
      return Err(Io(err.value));
    }
    res := ParseBuffer(h, body);
  }

  /** ReadMsg after the buffer is filled: flags and checksum, then the section loop. */
  method ParseBuffer(h: Header, body: array<byte>) returns (res: Result<Msg, WireError>)
    requires 4 <= body.Length
    ensures res == ParseBody(h, body[..])
  {
    ghost var b := body[..];
    var flagBits := ReadWord(body, 0);
    assert b[0..4] == b[..4];
    var payloadEnd := body.Length;
    var checksum: Option<nat> := None;
    if flagBits % 2 != 0 {
      if body.Length < 8 {
        return Err(ChecksumTooShort);
      }
      var word := ReadWord(body, body.Length - 4);
      assert b[body.Length - 4..] == b[body.Length - 4..body.Length - 4 + 4];
      checksum := Some(word);
      payloadEnd := body.Length - 4;
    }
    var content := ParseLoop(body, payloadEnd);
    if content.Err? {
      return Err(content.error);
    }
    if content.value.body == [] {
      return Err(MissingBody);
    }
    return Ok(Msg(h, flagBits, content.value, checksum));
  }

  method ParseLoop(body: array<byte>, payloadEnd: nat) returns (res: Result<Content, WireError>)
    requires 4 <= payloadEnd <= body.Length
    ensures res == ParseSections(body[..], 4, payloadEnd, NOTHING)
  {
    ghost var b := body[..];
    var offset := 4;
    var content := NOTHING;
    while offset < payloadEnd
      invariant 4 <= offset <= payloadEnd
      invariant ParseSections(b, offset, payloadEnd, content) == ParseSections(b, 4, payloadEnd, NOTHING)
    {
      var r := ParseOne(body, offset, payloadEnd, content);
      if r.Err? {
        return Err(r.error);
      }
      content, offset := r.value.0, r.value.1;
    }
    return Ok(content);
  }

  /** One turn of the section loop. */
  method ParseOne(body: array<byte>, start: nat, payloadEnd: nat, content: Content)
      returns (res: Result<(Content, nat), WireError>)
    requires start < payloadEnd <= body.Length
    ensures res == ParseSection(body[..], start, payloadEnd, content)
  {
    var kind := body[start];
    var offset := start + 1;
    if kind == SECTION_BODY {
      if payloadEnd < offset + 4 {
        return Err(TruncatedKind0);
      }
      var docLen := ReadWord(body, offset);
      if docLen < 5 || payloadEnd < offset + docLen {
        return Err(InvalidKind0Length(docLen));
      }
      assert body[offset..offset + docLen] == body[..][offset..offset + docLen];
      return Ok((content.(body := body[offset..offset + docLen]), offset + docLen));
    } else if kind == SECTION_DOCUMENT {
      var r := ParseSequence(body, offset, payloadEnd);
      if r.Err? {
        return Err(r.error);
      }
      return Ok((content.(sequences := content.sequences + [r.value.0]), r.value.1));
    } else {
      return Err(UnsupportedKind(kind));
    }
  }

  /** binary.LittleEndian.Uint32(body[at : at+4]). */
  method ReadWord(body: array<byte>, at: nat) returns (n: nat)
    requires at + 4 <= body.Length
    ensures n == LE32(body[..][at..at + 4]) && n < TWO_32
  {
    n := LE32(body[at..at + 4]);
    assert body[at..at + 4] == body[..][at..at + 4];
  }

  /** The Kind 1 case of the section loop; also returns the offset of the section's end. */
  method ParseSequence(body: array<byte>, start: nat, payloadEnd: nat)
      returns (res: Result<(DocumentSequence, nat), WireError>)
    requires start <= payloadEnd <= body.Length
    ensures res == ParseKind1(body[..], start, payloadEnd)
  {
    ghost var b := body[..];
    if payloadEnd < start + 4 {
      return Err(TruncatedKind1);
    }
    var secSize := ReadWord(body, start);
    if secSize < 5 || payloadEnd < start + secSize {
      return Err(InvalidKind1Size(secSize));
    }
    var secEnd := start + secSize;
    var offset := start + 4;
    var idEnd := IndexOfZero(body[..], offset, secEnd);
    if idEnd.None? {
      return Err(MissingIdentifierTerminator);
    }
    var ident := body[offset..idEnd.value];
    assert ident == b[offset..idEnd.value];
    offset := idEnd.value + 1;
    var docs := ParseDocsLoop(body, offset, secEnd);
    if docs.Err? {
      return Err(docs.error);
    }
    return Ok((DocumentSequence(ident, docs.value), secEnd));
  }

  method ParseDocsLoop(body: array<byte>, start: nat, secEnd: nat) returns (res: Result<seq<seq<byte>>, WireError>)
    requires start <= secEnd <= body.Length
    ensures res == ParseDocs(body[..], start, secEnd, [])
  {
    ghost var b := body[..];
    var offset := start;
    var docs: seq<seq<byte>> := [];
    while offset < secEnd
      invariant offset <= secEnd
      invariant ParseDocs(b, offset, secEnd, docs) == ParseDocs(b, start, secEnd, [])
    {
      if secEnd < offset + 4 {
        break;
      }
      var dlen := ReadWord(body, offset);
      if dlen < 5 || secEnd < offset + dlen {
        return Err(InvalidKind1DocLength(dlen));
      }
      assert body[offset..offset + dlen] == b[offset..offset + dlen];
      docs := docs + [body[offset..offset + dlen]];
      offset := offset + dlen;
    }
    return Ok(docs);
  }

  function ReplyHeader(requestID: int32, responseTo: int32, body: seq<byte>): Header {
    Header(ToInt32((MSG_HEADER_SIZE + 5 + |body|) % TWO_32), requestID, responseTo, OP_MSG)
  }

  function EncodeMsg(requestID: int32, responseTo: int32, body: seq<byte>): seq<byte> {
    EncodeHeader(ReplyHeader(requestID, responseTo, body)) + PutLE32(0) + [SECTION_BODY] + body
  }

  /** A reply carries the given request ids and its own length, no flags and one body section. */
  lemma ReplyLayout(requestID: int32, responseTo: int32, body: seq<byte>)
    ensures var e := EncodeMsg(requestID, responseTo, body);
            && |e| == 21 + |body|
            && (|e| < 0x8000_0000 ==> DecodeHeader(e[..16]) == Header(21 + |body|, requestID, responseTo, 2013))
            && e[16..] == [0, 0, 0, 0, 0] + body
  {
    var h := ReplyHeader(requestID, responseTo, body);
    var b := [0, 0, 0, 0, 0] + body;
    assert PutLE32(0) == [0, 0, 0, 0];
    assert EncodeMsg(requestID, responseTo, body) == EncodeHeader(h) + b;
    SplitConcat(EncodeHeader(h), b);
    HeaderBijection(h, EncodeHeader(h));
  }

  method WriteMsg(w: Writer, requestID: int32, responseTo: int32, body: seq<byte>)
    modifies w
    ensures w.out == old(w.out) + EncodeMsg(requestID, responseTo, body)
    ensures var e := w.out[|old(w.out)|..];
            && |e| == 21 + |body|
            && (|e| < 0x8000_0000 ==> DecodeHeader(e[..16]) == Header(21 + |body|, requestID, responseTo, 2013))
            && e[16..] == [0, 0, 0, 0, 0] + body
  {
    var payloadLen := 4 + 1 + |body|;
    var totalLen := MSG_HEADER_SIZE + payloadLen;
    WriteHeader(w, Header(ToInt32(totalLen % TWO_32), requestID, responseTo, OP_MSG));
    w.Write([0, 0, 0, 0]);
    w.Write([SECTION_BODY]);
    w.Write(body);
    assert PutLE32(0) == [0, 0, 0, 0];
    ReplyLayout(requestID, responseTo, body);
    SplitConcat(old(w.out), EncodeMsg(requestID, responseTo, body));
  }

  /** ReadHeader followed by ReadMsg, as the serve loop runs them. */
  function ReadOne(stream: seq<byte>): (Result<Msg, WireError>, seq<byte>) {
    if |stream| < MSG_HEADER_SIZE then (Err(Io(if stream == [] then Eof else UnexpectedEof)), [])
    else ReadMsgSpec(DecodeHeader(stream[..MSG_HEADER_SIZE]), stream[MSG_HEADER_SIZE..])
  }

  /** Reading consumes exactly the bytes its header announces, whatever follows and whatever the verdict. */
  lemma ReadOneFrames(h: Header, b: seq<byte>, rest: seq<byte>)
    requires h.opCode == OP_MSG && h.messageLength as int == MSG_HEADER_SIZE + |b| && 4 <= |b|
    ensures ReadOne(EncodeHeader(h) + (b + rest)) == (ParseBody(h, b), rest)
  {
    SplitConcat(EncodeHeader(h), b + rest);
    SplitConcat(b, rest);
    HeaderBijection(h, EncodeHeader(h));
  }

  /** A written reply is read back, leaving the stream at the next message, exactly when its body is a
      document whose prefix is its length. No body longer than an int32 message can hold is considered. */
  lemma WriteReadRoundTrip(requestID: int32, responseTo: int32, body: seq<byte>, rest: seq<byte>)
    requires MSG_HEADER_SIZE + 5 + |body| < 0x8000_0000
    ensures IsDoc(body) <==>
            ReadOne(EncodeMsg(requestID, responseTo, body) + rest) ==
            (Ok(Msg(Header(21 + |body|, requestID, responseTo, 2013), 0, Content(body, []), None)), rest)
  {
    var h := ReplyHeader(requestID, responseTo, body);
    var b := PutLE32(0) + [SECTION_BODY] + body;
    assert EncodeMsg(requestID, responseTo, body) + rest == EncodeHeader(h) + (b + rest);
    ReadOneFrames(h, b, rest);
    SingleBody(h, b, body);
  }

  lemma SingleSection(body: seq<byte>)
    requires IsDoc(body)
    ensures AllWellFormed([Kind0(body)]) && HasBody([Kind0(body)])
    ensures EncodeSections([Kind0(body)]) == [SECTION_BODY] + body
    ensures Meaning([Kind0(body)], NOTHING) == Content(body, [])
  {
    var ss := [Kind0(body)];
    assert ss[1..] == [];
    assert EncodeSections(ss) == EncodeSection(ss[0]) + EncodeSections([]);
    assert Meaning(ss, NOTHING) == Meaning([], Contribute(ss[0], NOTHING));
  }

  lemma SingleBody(h: Header, b: seq<byte>, body: seq<byte>)
    requires b == PutLE32(0) + [SECTION_BODY] + body
    ensures IsDoc(body) <==> ParseBody(h, b) == Ok(Msg(h, 0, Content(body, []), None))
  {
    var m := Msg(h, 0, Content(body, []), None);
    if IsDoc(body) {
      var ss := [Kind0(body)];
      SingleSection(body);
      ParserInvertsEncoder(h, ss, b, m);
    }
    if ParseBody(h, b) == Ok(m) {
      var ss := AcceptedIsGrammatical(h, b);
      MeaningBody(ss, NOTHING);
    }
  }
}
