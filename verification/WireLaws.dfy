/** The wire layout byte by byte: where each field of a message stands and what it spells. */
module WireLaws {
  import opened Wrappers
  import opened Bytes
  import opened WireHeader
  import opened WireMsg

  /** The unsigned little-endian word at an offset. */
  function Word(b: seq<byte>, at: nat): nat
    requires at + 4 <= |b|
  {
    b[at] as nat + 256 * b[at + 1] as nat + 65536 * b[at + 2] as nat + 16777216 * b[at + 3] as nat
  }

  /** The same word, read as a signed one. */
  function Signed(b: seq<byte>, at: nat): int
    requires at + 4 <= |b|
  {
    if 2147483648 <= Word(b, at) then Word(b, at) - 4294967296 else Word(b, at)
  }

  lemma WordIsLE32(b: seq<byte>, at: nat)
    requires at + 4 <= |b|
    ensures LE32(b[at..at + 4]) == Word(b, at)
  {
    var w := b[at..at + 4];
    assert FromLE(w[1..][1..][1..]) == w[3] as int + 0x100 * FromLE([]) by {
      assert w[1..][1..][1..] == [w[3]];
    }
    assert w[1..][1..][0] == w[2] && w[1..][0] == w[1];
    assert FromLE(w[1..][1..]) == w[2] as int + 0x100 * FromLE(w[1..][1..][1..]);
    assert FromLE(w[1..]) == w[1] as int + 0x100 * FromLE(w[1..][1..]);
  }

  /** A header is messageLength, requestID, responseTo and opCode, in this order, little-endian and signed. */
  lemma HeaderLayout(b: seq<byte>)
    requires |b| == 16
    ensures DecodeHeader(b).messageLength == Signed(b, 0)
    ensures DecodeHeader(b).requestID == Signed(b, 4)
    ensures DecodeHeader(b).responseTo == Signed(b, 8)
    ensures DecodeHeader(b).opCode == Signed(b, 12)
  {
    WordIsLE32(b, 0);
    WordIsLE32(b, 4);
    WordIsLE32(b, 8);
    WordIsLE32(b, 12);
  }

  /** Headers that are refused before any section is read, and what is left of the stream. */
  lemma RefusedHeaders(b: seq<byte>, rest: seq<byte>)
    requires |b| == 16
    ensures Signed(b, 12) != 2013 ==> ReadOne(b + rest) == (Err(NotOpMsg(Signed(b, 12))), rest)
    ensures Signed(b, 12) == 2013 && Signed(b, 0) < 16 ==>
              ReadOne(b + rest) == (Err(InvalidMessageLength(Signed(b, 0))), rest)
    ensures Signed(b, 12) == 2013 && 16 <= Signed(b, 0) < 20 ==>
              ReadOne(b + rest) == (Err(BodyTooShort(Signed(b, 0) - 16)), rest)
    ensures Signed(b, 12) == 2013 && 20 <= Signed(b, 0) && |rest| < Signed(b, 0) - 16 ==>
              ReadOne(b + rest) == (Err(Io(if rest == [] then Eof else UnexpectedEof)), [])
  {
    SplitConcat(b, rest);
    HeaderLayout(b);
  }

  // ---------------------------------------------------------------- sections

  predicate IsDocument(d: seq<byte>) {
    5 <= |d| && Word(d, 0) == |d|
  }

  lemma DocumentLayout(d: seq<byte>)
    ensures IsDoc(d) <==> IsDocument(d)
  {
    if 4 <= |d| {
      WordIsLE32(d, 0);
      assert d[0..4] == d[..4];
    }
  }

  lemma {:induction false} DocumentsLayout(docs: seq<seq<byte>>)
    ensures AllDocs(docs) <==> forall i | 0 <= i < |docs| :: IsDocument(docs[i])
  {
    if docs != [] {
      DocumentLayout(docs[0]);
      DocumentsLayout(docs[1..]);
      assert forall i | 0 <= i < |docs| - 1 :: docs[1..][i] == docs[i + 1];
      assert forall i | 1 <= i < |docs| :: docs[i] == docs[1..][i - 1];
    }
  }

  lemma SplitTag(tag: byte, size: seq<byte>, content: seq<byte>)
    requires |size| == 4
    ensures var e := [tag] + (size + content);
            |e| == 5 + |content| && e[0] == tag && e[1..5] == size && e[5..] == content
  {
  }

  /** A section is its kind byte, 0 or 1, and its content; the size of a kind 1 section counts itself, the
      identifier with its zero, the documents and what trails them. */
  lemma SectionLayout(s: Section)
    requires WellFormed(s)
    ensures s.Kind0? ==> EncodeSection(s) == [0] + s.doc && IsDocument(s.doc)
    ensures s.Kind1? ==>
              var e := EncodeSection(s);
              && 5 <= |e| && e[0] == 1 && Word(e, 1) == |e| - 1
              && e[5..] == s.identifier + ([0] + (Flatten(s.documents) + s.slack))
              && 0 !in s.identifier && |s.slack| < 4
              && forall i | 0 <= i < |s.documents| :: IsDocument(s.documents[i])
  {
    if s.Kind0? {
      DocumentLayout(s.doc);
    } else {
      var e := EncodeSection(s);
      DocumentsLayout(s.documents);
      SplitTag(1, PutLE32(Kind1Size(s)), s.identifier + ([0] + (Flatten(s.documents) + s.slack)));
      WordIsLE32(e, 1);
    }
  }

  // ---------------------------------------------------------------- what an accepted message is

  /** The document sequences, in order. */
  function Sequences(ss: seq<Section>): seq<DocumentSequence> {
    if ss == [] then []
    else if ss[|ss| - 1].Kind0? then Sequences(ss[..|ss| - 1])
    else Sequences(ss[..|ss| - 1]) + [DocumentSequence(ss[|ss| - 1].identifier, ss[|ss| - 1].documents)]
  }

  /** The document of the last kind 0 section, if there is one. */
  function LastBody(ss: seq<Section>): seq<byte> {
    if ss == [] then []
    else if ss[|ss| - 1].Kind0? then ss[|ss| - 1].doc
    else LastBody(ss[..|ss| - 1])
  }

  lemma MeaningSnoc(ss: seq<Section>, s: Section, acc: Content)
    ensures Meaning(ss + [s], acc) == Contribute(s, Meaning(ss, acc))
  {
    if ss == [] {
      assert (ss + [s])[1..] == [];
    } else {
      assert (ss + [s])[1..] == ss[1..] + [s];
      MeaningSnoc(ss[1..], s, Contribute(ss[0], acc));
    }
  }

  lemma {:induction false} ContentOfSections(ss: seq<Section>)
    ensures Meaning(ss, NOTHING) == Content(LastBody(ss), Sequences(ss))
  {
    if ss != [] {
      assert ss == ss[..|ss| - 1] + [ss[|ss| - 1]];
      MeaningSnoc(ss[..|ss| - 1], ss[|ss| - 1], NOTHING);
      ContentOfSections(ss[..|ss| - 1]);
    }
  }

  /** The payload after the flag bits: without the last four bytes if the lowest flag bit says that they are
      a checksum. */
  predicate Framed(b: seq<byte>, payload: seq<byte>, checksum: Option<nat>)
    requires 4 <= |b|
  {
    if b[0] % 2 == 1 then 8 <= |b| && payload == b[4..|b| - 4] && checksum == Some(Word(b, |b| - 4))
    else payload == b[4..] && checksum == None
  }

  lemma FramedIsEncoded(b: seq<byte>, ss: seq<Section>, checksum: Option<nat>)
    requires 4 <= |b| && AllWellFormed(ss) && Framed(b, EncodeSections(ss), checksum)
    ensures b == EncodeBody(Word(b, 0), ss, checksum)
  {
    var end := if b[0] % 2 == 1 then |b| - 4 else |b|;
    WordIsLE32(b, 0);
    assert b[0..4] == b[..4];
    BodyWindows(b, end);
    if b[0] % 2 == 1 {
      WordIsLE32(b, end);
      assert b[end..end + 4] == b[end..];
    } else {
      assert b[4..end] == b[4..];
    }
  }

  lemma EncodedIsFramed(flagBits: nat, ss: seq<Section>, checksum: Option<nat>, b: seq<byte>)
    requires flagBits < TWO_32 && (checksum.Some? ==> checksum.value < TWO_32) && AllWellFormed(ss)
    requires checksum.Some? <==> flagBits % 2 == 1
    requires b == EncodeBody(flagBits, ss, checksum)
    ensures Word(b, 0) == flagBits && Framed(b, EncodeSections(ss), checksum)
  {
    var e := EncodeSections(ss);
    BodyParts(b, PutLE32(flagBits), e, if checksum.Some? then PutLE32(checksum.value) else []);
    assert b[0..4] == b[..4];
    WordIsLE32(b, 0);
    if checksum.Some? {
      assert b[|b| - 4..|b|] == b[4 + |e|..];
      WordIsLE32(b, |b| - 4);
    }
  }

  /** Sections tile what stands between the flag bits and the checksum; the body is the last kind 0 section
      and the sequences are the kind 1 sections in order. */
  ghost predicate Reads(h: Header, ss: seq<Section>, b: seq<byte>, m: Msg) {
    && AllWellFormed(ss) && LastBody(ss) != []
    && 4 <= |b| && Framed(b, EncodeSections(ss), m.checksum)
    && m == Msg(h, Word(b, 0), Content(LastBody(ss), Sequences(ss)), m.checksum)
  }

  lemma ReadsSpells(h: Header, ss: seq<Section>, b: seq<byte>, m: Msg)
    requires Reads(h, ss, b, m)
    ensures Spells(h, ss, b, m)
  {
    ContentOfSections(ss);
    MeaningBody(ss, NOTHING);
    FramedIsEncoded(b, ss, m.checksum);
  }

  lemma SpellsReads(h: Header, ss: seq<Section>, b: seq<byte>, m: Msg)
    requires Spells(h, ss, b, m)
    ensures Reads(h, ss, b, m)
  {
    ContentOfSections(ss);
    MeaningBody(ss, NOTHING);
    EncodedIsFramed(m.flagBits, ss, m.checksum, b);
  }

  /** The parser accepts exactly the messages so described. */
  lemma AcceptedExactly(h: Header, b: seq<byte>, m: Msg)
    ensures ParseBody(h, b) == Ok(m) <==> exists ss :: Reads(h, ss, b, m)
  {
    AcceptsExactlyTheGrammar(h, b, m);
    forall ss ensures Reads(h, ss, b, m) <==> Spells(h, ss, b, m) {
      if Reads(h, ss, b, m) {
        ReadsSpells(h, ss, b, m);
      } else if Spells(h, ss, b, m) {
        SpellsReads(h, ss, b, m);
      }
    }
  }
}
