/** The 16-byte message header of the MongoDB wire protocol. */
module WireHeader {
  import opened Wrappers
  import opened Bytes

  const MSG_HEADER_SIZE := 16

  datatype Header = Header(messageLength: int32, requestID: int32, responseTo: int32, opCode: int32)

  /** Bytes after the header; None when messageLength is shorter than the header itself. */
  function BodyLength(h: Header): (n: Option<nat>)
    ensures n.Some? ==> n.value + MSG_HEADER_SIZE == h.messageLength
    ensures n.None? ==> h.messageLength < MSG_HEADER_SIZE
  {
    if h.messageLength < MSG_HEADER_SIZE then None else Some(h.messageLength - MSG_HEADER_SIZE)
  }

  function EncodeHeader(h: Header): (b: seq<byte>)
    ensures |b| == MSG_HEADER_SIZE
  {
    PutLE32(FromInt32(h.messageLength)) + PutLE32(FromInt32(h.requestID)) +
    PutLE32(FromInt32(h.responseTo)) + PutLE32(FromInt32(h.opCode))
  }

  function DecodeHeader(b: seq<byte>): (h: Header)
    requires |b| == MSG_HEADER_SIZE
  {
    Header(ToInt32(LE32(b[0..4])), ToInt32(LE32(b[4..8])), ToInt32(LE32(b[8..12])), ToInt32(LE32(b[12..16])))
  }

  /** Headers and 16-byte strings are in bijection: nothing is lost either way, negative words included. */
  lemma HeaderBijection(h: Header, b: seq<byte>)
    requires |b| == MSG_HEADER_SIZE
    ensures DecodeHeader(EncodeHeader(h)) == h
    ensures EncodeHeader(DecodeHeader(b)) == b
  {
    var e := EncodeHeader(h);
    assert e[0..4] == PutLE32(FromInt32(h.messageLength));
    assert e[4..8] == PutLE32(FromInt32(h.requestID));
    assert e[8..12] == PutLE32(FromInt32(h.responseTo));
    assert e[12..16] == PutLE32(FromInt32(h.opCode));
    PutLE32OfLE32(b[0..4]);
    PutLE32OfLE32(b[4..8]);
    PutLE32OfLE32(b[8..12]);
    PutLE32OfLE32(b[12..16]);
    assert b == b[0..4] + b[4..8] + b[8..12] + b[12..16];
  }

  method PutUint32(buf: array<byte>, at: nat, n: nat)
    requires at + 4 <= buf.Length && n < TWO_32
    modifies buf
    ensures buf[..] == old(buf[..at]) + PutLE32(n) + old(buf[at + 4..])
  {
    buf[at] := (n % 0x100) as byte;
    buf[at + 1] := (n / 0x100 % 0x100) as byte;
    buf[at + 2] := (n / 0x1_0000 % 0x100) as byte;
    buf[at + 3] := (n / 0x100_0000) as byte;
    assert ToLE(n, 4) == [(n % 0x100) as byte] + ToLE(n / 0x100, 3);
  }

  method ReadHeader(r: Reader) returns (res: Result<Header, IoError>)
    requires r.Valid()
    modifies r
    ensures r.Valid()
    ensures res.Ok? <==> MSG_HEADER_SIZE <= |old(r.Rest())|
    ensures res.Ok? ==> res.value == DecodeHeader(old(r.Rest())[..MSG_HEADER_SIZE])
                        && r.Rest() == old(r.Rest())[MSG_HEADER_SIZE..]
    ensures res.Err? ==> res.error == (if old(r.Rest()) == [] then Eof else UnexpectedEof) && r.Rest() == []
  {
    var buf := new byte[MSG_HEADER_SIZE](_ => 0);
    var err := r.ReadFull(buf);
    if err.Some? {
      return Err(err.value);
    }
    res := Ok(Header(ToInt32(LE32(buf[0..4])), ToInt32(LE32(buf[4..8])),
                     ToInt32(LE32(buf[8..12])), ToInt32(LE32(buf[12..16]))));
    ghost var b := buf[..];
    assert buf[0..4] == b[0..4] && buf[4..8] == b[4..8] && buf[8..12] == b[8..12] && buf[12..16] == b[12..16];
  }

  method WriteHeader(w: Writer, h: Header)
    modifies w
    ensures w.out == old(w.out) + EncodeHeader(h)
  {
    var buf := new byte[MSG_HEADER_SIZE](_ => 0);
    PutUint32(buf, 0, FromInt32(h.messageLength));
    PutUint32(buf, 4, FromInt32(h.requestID));
    PutUint32(buf, 8, FromInt32(h.responseTo));
    PutUint32(buf, 12, FromInt32(h.opCode));
    assert buf[..] == EncodeHeader(h);
    w.Write(buf[..]);
  }
}
