/** Bytes, 32-bit little-endian words and the byte streams the codec reads and writes. */
module Bytes {
  import opened Wrappers

  newtype byte = b: int | 0 <= b < 0x100
  type int32 = x: int | -0x8000_0000 <= x < 0x8000_0000
  const TWO_32 := 0x1_0000_0000

  /** The number a little-endian byte string spells. */
  function FromLE(b: seq<byte>): (n: nat) {
    if b == [] then 0 else b[0] as int + 0x100 * FromLE(b[1..])
  }

  /** The k-byte little-endian spelling of n. */
  function ToLE(n: nat, k: nat): (b: seq<byte>)
    ensures |b| == k
  {
    if k == 0 then [] else [(n % 0x100) as byte] + ToLE(n / 0x100, k - 1)
  }

  function Power256(k: nat): (p: nat)
    ensures 0 < p
  {
    if k == 0 then 1 else 0x100 * Power256(k - 1)
  }

  lemma {:induction false} FromLEToLE(n: nat, k: nat)
    requires n < Power256(k)
    ensures FromLE(ToLE(n, k)) == n
  {
    if k != 0 {
      assert ToLE(n, k)[1..] == ToLE(n / 0x100, k - 1);
      FromLEToLE(n / 0x100, k - 1);
    }
  }

  lemma {:induction false} ToLEFromLE(b: seq<byte>)
    ensures FromLE(b) < Power256(|b|) && ToLE(FromLE(b), |b|) == b
  {
    if b != [] {
      ToLEFromLE(b[1..]);
      assert FromLE(b) % 0x100 == b[0] as int && FromLE(b) / 0x100 == FromLE(b[1..]);
    }
  }

  lemma Power256Of4()
    ensures Power256(4) == TWO_32
  {
    assert Power256(2) == 0x1_0000 && Power256(3) == 0x100_0000;
  }

  /** binary.LittleEndian.Uint32. */
  function LE32(b: seq<byte>): (n: nat)
    requires |b| == 4
    ensures n < TWO_32
  {
    ToLEFromLE(b);
    Power256Of4();
    FromLE(b)
  }

  /** binary.LittleEndian.PutUint32. */
  function PutLE32(n: nat): (b: seq<byte>)
    requires n < TWO_32
    ensures |b| == 4 && LE32(b) == n
  {
    Power256Of4();
    FromLEToLE(n, 4);
    ToLE(n, 4)
  }

  lemma PutLE32OfLE32(b: seq<byte>)
    requires |b| == 4
    ensures PutLE32(LE32(b)) == b
  {
    ToLEFromLE(b);
  }

  /** The Go conversion int32(uint32): two's complement. */
  function ToInt32(n: int): (x: int32)
    requires 0 <= n < TWO_32
    ensures FromInt32(x) == n
  {
    if n < 0x8000_0000 then n else n - TWO_32
  }

  /** The Go conversion uint32(int32). */
  function FromInt32(x: int32): (n: int)
    ensures 0 <= n < TWO_32
  {
    if x < 0 then x + TWO_32 else x
  }

  datatype IoError = Eof | UnexpectedEof

  /** An io.Reader over a fixed stream that never fails other than by ending. */
  class Reader {
    const data: seq<byte>
    var pos: nat

    ghost predicate Valid()
      reads this
    {
      pos <= |data|
    }

    ghost function Rest(): (s: seq<byte>)
      requires Valid()
      reads this
    {
      data[pos..]
    }

    constructor (data: seq<byte>)
      ensures Valid() && Rest() == data
    {
      this.data := data;
      pos := 0;
    }

    /** io.ReadFull: fills buf, or consumes what is left and fails. */
    method ReadFull(buf: array<byte>) returns (err: Option<IoError>)
      requires Valid()
      modifies this, buf
      ensures Valid()
      ensures err.None? <==> buf.Length <= |old(Rest())|
      ensures err.None? ==> buf[..] == old(Rest())[..buf.Length] && Rest() == old(Rest())[buf.Length..]
      ensures err.Some? ==> Rest() == [] && err == Some(if old(Rest()) == [] then Eof else UnexpectedEof)
    {
      var n := |data| - pos;
      if n < buf.Length {
        pos := |data|;
        return Some(if n == 0 then Eof else UnexpectedEof);
      }
      forall i | 0 <= i < buf.Length {
        buf[i] := data[pos + i];
      }
      assert buf[..] == data[pos..][..buf.Length];
      pos := pos + buf.Length;
      return None;
    }
  }

  /** An io.Writer that never fails. */
  class Writer {
    var out: seq<byte>

    constructor ()
      ensures out == []
    {
      out := [];
    }

    method Write(b: seq<byte>)
      modifies this
      ensures out == old(out) + b
    {
      out := out + b;
    }
  }

  /** A window that spells x + y splits into a window for each. */
  lemma SplitWindow(b: seq<byte>, from: nat, end: nat, x: seq<byte>, y: seq<byte>)
    requires from <= end <= |b| && b[from..end] == x + y
    ensures from + |x| <= end && b[from..from + |x|] == x && b[from + |x|..end] == y
  {
    var w := b[from..end];
    assert b[from..from + |x|] == w[..|x|];
    assert b[from + |x|..end] == w[|x|..];
  }

  lemma SplitConcat(x: seq<byte>, y: seq<byte>)
    ensures (x + y)[..|x|] == x && (x + y)[|x|..] == y
  {
  }

  lemma JoinWindow(b: seq<byte>, from: nat, mid: nat, end: nat)
    requires from <= mid <= end <= |b|
    ensures b[from..end] == b[from..mid] + b[mid..end]
  {
  }
}
