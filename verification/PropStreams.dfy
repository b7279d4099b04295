/** Bytes in and out: numbers lowest byte first, strings behind their length. */
module PropStreams {
  import opened Basics

  const MAX_STRING := 0xFFFF

  /** The lowest bytes of a number; of a negative one as its two's complement has them. */
  function Bytes(n: int, width: nat): (s: seq<Byte>)
    ensures |s| == width
    decreases width
  {
    if width == 0 then [] else [n % 0x100] + Bytes(n / 0x100, width - 1)
  }

  function U8(n: int): seq<Byte> {
    Bytes(n, 1)
  }

  function U16(n: int): seq<Byte> {
    Bytes(n, 2)
  }

  function U32(n: int): seq<Byte> {
    Bytes(n, 4)
  }

  /** A string; one that is too long is written as an empty one. */
  function StringBytes(s: seq<Byte>): seq<Byte> {
    if |s| > MAX_STRING then U16(0) else U16(|s|) + s
  }

  /** The number that bytes stand for. */
  function Number(s: seq<Byte>): (n: nat)
    ensures |s| == 1 ==> n < 0x100
    ensures |s| == 2 ==> n < 0x1_0000
    ensures |s| == 4 ==> n < 0x1_0000_0000
  {
    if s == [] then 0 else
    var rest := Number(s[1..]);
    assert |s| > 1 ==> s[1..] == [s[1]] + s[2..];
    s[0] + 0x100 * rest
  }

  /** What is written is read back, but for the bits above the width. */
  lemma NumbersReadBack(n: int)
    ensures Number(U8(n)) == n % 0x100
    ensures Number(U16(n)) == n % 0x1_0000
    ensures Number(U32(n)) == n % 0x1_0000_0000
  {
    var n1, n2, n3 := n / 0x100, n / 0x100 / 0x100, n / 0x100 / 0x100 / 0x100;
    LowestByte(n, 4);
    LowestByte(n1, 3);
    LowestByte(n2, 2);
    LowestByte(n3, 1);
    LowestByte(n, 2);
    LowestByte(n1, 1);
    LowestByte(n, 1);
    assert Number([]) == 0;
    Mod32(n);
    Mod24(n1);
    Mod16(n2);
    Mod16(n);
  }

  lemma LowestByte(n: int, width: nat)
    requires width > 0
    ensures Number(Bytes(n, width)) == n % 0x100 + 0x100 * Number(Bytes(n / 0x100, width - 1))
  {
    assert Bytes(n, width)[1..] == Bytes(n / 0x100, width - 1);
  }

  lemma Mod16(n: int)
    ensures n % 0x1_0000 == n % 0x100 + 0x100 * (n / 0x100 % 0x100)
  {
  }

  lemma Mod24(n: int)
    ensures n % 0x100_0000 == n % 0x100 + 0x100 * (n / 0x100 % 0x1_0000)
  {
  }

  lemma Mod32(n: int)
    ensures n % 0x1_0000_0000 == n % 0x100 + 0x100 * (n / 0x100 % 0x100_0000)
  {
  }

  /** The number that the same bits make as a signed one. */
  function I8(n: nat): int
    requires n < 0x100
  {
    if n < 0x80 then n else n - 0x100
  }

  function I32(n: nat): int
    requires n < 0x1_0000_0000
  {
    if n < 0x8000_0000 then n else n - 0x1_0000_0000
  }

  lemma SignedReadBack(n: int)
    ensures -0x80 <= n < 0x80 ==> I8(n % 0x100) == n
    ensures -0x8000_0000 <= n < 0x8000_0000 ==> I32(n % 0x1_0000_0000) == n
  {
  }

  // ---- what a cursor at the front of some bytes finds

  function ReadNumber(s: seq<Byte>, width: nat): Option<(nat, seq<Byte>)> {
    if |s| < width then None else Some((Number(s[..width]), s[width..]))
  }

  function ReadText(s: seq<Byte>): Option<(seq<Byte>, seq<Byte>)> {
    var length := ReadNumber(s, 2);
    if length.None? || |length.value.1| < length.value.0 then None
    else Some((length.value.1[..length.value.0], length.value.1[length.value.0..]))
  }

  lemma NumberAtFront(n: int, rest: seq<Byte>)
    ensures ReadNumber(U8(n) + rest, 1) == Some((n % 0x100, rest))
    ensures ReadNumber(U16(n) + rest, 2) == Some((n % 0x1_0000, rest))
    ensures ReadNumber(U32(n) + rest, 4) == Some((n % 0x1_0000_0000, rest))
  {
    NumbersReadBack(n);
    assert (U8(n) + rest)[..1] == U8(n) && (U16(n) + rest)[..2] == U16(n) && (U32(n) + rest)[..4] == U32(n);
  }

  lemma TextAtFront(t: seq<Byte>, rest: seq<Byte>)
    ensures ReadText(StringBytes(t) + rest) == Some((if |t| > MAX_STRING then [] else t, rest))
  {
    var n := if |t| > MAX_STRING then 0 else |t|;
    var body := if |t| > MAX_STRING then [] else t;
    assert StringBytes(t) + rest == U16(n) + (body + rest);
    NumberAtFront(n, body + rest);
    assert (body + rest)[..n] == body && (body + rest)[n..] == rest;
  }

  // ---- the streams

  class PropWriteStream {
    var buffer: seq<Byte>

    constructor ()
      ensures buffer == []
    {
      buffer := [];
    }

    method Write8(n: int)
      modifies this
      ensures buffer == old(buffer) + U8(n)
    {
      buffer := buffer + U8(n);
    }

    method Write16(n: int)
      modifies this
      ensures buffer == old(buffer) + U16(n)
    {
      buffer := buffer + U16(n);
    }

    method Write32(n: int)
      modifies this
      ensures buffer == old(buffer) + U32(n)
    {
      buffer := buffer + U32(n);
    }

    method WriteString(s: seq<Byte>)
      modifies this
      ensures buffer == old(buffer) + StringBytes(s)
    {
      if |s| > MAX_STRING {
        Write16(0);
        return;
      }
      Write16(|s|);
      buffer := buffer + s;
    }
  }

  class PropStream {
    const bytes: seq<Byte>
    var p: nat

    constructor (bytes: seq<Byte>)
      ensures this.bytes == bytes && Valid() && Rest() == bytes
    {
      this.bytes, p := bytes, 0;
    }

    ghost predicate Valid()
      reads this
    {
      p <= |bytes|
    }

    /** The bytes not read yet. */
    ghost function Rest(): seq<Byte>
      requires Valid()
      reads this
    {
      bytes[p..]
    }

    /** Reads a number of some bytes; if they are not there, nothing is read. */
    method Read(width: nat) returns (n: Option<nat>)
      requires Valid()
      modifies this
      ensures Valid()
      ensures match ReadNumber(old(Rest()), width)
        case Some((k, rest)) => n == Some(k) && Rest() == rest
        case None => n == None && Rest() == old(Rest())
    {
      if |bytes| - p < width {
        return None;
      }
      assert old(Rest())[..width] == bytes[p..p+width];
      n := Some(Number(bytes[p..p+width]));
      p := p + width;
    }

    /** Reads a string; if it is cut off, its length may have been read. */
    method ReadString() returns (s: Option<seq<Byte>>)
      requires Valid()
      modifies this
      ensures Valid()
      ensures match ReadText(old(Rest()))
        case Some((t, rest)) => s == Some(t) && Rest() == rest
        case None => s == None
    {
      var strLen := Read(2);
      if strLen.None? || |bytes| - p < strLen.value {
        return None;
      }
      s := Some(bytes[p..p+strLen.value]);
      assert Rest()[..strLen.value] == s.value;
      p := p + strLen.value;
    }

    method Skip(n: nat) returns (ok: bool)
      requires Valid()
      modifies this
      ensures Valid() && ok == (|old(Rest())| >= n)
      ensures Rest() == if ok then old(Rest())[n..] else old(Rest())
    {
      ok := |bytes| - p >= n;
      if ok {
        p := p + n;
      }
    }
  }
}
