/** The byte cursor the class-file decoder reads from: an immutable buffer,
    a position, and big-endian reads of 8, 16 and 32 bits that advance it.
    The pure `Decode*` functions say what each read yields; the class
    `ClassReader` performs the reads in place and is proved against them. */
module Reader {
  import opened Wrappers

  /** One byte of the class-file buffer. */
  type byte = x: int | 0 <= x < 0x100

  /** A value decoded from a buffer and the position just past it. */
  datatype Decoded<+T> = Decoded(value: T, next: nat)

  /** The unsigned 16-bit big-endian number stored at `pos`. */
  function BigEndian16(data: seq<byte>, pos: nat): (v: nat)
    requires pos + 2 <= |data|
    ensures v < 0x1_0000
  {
    data[pos] as int * 0x100 + data[pos + 1]
  }

  /** The unsigned 32-bit big-endian number stored at `pos`. */
  function BigEndian32(data: seq<byte>, pos: nat): (v: nat)
    requires pos + 4 <= |data|
    ensures v < 0x1_0000_0000
  {
    BigEndian16(data, pos) * 0x1_0000 + BigEndian16(data, pos + 2)
  }

  function DecodeU8(data: seq<byte>, pos: nat): (r: Result<Decoded<nat>>)
    ensures r.Ok? <==> pos < |data|
    ensures r.Ok? ==> r.value.value < 0x100 && r.value.next == pos + 1
    ensures r.Err? ==> r.error == UnexpectedEof
  {
    if pos < |data| then Ok(Decoded(data[pos], pos + 1)) else Err(UnexpectedEof)
  }

  function DecodeU16(data: seq<byte>, pos: nat): (r: Result<Decoded<nat>>)
    ensures r.Ok? <==> pos + 2 <= |data|
    ensures r.Ok? ==> r.value.value < 0x1_0000 && r.value.next == pos + 2
    ensures r.Err? ==> r.error == UnexpectedEof
  {
    if pos + 2 <= |data| then Ok(Decoded(BigEndian16(data, pos), pos + 2)) else Err(UnexpectedEof)
  }

  function DecodeU32(data: seq<byte>, pos: nat): (r: Result<Decoded<nat>>)
    ensures r.Ok? <==> pos + 4 <= |data|
    ensures r.Ok? ==> r.value.value < 0x1_0000_0000 && r.value.next == pos + 4
    ensures r.Err? ==> r.error == UnexpectedEof
  {
    if pos + 4 <= |data| then Ok(Decoded(BigEndian32(data, pos), pos + 4)) else Err(UnexpectedEof)
  }

  /** The `n` raw bytes starting at `pos`. */
  function DecodeBytes(data: seq<byte>, pos: nat, n: nat): (r: Result<Decoded<seq<byte>>>)
    ensures r.Ok? <==> pos + n <= |data|
    ensures r.Ok? ==> |r.value.value| == n && r.value.next == pos + n
    ensures r.Err? ==> r.error == UnexpectedEof
  {
    if pos + n <= |data| then Ok(Decoded(data[pos..pos + n], pos + n)) else Err(UnexpectedEof)
  }

  // Encoders: the inverse of the reads, used to state what a layout decodes to.

  function EncodeU16(v: nat): (b: seq<byte>)
    requires v < 0x1_0000
    ensures |b| == 2
  {
    [v / 0x100, v % 0x100]
  }

  function EncodeU32(v: nat): (b: seq<byte>)
    requires v < 0x1_0000_0000
    ensures |b| == 4
  {
    EncodeU16(v / 0x1_0000) + EncodeU16(v % 0x1_0000)
  }

  /** Reading back an encoded 16-bit number yields that number. */
  lemma U16RoundTrip(data: seq<byte>, pos: nat, v: nat)
    requires v < 0x1_0000 && pos + 2 <= |data|
    requires data[pos..pos + 2] == EncodeU16(v)
    ensures DecodeU16(data, pos) == Ok(Decoded(v, pos + 2))
  {
    assert data[pos] == EncodeU16(v)[0] && data[pos + 1] == EncodeU16(v)[1];
  }

  /** Reading back an encoded 32-bit number yields that number. */
  lemma U32RoundTrip(data: seq<byte>, pos: nat, v: nat)
    requires v < 0x1_0000_0000 && pos + 4 <= |data|
    requires data[pos..pos + 4] == EncodeU32(v)
    ensures DecodeU32(data, pos) == Ok(Decoded(v, pos + 4))
  {
    assert data[pos..pos + 2] == data[pos..pos + 4][..2];
    assert data[pos + 2..pos + 4] == data[pos..pos + 4][2..];
    U16RoundTrip(data, pos, v / 0x1_0000);
    U16RoundTrip(data, pos + 2, v % 0x1_0000);
  }

  /** A byte range holding `a + b` holds `a`, then `b`. */
  lemma SplitAt(data: seq<byte>, pos: nat, a: seq<byte>, b: seq<byte>)
    requires pos + |a| + |b| <= |data| && data[pos..pos + |a| + |b|] == a + b
    ensures data[pos..pos + |a|] == a && data[pos + |a|..pos + |a| + |b|] == b
  {
    assert data[pos..pos + |a|] == data[pos..pos + |a| + |b|][..|a|];
    assert data[pos + |a|..pos + |a| + |b|] == data[pos..pos + |a| + |b|][|a|..];
  }

  /** A cursor over an immutable buffer. */
  class ClassReader {
    const data: seq<byte>
    var pos: nat

    ghost predicate Valid()
      reads this
    {
      pos <= |data|
    }

    constructor (bytes: seq<byte>)
      ensures Valid() && data == bytes && pos == 0
    {
      data := bytes;
      pos := 0;
    }

    /** The total length of the buffer, whatever has been read. */
    function Length(): nat
    {
      |data|
    }

    /** `r` and the current position are what `spec` decoded from the
        position the read started at; on failure `r` carries the same error. */
    ghost predicate Consumed<T>(r: Result<T>, spec: Result<Decoded<T>>)
      reads this
    {
      match spec
      case Ok(d) => r == Ok(d.value) && pos == d.next
      case Err(e) => r == Err(e)
    }

    method ReadUint8() returns (r: Result<nat>)
      requires Valid()
      modifies this`pos
      ensures Valid() && Consumed(r, DecodeU8(data, old(pos)))
      ensures r.Err? ==> pos == old(pos)
    {
      if pos + 1 > |data| {
        return Err(UnexpectedEof);
      }
      r := Ok(data[pos]);
      pos := pos + 1;
    }

    method ReadUint16() returns (r: Result<nat>)
      requires Valid()
      modifies this`pos
      ensures Valid() && Consumed(r, DecodeU16(data, old(pos)))
      ensures r.Err? ==> pos == old(pos)
    {
      if pos + 2 > |data| {
        return Err(UnexpectedEof);
      }
      r := Ok(data[pos] as int * 0x100 + data[pos + 1]);
      pos := pos + 2;
    }

    method ReadUint32() returns (r: Result<nat>)
      requires Valid()
      modifies this`pos
      ensures Valid() && Consumed(r, DecodeU32(data, old(pos)))
      ensures r.Err? ==> pos == old(pos)
    {
      if pos + 4 > |data| {
        return Err(UnexpectedEof);
      }
      var high: nat := data[pos] as int * 0x100 + data[pos + 1];
      var low: nat := data[pos + 2] as int * 0x100 + data[pos + 3];
      r := Ok(high * 0x1_0000 + low);
      pos := pos + 4;
    }

    method ReadBytes(n: nat) returns (r: Result<seq<byte>>)
      requires Valid()
      modifies this`pos
      ensures Valid() && Consumed(r, DecodeBytes(data, old(pos), n))
      ensures r.Err? ==> pos == old(pos)
    {
      if pos + n > |data| {
        return Err(UnexpectedEof);
      }
      r := Ok(data[pos..pos + n]);
      pos := pos + n;
    }

    /** Moves past `n` bytes that a collaborator has decoded. */
    method Skip(n: nat)
      requires Valid() && pos + n <= |data|
      modifies this`pos
      ensures Valid() && pos == old(pos) + n
    {
      pos := pos + n;
    }
  }
}
