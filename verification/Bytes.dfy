/** Little-endian scalars in byte buffers. */
module Bytes {

  type byte = x: int | 0 <= x < 256

  predicate IsU16(v: int) {
    0 <= v < 0x1_0000
  }

  predicate IsU32(v: int) {
    0 <= v < 0x1_0000_0000
  }

  function Le16(v: nat): (b: seq<byte>)
    requires IsU16(v)
    ensures |b| == 2
  {
    [v % 256, v / 256]
  }

  function Le32(v: nat): (b: seq<byte>)
    requires IsU32(v)
    ensures |b| == 4
  {
    [v % 256, v / 256 % 256, v / 0x1_0000 % 256, v / 0x100_0000]
  }

  function U16At(bytes: seq<byte>, offset: nat): (v: nat)
    requires offset + 2 <= |bytes|
    ensures IsU16(v)
  {
    bytes[offset] as int + bytes[offset + 1] as int * 256
  }

  function U32At(bytes: seq<byte>, offset: nat): (v: nat)
    requires offset + 4 <= |bytes|
    ensures IsU32(v)
  {
    bytes[offset] as int + bytes[offset + 1] as int * 256 + bytes[offset + 2] as int * 0x1_0000
    + bytes[offset + 3] as int * 0x100_0000
  }

  lemma Le32Value(v: nat)
    requires IsU32(v)
    ensures var b := Le32(v); b[0] as int + b[1] as int * 256 + b[2] as int * 0x1_0000 + b[3] as int * 0x100_0000 == v
  {
    var a, b, c := v / 256, v / 0x1_0000, v / 0x100_0000;
    assert a == b * 256 + a % 256 by { assert b == a / 256; }
    assert b == c * 256 + b % 256 by { assert c == b / 256; }
  }

  lemma Read16(bytes: seq<byte>, offset: nat, v: nat)
    requires IsU16(v) && offset + 2 <= |bytes| && bytes[offset..offset + 2] == Le16(v)
    ensures U16At(bytes, offset) == v
  {
    assert bytes[offset] == bytes[offset..offset + 2][0] && bytes[offset + 1] == bytes[offset..offset + 2][1];
  }

  lemma Read32(bytes: seq<byte>, offset: nat, v: nat)
    requires IsU32(v) && offset + 4 <= |bytes| && bytes[offset..offset + 4] == Le32(v)
    ensures U32At(bytes, offset) == v
  {
    var b := bytes[offset..offset + 4];
    assert bytes[offset] == b[0] && bytes[offset + 1] == b[1] && bytes[offset + 2] == b[2] && bytes[offset + 3] == b[3];
    Le32Value(v);
  }

  /** A buffer with `data` written over it at `offset`. */
  function Place(buffer: seq<byte>, offset: nat, data: seq<byte>): (r: seq<byte>)
    requires offset + |data| <= |buffer|
    ensures |r| == |buffer| && r[offset..offset + |data|] == data
  {
    buffer[..offset] + data + buffer[offset + |data|..]
  }

  /** A slice that the data does not meet stays as it was. */
  lemma PlaceKeeps(buffer: seq<byte>, offset: nat, data: seq<byte>, from: nat, to: nat)
    requires offset + |data| <= |buffer| && from <= to <= |buffer| && (to <= offset || offset + |data| <= from)
    ensures Place(buffer, offset, data)[from..to] == buffer[from..to]
  {
    forall i | from <= i < to
      ensures Place(buffer, offset, data)[i] == buffer[i]
    {}
  }

  /** Writing on where the last write ended. */
  lemma PlaceNext(buffer: seq<byte>, offset: nat, first: seq<byte>, second: seq<byte>)
    requires offset + |first| + |second| <= |buffer|
    ensures Place(Place(buffer, offset, first), offset + |first|, second) == Place(buffer, offset, first + second)
  {}

  method WriteAt(buffer: array<byte>, offset: nat, data: seq<byte>)
    requires offset + |data| <= buffer.Length
    modifies buffer
    ensures buffer[..] == Place(old(buffer[..]), offset, data)
  {
    for k := 0 to |data|
      invariant buffer[..] == Place(old(buffer[..]), offset, data[..k])
    {
      buffer[offset + k] := data[k];
      assert data[..k + 1] == data[..k] + [data[k]];
    }
    assert data[..|data|] == data;
  }
}
