/** Bytes, and the 32-bit little-endian words that the file system stores in disk sectors. */
module Bytes {

  type byte = x: int | 0 <= x < 256

  const WORD_SPAN := 0x1_0000_0000

  type uint32 = x: int | 0 <= x < WORD_SPAN
  type int32 = x: int | -0x8000_0000 <= x < 0x8000_0000

  /** The four bytes of an unsigned word, least significant first. */
  function EncodeWord(w: uint32): (b: seq<byte>)
    ensures |b| == 4
  {
    [w % 256, w / 256 % 256, w / 65536 % 256, w / 16777216]
  }

  function DecodeWord(b: seq<byte>): (w: uint32)
    requires |b| == 4
  {
    var b0: int, b1: int, b2: int, b3: int := b[0], b[1], b[2], b[3];
    b0 + 256 * b1 + 65536 * b2 + 16777216 * b3
  }

  lemma WordRoundTrip(w: uint32)
    ensures DecodeWord(EncodeWord(w)) == w
  {
    assert w / 65536 == w / 256 / 256;
    assert w / 16777216 == w / 65536 / 256;
  }

  lemma WordBytes(b: seq<byte>)
    requires |b| == 4
    ensures EncodeWord(DecodeWord(b)) == b
  {
    var w: int, b0: int, b1: int, b2: int, b3: int := DecodeWord(b), b[0], b[1], b[2], b[3];
    assert w / 256 == b1 + 256 * b2 + 65536 * b3;
    assert w / 65536 == b2 + 256 * b3;
    assert w / 16777216 == b3;
  }

  /** Two's complement: the unsigned word that holds a signed identifier. */
  function EncodeId(id: int32): (b: seq<byte>)
    ensures |b| == 4
  {
    EncodeWord(if id < 0 then id + WORD_SPAN else id)
  }

  function DecodeId(b: seq<byte>): (id: int32)
    requires |b| == 4
  {
    var w := DecodeWord(b);
    if w >= 0x8000_0000 then w - WORD_SPAN else w
  }

  lemma IdRoundTrip(id: int32)
    ensures DecodeId(EncodeId(id)) == id
  {
    WordRoundTrip(if id < 0 then id + WORD_SPAN else id);
  }

  lemma IdBytes(b: seq<byte>)
    requires |b| == 4
    ensures EncodeId(DecodeId(b)) == b
  {
    WordBytes(b);
  }
}
