/** Bytes, and reading and writing a range of a buffer. */
module Buffers {
  type Byte = x: int | 0 <= x < 256
  type Bytes = seq<Byte>

  function Slice(data: Bytes, at: nat, len: nat): Bytes
    requires at + len <= |data|
  {
    data[at..at + len]
  }

  /** memcpy of `bytes` to data + at */
  function Write(data: Bytes, at: nat, bytes: Bytes): (r: Bytes)
    requires at + |bytes| <= |data|
    ensures |r| == |data|
  {
    data[..at] + bytes + data[at + |bytes|..]
  }

  lemma ReadWritten(data: Bytes, at: nat, bytes: Bytes)
    requires at + |bytes| <= |data|
    ensures Slice(Write(data, at, bytes), at, |bytes|) == bytes
  {
  }

  lemma ReadElsewhere(data: Bytes, at: nat, bytes: Bytes, from: nat, len: nat)
    requires at + |bytes| <= |data| && from + len <= |data|
    requires from + len <= at || at + |bytes| <= from
    ensures Slice(Write(data, at, bytes), from, len) == Slice(data, from, len)
  {
  }
}
