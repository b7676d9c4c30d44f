/** Bytes as numbers and as bit patterns. */
module Bytes {

  type Byte = x: int | 0 <= x < 256

  /** Bit patterns as bytes on the wire. */
  function Wire(bits: seq<bv8>): seq<Byte> {
    seq(|bits|, n requires 0 <= n < |bits| => bits[n] as int)
  }

  function Patterns(bytes: seq<Byte>): seq<bv8> {
    seq(|bytes|, n requires 0 <= n < |bytes| => bytes[n] as bv8)
  }

  lemma PatternRoundTrip(b: bv8)
    ensures (b as int) as bv8 == b
  {
  }

  lemma WireRoundTrip(bits: seq<bv8>)
    ensures Patterns(Wire(bits)) == bits
  {
    forall n | 0 <= n < |bits| ensures Patterns(Wire(bits))[n] == bits[n] {
      PatternRoundTrip(bits[n]);
    }
  }
}
