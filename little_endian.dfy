/**
  Little-endian byte order, as used by `u64::from_le_bytes` to read the
  Deposit payload: byte `i` carries weight `256^i`.
 */
module LittleEndian {
  import opened Program

  function Pow256(n: nat): (r: nat)
    ensures r >= 1
  {
    if n == 0 then 1 else 256 * Pow256(n - 1)
  }

  lemma EightBytesSpanUint64()
    ensures Pow256(8) == U64_LIMIT
  {
  }

  /** The number a little-endian byte string denotes, read in Horner form. */
  function FromLeBytes(b: seq<uint8>): (r: nat)
    ensures r < Pow256(|b|)
  {
    if b == [] then 0 else b[0] + 256 * FromLeBytes(b[1..])
  }

  /** The `n` little-endian bytes of a number that fits in them. */
  function ToLeBytes(x: nat, n: nat): (b: seq<uint8>)
    requires x < Pow256(n)
    ensures |b| == n
  {
    if n == 0 then [] else [x % 256] + ToLeBytes(x / 256, n - 1)
  }

  /** Decoding the encoding gives the number back. */
  lemma {:induction false} FromToLeBytes(x: nat, n: nat)
    requires x < Pow256(n)
    ensures FromLeBytes(ToLeBytes(x, n)) == x
  {
    if n > 0 {
      FromToLeBytes(x / 256, n - 1);
      assert ToLeBytes(x, n)[1..] == ToLeBytes(x / 256, n - 1);
    }
  }

  /** Encoding the decoded number gives the bytes back: decoding is one-to-one on byte strings of a given length. */
  lemma {:induction false} ToFromLeBytes(b: seq<uint8>)
    ensures ToLeBytes(FromLeBytes(b), |b|) == b
  {
    if b != [] {
      ToFromLeBytes(b[1..]);
      var x := FromLeBytes(b);
      assert x % 256 == b[0] && x / 256 == FromLeBytes(b[1..]);
    }
  }

  /** The textbook reading: the sum over `i` of `b[i] * 256^i`. */
  function PositionalSum(b: seq<uint8>): nat
  {
    if b == [] then 0 else PositionalSum(b[..|b| - 1]) + b[|b| - 1] * Pow256(|b| - 1)
  }

  lemma {:induction false} FromLeBytesAppend(b: seq<uint8>, last: uint8)
    ensures FromLeBytes(b + [last]) == FromLeBytes(b) + last * Pow256(|b|)
  {
    if b != [] {
      assert (b + [last])[1..] == b[1..] + [last];
      FromLeBytesAppend(b[1..], last);
      calc {
        FromLeBytes(b + [last]);
        b[0] + 256 * FromLeBytes(b[1..] + [last]);
        b[0] + 256 * (FromLeBytes(b[1..]) + last * Pow256(|b| - 1));
        b[0] + 256 * FromLeBytes(b[1..]) + last * (256 * Pow256(|b| - 1));
      }
    }
  }

  /** The Horner reading and the positional sum agree on every byte string. */
  lemma {:induction false} FromLeBytesIsPositionalSum(b: seq<uint8>)
    ensures FromLeBytes(b) == PositionalSum(b)
  {
    if b != [] {
      var init, last := b[..|b| - 1], b[|b| - 1];
      assert b == init + [last];
      FromLeBytesIsPositionalSum(init);
      FromLeBytesAppend(init, last);
    }
  }

  /** `u64::from_le_bytes` on an 8-byte array. */
  function Uint64FromLeBytes(b: seq<uint8>): (r: uint64)
    requires |b| == 8
    ensures r == PositionalSum(b)
  {
    EightBytesSpanUint64();
    FromLeBytesIsPositionalSum(b);
    FromLeBytes(b)
  }

  /** `u64::to_le_bytes`. */
  function Uint64ToLeBytes(x: uint64): (b: seq<uint8>)
    ensures |b| == 8 && Uint64FromLeBytes(b) == x
  {
    EightBytesSpanUint64();
    FromToLeBytes(x, 8);
    ToLeBytes(x, 8)
  }

  /** An 8-byte string is the encoding of the number it decodes to. */
  lemma Uint64LeBytesOneToOne(b: seq<uint8>)
    requires |b| == 8
    ensures Uint64ToLeBytes(Uint64FromLeBytes(b)) == b
  {
    ToFromLeBytes(b);
  }
}
