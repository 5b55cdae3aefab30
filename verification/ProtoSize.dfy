/**
 The wire size of a transaction in a block's Data message, whose transactions are the field
 `repeated bytes txs = 1`, and the encoding it measures: the sections "Base 128 Varints" and
 "Length-Delimited Records" of the Protocol Buffers Encoding guide.
 */
module ProtoSize {
  import opened Common

  /** bits.Len64: the number of bits needed for x. */
  function BitLen(x: nat): (n: nat) { if x == 0 then 0 else 1 + BitLen(x / 2) }

  /** x | 1 */
  function OrOne(x: nat): (y: nat) { x / 2 * 2 + 1 }

  function SovLen(x: nat): (n: nat) { (BitLen(OrOne(x)) + 6) / 7 }

  function ProtoSizeForTx(bz: Bytes): (n: nat) { 1 + SovLen(|bz|) + |bz| }

  function TotalProtoSize(txs: seq<Bytes>): (n: nat) {
    if txs == [] then 0 else ProtoSizeForTx(txs[0]) + TotalProtoSize(txs[1..])
  }

  // ---------------------------------------------------------------------------------------
  // The encoding

  function Varint(x: nat): (s: Bytes)
    ensures s != []
  {
    if x < 128 then [x] else [x % 128 + 128] + Varint(x / 128)
  }

  /** Field 1, wire type 2. */
  const TXS_TAG: Byte := 0x0a

  function Record(bz: Bytes): (s: Bytes) { [TXS_TAG] + Varint(|bz|) + bz }

  function EncodeTxs(txs: seq<Bytes>): (s: Bytes) {
    if txs == [] then [] else Record(txs[0]) + EncodeTxs(txs[1..])
  }

  /** Reads a varint: its value and how many bytes it took. */
  function ReadVarint(s: Bytes): (r: Option<(nat, nat)>)
    ensures r.Some? ==> 0 < r.value.1 <= |s|
  {
    if s == [] then None
    else if s[0] < 128 then Some((s[0], 1))
    else
      var rest := ReadVarint(s[1..]);
      if rest.None? then None
      else Some((s[0] - 128 + 128 * rest.value.0, 1 + rest.value.1))
  }

  function DecodeTxs(s: Bytes): (r: Option<seq<Bytes>>)
    decreases |s|
  {
    if s == [] then Some([])
    else if s[0] != TXS_TAG then None
    else
      var len := ReadVarint(s[1..]);
      if len.None? || 1 + len.value.1 + len.value.0 > |s| then None
      else
        var start := 1 + len.value.1;
        var rest := DecodeTxs(s[start + len.value.0..]);
        if rest.None? then None
        else Some([s[start..start + len.value.0]] + rest.value)
  }

  // ---------------------------------------------------------------------------------------
  // The size is the length of the encoding

  lemma BitLenOrOne(x: nat)
    requires x > 0
    ensures BitLen(OrOne(x)) == BitLen(x)
  {
    assert OrOne(x) / 2 == x / 2;
  }

  function Pow2(n: nat): (p: nat) { if n == 0 then 1 else 2 * Pow2(n - 1) }

  lemma {:induction false} BitLenBound(x: nat, n: nat)
    requires x < Pow2(n)
    ensures BitLen(x) <= n
  {
    if x > 0 { BitLenBound(x / 2, n - 1); }
  }

  lemma BitLenQuarter(x: nat)
    requires x >= 4
    ensures BitLen(x) == 2 + BitLen(x / 4)
  {
    assert BitLen(x / 2) == 1 + BitLen(x / 2 / 2);
  }

  lemma BitLenShift(x: nat)
    requires x >= 128
    ensures BitLen(x) == 7 + BitLen(x / 128)
  {
    BitLenQuarter(x);
    BitLenQuarter(x / 4);
    BitLenQuarter(x / 16);
    assert x / 4 / 4 == x / 16 && x / 16 / 4 == x / 64 && x / 64 / 2 == x / 128;
  }

  /** `sovLen` counts the bytes of the varint. */
  lemma {:induction false} SovLenIsVarintLength(x: nat)
    ensures SovLen(x) == |Varint(x)|
  {
    if x < 128 {
      assert Pow2(7) == 128 by { assert Pow2(3) == 8; assert Pow2(5) == 32; }
      BitLenBound(OrOne(x), 7);
    } else {
      SovLenIsVarintLength(x / 128);
      BitLenOrOne(x);
      BitLenShift(x);
      BitLenOrOne(x / 128);
    }
  }

  /** The sizes of the transactions add up to the length of the encoded field. */
  lemma {:induction false} SizesAddUp(txs: seq<Bytes>)
    ensures TotalProtoSize(txs) == |EncodeTxs(txs)|
  {
    if txs != [] {
      SovLenIsVarintLength(|txs[0]|);
      SizesAddUp(txs[1..]);
    }
  }

  lemma {:induction false} ReadsBackVarint(x: nat, rest: Bytes)
    ensures ReadVarint(Varint(x) + rest) == Some((x, |Varint(x)|))
  {
    if x >= 128 {
      ReadsBackVarint(x / 128, rest);
      assert (Varint(x) + rest)[1..] == Varint(x / 128) + rest;
    }
  }

  lemma {:induction false} DecodeStep(s: Bytes, n: nat, k: nat)
    requires s != [] && s[0] == TXS_TAG && ReadVarint(s[1..]) == Some((n, k)) && 1 + k + n <= |s|
    requires DecodeTxs(s[1 + k + n..]).Some?
    ensures DecodeTxs(s) == Some([s[1 + k..1 + k + n]] + DecodeTxs(s[1 + k + n..]).value)
  {
  }

  lemma SliceRecord(v: Bytes, bz: Bytes, more: Bytes, s: Bytes)
    requires s == [TXS_TAG] + v + bz + more
    ensures s != [] && s[0] == TXS_TAG && s[1..] == v + (bz + more)
    ensures s[1 + |v|..1 + |v| + |bz|] == bz && s[1 + |v| + |bz|..] == more
  {
  }

  /** The encoding is faithful: decoding it gives the transactions back. */
  lemma {:induction false} RoundTrip(txs: seq<Bytes>)
    ensures DecodeTxs(EncodeTxs(txs)) == Some(txs)
  {
    if txs != [] {
      var bz, more, v := txs[0], EncodeTxs(txs[1..]), Varint(|txs[0]|);
      RoundTrip(txs[1..]);
      ReadsBackVarint(|bz|, bz + more);
      SliceRecord(v, bz, more, EncodeTxs(txs));
      DecodeStep(EncodeTxs(txs), |bz|, |v|);
      assert txs == [bz] + txs[1..];
    }
  }
}
