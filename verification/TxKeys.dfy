/**
 The keys of a tx_index: what is read from a tx.height key, and what the prefix of an Ethereum
 transaction's event keys matches.

 The prefix ends in the transaction's index without a separator. `EventPrefixExact` says which
 event keys it matches: those of the same hash and height whose index has a decimal form that
 starts with the transaction's own.
 */
module TxKeys {
  import opened Common
  import opened Keys
  import opened HeightFilter

  // ---------------------------------------------------------------------------------------
  // Reading and writing keys

  /** "$es$" */
  const ES: Bytes := [36, 101, 115, 36]

  /** "ethereum_tx.ethereumTxHash/" */
  const ETH_TX_HASH: Bytes := [101, 116, 104, 101, 114, 101, 117, 109, 95, 116, 120, 46, 101, 116, 104, 101, 114, 101,
      117, 109, 84, 120, 72, 97, 115, 104, 47]

  datatype TxInfo = TxInfo(height: int, index: int)

  /** Ethereum transactions by hash. */
  type TxInfos = map<Bytes, TxInfo>

  /** The text after the first `stop`. */
  function After(s: Bytes, stop: Byte): (r: Option<Bytes>) {
    if s == [] then None else if s[0] == stop then Some(s[1..]) else After(s[1..], stop)
  }

  function BeforeEs(s: Bytes): (r: Bytes) {
    if s == [] || HasPrefix(s, ES) then [] else [s[0]] + BeforeEs(s[1..])
  }

  /** extractHeightAndTxIndexFromKey: tx.height/<height>/<anything>/<index>[$es$<seq>][/...]. */
  function HeightAndIndex(key: Bytes): (r: Option<TxInfo>) {
    if !HasPrefix(key, TX_HEIGHT) then None
    else
      var s := key[|TX_HEIGHT|..];
      var s1 := After(s, SLASH);
      if s1.None? then None
      else
        var s2 := After(s1.value, SLASH);
        if s2.None? then None
        else
          var h, i := ScanInt(Before(s, SLASH)), ScanInt(BeforeEs(Before(s2.value, SLASH)));
          if h.None? || i.None? then None else Some(TxInfo(h.value, i.value))
  }

  /** The %d verb of Sprintf. */
  function FormatSigned(n: int): (s: Bytes) { if n < 0 then [45] + FormatInt(-n) else FormatInt(n) }

  function EventPrefix(hash: Bytes, info: TxInfo): (p: Bytes) {
    ETH_TX_HASH + hash + [SLASH] + FormatSigned(info.height) + [SLASH] + FormatSigned(info.index)
  }

  /** A text of ASCII characters as bytes. */
  function Ascii(s: string): (b: Bytes)
    requires forall i :: 0 <= i < |s| ==> s[i] < 128 as char
  {
    seq(|s|, i requires 0 <= i < |s| => s[i] as int)
  }

  /** The constants are the texts the keys are made of. */
  lemma Spelled()
    ensures TX_HEIGHT == Ascii("tx.height/") && ES == Ascii("$es$") &&
            ETH_TX_HASH == Ascii("ethereum_tx.ethereumTxHash/")
    ensures H_PREFIX == Ascii("H:") && P_PREFIX == Ascii("P:") && C_PREFIX == Ascii("C:")
    ensures SC_PREFIX == Ascii("SC:") && EC_PREFIX == Ascii("EC:") && BH_PREFIX == Ascii("BH:")
  {
  }

  lemma {:induction false} AfterStop(s: Bytes, stop: Byte, rest: Bytes)
    requires forall i :: 0 <= i < |s| ==> s[i] != stop
    ensures After(s + [stop] + rest, stop) == Some(rest)
  {
    var t := s + [stop] + rest;
    if s != [] {
      assert t[1..] == s[1..] + [stop] + rest;
      AfterStop(s[1..], stop, rest);
    }
  }

  lemma {:induction false} BeforeNone(s: Bytes, stop: Byte)
    requires forall i :: 0 <= i < |s| ==> s[i] != stop
    ensures Before(s, stop) == s
  {
    if s != [] { BeforeNone(s[1..], stop); }
  }

  lemma {:induction false} BeforeEsStop(d: Bytes, rest: Bytes)
    requires forall i :: 0 <= i < |d| ==> IsDigit(d[i])
    ensures BeforeEs(d + ES + rest) == d
  {
    var t := d + ES + rest;
    if d != [] {
      assert t[1..] == d[1..] + ES + rest;
      BeforeEsStop(d[1..], rest);
      assert t[0] == d[0];
      NotPrefix(t, ES);
      assert d == [d[0]] + d[1..];
    } else {
      assert t[..4] == ES;
    }
  }

  lemma {:induction false} BeforeEsNone(d: Bytes)
    requires forall i :: 0 <= i < |d| ==> IsDigit(d[i])
    ensures BeforeEs(d) == d
  {
    if d != [] {
      BeforeEsNone(d[1..]);
      NotPrefix(d, ES);
    }
  }

  /** The last part of a tx.height key: the index, with or without an event sequence number. */
  function IndexPart(i: nat, seqNo: Option<nat>): (s: Bytes) {
    if seqNo.None? then FormatInt(i) else FormatInt(i) + ES + FormatInt(seqNo.value)
  }

  lemma IndexPartText(i: nat, seqNo: Option<nat>)
    ensures forall j :: 0 <= j < |IndexPart(i, seqNo)| ==> IndexPart(i, seqNo)[j] != SLASH
  {
    if seqNo.Some? {
      var a, b := FormatInt(i), FormatInt(seqNo.value);
      forall j | 0 <= j < |a + ES + b| ensures (a + ES + b)[j] != SLASH {
        if j < |a| {
          assert IsDigit(a[j]);
        } else if j >= |a| + 4 {
          assert IsDigit(b[j - |a| - 4]);
        }
      }
    }
  }

  lemma IndexPartReads(i: nat, seqNo: Option<nat>)
    ensures Before(IndexPart(i, seqNo), SLASH) == IndexPart(i, seqNo) && BeforeEs(IndexPart(i, seqNo)) == FormatInt(i)
  {
    IndexPartText(i, seqNo);
    BeforeNone(IndexPart(i, seqNo), SLASH);
    if seqNo.Some? { BeforeEsStop(FormatInt(i), FormatInt(seqNo.value)); } else { BeforeEsNone(FormatInt(i)); }
  }

  /**
   The height and index of every tx.height key CometBFT writes, in either form, are read back: the
   first part is the height, the second is passed over, the third holds the index.
   */
  lemma CanonicalTxKey(h: nat, middle: Bytes, i: nat, seqNo: Option<nat>)
    requires h < TWO_63 && i < TWO_63 && (forall k :: 0 <= k < |middle| ==> middle[k] != SLASH)
    ensures HeightAndIndex(TX_HEIGHT + (FormatInt(h) + [SLASH] + (middle + [SLASH] + IndexPart(i, seqNo)))) ==
            Some(TxInfo(h, i))
  {
    var dh, last := FormatInt(h), IndexPart(i, seqNo);
    var s1 := middle + [SLASH] + last;
    var s := dh + [SLASH] + s1;
    Prepended(TX_HEIGHT, s);
    AfterStop(dh, SLASH, s1);
    AfterStop(middle, SLASH, last);
    BeforeStop(dh, SLASH, s1);
    IndexPartReads(i, seqNo);
    ScanBack(h, []);
    ScanBack(i, []);
    assert FormatInt(h) + [] == FormatInt(h) && FormatInt(i) + [] == FormatInt(i);
  }

  // ---------------------------------------------------------------------------------------
  // Prefixes of structured text

  predicate Free(s: Bytes, stop: Byte) { forall i :: 0 <= i < |s| ==> s[i] != stop }

  lemma PrefixCancels(p: Bytes, x: Bytes, y: Bytes)
    ensures HasPrefix(p + y, p + x) <==> HasPrefix(y, x)
  {
    if |x| <= |y| {
      assert (p + y)[..|p + x|] == p + y[..|x|];
      assert (p + x)[|p|..] == x && (p + y[..|x|])[|p|..] == y[..|x|];
    }
  }

  /** Up to the first separator, a prefix has to agree completely. */
  lemma CutAtStop(a: Bytes, x: Bytes, b: Bytes, y: Bytes, stop: Byte)
    requires Free(a, stop) && Free(b, stop)
    ensures HasPrefix(b + [stop] + y, a + [stop] + x) <==> a == b && HasPrefix(y, x)
  {
    var p, t := a + [stop] + x, b + [stop] + y;
    if a == b {
      assert p == (a + [stop]) + x && t == (a + [stop]) + y;
      PrefixCancels(a + [stop], x, y);
    } else if HasPrefix(t, p) {
      assert forall i :: 0 <= i < |p| ==> p[i] == t[..|p|][i] == t[i];
      SamePrefixLength(a, x, b, y, stop);
    }
  }

  lemma SamePrefixLength(a: Bytes, x: Bytes, b: Bytes, y: Bytes, stop: Byte)
    requires Free(a, stop) && Free(b, stop)
    requires var p, t := a + [stop] + x, b + [stop] + y; |p| <= |t| && forall i :: 0 <= i < |p| ==> p[i] == t[i]
    ensures a == b
  {
    var p, t := a + [stop] + x, b + [stop] + y;
    assert p[|a|] == stop && t[|b|] == stop;
    assert forall i :: 0 <= i < |a| ==> p[i] == a[i] && t[i] == b[i];
  }

  lemma FormatSignedText(n: int)
    ensures |FormatSigned(n)| > 0 && Free(FormatSigned(n), SLASH)
    ensures forall i :: 0 < i < |FormatSigned(n)| ==> IsDigit(FormatSigned(n)[i])
    ensures FormatSigned(n)[0] == 45 <==> n < 0
  {
    var d := FormatInt(if n < 0 then -n else n);
    assert forall i :: 0 <= i < |d| ==> IsDigit(d[i]);
  }

  lemma FormatSignedInjective(m: int, n: int)
    requires FormatSigned(m) == FormatSigned(n)
    ensures m == n
  {
    FormatSignedText(m);
    FormatSignedText(n);
    if m < 0 {
      assert FormatSigned(m)[1..] == FormatInt(-m) && FormatSigned(n)[1..] == FormatInt(-n);
      FormatValue(-m);
      FormatValue(-n);
    } else {
      FormatValue(m);
      FormatValue(n);
    }
  }

  // ---------------------------------------------------------------------------------------
  // Which numbers continue which

  /** The decimal form of `j` starts with that of `i`: dropping last digits leads from j to i. */
  predicate ContinuesNat(i: nat, j: nat) { i == j || (j >= 10 && ContinuesNat(i, j / 10)) }

  predicate Continues(i: int, j: int) {
    if i < 0 then j < 0 && ContinuesNat(-i, -j) else j >= 0 && ContinuesNat(i, j)
  }

  lemma {:induction false} FormatPrefix(i: nat, j: nat)
    ensures HasPrefix(FormatInt(j), FormatInt(i)) <==> ContinuesNat(i, j)
  {
    var a, b := FormatInt(i), FormatInt(j);
    if |a| == |b| {
      assert b[..|a|] == b;
      FormatValue(i);
      FormatValue(j);
      if j >= 10 { FormatShorter(i, j / 10, j); }
    } else if j >= 10 {
      FormatPrefix(i, j / 10);
      var front := FormatInt(j / 10);
      assert b == front + [48 + j % 10];
      if |a| < |b| { assert b[..|a|] == front[..|a|]; } else { FormatShorter(i, j / 10, j); }
    }
  }

  /** A number that `j` continues has no more digits than `j`. */
  lemma {:induction false} FormatShorter(i: nat, j: nat, k: nat)
    requires k >= 10 && j == k / 10
    ensures ContinuesNat(i, j) ==> |FormatInt(i)| < |FormatInt(k)|
  {
    if j >= 10 { FormatShorter(i, j / 10, j); }
  }

  lemma SignedPrefix(i: int, j: int)
    ensures HasPrefix(FormatSigned(j), FormatSigned(i)) <==> Continues(i, j)
  {
    FormatSignedText(i);
    FormatSignedText(j);
    if i < 0 && j < 0 {
      PrefixCancels([45], FormatInt(-i), FormatInt(-j));
      FormatPrefix(-i, -j);
    } else if i >= 0 && j >= 0 {
      FormatPrefix(i, j);
    } else {
      NotPrefix(FormatSigned(j), FormatSigned(i));
    }
  }

  /** Text that does not go on with a digit does not help a longer number to match. */
  lemma SignedPrefixRest(i: int, j: int, rest: Bytes)
    requires rest != [] ==> !IsDigit(rest[0])
    ensures HasPrefix(FormatSigned(j) + rest, FormatSigned(i)) <==> HasPrefix(FormatSigned(j), FormatSigned(i))
  {
    var a, b := FormatSigned(i), FormatSigned(j);
    FormatSignedText(i);
    FormatSignedText(j);
    if |a| <= |b| {
      assert (b + rest)[..|a|] == b[..|a|];
    } else if |a| <= |b + rest| {
      assert (b + rest)[..|a|][|b|] == rest[0] && IsDigit(a[|b|]);
    }
  }

  // ---------------------------------------------------------------------------------------
  // Event keys

  /** `k` is an event key of this transaction: its prefix, and then no further digit. */
  ghost predicate EventKeyOf(k: Bytes, hash: Bytes, info: TxInfo) {
    Free(hash, SLASH) && HasPrefix(k, EventPrefix(hash, info)) && Ends(k[|EventPrefix(hash, info)|..])
  }

  /** What may follow the index: nothing, or text that does not start with a digit, as "$es$" does. */
  predicate Ends(rest: Bytes) { rest != [] ==> !IsDigit(rest[0]) }

  lemma EventPrefixParts(hash: Bytes, info: TxInfo, rest: Bytes)
    ensures EventPrefix(hash, info) + rest ==
            ETH_TX_HASH + (hash + [SLASH] + (FormatSigned(info.height) + [SLASH] + (FormatSigned(info.index) + rest)))
  {
  }

  /**
   The prefix of one transaction matches an event key of another exactly when hash and height
   agree and the other's index continues the digits of this one's.
   */
  lemma EventPrefixExact(hash: Bytes, info: TxInfo, hash': Bytes, info': TxInfo, rest: Bytes)
    requires Free(hash, SLASH) && Free(hash', SLASH) && Ends(rest)
    ensures HasPrefix(EventPrefix(hash', info') + rest, EventPrefix(hash, info)) <==>
            hash == hash' && info.height == info'.height && Continues(info.index, info'.index)
  {
    var h, h' := FormatSigned(info.height), FormatSigned(info'.height);
    var i, i' := FormatSigned(info.index), FormatSigned(info'.index);
    EventPrefixParts(hash, info, []);
    EventPrefixParts(hash', info', rest);
    assert EventPrefix(hash, info) + [] == EventPrefix(hash, info) && i + [] == i;
    PrefixCancels(ETH_TX_HASH, hash + [SLASH] + (h + [SLASH] + i), hash' + [SLASH] + (h' + [SLASH] + (i' + rest)));
    CutAtStop(hash, h + [SLASH] + i, hash', h' + [SLASH] + (i' + rest), SLASH);
    FormatSignedText(info.height);
    FormatSignedText(info'.height);
    CutAtStop(h, i, h', i' + rest, SLASH);
    if h == h' { FormatSignedInjective(info.height, info'.height); }
    SignedPrefixRest(info.index, info'.index, rest);
    SignedPrefix(info.index, info'.index);
  }

  /** The same, for a stored key. */
  lemma EventKeyMatches(k: Bytes, hash: Bytes, info: TxInfo, hash': Bytes, info': TxInfo)
    requires Free(hash, SLASH) && EventKeyOf(k, hash', info')
    ensures HasPrefix(k, EventPrefix(hash, info)) <==>
            hash == hash' && info.height == info'.height && Continues(info.index, info'.index)
  {
    var p := EventPrefix(hash', info');
    assert k == p + k[|p|..];
    EventPrefixExact(hash, info, hash', info', k[|p|..]);
  }

  lemma {:induction false} ContinuesBack(i: nat, j: nat)
    ensures ContinuesNat(i, j) ==> i <= j
  {
    if j >= 10 { ContinuesBack(i, j / 10); }
  }

  /** A key is the event key of one transaction only. */
  lemma EventKeyReadsOnce(k: Bytes, hash: Bytes, info: TxInfo, hash': Bytes, info': TxInfo)
    requires EventKeyOf(k, hash, info) && EventKeyOf(k, hash', info')
    ensures hash == hash' && info == info'
  {
    EventKeyMatches(k, hash, info, hash', info');
    EventKeyMatches(k, hash', info', hash, info);
    var i, j := info.index, info'.index;
    if i < 0 {
      ContinuesBack(-i, -j);
      ContinuesBack(-j, -i);
    } else {
      ContinuesBack(i, j);
      ContinuesBack(j, i);
    }
  }

  /** A key with the prefixes of two transactions belongs to one hash. */
  lemma PrefixHash(k: Bytes, hash: Bytes, info: TxInfo, hash': Bytes, info': TxInfo)
    requires Free(hash, SLASH) && Free(hash', SLASH)
    requires HasPrefix(k, EventPrefix(hash, info)) && HasPrefix(k, EventPrefix(hash', info'))
    ensures hash == hash'
  {
    var n := |ETH_TX_HASH|;
    HashInKey(k, hash, info);
    HashInKey(k, hash', info');
    assert forall i :: 0 <= i < |hash| ==> k[n + i] == hash[i];
    assert forall i :: 0 <= i < |hash'| ==> k[n + i] == hash'[i];
  }

  lemma HashInKey(k: Bytes, hash: Bytes, info: TxInfo)
    requires HasPrefix(k, EventPrefix(hash, info))
    ensures var n := |ETH_TX_HASH|;
            |k| > n + |hash| && k[n + |hash|] == SLASH && forall i :: 0 <= i < |hash| ==> k[n + i] == hash[i]
  {
    var p, n := EventPrefix(hash, info), |ETH_TX_HASH|;
    assert forall i :: 0 <= i < |p| ==> k[i] == k[..|p|][i] == p[i];
    assert p[n + |hash|] == SLASH;
    assert forall i :: 0 <= i < |hash| ==> p[n + i] == hash[i];
  }

  /** No stored event key of this hash and height has another index that continues this one. */
  ghost predicate NoContinuation(db: Db, hash: Bytes, info: TxInfo) {
    forall k, j :: k in db && EventKeyOf(k, hash, TxInfo(info.height, j)) && Continues(info.index, j) ==>
        j == info.index
  }

  /** Every event key among `ks` is one of this transaction. */
  ghost predicate OnlyOwn(ks: seq<Bytes>, hash: Bytes, info: TxInfo) {
    forall k, hash', info' :: k in ks && EventKeyOf(k, hash', info') ==> hash' == hash && info' == info
  }

  /**
   When a scan isolates its transaction: the event keys it finds are the transaction's own if and
   only if no stored event key of the same hash and height has an index that continues its digits.
   */
  lemma ScanIsolates(db: Db, ks: seq<Bytes>, hash: Bytes, info: TxInfo)
    requires Free(hash, SLASH) && (forall k :: k in ks <==> k in db && HasPrefix(k, EventPrefix(hash, info)))
    ensures OnlyOwn(ks, hash, info) <==> NoContinuation(db, hash, info)
    ensures forall k :: k in db && EventKeyOf(k, hash, info) ==> k in ks
  {
    if OnlyOwn(ks, hash, info) {
      forall k, j | k in db && EventKeyOf(k, hash, TxInfo(info.height, j)) &&
          Continues(info.index, j) ensures j == info.index {
        EventKeyMatches(k, hash, info, hash, TxInfo(info.height, j));
      }
    }
    if NoContinuation(db, hash, info) {
      forall k, hash', info' | k in ks && EventKeyOf(k, hash', info') ensures hash' == hash && info' == info {
        EventKeyMatches(k, hash, info, hash', info');
        assert info' == TxInfo(info.height, info'.index);
      }
    }
  }

  lemma {:induction false} ZeroStandsAlone(j: nat)
    ensures ContinuesNat(0, j) <==> j == 0
  {
    if j >= 10 { ZeroStandsAlone(j / 10); }
  }

  /** The first transaction of a block is always isolated. */
  lemma FirstIndexIsolated(db: Db, hash: Bytes, height: int)
    ensures NoContinuation(db, hash, TxInfo(height, 0))
  {
    forall k, j | k in db && EventKeyOf(k, hash, TxInfo(height, j)) &&
        Continues(0, j) ensures j == 0 { ZeroStandsAlone(j); }
  }

  /** Any other is not, once a key of index 10 * i + digit with its hash and height is stored. */
  lemma EventPrefixOverlaps(db: Db, k: Bytes, hash: Bytes, h: int, i: nat, digit: nat)
    requires i > 0 && digit < 10 && k in db && EventKeyOf(k, hash, TxInfo(h, 10 * i + digit))
    ensures HasPrefix(k, EventPrefix(hash, TxInfo(h, i))) && !NoContinuation(db, hash, TxInfo(h, i))
  {
    assert (10 * i + digit) / 10 == i && ContinuesNat(i, i);
    assert Continues(i, 10 * i + digit);
    EventKeyMatches(k, hash, TxInfo(h, i), hash, TxInfo(h, 10 * i + digit));
  }
}
