/**
 Block heights in database keys: parsing, the height filter, and the key ranges that replace a
 full scan.

 `ScanInt` models fmt.Sscanf with the verb %d: leading space is skipped, including Go's
 multi-byte Unicode spaces, a newline is an error, then comes an optional sign and the longest
 run of digits, whose value must fit an int64.
 */
module HeightFilter {
  import opened Common
  import opened Keys

  // ---------------------------------------------------------------------------------------
  // Sscanf("%d")

  const NEWLINE: Byte := 10
  const RETURN: Byte := 13

  /** The length of the space character the text starts with, 0 if it starts with none. */
  function SpaceLen(s: Bytes): (n: nat)
    ensures n <= |s|
  {
    if |s| >= 1 && (s[0] == 9 || s[0] == 11 || s[0] == 12 || s[0] == 13 || s[0] == 32) then 1
    else if |s| >= 2 && s[0] == 0xC2 && (s[1] == 0x85 || s[1] == 0xA0) then 2
    else if |s| >= 3 && s[0] == 0xE1 && s[1] == 0x9A && s[2] == 0x80 then 3
    else if |s| >= 3 && s[0] == 0xE2 && s[1] == 0x80 &&
        (0x80 <= s[2] <= 0x8A || s[2] == 0xA8 || s[2] == 0xA9 || s[2] == 0xAF) then 3
    else if |s| >= 3 && s[0] == 0xE2 && s[1] == 0x81 && s[2] == 0x9F then 3
    else if |s| >= 3 && s[0] == 0xE3 && s[1] == 0x80 && s[2] == 0x80 then 3
    else 0
  }

  /** The space characters of fmt, other than the newline. */
  predicate IsSpaceRune(r: nat) {
    r == 0x09 || 0x0B <= r <= 0x0D || r == 0x20 || r == 0x85 || r == 0xA0 || r == 0x1680 || 0x2000 <= r <= 0x200A ||
    r == 0x2028 || r == 0x2029 || r == 0x202F || r == 0x205F || r == 0x3000
  }

  /** The UTF-8 encoding of a character of the basic plane: section 3 of RFC 3629. */
  function Utf8(r: nat): (s: Bytes)
    requires r < 0x10000
  {
    if r < 0x80 then [r]
    else if r < 0x800 then [0xC0 + r / 0x40, 0x80 + r % 0x40]
    else [0xE0 + r / 0x1000, 0x80 + r / 0x40 % 0x40, 0x80 + r % 0x40]
  }

  lemma StartsWith(s: Bytes, p: Bytes)
    requires |p| <= 3
    ensures HasPrefix(s, p) <==> |p| <= |s| && forall i :: 0 <= i < |p| ==> s[i] == p[i]
  {
    if |p| <= |s| { assert forall i :: 0 <= i < |p| ==> s[..|p|][i] == s[i]; }
  }

  /** Text that starts with the encoding of a space character starts with that many bytes of space. */
  lemma SpaceLenExact(s: Bytes, r: nat)
    requires IsSpaceRune(r) && HasPrefix(s, Utf8(r))
    ensures SpaceLen(s) == |Utf8(r)|
  {
    StartsWith(s, Utf8(r));
  }

  /** ... and no other text starts with space. */
  lemma SpaceLenOnly(s: Bytes) returns (r: nat)
    requires SpaceLen(s) > 0
    ensures IsSpaceRune(r) && HasPrefix(s, Utf8(r))
  {
    var a: int := s[0];
    if a < 0x80 {
      r := a;
    } else {
      var b: int := s[1];
      if a < 0xE0 {
        r := (a - 0xC0) * 0x40 + b - 0x80;
      } else {
        var c: int := s[2];
        r := (a - 0xE0) * 0x1000 + (b - 0x80) * 0x40 + c - 0x80;
      }
    }
    StartsWith(s, Utf8(r));
  }

  /** The text after its leading space; None when a newline is met there. */
  function SkipSpace(s: Bytes): (r: Option<Bytes>)
    decreases |s|
  {
    if s == [] then Some(s)
    else if s[0] == NEWLINE || (|s| >= 2 && s[0] == RETURN && s[1] == NEWLINE) then None
    else if SpaceLen(s) > 0 then SkipSpace(s[SpaceLen(s)..])
    else Some(s)
  }

  predicate IsDigit(b: Byte) { 48 <= b <= 57 }

  /** The longest run of digits the text starts with. */
  function DigitRun(s: Bytes): (n: nat)
    ensures n <= |s|
  {
    if s != [] && IsDigit(s[0]) then 1 + DigitRun(s[1..]) else 0
  }

  function Value(s: Bytes): (n: int) {
    if s == [] then 0 else 10 * Value(s[..|s| - 1]) + s[|s| - 1] as int - 48
  }

  predicate IsSign(b: Byte) { b == 43 || b == 45 }

  function ScanInt(s: Bytes): (r: Option<int>) {
    var t := SkipSpace(s);
    if t.None? || t.value == [] then None
    else
      var signed := IsSign(t.value[0]);
      var digits := if signed then t.value[1..] else t.value;
      var n := DigitRun(digits);
      var v := if t.value[0] == 45 then -Value(digits[..n]) else Value(digits[..n]);
      if n == 0 || !(0 - TWO_63 <= v < TWO_63) then None else Some(v)
  }

  /** The first `i` bytes are space that may be skipped: space characters, and no newline before any of them. */
  ghost predicate SpaceUpTo(s: Bytes, i: int)
    decreases |s|
  {
    if i == 0 then true
    else 0 < i <= |s| && !StartsLine(s) && 0 < SpaceLen(s) <= i && SpaceUpTo(s[SpaceLen(s)..], i - SpaceLen(s))
  }

  predicate StartsLine(s: Bytes) { s != [] && (s[0] == NEWLINE || (|s| >= 2 && s[0] == RETURN && s[1] == NEWLINE)) }

  lemma {:induction false} SkipSpaceExact(s: Bytes, i: nat)
    requires i <= |s|
    ensures SkipSpace(s) == Some(s[i..]) <==> SpaceUpTo(s, i) && !StartsLine(s[i..]) && SpaceLen(s[i..]) == 0
    decreases |s|
  {
    var n := SpaceLen(s);
    assert s[0..] == s;
    if n > 0 && !StartsLine(s) {
      assert SkipSpace(s) == SkipSpace(s[n..]);
      if n <= i {
        SkipSpaceExact(s[n..], i - n);
        assert s[n..][i - n..] == s[i..];
      } else {
        SkipSpaceShorter(s[n..]);
      }
    }
  }

  lemma {:induction false} SkipSpaceShorter(s: Bytes)
    ensures SkipSpace(s).Some? ==> |SkipSpace(s).value| <= |s|
    decreases |s|
  {
    if s != [] && SpaceLen(s) > 0 { SkipSpaceShorter(s[SpaceLen(s)..]); }
  }

  lemma {:induction false} DigitRunExact(s: Bytes, n: nat)
    requires n <= |s|
    ensures DigitRun(s) == n <==> (forall i :: 0 <= i < n ==> IsDigit(s[i])) && (n < |s| ==> !IsDigit(s[n]))
  {
    if n > 0 {
      DigitRunExact(s[1..], n - 1);
      assert forall i :: 0 <= i < n - 1 ==> s[1..][i] == s[i + 1];
      if forall i :: 0 <= i < n ==> IsDigit(s[i]) {
        forall i | 0 <= i < n - 1 ensures IsDigit(s[1..][i]) { assert s[1..][i] == s[i + 1]; }
      }
    }
  }

  /** The text is a numeral: space up to `i`, perhaps a sign, then exactly the digits up to `n`. */
  ghost predicate Numeral(s: Bytes, i: int, start: int, n: int) {
    && 0 <= i <= start < n <= |s| && SpaceUpTo(s, i) && !StartsLine(s[i..]) && SpaceLen(s[i..]) == 0
    && start == (if IsSign(s[i]) then i + 1 else i)
    && (forall k :: start <= k < n ==> IsDigit(s[k])) && (n < |s| ==> !IsDigit(s[n]))
  }

  function Signed(s: Bytes, i: int, digits: Bytes): (v: int)
    requires 0 <= i < |s|
  {
    if s[i] == 45 then -Value(digits) else Value(digits)
  }

  lemma DigitsFrom(s: Bytes, start: nat, n: nat)
    requires start <= n <= |s|
    ensures DigitRun(s[start..]) == n - start <==>
            (forall k :: start <= k < n ==> IsDigit(s[k])) && (n < |s| ==> !IsDigit(s[n]))
  {
    var t := s[start..];
    DigitRunExact(t, n - start);
    assert forall k :: 0 <= k < |t| ==> t[k] == s[start + k];
    if forall k :: 0 <= k < n - start ==> IsDigit(t[k]) {
      forall k | start <= k < n ensures IsDigit(s[k]) { assert IsDigit(t[k - start]); }
    }
  }

  /** A height is read exactly from a numeral whose value fits an int64; the longest run of digits counts. */
  lemma ScanIntExact(s: Bytes, i: nat, start: nat, n: nat)
    requires Numeral(s, i, start, n)
    ensures ScanInt(s) ==
            var v := Signed(s, i, s[start..n]); if 0 - TWO_63 <= v < TWO_63 then Some(v) else None
  {
    SkipSpaceExact(s, i);
    assert s[i..][1..] == s[i + 1..] && s[start..][..n - start] == s[start..n];
    DigitsFrom(s, start, n);
  }

  /** ... and from nothing else. */
  lemma ScanIntOnly(s: Bytes) returns (i: nat, start: nat, n: nat)
    requires ScanInt(s).Some?
    ensures Numeral(s, i, start, n)
  {
    SkipSpaceSuffix(s);
    i := |s| - |SkipSpace(s).value|;
    SkipSpaceExact(s, i);
    start := if IsSign(s[i]) then i + 1 else i;
    assert s[i..][1..] == s[i + 1..];
    n := start + DigitRun(s[start..]);
    DigitsFrom(s, start, n);
  }

  lemma TailOfTail(s: Bytes, n: nat, m: nat)
    requires n <= |s| && m <= |s| - n
    ensures s[n..][|s| - n - m..] == s[|s| - m..]
  {
  }

  lemma {:induction false} SkipSpaceSuffix(s: Bytes)
    ensures SkipSpace(s).Some? ==> |SkipSpace(s).value| <= |s| && SkipSpace(s).value == s[|s| - |SkipSpace(s).value|..]
    decreases |s|
  {
    var n := SpaceLen(s);
    if s != [] && n > 0 && !StartsLine(s) {
      assert SkipSpace(s) == SkipSpace(s[n..]);
      SkipSpaceSuffix(s[n..]);
      if SkipSpace(s[n..]).Some? { TailOfTail(s, n, |SkipSpace(s[n..]).value|); }
    }
  }

  // ---------------------------------------------------------------------------------------
  // Heights of keys

  const COLON: Byte := 58
  const SLASH: Byte := 47
  const TILDE: Byte := 126

  const H_PREFIX: Bytes := [72, 58]
  const P_PREFIX: Bytes := [80, 58]
  const C_PREFIX: Bytes := [67, 58]
  const SC_PREFIX: Bytes := [83, 67, 58]
  const EC_PREFIX: Bytes := [69, 67, 58]
  const BH_PREFIX: Bytes := [66, 72, 58]

  /** "tx.height/" */
  const TX_HEIGHT: Bytes := [116, 120, 46, 104, 101, 105, 103, 104, 116, 47]

  /** The text up to the first `stop`, or all of it. */
  function Before(s: Bytes, stop: Byte): (r: Bytes) {
    if s == [] || s[0] == stop then [] else [s[0]] + Before(s[1..], stop)
  }

  function BlockstoreHeight(key: Bytes): (h: Option<int>) {
    if |key| < 3 then None
    else if HasPrefix(key, H_PREFIX) || HasPrefix(key, C_PREFIX) then ScanInt(key[2..])
    else if HasPrefix(key, P_PREFIX) then ScanInt(Before(key[2..], COLON))
    else if HasPrefix(key, SC_PREFIX) || HasPrefix(key, EC_PREFIX) then ScanInt(key[3..])
    else None
  }

  function TxIndexHeight(key: Bytes): (h: Option<int>) {
    if HasPrefix(key, TX_HEIGHT) then ScanInt(Before(key[|TX_HEIGHT|..], SLASH)) else None
  }

  lemma {:induction false} BeforeIs(s: Bytes, stop: Byte, n: nat)
    requires n <= |s| && stop !in s[..n] && (n < |s| ==> s[n] == stop)
    ensures Before(s, stop) == s[..n]
  {
    if n > 0 {
      assert s[0] in s[..n] && s[1..][..n - 1] == s[..n][1..];
      BeforeIs(s[1..], stop, n - 1);
    }
  }

  /** The index loops that look for the end of the height. */
  method FindEnd(key: Bytes, start: nat, stop: Byte) returns (end: nat)
    requires start <= |key|
    ensures start <= end <= |key| && key[start..end] == Before(key[start..], stop)
  {
    end := start;
    while end < |key| && key[end] != stop
      invariant start <= end <= |key| && stop !in key[start..end]
    {
      assert key[start..end + 1] == key[start..end] + [key[end]];
      end := end + 1;
    }
    assert key[start..][..end - start] == key[start..end];
    BeforeIs(key[start..], stop, end - start);
  }

  method ExtractHeightFromBlockstoreKey(key: Bytes) returns (h: Option<int>)
    ensures h == BlockstoreHeight(key)
  {
    if |key| < 3 { return None; }
    if HasPrefix(key, H_PREFIX) { return ScanInt(key[2..]); }
    if HasPrefix(key, P_PREFIX) {
      var end := FindEnd(key, 2, COLON);
      if end > 2 { return ScanInt(key[2..end]); }
      return None;
    }
    if HasPrefix(key, C_PREFIX) { return ScanInt(key[2..]); }
    if HasPrefix(key, SC_PREFIX) || HasPrefix(key, EC_PREFIX) { return ScanInt(key[3..]); }
    return None;
  }

  method ExtractHeightFromTxIndexKey(key: Bytes) returns (h: Option<int>)
    ensures h == TxIndexHeight(key)
  {
    if HasPrefix(key, TX_HEIGHT) {
      if |key| <= |TX_HEIGHT| { return None; }
      var end := FindEnd(key, |TX_HEIGHT|, SLASH);
      if end > |TX_HEIGHT| { return ScanInt(key[|TX_HEIGHT|..end]); }
    }
    return None;
  }

  // ---------------------------------------------------------------------------------------
  // The filter

  datatype HeightRange = HeightRange(start: int, end: int, specific: seq<int>)

  predicate IsWithinRange(hr: HeightRange, height: int) {
    if |hr.specific| > 0 then height in hr.specific
    else !(hr.start > 0 && height < hr.start) && !(hr.end > 0 && height > hr.end)
  }

  predicate IsEmpty(hr: HeightRange) { hr.start == 0 && hr.end == 0 && |hr.specific| == 0 }

  predicate Selects(hr: HeightRange, h: Option<int>) { h.Some? && IsWithinRange(hr, h.value) }

  /** The heights from `a` to `b`, one by one. */
  function Listing(a: int, b: int): (hs: seq<int>)
    requires a <= b + 1
    ensures forall h :: h in hs <==> a <= h <= b
    decreases b - a + 1
  {
    if a > b then [] else [a] + Listing(a + 1, b)
  }

  /**
   What a range means: both ends belong to it, an end of 0 is open, and heights that are listed
   override it. A range with two ends selects what listing its heights would.
   */
  lemma RangeExact(a: int, b: int, hs: seq<int>, h: int)
    requires a > 0 && b > 0
    ensures hs != [] ==> (IsWithinRange(HeightRange(a, b, hs), h) <==> h in hs)
    ensures IsWithinRange(HeightRange(a, b, []), h) <==> a <= h <= b
    ensures IsWithinRange(HeightRange(a, 0, []), h) <==> a <= h
    ensures IsWithinRange(HeightRange(0, b, []), h) <==> h <= b
    ensures IsWithinRange(HeightRange(0, 0, []), h)
    ensures a <= b ==> (IsWithinRange(HeightRange(a, b, []), h) <==> IsWithinRange(HeightRange(0, 0, Listing(a, b)), h))
  {
    if a <= b { assert a in Listing(a, b); }
  }

  // ---------------------------------------------------------------------------------------
  // The ranges

  const BLOCKSTORE_PREFIXES: seq<Bytes> := [H_PREFIX, P_PREFIX, C_PREFIX, SC_PREFIX, EC_PREFIX]

  /** The range getBlockstoreIterators opens for a prefix: its last byte plus one is the end. */
  function ColonRange(p: Bytes): (r: Range)
    requires p != [] && p[|p| - 1] == COLON
  {
    Range(p, Some(p[..|p| - 1] + [COLON + 1]))
  }

  function TxIndexRange(): (r: Range) { Range(TX_HEIGHT, Some(TX_HEIGHT + [TILDE])) }

  /** A range whose end differs from its start in the last byte only holds exactly a prefix. */
  lemma {:induction false} RangeIsPrefix(k: Bytes, q: Bytes, c: Byte)
    requires c < 255
    ensures InRange(k, Range(q + [c], Some(q + [c + 1]))) <==> HasPrefix(k, q + [c])
  {
    var lo, hi := q + [c], q + [c + 1];
    if q == [] {
      assert lo == [c] && hi == [c + 1] && lo[1..] == [] && hi[1..] == [];
      if k != [] {
        PrefixTail1(k, c);
        assert !Below(k[1..], []);
        assert Below(k, lo) <==> k[0] < c;
        assert Below(k, hi) <==> k[0] < c + 1;
      }
    } else if k != [] && k[0] == q[0] {
      assert lo[1..] == q[1..] + [c] && hi[1..] == q[1..] + [c + 1];
      RangeIsPrefix(k[1..], q[1..], c);
      PrefixTail(k, lo);
    } else if k != [] {
      if |lo| <= |k| { assert k[..|lo|][0] == k[0]; }
    }
  }

  lemma PrefixTail1(k: Bytes, c: Byte)
    requires k != []
    ensures HasPrefix(k, [c]) <==> k[0] == c
  {
    assert k[..1] == [k[0]];
  }

  lemma ColonRangeIsPrefix(k: Bytes, p: Bytes)
    requires p != [] && p[|p| - 1] == COLON
    ensures InRange(k, ColonRange(p)) <==> HasPrefix(k, p)
  {
    assert p == p[..|p| - 1] + [COLON];
    RangeIsPrefix(k, p[..|p| - 1], COLON);
  }

  lemma TwoPrefixes(k: Bytes, p: Bytes, q: Bytes)
    requires HasPrefix(k, p) && HasPrefix(k, q) && |p| <= |q|
    ensures q[..|p|] == p
  {
    assert q[..|p|] == k[..|q|][..|p|] == k[..|p|];
  }

  ghost predicate InBlockstoreRange(k: Bytes, i: int) {
    0 <= i < |BLOCKSTORE_PREFIXES| && InRange(k, ColonRange(BLOCKSTORE_PREFIXES[i]))
  }

  /** No key lies in two of the five ranges. */
  lemma RangesDisjoint(k: Bytes, i: nat, j: nat)
    requires InBlockstoreRange(k, i) && InBlockstoreRange(k, j)
    ensures i == j
  {
    var p, q := BLOCKSTORE_PREFIXES[i], BLOCKSTORE_PREFIXES[j];
    ColonRangeIsPrefix(k, p);
    ColonRangeIsPrefix(k, q);
    if |p| <= |q| { TwoPrefixes(k, p, q); } else { TwoPrefixes(k, q, p); }
  }

  /** A blockstore key with a height lies in one of the five ranges, and in no other. */
  lemma HeightKeyInOneRange(k: Bytes)
    requires BlockstoreHeight(k).Some?
    ensures exists i :: InBlockstoreRange(k, i) && forall j :: InBlockstoreRange(k, j) ==> j == i
  {
    var i := if HasPrefix(k, H_PREFIX) then 0 else if HasPrefix(k, P_PREFIX) then 1
             else if HasPrefix(k, C_PREFIX) then 2 else if HasPrefix(k, SC_PREFIX) then 3 else 4;
    ColonRangeIsPrefix(k, BLOCKSTORE_PREFIXES[i]);
    assert InBlockstoreRange(k, i);
    forall j | InBlockstoreRange(k, j) ensures j == i { RangesDisjoint(k, i, j); }
  }

  /**
   The five range scans refine a full scan: filtering what they yield selects exactly the keys
   that filtering the whole store would.
   */
  lemma RangesRefineFullScan(db: Db, hr: HeightRange, k: Bytes)
    ensures k in db && Selects(hr, BlockstoreHeight(k)) <==>
            (exists i :: InBlockstoreRange(k, i) && k in KeysIn(db, ColonRange(BLOCKSTORE_PREFIXES[i]))) &&
                Selects(hr, BlockstoreHeight(k))
  {
    if k in db && Selects(hr, BlockstoreHeight(k)) { HeightKeyInOneRange(k); }
  }

  /** BH: keys, which the patch derives, lie in none of the ranges. */
  lemma HashKeyInNoRange(k: Bytes, i: int)
    requires HasPrefix(k, BH_PREFIX)
    ensures !InBlockstoreRange(k, i)
  {
    if InBlockstoreRange(k, i) {
      var p := BLOCKSTORE_PREFIXES[i];
      ColonRangeIsPrefix(k, p);
      TwoPrefixes(k, p, BH_PREFIX);
    }
  }

  // ---------------------------------------------------------------------------------------
  // The tx_index range

  /** A tx_index key with a height has a byte after "tx.height/". */
  lemma HeightKeyLonger(k: Bytes)
    requires TxIndexHeight(k).Some?
    ensures |k| > |TX_HEIGHT|
  {
    assert ScanInt(Before([], SLASH)).None?;
  }

  /**
   A tx_index key with a height lies in the iterated range exactly when the byte that follows
   "tx.height/" is below '~'.
   */
  lemma TxIndexRangeExact(k: Bytes)
    requires TxIndexHeight(k).Some?
    ensures |k| > |TX_HEIGHT|
    ensures InRange(k, TxIndexRange()) <==> k[|TX_HEIGHT|] < TILDE
  {
    HeightKeyLonger(k);
    PrefixNotBelow(k, TX_HEIGHT);
    var n, end := |TX_HEIGHT|, TX_HEIGHT + [TILDE];
    assert k[..n] == end[..n];
    BelowCommon(k, end, n);
    assert end[n..] == [TILDE] && k[n..][0] == k[n];
    assert Below(k[n..], [TILDE]) <==> k[n] < TILDE;
  }

  lemma ScanSpacedDigit()
    ensures ScanInt([0xC2, 0xA0, 53]) == Some(5)
  {
    var t: Bytes, five: Bytes := [0xC2, 0xA0, 53], [53];
    assert t[1..] == [0xA0, 53] && t[2..] == five;
    assert SkipSpace(t) == SkipSpace(t[2..]) == Some(five);
    assert DigitRun(five) == 1 by { assert five[1..] == []; }
    assert five[..1] == five && Value(five) == 5 by { assert five[..0] == []; }
  }

  /** A key outside the range although it has a height: a no-break space before the digit. */
  lemma TxIndexRangeMisses()
    ensures var k := TX_HEIGHT + [0xC2, 0xA0, 53];
            TxIndexHeight(k) == Some(5) && !InRange(k, TxIndexRange())
  {
    var t: Bytes := [0xC2, 0xA0, 53];
    var k := TX_HEIGHT + t;
    assert k[..|TX_HEIGHT|] == TX_HEIGHT && k[|TX_HEIGHT|..] == t && t[..3] == t;
    BeforeIs(t, SLASH, 3);
    ScanSpacedDigit();
    TxIndexRangeExact(k);
  }

  // ---------------------------------------------------------------------------------------
  // Canonical keys

  /** A height written in decimal, as CometBFT writes it. */
  function FormatInt(n: nat): (s: Bytes)
    ensures s != [] && forall i :: 0 <= i < |s| ==> IsDigit(s[i])
  {
    if n < 10 then [48 + n] else FormatInt(n / 10) + [48 + n % 10]
  }

  lemma {:induction false} FormatValue(n: nat)
    ensures Value(FormatInt(n)) == n
  {
    if n >= 10 {
      FormatValue(n / 10);
      var s := FormatInt(n);
      assert s[..|s| - 1] == FormatInt(n / 10);
    } else {
      assert Value([]) == 0;
      assert FormatInt(n)[..0] == [];
    }
  }

  lemma {:induction false} RunOfDigits(s: Bytes, rest: Bytes)
    requires forall i :: 0 <= i < |s| ==> IsDigit(s[i])
    requires rest != [] ==> !IsDigit(rest[0])
    ensures DigitRun(s + rest) == |s|
  {
    if s != [] {
      assert (s + rest)[1..] == s[1..] + rest;
      RunOfDigits(s[1..], rest);
    } else {
      assert s + rest == rest;
    }
  }

  lemma ScanBack(n: nat, rest: Bytes)
    requires n < TWO_63 && (rest != [] ==> !IsDigit(rest[0]))
    ensures ScanInt(FormatInt(n) + rest) == Some(n)
  {
    var d := FormatInt(n);
    var s := d + rest;
    assert IsDigit(s[0]);
    assert SkipSpace(s) == Some(s);
    RunOfDigits(d, rest);
    assert s[..|d|] == d;
    FormatValue(n);
  }

  lemma {:induction false} BeforeStop(s: Bytes, stop: Byte, rest: Bytes)
    requires forall i :: 0 <= i < |s| ==> s[i] != stop
    ensures Before(s + [stop] + rest, stop) == s
  {
    var t := s + [stop] + rest;
    if s != [] {
      assert t[1..] == s[1..] + [stop] + rest;
      BeforeStop(s[1..], stop, rest);
      assert s == [s[0]] + s[1..];
    }
  }

  /** The height of every key CometBFT writes is read back from the key. */
  lemma CanonicalKeys(n: nat, part: Bytes)
    requires n < TWO_63
    ensures BlockstoreHeight(H_PREFIX + FormatInt(n)) == Some(n)
    ensures BlockstoreHeight(C_PREFIX + FormatInt(n)) == Some(n)
    ensures BlockstoreHeight(SC_PREFIX + FormatInt(n)) == Some(n)
    ensures BlockstoreHeight(EC_PREFIX + FormatInt(n)) == Some(n)
    ensures BlockstoreHeight(P_PREFIX + (FormatInt(n) + [COLON] + part)) == Some(n)
    ensures TxIndexHeight(TX_HEIGHT + (FormatInt(n) + [SLASH] + part)) == Some(n)
  {
    var d := FormatInt(n);
    ScanBack(n, []);
    assert d + [] == d;
    BeforeStop(d, COLON, part);
    BeforeStop(d, SLASH, part);
    forall p: Bytes, t: Bytes ensures HasPrefix(p + t, p) && (p + t)[|p|..] == t { Prepended(p, t); }
    NotPrefix(C_PREFIX + d, H_PREFIX);
    NotPrefix(SC_PREFIX + d, H_PREFIX);
    NotPrefix(SC_PREFIX + d, C_PREFIX);
    NotPrefix(SC_PREFIX + d, P_PREFIX);
    NotPrefix(EC_PREFIX + d, H_PREFIX);
    NotPrefix(EC_PREFIX + d, C_PREFIX);
    NotPrefix(EC_PREFIX + d, P_PREFIX);
    NotPrefix(P_PREFIX + (d + [COLON] + part), H_PREFIX);
    NotPrefix(P_PREFIX + (d + [COLON] + part), C_PREFIX);
  }

  lemma Prepended(p: Bytes, t: Bytes)
    ensures HasPrefix(p + t, p) && (p + t)[|p|..] == t
  {
  }

  lemma NotPrefix(k: Bytes, p: Bytes)
    requires k != [] && p != [] && k[0] != p[0]
    ensures !HasPrefix(k, p)
  {
    if |p| <= |k| { assert k[..|p|][0] == k[0]; }
  }

  // ---------------------------------------------------------------------------------------
  // The block hash inside block metadata

  /** The hash field recognised at offset `i`: 0x0a len 0x0a hashLen hash. */
  function HashAt(value: Bytes, i: nat): (h: Option<Bytes>)
    requires i + 34 < |value|
  {
    if value[i] == 0x0a && i + 2 + value[i + 1] as int <= |value| && value[i + 2] == 0x0a
       && 20 <= value[i + 3] <= 64 && i + 4 + value[i + 3] as int <= |value|
    then Some(value[i + 4..i + 4 + value[i + 3]]) else None
  }

  function FirstHash(value: Bytes, i: nat): (h: Option<Bytes>)
    decreases |value| - i
  {
    if i + 34 >= |value| then None
    else if HashAt(value, i).Some? then HashAt(value, i)
    else FirstHash(value, i + 1)
  }

  method ExtractBlockHashFromMetadata(value: Bytes) returns (h: Option<Bytes>)
    ensures h == FirstHash(value, 0)
  {
    if |value| < 35 { return None; }
    var i := 0;
    while i < |value| - 34
      invariant 0 <= i <= |value| - 34
      invariant FirstHash(value, 0) == FirstHash(value, i)
    {
      h := HashAt(value, i);
      if h.Some? { return h; }
      i := i + 1;
    }
    return None;
  }

  /** Metadata that starts with a BlockID whose first field is the hash yields that hash. */
  lemma {:induction false} LeadingBlockId(blockIdLen: Byte, hash: Bytes, rest: Bytes)
    requires 20 <= |hash| <= 64 && |hash| + |rest| >= 31 && blockIdLen <= 2 + |hash| + |rest|
    ensures FirstHash([0x0a, blockIdLen, 0x0a, |hash|] + hash + rest, 0) == Some(hash)
  {
    var value: Bytes := [0x0a, blockIdLen, 0x0a, |hash|] + hash + rest;
    assert value[..4] == [0x0a, blockIdLen, 0x0a, |hash|] && value[4..4 + |hash|] == hash;
    assert HashAt(value, 0) == Some(hash);
  }

  /** The bytes at `i` are a message of `len` bytes whose first field is `hash`. */
  predicate BlockIdAt(value: Bytes, i: int, len: Byte, hash: Bytes) {
    && 0 <= i < |value| - 34 && 20 <= |hash| <= 64 && i + 2 + len <= |value|
    && i + 4 + |hash| <= |value| && value[i..i + 4 + |hash|] == [0x0a, len, 0x0a, |hash|] + hash
  }

  lemma HashAtExact(value: Bytes, i: nat, hash: Bytes)
    requires i + 34 < |value|
    ensures HashAt(value, i) == Some(hash) <==> BlockIdAt(value, i, value[i + 1], hash)
  {
    var n := i + 4 + |hash|;
    if n <= |value| {
      var field := value[i..n];
      assert field[0] == value[i] && field[1] == value[i + 1] && field[2] == value[i + 2] && field[3] == value[i + 3];
      assert field == field[..4] + field[4..] && field[4..] == value[i + 4..n];
      if HashAt(value, i) == Some(hash) { assert field == [0x0a, value[i + 1], 0x0a, |hash|] + hash; }
      if 20 <= |hash| <= 64 && field == [0x0a, value[i + 1], 0x0a, |hash|] + hash { assert field[4..] == hash; }
    }
  }

  /** A hash is recognised at offset `i`. */
  ghost predicate HasHash(value: Bytes, i: int, hash: Bytes) {
    0 <= i < |value| - 34 && BlockIdAt(value, i, value[i + 1], hash)
  }

  /** The hash found is the one at the first offset that has one; there is none if no offset has. */
  lemma {:induction false} FirstHashExact(value: Bytes, i: nat, j: nat, hash: Bytes)
    requires i <= j && forall k, h :: i <= k < j ==> !HasHash(value, k, h)
    ensures HasHash(value, j, hash) ==> FirstHash(value, i) == Some(hash)
    ensures j + 34 >= |value| ==> FirstHash(value, i).None?
    decreases j - i
  {
    if i + 34 < |value| {
      HashAtExact(value, i, hash);
      if i < j {
        if HashAt(value, i).Some? {
          HashAtExact(value, i, HashAt(value, i).value);
          assert HasHash(value, i, HashAt(value, i).value);
        }
        FirstHashExact(value, i + 1, j, hash);
      }
    }
  }
}
