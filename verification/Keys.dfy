/**
 Byte-string keys in lexicographic order, iterators over a key-value store, and the scan of a
 key prefix through a half-open range.
 */
module Keys {
  import opened Common

  type Db = map<Bytes, Bytes>

  // ---------------------------------------------------------------------------------------
  // The order

  predicate Below(a: Bytes, b: Bytes) {
    b != [] && (a == [] || a[0] < b[0] || (a[0] == b[0] && Below(a[1..], b[1..])))
  }

  predicate HasPrefix(k: Bytes, p: Bytes) { |p| <= |k| && k[..|p|] == p }

  lemma {:induction false} BelowIrreflexive(a: Bytes)
    ensures !Below(a, a)
  {
    if a != [] { BelowIrreflexive(a[1..]); }
  }

  lemma {:induction false} BelowTransitive(a: Bytes, b: Bytes, c: Bytes)
    requires Below(a, b) && Below(b, c)
    ensures Below(a, c)
  {
    if a != [] && a[0] == b[0] == c[0] { BelowTransitive(a[1..], b[1..], c[1..]); }
  }

  lemma {:induction false} BelowTotal(a: Bytes, b: Bytes)
    ensures a == b || Below(a, b) || Below(b, a)
  {
    if a != [] && b != [] && a[0] == b[0] {
      BelowTotal(a[1..], b[1..]);
      assert a == [a[0]] + a[1..] && b == [b[0]] + b[1..];
    }
  }

  /** Two keys that agree up to `i` are ordered by what follows. */
  lemma {:induction false} BelowCommon(a: Bytes, b: Bytes, i: nat)
    requires i <= |a| && i <= |b| && a[..i] == b[..i]
    ensures Below(a, b) <==> Below(a[i..], b[i..])
  {
    if i > 0 {
      assert a[0] == a[..i][0] == b[..i][0] == b[0];
      assert a[1..][..i - 1] == a[..i][1..] && b[1..][..i - 1] == b[..i][1..];
      BelowCommon(a[1..], b[1..], i - 1);
      assert a[1..][i - 1..] == a[i..] && b[1..][i - 1..] == b[i..];
    } else {
      assert a[0..] == a && b[0..] == b;
    }
  }

  // ---------------------------------------------------------------------------------------
  // Iterators

  /** A range [start, end); no end means no upper bound. */
  datatype Range = Range(start: Bytes, end: Option<Bytes>)

  predicate InRange(k: Bytes, r: Range) {
    !Below(k, r.start) && (r.end.Some? ==> Below(k, r.end.value))
  }

  ghost predicate Ascending(ks: seq<Bytes>) {
    forall i, j :: 0 <= i < j < |ks| ==> Below(ks[i], ks[j])
  }

  /** `ks` are the keys an iterator over the range yields, in order. */
  ghost predicate Iterates(ks: seq<Bytes>, db: Db, r: Range) {
    && Ascending(ks)
    && (forall k :: k in ks <==> k in db && InRange(k, r))
  }

  /** Ascending keys do not repeat: a key is none of those before it. */
  lemma AscendingFresh(ks: seq<Bytes>, i: nat)
    requires Ascending(ks) && i < |ks|
    ensures ks[i] !in ks[..i]
  {
    BelowIrreflexive(ks[i]);
  }

  lemma {:induction false} AscendingLength(ks: seq<Bytes>)
    requires Ascending(ks)
    ensures |ks| == |set k | k in ks|
  {
    if ks != [] {
      var front, k := ks[..|ks| - 1], ks[|ks| - 1];
      AscendingLength(front);
      AscendingFresh(ks, |ks| - 1);
      assert (set x | x in ks) == (set x | x in front) + {k} by { assert ks == front + [k]; }
    }
  }

  /** The keys of an enumeration that `mark` marks. */
  function Marked(ks: seq<Bytes>, mark: Bytes -> bool): (r: set<Bytes>) { set k | k in ks && mark(k) }

  function CountMarked(ks: seq<Bytes>, mark: Bytes -> bool): (n: nat) {
    if ks == [] then 0 else CountMarked(ks[..|ks| - 1], mark) + if mark(ks[|ks| - 1]) then 1 else 0
  }

  lemma CountMarkedLast(ks: seq<Bytes>, mark: Bytes -> bool)
    requires ks != []
    ensures CountMarked(ks, mark) == CountMarked(ks[..|ks| - 1], mark) + if mark(ks[|ks| - 1]) then 1 else 0
  {
  }

  lemma MarkedAppend(front: seq<Bytes>, k: Bytes, mark: Bytes -> bool)
    requires k !in front
    ensures |Marked(front + [k], mark)| == |Marked(front, mark)| + if mark(k) then 1 else 0
  {
    var a, b := Marked(front, mark), Marked(front + [k], mark);
    if mark(k) { assert b == a + {k}; } else { assert b == a; }
  }

  /** In an enumeration every key is counted once. */
  lemma {:induction false} CountedOnce(ks: seq<Bytes>, mark: Bytes -> bool)
    requires Ascending(ks)
    ensures CountMarked(ks, mark) == |Marked(ks, mark)|
  {
    if ks != [] {
      var front, k := ks[..|ks| - 1], ks[|ks| - 1];
      CountedOnce(front, mark);
      AscendingFresh(ks, |ks| - 1);
      MarkedAppend(front, k, mark);
      assert ks == front + [k];
    } else {
      assert Marked(ks, mark) == {};
    }
  }

  function KeysIn(db: Db, r: Range): (s: set<Bytes>) { set k | k in db && InRange(k, r) }

  lemma {:induction false} Minimum(s: set<Bytes>) returns (m: Bytes)
    requires s != {}
    ensures m in s && forall k :: k in s && k != m ==> Below(m, k)
  {
    m :| m in s;
    if s != {m} {
      var m' := Minimum(s - {m});
      BelowTotal(m, m');
      if Below(m', m) {
        m := m';
      } else {
        forall k | k in s && k != m ensures Below(m, k) {
          if k != m' { BelowTransitive(m, m', k); }
        }
      }
    }
  }

  /** `Iterates` can be met: every range of every store has such an enumeration of its keys. */
  lemma {:induction false} IteratorExists(db: Db, r: Range) returns (ks: seq<Bytes>)
    ensures Iterates(ks, db, r)
  {
    ks := Sort(KeysIn(db, r));
  }

  lemma {:induction false} Sort(s: set<Bytes>) returns (ks: seq<Bytes>)
    ensures Ascending(ks) && forall k :: k in ks <==> k in s
  {
    if s == {} {
      ks := [];
    } else {
      var m := Minimum(s);
      var rest := Sort(s - {m});
      ks := [m] + rest;
      forall i, j | 0 <= i < j < |ks| ensures Below(ks[i], ks[j]) {
        if i == 0 { assert rest[j - 1] in rest; }
      }
    }
  }

  // ---------------------------------------------------------------------------------------
  // The bound incrementBytes computes

  /** The key plus one as a big-endian number of the same length, or None on overflow. */
  function Incremented(b: Bytes): (r: Option<Bytes>) {
    if b == [] then None
    else
      var front, last := b[..|b| - 1], b[|b| - 1];
      if last < 0xFF then Some(front + [last + 1])
      else
        var f := Incremented(front);
        if f.None? then None else Some(f.value + [0])
  }

  function Zeros(n: nat): (z: Bytes)
    ensures |z| == n && forall i :: 0 <= i < n ==> z[i] == 0
  {
    if n == 0 then [] else Zeros(n - 1) + [0]
  }

  /** The carry stops at `i`, the last byte below 0xFF. */
  lemma {:induction false} IncrementedAt(b: Bytes, i: nat)
    requires i < |b| && b[i] < 0xFF && forall k :: i < k < |b| ==> b[k] == 0xFF
    ensures Incremented(b) == Some(b[..i] + [b[i] + 1] + Zeros(|b| - i - 1))
  {
    if i < |b| - 1 {
      var front := b[..|b| - 1];
      IncrementedAt(front, i);
      assert front[..i] == b[..i];
      assert front[..i] + [b[i] + 1] + Zeros(|b| - i - 2) + [0] == b[..i] + [b[i] + 1] + Zeros(|b| - i - 1);
    } else {
      assert b[..i] + [b[i] + 1] + Zeros(0) == b[..i] + [b[i] + 1];
    }
  }

  lemma {:induction false} IncrementedNone(b: Bytes)
    requires forall k :: 0 <= k < |b| ==> b[k] == 0xFF
    ensures Incremented(b).None?
  {
    if b != [] { IncrementedNone(b[..|b| - 1]); }
  }

  /** The backward loop of incrementBytes over a private copy. */
  method IncrementBytes(b: Bytes) returns (r: Option<Bytes>)
    ensures r == Incremented(b)
  {
    if |b| == 0 { return None; }
    var a := new Byte[|b|](i requires 0 <= i < |b| => b[i]);
    var i := |b|;
    while i > 0
      invariant 0 <= i <= |b| == a.Length
      invariant forall k :: 0 <= k < i ==> a[k] == b[k]
      invariant forall k :: i <= k < |b| ==> a[k] == 0 && b[k] == 0xFF
    {
      i := i - 1;
      if a[i] < 0xFF {
        a[i] := a[i] + 1;
        IncrementedAt(b, i);
        assert a[..] == b[..i] + [b[i] + 1] + Zeros(|b| - i - 1);
        return Some(a[..]);
      }
      a[i] := 0;
    }
    IncrementedNone(b);
    return None;
  }

  /** The key as a big-endian number. */
  function Number(b: Bytes): (n: nat) { if b == [] then 0 else 256 * Number(b[..|b| - 1]) + b[|b| - 1] }

  /** The bound is the next number of the same length; there is none exactly when all bytes are 0xFF. */
  lemma {:induction false} IncrementedIsNext(b: Bytes)
    ensures Incremented(b).Some? ==> |Incremented(b).value| == |b| && Number(Incremented(b).value) == Number(b) + 1
    ensures Incremented(b).None? <==> forall k :: 0 <= k < |b| ==> b[k] == 0xFF
  {
    if b != [] {
      var front, last := b[..|b| - 1], b[|b| - 1];
      IncrementedIsNext(front);
      if last < 0xFF {
        assert Incremented(b).value[..|b| - 1] == front;
      } else if Incremented(front).Some? {
        assert Incremented(b).value[..|b| - 1] == Incremented(front).value;
      }
    }
  }

  // ---------------------------------------------------------------------------------------
  // The scan of a prefix

  lemma PrefixNotBelow(k: Bytes, p: Bytes)
    requires HasPrefix(k, p)
    ensures !Below(k, p)
  {
    BelowCommon(k, p, |p|);
    assert p[|p|..] == [];
  }

  /** A key below the incremented prefix, and every key above it, as the carry sees them. */
  lemma PrefixBelowIncremented(k: Bytes, p: Bytes)
    requires HasPrefix(k, p) && Incremented(p).Some?
    ensures Below(k, Incremented(p).value)
  {
    var i := LastLow(p);
    IncrementedAt(p, i);
    var q := Incremented(p).value;
    assert k[..i] == p[..i] by { assert k[..i] == k[..|p|][..i]; }
    assert q[..i] == p[..i];
    BelowCommon(k, q, i);
    assert k[i] == p[i] by { assert k[i] == k[..|p|][i]; }
  }

  /** The last byte below 0xFF of a prefix that can be incremented. */
  lemma {:induction false} LastLow(p: Bytes) returns (i: nat)
    requires Incremented(p).Some?
    ensures i < |p| && p[i] < 0xFF && forall k :: i < k < |p| ==> p[k] == 0xFF
  {
    if p[|p| - 1] < 0xFF { i := |p| - 1; } else { i := LastLow(p[..|p| - 1]); }
  }

  lemma PrefixTail(k: Bytes, p: Bytes)
    requires k != [] && p != [] && k[0] == p[0]
    ensures HasPrefix(k, p) <==> HasPrefix(k[1..], p[1..])
  {
    assert p == [p[0]] + p[1..];
    if |p| <= |k| { assert k[..|p|] == [k[0]] + k[1..][..|p| - 1]; }
  }

  /** A key at or above the prefix that does not have it lies above every key that does. */
  lemma {:induction false} PastPrefix(k: Bytes, with: Bytes, p: Bytes)
    requires !Below(k, p) && !HasPrefix(k, p) && HasPrefix(with, p)
    ensures Below(with, k)
  {
    if p != [] {
      assert with[0] == with[..|p|][0] == p[0];
      PrefixTail(with, p);
      if k[0] == p[0] {
        PrefixTail(k, p);
        PastPrefix(k[1..], with[1..], p[1..]);
      }
    }
  }

  /** So the scan may stop at the first key without the prefix. */
  lemma BreakLosesNothing(ks: seq<Bytes>, p: Bytes, i: nat, j: nat)
    requires Ascending(ks) && i < |ks| && j < |ks|
    requires !HasPrefix(ks[i], p) && !Below(ks[i], p) && HasPrefix(ks[j], p)
    ensures j < i
  {
    if i < j {
      PastPrefix(ks[i], ks[j], p);
      BelowIrreflexive(ks[i]);
      BelowTransitive(ks[i], ks[j], ks[i]);
    }
  }

  function PrefixRange(p: Bytes): (r: Range) { Range(p, Incremented(p)) }

  /** The loop that walks [p, incrementBytes(p)) and breaks at the first key without the prefix. */
  method ScanPrefix(ks: seq<Bytes>, ghost db: Db, p: Bytes) returns (found: seq<Bytes>)
    requires Iterates(ks, db, PrefixRange(p))
    ensures Ascending(found)
    ensures forall k :: k in found <==> k in db && HasPrefix(k, p)
  {
    var i := 0;
    while i < |ks| && HasPrefix(ks[i], p)
      invariant 0 <= i <= |ks|
      invariant forall j :: 0 <= j < i ==> HasPrefix(ks[j], p)
    {
      i := i + 1;
    }
    found := ks[..i];
    forall k | k in db && HasPrefix(k, p) ensures k in found {
      PrefixNotBelow(k, p);
      if Incremented(p).Some? { PrefixBelowIncremented(k, p); }
      var j :| 0 <= j < |ks| && ks[j] == k;
      if i < |ks| {
        assert ks[i] in ks;
        BreakLosesNothing(ks, p, i, j);
      }
      assert found[j] == k;
    }
  }
}
