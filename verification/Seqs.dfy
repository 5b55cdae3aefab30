/** Sequences without repetition, the elements of a sequence that lie in a set, and sums. */
module Seqs {
  ghost predicate Distinct<T>(s: seq<T>) {
    forall i, j :: 0 <= i < j < |s| ==> s[i] != s[j]
  }

  /** The elements of `s` that lie in `keep`, in order. */
  function Keep<T(==)>(s: seq<T>, keep: set<T>): (r: seq<T>) {
    if s == [] then []
    else Keep(s[..|s| - 1], keep) + (if s[|s| - 1] in keep then [s[|s| - 1]] else [])
  }

  lemma KeepNext<T>(s: seq<T>, keep: set<T>, i: nat)
    requires i < |s|
    ensures Keep(s[..i + 1], keep) == Keep(s[..i], keep) + (if s[i] in keep then [s[i]] else [])
  {
    assert s[..i + 1][..i] == s[..i];
  }

  lemma {:induction false} KeepMember<T>(s: seq<T>, keep: set<T>, x: T)
    ensures x in Keep(s, keep) <==> x in s && x in keep
  {
    if s != [] {
      KeepMember(s[..|s| - 1], keep, x);
      assert s == s[..|s| - 1] + [s[|s| - 1]];
    }
  }

  lemma {:induction false} KeepDistinct<T>(s: seq<T>, keep: set<T>)
    requires Distinct(s)
    ensures Distinct(Keep(s, keep))
  {
    if s != [] {
      KeepDistinct(s[..|s| - 1], keep);
      KeepMember(s[..|s| - 1], keep, s[|s| - 1]);
    }
  }

  /** Dropping elements moves the survivors towards the front, never back. */
  lemma {:induction false} KeepPosition<T>(s: seq<T>, keep: set<T>, i: nat) returns (j: nat)
    requires i < |s| && s[i] in keep
    ensures j <= i && j < |Keep(s, keep)| && Keep(s, keep)[j] == s[i]
  {
    if i < |s| - 1 {
      j := KeepPosition(s[..|s| - 1], keep, i);
    } else {
      j := |Keep(s[..|s| - 1], keep)|;
      KeepLength(s[..|s| - 1], keep);
    }
  }

  /** ... and keeps them in order. */
  lemma {:induction false} KeepOrder<T>(s: seq<T>, keep: set<T>, i: nat, j: nat) returns (p: nat, q: nat)
    requires i < j < |s| && s[i] in keep && s[j] in keep
    ensures p < q < |Keep(s, keep)| && Keep(s, keep)[p] == s[i] && Keep(s, keep)[q] == s[j]
  {
    if j < |s| - 1 {
      p, q := KeepOrder(s[..|s| - 1], keep, i, j);
    } else {
      p := KeepPosition(s[..j], keep, i);
      q := |Keep(s[..j], keep)|;
    }
  }

  lemma {:induction false} KeepLength<T>(s: seq<T>, keep: set<T>)
    ensures |Keep(s, keep)| <= |s|
  {
    if s != [] { KeepLength(s[..|s| - 1], keep); }
  }

  lemma DistinctCount<T>(s: seq<T>, x: T)
    requires Distinct(s)
    ensures multiset(s)[x] == if x in s then 1 else 0
  {
    if x in s {
      var i :| 0 <= i < |s| && s[i] == x;
      assert s == s[..i] + [x] + s[i + 1..];
      assert x !in s[..i] && x !in s[i + 1..];
    }
  }

  lemma DistinctConcat<T>(s: seq<T>, t: seq<T>)
    requires Distinct(s) && Distinct(t) && (forall x :: x in s ==> x !in t)
    ensures Distinct(s + t)
  {
    forall i, j | 0 <= i < j < |s + t| ensures (s + t)[i] != (s + t)[j] {
      if i < |s| <= j { assert s[i] in s && t[j - |s|] in t; }
    }
  }

  function Total<T>(size: T -> nat, s: seq<T>): (n: nat) {
    if s == [] then 0 else Total(size, s[..|s| - 1]) + size(s[|s| - 1])
  }

  lemma TotalAppend<T>(size: T -> nat, s: seq<T>, x: T)
    ensures Total(size, s + [x]) == Total(size, s) + size(x)
  {
    assert (s + [x])[..|s|] == s;
  }

  lemma {:induction false} TotalOfPart<T>(size: T -> nat, s: seq<T>, i: nat)
    requires i <= |s|
    ensures Total(size, s[..i]) <= Total(size, s)
  {
    if i < |s| {
      TotalOfPart(size, s[..|s| - 1], i);
      assert s[..|s| - 1][..i] == s[..i];
    } else {
      assert s[..i] == s;
    }
  }

  lemma CountLast<T>(s: seq<T>, x: T)
    requires s != []
    ensures multiset(s)[x] == multiset(s[..|s| - 1])[x] + if s[|s| - 1] == x then 1 else 0
  {
    assert s == s[..|s| - 1] + [s[|s| - 1]];
  }

  lemma {:induction false} SubsetCount<T>(a: set<T>, b: set<T>)
    requires a <= b
    ensures |a| <= |b|
  {
    if a != {} {
      var x :| x in a;
      SubsetCount(a - {x}, b - {x});
    }
  }

  /** The elements of `s` at the indices that `keep` picks, in order. */
  ghost function Picked<T>(s: seq<T>, keep: nat -> bool): (r: seq<T>) {
    if s == [] then [] else Picked(s[..|s| - 1], keep) + if keep(|s| - 1) then [s[|s| - 1]] else []
  }

  lemma PickedNext<T>(s: seq<T>, keep: nat -> bool, i: nat)
    requires i < |s|
    ensures Picked(s[..i + 1], keep) == Picked(s[..i], keep) + if keep(i) then [s[i]] else []
  {
    assert s[..i + 1][..i] == s[..i];
  }

  lemma {:induction false} PickedSame<T>(s: seq<T>, a: nat -> bool, b: nat -> bool)
    requires forall i: nat :: i < |s| ==> a(i) == b(i)
    ensures Picked(s, a) == Picked(s, b)
  {
    if s != [] { PickedSame(s[..|s| - 1], a, b); }
  }

  lemma {:induction false} PickedMember<T>(s: seq<T>, keep: nat -> bool, x: T)
    ensures x in Picked(s, keep) <==> exists i: nat :: i < |s| && keep(i) && s[i] == x
  {
    if s != [] {
      var front := s[..|s| - 1];
      PickedMember(front, keep, x);
      if i: nat :| i < |front| && keep(i) && front[i] == x { assert s[i] == x; }
      if i: nat :| i < |s| && keep(i) && s[i] == x { assert i < |front| ==> front[i] == x; }
    }
  }

  /** `s` is what is left of `t` when some elements are dropped. */
  ghost predicate Subsequence<T(!new)>(s: seq<T>, t: seq<T>) {
    if s == [] then true
    else exists i :: 0 <= i < |t| && t[i] == s[|s| - 1] && Subsequence(s[..|s| - 1], t[..i])
  }

  lemma {:induction false} SubsequenceGrows<T(!new)>(s: seq<T>, t: seq<T>, n: nat)
    requires n <= |t| && Subsequence(s, t[..n])
    ensures Subsequence(s, t)
  {
    if s != [] {
      var i :| 0 <= i < n && t[..n][i] == s[|s| - 1] && Subsequence(s[..|s| - 1], t[..n][..i]);
      assert t[..n][..i] == t[..i];
    }
  }

  lemma {:induction false} PickedIsSubsequence<T(!new)>(s: seq<T>, keep: nat -> bool)
    ensures Subsequence(Picked(s, keep), s)
  {
    if s != [] {
      var n, r := |s| - 1, Picked(s, keep);
      PickedIsSubsequence(s[..n], keep);
      if keep(n) {
        assert r[..|r| - 1] == Picked(s[..n], keep) && s[n] == r[|r| - 1];
      } else {
        assert r == Picked(s[..n], keep);
        SubsequenceGrows(r, s, n);
      }
    }
  }
}
