/**
 The cache of the pending-transaction snapshot, validated by an epoch counter.

 A transition system: the pool changes, changes are followed by an `invalidate` that bumps a
 64-bit counter, and readers under the mutex read the counter and then either reuse the stored
 snapshot or walk the pool. A walk takes time; the pool may change and invalidates may land
 while it runs, so all that is known of its result is that each transaction was seen present, or
 missed, at some moment of the walk.

 `pools` records every version of the pool, `count` the invalidates so far without the 64-bit
 wrap, and `invAt` the pool version at the last of them; the protocol does not branch on these.
 */
module PendingCache {
  import opened Common

  type Tx = nat

  /** What a reader saw when it read the counter. */
  datatype Seen = Seen(count: nat, invAt: nat)

  datatype Reader =
    | Free                                  // nobody holds the mutex
    | Locked
    | Read(seen: Seen)
    | Loading(seen: Seen, begin: nat)

  /** A snapshot handed out: its reader's view, and how many invalidates its load had missed. */
  datatype Answer = Answer(snapshot: set<Tx>, seen: Seen, gap: int)

  datatype State = State(
    pools: seq<set<Tx>>,
    count: nat,
    invAt: nat,
    reader: Reader,
    loaded: bool,
    snapshot: set<Tx>,
    stored: Seen,                           // what the reader that stored the snapshot had seen
    begin: nat,                             // the pool version when its walk began
    end: nat,                               // and when it ended
    answers: seq<Answer>)

  datatype Action =
    | Change(pool: set<Tx>)
    | Invalidate
    | Lock
    | ReadEpoch
    | ReturnHit
    | BeginLoad
    | EndLoad(walked: set<Tx>)

  function Init(pool: set<Tx>): (s: State) {
    State([pool], 0, 0, Free, false, {}, Seen(0, 0), 0, 0, [])
  }

  /** The version of the pool that is current. */
  function Now(s: State): (v: nat) { if s.pools == [] then 0 else |s.pools| - 1 }

  /** The counter as the code has it. */
  function Epoch(count: nat): (e: nat) { count % TWO_64 }

  /** `walked` could be the result of walking the pool from version `from` to version `to`. */
  ghost predicate Walk(pools: seq<set<Tx>>, from: int, to: int, walked: set<Tx>) {
    && 0 <= from <= to < |pools|
    && (forall x :: x in walked ==> exists v :: from <= v <= to && x in pools[v])
    && (forall x :: (forall v :: from <= v <= to ==> x in pools[v]) ==> x in walked)
  }

  predicate IsHit(s: State) { s.reader.Read? && s.loaded && Epoch(s.stored.count) == Epoch(s.reader.seen.count) }

  ghost predicate Enabled(s: State, a: Action) {
    match a
    case Change(_) => true
    case Invalidate => true
    case Lock => s.reader.Free?
    case ReadEpoch => s.reader.Locked?
    case ReturnHit => IsHit(s)
    case BeginLoad => s.reader.Read? && !IsHit(s)
    case EndLoad(walked) => s.reader.Loading? && Walk(s.pools, s.reader.begin, Now(s), walked)
  }

  ghost function Apply(s: State, a: Action): (r: State)
    requires Enabled(s, a)
  {
    match a
    case Change(pool) => s.(pools := s.pools + [pool])
    case Invalidate => s.(count := s.count + 1, invAt := Now(s))
    case Lock => s.(reader := Locked)
    case ReadEpoch => s.(reader := Read(Seen(s.count, s.invAt)))
    case ReturnHit =>
      s.(reader := Free,
         answers := s.answers + [Answer(s.snapshot, s.reader.seen, s.reader.seen.count - s.stored.count)])
    case BeginLoad => s.(reader := Loading(s.reader.seen, Now(s)))
    case EndLoad(walked) =>
      s.(reader := Free, loaded := true, snapshot := walked, stored := s.reader.seen,
         begin := s.reader.begin, end := Now(s),
         answers := s.answers + [Answer(walked, s.reader.seen, 0)])
  }

  ghost predicate IsRun(b: seq<State>, acts: seq<Action>) {
    && |b| == |acts| + 1
    && (exists pool :: b[0] == Init(pool))
    && (forall i :: 0 <= i < |acts| ==> Enabled(b[i], acts[i]) && b[i + 1] == Apply(b[i], acts[i]))
  }

  /**
   The snapshot reflects every change followed by an invalidate the reader could see: a
   transaction present in every pool version since that invalidate is in it, and whatever is in
   it was in the pool at that invalidate or later.
   */
  ghost predicate Fresh(pools: seq<set<Tx>>, a: Answer) {
    && (forall x :: (forall v :: a.seen.invAt <= v < |pools| ==> x in pools[v]) ==> x in a.snapshot)
    && (forall x :: x in a.snapshot ==> exists v :: a.seen.invAt <= v < |pools| && x in pools[v])
  }

  ghost predicate SeenOk(s: State, seen: Seen) {
    && seen.count <= s.count && seen.invAt <= s.invAt
    && (seen.count == s.count ==> seen.invAt == s.invAt)
  }

  ghost predicate Inv(s: State) {
    && s.pools != [] && s.invAt < |s.pools|
    && (s.reader.Read? || s.reader.Loading? ==> SeenOk(s, s.reader.seen))
    && (s.reader.Loading? ==> s.reader.seen.invAt <= s.reader.begin < |s.pools|)
    && (s.loaded ==> SeenOk(s, s.stored) && s.stored.invAt <= s.begin && Walk(s.pools, s.begin, s.end, s.snapshot))
    && (s.loaded && (s.reader.Read? || s.reader.Loading?) ==>
          && s.stored.count <= s.reader.seen.count
          && (s.stored.count == s.reader.seen.count ==> s.stored.invAt == s.reader.seen.invAt))
    && (forall i :: 0 <= i < |s.answers| ==>
          && s.answers[i].gap % TWO_64 == 0 && s.answers[i].gap >= 0
          && (s.answers[i].gap == 0 ==> Fresh(s.pools, s.answers[i])))
  }

  lemma WalkGrows(pools: seq<set<Tx>>, pool: set<Tx>, from: int, to: int, walked: set<Tx>)
    requires Walk(pools, from, to, walked)
    ensures Walk(pools + [pool], from, to, walked)
  {
    var more := pools + [pool];
    forall x | x in walked ensures exists v :: from <= v <= to && x in more[v] {
      var v :| from <= v <= to && x in pools[v];
      assert x in more[v];
    }
    forall x | forall v :: from <= v <= to ==> x in more[v] ensures x in walked {
      assert forall v :: from <= v <= to ==> x in pools[v] by {
        forall v | from <= v <= to ensures x in pools[v] { assert x in more[v]; }
      }
    }
  }

  lemma FreshGrows(pools: seq<set<Tx>>, pool: set<Tx>, a: Answer)
    requires Fresh(pools, a)
    ensures Fresh(pools + [pool], a)
  {
    var more := pools + [pool];
    forall x | forall v :: a.seen.invAt <= v < |more| ==> x in more[v] ensures x in a.snapshot {
      forall v | a.seen.invAt <= v < |pools| ensures x in pools[v] { assert x in more[v]; }
    }
    forall x | x in a.snapshot ensures exists v :: a.seen.invAt <= v < |more| && x in more[v] {
      var v :| a.seen.invAt <= v < |pools| && x in pools[v];
      assert x in more[v];
    }
  }

  /** A walk that began no earlier than the invalidate the reader saw gives a fresh answer. */
  lemma WalkIsFresh(pools: seq<set<Tx>>, from: int, to: int, a: Answer)
    requires Walk(pools, from, to, a.snapshot) && a.seen.invAt <= from
    ensures Fresh(pools, a)
  {
  }

  lemma StepInv(s: State, a: Action)
    requires Inv(s) && Enabled(s, a)
    ensures Inv(Apply(s, a))
  {
    match a
    case Change(pool) =>
      if s.loaded { WalkGrows(s.pools, pool, s.begin, s.end, s.snapshot); }
      forall i | 0 <= i < |s.answers| && s.answers[i].gap == 0 ensures Fresh(s.pools + [pool], s.answers[i]) {
        FreshGrows(s.pools, pool, s.answers[i]);
      }
    case ReturnHit =>
      var ans := Answer(s.snapshot, s.reader.seen, s.reader.seen.count - s.stored.count);
      if ans.gap == 0 { WalkIsFresh(s.pools, s.begin, s.end, ans); }
    case EndLoad(walked) =>
      WalkIsFresh(s.pools, s.reader.begin, Now(s), Answer(walked, s.reader.seen, 0));
    case _ =>
  }

  lemma {:induction false} RunInv(b: seq<State>, acts: seq<Action>, i: nat)
    requires IsRun(b, acts) && i < |b|
    ensures Inv(b[i])
  {
    if i > 0 {
      RunInv(b, acts, i - 1);
      StepInv(b[i - 1], acts[i - 1]);
    }
  }

  /**
   Every snapshot handed out is fresh, as long as fewer than 2^64 invalidates separate it from
   the load it came from; that load is then the reader's own or one no invalidate has followed.
   */
  lemma AnswersAreFresh(b: seq<State>, acts: seq<Action>, i: nat, k: nat)
    requires IsRun(b, acts) && i < |b| && k < |b[i].answers|
    ensures b[i].answers[k].gap < TWO_64 <==> b[i].answers[k].gap == 0
    ensures b[i].answers[k].gap < TWO_64 ==> Fresh(b[i].pools, b[i].answers[k])
  {
    RunInv(b, acts, i);
    var gap := b[i].answers[k].gap;
    if 0 <= gap < TWO_64 { assert gap % TWO_64 == gap; }
  }

  /** `n` invalidates in a row. */
  ghost function Invalidates(s: State, n: nat): (r: State)
    ensures r.pools == s.pools && r.reader == s.reader
  {
    if n == 0 then s else Apply(Invalidates(s, n - 1), Invalidate)
  }

  lemma {:induction false} InvalidatesCount(s: State, n: nat)
    ensures Invalidates(s, n) == s.(count := s.count + n, invAt := if n == 0 then s.invAt else Now(s))
  {
    if n > 0 { InvalidatesCount(s, n - 1); }
  }

  /**
   The bound is needed: after exactly 2^64 invalidates the counter is back where it was, and a
   reader is handed the old snapshot although the pool change was followed by an invalidate.
   */
  lemma WrapServesStale(s: State, x: Tx)
    requires Inv(s) && s.reader.Free? && s.loaded && s.stored.count == s.count && x !in s.snapshot
    ensures var changed := Apply(s, Change({x}));
            var wrapped := Invalidates(changed, TWO_64);
            var reading := Apply(Apply(wrapped, Lock), ReadEpoch);
            IsHit(reading) && !Fresh(reading.pools, Answer(reading.snapshot, reading.reader.seen, TWO_64))
  {
    var changed := Apply(s, Change({x}));
    InvalidatesCount(changed, TWO_64);
    var reading := Apply(Apply(Invalidates(changed, TWO_64), Lock), ReadEpoch);
    assert (s.count + TWO_64) % TWO_64 == s.count % TWO_64;
    assert reading.reader.seen.invAt == |reading.pools| - 1 && reading.pools[|reading.pools| - 1] == {x};
  }

  // ---------------------------------------------------------------------------------------
  // When the pool is walked again

  lemma SameResidue(a: int, b: int, m: int)
    requires m > 0
    ensures a % m == b % m <==> (a - b) % m == 0
  {
    var p, q, r := a / m, b / m, (a - b) / m;
    assert a == p * m + a % m && b == q * m + b % m && a - b == r * m + (a - b) % m;
    if a % m == b % m {
      assert a - b == (p - q) * m;
      MultipleHasNoRest(p - q, m);
    }
    if (a - b) % m == 0 {
      assert a == (q + r) * m + b % m by { assert (q + r) * m == q * m + r * m; }
      RestIsUnique(q + r, b % m, m);
    }
  }

  lemma MultipleHasNoRest(n: int, m: int)
    requires m > 0
    ensures n * m % m == 0
  {
    RestIsUnique(n, 0, m);
  }

  lemma RestIsUnique(n: int, r: int, m: int)
    requires m > 0 && 0 <= r < m
    ensures (n * m + r) % m == r
  {
    var x := n * m + r;
    var d := x / m - n;
    assert x == (x / m) * m + x % m && d * m == (x / m) * m - n * m;
    assert -m < d * m < m;
  }

  /**
   In every run a reader that has read the counter reuses the stored snapshot if and only if there
   is one and the invalidates since the counter was read for it are a multiple of 2^64; so it
   reuses it if there were none, and walks the pool if there were fewer than 2^64.
   */
  lemma HitExact(b: seq<State>, acts: seq<Action>, i: nat)
    requires IsRun(b, acts) && i < |b| && b[i].reader.Read?
    ensures Enabled(b[i], ReturnHit) <==> b[i].loaded && (b[i].reader.seen.count - b[i].stored.count) % TWO_64 == 0
    ensures Enabled(b[i], BeginLoad) <==> !Enabled(b[i], ReturnHit)
    ensures b[i].loaded && b[i].reader.seen.count == b[i].stored.count ==> Enabled(b[i], ReturnHit)
    ensures 0 < b[i].reader.seen.count - b[i].stored.count < TWO_64 ==> Enabled(b[i], BeginLoad)
  {
    SameResidue(b[i].stored.count, b[i].reader.seen.count, TWO_64);
    SameResidue(b[i].reader.seen.count, b[i].stored.count, TWO_64);
  }

  /** The number of invalidates among the first `n` actions. */
  function InvalidatesIn(acts: seq<Action>, n: nat): (k: nat)
    requires n <= |acts|
  {
    if n == 0 then 0 else InvalidatesIn(acts, n - 1) + if acts[n - 1].Invalidate? then 1 else 0
  }

  lemma {:induction false} CountIsInvalidates(b: seq<State>, acts: seq<Action>, i: nat)
    requires IsRun(b, acts) && i < |b|
    ensures b[i].count == InvalidatesIn(acts, i)
  {
    if i > 0 {
      CountIsInvalidates(b, acts, i - 1);
      assert b[i] == Apply(b[i - 1], acts[i - 1]);
    }
  }

  /** Nothing but a load changes what is stored. */
  lemma {:induction false} StoredStays(b: seq<State>, acts: seq<Action>, i: nat, j: nat)
    requires IsRun(b, acts) && i <= j < |b| && (forall k :: i <= k < j ==> !acts[k].EndLoad?)
    ensures b[j].loaded == b[i].loaded && b[j].snapshot == b[i].snapshot && b[j].stored == b[i].stored
  {
    if i < j {
      StoredStays(b, acts, i, j - 1);
      assert b[j] == Apply(b[j - 1], acts[j - 1]);
    }
  }

  /** A load is remembered: a read with no invalidate and no other load in between is handed the same snapshot. */
  lemma LoadIsReused(b: seq<State>, acts: seq<Action>, i: nat, j: nat)
    requires IsRun(b, acts) && i < j < |acts| && acts[i].EndLoad? && acts[j] == ReadEpoch
    requires forall k :: i < k < j ==> !acts[k].EndLoad?
    requires b[i].reader.seen.count == InvalidatesIn(acts, j)
    ensures Enabled(b[j + 1], ReturnHit) && b[j + 1].snapshot == acts[i].walked
  {
    assert Enabled(b[i], acts[i]) && b[i + 1] == Apply(b[i], acts[i]);
    assert Enabled(b[j], acts[j]) && b[j + 1] == Apply(b[j], acts[j]);
    StoredStays(b, acts, i + 1, j);
    CountIsInvalidates(b, acts, j);
  }

  // ---------------------------------------------------------------------------------------
  // The failing state is reached

  ghost predicate Reachable(s: State) {
    exists b, acts :: IsRun(b, acts) && b[|acts|] == s
  }

  lemma ReachableStep(s: State, a: Action)
    requires Reachable(s) && Enabled(s, a)
    ensures Reachable(Apply(s, a))
  {
    var b, acts :| IsRun(b, acts) && b[|acts|] == s;
    var b', acts' := b + [Apply(s, a)], acts + [a];
    forall i | 0 <= i < |acts'| ensures Enabled(b'[i], acts'[i]) && b'[i + 1] == Apply(b'[i], acts'[i]) {
      if i < |acts| { assert Enabled(b[i], acts[i]) && b[i + 1] == Apply(b[i], acts[i]); }
    }
    assert IsRun(b', acts') && b'[|acts'|] == Apply(s, a);
  }

  lemma {:induction false} ReachableInvalidates(s: State, n: nat)
    requires Reachable(s)
    ensures Reachable(Invalidates(s, n))
  {
    if n > 0 {
      ReachableInvalidates(s, n - 1);
      ReachableStep(Invalidates(s, n - 1), Invalidate);
    }
  }

  /** A walk while nothing changes returns the pool. */
  lemma WalkOne(pools: seq<set<Tx>>, pool: set<Tx>)
    requires pools == [pool]
    ensures Walk(pools, 0, 0, pool)
  {
    forall x | forall v :: 0 <= v <= 0 ==> x in pools[v] ensures x in pool { assert x in pools[0]; }
    forall x | x in pool ensures exists v :: 0 <= v <= 0 && x in pools[v] { assert x in pools[0]; }
  }

  /** The state of an empty pool after one read has cached its empty snapshot. */
  lemma FirstLoad() returns (s: State)
    ensures Reachable(s) && Inv(s) && s.reader.Free? && s.loaded && s.stored.count == s.count && s.snapshot == {}
    ensures s.answers == [Answer({}, Seen(0, 0), 0)]
  {
    s := Init({});
    var none: seq<Action> := [];
    assert IsRun([s], none) && [s][|none|] == s;
    ReachableStep(s, Lock);
    s := Apply(s, Lock);
    ReachableStep(s, ReadEpoch);
    s := Apply(s, ReadEpoch);
    ReachableStep(s, BeginLoad);
    s := Apply(s, BeginLoad);
    WalkOne(s.pools, {});
    ReachableStep(s, EndLoad({}));
    s := Apply(s, EndLoad({}));
    var b, acts :| IsRun(b, acts) && b[|acts|] == s;
    RunInv(b, acts, |acts|);
  }

  /**
   A run from the start that hands out a stale snapshot: load, one change, 2^64 invalidates, read.
   The second answer misses the transaction although its admission was followed by an invalidate.
   */
  lemma StaleAnswerReached(x: Tx) returns (s: State)
    ensures Reachable(s) && |s.answers| == 2 && !Fresh(s.pools, s.answers[1]) && s.answers[1].gap == TWO_64
  {
    s := FirstLoad();
    WrapServesStale(s, x);
    ReachableStep(s, Change({x}));
    s := Apply(s, Change({x}));
    ReachableInvalidates(s, TWO_64);
    InvalidatesCount(s, TWO_64);
    s := Invalidates(s, TWO_64);
    ReachableStep(s, Lock);
    s := Apply(s, Lock);
    ReachableStep(s, ReadEpoch);
    s := Apply(s, ReadEpoch);
    ReachableStep(s, ReturnHit);
    s := Apply(s, ReturnHit);
  }
}
