/**
 The gossip throttle and the reap scan that uses it.

 The tracker remembers when each transaction hash was last gossiped and prunes what has expired.
 `Reference` is a tracker that never forgets; the lemmas show that pruning cannot be observed and
 that two sends of one hash are at least the time to live apart, over any run of reaps.
 */
module Gossip {
  import opened Common
  import opened Seqs
  import P = ProtoSize

  type Hash = nat

  const DEFAULT_TTL_NANOS: int := 15_000_000_000

  /** What the reap scan sees of a pooled transaction; `bz` is None when encoding fails. */
  datatype PoolTx = PoolTx(bz: Option<Bytes>, gas: nat, hash: Hash)

  /** Caps of one request; 0 means no cap, and a count cap below 1 means none. */
  datatype Caps = Caps(maxBytes: nat, maxGas: nat, maxPerReap: int)

  /** One reap: what the walk over the pool saw, the caps and the clock. */
  datatype Request = Request(snapshot: seq<PoolTx>, caps: Caps, now: int)

  // ---------------------------------------------------------------------------------------
  // The throttle

  predicate Blocked(seen: map<Hash, int>, ttl: int, h: Hash, now: int) {
    h in seen && now - seen[h] < ttl
  }

  function Record(seen: map<Hash, int>, ttl: int, h: Hash, now: int): (r: map<Hash, int>) {
    if Blocked(seen, ttl, h, now) then seen else seen[h := now]
  }

  function Pruned(seen: map<Hash, int>, ttl: int, now: int): (r: map<Hash, int>) {
    map h | h in seen && now - seen[h] < ttl :: seen[h]
  }

  class GossipTracker {
    var seen: map<Hash, int>
    const ttlNanos: int

    constructor (ttl: int)
      ensures seen == map[] && ttlNanos > 0
      ensures ttlNanos == if ttl <= 0 then DEFAULT_TTL_NANOS else ttl
    {
      seen := map[];
      ttlNanos := if ttl <= 0 then DEFAULT_TTL_NANOS else ttl;
    }

    method Gossiped(h: Hash, now: int) returns (may: bool)
      modifies this`seen
      ensures may == !Blocked(old(seen), ttlNanos, h, now)
      ensures seen == Record(old(seen), ttlNanos, h, now)
    {
      if h in seen {
        if now - seen[h] < ttlNanos { return false; }
      }
      seen := seen[h := now];
      return true;
    }

    /** Deletes the expired entries while ranging over the map, in any order. */
    method Prune(now: int)
      modifies this`seen
      ensures seen == Pruned(old(seen), ttlNanos, now)
    {
      var todo := seen.Keys;
      while todo != {}
        invariant todo <= old(seen).Keys
        invariant seen == map h | h in old(seen) && (h in todo || now - old(seen)[h] < ttlNanos) :: old(seen)[h]
        decreases todo
      {
        var h :| h in todo;
        todo := todo - {h};
        if now - seen[h] >= ttlNanos { seen := seen - {h}; }
      }
    }
  }

  // ---------------------------------------------------------------------------------------
  // The reap scan

  function Size(tx: PoolTx): (n: nat) { if tx.bz.Some? then P.ProtoSizeForTx(tx.bz.value) else 0 }

  function GasOf(tx: PoolTx): (n: nat) { tx.gas }

  function TotalSize(txs: seq<PoolTx>): (n: nat) { Total(Size, txs) }

  function TotalGas(txs: seq<PoolTx>): (n: nat) { Total(GasOf, txs) }

  predicate OverCap(caps: Caps, sent: seq<PoolTx>, tx: PoolTx) {
    || (caps.maxBytes > 0 && TotalSize(sent) + Size(tx) > caps.maxBytes)
    || (caps.maxGas > 0 && TotalGas(sent) + tx.gas > caps.maxGas)
  }

  predicate CountReached(caps: Caps, sent: seq<PoolTx>) { caps.maxPerReap > 0 && |sent| >= caps.maxPerReap }

  /** The scan in unbounded arithmetic: what was sent before, then what `rest` adds. */
  function Scan(caps: Caps, ttl: int, now: int, rest: seq<PoolTx>, sent: seq<PoolTx>, seen: map<Hash, int>)
    : (r: (seq<PoolTx>, map<Hash, int>))
    decreases |rest|
  {
    if rest == [] then (sent, seen)
    else
      var tx := rest[0];
      if tx.bz.None? then Scan(caps, ttl, now, rest[1..], sent, seen)
      else if OverCap(caps, sent, tx) then (sent, seen)
      else if Blocked(seen, ttl, tx.hash, now) then Scan(caps, ttl, now, rest[1..], sent, seen)
      else
        var more, marked := sent + [tx], seen[tx.hash := now];
        if CountReached(caps, more) then (more, marked)
        else Scan(caps, ttl, now, rest[1..], more, marked)
  }

  lemma TotalsAppend(txs: seq<PoolTx>, tx: PoolTx)
    ensures TotalSize(txs + [tx]) == TotalSize(txs) + if tx.bz.Some? then P.ProtoSizeForTx(tx.bz.value) else 0
    ensures TotalGas(txs + [tx]) == TotalGas(txs) + tx.gas
  {
    TotalAppend(Size, txs, tx);
    TotalAppend(GasOf, txs, tx);
  }

  lemma PartSizes(txs: seq<PoolTx>, i: nat)
    requires i < |txs|
    ensures TotalSize(txs[..i + 1]) == TotalSize(txs[..i]) + Size(txs[i]) <= TotalSize(txs)
  {
    assert txs[..i + 1] == txs[..i] + [txs[i]];
    TotalsAppend(txs[..i], txs[i]);
    TotalOfPart(Size, txs, i + 1);
  }

  lemma ScanStep(caps: Caps, ttl: int, now: int, txs: seq<PoolTx>, i: nat, sent: seq<PoolTx>, seen: map<Hash, int>)
    requires i < |txs|
    ensures Scan(caps, ttl, now, txs[i..], sent, seen) ==
            var tx := txs[i];
            if tx.bz.None? then Scan(caps, ttl, now, txs[i + 1..], sent, seen)
            else if OverCap(caps, sent, tx) then (sent, seen)
            else if Blocked(seen, ttl, tx.hash, now) then Scan(caps, ttl, now, txs[i + 1..], sent, seen)
            else if CountReached(caps, sent + [tx]) then (sent + [tx], seen[tx.hash := now])
            else Scan(caps, ttl, now, txs[i + 1..], sent + [tx], seen[tx.hash := now])
  {
    assert txs[i..][1..] == txs[i + 1..];
  }

  /**
   The handler's loop with its 64-bit counters. It sends what the unbounded scan sends: the byte
   sum cannot wrap, because an encoding is shorter than 2^63 and the cap leaves room for one more,
   or else because all encodings together fit in memory; without a cap the byte counter may wrap
   and does not matter. The gas subtraction cannot underflow, because the gas sent never exceeds
   the cap.
   */
  method Reap(tracker: GossipTracker, snapshot: seq<PoolTx>, caps: Caps, now: int) returns (txs: seq<PoolTx>)
    requires forall tx :: tx in snapshot ==> Size(tx) < TWO_63
    requires caps.maxBytes <= TWO_63 || TotalSize(snapshot) < TWO_64
    requires Uint64(caps.maxBytes) && Uint64(caps.maxGas) && (forall tx :: tx in snapshot ==> Uint64(tx.gas))
    modifies tracker`seen
    ensures var r := Scan(caps, tracker.ttlNanos, now, snapshot, [], old(tracker.seen));
            txs == r.0 && tracker.seen == Pruned(r.1, tracker.ttlNanos, now)
  {
    txs := [];
    var totalBytes, totalGas, i, full := 0, 0, 0, false;
    ghost var ttl := tracker.ttlNanos;
    ghost var result := Scan(caps, ttl, now, snapshot, [], tracker.seen);
    while i < |snapshot| && !full
      invariant 0 <= i <= |snapshot|
      invariant result == if full then (txs, tracker.seen) else Scan(caps, ttl, now, snapshot[i..], txs, tracker.seen)
      invariant Uint64(totalBytes) && Uint64(totalGas)
      invariant TotalSize(txs) <= TotalSize(snapshot[..i])
      invariant caps.maxBytes > 0 ==> totalBytes == TotalSize(txs) <= caps.maxBytes
      invariant caps.maxGas > 0 ==> totalGas == TotalGas(txs) <= caps.maxGas
    {
      var tx := snapshot[i];
      ScanStep(caps, ttl, now, snapshot, i, txs, tracker.seen);
      PartSizes(snapshot, i);
      i := i + 1;
      if tx.bz.Some? {
        var size := Size(tx);
        if caps.maxBytes > 0 && Wrap(totalBytes + size) > caps.maxBytes {
          full := true;
        } else if caps.maxGas > 0 && tx.gas > Wrap(caps.maxGas - totalGas) {
          full := true;
        } else {
          var may := tracker.Gossiped(tx.hash, now);
          if may {
            TotalsAppend(txs, tx);
            txs := txs + [tx];
            totalBytes := Wrap(totalBytes + size);
            totalGas := Wrap(totalGas + tx.gas);
            full := caps.maxPerReap > 0 && |txs| >= caps.maxPerReap;
          }
        }
      }
    }
    tracker.Prune(now);
  }

  // ---------------------------------------------------------------------------------------
  // One reap

  lemma SubsequenceStep(s: seq<PoolTx>, t: seq<PoolTx>, i: nat)
    requires i < |t| && Subsequence(s, t[..i])
    ensures Subsequence(s, t[..i + 1]) && Subsequence(s, t)
    ensures Subsequence(s + [t[i]], t[..i + 1]) && Subsequence(s + [t[i]], t)
  {
    assert t[..i + 1][..i] == t[..i] && (s + [t[i]])[..|s|] == s;
    SubsequenceGrows(s, t[..i + 1], i);
    SubsequenceGrows(s, t, i);
    assert t[..i + 1][i] == t[i];
    SubsequenceGrows(s + [t[i]], t, i + 1);
  }

  predicate WithinCaps(caps: Caps, sent: seq<PoolTx>) {
    && (caps.maxBytes > 0 ==> TotalSize(sent) <= caps.maxBytes)
    && (caps.maxGas > 0 ==> TotalGas(sent) <= caps.maxGas)
    && (caps.maxPerReap > 0 ==> |sent| <= caps.maxPerReap)
  }

  lemma {:induction false} ScanWithin(caps: Caps, ttl: int, now: int, snapshot: seq<PoolTx>, i: nat,
      sent: seq<PoolTx>, seen: map<Hash, int>)
    requires i <= |snapshot| && Subsequence(sent, snapshot[..i])
    requires WithinCaps(caps, sent) && !CountReached(caps, sent)
    ensures var r := Scan(caps, ttl, now, snapshot[i..], sent, seen).0;
            Subsequence(r, snapshot) && WithinCaps(caps, r)
    decreases |snapshot| - i
  {
    if i == |snapshot| {
      assert snapshot[..i] == snapshot;
    } else {
      var tx := snapshot[i];
      var more := sent + [tx];
      ScanStep(caps, ttl, now, snapshot, i, sent, seen);
      TotalsAppend(sent, tx);
      SubsequenceStep(sent, snapshot, i);
      if tx.bz.None? || (!OverCap(caps, sent, tx) && Blocked(seen, ttl, tx.hash, now)) {
        ScanWithin(caps, ttl, now, snapshot, i + 1, sent, seen);
      } else if !OverCap(caps, sent, tx) && !CountReached(caps, more) {
        ScanWithin(caps, ttl, now, snapshot, i + 1, more, seen[tx.hash := now]);
      }
    }
  }

  /** Each reap returns a subsequence of the snapshot within all three caps. */
  lemma ReapWithin(caps: Caps, ttl: int, now: int, snapshot: seq<PoolTx>, seen: map<Hash, int>)
    ensures var r := Scan(caps, ttl, now, snapshot, [], seen).0;
            Subsequence(r, snapshot) && WithinCaps(caps, r)
  {
    ScanWithin(caps, ttl, now, snapshot, 0, [], seen);
    assert snapshot[0..] == snapshot;
  }

  // ---------------------------------------------------------------------------------------
  // Exactly what one reap sends

  /** Whether the scan of `rest` ends before its end. */
  ghost predicate Halts(caps: Caps, ttl: int, now: int, rest: seq<PoolTx>, sent: seq<PoolTx>, seen: map<Hash, int>)
    decreases |rest|
  {
    if rest == [] then false
    else
      var tx := rest[0];
      if tx.bz.None? then Halts(caps, ttl, now, rest[1..], sent, seen)
      else if OverCap(caps, sent, tx) then true
      else if Blocked(seen, ttl, tx.hash, now) then Halts(caps, ttl, now, rest[1..], sent, seen)
      else CountReached(caps, sent + [tx]) || Halts(caps, ttl, now, rest[1..], sent + [tx], seen[tx.hash := now])
  }

  /** Scanning one transaction more. */
  lemma {:induction false} ScanMore(caps: Caps, ttl: int, now: int, rest: seq<PoolTx>, tx: PoolTx, sent: seq<PoolTx>,
      seen: map<Hash, int>)
    ensures var halted, r := Halts(caps, ttl, now, rest, sent, seen), Scan(caps, ttl, now, rest, sent, seen);
            && Scan(caps, ttl, now, rest + [tx], sent, seen) ==
               (if halted then r else Scan(caps, ttl, now, [tx], r.0, r.1))
            && (Halts(caps, ttl, now, rest + [tx], sent, seen) <==> halted || Halts(caps, ttl, now, [tx], r.0, r.1))
    decreases |rest|
  {
    if rest == [] {
      assert rest + [tx] == [tx];
    } else {
      var x := rest[0];
      assert (rest + [tx])[1..] == rest[1..] + [tx];
      ScanMore(caps, ttl, now, rest[1..], tx, sent, seen);
      ScanMore(caps, ttl, now, rest[1..], tx, sent + [x], seen[x.hash := now]);
    }
  }

  /** What a reap has sent after the first `n` transactions of the snapshot. */
  function SentFrom(q: Request, ttl: int, seen: map<Hash, int>, n: nat): (sent: seq<PoolTx>)
    requires n <= |q.snapshot|
  {
    Scan(q.caps, ttl, q.now, q.snapshot[..n], [], seen).0
  }

  function MarksAfter(q: Request, ttl: int, seen: map<Hash, int>, n: nat): (marks: map<Hash, int>)
    requires n <= |q.snapshot|
  {
    Scan(q.caps, ttl, q.now, q.snapshot[..n], [], seen).1
  }

  ghost predicate HaltedBy(q: Request, ttl: int, seen: map<Hash, int>, n: nat)
    requires n <= |q.snapshot|
  {
    Halts(q.caps, ttl, q.now, q.snapshot[..n], [], seen)
  }

  /** Transaction `i` can be encoded and exceeds a positive cap beside what was sent before it. */
  predicate ExceedsAt(q: Request, ttl: int, seen: map<Hash, int>, i: int) {
    && 0 <= i < |q.snapshot| && q.snapshot[i].bz.Some?
    && (|| (q.caps.maxBytes > 0 &&
            TotalSize(SentFrom(q, ttl, seen, i)) + P.ProtoSizeForTx(q.snapshot[i].bz.value) > q.caps.maxBytes)
        || (q.caps.maxGas > 0 && TotalGas(SentFrom(q, ttl, seen, i)) + q.snapshot[i].gas > q.caps.maxGas))
  }

  /** The hash was sent less than `ttl` ago. */
  predicate SentLately(seen: map<Hash, int>, ttl: int, now: int, h: Hash) { h in seen && now - seen[h] < ttl }

  predicate AmongSent(sent: seq<PoolTx>, h: Hash) { exists k :: 0 <= k < |sent| && sent[k].hash == h }

  /** Transaction `i` can be encoded, was not sent lately or in this reap, and no cap stands before it. */
  ghost predicate SentAt(q: Request, ttl: int, seen: map<Hash, int>, i: int) {
    && 0 <= i < |q.snapshot| && q.snapshot[i].bz.Some?
    && !SentLately(seen, ttl, q.now, q.snapshot[i].hash)
    && (ttl > 0 ==> !AmongSent(SentFrom(q, ttl, seen, i), q.snapshot[i].hash))
    && (q.caps.maxPerReap > 0 ==> |SentFrom(q, ttl, seen, i)| < q.caps.maxPerReap)
    && (forall j :: 0 <= j <= i ==> !ExceedsAt(q, ttl, seen, j))
  }

  lemma PrefixStep(q: Request, ttl: int, seen: map<Hash, int>, n: nat)
    requires n < |q.snapshot|
    ensures var tx, sent, marks := q.snapshot[n], SentFrom(q, ttl, seen, n), MarksAfter(q, ttl, seen, n);
            var over := ExceedsAt(q, ttl, seen, n);
            var sends := !HaltedBy(q, ttl, seen, n) && tx.bz.Some? && !over && !SentLately(marks, ttl, q.now, tx.hash);
            && SentFrom(q, ttl, seen, n + 1) == sent + (if sends then [tx] else [])
            && MarksAfter(q, ttl, seen, n + 1) == (if sends then marks[tx.hash := q.now] else marks)
            && (HaltedBy(q, ttl, seen, n + 1) <==>
                HaltedBy(q, ttl, seen, n) || over || (sends && CountReached(q.caps, sent + [tx])))
  {
    var tx, sent, marks := q.snapshot[n], SentFrom(q, ttl, seen, n), MarksAfter(q, ttl, seen, n);
    assert q.snapshot[..n + 1] == q.snapshot[..n] + [tx];
    ScanMore(q.caps, ttl, q.now, q.snapshot[..n], tx, [], seen);
    assert [tx][1..] == [] && sent + [] == sent;
  }

  /** A reap marks what it sends and nothing else. */
  ghost predicate Marks(seen: map<Hash, int>, now: int, sent: seq<PoolTx>, marks: map<Hash, int>) {
    && (forall h :: h in marks <==> h in seen || AmongSent(sent, h))
    && (forall h :: h in marks ==> marks[h] == if AmongSent(sent, h) then now else seen[h])
  }

  lemma MarksNext(seen: map<Hash, int>, now: int, sent: seq<PoolTx>, marks: map<Hash, int>, tx: PoolTx)
    requires Marks(seen, now, sent, marks)
    ensures Marks(seen, now, sent + [tx], marks[tx.hash := now])
  {
    var more := sent + [tx];
    forall h ensures AmongSent(more, h) <==> AmongSent(sent, h) || h == tx.hash {
      if k :| 0 <= k < |sent| && sent[k].hash == h { assert more[k].hash == h; }
      if h == tx.hash { assert more[|sent|].hash == h; }
    }
  }

  lemma {:induction false} PrefixMarks(q: Request, ttl: int, seen: map<Hash, int>, n: nat)
    requires n <= |q.snapshot|
    ensures Marks(seen, q.now, SentFrom(q, ttl, seen, n), MarksAfter(q, ttl, seen, n))
  {
    if n > 0 {
      PrefixMarks(q, ttl, seen, n - 1);
      PrefixStep(q, ttl, seen, n - 1);
      var sent, marks := SentFrom(q, ttl, seen, n - 1), MarksAfter(q, ttl, seen, n - 1);
      MarksNext(seen, q.now, sent, marks, q.snapshot[n - 1]);
      assert sent + [] == sent;
    }
  }

  /** The scan halts exactly at the count cap or at a transaction that exceeds another cap. */
  lemma {:induction false} HaltsExact(q: Request, ttl: int, seen: map<Hash, int>, n: nat)
    requires n <= |q.snapshot|
    ensures HaltedBy(q, ttl, seen, n) <==>
            || (q.caps.maxPerReap > 0 && |SentFrom(q, ttl, seen, n)| >= q.caps.maxPerReap)
            || (exists j :: 0 <= j < n && ExceedsAt(q, ttl, seen, j))
  {
    if n > 0 {
      HaltsExact(q, ttl, seen, n - 1);
      PrefixStep(q, ttl, seen, n - 1);
      if j :| 0 <= j < n && ExceedsAt(q, ttl, seen, j) { assert j == n - 1 || j < n - 1; }
    }
  }

  lemma {:induction false} SentWasNotLately(q: Request, ttl: int, seen: map<Hash, int>, n: nat, h: Hash)
    requires n <= |q.snapshot| && AmongSent(SentFrom(q, ttl, seen, n), h)
    ensures !SentLately(seen, ttl, q.now, h)
  {
    var m := n - 1;
    PrefixStep(q, ttl, seen, m);
    PrefixMarks(q, ttl, seen, m);
    var sent := SentFrom(q, ttl, seen, m);
    if AmongSent(sent, h) { SentWasNotLately(q, ttl, seen, m, h); }
  }

  ghost function Sent(q: Request, ttl: int, seen: map<Hash, int>): (keep: nat -> bool) {
    i => SentAt(q, ttl, seen, i)
  }

  lemma SendsIfSentAt(q: Request, ttl: int, seen: map<Hash, int>, n: nat)
    requires n < |q.snapshot|
    ensures SentFrom(q, ttl, seen, n + 1) ==
            SentFrom(q, ttl, seen, n) + if SentAt(q, ttl, seen, n) then [q.snapshot[n]] else []
  {
    PrefixStep(q, ttl, seen, n);
    PrefixMarks(q, ttl, seen, n);
    HaltsExact(q, ttl, seen, n);
    var h := q.snapshot[n].hash;
    if AmongSent(SentFrom(q, ttl, seen, n), h) { SentWasNotLately(q, ttl, seen, n, h); }
    assert (forall j :: 0 <= j <= n ==> !ExceedsAt(q, ttl, seen, j)) <==>
           (!ExceedsAt(q, ttl, seen, n) && forall j :: 0 <= j < n ==> !ExceedsAt(q, ttl, seen, j));
  }

  lemma {:induction false} PrefixExact(q: Request, ttl: int, seen: map<Hash, int>, n: nat, keep: nat -> bool)
    requires n <= |q.snapshot| && forall i: nat :: i < n ==> keep(i) == SentAt(q, ttl, seen, i)
    ensures SentFrom(q, ttl, seen, n) == Picked(q.snapshot[..n], keep)
  {
    if n > 0 {
      PrefixExact(q, ttl, seen, n - 1, keep);
      SendsIfSentAt(q, ttl, seen, n - 1);
      PickedNext(q.snapshot, keep, n - 1);
    }
  }

  /**
   A reap sends exactly the transactions that can be encoded, were not sent within the time to
   live nor earlier in this reap, and have no cap in their way, in the order of the snapshot; and
   it marks those and no others as sent now.
   */
  lemma ReapExact(q: Request, ttl: int, seen: map<Hash, int>)
    ensures var r := Scan(q.caps, ttl, q.now, q.snapshot, [], seen);
            r.0 == Picked(q.snapshot, Sent(q, ttl, seen)) && Marks(seen, q.now, r.0, r.1)
  {
    PrefixExact(q, ttl, seen, |q.snapshot|, Sent(q, ttl, seen));
    PrefixMarks(q, ttl, seen, |q.snapshot|);
    assert q.snapshot[..|q.snapshot|] == q.snapshot;
  }

  /** Transaction `i` is the first of its hash that can be encoded, and was not sent lately. */
  predicate FirstOfHash(q: Request, ttl: int, seen: map<Hash, int>, i: int) {
    && 0 <= i < |q.snapshot| && q.snapshot[i].bz.Some? && !SentLately(seen, ttl, q.now, q.snapshot[i].hash)
    && (forall k :: 0 <= k < i && q.snapshot[k].bz.Some? ==> q.snapshot[k].hash != q.snapshot[i].hash)
  }

  /** One of the first `n` transactions can be encoded and has this hash. */
  ghost predicate Offered(q: Request, n: nat, h: Hash) {
    exists k :: 0 <= k < n && k < |q.snapshot| && q.snapshot[k].bz.Some? && q.snapshot[k].hash == h
  }

  lemma {:induction false} UncappedPrefix(q: Request, ttl: int, seen: map<Hash, int>, n: nat, h: Hash)
    requires n <= |q.snapshot| && ttl > 0
    requires q.caps.maxBytes == 0 && q.caps.maxGas == 0 && q.caps.maxPerReap <= 0
    ensures AmongSent(SentFrom(q, ttl, seen, n), h) <==>
            !SentLately(seen, ttl, q.now, h) && Offered(q, n, h)
  {
    if n > 0 {
      var tx, sent := q.snapshot[n - 1], SentFrom(q, ttl, seen, n - 1);
      UncappedPrefix(q, ttl, seen, n - 1, h);
      UncappedPrefix(q, ttl, seen, n - 1, tx.hash);
      SendsIfSentAt(q, ttl, seen, n - 1);
      var more := SentFrom(q, ttl, seen, n);
      if k :| 0 <= k < |sent| && sent[k].hash == h { assert more[k].hash == h; }
      if |more| > |sent| { assert more[|sent|] == tx; }
    }
  }

  /** Without caps a reap sends exactly the first occurrence of every hash not sent lately. */
  lemma UncappedReap(q: Request, ttl: int, seen: map<Hash, int>, first: nat -> bool)
    requires q.caps.maxBytes == 0 && q.caps.maxGas == 0 && q.caps.maxPerReap <= 0 && ttl > 0
    requires forall i: nat :: i < |q.snapshot| ==> first(i) == FirstOfHash(q, ttl, seen, i)
    ensures Scan(q.caps, ttl, q.now, q.snapshot, [], seen).0 == Picked(q.snapshot, first)
  {
    ReapExact(q, ttl, seen);
    forall i: nat | i < |q.snapshot| ensures Sent(q, ttl, seen)(i) == first(i) {
      UncappedPrefix(q, ttl, seen, i, q.snapshot[i].hash);
    }
    PickedSame(q.snapshot, Sent(q, ttl, seen), first);
  }

  // ---------------------------------------------------------------------------------------
  // Runs of reaps

  /** The pruning tracker, one that never forgets, and every send with its time. */
  datatype World = World(seen: map<Hash, int>, reference: map<Hash, int>, log: seq<(Hash, int)>)

  function Sends(sent: seq<PoolTx>, now: int): (r: seq<(Hash, int)>) {
    seq(|sent|, i requires 0 <= i < |sent| => (sent[i].hash, now))
  }

  function Next(ttl: int, w: World, q: Request): (r: World) {
    var (sent, seen) := Scan(q.caps, ttl, q.now, q.snapshot, [], w.seen);
    World(Pruned(seen, ttl, q.now), Scan(q.caps, ttl, q.now, q.snapshot, [], w.reference).1, w.log + Sends(sent, q.now))
  }

  ghost predicate IsRun(ttl: int, ws: seq<World>, qs: seq<Request>) {
    && |ws| == |qs| + 1 && ws[0] == World(map[], map[], [])
    && (forall i :: 0 <= i < |qs| ==> ws[i + 1] == Next(ttl, ws[i], qs[i]))
    && (forall i, j :: 0 <= i < j < |qs| ==> qs[i].now <= qs[j].now)
  }

  /** From `now` on, the two trackers block the same hashes. */
  ghost predicate Agree(ttl: int, now: int, seen: map<Hash, int>, reference: map<Hash, int>) {
    && (forall h :: h in seen ==> h in reference && reference[h] == seen[h])
    && (forall h :: h in reference && now - reference[h] < ttl ==> h in seen)
  }

  lemma {:induction false} ScanAgrees(caps: Caps, ttl: int, now: int, rest: seq<PoolTx>, sent: seq<PoolTx>,
      seen: map<Hash, int>, reference: map<Hash, int>)
    requires Agree(ttl, now, seen, reference)
    ensures var r, f := Scan(caps, ttl, now, rest, sent, seen), Scan(caps, ttl, now, rest, sent, reference);
            r.0 == f.0 && Agree(ttl, now, r.1, f.1)
    decreases |rest|
  {
    if rest != [] {
      var tx := rest[0];
      assert Blocked(seen, ttl, tx.hash, now) <==> Blocked(reference, ttl, tx.hash, now);
      ScanAgrees(caps, ttl, now, rest[1..], sent, seen, reference);
      ScanAgrees(caps, ttl, now, rest[1..], sent + [tx], seen[tx.hash := now], reference[tx.hash := now]);
    }
  }

  /** The log, as the tracker that never forgets knows it. */
  ghost predicate LogOk(ttl: int, now: int, log: seq<(Hash, int)>, reference: map<Hash, int>) {
    && (forall i :: 0 <= i < |log| ==> log[i].1 <= now && log[i].0 in reference && log[i].1 <= reference[log[i].0])
    && (forall i, j :: 0 <= i < j < |log| && log[i].0 == log[j].0 ==> log[j].1 - log[i].1 >= ttl)
    && (forall h :: h in reference ==> (h, reference[h]) in log)
  }

  lemma {:induction false} ScanLogs(caps: Caps, ttl: int, now: int, rest: seq<PoolTx>, sent: seq<PoolTx>,
      reference: map<Hash, int>, log: seq<(Hash, int)>)
    requires LogOk(ttl, now, log + Sends(sent, now), reference)
    ensures var r := Scan(caps, ttl, now, rest, sent, reference);
            LogOk(ttl, now, log + Sends(r.0, now), r.1)
    decreases |rest|
  {
    if rest != [] {
      var tx := rest[0];
      if tx.bz.None? || (!OverCap(caps, sent, tx) && Blocked(reference, ttl, tx.hash, now)) {
        ScanLogs(caps, ttl, now, rest[1..], sent, reference, log);
      } else if !OverCap(caps, sent, tx) {
        var before := log + Sends(sent, now);
        var after := log + Sends(sent + [tx], now);
        assert after == before + [(tx.hash, now)];
        assert LogOk(ttl, now, after, reference[tx.hash := now]);
        ScanLogs(caps, ttl, now, rest[1..], sent + [tx], reference[tx.hash := now], log);
      }
    }
  }

  ghost predicate Inv(ttl: int, now: int, w: World) {
    Agree(ttl, now, w.seen, w.reference) && LogOk(ttl, now, w.log, w.reference)
  }

  lemma NextInv(ttl: int, w: World, q: Request)
    requires Inv(ttl, q.now, w)
    ensures Inv(ttl, q.now, Next(ttl, w, q))
  {
    ScanAgrees(q.caps, ttl, q.now, q.snapshot, [], w.seen, w.reference);
    assert w.log + Sends([], q.now) == w.log;
    ScanLogs(q.caps, ttl, q.now, q.snapshot, [], w.reference, w.log);
  }

  lemma LaterInv(ttl: int, now: int, later: int, w: World)
    requires Inv(ttl, now, w) && now <= later
    ensures Inv(ttl, later, w)
  {
  }

  lemma FirstInv(ttl: int, now: int)
    ensures Inv(ttl, now, World(map[], map[], []))
  {
  }

  lemma {:induction false} RunInv(ttl: int, ws: seq<World>, qs: seq<Request>, n: nat)
    requires IsRun(ttl, ws, qs) && n < |qs|
    ensures Inv(ttl, qs[n].now, ws[n]) && Inv(ttl, qs[n].now, ws[n + 1])
  {
    if n > 0 {
      RunInv(ttl, ws, qs, n - 1);
      LaterInv(ttl, qs[n - 1].now, qs[n].now, ws[n]);
    } else {
      FirstInv(ttl, qs[n].now);
    }
    NextInv(ttl, ws[n], qs[n]);
    assert ws[n + 1] == Next(ttl, ws[n], qs[n]);
  }

  /** Over any run of reaps with a clock that does not go back, pruning never changes an answer. */
  lemma PruningInvisible(ttl: int, ws: seq<World>, qs: seq<Request>, n: nat)
    requires IsRun(ttl, ws, qs) && n < |qs|
    ensures var q := qs[n];
            Scan(q.caps, ttl, q.now, q.snapshot, [], ws[n].seen).0 ==
                Scan(q.caps, ttl, q.now, q.snapshot, [], ws[n].reference).0
  {
    RunInv(ttl, ws, qs, n);
    ScanAgrees(qs[n].caps, ttl, qs[n].now, qs[n].snapshot, [], ws[n].seen, ws[n].reference);
  }

  /** ... and two sends of the same hash are at least the time to live apart. */
  lemma SendsAreSpaced(ttl: int, ws: seq<World>, qs: seq<Request>, n: nat, i: nat, j: nat)
    requires IsRun(ttl, ws, qs) && n < |ws|
    requires i < j < |ws[n].log| && ws[n].log[i].0 == ws[n].log[j].0
    ensures ws[n].log[j].1 - ws[n].log[i].1 >= ttl
  {
    if n > 0 { RunInv(ttl, ws, qs, n - 1); }
  }

  /** The log has a send of the hash less than `ttl` ago. */
  predicate LoggedLately(log: seq<(Hash, int)>, ttl: int, now: int, h: Hash) {
    exists k :: 0 <= k < |log| && log[k].0 == h && now - log[k].1 < ttl
  }

  lemma LatelyIsLogged(ttl: int, now: int, w: World, h: Hash)
    requires Inv(ttl, now, w)
    ensures SentLately(w.seen, ttl, now, h) <==> LoggedLately(w.log, ttl, now, h)
  {
    if h in w.reference {
      var k :| 0 <= k < |w.log| && w.log[k] == (h, w.reference[h]);
      assert w.log[k].0 == h;
    }
  }

  /**
   Over any run the throttle is exact: at each reap it holds back a hash if and only if the log
   has a send of it less than the time to live ago, and after the reap the tracker remembers
   exactly the hashes sent that lately.
   */
  lemma ThrottleExact(ttl: int, ws: seq<World>, qs: seq<Request>, n: nat, h: Hash)
    requires IsRun(ttl, ws, qs) && n < |qs|
    ensures SentLately(ws[n].seen, ttl, qs[n].now, h) <==> LoggedLately(ws[n].log, ttl, qs[n].now, h)
    ensures h in ws[n + 1].seen <==> LoggedLately(ws[n + 1].log, ttl, qs[n].now, h)
  {
    RunInv(ttl, ws, qs, n);
    LatelyIsLogged(ttl, qs[n].now, ws[n], h);
    LatelyIsLogged(ttl, qs[n].now, ws[n + 1], h);
    assert ws[n + 1] == Next(ttl, ws[n], qs[n]);
  }
}
