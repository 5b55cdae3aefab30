/**
 Migrating a whole database: a batched copy, and the two-phase check that follows it.
 */
module Migrate {
  import opened Common
  import opened Keys
  import opened Patch

  // ---------------------------------------------------------------------------------------
  // The copy

  /** The target after the keys `ks` have been copied one by one, without batches. */
  function Copy(t0: Db, source: Db, setFails: Bytes -> bool, ks: seq<Bytes>): (t: Db)
    requires forall k :: k in ks ==> k in source
  {
    if ks == [] then t0
    else
      var front, k := ks[..|ks| - 1], ks[|ks| - 1];
      assert forall x :: x in front ==> x in ks;
      var t := Copy(t0, source, setFails, front);
      if setFails(k) then t else t[k := source[k]]
  }

  lemma CopyNext(t0: Db, source: Db, setFails: Bytes -> bool, ks: seq<Bytes>, i: nat)
    requires (forall k :: k in ks ==> k in source) && i < |ks|
    ensures (forall k :: k in ks[..i] ==> k in source) && (forall k :: k in ks[..i + 1] ==> k in source)
    ensures Copy(t0, source, setFails, ks[..i + 1]) ==
            if setFails(ks[i]) then Copy(t0, source, setFails, ks[..i]) else
                Copy(t0, source, setFails, ks[..i])[ks[i] := source[ks[i]]]
    ensures CountMarked(ks[..i + 1], setFails) == CountMarked(ks[..i], setFails) + if setFails(ks[i]) then 1 else 0
  {
    assert ks[..i + 1][..i] == ks[..i];
    assert forall k :: k in ks[..i] ==> k in ks;
    assert forall k :: k in ks[..i + 1] ==> k in ks;
  }

  lemma SetOnBatch(t: Db, batch: Db, k: Bytes, v: Bytes)
    ensures t + batch[k := v] == (t + batch)[k := v]
  {
  }

  lemma EmptyBatch(t: Db)
    ensures t + map[] == t
  {
  }

  /** migrateWithIterator copies the keys for every batch size. */
  method MigrateWithIterator(source: Db, setFails: Bytes -> bool, batchSize: int, target: Target, stats: Stats,
      it: Iter) returns (ok: bool)
    requires forall k :: k in it.keys ==> k in source
    modifies target, stats
    ensures stats.totalKeys == old(stats.totalKeys)
    ensures ok ==> !it.error && target.data == Copy(old(target.data), source, setFails, it.keys)
    ensures ok ==> stats.errorCount == old(stats.errorCount) + CountMarked(it.keys, setFails)
    ensures ok ==> stats.processedKeys == old(stats.processedKeys) + |it.keys| - CountMarked(it.keys, setFails)
    ensures !ok ==> it.error || target.failsFrom.Some?
  {
    var ks := it.keys;
    ghost var t0 := target.data;
    var batch: Db, count, i := map[], 0, 0;
    EmptyBatch(t0);
    while i < |ks|
      invariant 0 <= i <= |ks| && (forall k :: k in ks[..i] ==> k in source) && (count == 0 ==> batch == map[]) &&
              count >= 0
      invariant stats.totalKeys == old(stats.totalKeys)
      invariant target.data + batch == Copy(t0, source, setFails, ks[..i])
      invariant stats.errorCount == old(stats.errorCount) + CountMarked(ks[..i], setFails)
      invariant stats.processedKeys == old(stats.processedKeys) + i - CountMarked(ks[..i], setFails)
    {
      var k := ks[i];
      CopyNext(t0, source, setFails, ks, i);
      i := i + 1;
      if setFails(k) {
        stats.errorCount := stats.errorCount + 1;
        continue;
      }
      SetOnBatch(target.data, batch, k, source[k]);
      batch := batch[k := source[k]];
      count := count + 1;
      stats.processedKeys := stats.processedKeys + 1;
      if count >= batchSize {
        ok := target.Write(batch);
        if !ok { return; }
        batch, count := map[], 0;
        EmptyBatch(target.data);
      }
    }
    assert ks[..i] == ks;
    if count > 0 {
      ok := target.Write(batch);
      if !ok { return; }
    } else {
      EmptyBatch(target.data);
    }
    ok := !it.error;
  }

  lemma {:induction false} CopyExact(t0: Db, source: Db, setFails: Bytes -> bool, ks: seq<Bytes>, x: Bytes)
    requires forall k :: k in ks ==> k in source
    ensures var t := Copy(t0, source, setFails, ks);
            if x in ks && !setFails(x) then x in t && t[x] == source[x]
                else (x in t <==> x in t0) &&
                     (x in t ==> t[x] == t0[x])
  {
    if ks != [] {
      var front, k := ks[..|ks| - 1], ks[|ks| - 1];
      assert ks == front + [k];
      CopyExact(t0, source, setFails, front, x);
    }
  }

  // ---------------------------------------------------------------------------------------
  // The check

  ghost predicate Enumerates(ks: seq<Bytes>, db: Db) { Ascending(ks) && forall k :: k in ks <==> k in db }

  /** Two enumerations of the same keys have the same length: the final count adds nothing. */
  lemma SameKeysSameLength(a: seq<Bytes>, b: seq<Bytes>)
    requires Ascending(a) && Ascending(b) && (forall k :: k in a <==> k in b)
    ensures |a| == |b|
  {
    AscendingLength(a);
    AscendingLength(b);
    assert (set k | k in a) == (set k | k in b);
  }

  predicate Matches(source: Db, target: Db, targetFails: Bytes -> bool, k: Bytes) {
    !targetFails(k) && k in source && k in target && source[k] == target[k]
  }

  /** Phase 1: every source key is in the target with the same value. */
  method VerifySourceKeys(source: Db, target: Db, targetFails: Bytes -> bool,
      ks: seq<Bytes>) returns (verified: nat, mismatches: nat)
    requires forall k :: k in ks ==> k in source
    ensures mismatches == 0 <==> forall k :: k in ks ==> Matches(source, target, targetFails, k)
    ensures mismatches == 0 ==> verified == |ks|
  {
    verified, mismatches := 0, 0;
    for i := 0 to |ks|
      invariant mismatches == 0 <==> forall j :: 0 <= j < i ==> Matches(source, target, targetFails, ks[j])
      invariant mismatches == 0 ==> verified == i
    {
      var k := ks[i];
      if targetFails(k) || k !in target {
        mismatches := mismatches + 1;
      } else {
        if source[k] != target[k] { mismatches := mismatches + 1; }
        verified := verified + 1;
      }
    }
  }

  predicate Known(source: Db, sourceFails: Bytes -> bool, k: Bytes) { !sourceFails(k) && k in source }

  /** Phase 2: every target key is in the source. */
  method VerifyTargetKeys(source: Db, sourceFails: Bytes -> bool, ts: seq<Bytes>) returns (mismatches: nat)
    ensures mismatches == 0 <==> forall k :: k in ts ==> Known(source, sourceFails, k)
  {
    mismatches := 0;
    for i := 0 to |ts|
      invariant mismatches == 0 <==> forall j :: 0 <= j < i ==> Known(source, sourceFails, ts[j])
    {
      if sourceFails(ts[i]) || ts[i] !in source { mismatches := mismatches + 1; }
    }
  }

  /** verifyMigration passes exactly when the two stores are equal and every read succeeds. */
  method VerifyMigration(source: Db, target: Db, sourceFails: Bytes -> bool, targetFails: Bytes -> bool,
      sourceIt: Iter, targetIt: Iter) returns (ok: bool)
    requires Ascending(sourceIt.keys) && (forall k :: k in sourceIt.keys ==> k in source) &&
            (!sourceIt.error ==> Enumerates(sourceIt.keys, source))
    requires !targetIt.error ==> Enumerates(targetIt.keys, target)
    ensures ok <==>
            && !sourceIt.error && !targetIt.error && source == target
            && (forall k :: k in source ==> !sourceFails(k) && !targetFails(k))
  {
    var verified, mismatches := VerifySourceKeys(source, target, targetFails, sourceIt.keys);
    if sourceIt.error { return false; }
    var extra := VerifyTargetKeys(source, sourceFails, targetIt.keys);
    if targetIt.error { return false; }
    mismatches := mismatches + extra;
    if mismatches == 0 {
      assert forall k :: k in source ==> Matches(source, target, targetFails, k);
      assert forall k :: k in target ==> Known(source, sourceFails, k);
      assert source.Keys == target.Keys;
      SameKeysSameLength(sourceIt.keys, targetIt.keys);
    }
    if |targetIt.keys| != verified { mismatches := mismatches + 1; }
    ok := mismatches == 0;
    if source == target && (forall k :: k in source ==> !sourceFails(k) && !targetFails(k)) {
      assert forall k :: k in source ==> Matches(source, target, targetFails, k) && Known(source, sourceFails, k);
    }
  }

  /**
   What the check says about a copy: a complete copy equals its source exactly when the target
   held no foreign key before, and every key that failed was there already with its value.
   */
  lemma CopyVerifies(t0: Db, source: Db, setFails: Bytes -> bool, ks: seq<Bytes>)
    requires Enumerates(ks, source)
    ensures Copy(t0, source, setFails, ks) == source <==>
            && t0.Keys <= source.Keys
            && (forall k :: k in source && setFails(k) ==> k in t0 && t0[k] == source[k])
  {
    var t := Copy(t0, source, setFails, ks);
    forall x
      ensures if x in ks && !setFails(x) then x in t && t[x] == source[x]
              else (x in t <==> x in t0) &&
                   (x in t ==> t[x] == t0[x])
    {
      CopyExact(t0, source, setFails, ks, x);
    }
    if t == source {
      forall k | k in t0 ensures k in source { assert k in t; }
    }
    if t0.Keys <= source.Keys && (forall k :: k in source && setFails(k) ==> k in t0 && t0[k] == source[k]) {
      assert t.Keys == source.Keys;
    }
  }
}
