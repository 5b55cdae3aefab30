/**
 Patching a blockstore: copying the keys of chosen heights from a source store into a target,
 with conflict resolution, batching, dry runs and derived BH: entries.

 `PlanKeys` says what a patch does, without batches: each scanned key is decided against the
 target as it was at the start. The methods keep Go's batch, counters and changing strategy, read
 the target as it is at that moment, and are proved to carry out the plan for every batch size.

 Reads and writes that fail are predicates on keys, the user's answers a function of how many
 prompts came before, and a batch write fails from a given flush on.
 */
module Patch {
  import opened Common
  import opened Keys
  import opened HeightFilter
  import opened Seqs

  datatype Strategy = Ask | SkipAll | Replace | ReplaceAll

  /** A prompt: replace or skip this key, or this and all later ones; or the input ends. */
  datatype Answer = ReplaceThis | SkipThis | ReplaceRest | SkipRest | InputError

  datatype Rules = Rules(heights: HeightRange, strategy: Strategy, skipConflictChecks: bool, dryRun: bool)

  datatype Env = Env(
    source: Db,
    getFails: Bytes -> bool,          // reading the key from the target fails
    setFails: Bytes -> bool,          // adding the key to a batch fails
    sourceFails: Bytes -> bool,       // reading the key from the source fails
    answer: nat -> Answer)

  // ---------------------------------------------------------------------------------------
  // The plan

  datatype Plan = Plan(writes: Db, processed: nat, errors: nat, skipped: nat, strategy: Strategy, asked: nat)

  datatype Decision = Decision(write: bool, strategy: Strategy, skipped: bool, asked: nat)

  /** handleKeyConflict: what to do with a key that may already be in the target. */
  function Decide(rules: Rules, env: Env, strategy: Strategy, asked: nat, exists_: bool): (d: Decision) {
    if rules.skipConflictChecks || !exists_ then Decision(true, strategy, false, asked)
    else match strategy
      case SkipAll => Decision(false, strategy, true, asked)
      case Replace => Decision(true, strategy, false, asked)
      case ReplaceAll => Decision(true, strategy, false, asked)
      case Ask =>
        match env.answer(asked)
        case ReplaceThis => Decision(true, Ask, false, asked + 1)
        case SkipThis => Decision(false, Ask, true, asked + 1)
        case ReplaceRest => Decision(true, ReplaceAll, false, asked + 1)
        case SkipRest => Decision(false, SkipAll, true, asked + 1)
        case InputError => Decision(false, Ask, true, asked + 1)
  }

  predicate Chosen(rules: Rules, k: Bytes) {
    IsEmpty(rules.heights) || Selects(rules.heights, BlockstoreHeight(k))
  }

  /** The BH: key derived from the metadata under an H: key, as the code builds it. */
  function HashKey(value: Bytes): (k: Option<Bytes>) {
    var h := FirstHash(value, 0);
    if h.None? then None else Some(BH_PREFIX + h.value)
  }

  predicate HashEntry(env: Env, k: Bytes, bh: Bytes) {
    && |k| > 2 && HasPrefix(k, H_PREFIX) && k in env.source && HashKey(env.source[k]) == Some(bh)
    && bh in env.source && !env.sourceFails(bh) && !env.setFails(bh)
  }

  /** What patchSingleKey puts in the batch: the key, and the BH: entry it leads to. */
  function Entries(env: Env, k: Bytes): (m: Db)
    requires k in env.source
  {
    var m := map[k := env.source[k]];
    if |k| > 2 && HasPrefix(k, H_PREFIX) && HashKey(env.source[k]).Some? &&
        HashEntry(env, k, HashKey(env.source[k]).value)
    then m[HashKey(env.source[k]).value := env.source[HashKey(env.source[k]).value]] else m
  }

  /** What one scanned key comes to: copied, an error, skipped, or (all false) not chosen. */
  datatype Outcome = Outcome(copied: bool, error: bool, skipped: bool, strategy: Strategy, asked: nat)

  function Resolve(rules: Rules, env: Env, strategy: Strategy, asked: nat, exists_: bool, k: Bytes): (o: Outcome)
    ensures (if o.copied then 1 else 0) + (if o.error then 1 else 0) + (if o.skipped then 1 else 0) ==
            (if Chosen(rules, k) then 1 else 0)
  {
    if !Chosen(rules, k) then Outcome(false, false, false, strategy, asked)
    else if env.getFails(k) then Outcome(false, true, false, strategy, asked)
    else
      var d := Decide(rules, env, strategy, asked, exists_);
      var failed := d.write && !rules.dryRun && env.setFails(k);
      Outcome(d.write && !failed, failed, d.skipped, d.strategy, d.asked)
  }

  function Advance(rules: Rules, env: Env, p: Plan, o: Outcome, k: Bytes): (r: Plan)
    requires k in env.source
  {
    Plan(
      if o.copied && !rules.dryRun then p.writes + Entries(env, k) else p.writes,
      if o.copied then p.processed + 1 else p.processed,
      if o.error then p.errors + 1 else p.errors,
      if o.skipped then p.skipped + 1 else p.skipped,
      o.strategy, o.asked)
  }

  function PlanKey(rules: Rules, env: Env, t0: Db, p: Plan, k: Bytes): (r: Plan)
    requires k in env.source
  {
    Advance(rules, env, p, Resolve(rules, env, p.strategy, p.asked, k in t0, k), k)
  }

  function PlanKeys(rules: Rules, env: Env, t0: Db, p: Plan, ks: seq<Bytes>): (r: Plan)
    requires forall k :: k in ks ==> k in env.source
  {
    if ks == [] then p
    else
      var front := ks[..|ks| - 1];
      assert forall k :: k in front ==> k in ks;
      PlanKey(rules, env, t0, PlanKeys(rules, env, t0, p, front), ks[|ks| - 1])
  }

  // ---------------------------------------------------------------------------------------
  // The stores

  class Target {
    var data: Db
    var flushes: nat
    const failsFrom: Option<nat>

    constructor (data: Db, failsFrom: Option<nat>)
      ensures this.data == data && flushes == 0 && this.failsFrom == failsFrom
    {
      this.data, flushes, this.failsFrom := data, 0, failsFrom;
    }

    /** batch.Write: all of the batch, or nothing and an error. */
    method Write(batch: Db) returns (ok: bool)
      modifies this
      ensures ok ==> data == old(data) + batch
      ensures !ok ==> data == old(data) && failsFrom.Some?
    {
      if failsFrom.Some? && flushes >= failsFrom.value { return false; }
      data, flushes := data + batch, flushes + 1;
      return true;
    }
  }

  class Stats {
    var totalKeys: nat
    var processedKeys: nat
    var errorCount: nat
    var skipped: nat                  // the log line's count, summed over iterators
    var asked: nat                    // prompts answered so far

    constructor ()
      ensures totalKeys == 0 && processedKeys == 0 && errorCount == 0 && skipped == 0 && asked == 0
    {
      totalKeys, processedKeys, errorCount, skipped, asked := 0, 0, 0, 0, 0;
    }
  }

  // ---------------------------------------------------------------------------------------
  // What a plan writes

  /** Every key is as it was, or holds the source's value for that very key. */
  ghost predicate OnlySourceValues(source: Db, before: Db, after: Db) {
    && before.Keys <= after.Keys
    && (forall x :: x in after ==> (x in before && after[x] == before[x]) || (x in source && after[x] == source[x]))
  }

  /** What is new in `after` are scanned keys and BH: keys, each with the source's value. */
  ghost predicate Adds(source: Db, ks: seq<Bytes>, before: Db, after: Db) {
    && OnlySourceValues(source, before, after)
    && (forall x :: x in after ==> x in before || x in ks || HasPrefix(x, BH_PREFIX))
  }

  lemma HashKeyPrefix(env: Env, k: Bytes, bh: Bytes)
    requires HashEntry(env, k, bh)
    ensures HasPrefix(bh, BH_PREFIX)
  {
    assert bh[..3] == BH_PREFIX;
  }

  lemma EntriesExact(env: Env, k: Bytes, x: Bytes)
    requires k in env.source
    ensures x in Entries(env, k) <==> x == k || HashEntry(env, k, x)
    ensures x in Entries(env, k) ==> x in env.source && Entries(env, k)[x] == env.source[x]
  {
  }

  lemma EntriesAdd(env: Env, k: Bytes, w: Db)
    requires k in env.source
    ensures Adds(env.source, [k], w, w + Entries(env, k))
  {
    var m := Entries(env, k);
    forall x | x in m
      ensures (x == k || HasPrefix(x, BH_PREFIX)) && x in env.source && m[x] == env.source[x]
    {
      EntriesExact(env, k, x);
      if x != k { HashKeyPrefix(env, k, x); }
    }
  }

  lemma AddsMore(source: Db, ks: seq<Bytes>, k: Bytes, a: Db, b: Db, c: Db)
    requires Adds(source, ks, a, b) && Adds(source, [k], b, c)
    ensures Adds(source, ks + [k], a, c)
  {
  }

  lemma PlanKeyAdds(rules: Rules, env: Env, t0: Db, p: Plan, k: Bytes)
    requires k in env.source
    ensures Adds(env.source, [k], p.writes, PlanKey(rules, env, t0, p, k).writes)
  {
    EntriesAdd(env, k, p.writes);
  }

  lemma {:induction false} PlanAdds(rules: Rules, env: Env, t0: Db, p: Plan, ks: seq<Bytes>)
    requires forall k :: k in ks ==> k in env.source
    ensures Adds(env.source, ks, p.writes, PlanKeys(rules, env, t0, p, ks).writes)
  {
    if ks != [] {
      var front, k := ks[..|ks| - 1], ks[|ks| - 1];
      PlanAdds(rules, env, t0, p, front);
      var q := PlanKeys(rules, env, t0, p, front);
      PlanKeyAdds(rules, env, t0, q, k);
      AddsMore(env.source, front, k, p.writes, q.writes, PlanKey(rules, env, t0, q, k).writes);
      assert ks == front + [k];
    }
  }

  // ---------------------------------------------------------------------------------------
  // One key and one iterator

  /** patchSingleKey: adds the key and its BH: entry to the batch; only the key's own error counts. */
  method PatchSingleKey(rules: Rules, env: Env, k: Bytes, batch: Db) returns (ok: bool, r: Db)
    requires k in env.source
    ensures ok == (rules.dryRun || !env.setFails(k))
    ensures r == if ok && !rules.dryRun then batch + Entries(env, k) else batch
  {
    ok, r := true, batch;
    if rules.dryRun { return; }
    if env.setFails(k) { return false, r; }
    var value := env.source[k];
    r := r[k := value];
    if |k| > 2 && HasPrefix(k, H_PREFIX) {
      var h := ExtractBlockHashFromMetadata(value);
      if h.Some? {
        var bh := BH_PREFIX + h.value;
        if !env.sourceFails(bh) && bh in env.source && !env.setFails(bh) {
          r := r[bh := env.source[bh]];
        }
      }
    }
  }

  /** The loop body before the flush; `added` says that the batch count goes up. */
  method PatchKey(rules: Rules, env: Env, target: Target, stats: Stats, k: Bytes, strategy: Strategy, batch: Db)
    returns (next: Strategy, r: Db, added: bool)
    requires k in env.source
    modifies stats
    ensures stats.totalKeys == old(stats.totalKeys) && stats.processedKeys == old(stats.processedKeys)
    ensures Plan(r, if added then 1 else 0, stats.errorCount, stats.skipped, next, stats.asked) ==
            PlanKey(rules, env, target.data, Plan(batch, 0, old(stats.errorCount), old(stats.skipped), strategy,
                old(stats.asked)), k)
  {
    next, r, added := strategy, batch, false;
    if !Chosen(rules, k) { return; }
    if env.getFails(k) {
      stats.errorCount := stats.errorCount + 1;
      return;
    }
    var d := Decide(rules, env, strategy, stats.asked, k in target.data);
    next := d.strategy;
    stats.asked := d.asked;
    if d.skipped { stats.skipped := stats.skipped + 1; }
    if !d.write { return; }
    added, r := PatchSingleKey(rules, env, k, batch);
    if !added { stats.errorCount := stats.errorCount + 1; }
  }

  /** An iterator over the source: the keys it yields, and whether it then reports an error. */
  datatype Iter = Iter(keys: seq<Bytes>, error: bool)

  ghost predicate Scannable(source: Db, ks: seq<Bytes>) {
    && Ascending(ks)
    && (forall k :: k in ks ==> k in source && !HasPrefix(k, BH_PREFIX))
  }

  /** The next scanned key has not been written by this run. */
  lemma NotWrittenYet(source: Db, ks: seq<Bytes>, i: nat, before: Db, after: Db)
    requires Scannable(source, ks) && i < |ks| && Adds(source, ks[..i], before, after) && ks[i] !in before
    ensures ks[i] !in after
  {
    AscendingFresh(ks, i);
    assert ks[i] in ks;
  }

  lemma AdvanceOnBatch(rules: Rules, env: Env, p: Plan, o: Outcome, flushed: Db, batch: Db, k: Bytes)
    requires k in env.source && p.writes == flushed + batch
    ensures Advance(rules, env, p, o, k).writes == flushed + Advance(rules, env, p.(writes := batch), o, k).writes
  {
    assert (flushed + batch) + Entries(env, k) == flushed + (batch + Entries(env, k));
  }

  /** A key is planned the same against a batch as against all writes so far. */
  lemma PlanKeyOnBatch(rules: Rules, env: Env, t: Db, t0: Db, p: Plan, flushed: Db, batch: Db, k: Bytes)
    requires k in env.source && (k in t <==> k in t0) && p.writes == flushed + batch
    ensures var r, q := PlanKey(rules, env, t0, p, k),
            PlanKey(rules, env, t, Plan(batch, 0, p.errors, p.skipped, p.strategy, p.asked), k);
            r == Plan(flushed + q.writes, p.processed + q.processed, q.errors, q.skipped, q.strategy, q.asked)
  {
    AdvanceOnBatch(rules, env, p, Resolve(rules, env, p.strategy, p.asked, k in t0, k), flushed, batch, k);
  }

  lemma PlanNext(rules: Rules, env: Env, t0: Db, p: Plan, ks: seq<Bytes>, i: nat)
    requires (forall k :: k in ks ==> k in env.source) && i < |ks|
    ensures (forall k :: k in ks[..i] ==> k in env.source) && (forall k :: k in ks[..i + 1] ==> k in env.source)
    ensures PlanKeys(rules, env, t0, p, ks[..i + 1]) ==
            PlanKey(rules, env, t0, PlanKeys(rules, env, t0, p, ks[..i]), ks[i])
  {
    assert ks[..i + 1][..i] == ks[..i];
    assert forall k :: k in ks[..i] ==> k in ks;
    assert forall k :: k in ks[..i + 1] ==> k in ks;
  }

  lemma OverlayOnlySource(source: Db, t0: Db, w: Db, w': Db)
    requires OnlySourceValues(source, w, w')
    ensures OnlySourceValues(source, t0 + w, t0 + w')
  {
  }

  /** The target and the counters are what the plan says. */
  ghost predicate Reflects(p: Plan, t0: Db, target: Target, stats: Stats)
    reads target, stats
  {
    && target.data == t0 + p.writes
    && p.processed == stats.processedKeys && p.errors == stats.errorCount
    && p.skipped == stats.skipped && p.asked == stats.asked
  }

  /** writeAndResetBatch: a dry run writes nothing and keeps its batch. */
  method WriteAndResetBatch(rules: Rules, target: Target, batch: Db) returns (ok: bool, r: Db)
    modifies target
    ensures ok ==> target.data == (if rules.dryRun then old(target.data) else old(target.data) + batch)
    ensures ok ==> r == if rules.dryRun then batch else map[]
    ensures !ok ==> target.data == old(target.data) && target.failsFrom.Some?
  {
    if rules.dryRun { return true, batch; }
    ok := target.Write(batch);
    r := if ok then map[] else batch;
  }

  lemma DryRunWritesNothing(rules: Rules, env: Env, t0: Db, p: Plan, ks: seq<Bytes>)
    requires (forall k :: k in ks ==> k in env.source) && rules.dryRun
    ensures PlanKeys(rules, env, t0, p, ks).writes == p.writes
  {
    if ks != [] { DryRunWritesNothing(rules, env, t0, p, ks[..|ks| - 1]); }
  }

  /** The state of the loop in patchWithIterator after the plan `p`. */
  ghost predicate Batched(p: Plan, p0: Plan, source: Db, t0: Db, target: Target, stats: Stats, flushed: Db,
      batch: Db, count: nat, strategy: Strategy)
    reads target, stats
  {
    && target.data == t0 + flushed && p.writes == flushed + batch && (count == 0 ==> p.writes == flushed)
    && p.processed == stats.processedKeys + count && p.errors == stats.errorCount
    && p.skipped == stats.skipped && p.asked == stats.asked && p.strategy == strategy
    && OnlySourceValues(source, p0.writes, flushed)
  }

  /** One turn of the loop without the flush. */
  method PatchNext(rules: Rules, env: Env, target: Target, stats: Stats, ks: seq<Bytes>, i: nat, strategy: Strategy,
      batch: Db, count: nat, ghost t0: Db, ghost p0: Plan, ghost flushed: Db)
    returns (next: Strategy, r: Db, n: nat)
    requires Scannable(env.source, ks) && i < |ks| && ks[i] !in p0.writes
    requires forall k :: k in ks[..i] ==> k in env.source
    requires Batched(PlanKeys(rules, env, t0, p0, ks[..i]), p0, env.source, t0, target, stats, flushed, batch, count,
            strategy)
    modifies stats
    ensures stats.totalKeys == old(stats.totalKeys)
    ensures forall k :: k in ks[..i + 1] ==> k in env.source
    ensures Batched(PlanKeys(rules, env, t0, p0, ks[..i + 1]), p0, env.source, t0, target, stats, flushed, r, n, next)
  {
    ghost var p, k := PlanKeys(rules, env, t0, p0, ks[..i]), ks[i];
    PlanNext(rules, env, t0, p0, ks, i);
    PlanAdds(rules, env, t0, p0, ks[..i]);
    NotWrittenYet(env.source, ks, i, p0.writes, p.writes);
    assert k !in flushed;
    PlanKeyOnBatch(rules, env, target.data, t0, p, flushed, batch, k);
    var added;
    next, r, added := PatchKey(rules, env, target, stats, ks[i], strategy, batch);
    n := if added then count + 1 else count;
  }

  /** The flush inside the loop, and the one after it. */
  method FlushBatched(rules: Rules, target: Target, stats: Stats, batch: Db, count: nat, ghost source: Db,
      ghost t0: Db, ghost p0: Plan, ghost p: Plan, ghost flushed: Db, ghost strategy: Strategy)
    returns (ok: bool, r: Db, ghost now: Db)
    requires OnlySourceValues(source, p0.writes, p.writes)
    requires Batched(p, p0, source, t0, target, stats, flushed, batch, count, strategy)
    requires rules.dryRun ==> flushed == p0.writes == p.writes
    modifies target, stats
    ensures stats.totalKeys == old(stats.totalKeys)
    ensures !ok ==> target.data == old(target.data) && target.failsFrom.Some?
    ensures ok ==> Batched(p, p0, source, t0, target, stats, now, r, 0, strategy)
    ensures ok && rules.dryRun ==> now == p0.writes
  {
    now := p.writes;
    ok, r := WriteAndResetBatch(rules, target, batch);
    if !ok { return; }
    assert target.data == t0 + now && now + r == p.writes by {
      if !rules.dryRun { assert (t0 + flushed) + batch == t0 + (flushed + batch); }
    }
    stats.processedKeys := stats.processedKeys + count;
  }

  lemma PlanSafe(rules: Rules, env: Env, t0: Db, p: Plan, ks: seq<Bytes>)
    requires forall k :: k in ks ==> k in env.source
    ensures OnlySourceValues(env.source, p.writes, PlanKeys(rules, env, t0, p, ks).writes)
    ensures rules.dryRun ==> PlanKeys(rules, env, t0, p, ks).writes == p.writes
  {
    PlanAdds(rules, env, t0, p, ks);
    if rules.dryRun { DryRunWritesNothing(rules, env, t0, p, ks); }
  }

  /** A flush after the keys `ks`. */
  method FlushKeys(rules: Rules, ghost env: Env, target: Target, stats: Stats, ghost ks: seq<Bytes>, batch: Db,
      count: nat, ghost t0: Db, ghost p0: Plan, ghost flushed: Db, ghost strategy: Strategy)
    returns (ok: bool, r: Db, ghost now: Db)
    requires forall k :: k in ks ==> k in env.source
    requires Batched(PlanKeys(rules, env, t0, p0, ks), p0, env.source, t0, target, stats, flushed, batch, count,
            strategy)
    requires rules.dryRun ==> flushed == p0.writes
    modifies target, stats
    ensures stats.totalKeys == old(stats.totalKeys)
    ensures !ok ==> target.data == old(target.data) && target.failsFrom.Some?
    ensures ok ==> Batched(PlanKeys(rules, env, t0, p0, ks), p0, env.source, t0, target, stats, now, r, 0, strategy)
    ensures ok && rules.dryRun ==> now == p0.writes
  {
    ghost var p := PlanKeys(rules, env, t0, p0, ks);
    PlanSafe(rules, env, t0, p0, ks);
    ok, r, now := FlushBatched(rules, target, stats, batch, count, env.source, t0, p0, p, flushed, strategy);
  }

  /**
   patchWithIterator carries out the plan of its keys for every batch size. `t0` is the target
   at the start of the run and `p0` what the iterators before this one did.
   */
  method PatchWithIterator(rules: Rules, env: Env, batchSize: int, target: Target, stats: Stats, it: Iter,
      ghost t0: Db, ghost p0: Plan)
    returns (ok: bool)
    requires Scannable(env.source, it.keys) && (forall k :: k in it.keys ==> k !in p0.writes)
    requires Reflects(p0, t0, target, stats) && p0.strategy == rules.strategy
    modifies target, stats
    ensures stats.totalKeys == old(stats.totalKeys)
    ensures OnlySourceValues(env.source, old(target.data), target.data)
    ensures !ok ==> it.error || target.failsFrom.Some?
    ensures ok ==> !it.error
    ensures ok || target.failsFrom.None? ==> Reflects(PlanKeys(rules, env, t0, p0, it.keys), t0, target, stats)
    ensures rules.dryRun ==> target.data == old(target.data)
  {
    var ks := it.keys;
    var i, batch: Db, count: nat, strategy := 0, map[], 0, rules.strategy;
    ghost var flushed := p0.writes;
    assert p0.writes + batch == p0.writes && ks[..0] == [];
    while i < |ks|
      invariant i <= |ks| && forall k :: k in ks[..i] ==> k in env.source
      invariant stats.totalKeys == old(stats.totalKeys)
      invariant rules.dryRun ==> flushed == p0.writes
      invariant Batched(PlanKeys(rules, env, t0, p0, ks[..i]), p0, env.source, t0, target, stats, flushed, batch,
              count, strategy)
    {
      var before := count;
      strategy, batch, count := PatchNext(rules, env, target, stats, ks, i, strategy, batch, count, t0, p0, flushed);
      i := i + 1;
      if count > before && count >= batchSize {
        OverlayOnlySource(env.source, t0, p0.writes, flushed);
        ok, batch, flushed := FlushKeys(rules, env, target, stats, ks[..i], batch, count, t0, p0, flushed, strategy);
        if !ok { return; }
        count := 0;
      }
    }
    assert ks[..i] == ks;
    OverlayOnlySource(env.source, t0, p0.writes, flushed);
    if count > 0 {
      ok, batch, flushed := FlushKeys(rules, env, target, stats, ks, batch, count, t0, p0, flushed, strategy);
      if !ok { return; }
      OverlayOnlySource(env.source, t0, p0.writes, flushed);
    }
    ok := !it.error;
  }

  // ---------------------------------------------------------------------------------------
  // The blockstore

  ghost predicate AllScannable(source: Db, iters: seq<Iter>) {
    && (forall i :: 0 <= i < |iters| ==> Scannable(source, iters[i].keys))
    && (forall i, j, k :: 0 <= i < j < |iters| && k in iters[j].keys ==> k !in iters[i].keys)
  }

  /** One plan for all iterators: each starts again from the configured strategy. */
  ghost function PlanAll(rules: Rules, env: Env, t0: Db, p: Plan, iters: seq<Iter>): (r: Plan)
    requires forall i :: 0 <= i < |iters| ==> Scannable(env.source, iters[i].keys)
  {
    if iters == [] then p
    else
      var q := PlanAll(rules, env, t0, p, iters[..|iters| - 1]);
      assert Scannable(env.source, iters[|iters| - 1].keys);
      PlanKeys(rules, env, t0, q.(strategy := rules.strategy), iters[|iters| - 1].keys)
  }

  /** What all iterators write is new, scanned or a BH: key, and the source's. */
  ghost predicate AllAdd(source: Db, iters: seq<Iter>, before: Db, after: Db) {
    && OnlySourceValues(source, before, after)
    && (forall x :: x in after ==> x in before || HasPrefix(x, BH_PREFIX) || exists i ::
        0 <= i < |iters| && x in iters[i].keys)
  }

  lemma {:induction false} PlanAllAdds(rules: Rules, env: Env, t0: Db, p: Plan, iters: seq<Iter>)
    requires forall i :: 0 <= i < |iters| ==> Scannable(env.source, iters[i].keys)
    ensures AllAdd(env.source, iters, p.writes, PlanAll(rules, env, t0, p, iters).writes)
  {
    if iters != [] {
      var front, ks := iters[..|iters| - 1], iters[|iters| - 1].keys;
      PlanAllAdds(rules, env, t0, p, front);
      var q := PlanAll(rules, env, t0, p, front);
      PlanAdds(rules, env, t0, q.(strategy := rules.strategy), ks);
      var r := PlanAll(rules, env, t0, p, iters);
      forall x | x in r.writes
        ensures x in p.writes || HasPrefix(x, BH_PREFIX) || exists i :: 0 <= i < |iters| && x in iters[i].keys
      {
        if x in q.writes && x !in p.writes && !HasPrefix(x, BH_PREFIX) {
          var i :| 0 <= i < |front| && x in front[i].keys;
          assert x in iters[i].keys;
        }
      }
    }
  }

  /** patchBlockstoreData over the five iterators in turn. */
  method PatchBlockstoreData(rules: Rules, env: Env, batchSize: int, target: Target, stats: Stats, iters: seq<Iter>)
    returns (ok: bool, ghost plan: Plan)
    requires AllScannable(env.source, iters)
    modifies target, stats
    ensures stats.totalKeys == old(stats.totalKeys)
    ensures OnlySourceValues(env.source, old(target.data), target.data)
    ensures plan == PlanAll(rules, env, old(target.data),
            Plan(map[], old(stats.processedKeys), old(stats.errorCount), old(stats.skipped), rules.strategy,
            old(stats.asked)), iters)
    ensures ok ==> Reflects(plan, old(target.data), target, stats)
    ensures rules.dryRun ==> target.data == old(target.data)
    ensures !ok ==> target.failsFrom.Some? || exists i :: 0 <= i < |iters| && iters[i].error
  {
    ghost var t0 := target.data;
    ghost var p0 := Plan(map[], stats.processedKeys, stats.errorCount, stats.skipped, rules.strategy, stats.asked);
    plan := PlanAll(rules, env, t0, p0, iters);
    ghost var p := p0;
    assert t0 + p0.writes == t0;
    var i := 0;
    while i < |iters|
      invariant 0 <= i <= |iters| && stats.totalKeys == old(stats.totalKeys)
      invariant p == PlanAll(rules, env, t0, p0, iters[..i])
      invariant Reflects(p, t0, target, stats)
      invariant OnlySourceValues(env.source, t0, target.data)
      invariant rules.dryRun ==> target.data == t0
    {
      PlanAllAdds(rules, env, t0, p0, iters[..i]);
      assert iters[..i + 1][..i] == iters[..i];
      ghost var q := p.(strategy := rules.strategy);
      ok := PatchWithIterator(rules, env, batchSize, target, stats, iters[i], t0, q);
      if !ok { return; }
      p := PlanKeys(rules, env, t0, q, iters[i].keys);
      i := i + 1;
    }
    assert iters[..i] == iters;
    return true, plan;
  }

  // ---------------------------------------------------------------------------------------
  // Counting

  function Count(rules: Rules, ks: seq<Bytes>): (n: nat) {
    if ks == [] then 0 else Count(rules, ks[..|ks| - 1]) + (if Chosen(rules, ks[|ks| - 1]) then 1 else 0)
  }

  function CountAll(rules: Rules, iters: seq<Iter>): (n: nat) {
    if iters == [] then 0 else CountAll(rules, iters[..|iters| - 1]) + Count(rules, iters[|iters| - 1].keys)
  }

  function Handled(p: Plan): (n: nat) { p.processed + p.errors + p.skipped }

  /** Every chosen key is copied, skipped or an error, and just one of these. */
  lemma {:induction false} PlanAccounts(rules: Rules, env: Env, t0: Db, p: Plan, ks: seq<Bytes>)
    requires forall k :: k in ks ==> k in env.source
    ensures Handled(PlanKeys(rules, env, t0, p, ks)) == Handled(p) + Count(rules, ks)
    ensures Count(rules, ks) == 0 ==> PlanKeys(rules, env, t0, p, ks) == p
  {
    if ks != [] {
      var front, k := ks[..|ks| - 1], ks[|ks| - 1];
      PlanAccounts(rules, env, t0, p, front);
      var q := PlanKeys(rules, env, t0, p, front);
      var o := Resolve(rules, env, q.strategy, q.asked, k in t0, k);
      assert Handled(Advance(rules, env, q, o, k)) == Handled(q) + (if Chosen(rules, k) then 1 else 0);
    }
  }

  lemma {:induction false} PlanAllAccounts(rules: Rules, env: Env, t0: Db, p: Plan, iters: seq<Iter>)
    requires (forall i :: 0 <= i < |iters| ==> Scannable(env.source, iters[i].keys)) && p.strategy == rules.strategy
    ensures Handled(PlanAll(rules, env, t0, p, iters)) == Handled(p) + CountAll(rules, iters)
    ensures CountAll(rules, iters) == 0 ==> PlanAll(rules, env, t0, p, iters) == p
  {
    if iters != [] {
      var front, ks := iters[..|iters| - 1], iters[|iters| - 1].keys;
      PlanAllAccounts(rules, env, t0, p, front);
      PlanAccounts(rules, env, t0, PlanAll(rules, env, t0, p, front).(strategy := rules.strategy), ks);
    }
  }

  /** countKeysForPatch on a blockstore. */
  method CountKeysForPatch(rules: Rules, iters: seq<Iter>) returns (n: nat)
    ensures n == CountAll(rules, iters)
  {
    n := 0;
    var i := 0;
    while i < |iters|
      invariant 0 <= i <= |iters| && n == CountAll(rules, iters[..i])
    {
      var ks, j := iters[i].keys, 0;
      ghost var n0 := n;
      while j < |ks|
        invariant 0 <= j <= |ks| && n == n0 + Count(rules, ks[..j])
      {
        assert ks[..j + 1][..j] == ks[..j];
        if Chosen(rules, ks[j]) { n := n + 1; }
        j := j + 1;
      }
      assert ks[..j] == ks && iters[..i + 1][..i] == iters[..i];
      i := i + 1;
    }
    assert iters[..i] == iters;
  }

  /** The iterator over one of the five ranges; one that fails may stop early. */
  ghost predicate RangeIter(source: Db, i: int, it: Iter) {
    && Ascending(it.keys)
    && (forall k :: k in it.keys ==> k in source && InBlockstoreRange(k, i))
    && (!it.error ==> forall k :: k in source && InBlockstoreRange(k, i) ==> k in it.keys)
  }

  ghost predicate BlockstoreIters(source: Db, iters: seq<Iter>) {
    |iters| == |BLOCKSTORE_PREFIXES| && forall i :: 0 <= i < |iters| ==> RangeIter(source, i, iters[i])
  }

  /** The five ranges are disjoint and hold no BH: key, so no key is scanned twice or derived. */
  lemma BlockstoreScannable(source: Db, iters: seq<Iter>)
    requires BlockstoreIters(source, iters)
    ensures AllScannable(source, iters)
  {
    forall i, k | 0 <= i < |iters| && k in iters[i].keys ensures k in source && !HasPrefix(k, BH_PREFIX) {
      assert RangeIter(source, i, iters[i]);
      if HasPrefix(k, BH_PREFIX) { HashKeyInNoRange(k, i); }
    }
    forall i, j, k | 0 <= i < j < |iters| && k in iters[j].keys ensures k !in iters[i].keys {
      assert RangeIter(source, i, iters[i]) && RangeIter(source, j, iters[j]);
      if k in iters[i].keys { RangesDisjoint(k, i, j); }
    }
  }

  ghost function PlanRun(rules: Rules, env: Env, t0: Db, iters: seq<Iter>): (p: Plan)
    requires forall i :: 0 <= i < |iters| ==> Scannable(env.source, iters[i].keys)
  {
    PlanAll(rules, env, t0, Fresh(rules), iters)
  }

  function Fresh(rules: Rules): (p: Plan) { Plan(map[], 0, 0, 0, rules.strategy, 0) }

  lemma PlanRunAccounts(rules: Rules, env: Env, t0: Db, iters: seq<Iter>)
    requires forall i :: 0 <= i < |iters| ==> Scannable(env.source, iters[i].keys)
    ensures Handled(PlanRun(rules, env, t0, iters)) == CountAll(rules, iters)
    ensures CountAll(rules, iters) == 0 ==> PlanRun(rules, env, t0, iters) == Fresh(rules)
  {
    PlanAllAccounts(rules, env, t0, Fresh(rules), iters);
  }

  /**
   PatchDatabase after its options are validated and the stores opened: the target ends up as the
   plan says, whatever the batch size, and the chosen keys are all accounted for.
   */
  method PatchDatabase(rules: Rules, env: Env, batchSize: int, target: Target, stats: Stats, iters: seq<Iter>)
    returns (ok: bool)
    requires AllScannable(env.source, iters)
    requires stats.processedKeys == stats.errorCount == stats.skipped == stats.asked == 0
    modifies target, stats
    ensures OnlySourceValues(env.source, old(target.data), target.data)
    ensures ok ==> Reflects(PlanRun(rules, env, old(target.data), iters), old(target.data), target, stats)
    ensures ok ==> stats.totalKeys == stats.processedKeys + stats.errorCount + stats.skipped
    ensures rules.dryRun ==> target.data == old(target.data)
    ensures !ok ==> target.failsFrom.Some? || exists i :: 0 <= i < |iters| && iters[i].error
  {
    PlanRunAccounts(rules, env, target.data, iters);
    stats.totalKeys := CountKeysForPatch(rules, iters);
    if stats.totalKeys == 0 {
      assert target.data + Fresh(rules).writes == target.data;
      return true;
    }
    ghost var plan;
    ok, plan := PatchBlockstoreData(rules, env, batchSize, target, stats, iters);
  }

  // ---------------------------------------------------------------------------------------
  // What the strategies mean

  /** With a settled strategy: whether this scanned key is copied. */
  predicate Copies(rules: Rules, env: Env, t0: Db, strategy: Strategy, k: Bytes) {
    && Chosen(rules, k) && !env.getFails(k) && !rules.dryRun && !env.setFails(k)
    && (rules.skipConflictChecks || k !in t0 || strategy != SkipAll)
  }

  ghost predicate Derived(rules: Rules, env: Env, t0: Db, strategy: Strategy, ks: seq<Bytes>, x: Bytes) {
    exists k :: k in ks && Copies(rules, env, t0, strategy, k) && HashEntry(env, k, x)
  }

  predicate Settled(rules: Rules, strategy: Strategy) { rules.skipConflictChecks || strategy != Ask }

  lemma SettledStep(rules: Rules, env: Env, t0: Db, p: Plan, k: Bytes, x: Bytes)
    requires k in env.source && Settled(rules, p.strategy)
    ensures var r := PlanKey(rules, env, t0, p, k);
            && r.strategy == p.strategy && r.asked == p.asked
            && (x in r.writes <==>
                x in p.writes ||
                (Copies(rules, env, t0, p.strategy, k) && (x == k || HashEntry(env, k, x))))
  {
    EntriesExact(env, k, x);
  }

  /**
   Once nothing is asked any more, a key is written exactly when it is a scanned key that is
   copied or the BH: key derived from one, and no prompt is shown.
   */
  lemma {:induction false} SettledExact(rules: Rules, env: Env, t0: Db, p: Plan, ks: seq<Bytes>, x: Bytes)
    requires (forall k :: k in ks ==> k in env.source) && Settled(rules, p.strategy)
    ensures var r := PlanKeys(rules, env, t0, p, ks);
            && r.strategy == p.strategy && r.asked == p.asked
            && (x in r.writes <==>
                x in p.writes || (x in ks && Copies(rules, env, t0, p.strategy, x)) ||
                Derived(rules, env, t0, p.strategy, ks, x))
  {
    if ks != [] {
      var front, k := ks[..|ks| - 1], ks[|ks| - 1];
      SettledExact(rules, env, t0, p, front, x);
      SettledStep(rules, env, t0, PlanKeys(rules, env, t0, p, front), k, x);
      assert ks == front + [k];
      assert Derived(rules, env, t0, p.strategy, ks, x) <==>
             Derived(rules, env, t0, p.strategy, front, x) ||
                 (Copies(rules, env, t0, p.strategy, k) && HashEntry(env, k, x));
    }
  }

  /**
   Skipping conflicts keeps every existing key of the target, except a BH: key whose H: key is
   copied because the target lacks it: the derived entry is written without a conflict check.
   */
  lemma SkipKeepsExisting(rules: Rules, env: Env, t0: Db, p: Plan, ks: seq<Bytes>, x: Bytes)
    requires (forall k :: k in ks ==> k in env.source) && !rules.skipConflictChecks && p.strategy == SkipAll
    requires x in t0 && x !in p.writes
    ensures x in PlanKeys(rules, env, t0, p, ks).writes <==>
            exists k :: k in ks && k !in t0 && Copies(rules, env, t0, SkipAll, k) && HashEntry(env, k, x)
  {
    SettledExact(rules, env, t0, p, ks, x);
  }

  /** Such a BH: key exists for any block whose metadata names its hash first. */
  lemma SkipReplacesHash(heights: HeightRange, h: Bytes, hash: Bytes, rest: Bytes, kept: Bytes, height: Bytes)
    requires 20 <= |hash| <= 64 && |hash| + |rest| >= 31 && height != [] && h == H_PREFIX + height
    requires Chosen(Rules(heights, SkipAll, false, false), h)
    ensures var bh := BH_PREFIX + hash;
            var source := map[h := [0x0a, 2 + |hash|, 0x0a, |hash|] + hash + rest, bh := height];
            var env := Env(source, _ => false, _ => false, _ => false, _ => InputError);
            bh in PlanKeys(Rules(heights, SkipAll, false, false), env, map[bh := kept],
                Plan(map[], 0, 0, 0, SkipAll, 0), [h]).writes
  {
    var bh := BH_PREFIX + hash;
    var source := map[h := [0x0a, 2 + |hash|, 0x0a, |hash|] + hash + rest, bh := height];
    var env := Env(source, _ => false, _ => false, _ => false, _ => InputError);
    var rules, p := Rules(heights, SkipAll, false, false), Plan(map[], 0, 0, 0, SkipAll, 0);
    assert h[0] == 72 && bh[0] == 66;
    Prepended(H_PREFIX, height);
    LeadingBlockId(2 + |hash|, hash, rest);
    assert HashEntry(env, h, bh);
    SkipKeepsExisting(rules, env, map[bh := kept], p, [h], bh);
  }

  /** The strategy that a user who always answers alike amounts to. */
  function Standing(replace: bool): (s: Strategy) { if replace then ReplaceAll else SkipAll }

  /** The user always replaces, or never does; input that ends is not replacing. */
  ghost predicate AnswersAlike(answer: nat -> Answer, replace: bool) {
    forall n :: answer(n) == ReplaceThis || answer(n) == ReplaceRest <==> replace
  }

  ghost predicate SameDone(p: Plan, q: Plan) {
    p.writes == q.writes && p.processed == q.processed && p.errors == q.errors && p.skipped == q.skipped
  }

  lemma AskOne(rules: Rules, env: Env, t0: Db, p: Plan, q: Plan, k: Bytes, replace: bool)
    requires k in env.source && AnswersAlike(env.answer, replace) && SameDone(p, q)
    requires (p.strategy == Ask || p.strategy == Standing(replace)) && q.strategy == Standing(replace)
    ensures var a, b := PlanKey(rules, env, t0, p, k), PlanKey(rules, env, t0, q, k);
            SameDone(a, b) && (a.strategy == Ask || a.strategy == Standing(replace)) && b.strategy == Standing(replace)
  {
    assert env.answer(p.asked) == ReplaceThis || env.answer(p.asked) == ReplaceRest <==> replace;
  }

  /**
   Asking a user who always replaces is the replace strategy, and asking one who always skips, or
   whose input has ended, is the skip strategy: the same writes and the same counts, however the
   answers mix "this" and "all".
   */
  lemma {:induction false} AskIsStanding(rules: Rules, env: Env, t0: Db, p: Plan, q: Plan, ks: seq<Bytes>,
      replace: bool)
    requires (forall k :: k in ks ==> k in env.source) && AnswersAlike(env.answer, replace) && SameDone(p, q)
    requires p.strategy == Ask && q.strategy == Standing(replace)
    ensures var a, b := PlanKeys(rules, env, t0, p, ks), PlanKeys(rules, env, t0, q, ks);
            SameDone(a, b) && (a.strategy == Ask || a.strategy == Standing(replace)) && b.strategy == Standing(replace)
  {
    if ks != [] {
      var front, k := ks[..|ks| - 1], ks[|ks| - 1];
      AskIsStanding(rules, env, t0, p, q, front, replace);
      AskOne(rules, env, t0, PlanKeys(rules, env, t0, p, front), PlanKeys(rules, env, t0, q, front), k, replace);
    }
  }

  /** A dry run counts and asks what the real run does when no write to a batch fails. */
  lemma {:induction false} DryRunPredicts(rules: Rules, env: Env, t0: Db, p: Plan, q: Plan, ks: seq<Bytes>)
    requires forall k :: k in ks ==> k in env.source && !env.setFails(k)
    requires q == p.(writes := q.writes)
    ensures var dry, wet := PlanKeys(rules.(dryRun := true), env, t0, p, ks),
            PlanKeys(rules.(dryRun := false), env, t0, q, ks);
            dry.writes == p.writes && dry == wet.(writes := dry.writes)
  {
    if ks != [] {
      var front, k := ks[..|ks| - 1], ks[|ks| - 1];
      DryRunPredicts(rules, env, t0, p, q, front);
      var a := PlanKeys(rules.(dryRun := true), env, t0, p, front);
      assert Resolve(rules.(dryRun := true), env, a.strategy, a.asked, k in t0, k) ==
          Resolve(rules.(dryRun := false), env, a.strategy, a.asked, k in t0, k);
    }
  }

  /** The same for a whole run: a dry run predicts every counter and every prompt of the real one. */
  lemma {:induction false} DryRunPredictsAll(rules: Rules, env: Env, t0: Db, p: Plan, q: Plan, iters: seq<Iter>)
    requires forall i :: 0 <= i < |iters| ==> Scannable(env.source, iters[i].keys)
    requires forall i, k :: 0 <= i < |iters| && k in iters[i].keys ==> !env.setFails(k)
    requires q == p.(writes := q.writes)
    ensures var dry, wet := PlanAll(rules.(dryRun := true), env, t0, p, iters),
            PlanAll(rules.(dryRun := false), env, t0, q, iters);
            dry.writes == p.writes && dry == wet.(writes := dry.writes)
  {
    if iters != [] {
      var front, ks := iters[..|iters| - 1], iters[|iters| - 1].keys;
      DryRunPredictsAll(rules, env, t0, p, q, front);
      var a := PlanAll(rules.(dryRun := true), env, t0, p, front).(strategy := rules.strategy);
      var b := PlanAll(rules.(dryRun := false), env, t0, q, front).(strategy := rules.strategy);
      assert Scannable(env.source, ks);
      DryRunPredicts(rules, env, t0, a, b, ks);
    }
  }

  lemma DryRunPredictsRun(rules: Rules, env: Env, t0: Db, iters: seq<Iter>)
    requires forall i :: 0 <= i < |iters| ==> Scannable(env.source, iters[i].keys)
    requires forall i, k :: 0 <= i < |iters| && k in iters[i].keys ==> !env.setFails(k)
    ensures var dry, wet := PlanRun(rules.(dryRun := true), env, t0, iters),
            PlanRun(rules.(dryRun := false), env, t0, iters);
            dry.writes == map[] && dry == wet.(writes := map[])
  {
    DryRunPredictsAll(rules, env, t0, Fresh(rules), Fresh(rules), iters);
  }

  // ---------------------------------------------------------------------------------------
  // Asking, over a whole run

  /** The configured strategy only matters as the one an iterator starts with. */
  lemma {:induction false} StartsOnly(rules: Rules, env: Env, t0: Db, p: Plan, ks: seq<Bytes>, strategy: Strategy)
    requires forall k :: k in ks ==> k in env.source
    ensures PlanKeys(rules, env, t0, p, ks) == PlanKeys(rules.(strategy := strategy), env, t0, p, ks)
  {
    if ks != [] { StartsOnly(rules, env, t0, p, ks[..|ks| - 1], strategy); }
  }

  /** A run that asks a user who always answers alike is the run of the standing strategy. */
  lemma {:induction false} AskAllIsStanding(rules: Rules, env: Env, t0: Db, p: Plan, q: Plan, iters: seq<Iter>,
      replace: bool)
    requires (forall i :: 0 <= i < |iters| ==> Scannable(env.source, iters[i].keys)) && rules.strategy == Ask
    requires AnswersAlike(env.answer, replace) && SameDone(p, q)
    ensures SameDone(PlanAll(rules, env, t0, p, iters),
            PlanAll(rules.(strategy := Standing(replace)), env, t0, q, iters))
  {
    if iters != [] {
      var front, ks := iters[..|iters| - 1], iters[|iters| - 1].keys;
      AskAllIsStanding(rules, env, t0, p, q, front, replace);
      assert Scannable(env.source, ks);
      var a := PlanAll(rules, env, t0, p, front).(strategy := Ask);
      var b := PlanAll(rules.(strategy := Standing(replace)), env, t0, q, front).(strategy := Standing(replace));
      AskIsStanding(rules, env, t0, a, b, ks, replace);
      StartsOnly(rules, env, t0, b, ks, Standing(replace));
    }
  }

  /** The key is chosen and already in the target. */
  predicate Conflicts(rules: Rules, env: Env, t0: Db, k: Bytes) {
    !rules.skipConflictChecks && Chosen(rules, k) && !env.getFails(k) && k in t0
  }

  lemma PromptsOnce(rules: Rules, env: Env, strategy: Strategy, asked: nat, t0: Db, k: Bytes)
    ensures var o := Resolve(rules, env, strategy, asked, k in t0, k);
            && o.asked == asked + (if strategy == Ask && Conflicts(rules, env, t0, k) then 1 else 0)
            && (o.asked == asked ==> o.strategy == strategy)
  {
  }

  /** An iterator that starts by asking prompts if and only if it meets a conflict. */
  lemma {:induction false} PromptsExact(rules: Rules, env: Env, t0: Db, p: Plan, ks: seq<Bytes>)
    requires forall k :: k in ks ==> k in env.source
    ensures var r := PlanKeys(rules, env, t0, p, ks);
            && r.asked >= p.asked
            && (r.asked > p.asked <==> p.strategy == Ask && exists k :: k in ks && Conflicts(rules, env, t0, k))
            && (r.asked == p.asked ==> r.strategy == p.strategy)
  {
    if ks != [] {
      var front, k := ks[..|ks| - 1], ks[|ks| - 1];
      PromptsExact(rules, env, t0, p, front);
      assert forall x :: x in ks <==> x in front || x == k by { assert ks == front + [k]; }
      var q := PlanKeys(rules, env, t0, p, front);
      PromptsOnce(rules, env, q.strategy, q.asked, t0, k);
    }
  }

  // ---------------------------------------------------------------------------------------
  // Which answer decides which key

  predicate IsForAll(a: Answer) { a == ReplaceRest || a == SkipRest }

  predicate Replaces(a: Answer) { a == ReplaceThis || a == ReplaceRest }

  /** The answer that decides conflict `m`: the first one for all before it, or else its own. */
  function Deciding(answer: nat -> Answer, from: nat, m: nat): (f: nat)
    ensures f <= m && (f < m ==> IsForAll(answer(from + f)))
    ensures forall g :: from <= g < from + f ==> !IsForAll(answer(g))
  {
    if m == 0 then 0
    else
      var f := Deciding(answer, from, m - 1);
      if IsForAll(answer(from + f)) then f else m
  }

  /** Whether conflict `m` of an iterator is overwritten. */
  predicate Overwrites(strategy: Strategy, answer: nat -> Answer, from: nat, m: nat) {
    strategy == Replace || strategy == ReplaceAll ||
    (strategy == Ask && Replaces(answer(from + Deciding(answer, from, m))))
  }

  /** After `n` conflicts: how many answers were asked for in all, and the strategy. */
  function AskedAfter(strategy: Strategy, answer: nat -> Answer, from: nat, n: nat): (asked: nat) {
    if strategy != Ask then from
    else
      var f := Deciding(answer, from, n);
      if f < n then from + f + 1 else from + n
  }

  function StrategyAfter(strategy: Strategy, answer: nat -> Answer, from: nat, n: nat): (s: Strategy) {
    if strategy != Ask then strategy
    else
      var f := Deciding(answer, from, n);
      if f == n then Ask else if answer(from + f) == ReplaceRest then ReplaceAll else SkipAll
  }

  /** What becomes of a scanned key. */
  datatype Fate = NotChosen | Writes | Errs | Keeps

  ghost function ConflictMark(rules: Rules, env: Env, t0: Db): (mark: Bytes -> bool) {
    k => Conflicts(rules, env, t0, k)
  }

  /** The fate of a key that is conflict number `m` of its iterator, if it is one. */
  function FateOf(rules: Rules, env: Env, t0: Db, strategy: Strategy, from: nat, m: nat, k: Bytes): (f: Fate) {
    if !Chosen(rules, k) then NotChosen
    else if env.getFails(k) then Errs
    else if !rules.skipConflictChecks && k in t0 && !Overwrites(strategy, env.answer, from, m) then Keeps
    else if !rules.dryRun && env.setFails(k) then Errs
    else Writes
  }

  /** The fates of the keys of an iterator that starts with this strategy and `from` answers asked for. */
  ghost function Fates(rules: Rules, env: Env, t0: Db, strategy: Strategy, from: nat, ks: seq<Bytes>)
    : (fs: seq<Fate>) {
    seq(|ks|, i requires 0 <= i < |ks| =>
      FateOf(rules, env, t0, strategy, from, CountMarked(ks[..i], ConflictMark(rules, env, t0)), ks[i]))
  }

  lemma FatesNext(rules: Rules, env: Env, t0: Db, strategy: Strategy, from: nat, ks: seq<Bytes>, fs: seq<Fate>)
    requires ks != [] && fs == Fates(rules, env, t0, strategy, from, ks)
    ensures var front, k := ks[..|ks| - 1], ks[|ks| - 1];
            var n := CountMarked(front, ConflictMark(rules, env, t0));
            && fs[..|fs| - 1] == Fates(rules, env, t0, strategy, from, front)
            && fs[|fs| - 1] == FateOf(rules, env, t0, strategy, from, n, k)
  {
    var front := ks[..|ks| - 1];
    forall i | 0 <= i < |front| ensures front[..i] == ks[..i] {}
  }

  /** One conflict more: asked about if no answer was for all yet, and decided. */
  lemma AfterNext(strategy: Strategy, answer: nat -> Answer, from: nat, n: nat)
    ensures var s, asked := StrategyAfter(strategy, answer, from, n), AskedAfter(strategy, answer, from, n);
            && AskedAfter(strategy, answer, from, n + 1) == (if s == Ask then asked + 1 else asked)
            && StrategyAfter(strategy, answer, from, n + 1) ==
               (if s != Ask || !IsForAll(answer(asked)) then s
                else if answer(asked) == ReplaceRest then ReplaceAll else SkipAll)
            && (Overwrites(strategy, answer, from, n) <==>
                s == Replace || s == ReplaceAll || (s == Ask && Replaces(answer(asked))))
  {
  }

  /** One key, decided in the state that `n` conflicts have led to. */
  lemma FateStep(rules: Rules, env: Env, t0: Db, strategy: Strategy, from: nat, n: nat, k: Bytes)
    ensures var o := Resolve(rules, env, StrategyAfter(strategy, env.answer, from, n),
                AskedAfter(strategy, env.answer, from, n), k in t0, k);
            var next := if Conflicts(rules, env, t0, k) then n + 1 else n;
            && o.strategy == StrategyAfter(strategy, env.answer, from, next)
            && o.asked == AskedAfter(strategy, env.answer, from, next)
            && (o.copied <==> FateOf(rules, env, t0, strategy, from, n, k) == Writes)
            && (o.error <==> FateOf(rules, env, t0, strategy, from, n, k) == Errs)
            && (o.skipped <==> FateOf(rules, env, t0, strategy, from, n, k) == Keeps)
  {
    AfterNext(strategy, env.answer, from, n);
  }

  /** `r` is what the fates `fs`, with `n` conflicts among them, make of `p`. */
  ghost predicate Follows(env: Env, p: Plan, r: Plan, fs: seq<Fate>, n: nat) {
    && r.processed == p.processed + multiset(fs)[Writes] && r.errors == p.errors + multiset(fs)[Errs]
    && r.skipped == p.skipped + multiset(fs)[Keeps]
    && r.asked == AskedAfter(p.strategy, env.answer, p.asked, n)
    && r.strategy == StrategyAfter(p.strategy, env.answer, p.asked, n)
  }

  lemma PlanStep(rules: Rules, env: Env, t0: Db, p: Plan, q: Plan, fs: seq<Fate>, n: nat, k: Bytes)
    requires k in env.source && fs != [] && Follows(env, p, q, fs[..|fs| - 1], n)
    requires fs[|fs| - 1] == FateOf(rules, env, t0, p.strategy, p.asked, n, k)
    ensures var r, f := PlanKey(rules, env, t0, q, k), fs[|fs| - 1];
            && r.writes == (if f == Writes && !rules.dryRun then q.writes + Entries(env, k) else q.writes)
            && Follows(env, p, r, fs, if Conflicts(rules, env, t0, k) then n + 1 else n)
  {
    FateStep(rules, env, t0, p.strategy, p.asked, n, k);
    CountLast(fs, Writes);
    CountLast(fs, Errs);
    CountLast(fs, Keeps);
  }

  /** A key of the iterator is written whose own or derived entry is `x`. */
  ghost predicate WrittenBy(env: Env, ks: seq<Bytes>, fs: seq<Fate>, i: int, x: Bytes) {
    0 <= i < |ks| == |fs| && fs[i] == Writes && (x == ks[i] || HashEntry(env, ks[i], x))
  }

  /**
   Every key of an iterator is decided as it should be, for any answers. The conflicts are numbered
   in scan order: conflict `m` is decided by answer `m`, or by the first answer for all before it,
   after which nothing more is asked. Counters, questions and keys written follow.
   */
  lemma {:induction false} PlanExact(rules: Rules, env: Env, t0: Db, p: Plan, ks: seq<Bytes>, fs: seq<Fate>)
    requires (forall k :: k in ks ==> k in env.source) && fs == Fates(rules, env, t0, p.strategy, p.asked, ks)
    ensures Follows(env, p, PlanKeys(rules, env, t0, p, ks), fs, CountMarked(ks, ConflictMark(rules, env, t0)))
  {
    if ks != [] {
      var front, k := ks[..|ks| - 1], ks[|ks| - 1];
      FatesNext(rules, env, t0, p.strategy, p.asked, ks, fs);
      PlanExact(rules, env, t0, p, front, fs[..|fs| - 1]);
      PlanStep(rules, env, t0, p, PlanKeys(rules, env, t0, p, front), fs,
          CountMarked(front, ConflictMark(rules, env, t0)), k);
    }
  }

  /** The keys written to `r` beyond `p` are those the fates say. */
  ghost predicate Wrote(rules: Rules, env: Env, p: Plan, r: Plan, ks: seq<Bytes>, fs: seq<Fate>, x: Bytes) {
    x in r.writes <==> x in p.writes || (!rules.dryRun && SomeWritten(env, ks, fs, x))
  }

  ghost predicate SomeWritten(env: Env, ks: seq<Bytes>, fs: seq<Fate>, x: Bytes) {
    exists i :: WrittenBy(env, ks, fs, i, x)
  }

  lemma WriteStep(rules: Rules, env: Env, t0: Db, p: Plan, q: Plan, ks: seq<Bytes>, fs: seq<Fate>, n: nat, x: Bytes)
    requires ks != [] && |ks| == |fs| && ks[|ks| - 1] in env.source && Follows(env, p, q, fs[..|fs| - 1], n)
    requires fs[|fs| - 1] == FateOf(rules, env, t0, p.strategy, p.asked, n, ks[|ks| - 1])
    requires Wrote(rules, env, p, q, ks[..|ks| - 1], fs[..|fs| - 1], x)
    ensures Wrote(rules, env, p, PlanKey(rules, env, t0, q, ks[|ks| - 1]), ks, fs, x)
  {
    var front, k, f := ks[..|ks| - 1], ks[|ks| - 1], fs[|fs| - 1];
    PlanStep(rules, env, t0, p, q, fs, n, k);
    EntriesExact(env, k, x);
    WrittenNext(env, front, k, fs[..|fs| - 1], f, x);
    assert fs[..|fs| - 1] + [f] == fs && front + [k] == ks;
  }

  /** ... and the keys written are exactly those decided so, with the BH: entries they lead to. */
  lemma {:induction false} PlanWrites(rules: Rules, env: Env, t0: Db, p: Plan, ks: seq<Bytes>, fs: seq<Fate>, x: Bytes)
    requires (forall k :: k in ks ==> k in env.source) && fs == Fates(rules, env, t0, p.strategy, p.asked, ks)
    ensures Wrote(rules, env, p, PlanKeys(rules, env, t0, p, ks), ks, fs, x)
  {
    if ks != [] {
      var front := ks[..|ks| - 1];
      FatesNext(rules, env, t0, p.strategy, p.asked, ks, fs);
      PlanWrites(rules, env, t0, p, front, fs[..|fs| - 1], x);
      PlanExact(rules, env, t0, p, front, fs[..|fs| - 1]);
      WriteStep(rules, env, t0, p, PlanKeys(rules, env, t0, p, front), ks, fs,
          CountMarked(front, ConflictMark(rules, env, t0)), x);
    }
  }

  lemma WrittenNext(env: Env, front: seq<Bytes>, k: Bytes, fs: seq<Fate>, f: Fate, x: Bytes)
    requires |front| == |fs|
    ensures SomeWritten(env, front + [k], fs + [f], x) <==>
            SomeWritten(env, front, fs, x) || (f == Writes && (x == k || HashEntry(env, k, x)))
  {
    if i :| WrittenBy(env, front, fs, i, x) { assert WrittenBy(env, front + [k], fs + [f], i, x); }
    if f == Writes && (x == k || HashEntry(env, k, x)) { assert WrittenBy(env, front + [k], fs + [f], |front|, x); }
    if i :| WrittenBy(env, front + [k], fs + [f], i, x) { assert i < |front| ==> WrittenBy(env, front, fs, i, x); }
  }

  /** Some iterator from the n-th on meets a conflict. */
  ghost predicate ConflictFrom(rules: Rules, env: Env, t0: Db, iters: seq<Iter>, n: nat) {
    exists i, k :: n <= i < |iters| && k in iters[i].keys && Conflicts(rules, env, t0, k)
  }

  lemma ConflictLast(rules: Rules, env: Env, t0: Db, iters: seq<Iter>, n: nat)
    requires n < |iters|
    ensures ConflictFrom(rules, env, t0, iters, n) <==>
            || ConflictFrom(rules, env, t0, iters[..|iters| - 1], n)
            || (exists k :: k in iters[|iters| - 1].keys && Conflicts(rules, env, t0, k))
  {
    var front := iters[..|iters| - 1];
    if i, k :| n <= i < |front| && k in front[i].keys && Conflicts(rules, env, t0, k) {
      assert k in iters[i].keys;
    }
    if i, k :| n <= i < |iters| && k in iters[i].keys && Conflicts(rules, env, t0, k) {
      assert i < |front| ==> k in front[i].keys;
    }
  }

  /**
   An answer for all later keys only lasts to the end of its iterator: whatever was answered in the
   first `n` iterators, the run asks again if and only if a later iterator meets a conflict.
   */
  lemma {:induction false} AsksAgainExact(rules: Rules, env: Env, t0: Db, p: Plan, iters: seq<Iter>, n: nat)
    requires (forall i :: 0 <= i < |iters| ==> Scannable(env.source, iters[i].keys)) && rules.strategy == Ask &&
            n <= |iters|
    ensures var before, after := PlanAll(rules, env, t0, p, iters[..n]).asked, PlanAll(rules, env, t0, p, iters).asked;
            after >= before && (after > before <==> ConflictFrom(rules, env, t0, iters, n))
  {
    if n < |iters| {
      var front, ks := iters[..|iters| - 1], iters[|iters| - 1].keys;
      assert front[..n] == iters[..n];
      AsksAgainExact(rules, env, t0, p, front, n);
      assert Scannable(env.source, ks);
      PromptsExact(rules, env, t0, PlanAll(rules, env, t0, p, front).(strategy := Ask), ks);
      ConflictLast(rules, env, t0, iters, n);
    } else {
      assert iters[..n] == iters;
    }
  }

  lemma PlanOne(rules: Rules, env: Env, t0: Db, p: Plan, k: Bytes)
    requires k in env.source
    ensures PlanKeys(rules, env, t0, p, [k]) == PlanKey(rules, env, t0, p, k)
  {
    var none: seq<Bytes> := [];
    assert [k][..0] == none && PlanKeys(rules, env, t0, p, none) == p;
  }

  lemma OnlyKey(ks: seq<Bytes>, a: Bytes)
    requires Ascending(ks) && a in ks && forall k :: k in ks ==> k == a
    ensures ks == [a]
  {
    if |ks| > 1 {
      assert ks[0] in ks && ks[1] in ks && Below(ks[0], ks[1]);
      BelowIrreflexive(a);
    }
  }

  /** The iterators of a blockstore that holds only `a`, in range `i`, and `b`, in range `j`. */
  lemma TwoKeyIters(source: Db, iters: seq<Iter>, i: nat, j: nat, a: Bytes, b: Bytes, n: nat)
    requires BlockstoreIters(source, iters) && i < j < |iters| && n < |iters|
    requires source.Keys == {a, b} && a in iters[i].keys && b in iters[j].keys
    ensures iters[n].keys == if n == i then [a] else if n == j then [b] else []
  {
    assert RangeIter(source, i, iters[i]) && RangeIter(source, j, iters[j]) && RangeIter(source, n, iters[n]);
    if n == i {
      forall k | k in iters[n].keys ensures k == a {
        assert k in source.Keys;
        if k == b { RangesDisjoint(b, n, j); }
      }
      OnlyKey(iters[n].keys, a);
    } else if n == j {
      forall k | k in iters[n].keys ensures k == b {
        assert k in source.Keys;
        if k == a { RangesDisjoint(a, n, i); }
      }
      OnlyKey(iters[n].keys, b);
    } else if iters[n].keys != [] {
      var k := iters[n].keys[0];
      assert k in source.Keys;
      if k == a { RangesDisjoint(a, n, i); } else { RangesDisjoint(b, n, j); }
    }
  }

  /** One iterator, its keys scanned from the configured strategy. */
  lemma PlanAllNext(rules: Rules, env: Env, t0: Db, p: Plan, iters: seq<Iter>, n: nat)
    requires (forall i :: 0 <= i < |iters| ==> Scannable(env.source, iters[i].keys)) && 0 < n <= |iters|
    ensures Scannable(env.source, iters[n - 1].keys)
    ensures PlanAll(rules, env, t0, p, iters[..n]) ==
            PlanKeys(rules, env, t0, PlanAll(rules, env, t0, p, iters[..n - 1]).(strategy := rules.strategy),
                iters[n - 1].keys)
  {
    assert Scannable(env.source, iters[n - 1].keys);
    assert iters[..n][..n - 1] == iters[..n - 1];
  }

  /** Iterators without a key change nothing but go back to the configured strategy. */
  lemma {:induction false} EmptyItersPass(rules: Rules, env: Env, t0: Db, p: Plan, iters: seq<Iter>, m: nat, n: nat)
    requires (forall i :: 0 <= i < |iters| ==> Scannable(env.source, iters[i].keys)) && m <= n <= |iters|
    requires forall i :: m <= i < n ==> iters[i].keys == []
    ensures var before, after := PlanAll(rules, env, t0, p, iters[..m]), PlanAll(rules, env, t0, p, iters[..n]);
            after.(strategy := rules.strategy) == before.(strategy := rules.strategy)
  {
    if m < n {
      EmptyItersPass(rules, env, t0, p, iters, m, n - 1);
      PlanAllNext(rules, env, t0, p, iters, n);
    }
  }

  lemma TwoKeyPlan(rules: Rules, env: Env, t0: Db, p: Plan, iters: seq<Iter>, i: nat, j: nat, a: Bytes, b: Bytes)
    requires (forall n :: 0 <= n < |iters| ==> Scannable(env.source, iters[n].keys)) && i < j < |iters|
    requires forall n :: 0 <= n < |iters| ==> iters[n].keys == if n == i then [a] else if n == j then [b] else []
    ensures a in env.source && b in env.source
    ensures var first := PlanKeys(rules, env, t0, p.(strategy := rules.strategy), [a]);
            PlanAll(rules, env, t0, p, iters).(strategy := rules.strategy) ==
            PlanKeys(rules, env, t0, first.(strategy := rules.strategy), [b]).(strategy := rules.strategy)
  {
    assert Scannable(env.source, iters[i].keys) && a in iters[i].keys;
    assert Scannable(env.source, iters[j].keys) && b in iters[j].keys;
    EmptyItersPass(rules, env, t0, p, iters, 0, i);
    PlanAllNext(rules, env, t0, p, iters, i + 1);
    EmptyItersPass(rules, env, t0, p, iters, i + 1, j);
    PlanAllNext(rules, env, t0, p, iters, j + 1);
    EmptyItersPass(rules, env, t0, p, iters, j + 1, |iters|);
    assert iters[..|iters|] == iters;
  }

  /**
   Such a run of the whole blockstore, for any two of the five ranges: "replace all" is answered for
   the key in the first, and the key in the second is asked about and skipped.
   */
  lemma AnswerForgotten(rules: Rules, env: Env, t0: Db, iters: seq<Iter>, i: nat, j: nat, a: Bytes, b: Bytes)
    requires BlockstoreIters(env.source, iters) && i < j < |iters|
    requires env.source.Keys == {a, b} && a in iters[i].keys && b in iters[j].keys
    requires rules.strategy == Ask && !rules.dryRun && !env.setFails(a)
    requires Conflicts(rules, env, t0, a) && Conflicts(rules, env, t0, b)
    requires env.answer(0) == ReplaceRest && env.answer(1) == SkipThis
    ensures AllScannable(env.source, iters)
    ensures var p := PlanRun(rules, env, t0, iters);
            p.asked == 2 && a in p.writes && b !in p.writes && p.skipped == 1
  {
    BlockstoreScannable(env.source, iters);
    forall n | 0 <= n < |iters| ensures iters[n].keys == if n == i then [a] else if n == j then [b] else [] {
      TwoKeyIters(env.source, iters, i, j, a, b, n);
    }
    TwoKeyPlan(rules, env, t0, Fresh(rules), iters, i, j, a, b);
    PlanOne(rules, env, t0, Fresh(rules), a);
    PlanOne(rules, env, t0, PlanKey(rules, env, t0, Fresh(rules), a).(strategy := Ask), b);
    assert Scannable(env.source, iters[i].keys) && Scannable(env.source, iters[j].keys);
    assert RangeIter(env.source, i, iters[i]) && RangeIter(env.source, j, iters[j]);
    if a == b { RangesDisjoint(a, i, j); }
    EntriesExact(env, a, a);
    EntriesExact(env, a, b);
    if HashEntry(env, a, b) { HashKeyPrefix(env, a, b); }
  }

  /** One of the iterators leads to `x` being written. */
  ghost predicate Reaches(rules: Rules, env: Env, t0: Db, ks: seq<Bytes>, x: Bytes) {
    (x in ks && Copies(rules, env, t0, rules.strategy, x)) || Derived(rules, env, t0, rules.strategy, ks, x)
  }

  ghost predicate SomeReaches(rules: Rules, env: Env, t0: Db, iters: seq<Iter>, x: Bytes) {
    exists i :: 0 <= i < |iters| && Reaches(rules, env, t0, iters[i].keys, x)
  }

  lemma SomeReachesNext(rules: Rules, env: Env, t0: Db, front: seq<Iter>, last: Iter, x: Bytes)
    ensures SomeReaches(rules, env, t0, front + [last], x) <==>
            SomeReaches(rules, env, t0, front, x) || Reaches(rules, env, t0, last.keys, x)
  {
    var iters := front + [last];
    assert iters[|front|] == last;
    if i :| 0 <= i < |front| && Reaches(rules, env, t0, front[i].keys, x) { assert iters[i] == front[i]; }
    if i :| 0 <= i < |iters| && Reaches(rules, env, t0, iters[i].keys, x) {
      assert i < |front| ==> iters[i] == front[i];
    }
  }

  lemma {:induction false} SettledAllExact(rules: Rules, env: Env, t0: Db, p: Plan, iters: seq<Iter>, x: Bytes)
    requires (forall i :: 0 <= i < |iters| ==> Scannable(env.source, iters[i].keys)) && Settled(rules, rules.strategy)
    ensures x in PlanAll(rules, env, t0, p, iters).writes <==>
            x in p.writes || SomeReaches(rules, env, t0, iters, x)
  {
    if iters != [] {
      var front, last := iters[..|iters| - 1], iters[|iters| - 1];
      SettledAllExact(rules, env, t0, p, front, x);
      assert Scannable(env.source, last.keys);
      SettledExact(rules, env, t0, PlanAll(rules, env, t0, p, front).(strategy := rules.strategy), last.keys, x);
      assert iters == front + [last];
      SomeReachesNext(rules, env, t0, front, last, x);
    }
  }

  /** Some iterator yields every chosen key of the source. */
  lemma ChosenIsScanned(rules: Rules, env: Env, iters: seq<Iter>, k: Bytes)
    requires BlockstoreIters(env.source, iters) && (forall i :: 0 <= i < |iters| ==> !iters[i].error)
    requires !IsEmpty(rules.heights) && k in env.source && Chosen(rules, k)
    ensures exists i :: 0 <= i < |iters| && k in iters[i].keys
  {
    HeightKeyInOneRange(k);
    var i :| InBlockstoreRange(k, i);
    assert RangeIter(env.source, i, iters[i]);
  }

  /**
   The whole run against the whole source: with a settled strategy and iterators that do not fail,
   the keys written are exactly the source keys of the chosen heights that are copied, and the BH:
   keys derived from them. No range, iterator or batch appears in the answer.
   */
  lemma RunExact(rules: Rules, env: Env, t0: Db, iters: seq<Iter>, x: Bytes)
    requires BlockstoreIters(env.source, iters) && (forall i :: 0 <= i < |iters| ==> !iters[i].error)
    requires !IsEmpty(rules.heights) && Settled(rules, rules.strategy)
    ensures AllScannable(env.source, iters)
    ensures x in PlanRun(rules, env, t0, iters).writes <==>
            || (x in env.source && Copies(rules, env, t0, rules.strategy, x))
            || (exists k :: k in env.source && Copies(rules, env, t0, rules.strategy, k) && HashEntry(env, k, x))
  {
    BlockstoreScannable(env.source, iters);
    SettledAllExact(rules, env, t0, Fresh(rules), iters, x);
    if x in env.source && Copies(rules, env, t0, rules.strategy, x) {
      ChosenIsScanned(rules, env, iters, x);
      var i :| 0 <= i < |iters| && x in iters[i].keys;
      assert Reaches(rules, env, t0, iters[i].keys, x);
    }
    if k :| k in env.source && Copies(rules, env, t0, rules.strategy, k) && HashEntry(env, k, x) {
      ChosenIsScanned(rules, env, iters, k);
      var i :| 0 <= i < |iters| && k in iters[i].keys;
      assert Derived(rules, env, t0, rules.strategy, iters[i].keys, x);
      assert Reaches(rules, env, t0, iters[i].keys, x);
    }
    if i :| 0 <= i < |iters| && Reaches(rules, env, t0, iters[i].keys, x) {
      assert Scannable(env.source, iters[i].keys);
    }
  }

  /** `SkipKeepsExisting` for the whole run: the exception is a BH: key of a source key that is copied. */
  lemma SkippingRunKeeps(rules: Rules, env: Env, t0: Db, iters: seq<Iter>, x: Bytes)
    requires BlockstoreIters(env.source, iters) && (forall i :: 0 <= i < |iters| ==> !iters[i].error)
    requires !IsEmpty(rules.heights) && rules.strategy == SkipAll && !rules.skipConflictChecks && x in t0
    ensures AllScannable(env.source, iters)
    ensures x in PlanRun(rules, env, t0, iters).writes <==>
            exists k :: k in env.source && k !in t0 && Copies(rules, env, t0, SkipAll, k) && HashEntry(env, k, x)
  {
    RunExact(rules, env, t0, iters, x);
  }

  /** The key is one that the five iterators come to. */
  predicate IsScanned(k: Bytes) {
    HasPrefix(k, H_PREFIX) || HasPrefix(k, P_PREFIX) || HasPrefix(k, C_PREFIX) || HasPrefix(k, SC_PREFIX) ||
    HasPrefix(k, EC_PREFIX)
  }

  lemma ScannedIsInRange(k: Bytes)
    ensures IsScanned(k) <==> exists i :: InBlockstoreRange(k, i)
  {
    forall i | 0 <= i < |BLOCKSTORE_PREFIXES|
      ensures InBlockstoreRange(k, i) <==> HasPrefix(k, BLOCKSTORE_PREFIXES[i])
    {
      ColonRangeIsPrefix(k, BLOCKSTORE_PREFIXES[i]);
    }
    if IsScanned(k) {
      var i := if HasPrefix(k, H_PREFIX) then 0 else if HasPrefix(k, P_PREFIX) then 1
               else if HasPrefix(k, C_PREFIX) then 2 else if HasPrefix(k, SC_PREFIX) then 3 else 4;
      assert InBlockstoreRange(k, i);
    }
  }

  /** Without a range every scanned key is chosen, with one those whose height it selects. */
  predicate HeightChosen(hr: HeightRange, k: Bytes) {
    || (hr.start == 0 && hr.end == 0 && hr.specific == [])
    || (BlockstoreHeight(k).Some? && IsWithinRange(hr, BlockstoreHeight(k).value))
  }

  /** A source key that a settled run copies, with nothing left to look up. */
  predicate RunCopies(rules: Rules, env: Env, t0: Db, k: Bytes) {
    && k in env.source && IsScanned(k) && HeightChosen(rules.heights, k) && !env.getFails(k) && !env.setFails(k)
    && !rules.dryRun && (rules.skipConflictChecks || k !in t0 || rules.strategy != SkipAll)
  }

  lemma CopiedIsReached(rules: Rules, env: Env, t0: Db, iters: seq<Iter>, k: Bytes, x: Bytes)
    requires BlockstoreIters(env.source, iters) && (forall i :: 0 <= i < |iters| ==> !iters[i].error)
    requires RunCopies(rules, env, t0, k) && (x == k || HashEntry(env, k, x))
    ensures SomeReaches(rules, env, t0, iters, x)
  {
    ScannedIsInRange(k);
    var i :| InBlockstoreRange(k, i);
    assert RangeIter(env.source, i, iters[i]);
    assert k in iters[i].keys && Copies(rules, env, t0, rules.strategy, k);
    assert Reaches(rules, env, t0, iters[i].keys, x);
  }

  lemma ReachedIsCopied(rules: Rules, env: Env, t0: Db, iters: seq<Iter>, x: Bytes) returns (k: Bytes)
    requires BlockstoreIters(env.source, iters) && SomeReaches(rules, env, t0, iters, x)
    ensures RunCopies(rules, env, t0, k) && (x == k || HashEntry(env, k, x))
  {
    var i :| 0 <= i < |iters| && Reaches(rules, env, t0, iters[i].keys, x);
    if x in iters[i].keys && Copies(rules, env, t0, rules.strategy, x) {
      k := x;
    } else {
      k :| k in iters[i].keys && Copies(rules, env, t0, rules.strategy, k) && HashEntry(env, k, x);
    }
    ScannedIsCopied(rules, env, t0, i, iters[i], k);
  }

  lemma ScannedIsCopied(rules: Rules, env: Env, t0: Db, i: int, it: Iter, k: Bytes)
    requires RangeIter(env.source, i, it) && k in it.keys && Copies(rules, env, t0, rules.strategy, k)
    ensures RunCopies(rules, env, t0, k)
  {
    ScannedIsInRange(k);
  }

  /**
   `RunExact` for every range, the empty one included: a settled run that meets no iterator error
   writes `x` if and only if `x` is, or is the BH: entry of, a source key of the five prefixes and
   the chosen heights that can be read and set and is not skipped.
   */
  lemma SettledRunExact(rules: Rules, env: Env, t0: Db, iters: seq<Iter>, x: Bytes)
    requires BlockstoreIters(env.source, iters) && (forall i :: 0 <= i < |iters| ==> !iters[i].error)
    requires rules.skipConflictChecks || rules.strategy != Ask
    ensures AllScannable(env.source, iters)
    ensures x in PlanRun(rules, env, t0, iters).writes <==>
            exists k :: RunCopies(rules, env, t0, k) && (x == k || HashEntry(env, k, x))
  {
    BlockstoreScannable(env.source, iters);
    SettledAllExact(rules, env, t0, Fresh(rules), iters, x);
    if SomeReaches(rules, env, t0, iters, x) { var k := ReachedIsCopied(rules, env, t0, iters, x); }
    if k :| RunCopies(rules, env, t0, k) && (x == k || HashEntry(env, k, x)) {
      CopiedIsReached(rules, env, t0, iters, k, x);
    }
  }

  /** The BH: entry of a key, said of the bytes: the first hash recognised in the metadata under an H: key. */
  lemma HashEntryExact(env: Env, k: Bytes, hash: Bytes, j: nat)
    requires k in env.source && HasHash(env.source[k], j, hash)
    requires forall i, h :: 0 <= i < j ==> !HasHash(env.source[k], i, h)
    ensures forall bh :: HashEntry(env, k, bh) <==>
              && |k| > 2 && HasPrefix(k, H_PREFIX) && bh == BH_PREFIX + hash
              && bh in env.source && !env.sourceFails(bh) && !env.setFails(bh)
  {
    FirstHashExact(env.source[k], 0, j, hash);
  }
}
