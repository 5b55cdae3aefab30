/**
 Patching a tx_index: the tx.height keys of the chosen heights, then the transaction results their
 values name, then the Ethereum event keys of those transactions.

 Later phases read the target while part of the run's own writes still sit in a batch, the
 same transaction hash can come up twice, and the Ethereum transactions are visited in the order
 of a Go map. The result is nevertheless one function of the two stores and the answers,
 `Overlay(t0, source, AllWrites(...))`: the batch size and the order do not occur in it.
 */
module PatchTxIndex {
  import opened Common
  import opened Keys
  import opened HeightFilter
  import opened Patch
  import opened Seqs
  import opened TxKeys

  // ---------------------------------------------------------------------------------------
  // The outside world

  datatype TxEnv = TxEnv(
    source: Db,
    getFails: Bytes -> bool,
    setFails: Bytes -> bool,
    sourceFails: Bytes -> bool,
    answer: nat -> Answer,
    ethHash: Bytes -> Option<Bytes>,       // extractEthereumTxHash; None for an error or no event
    openFails: Bytes -> bool,              // no iterator for this prefix
    scan: Bytes -> seq<Bytes>,             // what the iterator for this prefix yields
    scanFails: Bytes -> bool)              // and whether it then reports an error

  ghost predicate ScansRange(env: TxEnv, p: Bytes) {
    && Ascending(env.scan(p))
    && (forall k :: k in env.scan(p) ==> k in env.source && InRange(k, PrefixRange(p)))
    && (!env.scanFails(p) ==> forall k :: k in env.source && InRange(k, PrefixRange(p)) ==> k in env.scan(p))
  }

  ghost predicate Scans(env: TxEnv) { forall p :: ScansRange(env, p) }

  // ---------------------------------------------------------------------------------------
  // What a run writes

  datatype TxPlan = TxPlan(taken: seq<Bytes>, errors: nat, skipped: nat, strategy: Strategy, asked: nat)

  /** checkTxHeightKeyConflict; a failed read or prompt is neither written nor counted. */
  function TxDecide(rules: Rules, env: TxEnv, strategy: Strategy, asked: nat, exists_: bool, k: Bytes): (d: Decision) {
    if rules.skipConflictChecks then Decision(true, strategy, false, asked)
    else if env.getFails(k) then Decision(false, strategy, false, asked)
    else if exists_ && strategy == Ask && env.answer(asked) == InputError then Decision(false, Ask, false, asked + 1)
    else Decide(rules, Env(env.source, env.getFails, env.setFails, env.sourceFails, env.answer), strategy, asked,
        exists_)
  }

  function TxPlanKey(rules: Rules, env: TxEnv, t0: Db, p: TxPlan, k: Bytes): (r: TxPlan) {
    if !Selects(rules.heights, TxIndexHeight(k)) then p
    else
      var d := TxDecide(rules, env, p.strategy, p.asked, k in t0, k);
      var q := p.(strategy := d.strategy, asked := d.asked, skipped := if d.skipped then p.skipped + 1 else p.skipped);
      if !d.write then q
      else if !rules.dryRun && env.setFails(k) then q.(errors := q.errors + 1)
      else q.(taken := q.taken + [k])
  }

  /** Phase 1: decided key by key against the target as it was. */
  function TxPlanKeys(rules: Rules, env: TxEnv, t0: Db, p: TxPlan, ks: seq<Bytes>): (r: TxPlan) {
    if ks == [] then p else TxPlanKey(rules, env, t0, TxPlanKeys(rules, env, t0, p, ks[..|ks| - 1]), ks[|ks| - 1])
  }

  /** The transaction hashes the taken keys name, in order, repetitions included. */
  function Hashes(source: Db, taken: seq<Bytes>): (hs: seq<Bytes>)
    requires forall k :: k in taken ==> k in source
  {
    if taken == [] then []
    else
      var k, rest := taken[|taken| - 1], taken[..|taken| - 1];
      assert forall x :: x in rest ==> x in taken;
      Hashes(source, rest) + (if source[k] == [] then [] else [source[k]])
  }

  /** collectEthereumTxInfo for one taken key. */
  function EthInfo(env: TxEnv, k: Bytes): (r: Option<(Bytes, TxInfo)>)
    requires k in env.source
  {
    var h, info := env.source[k], HeightAndIndex(k);
    if h == [] || info.None? || env.sourceFails(h) || h !in env.source || env.ethHash(env.source[h]).None? then None
    else Some((env.ethHash(env.source[h]).value, info.value))
  }

  /** A Go map filled from left to right: a later entry replaces an earlier one with its key. */
  function Latest(es: seq<Option<(Bytes, TxInfo)>>): (m: TxInfos) {
    if es == [] then map[]
    else
      var m, e := Latest(es[..|es| - 1]), es[|es| - 1];
      if e.None? then m else m[e.value.0 := e.value.1]
  }

  /** The Ethereum transactions the taken keys lead to. */
  function EthInfos(env: TxEnv, taken: seq<Bytes>): (m: TxInfos)
    requires forall k :: k in taken ==> k in env.source
  {
    Latest(seq(|taken|, i requires 0 <= i < |taken| => EthInfo(env, taken[i])))
  }

  /** In phases 2 and 3: whether a key is to hold the source's value because of its own turn. */
  predicate Wants(rules: Rules, env: TxEnv, t0: Db, strategy: Strategy, k: Bytes) {
    && !rules.dryRun && k in env.source && !env.setFails(k)
    && (rules.skipConflictChecks || (!env.getFails(k) && (strategy != SkipAll || k !in t0)))
  }

  predicate WantsHash(rules: Rules, env: TxEnv, t0: Db, strategy: Strategy, h: Bytes) {
    !env.sourceFails(h) && Wants(rules, env, t0, strategy, h)
  }

  function AddIf(w: set<Bytes>, wanted: bool, k: Bytes): (r: set<Bytes>) { if wanted then w + {k} else w }

  function HashWrites(rules: Rules, env: TxEnv, t0: Db, strategy: Strategy, w0: set<Bytes>,
      hs: seq<Bytes>): (w: set<Bytes>) {
    if hs == [] then w0
    else AddIf(HashWrites(rules, env, t0, strategy, w0, hs[..|hs| - 1]),
        WantsHash(rules, env, t0, strategy, hs[|hs| - 1]), hs[|hs| - 1])
  }

  function KeyWrites(rules: Rules, env: TxEnv, t0: Db, strategy: Strategy, w0: set<Bytes>,
      ks: seq<Bytes>): (w: set<Bytes>) {
    if ks == [] then w0
    else AddIf(KeyWrites(rules, env, t0, strategy, w0, ks[..|ks| - 1]), Wants(rules, env, t0, strategy, ks[|ks| - 1]),
        ks[|ks| - 1])
  }

  predicate IsEventKey(env: TxEnv, infos: TxInfos, h: Bytes, k: Bytes) {
    h in infos && !env.openFails(EventPrefix(h, infos[h])) && HasPrefix(k, EventPrefix(h, infos[h]))
  }

  ghost predicate EventKeyOfAny(env: TxEnv, infos: TxInfos, hs: set<Bytes>, k: Bytes) {
    exists h :: h in hs && IsEventKey(env, infos, h, k)
  }

  /** The order of the transactions does not matter. */
  ghost function EventWrites(rules: Rules, env: TxEnv, t0: Db, strategy: Strategy, infos: TxInfos,
      hs: set<Bytes>): (w: set<Bytes>) {
    set k | k in env.source && EventKeyOfAny(env, infos, hs, k) && Wants(rules, env, t0, strategy, k)
  }

  /** The target with the source's values for the keys `w`. */
  function Overlay(t0: Db, source: Db, w: set<Bytes>): (t: Db)
    requires w <= source.Keys
  {
    t0 + (map k | k in w :: source[k])
  }

  // ---------------------------------------------------------------------------------------
  // Batched writes

  /** `t` is `Overlay(t0, source, w)`, key by key. */
  ghost predicate IsOverlay(t0: Db, source: Db, w: set<Bytes>, t: Db) {
    && (forall k :: k in t <==> k in t0 || k in w)
    && (forall k :: k in t ==> if k in w then k in source && t[k] == source[k] else k in t0 && t[k] == t0[k])
  }

  lemma OverlayIs(t0: Db, source: Db, w: set<Bytes>, t: Db)
    requires w <= source.Keys && IsOverlay(t0, source, w, t)
    ensures t == Overlay(t0, source, w)
  {
    assert t.Keys == Overlay(t0, source, w).Keys;
  }

  /** `flushed` has reached the target, and the batch makes it `w`. */
  ghost predicate Holds(env: TxEnv, t0: Db, t: Db, batch: Db, flushed: set<Bytes>, w: set<Bytes>) {
    && IsOverlay(t0, env.source, flushed, t)
    && (forall k :: k in w <==> k in flushed || k in batch)
    && (forall k :: k in batch ==> k in env.source && batch[k] == env.source[k])
    && (forall k :: k in w ==> k in env.source && !env.setFails(k))
  }

  lemma HoldsMore(env: TxEnv, t0: Db, t: Db, batch: Db, flushed: set<Bytes>, w: set<Bytes>, k: Bytes)
    requires Holds(env, t0, t, batch, flushed, w) && k in env.source && !env.setFails(k)
    ensures Holds(env, t0, t, batch[k := env.source[k]], flushed, w + {k})
  {
  }

  lemma HoldsWritten(env: TxEnv, t0: Db, t: Db, batch: Db, flushed: set<Bytes>, w: set<Bytes>)
    requires Holds(env, t0, t, batch, flushed, w)
    ensures Holds(env, t0, t + batch, map[], w, w)
  {
  }

  lemma HoldsOnly(env: TxEnv, t0: Db, t: Db, batch: Db, flushed: set<Bytes>, w: set<Bytes>)
    requires Holds(env, t0, t, batch, flushed, w)
    ensures OnlySourceValues(env.source, t0, t)
  {
  }

  /** A batch that counts nothing is empty, and so is every batch of a dry run. */
  predicate Pending(rules: Rules, batch: Db, count: nat) { rules.dryRun || count == 0 ==> batch == map[] }

  /** Writes the batch and counts it; a dry run only counts. */
  method FlushTx(rules: Rules, ghost env: TxEnv, target: Target, stats: Stats, batch: Db, count: nat, ghost t0: Db,
      ghost flushed: set<Bytes>, ghost w: set<Bytes>)
    returns (ok: bool, r: Db, ghost now: set<Bytes>)
    requires Holds(env, t0, target.data, batch, flushed, w) && Pending(rules, batch, count)
    modifies target, stats
    ensures stats.skipped == old(stats.skipped) && stats.errorCount == old(stats.errorCount) &&
            stats.asked == old(stats.asked)
    ensures ok ==>
            r == map[] && Holds(env, t0, target.data, r, now, w) &&
            stats.processedKeys == old(stats.processedKeys) + count
    ensures !ok ==> target.data == old(target.data) && target.failsFrom.Some?
    ensures rules.dryRun ==> target.data == old(target.data)
  {
    now := w;
    HoldsWritten(env, t0, target.data, batch, flushed, w);
    ok, r := WriteAndResetBatch(rules, target, batch);
    if ok {
      if rules.dryRun { assert target.data + batch == target.data; }
      stats.processedKeys := stats.processedKeys + count;
    }
  }

  // ---------------------------------------------------------------------------------------
  // Turns in phases 2 and 3

  /** What a phase works with, beside the stores. */
  datatype Job = Job(rules: Rules, env: TxEnv, t0: Db, strategy: Strategy)

  /** A key's turn: its value is copied, it fails, or it is passed over because it is present. */
  datatype Turn = Copied | Failed | Passed

  /** Asking means replacing here. */
  function TurnOf(j: Job, present: bool, k: Bytes): (t: Turn) {
    if !j.rules.skipConflictChecks && j.env.getFails(k) then Failed
    else if !j.rules.skipConflictChecks && present && j.strategy == SkipAll then Passed
    else if !j.rules.dryRun && j.env.setFails(k) then Failed
    else Copied
  }

  /** Nothing is passed over in phases 2 and 3. */
  predicate NoSkips(rules: Rules, strategy: Strategy) { rules.skipConflictChecks || strategy != SkipAll }

  /** The counters of a phase, with what its batch will add to them. */
  datatype Counts = Counts(copied: nat, failed: nat, passed: nat)

  function Tot(stats: Stats, pending: nat): (c: Counts)
    reads stats
  {
    Counts(stats.processedKeys + pending, stats.errorCount, stats.skipped)
  }

  function Bump(c: Counts, t: Turn): (r: Counts) {
    match t
    case Copied => c.(copied := c.copied + 1)
    case Failed => c.(failed := c.failed + 1)
    case Passed => c.(passed := c.passed + 1)
  }

  /**
   What a phase should count. A key that was in the target before the phase is passed over for
   sure; one that the phase itself has written may still sit in the batch, so whether a second turn
   finds it present is unsure.
   */
  datatype Expect = Expect(turns: nat, failed: nat, sure: nat, unsure: nat)

  const NOTHING: Expect := Expect(0, 0, 0, 0)

  function Add(d: Expect, e: Expect): (r: Expect) {
    Expect(d.turns + e.turns, d.failed + e.failed, d.sure + e.sure, d.unsure + e.unsure)
  }

  predicate SurelyPresent(j: Job, w0: set<Bytes>, k: Bytes) { k in j.t0 || k in w0 }

  /** One turn of `k`, when `w0` was written before the phase and `w` before the turn. */
  function ExpectKey(j: Job, w0: set<Bytes>, w: set<Bytes>, k: Bytes): (e: Expect) {
    var sure := SurelyPresent(j, w0, k);
    var t := TurnOf(j, sure, k);
    Expect(1, if t.Failed? then 1 else 0, if t.Passed? then 1 else 0,
           if !sure && k in w && TurnOf(j, true, k).Passed? then 1 else 0)
  }

  /** `c` is what counting from `b` on should give. */
  predicate Meets(b: Counts, c: Counts, e: Expect) {
    && c.copied + c.failed + c.passed == b.copied + b.failed + b.passed + e.turns
    && c.failed == b.failed + e.failed
    && b.passed + e.sure <= c.passed <= b.passed + e.sure + e.unsure
  }

  /** Every unsure key was found present, or none was. */
  predicate AllFound(b: Counts, c: Counts, e: Expect) { c.passed == b.passed + e.sure + e.unsure }

  predicate NoneFound(b: Counts, c: Counts, e: Expect) { c.passed == b.passed + e.sure }

  lemma MeetsAdd(b: Counts, c: Counts, d: Counts, e: Expect, f: Expect)
    requires Meets(b, c, e) && Meets(c, d, f)
    ensures Meets(b, d, Add(e, f))
    ensures AllFound(b, c, e) && AllFound(c, d, f) ==> AllFound(b, d, Add(e, f))
    ensures NoneFound(b, c, e) && NoneFound(c, d, f) ==> NoneFound(b, d, Add(e, f))
  {
  }

  /** The turn a key takes against a target that holds `w0` and part of `w`. */
  lemma TurnMeets(j: Job, c: Counts, w0: set<Bytes>, flushed: set<Bytes>, w: set<Bytes>, k: Bytes)
    requires w0 <= flushed && (k in flushed ==> k in w) && (k in w ==> !j.env.setFails(k))
    ensures var d, e := Bump(c, TurnOf(j, k in j.t0 || k in flushed, k)), ExpectKey(j, w0, w, k);
            && Meets(c, d, e)
            && ((k in w ==> k in flushed) ==> AllFound(c, d, e))
            && ((k in flushed ==> k in w0) ==> NoneFound(c, d, e))
  {
  }

  /** The conflict check and the batch. */
  method StageKey(rules: Rules, env: TxEnv, target: Target, stats: Stats, k: Bytes, strategy: Strategy, batch: Db,
      ghost t0: Db, ghost flushed: set<Bytes>, ghost w: set<Bytes>)
    returns (r: Db, added: bool)
    requires k in env.source && Holds(env, t0, target.data, batch, flushed, w)
    modifies stats
    ensures Holds(env, t0, target.data, r, flushed, AddIf(w, Wants(rules, env, t0, strategy, k), k))
    ensures rules.dryRun || !added ==> r == batch
    ensures stats.processedKeys == old(stats.processedKeys) && stats.asked == old(stats.asked)
    ensures Tot(stats, if added then 1 else 0) ==
            Bump(old(Tot(stats, 0)), TurnOf(Job(rules, env, t0, strategy), k in t0 || k in flushed, k))
    ensures NoSkips(rules, strategy) ==> stats.skipped == old(stats.skipped)
  {
    r, added := batch, false;
    assert k in target.data <==> k in t0 || k in flushed;
    if !rules.skipConflictChecks {
      if env.getFails(k) {
        stats.errorCount := stats.errorCount + 1;
        return;
      }
      if k in target.data && strategy == SkipAll {
        stats.skipped := stats.skipped + 1;
        assert k in flushed ==> w + {k} == w;
        return;
      }
    }
    if !rules.dryRun {
      if env.setFails(k) {
        stats.errorCount := stats.errorCount + 1;
        return;
      }
      HoldsMore(env, t0, target.data, batch, flushed, w, k);
      r := r[k := env.source[k]];
    }
    added := true;
  }

  /** One key of phase 2 or 3. A batch of one key never waits, and a large one never flushes here. */
  method PutKey(rules: Rules, env: TxEnv, batchSize: int, target: Target, stats: Stats, k: Bytes,
      strategy: Strategy, batch: Db, count: nat, ghost t0: Db, ghost flushed: set<Bytes>, ghost w: set<Bytes>)
    returns (ok: bool, r: Db, n: nat, ghost now: set<Bytes>)
    requires k in env.source && Holds(env, t0, target.data, batch, flushed, w) && Pending(rules, batch, count)
    modifies target, stats
    ensures ok ==> Holds(env, t0, target.data, r, now, AddIf(w, Wants(rules, env, t0, strategy, k), k))
    ensures ok ==> Pending(rules, r, n) && stats.asked == old(stats.asked)
    ensures ok ==>
            Tot(stats, n) ==
            Bump(old(Tot(stats, count)), TurnOf(Job(rules, env, t0, strategy), k in t0 || k in flushed, k))
    ensures ok ==> flushed <= now && (batchSize <= 1 && count == 0 ==> n == 0)
    ensures ok && count + 1 < batchSize ==> n <= count + 1 && now == flushed
    ensures NoSkips(rules, strategy) ==> stats.skipped == old(stats.skipped)
    ensures !ok ==> target.data == old(target.data) && target.failsFrom.Some?
    ensures rules.dryRun ==> target.data == old(target.data)
  {
    var added;
    ok, n, now := true, count, flushed;
    ghost var all := AddIf(w, Wants(rules, env, t0, strategy, k), k);
    r, added := StageKey(rules, env, target, stats, k, strategy, batch, t0, flushed, w);
    if added {
      n := n + 1;
      if n >= batchSize {
        ok, r, now := FlushTx(rules, env, target, stats, r, n, t0, flushed, all);
        n := 0;
      }
    }
  }

  /** The start of a phase: everything so far is in the target, and its batch is empty. */
  ghost predicate Clean(env: TxEnv, t0: Db, t: Db, w: set<Bytes>) { Holds(env, t0, t, map[], w, w) }

  lemma CleanWhenEmpty(env: TxEnv, t0: Db, t: Db, batch: Db, flushed: set<Bytes>, w: set<Bytes>)
    requires Holds(env, t0, t, batch, flushed, w) && batch == map[]
    ensures Clean(env, t0, t, w)
  {
    assert flushed + batch.Keys == flushed;
  }

  /** The final write of a phase. */
  method FinishPhase(rules: Rules, ghost env: TxEnv, target: Target, stats: Stats, batch: Db, count: nat,
      ghost t0: Db, ghost flushed: set<Bytes>, ghost w: set<Bytes>)
    returns (ok: bool)
    requires Holds(env, t0, target.data, batch, flushed, w) && Pending(rules, batch, count)
    modifies target, stats
    ensures OnlySourceValues(env.source, t0, target.data)
    ensures stats.skipped == old(stats.skipped) && stats.errorCount == old(stats.errorCount) &&
            stats.asked == old(stats.asked)
    ensures ok ==> Clean(env, t0, target.data, w) && Tot(stats, 0) == old(Tot(stats, count))
    ensures !ok ==> target.failsFrom.Some?
    ensures rules.dryRun ==> target.data == old(target.data)
  {
    ok := true;
    HoldsOnly(env, t0, target.data, batch, flushed, w);
    if count > 0 {
      ghost var now;
      var r;
      ok, r, now := FlushTx(rules, env, target, stats, batch, count, t0, flushed, w);
      if ok {
        HoldsOnly(env, t0, target.data, r, now, w);
        CleanWhenEmpty(env, t0, target.data, r, now, w);
      }
    } else {
      CleanWhenEmpty(env, t0, target.data, batch, flushed, w);
    }
  }

  // ---------------------------------------------------------------------------------------
  // Phase 2

  /** One hash: a failed read is an error, and one the source does not have is not counted. */
  function ExpectHash(j: Job, w0: set<Bytes>, w: set<Bytes>, h: Bytes): (e: Expect) {
    if j.env.sourceFails(h) then Expect(1, 1, 0, 0)
    else if h !in j.env.source then NOTHING
    else ExpectKey(j, w0, w, h)
  }

  function WritesOf(j: Job, w0: set<Bytes>, hs: seq<Bytes>): (w: set<Bytes>) {
    HashWrites(j.rules, j.env, j.t0, j.strategy, w0, hs)
  }

  function ExpectHashes(j: Job, w0: set<Bytes>, hs: seq<Bytes>): (e: Expect) {
    if hs == [] then NOTHING
    else
      var front, h := hs[..|hs| - 1], hs[|hs| - 1];
      Add(ExpectHashes(j, w0, front), ExpectHash(j, w0, WritesOf(j, w0, front), h))
  }

  lemma HashNext(j: Job, hs: seq<Bytes>, i: nat, w0: set<Bytes>)
    requires i < |hs|
    ensures WritesOf(j, w0, hs[..i + 1]) ==
            AddIf(WritesOf(j, w0, hs[..i]), WantsHash(j.rules, j.env, j.t0, j.strategy, hs[i]), hs[i])
    ensures ExpectHashes(j, w0, hs[..i + 1]) ==
            Add(ExpectHashes(j, w0, hs[..i]), ExpectHash(j, w0, WritesOf(j, w0, hs[..i]), hs[i]))
  {
    assert hs[..i + 1][..i] == hs[..i];
  }

  method PutHash(rules: Rules, env: TxEnv, batchSize: int, target: Target, stats: Stats, h: Bytes,
      strategy: Strategy, batch: Db, count: nat, ghost t0: Db, ghost flushed: set<Bytes>, ghost w0: set<Bytes>,
      ghost w: set<Bytes>)
    returns (ok: bool, r: Db, n: nat, ghost now: set<Bytes>)
    requires Holds(env, t0, target.data, batch, flushed, w) && Pending(rules, batch, count) && w0 <= flushed
    modifies target, stats
    ensures ok ==> Holds(env, t0, target.data, r, now, AddIf(w, WantsHash(rules, env, t0, strategy, h), h))
    ensures ok ==> Pending(rules, r, n) && stats.asked == old(stats.asked) && flushed <= now
    ensures ok ==>
            var b, c, e := old(Tot(stats, count)), Tot(stats, n), ExpectHash(Job(rules, env, t0, strategy), w0, w, h);
            && Meets(b, c, e)
            && (batchSize <= 1 && count == 0 ==> n == 0 && AllFound(b, c, e))
            && (count + 1 < batchSize && flushed == w0 ==> n <= count + 1 && now == w0 && NoneFound(b, c, e))
    ensures NoSkips(rules, strategy) ==> stats.skipped == old(stats.skipped)
    ensures !ok ==> target.data == old(target.data) && target.failsFrom.Some?
    ensures rules.dryRun ==> target.data == old(target.data)
  {
    ok, r, n, now := true, batch, count, flushed;
    if env.sourceFails(h) {
      stats.errorCount := stats.errorCount + 1;
      return;
    }
    if h !in env.source { return; }
    TurnMeets(Job(rules, env, t0, strategy), Tot(stats, count), w0, flushed, w, h);
    ok, r, n, now := PutKey(rules, env, batchSize, target, stats, h, strategy, batch, count, t0, flushed, w);
  }

  /** Phase 2 after the hashes `done`. */
  ghost predicate HashState(j: Job, batchSize: int, total: nat, w0: set<Bytes>, b: Counts, done: seq<Bytes>,
      target: Target, stats: Stats, batch: Db, count: nat, flushed: set<Bytes>)
    reads target, stats
  {
    var c, e := Tot(stats, count), ExpectHashes(j, w0, done);
    && Holds(j.env, j.t0, target.data, batch, flushed, WritesOf(j, w0, done)) && Pending(j.rules, batch, count)
    && w0 <= flushed && Meets(b, c, e)
    && (batchSize <= 1 ==> count == 0 && AllFound(b, c, e))
    && (batchSize > total ==> count <= |done| && flushed == w0 && NoneFound(b, c, e))
  }

  method HashTurn(rules: Rules, env: TxEnv, batchSize: int, target: Target, stats: Stats, hs: seq<Bytes>, i: nat,
      strategy: Strategy, batch: Db, count: nat, ghost t0: Db, ghost w0: set<Bytes>, ghost b: Counts,
      ghost flushed: set<Bytes>)
    returns (ok: bool, r: Db, n: nat, ghost now: set<Bytes>)
    requires i < |hs|
    requires HashState(Job(rules, env, t0, strategy), batchSize, |hs|, w0, b, hs[..i], target, stats, batch, count,
            flushed)
    modifies target, stats
    ensures ok ==> HashState(Job(rules, env, t0, strategy), batchSize, |hs|, w0, b, hs[..i + 1], target, stats, r, n,
            now)
    ensures ok ==> stats.asked == old(stats.asked)
    ensures NoSkips(rules, strategy) ==> stats.skipped == old(stats.skipped)
    ensures OnlySourceValues(env.source, t0, target.data) && (!ok ==> target.failsFrom.Some?)
    ensures rules.dryRun ==> target.data == old(target.data)
  {
    ghost var j := Job(rules, env, t0, strategy);
    ghost var w, c := WritesOf(j, w0, hs[..i]), Tot(stats, count);
    HashNext(j, hs, i, w0);
    HoldsOnly(env, t0, target.data, batch, flushed, w);
    ok, r, n, now := PutHash(rules, env, batchSize, target, stats, hs[i], strategy, batch, count, t0, flushed, w0, w);
    if !ok { return; }
    HoldsOnly(env, t0, target.data, r, now, WritesOf(j, w0, hs[..i + 1]));
    MeetsAdd(b, c, Tot(stats, n), ExpectHashes(j, w0, hs[..i]), ExpectHash(j, w0, w, hs[i]));
  }

  /**
   patchTxHashKeys: repeated hashes and partly flushed batches change neither the target nor the
   number of turns and errors. Only how many turns find their key present depends on the batch
   size: all unsure ones do if every key is flushed at once, and none if the phase never flushes.
   */
  method PatchTxHashKeys(rules: Rules, env: TxEnv, batchSize: int, target: Target, stats: Stats, hs: seq<Bytes>,
      strategy: Strategy, ghost t0: Db, ghost w0: set<Bytes>)
    returns (ok: bool)
    requires Clean(env, t0, target.data, w0)
    modifies target, stats
    ensures OnlySourceValues(env.source, t0, target.data)
    ensures ok ==> Clean(env, t0, target.data, HashWrites(rules, env, t0, strategy, w0, hs))
    ensures ok ==>
            var b, c, e := old(Tot(stats, 0)), Tot(stats, 0), ExpectHashes(Job(rules, env, t0, strategy), w0, hs);
            && Meets(b, c, e) && stats.asked == old(stats.asked)
            && (batchSize <= 1 ==> AllFound(b, c, e)) && (batchSize > |hs| ==> NoneFound(b, c, e))
    ensures NoSkips(rules, strategy) ==> stats.skipped == old(stats.skipped)
    ensures !ok ==> target.failsFrom.Some?
    ensures rules.dryRun ==> target.data == old(target.data)
  {
    var batch: Db, count: nat, i := map[], 0, 0;
    ghost var flushed, b, j := w0, Tot(stats, 0), Job(rules, env, t0, strategy);
    HoldsOnly(env, t0, target.data, batch, flushed, w0);
    while i < |hs|
      invariant 0 <= i <= |hs| && stats.asked == old(stats.asked)
      invariant rules.dryRun ==> target.data == old(target.data)
      invariant HashState(j, batchSize, |hs|, w0, b, hs[..i], target, stats, batch, count, flushed)
      invariant NoSkips(rules, strategy) ==> stats.skipped == old(stats.skipped)
    {
      ok, batch, count, flushed := HashTurn(rules, env, batchSize, target, stats, hs, i, strategy, batch, count, t0,
          w0, b, flushed);
      if !ok { return; }
      i := i + 1;
    }
    assert hs[..i] == hs;
    ok := FinishPhase(rules, env, target, stats, batch, count, t0, flushed, WritesOf(j, w0, hs));
  }

  // ---------------------------------------------------------------------------------------
  // Phase 3

  function EventKeyWrites(j: Job, w: set<Bytes>, ks: seq<Bytes>): (r: set<Bytes>) {
    KeyWrites(j.rules, j.env, j.t0, j.strategy, w, ks)
  }

  function ExpectKeys(j: Job, w0: set<Bytes>, w: set<Bytes>, ks: seq<Bytes>): (e: Expect) {
    if ks == [] then NOTHING
    else
      var front, k := ks[..|ks| - 1], ks[|ks| - 1];
      Add(ExpectKeys(j, w0, w, front), ExpectKey(j, w0, EventKeyWrites(j, w, front), k))
  }

  lemma KeysNext(j: Job, w0: set<Bytes>, w: set<Bytes>, ks: seq<Bytes>, i: nat)
    requires i < |ks|
    ensures EventKeyWrites(j, w, ks[..i + 1]) ==
            AddIf(EventKeyWrites(j, w, ks[..i]), Wants(j.rules, j.env, j.t0, j.strategy, ks[i]), ks[i])
    ensures ExpectKeys(j, w0, w, ks[..i + 1]) ==
            Add(ExpectKeys(j, w0, w, ks[..i]), ExpectKey(j, w0, EventKeyWrites(j, w, ks[..i]), ks[i]))
  {
    assert ks[..i + 1][..i] == ks[..i];
  }

  /** One transaction's event keys up to `done`. */
  ghost predicate KeyState(j: Job, w0: set<Bytes>, w: set<Bytes>, b: Counts, done: seq<Bytes>, target: Target,
      stats: Stats, batch: Db, count: nat, flushed: set<Bytes>)
    reads target, stats
  {
    && Holds(j.env, j.t0, target.data, batch, flushed, EventKeyWrites(j, w, done)) && Pending(j.rules, batch, count)
    && w0 <= flushed && Meets(b, Tot(stats, count), ExpectKeys(j, w0, w, done))
  }

  method KeyTurn(rules: Rules, env: TxEnv, batchSize: int, target: Target, stats: Stats, ks: seq<Bytes>, i: nat,
      strategy: Strategy, batch: Db, count: nat, ghost t0: Db, ghost w0: set<Bytes>, ghost w: set<Bytes>,
      ghost b: Counts, ghost flushed: set<Bytes>)
    returns (ok: bool, r: Db, n: nat, ghost now: set<Bytes>)
    requires i < |ks| && ks[i] in env.source
    requires KeyState(Job(rules, env, t0, strategy), w0, w, b, ks[..i], target, stats, batch, count, flushed)
    modifies target, stats
    ensures ok ==> KeyState(Job(rules, env, t0, strategy), w0, w, b, ks[..i + 1], target, stats, r, n, now)
    ensures ok ==> stats.asked == old(stats.asked)
    ensures NoSkips(rules, strategy) ==> stats.skipped == old(stats.skipped)
    ensures OnlySourceValues(env.source, t0, target.data) && (!ok ==> target.failsFrom.Some?)
    ensures rules.dryRun ==> target.data == old(target.data)
  {
    ghost var j := Job(rules, env, t0, strategy);
    ghost var now_, c := EventKeyWrites(j, w, ks[..i]), Tot(stats, count);
    KeysNext(j, w0, w, ks, i);
    HoldsOnly(env, t0, target.data, batch, flushed, now_);
    TurnMeets(j, c, w0, flushed, now_, ks[i]);
    ok, r, n, now := PutKey(rules, env, batchSize, target, stats, ks[i], strategy, batch, count, t0, flushed, now_);
    if !ok { return; }
    HoldsOnly(env, t0, target.data, r, now, EventKeyWrites(j, w, ks[..i + 1]));
    MeetsAdd(b, c, Tot(stats, n), ExpectKeys(j, w0, w, ks[..i]), ExpectKey(j, w0, now_, ks[i]));
  }

  lemma KeyStart(j: Job, w0: set<Bytes>, w: set<Bytes>, ks: seq<Bytes>, target: Target, stats: Stats, batch: Db,
      count: nat, flushed: set<Bytes>)
    requires Holds(j.env, j.t0, target.data, batch, flushed, w) && Pending(j.rules, batch, count) && w0 <= flushed
    ensures KeyState(j, w0, w, Tot(stats, count), ks[..0], target, stats, batch, count, flushed)
    ensures OnlySourceValues(j.env.source, j.t0, target.data)
  {
    HoldsOnly(j.env, j.t0, target.data, batch, flushed, w);
    assert ks[..0] == [];
  }

  /** The event keys of one transaction, whose batch goes on to the next. */
  method PutEventKeys(rules: Rules, env: TxEnv, batchSize: int, target: Target, stats: Stats, ks: seq<Bytes>,
      strategy: Strategy, batch: Db, count: nat, ghost t0: Db, ghost flushed: set<Bytes>, ghost w0: set<Bytes>,
      ghost w: set<Bytes>)
    returns (ok: bool, r: Db, n: nat, ghost now: set<Bytes>)
    requires Holds(env, t0, target.data, batch, flushed, w) && Pending(rules, batch, count) && w0 <= flushed
    requires forall k :: k in ks ==> k in env.source
    modifies target, stats
    ensures ok ==> KeyState(Job(rules, env, t0, strategy), w0, w, old(Tot(stats, count)), ks, target, stats, r, n, now)
    ensures ok ==> stats.asked == old(stats.asked)
    ensures NoSkips(rules, strategy) ==> stats.skipped == old(stats.skipped)
    ensures !ok ==> target.failsFrom.Some?
    ensures OnlySourceValues(env.source, t0, target.data)
    ensures rules.dryRun ==> target.data == old(target.data)
  {
    r, n, now := batch, count, flushed;
    ghost var b, j := Tot(stats, count), Job(rules, env, t0, strategy);
    var i := 0;
    KeyStart(j, w0, w, ks, target, stats, batch, count, flushed);
    while i < |ks|
      invariant 0 <= i <= |ks| && stats.asked == old(stats.asked)
      invariant OnlySourceValues(env.source, t0, target.data)
      invariant rules.dryRun ==> target.data == old(target.data)
      invariant KeyState(j, w0, w, b, ks[..i], target, stats, r, n, now)
      invariant NoSkips(rules, strategy) ==> stats.skipped == old(stats.skipped)
    {
      ok, r, n, now := KeyTurn(rules, env, batchSize, target, stats, ks, i, strategy, r, n, t0, w0, w, b, now);
      if !ok { return; }
      i := i + 1;
    }
    assert ks[..i] == ks;
    ok := true;
  }

  /**
   The iterator over a transaction's prefix, cut off at the first key without it. The event keys it
   yields are the transaction's own exactly when no stored one continues its index.
   */
  method ScanEventKeys(env: TxEnv, hash: Bytes, info: TxInfo) returns (ks: seq<Bytes>)
    requires ScansRange(env, EventPrefix(hash, info))
    ensures Ascending(ks) && forall k :: k in ks ==> k in env.source
    ensures !env.scanFails(EventPrefix(hash, info)) ==>
              forall k :: k in ks <==> k in env.source && HasPrefix(k, EventPrefix(hash, info))
    ensures !env.scanFails(EventPrefix(hash, info)) && Free(hash, SLASH) ==>
              (OnlyOwn(ks, hash, info) <==> NoContinuation(env.source, hash, info))
  {
    var p := EventPrefix(hash, info);
    ghost var yielded: Db := map k | k in env.source && k in env.scan(p) :: env.source[k];
    ks := ScanPrefix(env.scan(p), yielded, p);
    if !env.scanFails(p) {
      forall k | k in env.source && HasPrefix(k, p) ensures k in ks { PrefixInRange(k, p); }
      if Free(hash, SLASH) { ScanIsolates(env.source, ks, hash, info); }
    }
  }

  lemma PrefixInRange(k: Bytes, p: Bytes)
    requires HasPrefix(k, p)
    ensures InRange(k, PrefixRange(p))
  {
    PrefixNotBelow(k, p);
    if Incremented(p).Some? { PrefixBelowIncremented(k, p); }
  }

  lemma {:induction false} KeyWritesExact(rules: Rules, env: TxEnv, t0: Db, strategy: Strategy, w0: set<Bytes>,
      ks: seq<Bytes>, x: Bytes)
    ensures x in KeyWrites(rules, env, t0, strategy, w0, ks) <==>
            x in w0 ||
            (x in ks && Wants(rules, env, t0, strategy, x))
  {
    if ks != [] {
      KeyWritesExact(rules, env, t0, strategy, w0, ks[..|ks| - 1], x);
      assert ks == ks[..|ks| - 1] + [ks[|ks| - 1]];
    }
  }

  lemma {:induction false} HashWritesExact(rules: Rules, env: TxEnv, t0: Db, strategy: Strategy, w0: set<Bytes>,
      hs: seq<Bytes>, x: Bytes)
    ensures x in HashWrites(rules, env, t0, strategy, w0, hs) <==>
            x in w0 ||
            (x in hs && WantsHash(rules, env, t0, strategy, x))
  {
    if hs != [] {
      HashWritesExact(rules, env, t0, strategy, w0, hs[..|hs| - 1], x);
      assert hs == hs[..|hs| - 1] + [hs[|hs| - 1]];
    }
  }

  /** What one transaction leads to. */
  ghost function WantedOf(rules: Rules, env: TxEnv, t0: Db, strategy: Strategy, infos: TxInfos,
      h: Bytes): (w: set<Bytes>) {
    set k | k in env.source && IsEventKey(env, infos, h, k) && Wants(rules, env, t0, strategy, k)
  }

  lemma KeyWritesAll(rules: Rules, env: TxEnv, t0: Db, strategy: Strategy, infos: TxInfos, w: set<Bytes>, h: Bytes,
      ks: seq<Bytes>)
    requires forall k :: k in ks <==> k in env.source && IsEventKey(env, infos, h, k)
    ensures KeyWrites(rules, env, t0, strategy, w, ks) == w + WantedOf(rules, env, t0, strategy, infos, h)
  {
    forall k ensures k in KeyWrites(rules, env, t0, strategy, w, ks) <==>
        k in w + WantedOf(rules, env, t0, strategy, infos, h) {
      KeyWritesExact(rules, env, t0, strategy, w, ks, k);
    }
  }

  // In the loop the transactions visited so far are a sequence.

  ghost function WantedSeq(rules: Rules, env: TxEnv, t0: Db, strategy: Strategy, infos: TxInfos, w0: set<Bytes>,
      order: seq<Bytes>): (w: set<Bytes>) {
    if order == [] then w0
    else
      var front, h := order[..|order| - 1], order[|order| - 1];
      WantedSeq(rules, env, t0, strategy, infos, w0, front) + WantedOf(rules, env, t0, strategy, infos, h)
  }

  lemma {:induction false} WantedSeqExact(rules: Rules, env: TxEnv, t0: Db, strategy: Strategy, infos: TxInfos,
      w0: set<Bytes>, order: seq<Bytes>, k: Bytes)
    ensures k in WantedSeq(rules, env, t0, strategy, infos, w0, order) <==>
            k in w0 || (exists h :: h in order && k in WantedOf(rules, env, t0, strategy, infos, h))
  {
    if order != [] {
      var front, last := order[..|order| - 1], order[|order| - 1];
      WantedSeqExact(rules, env, t0, strategy, infos, w0, front, k);
      assert forall h :: h in order <==> h in front || h == last by { assert order == front + [last]; }
    }
  }

  lemma WantedAll(rules: Rules, env: TxEnv, t0: Db, strategy: Strategy, infos: TxInfos, w0: set<Bytes>,
      order: seq<Bytes>)
    requires forall h :: h in order <==> h in infos
    ensures WantedSeq(rules, env, t0, strategy, infos, w0, order) == w0 +
            EventWrites(rules, env, t0, strategy, infos, infos.Keys)
  {
    var w := WantedSeq(rules, env, t0, strategy, infos, w0, order);
    forall k ensures k in w <==>
        k in w0 || (k in env.source && EventKeyOfAny(env, infos, infos.Keys, k) &&
        Wants(rules, env, t0, strategy, k)) {
      WantedSeqExact(rules, env, t0, strategy, infos, w0, order, k);
      if k in w && k !in w0 {
        var h :| h in order && k in WantedOf(rules, env, t0, strategy, infos, h);
        assert h in infos.Keys && IsEventKey(env, infos, h, k);
      }
      if k in env.source && EventKeyOfAny(env, infos, infos.Keys, k) && Wants(rules, env, t0, strategy, k) {
        var h :| h in infos.Keys && IsEventKey(env, infos, h, k);
        assert h in order && k in WantedOf(rules, env, t0, strategy, infos, h);
      }
    }
  }

  // The totals of phase 3 are sizes of sets, so they do not depend on the order of the map.

  ghost function Pairs(hs: set<Bytes>, of: Bytes -> set<Bytes>): (r: set<(Bytes, Bytes)>) {
    set h, k | h in hs && k in of(h) :: (h, k)
  }

  ghost function Failing(hs: set<Bytes>, fails: Bytes -> bool): (r: set<Bytes>) { set h | h in hs && fails(h) }

  /** One for every key of every element, and one for every element that fails. */
  ghost function Tally(hs: set<Bytes>, of: Bytes -> set<Bytes>, fails: Bytes -> bool): (n: nat) {
    |Pairs(hs, of)| + |Failing(hs, fails)|
  }

  ghost function TallyOne(of: Bytes -> set<Bytes>, fails: Bytes -> bool, h: Bytes): (n: nat) {
    |of(h)| + if fails(h) then 1 else 0
  }

  ghost function TallySeq(order: seq<Bytes>, of: Bytes -> set<Bytes>, fails: Bytes -> bool): (n: nat) {
    if order == [] then 0 else TallySeq(order[..|order| - 1], of, fails) + TallyOne(of, fails, order[|order| - 1])
  }

  lemma {:induction false} PairsOfOne(h: Bytes, ks: set<Bytes>)
    ensures |set k | k in ks :: (h, k)| == |ks|
  {
    if ks != {} {
      var x :| x in ks;
      PairsOfOne(h, ks - {x});
      assert (set k | k in ks :: (h, k)) == (set k | k in ks - {x} :: (h, k)) + {(h, x)};
    }
  }

  lemma PairsNext(hs: set<Bytes>, of: Bytes -> set<Bytes>, h: Bytes)
    requires h !in hs
    ensures |Pairs(hs + {h}, of)| == |Pairs(hs, of)| + |of(h)|
  {
    var one := set k | k in of(h) :: (h, k);
    PairsOfOne(h, of(h));
    assert Pairs(hs + {h}, of) == Pairs(hs, of) + one;
    assert Pairs(hs, of) !! one;
  }

  lemma FailingNext(hs: set<Bytes>, fails: Bytes -> bool, h: Bytes)
    requires h !in hs
    ensures |Failing(hs + {h}, fails)| == |Failing(hs, fails)| + if fails(h) then 1 else 0
  {
    var a, b := Failing(hs, fails), Failing(hs + {h}, fails);
    if fails(h) { assert b == a + {h}; } else { assert b == a; }
  }

  ghost function Members(order: seq<Bytes>): (hs: set<Bytes>) { set h | h in order }

  /** Summing along any order of a set gives the tally of the set. */
  lemma {:induction false} TallySame(order: seq<Bytes>, of: Bytes -> set<Bytes>, fails: Bytes -> bool)
    requires Distinct(order)
    ensures TallySeq(order, of, fails) == Tally(Members(order), of, fails)
  {
    if order == [] {
      assert Pairs(Members(order), of) == {} && Failing(Members(order), fails) == {};
    } else {
      var front, last := order[..|order| - 1], order[|order| - 1];
      TallySame(front, of, fails);
      assert Members(order) == Members(front) + {last} by { assert order == front + [last]; }
      PairsNext(Members(front), of, last);
      FailingNext(Members(front), fails, last);
    }
  }

  lemma TallyNext(order: seq<Bytes>, of: Bytes -> set<Bytes>, fails: Bytes -> bool, h: Bytes)
    ensures TallySeq(order + [h], of, fails) == TallySeq(order, of, fails) + TallyOne(of, fails, h)
  {
    assert (order + [h])[..|order|] == order;
  }

  /** A transaction's event keys: none when no iterator can be opened. */
  ghost function KeysOf(env: TxEnv, infos: TxInfos): (of: Bytes -> set<Bytes>) {
    h => set k | k in env.source && IsEventKey(env, infos, h, k)
  }

  /** Those of them whose turn, with `w0` written before the phase, ends in an error. */
  ghost function FaultsOf(j: Job, w0: set<Bytes>, infos: TxInfos): (of: Bytes -> set<Bytes>) {
    h => set k | k in j.env.source && IsEventKey(j.env, infos, h, k) && TurnOf(j, SurelyPresent(j, w0, k), k).Failed?
  }

  /** Those that are passed over because they were present before the phase. */
  ghost function SureOf(j: Job, w0: set<Bytes>, infos: TxInfos): (of: Bytes -> set<Bytes>) {
    h => set k | k in j.env.source && IsEventKey(j.env, infos, h, k) && TurnOf(j, SurelyPresent(j, w0, k), k).Passed?
  }

  const NEVER: Bytes -> bool := _ => false

  ghost function Unopened(env: TxEnv, infos: TxInfos): (fails: Bytes -> bool) {
    h => h in infos && env.openFails(EventPrefix(h, infos[h]))
  }

  /** Those that the phase itself may have written before their turn. */
  ghost function UnsureOf(j: Job, w0: set<Bytes>, w: set<Bytes>, infos: TxInfos): (of: Bytes -> set<Bytes>) {
    h => set k | k in j.env.source && IsEventKey(j.env, infos, h, k) && Unsure(j, w0, w, k)
  }

  predicate Unsure(j: Job, w0: set<Bytes>, w: set<Bytes>, k: Bytes) {
    !SurelyPresent(j, w0, k) && k in w && TurnOf(j, true, k).Passed?
  }

  /** The turns of one transaction; one that cannot be opened is one failed turn. */
  ghost function ExpectTx(j: Job, w0: set<Bytes>, w: set<Bytes>, infos: TxInfos, h: Bytes): (e: Expect) {
    Expect(TallyOne(KeysOf(j.env, infos), Unopened(j.env, infos), h),
           TallyOne(FaultsOf(j, w0, infos), Unopened(j.env, infos), h),
           TallyOne(SureOf(j, w0, infos), NEVER, h), TallyOne(UnsureOf(j, w0, w, infos), NEVER, h))
  }

  ghost function Failers(j: Job, w0: set<Bytes>): (mark: Bytes -> bool) {
    k => TurnOf(j, SurelyPresent(j, w0, k), k).Failed?
  }

  ghost function Passers(j: Job, w0: set<Bytes>): (mark: Bytes -> bool) {
    k => TurnOf(j, SurelyPresent(j, w0, k), k).Passed?
  }

  ghost function Doubtful(j: Job, w0: set<Bytes>, w: set<Bytes>): (mark: Bytes -> bool) { k => Unsure(j, w0, w, k) }

  /** A key that has had no turn is unsure only because of what came before. */
  lemma FirstTurn(j: Job, w0: set<Bytes>, w: set<Bytes>, front: seq<Bytes>, k: Bytes)
    requires k !in front
    ensures var e := ExpectKey(j, w0, EventKeyWrites(j, w, front), k);
            && e.turns == 1 && e.failed == (if Failers(j, w0)(k) then 1 else 0)
            && e.sure == (if Passers(j, w0)(k) then 1 else 0) && e.unsure == (if Doubtful(j, w0, w)(k) then 1 else 0)
  {
    KeyWritesExact(j.rules, j.env, j.t0, j.strategy, w, front, k);
  }

  /** The keys of an enumeration have one turn each. */
  lemma {:induction false} ExpectKeysCounted(j: Job, w0: set<Bytes>, w: set<Bytes>, ks: seq<Bytes>)
    requires Ascending(ks)
    ensures var e := ExpectKeys(j, w0, w, ks);
            && e.turns == |ks| && e.failed == CountMarked(ks, Failers(j, w0))
            && e.sure == CountMarked(ks, Passers(j, w0)) && e.unsure == CountMarked(ks, Doubtful(j, w0, w))
  {
    if ks != [] {
      var front, k := ks[..|ks| - 1], ks[|ks| - 1];
      ExpectKeysCounted(j, w0, w, front);
      AscendingFresh(ks, |ks| - 1);
      FirstTurn(j, w0, w, front, k);
    }
  }

  lemma CountedIs(ks: seq<Bytes>, mark: Bytes -> bool, r: set<Bytes>)
    requires Ascending(ks) && (forall k :: k in r <==> k in ks && mark(k))
    ensures CountMarked(ks, mark) == |r|
  {
    CountedOnce(ks, mark);
    assert Marked(ks, mark) == r;
  }

  lemma LengthIs(ks: seq<Bytes>, r: set<Bytes>)
    requires Ascending(ks) && (forall k :: k in r <==> k in ks)
    ensures |ks| == |r|
  {
    AscendingLength(ks);
    assert (set k | k in ks) == r;
  }

  /** The keys a scan yields have the turns of their transaction. */
  lemma {:induction false} TxExpected(j: Job, w0: set<Bytes>, w: set<Bytes>, infos: TxInfos, h: Bytes, ks: seq<Bytes>)
    requires Ascending(ks) && (forall k :: k in ks <==> k in j.env.source && IsEventKey(j.env, infos, h, k))
    requires !Unopened(j.env, infos)(h)
    ensures ExpectKeys(j, w0, w, ks) == ExpectTx(j, w0, w, infos, h)
  {
    ExpectKeysCounted(j, w0, w, ks);
    LengthIs(ks, KeysOf(j.env, infos)(h));
    CountedIs(ks, Failers(j, w0), FaultsOf(j, w0, infos)(h));
    CountedIs(ks, Passers(j, w0), SureOf(j, w0, infos)(h));
    CountedIs(ks, Doubtful(j, w0, w), UnsureOf(j, w0, w, infos)(h));
  }

  lemma UnopenedExpected(j: Job, w0: set<Bytes>, w: set<Bytes>, infos: TxInfos, h: Bytes)
    requires Unopened(j.env, infos)(h)
    ensures ExpectTx(j, w0, w, infos, h) == Expect(1, 1, 0, 0)
  {
    assert KeysOf(j.env, infos)(h) == {} && FaultsOf(j, w0, infos)(h) == {};
    assert SureOf(j, w0, infos)(h) == {} && UnsureOf(j, w0, w, infos)(h) == {};
  }

  /** The event keys of a transaction whose iterator opens. */
  method ScanTransaction(env: TxEnv, infos: TxInfos, h: Bytes) returns (ks: seq<Bytes>)
    requires h in infos && ScansRange(env, EventPrefix(h, infos[h])) && !env.openFails(EventPrefix(h, infos[h]))
    ensures Ascending(ks) && forall k :: k in ks ==> k in env.source
    ensures !env.scanFails(EventPrefix(h, infos[h])) ==>
              forall k :: k in ks <==> k in env.source && IsEventKey(env, infos, h, k)
  {
    ks := ScanEventKeys(env, h, infos[h]);
  }

  lemma TxDone(j: Job, w0: set<Bytes>, w: set<Bytes>, infos: TxInfos, h: Bytes, ks: seq<Bytes>)
    requires Ascending(ks) && (forall k :: k in ks <==> k in j.env.source && IsEventKey(j.env, infos, h, k))
    requires !Unopened(j.env, infos)(h)
    ensures EventKeyWrites(j, w, ks) == w + WantedOf(j.rules, j.env, j.t0, j.strategy, infos, h)
    ensures ExpectKeys(j, w0, w, ks) == ExpectTx(j, w0, w, infos, h)
  {
    KeyWritesAll(j.rules, j.env, j.t0, j.strategy, infos, w, h, ks);
    TxExpected(j, w0, w, infos, h, ks);
  }

  lemma UnopenedDone(j: Job, w0: set<Bytes>, w: set<Bytes>, infos: TxInfos, h: Bytes)
    requires Unopened(j.env, infos)(h)
    ensures w + WantedOf(j.rules, j.env, j.t0, j.strategy, infos, h) == w
    ensures ExpectTx(j, w0, w, infos, h) == Expect(1, 1, 0, 0)
  {
    assert WantedOf(j.rules, j.env, j.t0, j.strategy, infos, h) == {};
    UnopenedExpected(j, w0, w, infos, h);
  }

  /** One Ethereum transaction whose iterator opens. */
  method PutOpened(rules: Rules, env: TxEnv, batchSize: int, target: Target, stats: Stats, infos: TxInfos,
      h: Bytes, strategy: Strategy, batch: Db, count: nat, ghost t0: Db, ghost flushed: set<Bytes>,
      ghost w0: set<Bytes>, ghost w: set<Bytes>)
    returns (ok: bool, r: Db, n: nat, ghost now: set<Bytes>)
    requires h in infos && ScansRange(env, EventPrefix(h, infos[h])) && !env.openFails(EventPrefix(h, infos[h]))
    requires Holds(env, t0, target.data, batch, flushed, w) && Pending(rules, batch, count) && w0 <= flushed
    modifies target, stats
    ensures OnlySourceValues(env.source, t0, target.data)
    ensures ok ==> Holds(env, t0, target.data, r, now, w + WantedOf(rules, env, t0, strategy, infos, h))
    ensures ok ==> Pending(rules, r, n) && w0 <= now && stats.asked == old(stats.asked)
    ensures ok ==> Meets(old(Tot(stats, count)), Tot(stats, n),
            ExpectTx(Job(rules, env, t0, strategy), w0, w, infos, h))
    ensures NoSkips(rules, strategy) ==> stats.skipped == old(stats.skipped)
    ensures !ok ==> target.failsFrom.Some? || env.scanFails(EventPrefix(h, infos[h]))
    ensures rules.dryRun ==> target.data == old(target.data)
  {
    ghost var j := Job(rules, env, t0, strategy);
    var ks := ScanTransaction(env, infos, h);
    ok, r, n, now := PutEventKeys(rules, env, batchSize, target, stats, ks, strategy, batch, count, t0, flushed, w0, w);
    if !ok { return; }
    if env.scanFails(EventPrefix(h, infos[h])) { return false, r, n, now; }
    TxDone(j, w0, w, infos, h, ks);
  }

  /** One Ethereum transaction. */
  method PutTransaction(rules: Rules, env: TxEnv, batchSize: int, target: Target, stats: Stats, infos: TxInfos,
      h: Bytes, strategy: Strategy, batch: Db, count: nat, ghost t0: Db, ghost flushed: set<Bytes>,
      ghost w0: set<Bytes>, ghost w: set<Bytes>)
    returns (ok: bool, r: Db, n: nat, ghost now: set<Bytes>)
    requires h in infos && ScansRange(env, EventPrefix(h, infos[h]))
    requires Holds(env, t0, target.data, batch, flushed, w) && Pending(rules, batch, count) && w0 <= flushed
    modifies target, stats
    ensures OnlySourceValues(env.source, t0, target.data)
    ensures ok ==> Holds(env, t0, target.data, r, now, w + WantedOf(rules, env, t0, strategy, infos, h))
    ensures ok ==> Pending(rules, r, n) && w0 <= now && stats.asked == old(stats.asked)
    ensures ok ==> Meets(old(Tot(stats, count)), Tot(stats, n),
            ExpectTx(Job(rules, env, t0, strategy), w0, w, infos, h))
    ensures NoSkips(rules, strategy) ==> stats.skipped == old(stats.skipped)
    ensures !ok ==> target.failsFrom.Some? || env.scanFails(EventPrefix(h, infos[h]))
    ensures rules.dryRun ==> target.data == old(target.data)
  {
    if env.openFails(EventPrefix(h, infos[h])) {
      HoldsOnly(env, t0, target.data, batch, flushed, w);
      UnopenedDone(Job(rules, env, t0, strategy), w0, w, infos, h);
      stats.errorCount := stats.errorCount + 1;
      return true, batch, count, flushed;
    }
    ok, r, n, now := PutOpened(rules, env, batchSize, target, stats, infos, h, strategy, batch, count, t0, flushed,
        w0, w);
  }

  /** The transactions visited are those of the map that are not waiting. */
  ghost predicate Visited(infos: TxInfos, rest: set<Bytes>, order: seq<Bytes>) {
    Distinct(order) && rest <= infos.Keys && (forall h :: h in order <==> h in infos && h !in rest)
  }

  lemma VisitNext(infos: TxInfos, rest: set<Bytes>, order: seq<Bytes>, h: Bytes)
    requires Visited(infos, rest, order) && h in rest
    ensures Visited(infos, rest - {h}, order + [h])
  {
  }

  /** What the transactions visited so far have written. */
  ghost function Sofar(j: Job, infos: TxInfos, w0: set<Bytes>, order: seq<Bytes>): (w: set<Bytes>) {
    WantedSeq(j.rules, j.env, j.t0, j.strategy, infos, w0, order)
  }

  ghost function ExpectOrder(j: Job, w0: set<Bytes>, infos: TxInfos, order: seq<Bytes>): (e: Expect) {
    if order == [] then NOTHING
    else
      var front, h := order[..|order| - 1], order[|order| - 1];
      Add(ExpectOrder(j, w0, infos, front), ExpectTx(j, w0, Sofar(j, infos, w0, front), infos, h))
  }

  /** Phase 3 after the transactions `order`. */
  ghost predicate EventState(j: Job, infos: TxInfos, w0: set<Bytes>, b: Counts, order: seq<Bytes>, target: Target,
      stats: Stats, batch: Db, count: nat, flushed: set<Bytes>)
    reads target, stats
  {
    && Holds(j.env, j.t0, target.data, batch, flushed, Sofar(j, infos, w0, order)) && Pending(j.rules, batch, count)
    && w0 <= flushed && Meets(b, Tot(stats, count), ExpectOrder(j, w0, infos, order))
  }

  lemma OrderNext(j: Job, infos: TxInfos, w0: set<Bytes>, order: seq<Bytes>, h: Bytes)
    ensures Sofar(j, infos, w0, order + [h]) == Sofar(j, infos, w0, order) +
            WantedOf(j.rules, j.env, j.t0, j.strategy, infos, h)
    ensures ExpectOrder(j, w0, infos, order + [h]) ==
            Add(ExpectOrder(j, w0, infos, order), ExpectTx(j, w0, Sofar(j, infos, w0, order), infos, h))
  {
    assert (order + [h])[..|order|] == order;
  }

  method VisitTransaction(rules: Rules, env: TxEnv, batchSize: int, target: Target, stats: Stats, infos: TxInfos,
      h: Bytes, strategy: Strategy, batch: Db, count: nat, ghost t0: Db, ghost w0: set<Bytes>, ghost b: Counts,
      ghost order: seq<Bytes>, ghost flushed: set<Bytes>)
    returns (ok: bool, r: Db, n: nat, ghost now: set<Bytes>)
    requires Scans(env) && h in infos
    requires EventState(Job(rules, env, t0, strategy), infos, w0, b, order, target, stats, batch, count, flushed)
    modifies target, stats
    ensures OnlySourceValues(env.source, t0, target.data)
    ensures ok ==> EventState(Job(rules, env, t0, strategy), infos, w0, b, order + [h], target, stats, r, n, now)
    ensures ok ==> stats.asked == old(stats.asked)
    ensures NoSkips(rules, strategy) ==> stats.skipped == old(stats.skipped)
    ensures !ok ==> target.failsFrom.Some? || exists prefix :: env.scanFails(prefix)
    ensures rules.dryRun ==> target.data == old(target.data)
  {
    ghost var j := Job(rules, env, t0, strategy);
    ghost var w, c := Sofar(j, infos, w0, order), Tot(stats, count);
    OrderNext(j, infos, w0, order, h);
    assert ScansRange(env, EventPrefix(h, infos[h]));
    ok, r, n, now := PutTransaction(rules, env, batchSize, target, stats, infos, h, strategy, batch, count, t0,
        flushed, w0, w);
    if ok { MeetsAdd(b, c, Tot(stats, n), ExpectOrder(j, w0, infos, order), ExpectTx(j, w0, w, infos, h)); }
  }

  /** The loop over the map, in any order. */
  method PutTransactions(rules: Rules, env: TxEnv, batchSize: int, target: Target, stats: Stats, infos: TxInfos,
      strategy: Strategy, ghost t0: Db, ghost w0: set<Bytes>)
    returns (ok: bool, batch: Db, count: nat, ghost flushed: set<Bytes>, ghost order: seq<Bytes>)
    requires Scans(env) && Clean(env, t0, target.data, w0)
    modifies target, stats
    ensures !ok ==> OnlySourceValues(env.source, t0, target.data)
    ensures ok ==> Visited(infos, {}, order) && stats.asked == old(stats.asked)
    ensures ok ==> EventState(Job(rules, env, t0, strategy), infos, w0, old(Tot(stats, 0)), order, target, stats,
            batch, count, flushed)
    ensures NoSkips(rules, strategy) ==> stats.skipped == old(stats.skipped)
    ensures !ok ==> target.failsFrom.Some? || exists prefix :: env.scanFails(prefix)
    ensures rules.dryRun ==> target.data == old(target.data)
  {
    batch, count := map[], 0;
    flushed, order := w0, [];
    ghost var b, j := Tot(stats, 0), Job(rules, env, t0, strategy);
    var rest := infos.Keys;
    while rest != {}
      invariant rules.dryRun ==> target.data == old(target.data)
      invariant Visited(infos, rest, order) && stats.asked == old(stats.asked)
      invariant EventState(j, infos, w0, b, order, target, stats, batch, count, flushed)
      invariant NoSkips(rules, strategy) ==> stats.skipped == old(stats.skipped)
      decreases |rest|
    {
      var h: Bytes :| h in rest;
      ok, batch, count, flushed :=
        VisitTransaction(rules, env, batchSize, target, stats, infos, h, strategy, batch, count, t0, w0, b, order,
            flushed);
      if !ok { return; }
      VisitNext(infos, rest, order, h);
      rest, order := rest - {h}, order + [h];
    }
    ok := true;
  }

  /** No key is an event key of two transactions. */
  ghost predicate Disjoint(env: TxEnv, infos: TxInfos) {
    forall h, h', k :: IsEventKey(env, infos, h, k) && IsEventKey(env, infos, h', k) ==> h == h'
  }

  /** Hashes without '/', as every hexadecimal one, have disjoint event keys. */
  lemma HashesDisjoint(env: TxEnv, infos: TxInfos)
    requires forall h :: h in infos ==> Free(h, SLASH)
    ensures Disjoint(env, infos)
  {
    forall h, h', k | IsEventKey(env, infos, h, k) && IsEventKey(env, infos, h', k) ensures h == h' {
      PrefixHash(k, h, infos[h], h', infos[h']);
    }
  }

  /** What phase 3 should count: sizes of sets, whatever the order of the map. */
  ghost predicate EventMeets(j: Job, w0: set<Bytes>, infos: TxInfos, b: Counts, c: Counts) {
    var e := ExpectEvents(j, w0, infos);
    && c.copied + c.failed + c.passed == b.copied + b.failed + b.passed + e.turns
    && c.failed == b.failed + e.failed && c.passed >= b.passed + e.sure
    && (Disjoint(j.env, infos) ==> Meets(b, c, e))
  }

  ghost function ExpectEvents(j: Job, w0: set<Bytes>, infos: TxInfos): (e: Expect) {
    Expect(Tally(infos.Keys, KeysOf(j.env, infos), Unopened(j.env, infos)),
           Tally(infos.Keys, FaultsOf(j, w0, infos), Unopened(j.env, infos)),
           Tally(infos.Keys, SureOf(j, w0, infos), NEVER), 0)
  }

  lemma {:induction false} OrderFields(j: Job, w0: set<Bytes>, infos: TxInfos, order: seq<Bytes>)
    ensures var e := ExpectOrder(j, w0, infos, order);
            && e.turns == TallySeq(order, KeysOf(j.env, infos), Unopened(j.env, infos))
            && e.failed == TallySeq(order, FaultsOf(j, w0, infos), Unopened(j.env, infos))
            && e.sure == TallySeq(order, SureOf(j, w0, infos), NEVER)
  {
    if order != [] { OrderFields(j, w0, infos, order[..|order| - 1]); }
  }

  /** A transaction whose keys no earlier one has is in no doubt. */
  lemma NothingUnsure(j: Job, w0: set<Bytes>, infos: TxInfos, order: seq<Bytes>, h: Bytes)
    requires Disjoint(j.env, infos) && h !in order
    ensures UnsureOf(j, w0, Sofar(j, infos, w0, order), infos)(h) == {}
  {
    var w := Sofar(j, infos, w0, order);
    forall k | k in j.env.source && IsEventKey(j.env, infos, h, k) ensures !Unsure(j, w0, w, k) {
      WantedSeqExact(j.rules, j.env, j.t0, j.strategy, infos, w0, order, k);
    }
  }

  lemma {:induction false} OrderSure(j: Job, w0: set<Bytes>, infos: TxInfos, order: seq<Bytes>)
    requires Disjoint(j.env, infos) && Distinct(order)
    ensures ExpectOrder(j, w0, infos, order).unsure == 0
  {
    if order != [] {
      var front, h := order[..|order| - 1], order[|order| - 1];
      OrderSure(j, w0, infos, front);
      NothingUnsure(j, w0, infos, front, h);
    }
  }

  lemma EventsMet(j: Job, w0: set<Bytes>, infos: TxInfos, order: seq<Bytes>, b: Counts, c: Counts)
    requires Visited(infos, {}, order) && Meets(b, c, ExpectOrder(j, w0, infos, order))
    ensures EventMeets(j, w0, infos, b, c)
  {
    assert Members(order) == infos.Keys;
    OrderFields(j, w0, infos, order);
    TallySame(order, KeysOf(j.env, infos), Unopened(j.env, infos));
    TallySame(order, FaultsOf(j, w0, infos), Unopened(j.env, infos));
    TallySame(order, SureOf(j, w0, infos), NEVER);
    if Disjoint(j.env, infos) { OrderSure(j, w0, infos, order); }
  }

  /** patchEthereumEventKeysFromSource: its totals are sizes of sets, whatever the order. */
  method PatchEthereumEventKeys(rules: Rules, env: TxEnv, batchSize: int, target: Target, stats: Stats,
      infos: TxInfos, strategy: Strategy, ghost t0: Db, ghost w0: set<Bytes>)
    returns (ok: bool)
    requires Scans(env) && Clean(env, t0, target.data, w0)
    modifies target, stats
    ensures OnlySourceValues(env.source, t0, target.data)
    ensures ok ==> Clean(env, t0, target.data, w0 + EventWrites(rules, env, t0, strategy, infos, infos.Keys))
    ensures ok ==> stats.asked == old(stats.asked)
    ensures ok ==> EventMeets(Job(rules, env, t0, strategy), w0, infos, old(Tot(stats, 0)), Tot(stats, 0))
    ensures NoSkips(rules, strategy) ==> stats.skipped == old(stats.skipped)
    ensures !ok ==> target.failsFrom.Some? || exists prefix :: env.scanFails(prefix)
    ensures rules.dryRun ==> target.data == old(target.data)
  {
    var batch, count;
    ghost var flushed, order;
    ghost var b, j := Tot(stats, 0), Job(rules, env, t0, strategy);
    ok, batch, count, flushed, order := PutTransactions(rules, env, batchSize, target, stats, infos, strategy, t0, w0);
    if !ok { return; }
    EventsMet(j, w0, infos, order, b, Tot(stats, count));
    WantedAll(rules, env, t0, strategy, infos, w0, order);
    ok := FinishPhase(rules, env, target, stats, batch, count, t0, flushed, Sofar(j, infos, w0, order));
  }

  // ---------------------------------------------------------------------------------------
  // Phase 1

  lemma TxPlanShift(rules: Rules, env: TxEnv, t0: Db, p: TxPlan, k: Bytes)
    ensures var q := TxPlanKey(rules, env, t0, p.(taken := []), k);
            TxPlanKey(rules, env, t0, p, k) == q.(taken := p.taken + q.taken)
  {
  }

  lemma {:induction false} TakenScanned(rules: Rules, env: TxEnv, t0: Db, p: TxPlan, ks: seq<Bytes>)
    ensures forall x :: x in TxPlanKeys(rules, env, t0, p, ks).taken ==> x in p.taken || x in ks
  {
    if ks != [] {
      var front, k := ks[..|ks| - 1], ks[|ks| - 1];
      TakenScanned(rules, env, t0, p, front);
      TxPlanShift(rules, env, t0, TxPlanKeys(rules, env, t0, p, front), k);
      assert ks == front + [k];
    }
  }

  /** The filter, the conflict check and the batch for one tx.height key. */
  method TakeKey(rules: Rules, env: TxEnv, target: Target, stats: Stats, k: Bytes, strategy: Strategy, batch: Db,
      ghost t0: Db, ghost flushed: set<Bytes>, ghost w: set<Bytes>)
    returns (next: Strategy, r: Db, taken: bool)
    requires k in env.source && (k in target.data <==> k in t0) && Holds(env, t0, target.data, batch, flushed, w)
    modifies stats
    ensures TxPlan(if taken then [k] else [], stats.errorCount, stats.skipped, next, stats.asked) ==
            TxPlanKey(rules, env, t0, TxPlan([], old(stats.errorCount), old(stats.skipped), strategy,
                old(stats.asked)), k)
    ensures Holds(env, t0, target.data, r, flushed, AddIf(w, taken && !rules.dryRun, k)) &&
            (rules.dryRun || !taken ==> r == batch)
    ensures stats.processedKeys == old(stats.processedKeys)
  {
    next, r, taken := strategy, batch, false;
    var height := ExtractHeightFromTxIndexKey(k);
    if height.None? || !IsWithinRange(rules.heights, height.value) { return; }
    var d := TxDecide(rules, env, strategy, stats.asked, k in target.data, k);
    next := d.strategy;
    stats.asked := d.asked;
    if d.skipped { stats.skipped := stats.skipped + 1; }
    if !d.write { return; }
    if !rules.dryRun {
      if env.setFails(k) {
        stats.errorCount := stats.errorCount + 1;
        return;
      }
      HoldsMore(env, t0, target.data, batch, flushed, w, k);
      r := r[k := env.source[k]];
    }
    taken := true;
  }

  ghost predicate IsTaken(rules: Rules, taken: seq<Bytes>, w: set<Bytes>) {
    forall k :: k in w <==> !rules.dryRun && k in taken
  }

  /** The loop of patchTxHeightKeys after the plan `p`. */
  ghost predicate HeightState(rules: Rules, env: TxEnv, t0: Db, p: TxPlan, target: Target, stats: Stats,
      processed0: nat, batch: Db, count: nat, strategy: Strategy, flushed: set<Bytes>, w: set<Bytes>)
    reads target, stats
  {
    && Holds(env, t0, target.data, batch, flushed, w) && Pending(rules, batch, count) && IsTaken(rules, p.taken, w)
    && p.errors == stats.errorCount && p.skipped == stats.skipped && p.asked == stats.asked && p.strategy == strategy
    && stats.processedKeys + count == processed0 + |p.taken|
  }

  method HeightStep(rules: Rules, env: TxEnv, batchSize: int, target: Target, stats: Stats, k: Bytes,
      strategy: Strategy, batch: Db, count: nat, ghost t0: Db, ghost p: TxPlan, ghost processed0: nat,
      ghost flushed: set<Bytes>, ghost w: set<Bytes>)
    returns (ok: bool, next: Strategy, r: Db, n: nat, taken: bool, ghost now: set<Bytes>, ghost all: set<Bytes>)
    requires k in env.source && k !in p.taken
    requires HeightState(rules, env, t0, p, target, stats, processed0, batch, count, strategy, flushed, w)
    modifies target, stats
    ensures ok ==> TxPlanKey(rules, env, t0, p, k).taken == if taken then p.taken + [k] else p.taken
    ensures ok ==> HeightState(rules, env, t0, TxPlanKey(rules, env, t0, p, k), target, stats, processed0, r, n, next,
            now, all)
    ensures !ok ==> target.data == old(target.data) && target.failsFrom.Some?
    ensures rules.dryRun ==> target.data == old(target.data)
  {
    TxPlanShift(rules, env, t0, p, k);
    ok, n, now := true, count, flushed;
    next, r, taken := TakeKey(rules, env, target, stats, k, strategy, batch, t0, flushed, w);
    all := AddIf(w, taken && !rules.dryRun, k);
    if taken {
      n := n + 1;
      if n >= batchSize {
        ok, r, now := FlushTx(rules, env, target, stats, r, n, t0, flushed, all);
        n := 0;
      }
    }
  }

  lemma CollectNext(env: TxEnv, taken: seq<Bytes>, k: Bytes)
    requires (forall x :: x in taken ==> x in env.source) && k in env.source
    ensures forall x :: x in taken + [k] ==> x in env.source
    ensures Hashes(env.source, taken + [k]) == Hashes(env.source, taken) + if env.source[k] == [] then [] else
            [env.source[k]]
    ensures EthInfos(env, taken + [k]) == var e := EthInfo(env, k); if e.None? then EthInfos(env, taken) else
            EthInfos(env, taken)[e.value.0 := e.value.1]
  {
    var more := taken + [k];
    assert more[..|taken|] == taken;
    assert forall i :: 0 <= i < |taken| ==> more[i] == taken[i];
    var es, es' := seq(|taken|, i requires 0 <= i < |taken| => EthInfo(env, taken[i])),
        seq(|more|, i requires 0 <= i < |more| => EthInfo(env, more[i]));
    assert es' == es + [EthInfo(env, k)];
    assert es'[..|taken|] == es;
  }

  ghost predicate TxScannable(source: Db, ks: seq<Bytes>) { Ascending(ks) && forall k :: k in ks ==> k in source }

  /** The next scanned key is not taken yet, and all taken keys are in the source. */
  lemma NotTakenYet(rules: Rules, env: TxEnv, t0: Db, p0: TxPlan, ks: seq<Bytes>, i: nat)
    requires TxScannable(env.source, ks) && i <= |ks| && p0.taken == []
    ensures var p := TxPlanKeys(rules, env, t0, p0, ks[..i]);
            (forall x :: x in p.taken ==> x in env.source) && (i < |ks| ==> ks[i] !in p.taken)
    ensures i < |ks| ==>
            TxPlanKeys(rules, env, t0, p0, ks[..i + 1]) ==
            TxPlanKey(rules, env, t0, TxPlanKeys(rules, env, t0, p0, ks[..i]), ks[i])
  {
    TakenScanned(rules, env, t0, p0, ks[..i]);
    if i < |ks| {
      AscendingFresh(ks, i);
      assert ks[..i + 1][..i] == ks[..i];
    }
  }

  /** patchTxHeightKeyAndCollect after its write: what a taken key adds to the collections. */
  method Collect(env: TxEnv, k: Bytes, taken: bool, hs: seq<Bytes>, infos: TxInfos, ghost before: seq<Bytes>,
      ghost after: seq<Bytes>)
    returns (hs': seq<Bytes>, infos': TxInfos)
    requires k in env.source && (forall x :: x in before ==> x in env.source) &&
            after == if taken then before + [k] else before
    requires hs == Hashes(env.source, before) && infos == EthInfos(env, before)
    ensures forall x :: x in after ==> x in env.source
    ensures hs' == Hashes(env.source, after) && infos' == EthInfos(env, after)
  {
    hs', infos' := hs, infos;
    if taken {
      CollectNext(env, before, k);
      if env.source[k] != [] {
        hs' := hs' + [env.source[k]];
        var e := EthInfo(env, k);
        if e.Some? { infos' := infos'[e.value.0 := e.value.1]; }
      }
    }
  }

  /** patchTxHeightKeys: the plan of phase 1, and what it hands to the later phases. */
  method PatchTxHeightKeys(rules: Rules, env: TxEnv, batchSize: int, target: Target, stats: Stats, it: Iter,
      ghost p0: TxPlan)
    returns (ok: bool, hs: seq<Bytes>, infos: TxInfos, strategy: Strategy, ghost w: set<Bytes>)
    requires TxScannable(env.source, it.keys)
    requires p0 == TxPlan([], stats.errorCount, stats.skipped, rules.strategy, stats.asked)
    modifies target, stats
    ensures OnlySourceValues(env.source, old(target.data), target.data)
    ensures !ok ==> it.error || target.failsFrom.Some?
    ensures ok ==>
      var p := TxPlanKeys(rules, env, old(target.data), p0, it.keys);
      && (forall k :: k in p.taken ==> k in env.source)
      && hs == Hashes(env.source, p.taken) && infos == EthInfos(env, p.taken) && strategy == p.strategy
      && p.errors == stats.errorCount && p.skipped == stats.skipped && p.asked == stats.asked
      && stats.processedKeys == old(stats.processedKeys) + |p.taken|
      && IsTaken(rules, p.taken, w) && Clean(env, old(target.data), target.data, w)
    ensures rules.dryRun ==> target.data == old(target.data)
  {
    var ks := it.keys;
    ghost var t0, processed0 := target.data, stats.processedKeys;
    var i, batch: Db, count: nat := 0, map[], 0;
    hs, infos, strategy := [], map[], rules.strategy;
    w := {};
    ghost var flushed: set<Bytes> := {};
    ghost var p := p0;
    while i < |ks|
      invariant rules.dryRun ==> target.data == old(target.data)
      invariant 0 <= i <= |ks| && p == TxPlanKeys(rules, env, t0, p0, ks[..i])
      invariant HeightState(rules, env, t0, p, target, stats, processed0, batch, count, strategy, flushed, w)
      invariant forall k :: k in p.taken ==> k in env.source
      invariant hs == Hashes(env.source, p.taken) && infos == EthInfos(env, p.taken)
    {
      var k, taken := ks[i], false;
      NotTakenYet(rules, env, t0, p0, ks, i);
      HoldsOnly(env, t0, target.data, batch, flushed, w);
      ok, strategy, batch, count, taken, flushed, w := HeightStep(rules, env, batchSize, target, stats, k, strategy,
          batch, count, t0, p, processed0, flushed, w);
      if !ok { return; }
      ghost var q := TxPlanKey(rules, env, t0, p, k);
      hs, infos := Collect(env, k, taken, hs, infos, p.taken, q.taken);
      p, i := q, i + 1;
    }
    assert ks[..i] == ks;
    ok := FinishPhase(rules, env, target, stats, batch, count, t0, flushed, w);
    ok := ok && !it.error;
  }

  // ---------------------------------------------------------------------------------------
  // The whole run

  function TakenSet(rules: Rules, taken: seq<Bytes>): (w: set<Bytes>) {
    if rules.dryRun then {} else set k | k in taken
  }

  /** What a run writes, as a set of keys. */
  ghost function AllWrites(rules: Rules, env: TxEnv, t0: Db, p: TxPlan): (w: set<Bytes>)
    requires forall k :: k in p.taken ==> k in env.source
  {
    var infos := EthInfos(env, p.taken);
    HashWrites(rules, env, t0, p.strategy, TakenSet(rules, p.taken), Hashes(env.source, p.taken))
      + EventWrites(rules, env, t0, p.strategy, infos, infos.Keys)
  }

  /**
   `c` is what a run should count. Turns and errors are exact. How many turns pass their key over
   is exact but for the unsure ones of phase 2, the second turns of a hash that the run itself
   writes; a batch size of one finds all of those present, and one above the number of hashes none.
   */
  ghost predicate LaterMeets(j: Job, batchSize: int, w0: set<Bytes>, hs: seq<Bytes>, infos: TxInfos, b: Counts,
      c: Counts) {
    var e := Add(ExpectHashes(j, w0, hs), ExpectEvents(j, WritesOf(j, w0, hs), infos));
    && c.copied + c.failed + c.passed == b.copied + b.failed + b.passed + e.turns
    && c.failed == b.failed + e.failed && c.passed >= b.passed + e.sure
    && (Disjoint(j.env, infos) ==>
          Meets(b, c, e) && (batchSize <= 1 ==> AllFound(b, c, e)) && (batchSize > |hs| ==> NoneFound(b, c, e)))
  }

  /** The counters of a whole run, from the plan of phase 1 on. */
  ghost predicate RunMeets(j: Job, batchSize: int, p: TxPlan, processed0: nat, c: Counts)
    requires forall k :: k in p.taken ==> k in j.env.source
  {
    LaterMeets(j, batchSize, TakenSet(j.rules, p.taken), Hashes(j.env.source, p.taken), EthInfos(j.env, p.taken),
        Counts(processed0 + |p.taken|, p.errors, p.skipped), c)
  }

  lemma LaterAdds(j: Job, batchSize: int, w0: set<Bytes>, hs: seq<Bytes>, infos: TxInfos, b: Counts, m: Counts,
      c: Counts)
    requires HashMeets(j, batchSize, w0, hs, b, m)
    requires EventMeets(j, WritesOf(j, w0, hs), infos, m, c)
    ensures LaterMeets(j, batchSize, w0, hs, infos, b, c)
  {
    var e, f := ExpectHashes(j, w0, hs), ExpectEvents(j, WritesOf(j, w0, hs), infos);
    if Disjoint(j.env, infos) { MeetsAdd(b, m, c, e, f); }
  }

  lemma NoEvents(j: Job, w0: set<Bytes>, infos: TxInfos, c: Counts)
    requires infos == map[]
    ensures EventMeets(j, w0, infos, c, c)
    ensures EventWrites(j.rules, j.env, j.t0, j.strategy, infos, infos.Keys) == {}
  {
    NothingTallied(KeysOf(j.env, infos), Unopened(j.env, infos));
    NothingTallied(FaultsOf(j, w0, infos), Unopened(j.env, infos));
    NothingTallied(SureOf(j, w0, infos), NEVER);
  }

  lemma NothingTallied(of: Bytes -> set<Bytes>, fails: Bytes -> bool)
    ensures Tally({}, of, fails) == 0
  {
    assert Pairs({}, of) == {} && Failing({}, fails) == {};
  }

  /** What phase 2 should count, for every batch size. */
  predicate HashMeets(j: Job, batchSize: int, w0: set<Bytes>, hs: seq<Bytes>, b: Counts, c: Counts) {
    var e := ExpectHashes(j, w0, hs);
    Meets(b, c, e) && (batchSize <= 1 ==> AllFound(b, c, e)) && (batchSize > |hs| ==> NoneFound(b, c, e))
  }

  /** Phase 2, left out when there are no hashes. */
  method HashPhase(rules: Rules, env: TxEnv, batchSize: int, target: Target, stats: Stats, hs: seq<Bytes>,
      strategy: Strategy, ghost t0: Db, ghost w0: set<Bytes>)
    returns (ok: bool)
    requires Clean(env, t0, target.data, w0)
    modifies target, stats
    ensures OnlySourceValues(env.source, t0, target.data)
    ensures ok ==> Clean(env, t0, target.data, WritesOf(Job(rules, env, t0, strategy), w0, hs))
    ensures ok ==> stats.asked == old(stats.asked)
    ensures ok ==> HashMeets(Job(rules, env, t0, strategy), batchSize, w0, hs, old(Tot(stats, 0)), Tot(stats, 0))
    ensures NoSkips(rules, strategy) ==> stats.skipped == old(stats.skipped)
    ensures !ok ==> target.failsFrom.Some?
    ensures rules.dryRun ==> target.data == old(target.data)
  {
    ok := true;
    HoldsOnly(env, t0, target.data, map[], w0, w0);
    if |hs| > 0 { ok := PatchTxHashKeys(rules, env, batchSize, target, stats, hs, strategy, t0, w0); }
  }

  /** Phase 3, left out when there are no Ethereum transactions. */
  method EventPhase(rules: Rules, env: TxEnv, batchSize: int, target: Target, stats: Stats, infos: TxInfos,
      strategy: Strategy, ghost t0: Db, ghost w0: set<Bytes>)
    returns (ok: bool)
    requires Scans(env) && Clean(env, t0, target.data, w0)
    modifies target, stats
    ensures OnlySourceValues(env.source, t0, target.data)
    ensures ok ==> Clean(env, t0, target.data, w0 + EventWrites(rules, env, t0, strategy, infos, infos.Keys))
    ensures ok ==> stats.asked == old(stats.asked)
    ensures ok ==> EventMeets(Job(rules, env, t0, strategy), w0, infos, old(Tot(stats, 0)), Tot(stats, 0))
    ensures NoSkips(rules, strategy) ==> stats.skipped == old(stats.skipped)
    ensures !ok ==> target.failsFrom.Some? || exists prefix :: env.scanFails(prefix)
    ensures rules.dryRun ==> target.data == old(target.data)
  {
    ok := true;
    if |infos| > 0 {
      ok := PatchEthereumEventKeys(rules, env, batchSize, target, stats, infos, strategy, t0, w0);
    } else {
      HoldsOnly(env, t0, target.data, map[], w0, w0);
      NoEvents(Job(rules, env, t0, strategy), w0, infos, Tot(stats, 0));
      assert w0 + {} == w0;
    }
  }

  method LaterPhases(rules: Rules, env: TxEnv, batchSize: int, target: Target, stats: Stats, hs: seq<Bytes>,
      infos: TxInfos, strategy: Strategy, ghost t0: Db, ghost w0: set<Bytes>)
    returns (ok: bool)
    requires Scans(env) && Clean(env, t0, target.data, w0)
    modifies target, stats
    ensures OnlySourceValues(env.source, t0, target.data)
    ensures ok ==>
            Clean(env, t0, target.data,
                HashWrites(rules, env, t0, strategy, w0, hs) + EventWrites(rules, env, t0, strategy, infos, infos.Keys))
    ensures ok ==> stats.asked == old(stats.asked)
    ensures ok ==> LaterMeets(Job(rules, env, t0, strategy), batchSize, w0, hs, infos, old(Tot(stats, 0)),
            Tot(stats, 0))
    ensures NoSkips(rules, strategy) ==> stats.skipped == old(stats.skipped)
    ensures !ok ==> target.failsFrom.Some? || exists prefix :: env.scanFails(prefix)
    ensures rules.dryRun ==> target.data == old(target.data)
  {
    ghost var b, j := Tot(stats, 0), Job(rules, env, t0, strategy);
    ok := HashPhase(rules, env, batchSize, target, stats, hs, strategy, t0, w0);
    if !ok { return; }
    ghost var m := Tot(stats, 0);
    ok := EventPhase(rules, env, batchSize, target, stats, infos, strategy, t0, WritesOf(j, w0, hs));
    if ok { LaterAdds(j, batchSize, w0, hs, infos, b, m, Tot(stats, 0)); }
  }

  // ---------------------------------------------------------------------------------------
  // When the batch size matters

  // ---------------------------------------------------------------------------------------
  // The expected counts, said of the source and the target

  /** The key is passed over: it can be read, is present, and conflicts are skipped. */
  predicate IsPassed(j: Job, present: bool, k: Bytes) {
    !j.rules.skipConflictChecks && !j.env.getFails(k) && present && j.strategy == SkipAll
  }

  /** The key is an error: it cannot be checked, or it is due and cannot be set. */
  predicate IsFault(j: Job, present: bool, k: Bytes) {
    || (!j.rules.skipConflictChecks && j.env.getFails(k))
    || (!IsPassed(j, present, k) && !j.rules.dryRun && j.env.setFails(k))
  }

  lemma TurnExact(j: Job, present: bool, k: Bytes)
    ensures TurnOf(j, present, k) == if IsFault(j, present, k) then Failed else if IsPassed(j, present, k) then Passed
        else Copied
  {
  }

  ghost function HashTurns(j: Job): (mark: Bytes -> bool) { h => j.env.sourceFails(h) || h in j.env.source }

  ghost function HashFaults(j: Job, w0: set<Bytes>): (mark: Bytes -> bool) {
    h => j.env.sourceFails(h) || (h in j.env.source && IsFault(j, h in j.t0 || h in w0, h))
  }

  ghost function HashPasses(j: Job, w0: set<Bytes>): (mark: Bytes -> bool) {
    h => !j.env.sourceFails(h) && h in j.env.source && IsPassed(j, h in j.t0 || h in w0, h)
  }

  /** Phase 2: each hash that can or cannot be read is one turn, an absent one none; these are errors, these skips. */
  lemma {:induction false} HashCounts(j: Job, w0: set<Bytes>, hs: seq<Bytes>)
    ensures var e := ExpectHashes(j, w0, hs);
            && e.turns == CountMarked(hs, HashTurns(j)) && e.failed == CountMarked(hs, HashFaults(j, w0))
            && e.sure == CountMarked(hs, HashPasses(j, w0))
  {
    if hs != [] {
      var front, h := hs[..|hs| - 1], hs[|hs| - 1];
      HashCounts(j, w0, front);
      TurnExact(j, h in j.t0 || h in w0, h);
    }
  }

  /** Phase 3: the turns of a transaction are the source keys with its prefix; these are errors, these skips. */
  lemma EventCounts(j: Job, w0: set<Bytes>, infos: TxInfos, h: Bytes, k: Bytes)
    ensures var own := h in infos && !j.env.openFails(EventPrefix(h, infos[h])) && k in j.env.source &&
                HasPrefix(k, EventPrefix(h, infos[h]));
            && (k in KeysOf(j.env, infos)(h) <==> own)
            && (k in FaultsOf(j, w0, infos)(h) <==> own && IsFault(j, k in j.t0 || k in w0, k))
            && (k in SureOf(j, w0, infos)(h) <==> own && IsPassed(j, k in j.t0 || k in w0, k))
  {
    TurnExact(j, k in j.t0 || k in w0, k);
  }

  /** The size of the batches shows in the counters if and only if some turn is unsure. */
  lemma SplitExact(b: Counts, small: Counts, large: Counts, any: Counts, e: Expect)
    requires AllFound(b, small, e) && NoneFound(b, large, e) && Meets(b, any, e)
    ensures small.passed == large.passed <==> e.unsure == 0
    ensures e.unsure == 0 ==> any.passed == small.passed == large.passed
  {
  }

  /** A second turn is unsure exactly when skipping and the first turn of the hash was a copy. */
  ghost predicate Again(j: Job, w0: set<Bytes>, hs: seq<Bytes>, i: int) {
    && 0 <= i < |hs| && !SurelyPresent(j, w0, hs[i]) && WantsHash(j.rules, j.env, j.t0, j.strategy, hs[i])
    && !NoSkips(j.rules, j.strategy) && (exists m :: 0 <= m < i && hs[m] == hs[i])
  }

  lemma AgainIsUnsure(j: Job, w0: set<Bytes>, hs: seq<Bytes>, i: nat)
    requires i < |hs|
    ensures ExpectHash(j, w0, WritesOf(j, w0, hs[..i]), hs[i]).unsure == if Again(j, w0, hs, i) then 1 else 0
  {
    HashWritesExact(j.rules, j.env, j.t0, j.strategy, w0, hs[..i], hs[i]);
    if m :| 0 <= m < i && hs[m] == hs[i] { assert hs[..i][m] == hs[i]; }
    if hs[i] in hs[..i] {
      var m :| 0 <= m < i && hs[..i][m] == hs[i];
      assert hs[m] == hs[i];
    }
  }

  ghost predicate NoneAgain(j: Job, w0: set<Bytes>, hs: seq<Bytes>, n: nat) {
    forall i :: 0 <= i < n ==> !Again(j, w0, hs, i)
  }

  lemma UnsureNext(j: Job, w0: set<Bytes>, hs: seq<Bytes>, i: nat)
    requires i < |hs|
    ensures ExpectHashes(j, w0, hs[..i + 1]).unsure ==
            ExpectHashes(j, w0, hs[..i]).unsure + if Again(j, w0, hs, i) then 1 else 0
  {
    HashNext(j, hs, i, w0);
    AgainIsUnsure(j, w0, hs, i);
  }

  lemma NoneAgainNext(j: Job, w0: set<Bytes>, hs: seq<Bytes>, i: nat)
    ensures NoneAgain(j, w0, hs, i + 1) <==> NoneAgain(j, w0, hs, i) && !Again(j, w0, hs, i)
  {
  }

  /** Phase 2 has an unsure turn if and only if a hash that it copies while skipping comes up again. */
  lemma {:induction false} UnsureExact(j: Job, w0: set<Bytes>, hs: seq<Bytes>, n: nat)
    requires n <= |hs|
    ensures ExpectHashes(j, w0, hs[..n]).unsure == 0 <==> NoneAgain(j, w0, hs, n)
  {
    if n > 0 {
      UnsureExact(j, w0, hs, n - 1);
      UnsureNext(j, w0, hs, n - 1);
      NoneAgainNext(j, w0, hs, n - 1);
    }
  }

  lemma CleanIsOverlay(env: TxEnv, t0: Db, t: Db, w: set<Bytes>)
    requires Clean(env, t0, t, w)
    ensures w <= env.source.Keys && t == Overlay(t0, env.source, w)
  {
    assert w <= env.source.Keys;
    OverlayIs(t0, env.source, w, t);
  }

  /**
   patchTxIndexData: the target becomes the overlay of the source's values on `AllWrites`, for
   every batch size and every order of the Ethereum transactions.
   */
  method PatchTxIndexData(rules: Rules, env: TxEnv, batchSize: int, target: Target, stats: Stats, it: Iter,
      ghost p0: TxPlan)
    returns (ok: bool)
    requires TxScannable(env.source, it.keys) && Scans(env)
    requires p0 == TxPlan([], stats.errorCount, stats.skipped, rules.strategy, stats.asked)
    modifies target, stats
    ensures OnlySourceValues(env.source, old(target.data), target.data)
    ensures ok ==>
      var p := TxPlanKeys(rules, env, old(target.data), p0, it.keys);
      && (forall k :: k in p.taken ==> k in env.source)
      && AllWrites(rules, env, old(target.data), p) <= env.source.Keys
      && target.data == Overlay(old(target.data), env.source, AllWrites(rules, env, old(target.data), p))
      && stats.asked == p.asked
      && RunMeets(Job(rules, env, old(target.data), p.strategy), batchSize, p, old(stats.processedKeys), Tot(stats, 0))
      && (NoSkips(rules, p.strategy) ==> stats.skipped == p.skipped)
    ensures !ok ==> it.error || target.failsFrom.Some? || exists prefix :: env.scanFails(prefix)
    ensures rules.dryRun ==> target.data == old(target.data)
  {
    ghost var t0 := target.data;
    var hs, infos, strategy;
    ghost var w;
    ok, hs, infos, strategy, w := PatchTxHeightKeys(rules, env, batchSize, target, stats, it, p0);
    if !ok { return; }
    ghost var p := TxPlanKeys(rules, env, t0, p0, it.keys);
    assert w == TakenSet(rules, p.taken);
    ok := LaterPhases(rules, env, batchSize, target, stats, hs, infos, strategy, t0, w);
    if ok { CleanIsOverlay(env, t0, target.data, AllWrites(rules, env, t0, p)); }
  }

  /** With a settled strategy: whether phase 1 takes this key. */
  predicate TakesKey(rules: Rules, env: TxEnv, t0: Db, strategy: Strategy, k: Bytes) {
    && Selects(rules.heights, TxIndexHeight(k)) && (rules.dryRun || !env.setFails(k))
    && (rules.skipConflictChecks || (!env.getFails(k) && (strategy != SkipAll || k !in t0)))
  }

  lemma {:induction false} TakenExact(rules: Rules, env: TxEnv, t0: Db, p: TxPlan, ks: seq<Bytes>, x: Bytes)
    requires Settled(rules, p.strategy)
    ensures var r := TxPlanKeys(rules, env, t0, p, ks);
            && r.strategy == p.strategy && r.asked == p.asked
            && (x in r.taken <==> x in p.taken || (x in ks && TakesKey(rules, env, t0, p.strategy, x)))
  {
    if ks != [] {
      var front, k := ks[..|ks| - 1], ks[|ks| - 1];
      TakenExact(rules, env, t0, p, front, x);
      assert ks == front + [k];
      var q := TxPlanKeys(rules, env, t0, p, front);
      assert TxPlanKey(rules, env, t0, q, k).taken == if TakesKey(rules, env, t0, p.strategy, k) then q.taken + [k] else
          q.taken;
    }
  }

  lemma TxAskDecides(rules: Rules, env: TxEnv, asked: nat, later: nat, exists_: bool, k: Bytes, replace: bool)
    requires AnswersAlike(env.answer, replace)
    ensures var a, b := TxDecide(rules, env, Ask, asked, exists_, k),
            TxDecide(rules, env, Standing(replace), later, exists_, k);
            a.write == b.write && (a.strategy == Ask || a.strategy == Standing(replace)) &&
                b.strategy == Standing(replace)
    ensures TxDecide(rules, env, Standing(replace), asked, exists_, k).(asked := 0) ==
            TxDecide(rules, env, Standing(replace), later, exists_, k).(asked := 0)
  {
    assert env.answer(asked) == ReplaceThis || env.answer(asked) == ReplaceRest <==> replace;
  }

  /** Asking a user who always answers alike takes the keys the standing strategy takes. */
  lemma {:induction false} TxAskIsStanding(rules: Rules, env: TxEnv, t0: Db, p: TxPlan, q: TxPlan, ks: seq<Bytes>,
      replace: bool)
    requires AnswersAlike(env.answer, replace) && p.strategy == Ask && q.strategy == Standing(replace) &&
            p.taken == q.taken && p.errors == q.errors
    ensures var a, b := TxPlanKeys(rules, env, t0, p, ks), TxPlanKeys(rules, env, t0, q, ks);
            a.taken == b.taken && a.errors == b.errors && (a.strategy == Ask || a.strategy == Standing(replace)) &&
                b.strategy == Standing(replace)
  {
    if ks != [] {
      var front, k := ks[..|ks| - 1], ks[|ks| - 1];
      TxAskIsStanding(rules, env, t0, p, q, front, replace);
      var a, b := TxPlanKeys(rules, env, t0, p, front), TxPlanKeys(rules, env, t0, q, front);
      TxAskDecides(rules, env, a.asked, b.asked, k in t0, k, replace);
      TxSameWrite(rules, env, t0, a, b, k);
    }
  }

  /** Plans that decide to write alike take alike. */
  lemma TxSameWrite(rules: Rules, env: TxEnv, t0: Db, a: TxPlan, b: TxPlan, k: Bytes)
    requires a.taken == b.taken && a.errors == b.errors
    requires TxDecide(rules, env, a.strategy, a.asked, k in t0, k).write ==
            TxDecide(rules, env, b.strategy, b.asked, k in t0, k).write
    ensures var c, d := TxPlanKey(rules, env, t0, a, k), TxPlanKey(rules, env, t0, b, k);
            && c.taken == d.taken && c.errors == d.errors
            && (c.strategy == a.strategy || c.strategy ==
                TxDecide(rules, env, a.strategy, a.asked, k in t0, k).strategy)
            && (d.strategy == b.strategy || d.strategy ==
                TxDecide(rules, env, b.strategy, b.asked, k in t0, k).strategy)
  {
  }

  /** The hashes are the non-empty values of the taken keys. */
  lemma {:induction false} HashesExact(source: Db, taken: seq<Bytes>, h: Bytes)
    requires forall k :: k in taken ==> k in source
    ensures h in Hashes(source, taken) <==> h != [] && exists k :: k in taken && source[k] == h
  {
    if taken != [] {
      var k, rest := taken[|taken| - 1], taken[..|taken| - 1];
      assert taken == rest + [k];
      HashesExact(source, rest, h);
    }
  }

  ghost function NamesHash(source: Db, h: Bytes): (mark: Bytes -> bool) { k => k in source && source[k] == h }

  /** ... each once for every taken key that names it. */
  lemma {:induction false} HashesCounted(source: Db, taken: seq<Bytes>, h: Bytes)
    requires (forall k :: k in taken ==> k in source) && h != []
    ensures multiset(Hashes(source, taken))[h] == CountMarked(taken, NamesHash(source, h))
  {
    if taken != [] {
      var k, rest := taken[|taken| - 1], taken[..|taken| - 1];
      assert k in taken;
      HashesCounted(source, rest, h);
    }
  }

  ghost predicate IsLast(es: seq<Option<(Bytes, TxInfo)>>, i: int, h: Bytes, info: TxInfo) {
    && 0 <= i < |es| && es[i] == Some((h, info))
    && (forall j :: i < j < |es| ==> es[j].None? || es[j].value.0 != h)
  }

  /** A hash stands for the last entry that has it. */
  lemma {:induction false} LatestExact(es: seq<Option<(Bytes, TxInfo)>>, h: Bytes, info: TxInfo)
    ensures h in Latest(es) && Latest(es)[h] == info <==> exists i :: IsLast(es, i, h, info)
  {
    if es != [] {
      var n, rest := |es| - 1, es[..|es| - 1];
      LatestExact(rest, h, info);
      if es[n].Some? && es[n].value.0 == h {
        if es[n].value.1 == info { assert IsLast(es, n, h, info); }
      } else {
        if i :| IsLast(rest, i, h, info) { assert IsLast(es, i, h, info); }
        if i :| IsLast(es, i, h, info) { assert IsLast(rest, i, h, info); }
      }
    }
  }

  /** The keys of a run: taken in phase 1, named by a taken key, or an event key. */
  lemma AllWritesExact(rules: Rules, env: TxEnv, t0: Db, p: TxPlan, x: Bytes)
    requires forall k :: k in p.taken ==> k in env.source
    ensures x in AllWrites(rules, env, t0, p) <==>
            || (!rules.dryRun && x in p.taken)
            || (x in Hashes(env.source, p.taken) && WantsHash(rules, env, t0, p.strategy, x))
            || (EventKeyOfAny(env, EthInfos(env, p.taken), EthInfos(env, p.taken).Keys, x) &&
                Wants(rules, env, t0, p.strategy, x))
  {
    HashWritesExact(rules, env, t0, p.strategy, TakenSet(rules, p.taken), Hashes(env.source, p.taken), x);
  }

  /** Skipping conflicts keeps every existing key of a tx_index, in all three phases. */
  lemma TxSkipKeepsExisting(rules: Rules, env: TxEnv, t0: Db, p0: TxPlan, ks: seq<Bytes>, x: Bytes)
    requires !rules.skipConflictChecks && p0.strategy == SkipAll && p0.taken == [] && x in t0
    requires forall k :: k in ks ==> k in env.source
    ensures var p := TxPlanKeys(rules, env, t0, p0, ks);
            (forall k :: k in p.taken ==> k in env.source) && x !in AllWrites(rules, env, t0, p)
  {
    var p := TxPlanKeys(rules, env, t0, p0, ks);
    TakenScanned(rules, env, t0, p0, ks);
    TakenExact(rules, env, t0, p0, ks, x);
    AllWritesExact(rules, env, t0, p, x);
  }
}
