/**
 Whole runs of the tx_index patch: exactly which keys a run writes, and how asking the user
 differs from a standing strategy once the later phases are counted in.
 */
module TxIndexRuns {
  import opened Common
  import opened Keys
  import opened HeightFilter
  import opened Patch
  import opened TxKeys
  import opened PatchTxIndex
  import Seqs

  // ---------------------------------------------------------------------------------------
  // Against the whole source

  /** The key is one phase 1 takes: a settled strategy, the height filter, and inside the range. */
  predicate Takes(rules: Rules, env: TxEnv, t0: Db, k: Bytes) {
    k in env.source && TakesKey(rules, env, t0, rules.strategy, k) && |k| > |TX_HEIGHT| && k[|TX_HEIGHT|] < TILDE
  }

  /** `k` is the last key of the source, in byte order, that leads to this Ethereum transaction. */
  ghost predicate LastFor(rules: Rules, env: TxEnv, t0: Db, k: Bytes, h: Bytes, info: TxInfo) {
    && Takes(rules, env, t0, k) && EthInfo(env, k) == Some((h, info))
    && (forall x :: Takes(rules, env, t0, x) && Below(k, x) ==> EthInfo(env, x).None? || EthInfo(env, x).value.0 != h)
  }

  /** The event keys of such a transaction. */
  ghost predicate IsEventOf(rules: Rules, env: TxEnv, t0: Db, k: Bytes, h: Bytes, info: TxInfo, x: Bytes) {
    LastFor(rules, env, t0, k, h, info) && !env.openFails(EventPrefix(h, info)) && HasPrefix(x, EventPrefix(h, info))
  }

  lemma BelowNotBack(a: Bytes, b: Bytes)
    requires Below(a, b)
    ensures !Below(b, a)
  {
    if Below(b, a) {
      BelowTransitive(a, b, a);
      BelowIrreflexive(a);
    }
  }

  lemma {:induction false} TakenAscending(rules: Rules, env: TxEnv, t0: Db, p: TxPlan, ks: seq<Bytes>)
    requires Ascending(ks) && p.taken == []
    ensures Ascending(TxPlanKeys(rules, env, t0, p, ks).taken)
  {
    if ks != [] {
      var front, k := ks[..|ks| - 1], ks[|ks| - 1];
      assert Ascending(front);
      TakenAscending(rules, env, t0, p, front);
      var q := TxPlanKeys(rules, env, t0, p, front);
      TakenScanned(rules, env, t0, p, front);
      TxPlanShift(rules, env, t0, q, k);
      forall i | 0 <= i < |q.taken| ensures Below(q.taken[i], k) {
        assert q.taken[i] in front;
        var j :| 0 <= j < |front| && front[j] == q.taken[i];
        assert ks[j] == front[j];
      }
    }
  }

  /** The iterator of the tx_index range, without an error. */
  ghost predicate TxIter(source: Db, ks: seq<Bytes>) {
    Ascending(ks) && forall k :: k in ks <==> k in source && InRange(k, TxIndexRange())
  }

  lemma TakenIsTakes(rules: Rules, env: TxEnv, t0: Db, p0: TxPlan, ks: seq<Bytes>, x: Bytes)
    requires TxIter(env.source, ks) && Settled(rules, rules.strategy) && p0.strategy == rules.strategy && p0.taken == []
    ensures x in TxPlanKeys(rules, env, t0, p0, ks).taken <==> Takes(rules, env, t0, x)
  {
    TakenExact(rules, env, t0, p0, ks, x);
    if TakesKey(rules, env, t0, rules.strategy, x) { TxIndexRangeExact(x); }
  }

  ghost function Infos(env: TxEnv, taken: seq<Bytes>): (es: seq<Option<(Bytes, TxInfo)>>)
    requires forall k :: k in taken ==> k in env.source
  {
    seq(|taken|, i requires 0 <= i < |taken| => EthInfo(env, taken[i]))
  }

  /** The entry that stands in the Go map is that of the last key in byte order. */
  lemma LastIsGreatest(rules: Rules, env: TxEnv, t0: Db, taken: seq<Bytes>, h: Bytes, info: TxInfo)
    requires Ascending(taken) && (forall k :: k in taken ==> k in env.source)
    requires forall k :: k in taken <==> Takes(rules, env, t0, k)
    ensures h in EthInfos(env, taken) && EthInfos(env, taken)[h] == info <==>
            exists k :: LastFor(rules, env, t0, k, h, info)
  {
    var es := Infos(env, taken);
    LatestExact(es, h, info);
    if i :| IsLast(es, i, h, info) {
      var k := taken[i];
      forall x | Takes(rules, env, t0, x) && Below(k, x) ensures EthInfo(env, x).None? || EthInfo(env, x).value.0 != h {
        var j :| 0 <= j < |taken| && taken[j] == x;
        if j < i { BelowNotBack(taken[j], k); }
        if j == i { BelowIrreflexive(k); }
        assert es[j] == EthInfo(env, x);
      }
      assert LastFor(rules, env, t0, k, h, info);
    }
    if k :| LastFor(rules, env, t0, k, h, info) {
      var i :| 0 <= i < |taken| && taken[i] == k;
      forall j | i < j < |taken| ensures es[j].None? || es[j].value.0 != h {
        assert Below(k, taken[j]) && taken[j] in taken;
      }
      assert IsLast(es, i, h, info);
    }
  }

  lemma EventsExact(rules: Rules, env: TxEnv, t0: Db, taken: seq<Bytes>, x: Bytes)
    requires Ascending(taken) && (forall k :: k in taken ==> k in env.source)
    requires forall k :: k in taken <==> Takes(rules, env, t0, k)
    ensures var infos := EthInfos(env, taken);
            EventKeyOfAny(env, infos, infos.Keys, x) <==> exists k, h, info :: IsEventOf(rules, env, t0, k, h, info, x)
  {
    var infos := EthInfos(env, taken);
    if h :| h in infos.Keys && IsEventKey(env, infos, h, x) {
      LastIsGreatest(rules, env, t0, taken, h, infos[h]);
      var k :| LastFor(rules, env, t0, k, h, infos[h]);
      assert IsEventOf(rules, env, t0, k, h, infos[h], x);
    }
    if k, h, info :| IsEventOf(rules, env, t0, k, h, info, x) {
      LastIsGreatest(rules, env, t0, taken, h, info);
      assert h in infos.Keys && IsEventKey(env, infos, h, x);
    }
  }

  /** Phases 2 and 3 write this source key when they come to it. */
  predicate Copyable(rules: Rules, env: TxEnv, t0: Db, x: Bytes) {
    && !rules.dryRun && x in env.source && !env.setFails(x)
    && (rules.skipConflictChecks || (!env.getFails(x) && (x !in t0 || rules.strategy != SkipAll)))
  }

  /** Which keys phase 1 takes, with nothing left to look up. */
  lemma TakesExact(rules: Rules, env: TxEnv, t0: Db, k: Bytes)
    ensures Takes(rules, env, t0, k) <==>
            && k in env.source && |k| > |TX_HEIGHT| && k[|TX_HEIGHT|] < TILDE
            && TxIndexHeight(k).Some? && IsWithinRange(rules.heights, TxIndexHeight(k).value)
            && (rules.dryRun || !env.setFails(k))
            && (rules.skipConflictChecks || (!env.getFails(k) && (k !in t0 || rules.strategy != SkipAll)))
  {
  }

  /** The Ethereum transaction a key leads to, through the result its value names. */
  lemma EthInfoExact(env: TxEnv, k: Bytes, h: Bytes, info: TxInfo)
    requires k in env.source
    ensures EthInfo(env, k) == Some((h, info)) <==>
            && env.source[k] != [] && !env.sourceFails(env.source[k]) && env.source[k] in env.source
            && env.ethHash(env.source[env.source[k]]) == Some(h) && HeightAndIndex(k) == Some(info)
  {
  }

  /**
   With a settled strategy and an iterator that does not fail, a run writes exactly: the tx.height
   keys of the chosen heights whose height does not start above '~'; the transaction results their
   values name; and the event keys of the Ethereum transactions those results contain, each taken
   at the last key that leads to it. No scan, order or batch appears in the answer.
   */
  lemma TxRunExact(rules: Rules, env: TxEnv, t0: Db, p0: TxPlan, ks: seq<Bytes>, x: Bytes)
    requires TxIter(env.source, ks) && Settled(rules, rules.strategy) && p0.strategy == rules.strategy && p0.taken == []
    ensures var p := TxPlanKeys(rules, env, t0, p0, ks);
            && (forall k :: k in p.taken ==> k in env.source)
            && (x in AllWrites(rules, env, t0, p) <==>
                || (!rules.dryRun && Takes(rules, env, t0, x))
                || (x != [] && !env.sourceFails(x) && Copyable(rules, env, t0, x) &&
                    exists k :: Takes(rules, env, t0, k) && env.source[k] == x)
                || (Copyable(rules, env, t0, x) && exists k, h, info :: IsEventOf(rules, env, t0, k, h, info, x)))
  {
    var p := TxPlanKeys(rules, env, t0, p0, ks);
    forall k ensures k in p.taken <==> Takes(rules, env, t0, k) { TakenIsTakes(rules, env, t0, p0, ks, k); }
    TakenExact(rules, env, t0, p0, ks, x);
    TakenAscending(rules, env, t0, p0, ks);
    AllWritesExact(rules, env, t0, p, x);
    HashesExact(env.source, p.taken, x);
    EventsExact(rules, env, t0, p.taken, x);
  }

  // ---------------------------------------------------------------------------------------
  // Asking

  /** Phases 2 and 3 come to this key and, when asking, write it. */
  ghost predicate Reached(rules: Rules, env: TxEnv, t0: Db, taken: seq<Bytes>, x: Bytes)
    requires forall k :: k in taken ==> k in env.source
  {
    var infos := EthInfos(env, taken);
    || (x in Hashes(env.source, taken) && WantsHash(rules, env, t0, Ask, x))
    || (EventKeyOfAny(env, infos, infos.Keys, x) && Wants(rules, env, t0, Ask, x))
  }

  lemma ReachedExact(rules: Rules, env: TxEnv, t0: Db, p: TxPlan, x: Bytes)
    requires forall k :: k in p.taken ==> k in env.source
    ensures x in AllWrites(rules, env, t0, p) <==>
            || (!rules.dryRun && x in p.taken)
            || (Reached(rules, env, t0, p.taken, x) && (rules.skipConflictChecks || p.strategy != SkipAll || x !in t0))
  {
    AllWritesExact(rules, env, t0, p, x);
  }

  /** A tx.height key that phase 1 would ask about. */
  predicate TxConflicts(rules: Rules, env: TxEnv, t0: Db, k: Bytes) {
    !rules.skipConflictChecks && Selects(rules.heights, TxIndexHeight(k)) && !env.getFails(k) && k in t0
  }

  ghost function Asks(rules: Rules, env: TxEnv, t0: Db): (mark: Bytes -> bool) { k => TxConflicts(rules, env, t0, k) }

  /** The conflicting keys of the source in the range. */
  ghost function ConflictKeys(rules: Rules, env: TxEnv, t0: Db): (r: set<Bytes>) {
    set k | k in env.source && InRange(k, TxIndexRange()) && TxConflicts(rules, env, t0, k)
  }

  /** One of the next `n` answers is to skip all later keys. */
  ghost predicate SaysRest(answer: nat -> Answer, from: nat, n: nat) {
    exists m :: from <= m < from + n && answer(m) == SkipRest
  }

  /** What becomes of a scanned tx.height key; one whose read or prompt fails is lost without a count. */
  datatype TxFate = Unselected | Taken | Faulty | Kept | Lost

  function TxFateOf(rules: Rules, env: TxEnv, t0: Db, strategy: Strategy, from: nat, m: nat, k: Bytes): (f: TxFate) {
    var conflict := !rules.skipConflictChecks && k in t0;
    if !Selects(rules.heights, TxIndexHeight(k)) then Unselected
    else if !rules.skipConflictChecks && env.getFails(k) then Lost
    else if conflict && strategy == Ask && env.answer(from + Deciding(env.answer, from, m)) == InputError then Lost
    else if conflict && !Overwrites(strategy, env.answer, from, m) then Kept
    else if !rules.dryRun && env.setFails(k) then Faulty
    else Taken
  }

  /** The fate of key `i`, conflict number and all. */
  ghost function TxFateAt(rules: Rules, env: TxEnv, t0: Db, p: TxPlan, ks: seq<Bytes>, i: nat): (f: TxFate)
    requires i < |ks|
  {
    TxFateOf(rules, env, t0, p.strategy, p.asked, CountMarked(ks[..i], Asks(rules, env, t0)), ks[i])
  }

  ghost function TxFates(rules: Rules, env: TxEnv, t0: Db, p: TxPlan, ks: seq<Bytes>): (fs: seq<TxFate>) {
    seq(|ks|, i requires 0 <= i < |ks| => TxFateAt(rules, env, t0, p, ks, i))
  }

  lemma TxFatesNext(rules: Rules, env: TxEnv, t0: Db, p: TxPlan, ks: seq<Bytes>, fs: seq<TxFate>)
    requires ks != [] && fs == TxFates(rules, env, t0, p, ks)
    ensures var front, k := ks[..|ks| - 1], ks[|ks| - 1];
            var n := CountMarked(front, Asks(rules, env, t0));
            && fs[..|fs| - 1] == TxFates(rules, env, t0, p, front)
            && fs[|fs| - 1] == TxFateOf(rules, env, t0, p.strategy, p.asked, n, k)
  {
    var front := ks[..|ks| - 1];
    forall i | 0 <= i < |front| ensures front[..i] == ks[..i] {}
  }

  lemma TxDecideConflict(rules: Rules, env: TxEnv, t0: Db, strategy: Strategy, from: nat, n: nat, k: Bytes)
    requires TxConflicts(rules, env, t0, k)
    ensures var d := TxDecide(rules, env, StrategyAfter(strategy, env.answer, from, n),
                AskedAfter(strategy, env.answer, from, n), true, k);
            var lost := strategy == Ask && env.answer(from + Deciding(env.answer, from, n)) == InputError;
            && d.strategy == StrategyAfter(strategy, env.answer, from, n + 1)
            && d.asked == AskedAfter(strategy, env.answer, from, n + 1)
            && (d.write <==> !lost && Overwrites(strategy, env.answer, from, n))
            && (d.skipped <==> !lost && !Overwrites(strategy, env.answer, from, n))
  {
    AfterNext(strategy, env.answer, from, n);
  }

  lemma TxDecideStep(rules: Rules, env: TxEnv, t0: Db, strategy: Strategy, from: nat, n: nat, k: Bytes)
    requires Selects(rules.heights, TxIndexHeight(k))
    ensures var d := TxDecide(rules, env, StrategyAfter(strategy, env.answer, from, n),
                AskedAfter(strategy, env.answer, from, n), k in t0, k);
            var next := if TxConflicts(rules, env, t0, k) then n + 1 else n;
            var f := TxFateOf(rules, env, t0, strategy, from, n, k);
            && d.strategy == StrategyAfter(strategy, env.answer, from, next)
            && d.asked == AskedAfter(strategy, env.answer, from, next)
            && (d.write <==> f == Taken || f == Faulty) && (d.skipped <==> f == Kept)
  {
    if TxConflicts(rules, env, t0, k) { TxDecideConflict(rules, env, t0, strategy, from, n, k); }
  }

  /** `r` is what the fates `fs`, with `n` conflicts among them, make of `p`. */
  ghost predicate TxFollows(env: TxEnv, p: TxPlan, r: TxPlan, fs: seq<TxFate>, n: nat) {
    && r.errors == p.errors + multiset(fs)[Faulty] && r.skipped == p.skipped + multiset(fs)[Kept]
    && r.asked == AskedAfter(p.strategy, env.answer, p.asked, n)
    && r.strategy == StrategyAfter(p.strategy, env.answer, p.asked, n)
  }

  lemma TxPlanStep(rules: Rules, env: TxEnv, t0: Db, p: TxPlan, q: TxPlan, fs: seq<TxFate>, n: nat, k: Bytes)
    requires fs != [] && TxFollows(env, p, q, fs[..|fs| - 1], n)
    requires fs[|fs| - 1] == TxFateOf(rules, env, t0, p.strategy, p.asked, n, k)
    ensures var r := TxPlanKey(rules, env, t0, q, k);
            && r.taken == q.taken + (if fs[|fs| - 1] == Taken then [k] else [])
            && TxFollows(env, p, r, fs, if TxConflicts(rules, env, t0, k) then n + 1 else n)
  {
    if Selects(rules.heights, TxIndexHeight(k)) { TxDecideStep(rules, env, t0, p.strategy, p.asked, n, k); }
    Seqs.CountLast(fs, Faulty);
    Seqs.CountLast(fs, Kept);
  }

  /**
   Phase 1 decides every key as it should, for any answers: conflict `m` by answer `m`, or by the
   first answer for all before it. What it counts, asks and hands over follows.
   */
  lemma {:induction false} TxPlanExact(rules: Rules, env: TxEnv, t0: Db, p: TxPlan, ks: seq<Bytes>, fs: seq<TxFate>)
    requires fs == TxFates(rules, env, t0, p, ks)
    ensures TxFollows(env, p, TxPlanKeys(rules, env, t0, p, ks), fs, CountMarked(ks, Asks(rules, env, t0)))
  {
    if ks != [] {
      var front, k := ks[..|ks| - 1], ks[|ks| - 1];
      var q, n := TxPlanKeys(rules, env, t0, p, front), CountMarked(front, Asks(rules, env, t0));
      TxFatesNext(rules, env, t0, p, ks, fs);
      TxPlanExact(rules, env, t0, p, front, fs[..|fs| - 1]);
      TxPlanStep(rules, env, t0, p, q, fs, n, k);
      CountMarkedLast(ks, Asks(rules, env, t0));
      assert TxPlanKeys(rules, env, t0, p, ks) == TxPlanKey(rules, env, t0, q, k);
    }
  }

  /** ... and it takes, in order, exactly the keys decided so. */
  lemma {:induction false} TxTakenExact(rules: Rules, env: TxEnv, t0: Db, p: TxPlan, ks: seq<Bytes>, fs: seq<TxFate>,
      keep: nat -> bool)
    requires fs == TxFates(rules, env, t0, p, ks) && forall i: nat :: i < |fs| ==> (keep(i) <==> fs[i] == Taken)
    ensures TxPlanKeys(rules, env, t0, p, ks).taken == p.taken + Seqs.Picked(ks, keep)
  {
    if ks != [] {
      var front, k := ks[..|ks| - 1], ks[|ks| - 1];
      TxFatesNext(rules, env, t0, p, ks, fs);
      TxTakenExact(rules, env, t0, p, front, fs[..|fs| - 1], keep);
      TxPlanExact(rules, env, t0, p, front, fs[..|fs| - 1]);
      TxPlanStep(rules, env, t0, p, TxPlanKeys(rules, env, t0, p, front), fs,
          CountMarked(front, Asks(rules, env, t0)), k);
    }
  }

  /** What phase 1 hands over when the user never replaces: skip, exactly if one conflict was answered with "all". */
  lemma {:induction false} HandsOver(rules: Rules, env: TxEnv, t0: Db, p: TxPlan, ks: seq<Bytes>)
    requires AnswersAlike(env.answer, false) && p.strategy == Ask
    ensures var r, n := TxPlanKeys(rules, env, t0, p, ks), CountMarked(ks, Asks(rules, env, t0));
            && (r.strategy == if SaysRest(env.answer, p.asked, n) then SkipAll else Ask)
            && (r.strategy == Ask ==> r.asked == p.asked + n)
  {
    if ks != [] {
      var front, k := ks[..|ks| - 1], ks[|ks| - 1];
      HandsOver(rules, env, t0, p, front);
      AskOnce(rules, env, t0, TxPlanKeys(rules, env, t0, p, front), k);
      if TxConflicts(rules, env, t0, k) {
        SaysRestNext(env.answer, p.asked, CountMarked(front, Asks(rules, env, t0)));
      }
    }
  }

  lemma SaysRestNext(answer: nat -> Answer, from: nat, n: nat)
    ensures SaysRest(answer, from, n + 1) <==> SaysRest(answer, from, n) || answer(from + n) == SkipRest
  {
  }

  lemma AskOnce(rules: Rules, env: TxEnv, t0: Db, q: TxPlan, k: Bytes)
    requires AnswersAlike(env.answer, false) && (q.strategy == Ask || q.strategy == SkipAll)
    ensures var r := TxPlanKey(rules, env, t0, q, k);
            if q.strategy == Ask && TxConflicts(rules, env, t0, k)
            then r.asked == q.asked + 1 && r.strategy == if env.answer(q.asked) == SkipRest then SkipAll else Ask
            else r.asked == q.asked && r.strategy == q.strategy
  {
    assert !(env.answer(q.asked) == ReplaceThis || env.answer(q.asked) == ReplaceRest);
  }

  /** Against the plan of phase 1: asking differs only on existing keys that the later phases come to. */
  lemma AskPlanned(rules: Rules, env: TxEnv, t0: Db, p0: TxPlan, ks: seq<Bytes>, replace: bool)
    requires AnswersAlike(env.answer, replace) && p0.strategy == Ask && p0.taken == [] &&
            (forall k :: k in ks ==> k in env.source)
    ensures var a, b := TxPlanKeys(rules, env, t0, p0, ks),
            TxPlanKeys(rules, env, t0, p0.(strategy := Standing(replace)), ks);
            && (forall k :: k in a.taken ==> k in env.source) && a.taken == b.taken
            && (AllWrites(rules, env, t0, a) == AllWrites(rules, env, t0, b) <==>
                replace || rules.skipConflictChecks || a.strategy == SkipAll ||
                forall x :: x in t0 ==> !Reached(rules, env, t0, a.taken, x))
  {
    var q0 := p0.(strategy := Standing(replace));
    TxAskIsStanding(rules, env, t0, p0, q0, ks, replace);
    TakenScanned(rules, env, t0, p0, ks);
    var a, b := TxPlanKeys(rules, env, t0, p0, ks), TxPlanKeys(rules, env, t0, q0, ks);
    var wa, wb := AllWrites(rules, env, t0, a), AllWrites(rules, env, t0, b);
    forall x ensures x in wb ==> x in wa {
      ReachedExact(rules, env, t0, a, x);
      ReachedExact(rules, env, t0, b, x);
    }
    forall x
      ensures x in wa && x !in wb <==>
              !replace && !rules.skipConflictChecks && a.strategy != SkipAll && x in t0 &&
                  Reached(rules, env, t0, a.taken, x)
    {
      ReachedExact(rules, env, t0, a, x);
      ReachedExact(rules, env, t0, b, x);
      if !replace { TakenExact(rules, env, t0, q0, ks, x); }
    }
    assert wa == wb <==> forall x :: !(x in wa && x !in wb);
  }

  /** The later phases of a run that takes what `rules` takes come to this key and, when asking, write it. */
  ghost predicate Comes(rules: Rules, env: TxEnv, t0: Db, x: Bytes) {
    || (x != [] && WantsHash(rules, env, t0, Ask, x) && exists k :: Takes(rules, env, t0, k) && env.source[k] == x)
    || (Wants(rules, env, t0, Ask, x) && exists k, h, info :: IsEventOf(rules, env, t0, k, h, info, x))
  }

  lemma ReachedIsComes(rules: Rules, env: TxEnv, t0: Db, p0: TxPlan, ks: seq<Bytes>, x: Bytes)
    requires TxIter(env.source, ks) && Settled(rules, rules.strategy) && p0.strategy == rules.strategy && p0.taken == []
    ensures var taken := TxPlanKeys(rules, env, t0, p0, ks).taken;
            (forall k :: k in taken ==> k in env.source) &&
                (Reached(rules, env, t0, taken, x) <==> Comes(rules, env, t0, x))
  {
    var taken := TxPlanKeys(rules, env, t0, p0, ks).taken;
    forall k ensures k in taken <==> Takes(rules, env, t0, k) { TakenIsTakes(rules, env, t0, p0, ks, k); }
    TakenAscending(rules, env, t0, p0, ks);
    HashesExact(env.source, taken, x);
    EventsExact(rules, env, t0, taken, x);
  }

  /** The configured strategy only says where a plan starts. */
  lemma {:induction false} PlanIgnoresStrategy(rules: Rules, env: TxEnv, t0: Db, p: TxPlan, ks: seq<Bytes>, s: Strategy)
    ensures TxPlanKeys(rules, env, t0, p, ks) == TxPlanKeys(rules.(strategy := s), env, t0, p, ks)
  {
    if ks != [] { PlanIgnoresStrategy(rules, env, t0, p, ks[..|ks| - 1], s); }
  }

  lemma HandsOverWhole(rules: Rules, env: TxEnv, t0: Db, p: TxPlan, ks: seq<Bytes>)
    requires TxIter(env.source, ks) && AnswersAlike(env.answer, false) && p.strategy == Ask
    ensures TxPlanKeys(rules, env, t0, p, ks).strategy == SkipAll <==>
            SaysRest(env.answer, p.asked, |ConflictKeys(rules, env, t0)|)
  {
    HandsOver(rules, env, t0, p, ks);
    CountedIs(ks, Asks(rules, env, t0), ConflictKeys(rules, env, t0));
  }

  /** The later phases come to `x` after a phase 1 that skips conflicts. */
  ghost predicate ReachedWhenSkipping(rules: Rules, env: TxEnv, t0: Db, p0: TxPlan, ks: seq<Bytes>, x: Bytes) {
    var taken := TxPlanKeys(rules, env, t0, p0.(strategy := SkipAll), ks).taken;
    (forall k :: k in taken ==> k in env.source) && Reached(rules, env, t0, taken, x)
  }

  lemma SkippingComes(rules: Rules, env: TxEnv, t0: Db, p0: TxPlan, ks: seq<Bytes>, x: Bytes)
    requires TxIter(env.source, ks) && p0.taken == []
    ensures ReachedWhenSkipping(rules, env, t0, p0, ks, x) <==> Comes(rules.(strategy := SkipAll), env, t0, x)
  {
    var q0 := p0.(strategy := SkipAll);
    PlanIgnoresStrategy(rules, env, t0, q0, ks, SkipAll);
    ReachedIsComes(rules.(strategy := SkipAll), env, t0, q0, ks, x);
  }

  /**
   A user who always replaces gets the run of the replace strategy. A user who never does gets the
   run of the skip strategy if and only if conflicts are not checked at all, or one of the answers,
   of which there are as many as conflicting tx.height keys, is to skip all later keys, or the later
   phases come to no existing key: while the strategy is still to ask, those phases replace.
   */
  lemma AskWholeRun(rules: Rules, env: TxEnv, t0: Db, p0: TxPlan, ks: seq<Bytes>, replace: bool)
    requires TxIter(env.source, ks) && AnswersAlike(env.answer, replace) && p0.strategy == Ask && p0.taken == []
    ensures var a, b := TxPlanKeys(rules, env, t0, p0, ks),
            TxPlanKeys(rules, env, t0, p0.(strategy := Standing(replace)), ks);
            && (forall k :: k in a.taken ==> k in env.source) && a.taken == b.taken
            && (AllWrites(rules, env, t0, a) == AllWrites(rules, env, t0, b) <==>
                replace || rules.skipConflictChecks ||
                SaysRest(env.answer, p0.asked, |ConflictKeys(rules, env, t0)|) ||
                forall x :: x in t0 ==> !Comes(rules.(strategy := SkipAll), env, t0, x))
  {
    AskPlanned(rules, env, t0, p0, ks, replace);
    if !replace {
      HandsOverWhole(rules, env, t0, p0, ks);
      forall x ensures ReachedWhenSkipping(rules, env, t0, p0, ks, x) <==>
          Comes(rules.(strategy := SkipAll), env, t0, x) {
        SkippingComes(rules, env, t0, p0, ks, x);
      }
    }
  }

  /** A chosen key the target lacks is taken without a question. */
  lemma TakesNewKey(rules: Rules, env: TxEnv, t0: Db, p: TxPlan, k: Bytes)
    requires p.taken == [] && k !in t0 && Selects(rules.heights, TxIndexHeight(k)) && !env.getFails(k) &&
            !env.setFails(k)
    ensures TxPlanKeys(rules, env, t0, p, [k]) == p.(taken := [k])
  {
    var none: seq<Bytes> := [];
    assert [k][..0] == none && TxPlanKeys(rules, env, t0, p, none) == p && none + [k] == [k];
  }

  lemma {:induction false} ResultReached(rules: Rules, env: TxEnv, t0: Db, k: Bytes, h: Bytes)
    requires k in env.source && env.source[k] == h && h != [] && WantsHash(rules, env, t0, Ask, h)
    ensures Reached(rules, env, t0, [k], h)
  {
    HashesExact(env.source, [k], h);
  }

  /**
   Such a run: nothing conflicts in phase 1, so the user is never asked, and the transaction
   result that the target already has is replaced. The skip strategy keeps it.
   */
  lemma {:induction false} AskReplacesResult(rules: Rules, env: TxEnv, t0: Db, p0: TxPlan, k: Bytes, h: Bytes)
    requires !rules.skipConflictChecks && !rules.dryRun && p0.strategy == Ask && p0.taken == []
    requires k in env.source && env.source[k] == h && h != [] && h in env.source && h in t0 && k !in t0
    requires Selects(rules.heights, TxIndexHeight(k)) && !env.getFails(k) && !env.setFails(k)
    requires !env.sourceFails(h) && !env.getFails(h) && !env.setFails(h)
    ensures var a, b := TxPlanKeys(rules, env, t0, p0, [k]), TxPlanKeys(rules, env, t0, p0.(strategy := SkipAll), [k]);
            && a.taken == b.taken == [k] && a.asked == p0.asked
            && h in AllWrites(rules, env, t0, a) && h !in AllWrites(rules, env, t0, b)
  {
    TakesNewKey(rules, env, t0, p0, k);
    TakesNewKey(rules, env, t0, p0.(strategy := SkipAll), k);
    ResultReached(rules, env, t0, k, h);
    ReachedExact(rules, env, t0, p0.(taken := [k]), h);
    ReachedExact(rules, env, t0, p0.(taken := [k], strategy := SkipAll), h);
  }

  // ---------------------------------------------------------------------------------------
  // The counters

  lemma LaterSplit(j: Job, w0: set<Bytes>, hs: seq<Bytes>, infos: TxInfos, b: Counts, s: int, l: int, n: int,
      small: Counts, large: Counts, any: Counts)
    requires Disjoint(j.env, infos) && s <= 1 && l > |hs| && LaterMeets(j, s, w0, hs, infos, b, small)
    requires LaterMeets(j, l, w0, hs, infos, b, large) && LaterMeets(j, n, w0, hs, infos, b, any)
    ensures small.passed == large.passed <==> ExpectHashes(j, w0, hs).unsure == 0
    ensures ExpectHashes(j, w0, hs).unsure == 0 ==> any == small == large
  {
    SplitExact(b, small, large, any, Add(ExpectHashes(j, w0, hs), ExpectEvents(j, WritesOf(j, w0, hs), infos)));
  }

  /**
   When no hash contains '/', the batch size shows in the counters of a run if and only if phase 2
   skips and a hash that it copies comes up again: small batches then find the first copy and pass
   over the second. Otherwise every batch size gives the same counters.
   */
  lemma {:induction false} BatchSizeShows(j: Job, p: TxPlan, processed0: nat, s: int, l: int, n: int, small: Counts,
      large: Counts, any: Counts)
    requires forall k :: k in p.taken ==> k in j.env.source
    requires forall h :: h in EthInfos(j.env, p.taken) ==> Free(h, SLASH)
    requires s <= 1 && l > |Hashes(j.env.source, p.taken)|
    requires RunMeets(j, s, p, processed0, small) && RunMeets(j, l, p, processed0, large)
    requires RunMeets(j, n, p, processed0, any)
    ensures var hs, w0 := Hashes(j.env.source, p.taken), TakenSet(j.rules, p.taken);
            && (small.passed == large.passed <==> NoneAgain(j, w0, hs, |hs|))
            && (NoneAgain(j, w0, hs, |hs|) ==> any == small == large)
  {
    var hs, w0, infos := Hashes(j.env.source, p.taken), TakenSet(j.rules, p.taken), EthInfos(j.env, p.taken);
    HashesDisjoint(j.env, infos);
    LaterSplit(j, w0, hs, infos, Counts(processed0 + |p.taken|, p.errors, p.skipped), s, l, n, small, large, any);
    UnsureExact(j, w0, hs, |hs|);
    assert hs[..|hs|] == hs;
  }
}
