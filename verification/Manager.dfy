/**
 The app-side mempool manager: senders staged by consensus, and the recheck cycle that evicts,
 selects, caps and re-validates pooled transactions.

 A cycle is described on values first (`Evicted`, `Survivors`, `Ordered`, `Batch`, `Carry`,
 `NewArrival`), the class `Manager` is proved to compute exactly that, and the lemmas at the
 end speak about every run of cycles.
 */
module Manager {
  import opened Common
  import opened Seqs

  type Sender = string

  /**
   A pooled transaction. `id` is its identity as a Go value. `signers` is empty when the extraction
   adapter fails. `timeoutHeight` is 0 when the transaction declares none; `timeoutAt` is None
   when it declares no timeout timestamp or the zero time.
   */
  datatype Tx = Tx(id: nat, signers: seq<Sender>, timeoutHeight: nat, timeoutAt: Option<int>)

  /** The inputs of one cycle: the pool snapshot, the drained senders and height, the clock. */
  datatype Cycle = Cycle(snapshot: seq<Tx>, staged: set<Sender>, height: int, now: int)

  datatype Config = Config(maxRecheckBatch: int, ttlNumBlocks: int)

  /** What the manager was given: rechecking may be disabled, and parts may be missing. */
  datatype Parts = Parts(recheckDisabled: bool, hasPool: bool, hasSigner: bool, hasDecoder: bool)

  predicate DecodingEnabled(parts: Parts) { !parts.recheckDisabled && parts.hasSigner && parts.hasDecoder }

  // ---------------------------------------------------------------------------------------
  // One cycle, on values

  /** Go's conversion of an int64 to uint64. */
  function ToUint64(h: int): (u: nat) { h % TWO_64 }

  predicate TxTimedout(tx: Tx, height: int, now: int) {
    || (tx.timeoutHeight > 0 && ToUint64(height) >= tx.timeoutHeight)
    || (tx.timeoutAt.Some? && now >= tx.timeoutAt.value)
  }

  function TxTTLExpired(arrival: map<Tx, int>, tx: Tx, height: int, ttlNumBlocks: int): (r: (int, bool)) {
    var arrived := if tx in arrival then arrival[tx] else height;
    (arrived, height - arrived >= ttlNumBlocks)
  }

  predicate Evicts(cfg: Config, arrival: map<Tx, int>, c: Cycle, tx: Tx) {
    || TxTimedout(tx, c.height, c.now)
    || (cfg.ttlNumBlocks > 0 && TxTTLExpired(arrival, tx, c.height, cfg.ttlNumBlocks).1)
  }

  function Evicted(cfg: Config, arrival: map<Tx, int>, c: Cycle): (r: set<Tx>) {
    set tx | tx in c.snapshot && Evicts(cfg, arrival, c, tx)
  }

  function Survivors(cfg: Config, arrival: map<Tx, int>, c: Cycle): (r: set<Tx>) {
    set tx | tx in c.snapshot && !Evicts(cfg, arrival, c, tx)
  }

  function SignersOf(txs: set<Tx>): (r: set<Sender>) { set tx, x | tx in txs && x in tx.signers :: x }

  /** The senders whose transactions need a recheck: staged, or signers of an evicted transaction. */
  function Touched(cfg: Config, arrival: map<Tx, int>, c: Cycle): (r: set<Sender>) {
    c.staged + SignersOf(Evicted(cfg, arrival, c))
  }

  predicate Shares(tx: Tx, senders: set<Sender>) { exists x :: x in tx.signers && x in senders }

  function Hit(cfg: Config, arrival: map<Tx, int>, c: Cycle): (r: set<Tx>) {
    set tx | tx in Survivors(cfg, arrival, c) && Shares(tx, Touched(cfg, arrival, c))
  }

  function Elements(s: seq<Tx>): (r: set<Tx>) { set tx | tx in s }

  /** Surviving carried transactions first, then the fresh candidates in snapshot order. */
  function Ordered(cfg: Config, arrival: map<Tx, int>, carry: seq<Tx>, c: Cycle): (r: seq<Tx>) {
    Keep(carry, Survivors(cfg, arrival, c)) +
    Keep(c.snapshot, Hit(cfg, arrival, c) - Elements(carry))
  }

  function Cut(cfg: Config, n: nat): (k: nat)
    ensures k <= n
  {
    if cfg.maxRecheckBatch <= 0 || n <= cfg.maxRecheckBatch then n else cfg.maxRecheckBatch
  }

  function Batch(cfg: Config, arrival: map<Tx, int>, carry: seq<Tx>, c: Cycle): (r: seq<Tx>) {
    var o := Ordered(cfg, arrival, carry, c);
    o[..Cut(cfg, |o|)]
  }

  function Carry(cfg: Config, arrival: map<Tx, int>, carry: seq<Tx>, c: Cycle): (r: seq<Tx>) {
    var o := Ordered(cfg, arrival, carry, c);
    o[Cut(cfg, |o|)..]
  }

  function NewArrival(cfg: Config, arrival: map<Tx, int>, c: Cycle): (r: map<Tx, int>) {
    if cfg.ttlNumBlocks > 0 then
      map tx | tx in Survivors(cfg, arrival, c) :: TxTTLExpired(arrival, tx, c.height, cfg.ttlNumBlocks).0
    else map[]
  }

  /** Before the first block, with nothing staged and no carry, the pool is not scanned. */
  predicate Skips(carry: seq<Tx>, c: Cycle) { c.staged == {} && carry == [] && c.height == 0 }

  function DecodedSenders(decode: Bytes -> Option<Tx>, txs: seq<Bytes>): (r: set<Sender>) {
    set bz, x | bz in txs && decode(bz).Some? && x in decode(bz).value.signers :: x
  }

  // ---------------------------------------------------------------------------------------
  // The manager

  class Manager {
    const cfg: Config
    const parts: Parts
    const decode: Bytes -> Option<Tx>
    const encodes: Tx -> bool           // whether EncodeTx yields bytes for the transaction

    var recheckSenders: set<Sender>
    var deferred: seq<Tx>
    var lastCommittedHeight: int
    var arrival: map<Tx, int>
    var pool: set<Tx>

    constructor (cfg: Config, parts: Parts, decode: Bytes -> Option<Tx>, encodes: Tx -> bool)
      ensures this.cfg == cfg && this.parts == parts && this.decode == decode && this.encodes == encodes
      ensures recheckSenders == {} && deferred == [] && lastCommittedHeight == 0
      ensures arrival == map[] && pool == {}
    {
      this.cfg, this.parts, this.decode, this.encodes := cfg, parts, decode, encodes;
      recheckSenders, deferred, lastCommittedHeight, arrival, pool := {}, [], 0, map[], {};
    }

    /** The decoding loop both staging calls share; undecodable bytes are passed over. */
    method CollectSenders(txs: seq<Bytes>) returns (senders: set<Sender>)
      ensures senders == DecodedSenders(decode, txs)
    {
      senders := {};
      for i := 0 to |txs|
        invariant senders == DecodedSenders(decode, txs[..i])
      {
        var tx := decode(txs[i]);
        ghost var before := senders;
        if tx.Some? {
          var sigs := tx.value.signers;
          for k := 0 to |sigs|
            invariant senders == before + (set x | x in sigs[..k])
          {
            senders := senders + {sigs[k]};
          }
          assert sigs[..|sigs|] == sigs;
        }
        assert txs[..i + 1] == txs[..i] + [txs[i]];
        assert DecodedSenders(decode, txs[..i + 1]) ==
               DecodedSenders(decode, txs[..i]) + DecodedSenders(decode, [txs[i]]);
      }
      assert txs[..|txs|] == txs;
    }

    /** The senders a list of transactions stands for; none while decoding is disabled. */
    ghost function SendersOf(txs: seq<Bytes>): (r: set<Sender>) {
      if DecodingEnabled(parts) then DecodedSenders(decode, txs) else {}
    }

    /** Some bytes of the list decode to a transaction that `x` signs, and decoding is enabled. */
    ghost predicate Signs(txs: seq<Bytes>, x: Sender) {
      && !parts.recheckDisabled && parts.hasSigner && parts.hasDecoder
      && (exists bz :: bz in txs && decode(bz).Some? && x in decode(bz).value.signers)
    }

    method StageSkippedSenders(txs: seq<Bytes>)
      modifies this`recheckSenders
      ensures recheckSenders == old(recheckSenders) + SendersOf(txs)
      ensures forall x :: x in recheckSenders <==> x in old(recheckSenders) || Signs(txs, x)
    {
      if !DecodingEnabled(parts) || |txs| == 0 { return; }
      var senders := CollectSenders(txs);
      recheckSenders := recheckSenders + senders;
    }

    method StageRecheckSenders(height: int, txs: seq<Bytes>)
      modifies this`recheckSenders, this`lastCommittedHeight
      ensures recheckSenders == old(recheckSenders) + SendersOf(txs)
      ensures forall x :: x in recheckSenders <==> x in old(recheckSenders) || Signs(txs, x)
      ensures lastCommittedHeight == height
    {
      var senders: set<Sender> := {};
      if DecodingEnabled(parts) { senders := CollectSenders(txs); }
      lastCommittedHeight := height;
      recheckSenders := recheckSenders + senders;
    }

    method DrainStaging() returns (senders: set<Sender>, height: int, carry: seq<Tx>)
      modifies this`recheckSenders, this`deferred
      ensures senders == old(recheckSenders) && height == lastCommittedHeight && carry == old(deferred)
      ensures recheckSenders == {} && deferred == []
    {
      senders, height, carry := recheckSenders, lastCommittedHeight, deferred;
      recheckSenders, deferred := {}, [];
    }

    method EvictForRecheck(tx: Tx, evicted: set<Tx>, senders: set<Sender>)
      returns (evicted': set<Tx>, senders': set<Sender>)
      modifies this`pool
      ensures pool == old(pool) - {tx}
      ensures evicted' == evicted + {tx}
      ensures senders' == senders + SignersOf({tx})
    {
      pool := pool - {tx};
      evicted' := evicted + {tx};
      senders' := senders;
      for k := 0 to |tx.signers|
        invariant senders' == senders + (set x | x in tx.signers[..k])
      {
        senders' := senders' + {tx.signers[k]};
      }
      assert tx.signers[..|tx.signers|] == tx.signers;
    }

    /** Pass 1 of selectTxs: evictions, and the arrival map rebuilt from this snapshot. */
    method EvictionPass(c: Cycle) returns (evicted: set<Tx>, senders: set<Sender>)
      modifies this`pool, this`arrival
      ensures evicted == Evicted(cfg, old(arrival), c)
      ensures senders == Touched(cfg, old(arrival), c)
      ensures arrival == NewArrival(cfg, old(arrival), c)
      ensures pool == old(pool) - evicted
    {
      var newArrival: map<Tx, int> := map[];
      evicted, senders := {}, c.staged;
      for i := 0 to |c.snapshot|
        invariant arrival == old(arrival)
        invariant evicted == (set tx | tx in c.snapshot[..i] && Evicts(cfg, arrival, c, tx))
        invariant senders == c.staged + SignersOf(evicted)
        invariant pool == old(pool) - evicted
        invariant newArrival.Keys == if cfg.ttlNumBlocks > 0
                                     then (set tx | tx in c.snapshot[..i] && !Evicts(cfg, arrival, c, tx)) else {}
        invariant forall tx :: tx in newArrival ==>
                    newArrival[tx] == TxTTLExpired(arrival, tx, c.height, cfg.ttlNumBlocks).0
      {
        var tx := c.snapshot[i];
        assert c.snapshot[..i + 1] == c.snapshot[..i] + [tx];
        if TxTimedout(tx, c.height, c.now) {
          evicted, senders := EvictForRecheck(tx, evicted, senders);
        } else if cfg.ttlNumBlocks > 0 {
          var (arrived, expired) := TxTTLExpired(arrival, tx, c.height, cfg.ttlNumBlocks);
          if expired {
            evicted, senders := EvictForRecheck(tx, evicted, senders);
          } else {
            newArrival := newArrival[tx := arrived];
          }
        }
      }
      assert c.snapshot[..|c.snapshot|] == c.snapshot;
      arrival := newArrival;
    }

    /** The inner loop of pass 2: does the transaction have a signer among `senders`? */
    static method HasSigner(tx: Tx, senders: set<Sender>) returns (found: bool)
      ensures found == Shares(tx, senders)
    {
      for k := 0 to |tx.signers|
        invariant forall m :: 0 <= m < k ==> tx.signers[m] !in senders
      {
        if tx.signers[k] in senders { return true; }
      }
      return false;
    }

    /** Pass 2 of selectTxs: which carried transactions still live, and the fresh candidates. */
    static method SelectionPass(snapshot: seq<Tx>, evicted: set<Tx>, senders: set<Sender>, carry: seq<Tx>)
      returns (live: map<Tx, bool>, candidates: seq<Tx>)
      ensures live.Keys == Elements(carry)
      ensures forall tx :: tx in live ==> live[tx] == (tx in snapshot && tx !in evicted)
      ensures candidates == Keep(snapshot, set tx | tx in snapshot && tx !in evicted && Shares(tx, senders))
    {
      ghost var hit := set tx | tx in snapshot && tx !in evicted && Shares(tx, senders);
      live := map tx | tx in carry :: false;
      candidates := [];
      for i := 0 to |snapshot|
        invariant live.Keys == Elements(carry)
        invariant forall tx :: tx in live ==> live[tx] == (tx in snapshot[..i] && tx !in evicted)
        invariant candidates == Keep(snapshot[..i], hit)
      {
        var tx := snapshot[i];
        KeepNext(snapshot, hit, i);
        assert snapshot[..i + 1] == snapshot[..i] + [tx];
        if tx !in evicted {
          if tx in live { live := live[tx := true]; }
          if senders != {} {
            var found := HasSigner(tx, senders);
            if found { candidates := candidates + [tx]; }
          }
        }
      }
      assert snapshot[..|snapshot|] == snapshot;
    }

    /** The live carry ahead of the fresh candidates, none of them twice. */
    static method FrontLoad(carry: seq<Tx>, live: map<Tx, bool>, candidates: seq<Tx>) returns (ordered: seq<Tx>)
      requires live.Keys == Elements(carry)
      ensures ordered == Keep(carry, set tx | tx in live && live[tx]) +
                         Keep(candidates, Elements(candidates) - Elements(carry))
    {
      ghost var alive := set tx | tx in live && live[tx];
      ghost var added := Elements(candidates) - Elements(carry);
      ordered := [];
      for i := 0 to |carry|
        invariant ordered == Keep(carry[..i], alive)
      {
        KeepNext(carry, alive, i);
        if live[carry[i]] { ordered := ordered + [carry[i]]; }
      }
      assert carry[..|carry|] == carry;
      for i := 0 to |candidates|
        invariant ordered == Keep(carry, alive) + Keep(candidates[..i], added)
      {
        KeepNext(candidates, added, i);
        if candidates[i] !in live { ordered := ordered + [candidates[i]]; }
      }
      assert candidates[..|candidates|] == candidates;
    }

    method SelectTxs(c: Cycle, carry: seq<Tx>) returns (ordered: seq<Tx>)
      modifies this`pool, this`arrival
      ensures ordered == Ordered(cfg, old(arrival), carry, c)
      ensures arrival == NewArrival(cfg, old(arrival), c)
      ensures pool == old(pool) - Evicted(cfg, old(arrival), c)
    {
      var evicted, senders := EvictionPass(c);
      var live, candidates := SelectionPass(c.snapshot, evicted, senders, carry);
      ghost var hit := Hit(cfg, old(arrival), c);
      assert hit == set tx | tx in c.snapshot && tx !in evicted && Shares(tx, senders);
      ordered := FrontLoad(carry, live, candidates);
      KeepWithin(carry, Survivors(cfg, old(arrival), c), set tx | tx in live && live[tx]);
      KeepTwice(c.snapshot, hit, Elements(carry));
      forall tx ensures tx in candidates <==> tx in c.snapshot && tx in hit { KeepMember(c.snapshot, hit, tx); }
      KeepWithin(candidates, hit - Elements(carry), Elements(candidates) - Elements(carry));
    }

    method CapRecheckTxs(candidates: seq<Tx>) returns (batch: seq<Tx>)
      modifies this`deferred
      ensures batch == candidates[..Cut(cfg, |candidates|)]
      ensures deferred == if batch == candidates then old(deferred) else candidates[Cut(cfg, |candidates|)..]
    {
      if cfg.maxRecheckBatch <= 0 || |candidates| <= cfg.maxRecheckBatch {
        return candidates;
      }
      deferred := candidates[cfg.maxRecheckBatch..];
      return candidates[..cfg.maxRecheckBatch];
    }

    /** `verdict(i)` is the outcome of the i-th RunTx call of this batch. */
    method RunRecheck(candidates: seq<Tx>, verdict: nat -> bool)
      modifies this`pool
      ensures pool == old(pool) - Rejected(encodes, candidates, verdict)
    {
      for i := 0 to |candidates|
        invariant pool == old(pool) - Rejected(encodes, candidates[..i], verdict)
      {
        assert candidates[..i + 1][..i] == candidates[..i];
        if encodes(candidates[i]) {
          if !verdict(i) { pool := pool - {candidates[i]}; }
        }
      }
      assert candidates[..|candidates|] == candidates;
    }

    /**
     One recheck cycle. `snapshot` lists, without repetition, what the walk over the pool saw; other
     goroutines may have admitted or removed transactions since, so it need not be the pool. The
     staging fields are drained, the carry and the arrival map are those of the cycle, and of the
     pool the cycle removes what it evicts and what its batch shows to be invalid. Without a pool,
     or with rechecking disabled, nothing happens.
     */
    method RecheckTxs(snapshot: seq<Tx>, now: int, verdict: nat -> bool)
      requires Distinct(snapshot)
      modifies this`recheckSenders, this`deferred, this`arrival, this`pool
      ensures !parts.hasPool || parts.recheckDisabled ==>
                recheckSenders == old(recheckSenders) && Books(deferred, arrival) == old(Books(deferred, arrival)) &&
                    pool == old(pool)
      ensures parts.hasPool && !parts.recheckDisabled ==>
                var c := Cycle(snapshot, old(recheckSenders), lastCommittedHeight, now);
                && recheckSenders == {}
                && Books(deferred, arrival) == Next(cfg, Books(old(deferred), old(arrival)), c)
                && pool == PoolAfter(cfg, encodes, verdict, old(pool), Books(old(deferred), old(arrival)), c)
    {
      if !parts.hasPool || parts.recheckDisabled { return; }
      var senders, height, carry := DrainStaging();
      var c := Cycle(snapshot, senders, height, now);
      if senders == {} && carry == [] && height == 0 {
        return;
      }
      var ordered := SelectTxs(c, carry);
      var batch := CapRecheckTxs(ordered);
      RunRecheck(batch, verdict);
    }
  }

  /** The candidates whose bytes encode and whose recheck failed. */
  function Rejected(encodes: Tx -> bool, candidates: seq<Tx>, verdict: nat -> bool): (r: set<Tx>) {
    set i | 0 <= i < |candidates| && encodes(candidates[i]) && !verdict(i) :: candidates[i]
  }

  /** The pool after a cycle: without what was evicted and what was rechecked in vain. */
  function PoolAfter(cfg: Config, encodes: Tx -> bool, verdict: nat -> bool, pool: set<Tx>, s: Books,
      c: Cycle): (r: set<Tx>) {
    if Skips(s.carry, c) then pool
    else pool - Evicted(cfg, s.arrival, c) - Rejected(encodes, Batch(cfg, s.arrival, s.carry, c), verdict)
  }

  /** `Keep` only looks at the elements of the sequence. */
  lemma {:induction false} KeepWithin(s: seq<Tx>, a: set<Tx>, b: set<Tx>)
    requires forall tx :: tx in s ==> (tx in a <==> tx in b)
    ensures Keep(s, a) == Keep(s, b)
  {
    if s != [] { KeepWithin(s[..|s| - 1], a, b); }
  }

  lemma {:induction false} KeepTwice(s: seq<Tx>, hit: set<Tx>, drop: set<Tx>)
    ensures Keep(Keep(s, hit), hit - drop) == Keep(s, hit - drop)
  {
    if s != [] {
      var front, last := s[..|s| - 1], s[|s| - 1];
      KeepTwice(front, hit, drop);
      if last in hit {
        assert Keep(s, hit)[..|Keep(s, hit)| - 1] == Keep(front, hit);
        assert Keep(s, hit)[|Keep(s, hit)| - 1] == last;
      } else {
        assert Keep(s, hit) == Keep(front, hit);
      }
    }
  }

  // ---------------------------------------------------------------------------------------
  // What a cycle selects

  /** A transaction a cycle owes a recheck: alive, and carried or sharing a signer with a
      staged sender or with any transaction this cycle evicted. */
  ghost predicate Owed(cfg: Config, arrival: map<Tx, int>, carry: seq<Tx>, c: Cycle, tx: Tx) {
    && tx in c.snapshot && !Evicts(cfg, arrival, c, tx)
    && (|| tx in carry
        || (exists x :: x in tx.signers && x in c.staged)
        || (exists x, gone ::
            x in tx.signers && gone in c.snapshot && Evicts(cfg, arrival, c, gone) &&
            x in gone.signers))
  }

  lemma OrderedDistinct(cfg: Config, arrival: map<Tx, int>, carry: seq<Tx>, c: Cycle)
    requires Distinct(carry) && Distinct(c.snapshot)
    ensures Distinct(Ordered(cfg, arrival, carry, c))
  {
    var alive, newly := Survivors(cfg, arrival, c), Hit(cfg, arrival, c) - Elements(carry);
    KeepDistinct(carry, alive);
    KeepDistinct(c.snapshot, newly);
    forall x | x in Keep(carry, alive) ensures x !in Keep(c.snapshot, newly) {
      KeepMember(carry, alive, x);
      KeepMember(c.snapshot, newly, x);
    }
    DistinctConcat(Keep(carry, alive), Keep(c.snapshot, newly));
  }

  lemma OwedMeansTouched(cfg: Config, arrival: map<Tx, int>, carry: seq<Tx>, c: Cycle, tx: Tx)
    ensures Owed(cfg, arrival, carry, c, tx) <==>
            tx in Survivors(cfg, arrival, c) && (tx in carry || Shares(tx, Touched(cfg, arrival, c)))
  {
    if tx in Survivors(cfg, arrival, c) && Shares(tx, Touched(cfg, arrival, c)) {
      var x :| x in tx.signers && x in Touched(cfg, arrival, c);
      if x !in c.staged {
        var gone :| gone in Evicted(cfg, arrival, c) && x in gone.signers;
      }
    }
  }

  /** Each cycle partitions its work exactly: what is owed is in the batch or in the new carry,
      once, and nothing else is in either. */
  lemma CyclePartition(cfg: Config, arrival: map<Tx, int>, carry: seq<Tx>, c: Cycle, tx: Tx)
    requires Distinct(carry) && Distinct(c.snapshot)
    ensures multiset(Batch(cfg, arrival, carry, c))[tx] + multiset(Carry(cfg, arrival, carry, c))[tx]
            == if Owed(cfg, arrival, carry, c, tx) then 1 else 0
    ensures cfg.maxRecheckBatch > 0 ==> |Batch(cfg, arrival, carry, c)| <= cfg.maxRecheckBatch
    ensures Carry(cfg, arrival, carry, c) != [] ==> |Batch(cfg, arrival, carry, c)| == cfg.maxRecheckBatch
    ensures cfg.maxRecheckBatch <= 0 ==> Carry(cfg, arrival, carry, c) == []
  {
    var o := Ordered(cfg, arrival, carry, c);
    assert o == Batch(cfg, arrival, carry, c) + Carry(cfg, arrival, carry, c);
    OrderedDistinct(cfg, arrival, carry, c);
    DistinctCount(o, tx);
    KeepMember(carry, Survivors(cfg, arrival, c), tx);
    KeepMember(c.snapshot, Hit(cfg, arrival, c) - Elements(carry), tx);
    OwedMeansTouched(cfg, arrival, carry, c, tx);
  }

  /** Which of two owed transactions comes first: the carry in its order, then the snapshot in its order. */
  ghost predicate Precedes(carry: seq<Tx>, snapshot: seq<Tx>, a: Tx, b: Tx) {
    || (a in carry && b !in carry)
    || (exists i, j :: 0 <= i < j < |carry| && carry[i] == a && carry[j] == b)
    || (a !in carry && b !in carry && exists i, j :: 0 <= i < j < |snapshot| && snapshot[i] == a && snapshot[j] == b)
  }

  lemma KeptInOrder(carry: seq<Tx>, snapshot: seq<Tx>, alive: set<Tx>, newly: set<Tx>, a: Tx, b: Tx)
    returns (p: nat, q: nat)
    requires Precedes(carry, snapshot, a, b) && a in snapshot && b in snapshot
    requires a in alive && b in alive && (a !in carry ==> a in newly) && (b !in carry ==> b in newly)
    ensures var o := Keep(carry, alive) + Keep(snapshot, newly); p < q < |o| && o[p] == a && o[q] == b
  {
    var first, then_ := Keep(carry, alive), Keep(snapshot, newly);
    if i, j :| 0 <= i < j < |carry| && carry[i] == a && carry[j] == b {
      p, q := KeepOrder(carry, alive, i, j);
    } else if a in carry {
      KeepMember(carry, alive, a);
      KeepMember(snapshot, newly, b);
      p :| 0 <= p < |first| && first[p] == a;
      var n :| 0 <= n < |then_| && then_[n] == b;
      q := |first| + n;
    } else {
      var i, j :| 0 <= i < j < |snapshot| && snapshot[i] == a && snapshot[j] == b;
      p, q := KeepOrder(snapshot, newly, i, j);
      p, q := |first| + p, |first| + q;
    }
  }

  /** The batch and the new carry together list what is owed in that order. */
  lemma OrderKept(cfg: Config, arrival: map<Tx, int>, carry: seq<Tx>, c: Cycle, a: Tx, b: Tx) returns (p: nat, q: nat)
    requires Owed(cfg, arrival, carry, c, a) && Owed(cfg, arrival, carry, c, b) && Precedes(carry, c.snapshot, a, b)
    ensures var o := Batch(cfg, arrival, carry, c) + Carry(cfg, arrival, carry, c);
            p < q < |o| && o[p] == a && o[q] == b
  {
    OwedMeansTouched(cfg, arrival, carry, c, a);
    OwedMeansTouched(cfg, arrival, carry, c, b);
    p, q := KeptInOrder(carry, c.snapshot, Survivors(cfg, arrival, c), Hit(cfg, arrival, c) - Elements(carry), a, b);
    assert Batch(cfg, arrival, carry, c) + Carry(cfg, arrival, carry, c) == Ordered(cfg, arrival, carry, c);
  }

  // ---------------------------------------------------------------------------------------
  // Runs of cycles

  /** What one cycle leaves for the next. */
  datatype Books = Books(carry: seq<Tx>, arrival: map<Tx, int>)

  function Next(cfg: Config, s: Books, c: Cycle): (r: Books) {
    if Skips(s.carry, c) then s
    else Books(Carry(cfg, s.arrival, s.carry, c), NewArrival(cfg, s.arrival, c))
  }

  /** A run: cycle `cs[i]` takes `bs[i]` to `bs[i + 1]`; every snapshot is free of repetition. */
  ghost predicate IsRun(cfg: Config, bs: seq<Books>, cs: seq<Cycle>) {
    && |bs| == |cs| + 1
    && bs[0] == Books([], map[])
    && (forall i :: 0 <= i < |cs| ==> bs[i + 1] == Next(cfg, bs[i], cs[i]))
    && (forall i :: 0 <= i < |cs| ==> Distinct(cs[i].snapshot))
  }

  lemma {:induction false} CarryDistinct(cfg: Config, bs: seq<Books>, cs: seq<Cycle>, n: nat)
    requires IsRun(cfg, bs, cs) && n < |bs|
    ensures Distinct(bs[n].carry)
  {
    if n > 0 {
      CarryDistinct(cfg, bs, cs, n - 1);
      assert bs[n] == Next(cfg, bs[n - 1], cs[n - 1]);
      OrderedDistinct(cfg, bs[n - 1].arrival, bs[n - 1].carry, cs[n - 1]);
    }
  }

  /** A carried transaction that stays alive is in the batch, or moves up by a full batch. */
  lemma CarryMovesUp(cfg: Config, arrival: map<Tx, int>, carry: seq<Tx>, c: Cycle, i: nat) returns (j: nat)
    requires cfg.maxRecheckBatch > 0 && i < |carry| && carry[i] in Survivors(cfg, arrival, c)
    ensures carry[i] in Batch(cfg, arrival, carry, c) ||
            (j + cfg.maxRecheckBatch <= i && j < |Carry(cfg, arrival, carry, c)| &&
                Carry(cfg, arrival, carry, c)[j] == carry[i])
  {
    var alive := Survivors(cfg, arrival, c);
    var at := KeepPosition(carry, alive, i);
    var o := Ordered(cfg, arrival, carry, c);
    assert o[at] == carry[i];
    var cut := Cut(cfg, |o|);
    if at < cut {
      assert o[..cut][at] == carry[i];
      j := 0;
    } else {
      j := at - cut;
      assert o[cut..][j] == carry[i];
    }
  }

  /** Cycle `k` rechecks the transaction, or finds that it has left the pool. */
  predicate SettledAt(cfg: Config, bs: seq<Books>, cs: seq<Cycle>, k: nat, tx: Tx)
    requires |bs| == |cs| + 1 && k < |cs|
  {
    || tx in Batch(cfg, bs[k].arrival, bs[k].carry, cs[k])
    || tx !in Survivors(cfg, bs[k].arrival, cs[k])
  }

  /** A transaction that a cycle does not settle moves up by a whole batch. */
  lemma UnsettledMovesUp(cfg: Config, bs: seq<Books>, cs: seq<Cycle>, n: nat, i: nat) returns (j: nat)
    requires IsRun(cfg, bs, cs) && cfg.maxRecheckBatch > 0 && n < |cs| && i < |bs[n].carry|
    requires !SettledAt(cfg, bs, cs, n, bs[n].carry[i])
    ensures j + cfg.maxRecheckBatch <= i && j < |bs[n + 1].carry| && bs[n + 1].carry[j] == bs[n].carry[i]
  {
    j := CarryMovesUp(cfg, bs[n].arrival, bs[n].carry, cs[n], i);
    assert bs[n + 1] == Next(cfg, bs[n], cs[n]);
  }

  lemma {:induction false} SettledWithin(cfg: Config, bs: seq<Books>, cs: seq<Cycle>, n: nat, i: nat,
      d: nat) returns (k: nat)
    requires IsRun(cfg, bs, cs) && cfg.maxRecheckBatch > 0
    requires n < |bs| && i < |bs[n].carry| && i / cfg.maxRecheckBatch <= d && n + d < |cs|
    ensures n <= k <= n + d && SettledAt(cfg, bs, cs, k, bs[n].carry[i])
    decreases d
  {
    k := n;
    if !SettledAt(cfg, bs, cs, n, bs[n].carry[i]) {
      var j := UnsettledMovesUp(cfg, bs, cs, n, i);
      QuotientDrops(i, j, cfg.maxRecheckBatch);
      k := SettledWithin(cfg, bs, cs, n + 1, j, d - 1);
    }
  }

  /**
   No starvation. A transaction at index `i` of the carry is in a recheck batch, or has left the
   pool, within `i / B + 1` cycles, whatever else is staged meanwhile.
   */
  lemma NoStarvation(cfg: Config, bs: seq<Books>, cs: seq<Cycle>, n: nat, i: nat)
    requires IsRun(cfg, bs, cs) && cfg.maxRecheckBatch > 0
    requires n < |bs| && i < |bs[n].carry| && n + i / cfg.maxRecheckBatch < |cs|
    ensures exists k: nat :: n <= k <= n + i / cfg.maxRecheckBatch && SettledAt(cfg, bs, cs, k, bs[n].carry[i])
  {
    var k := SettledWithin(cfg, bs, cs, n, i, i / cfg.maxRecheckBatch);
  }

  lemma ProductMonotone(p: int, q: int, B: int)
    requires p <= q && B > 0
    ensures p * B <= q * B
  {
  }

  lemma QuotientDrops(i: nat, j: nat, B: int)
    requires B > 0 && j + B <= i
    ensures j / B + 1 <= i / B
  {
    var p, q := i / B, j / B;
    assert i == p * B + i % B && j == q * B + j % B;
    if p <= q { ProductMonotone(p, q, B); }
  }

  // ---------------------------------------------------------------------------------------
  // Time to live

  predicate Scans(bs: seq<Books>, cs: seq<Cycle>, m: nat)
    requires |bs| == |cs| + 1 && m < |cs|
  {
    !Skips(bs[m].carry, cs[m])
  }

  predicate AliveAt(cfg: Config, bs: seq<Books>, cs: seq<Cycle>, m: nat, tx: Tx)
    requires |bs| == |cs| + 1 && m < |cs|
  {
    tx in Survivors(cfg, bs[m].arrival, cs[m])
  }

  /** Every scan from `j` up to `n` found the transaction in the pool and kept it. */
  ghost predicate Unbroken(cfg: Config, bs: seq<Books>, cs: seq<Cycle>, j: nat, n: nat, tx: Tx)
    requires |bs| == |cs| + 1 && n <= |cs|
  {
    && j < n && Scans(bs, cs, j)
    && (forall m :: j <= m < n && Scans(bs, cs, m) ==> AliveAt(cfg, bs, cs, m, tx))
  }

  /** `j` is the scan that first observed the residence still unbroken before cycle `n`. */
  ghost predicate ResidentSince(cfg: Config, bs: seq<Books>, cs: seq<Cycle>, j: nat, n: nat, tx: Tx)
    requires |bs| == |cs| + 1 && n <= |cs|
  {
    Unbroken(cfg, bs, cs, j, n, tx) && NoneBefore(cfg, bs, cs, j, n, tx)
  }

  ghost predicate NoneBefore(cfg: Config, bs: seq<Books>, cs: seq<Cycle>, j: nat, n: nat, tx: Tx)
    requires |bs| == |cs| + 1 && n <= |cs|
  {
    forall i: nat :: i < j ==> !Unbroken(cfg, bs, cs, i, n, tx)
  }

  lemma UnbrokenStep(cfg: Config, bs: seq<Books>, cs: seq<Cycle>, j: nat, n: nat, tx: Tx)
    requires |bs| == |cs| + 1 && 0 < n <= |cs|
    ensures Unbroken(cfg, bs, cs, j, n, tx) <==>
            && (Scans(bs, cs, n - 1) ==> AliveAt(cfg, bs, cs, n - 1, tx))
            && (Unbroken(cfg, bs, cs, j, n - 1, tx) || (j == n - 1 && Scans(bs, cs, n - 1)))
  {
  }

  /** The start of a residence, carried over one more cycle. */
  lemma ResidenceStep(cfg: Config, bs: seq<Books>, cs: seq<Cycle>, j: nat, n: nat, tx: Tx)
    requires |bs| == |cs| + 1 && 0 < n <= |cs|
    ensures ResidentSince(cfg, bs, cs, j, n, tx) <==>
            && (Scans(bs, cs, n - 1) ==> AliveAt(cfg, bs, cs, n - 1, tx))
            && (|| ResidentSince(cfg, bs, cs, j, n - 1, tx)
                || (j == n - 1 && Scans(bs, cs, j) && NoneBefore(cfg, bs, cs, j, n - 1, tx)))
  {
    UnbrokenStep(cfg, bs, cs, j, n, tx);
    forall i: nat | i < j
      ensures Unbroken(cfg, bs, cs, i, n, tx) <==>
              (Scans(bs, cs, n - 1) ==> AliveAt(cfg, bs, cs, n - 1, tx)) &&
                  (Unbroken(cfg, bs, cs, i, n - 1, tx) || (i == n - 1 && Scans(bs, cs, i)))
    {
      UnbrokenStep(cfg, bs, cs, i, n, tx);
    }
  }

  lemma {:induction false} FirstUnbroken(cfg: Config, bs: seq<Books>, cs: seq<Cycle>, j: nat, n: nat,
      tx: Tx) returns (i: nat)
    requires |bs| == |cs| + 1 && n <= |cs| && Unbroken(cfg, bs, cs, j, n, tx)
    ensures i <= j && ResidentSince(cfg, bs, cs, i, n, tx)
  {
    if i': nat :| i' < j && Unbroken(cfg, bs, cs, i', n, tx) {
      i := FirstUnbroken(cfg, bs, cs, i', n, tx);
    } else {
      i := j;
    }
  }

  /** The recorded arrival of a residence, and a residence for every recorded arrival. */
  lemma {:induction false} ArrivalWitness(cfg: Config, bs: seq<Books>, cs: seq<Cycle>, n: nat, tx: Tx) returns (j: nat)
    requires IsRun(cfg, bs, cs) && n < |bs| && cfg.ttlNumBlocks > 0
    requires tx in bs[n].arrival
    ensures ResidentSince(cfg, bs, cs, j, n, tx)
    decreases n
  {
    var m := n - 1;
    assert bs[n] == Next(cfg, bs[m], cs[m]);
    if tx in bs[m].arrival {
      j := ArrivalWitness(cfg, bs, cs, m, tx);
    } else {
      j := m;
      if i: nat :| i < j && Unbroken(cfg, bs, cs, i, m, tx) {
        var first := FirstUnbroken(cfg, bs, cs, i, m, tx);
        ArrivalHeight(cfg, bs, cs, first, m, tx);
        assert false;
      }
    }
    ResidenceStep(cfg, bs, cs, j, n, tx);
  }

  lemma {:induction false} ArrivalHeight(cfg: Config, bs: seq<Books>, cs: seq<Cycle>, j: nat, n: nat, tx: Tx)
    requires IsRun(cfg, bs, cs) && n < |bs| && cfg.ttlNumBlocks > 0
    requires ResidentSince(cfg, bs, cs, j, n, tx)
    ensures tx in bs[n].arrival && bs[n].arrival[tx] == cs[j].height
    decreases n
  {
    var m := n - 1;
    assert bs[n] == Next(cfg, bs[m], cs[m]);
    ResidenceStep(cfg, bs, cs, j, n, tx);
    if ResidentSince(cfg, bs, cs, j, m, tx) {
      ArrivalHeight(cfg, bs, cs, j, m, tx);
    } else if tx in bs[m].arrival {
      var i := ArrivalWitness(cfg, bs, cs, m, tx);
      assert false;
    }
  }

  /** `arrival` holds exactly the height at which each unbroken residence was first observed. */
  lemma ArrivalIsFirstObservation(cfg: Config, bs: seq<Books>, cs: seq<Cycle>, n: nat, tx: Tx)
    requires IsRun(cfg, bs, cs) && n < |bs| && cfg.ttlNumBlocks > 0
    ensures tx in bs[n].arrival <==> exists j: nat :: ResidentSince(cfg, bs, cs, j, n, tx)
    ensures forall j: nat :: ResidentSince(cfg, bs, cs, j, n, tx) ==> bs[n].arrival[tx] == cs[j].height
  {
    if tx in bs[n].arrival { var j := ArrivalWitness(cfg, bs, cs, n, tx); }
    forall j: nat | ResidentSince(cfg, bs, cs, j, n, tx)
      ensures tx in bs[n].arrival && bs[n].arrival[tx] == cs[j].height
    {
      ArrivalHeight(cfg, bs, cs, j, n, tx);
    }
  }

  /**
   The time to live is exact. In a scan at cycle `n`, a transaction of the snapshot that has not
   hit its own timeout is evicted if and only if its unbroken residence was first observed at
   least T blocks earlier; so every survivor is younger than T.
   */
  lemma TtlExact(cfg: Config, bs: seq<Books>, cs: seq<Cycle>, n: nat, tx: Tx)
    requires IsRun(cfg, bs, cs) && n < |cs| && cfg.ttlNumBlocks > 0
    requires Scans(bs, cs, n) && tx in cs[n].snapshot && !TxTimedout(tx, cs[n].height, cs[n].now)
    ensures !AliveAt(cfg, bs, cs, n, tx) <==>
            exists j: nat :: ResidentSince(cfg, bs, cs, j, n, tx) && cs[n].height - cs[j].height >= cfg.ttlNumBlocks
    ensures forall j: nat :: ResidentSince(cfg, bs, cs, j, n + 1, tx) ==> cs[n].height - cs[j].height < cfg.ttlNumBlocks
  {
    ArrivalIsFirstObservation(cfg, bs, cs, n, tx);
    forall j: nat | ResidentSince(cfg, bs, cs, j, n + 1, tx)
      ensures cs[n].height - cs[j].height < cfg.ttlNumBlocks
    {
      ResidenceStep(cfg, bs, cs, j, n + 1, tx);
    }
  }

  /** At a real height the unsigned conversion is invisible, and a deadline that has passed stays passed. */
  lemma TimeoutExact(tx: Tx, height: int, now: int, height': int, now': int)
    requires 0 <= height <= height' < TWO_63 && now <= now'
    ensures TxTimedout(tx, height, now) <==>
            (0 < tx.timeoutHeight <= height) || (tx.timeoutAt.Some? && tx.timeoutAt.value <= now)
    ensures TxTimedout(tx, height, now) ==> TxTimedout(tx, height', now')
  {
    assert ToUint64(height) == height && ToUint64(height') == height';
  }

  // ---------------------------------------------------------------------------------------
  // Whole runs, said of what is configured, declared and observed

  /** Cycle `n` has something to do: a staged sender, a carried transaction, or a committed block. */
  predicate HasWork(s: Books, c: Cycle) { c.staged != {} || s.carry != [] || c.height != 0 }

  /** A height of the chain, an int64. */
  predicate Int64(h: int) { 0 - TWO_63 <= h < TWO_63 }

  /** The block height or the time that the transaction declares as its last has come. */
  predicate DeadlinePassed(tx: Tx, height: int, now: int) {
    || (tx.timeoutHeight > 0 && (if height < 0 then height + TWO_64 else height) >= tx.timeoutHeight)
    || (tx.timeoutAt.Some? && tx.timeoutAt.value <= now)
  }

  lemma DeadlineExact(tx: Tx, height: int, now: int)
    requires Int64(height)
    ensures TxTimedout(tx, height, now) <==> DeadlinePassed(tx, height, now)
  {
    assert ToUint64(height) == if height < 0 then height + TWO_64 else height;
  }

  /** It was first observed, in a residence unbroken since, at least `ttlNumBlocks` blocks ago. */
  ghost predicate Overstayed(cfg: Config, bs: seq<Books>, cs: seq<Cycle>, n: nat, tx: Tx)
    requires |bs| == |cs| + 1 && n < |cs|
  {
    cfg.ttlNumBlocks > 0 &&
    exists j: nat :: ResidentSince(cfg, bs, cs, j, n, tx) && cs[n].height - cs[j].height >= cfg.ttlNumBlocks
  }

  /**
   Eviction is exact over every run. A cycle with something to do scans its snapshot, and a
   transaction of the snapshot does not survive if and only if its declared deadline has passed,
   or a time to live is configured and its unbroken residence is that old.
   */
  lemma EvictionExact(cfg: Config, bs: seq<Books>, cs: seq<Cycle>, n: nat, tx: Tx)
    requires IsRun(cfg, bs, cs) && n < |cs| && Int64(cs[n].height) && HasWork(bs[n], cs[n])
    ensures Scans(bs, cs, n)
    ensures !AliveAt(cfg, bs, cs, n, tx) <==>
            tx !in cs[n].snapshot || DeadlinePassed(tx, cs[n].height, cs[n].now) || Overstayed(cfg, bs, cs, n, tx)
  {
    DeadlineExact(tx, cs[n].height, cs[n].now);
    if cfg.ttlNumBlocks > 0 && tx in cs[n].snapshot && !TxTimedout(tx, cs[n].height, cs[n].now) {
      TtlExact(cfg, bs, cs, n, tx);
    }
  }

  /** Candidate `i` of the batch is `tx`, its bytes encode, and its recheck failed. */
  predicate FailsAt(encodes: Tx -> bool, verdict: nat -> bool, batch: seq<Tx>, i: int, tx: Tx) {
    0 <= i < |batch| && batch[i] == tx && encodes(tx) && !verdict(i)
  }

  /**
   What a cycle of a run leaves in the pool: everything but the snapshot's transactions that do not
   survive, and those of the batch that were rechecked and failed.
   */
  lemma PoolExact(cfg: Config, bs: seq<Books>, cs: seq<Cycle>, n: nat, encodes: Tx -> bool, verdict: nat -> bool,
      pool: set<Tx>, tx: Tx)
    requires IsRun(cfg, bs, cs) && n < |cs| && Int64(cs[n].height) && HasWork(bs[n], cs[n])
    ensures tx in PoolAfter(cfg, encodes, verdict, pool, bs[n], cs[n]) <==>
            && tx in pool
            && !(tx in cs[n].snapshot &&
                 (DeadlinePassed(tx, cs[n].height, cs[n].now) || Overstayed(cfg, bs, cs, n, tx)))
            && !(exists i :: FailsAt(encodes, verdict, Batch(cfg, bs[n].arrival, bs[n].carry, cs[n]), i, tx))
  {
    EvictionExact(cfg, bs, cs, n, tx);
    var batch := Batch(cfg, bs[n].arrival, bs[n].carry, cs[n]);
    if i :| FailsAt(encodes, verdict, batch, i, tx) { assert batch[i] in Rejected(encodes, batch, verdict); }
    if tx in Rejected(encodes, batch, verdict) {
      var i :| 0 <= i < |batch| && encodes(batch[i]) && !verdict(i) && batch[i] == tx;
      assert FailsAt(encodes, verdict, batch, i, tx);
    }
  }

  /** Each cycle of a run with something to do batches or carries on what it owes, once, and nothing else. */
  lemma RunPartition(cfg: Config, bs: seq<Books>, cs: seq<Cycle>, n: nat, tx: Tx)
    requires IsRun(cfg, bs, cs) && n < |cs|
    ensures HasWork(bs[n], cs[n]) ==>
              multiset(Batch(cfg, bs[n].arrival, bs[n].carry, cs[n]))[tx] + multiset(bs[n + 1].carry)[tx] ==
              if Owed(cfg, bs[n].arrival, bs[n].carry, cs[n], tx) then 1 else 0
    ensures !HasWork(bs[n], cs[n]) ==> bs[n + 1] == bs[n]
  {
    CarryDistinct(cfg, bs, cs, n);
    assert bs[n + 1] == Next(cfg, bs[n], cs[n]);
    CyclePartition(cfg, bs[n].arrival, bs[n].carry, cs[n], tx);
  }
}
