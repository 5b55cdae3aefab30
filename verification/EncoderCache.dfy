/**
 The LRU cache of encoded transactions, with a hash that is computed lazily and outside the lock.

 The cache is specified as a recency list of entries, most recent first (`SetSpec`, `GetSpec`,
 `Drop`, `LookupSpec`, `StoreSpec`). The class keeps Go's representation, a map from
 transactions to list elements whose fields are updated in place, and is proved to act on its
 `View` as the specification says. `HashTx` is two critical sections, so it is two operations
 here and other operations may fall between them.
 */
module EncoderCache {
  import opened Common
  import Seqs

  type Hash = Bytes
  type Tx = nat
  type Tid = nat

  datatype Entry = Entry(tx: Tx, bz: Bytes, hash: Option<Hash>)

  // ---------------------------------------------------------------------------------------
  // Recency lists

  /** The index of the entry for `tx`, or the length of the list if there is none. */
  ghost function IndexOf(l: seq<Entry>, tx: Tx): (i: nat)
    ensures i <= |l|
    ensures i < |l| ==> l[i].tx == tx
    ensures i == |l| ==> forall j :: 0 <= j < |l| ==> l[j].tx != tx
  {
    if exists j :: 0 <= j < |l| && l[j].tx == tx then
      var j :| 0 <= j < |l| && l[j].tx == tx;
      j
    else |l|
  }

  ghost predicate Has(l: seq<Entry>, tx: Tx) { IndexOf(l, tx) < |l| }

  ghost function Drop(l: seq<Entry>, tx: Tx): (r: seq<Entry>) {
    var i := IndexOf(l, tx);
    if i < |l| then l[..i] + l[i + 1..] else l
  }

  /** `e` in front; another entry for the same transaction disappears. */
  ghost function Front(e: Entry, l: seq<Entry>): (r: seq<Entry>) { [e] + Drop(l, e.tx) }

  ghost function Capped(cap: int, l: seq<Entry>): (r: seq<Entry>) {
    if |l| >= cap && l != [] then l[..|l| - 1] else l
  }

  ghost function SetSpec(cap: int, maxTxBytes: int, l: seq<Entry>, tx: Tx, bz: Bytes): (r: seq<Entry>) {
    if |bz| > maxTxBytes then l
    else if Has(l, tx) then Front(Entry(tx, bz, None), l)
    else Front(Entry(tx, bz, None), Capped(cap, l))
  }

  ghost function GetSpec(l: seq<Entry>, tx: Tx): (r: seq<Entry>) {
    if Has(l, tx) then Front(l[IndexOf(l, tx)], l) else l
  }

  /** The first critical section of HashTx: a cached hash is a hit. */
  ghost function LookupSpec(l: seq<Entry>, tx: Tx): (r: seq<Entry>) {
    if Has(l, tx) && l[IndexOf(l, tx)].hash.Some? then GetSpec(l, tx) else l
  }

  /** The second critical section: the hash is kept only if the bytes are still those hashed. */
  ghost function StoreSpec(l: seq<Entry>, tx: Tx, bz: Bytes, h: Hash): (r: seq<Entry>) {
    if Has(l, tx) && l[IndexOf(l, tx)].bz == bz then Front(Entry(tx, bz, Some(h)), l) else l
  }

  ghost predicate Keyed(l: seq<Entry>) {
    forall i, j :: 0 <= i < j < |l| ==> l[i].tx != l[j].tx
  }

  ghost predicate HashesTrue(sha: Bytes -> Hash, l: seq<Entry>) {
    forall i :: 0 <= i < |l| && l[i].hash.Some? ==> l[i].hash.value == sha(l[i].bz)
  }

  function Bound(cap: int): (n: nat) { if cap < 1 then 1 else cap }

  ghost predicate Good(sha: Bytes -> Hash, cap: int, l: seq<Entry>) {
    Keyed(l) && HashesTrue(sha, l) && |l| <= Bound(cap)
  }

  // ---------------------------------------------------------------------------------------
  // The cache

  class Item {
    const tx: Tx
    var bz: Bytes
    var hash: Hash
    var hashed: bool

    constructor (tx: Tx, bz: Bytes)
      ensures this.tx == tx && this.bz == bz && !hashed
    {
      this.tx, this.bz, this.hash, this.hashed := tx, bz, [], false;
    }

    function Value(): (e: Entry)
      reads this
    {
      Entry(tx, bz, if hashed then Some(hash) else None)
    }
  }

  ghost function Values(s: seq<Item>): (l: seq<Entry>)
    reads s
    ensures |l| == |s|
    ensures forall i :: 0 <= i < |l| ==> l[i] == s[i].Value()
  {
    seq(|s|, i requires 0 <= i < |s| reads s => s[i].Value())
  }

  ghost predicate Once(s: seq<Item>) {
    forall i, j :: 0 <= i < j < |s| ==> s[i].tx != s[j].tx
  }

  /** The position of a list element. */
  function Position(s: seq<Item>, it: Item): (i: nat)
    requires it in s && Once(s)
    ensures i < |s| && s[i] == it
  {
    var i :| 0 <= i < |s| && s[i] == it; i
  }

  /** container/list Remove */
  function Unlink(s: seq<Item>, it: Item): (r: seq<Item>)
    requires it in s && Once(s)
  {
    s[..Position(s, it)] + s[Position(s, it) + 1..]
  }

  /** The map and the list hold the same elements, one for each transaction. */
  ghost predicate Linked(items: map<Tx, Item>, s: seq<Item>) {
    && Once(s)
    && (forall i :: 0 <= i < |s| ==> s[i].tx in items && items[s[i].tx] == s[i])
    && (forall tx :: tx in items ==> items[tx] in s && items[tx].tx == tx)
  }

  lemma LinkedUnlink(items: map<Tx, Item>, s: seq<Item>, tx: Tx)
    requires Linked(items, s) && tx in items
    ensures Linked(items - {tx}, Unlink(s, items[tx]))
    ensures forall it :: it in Unlink(s, items[tx]) <==> it in s && it != items[tx]
  {
    var i := Position(s, items[tx]);
    var r := Unlink(s, items[tx]);
    forall it | it in s && it != items[tx] ensures it in r {
      var j :| 0 <= j < |s| && s[j] == it;
      assert r[if j < i then j else j - 1] == it;
    }
  }

  lemma LinkedPush(items: map<Tx, Item>, s: seq<Item>, it: Item)
    requires Linked(items, s) && it.tx !in items
    ensures Linked(items[it.tx := it], [it] + s)
  {
    forall tx | tx in items ensures items[tx] in [it] + s { assert items[tx] in s; }
  }

  lemma LinkedMove(items: map<Tx, Item>, s: seq<Item>, tx: Tx)
    requires Linked(items, s) && tx in items
    ensures Linked(items, [items[tx]] + Unlink(s, items[tx]))
  {
    LinkedUnlink(items, s, tx);
    LinkedPush(items - {tx}, Unlink(s, items[tx]), items[tx]);
    assert (items - {tx})[tx := items[tx]] == items;
  }

  /** A transaction is in the map exactly when the list has an element for it, at this index. */
  lemma Located(items: map<Tx, Item>, s: seq<Item>, tx: Tx)
    requires Linked(items, s)
    ensures tx in items <==> Has(Values(s), tx)
    ensures tx in items ==> IndexOf(Values(s), tx) == Position(s, items[tx])
  {
    if tx in items {
      var i := Position(s, items[tx]);
      assert Values(s)[i].tx == tx;
    }
  }

  lemma ValuesSplit(s: seq<Item>, i: nat, j: nat)
    requires i <= j <= |s|
    ensures Values(s[..i] + s[j..]) == Values(s)[..i] + Values(s)[j..]
    ensures Values(s[..i]) == Values(s)[..i]
  {
  }

  lemma ValuesPush(s: seq<Item>, it: Item)
    ensures Values([it] + s) == [it.Value()] + Values(s)
  {
  }

  lemma ValuesUnlink(items: map<Tx, Item>, s: seq<Item>, tx: Tx)
    requires Linked(items, s) && tx in items
    ensures Values(Unlink(s, items[tx])) == Drop(Values(s), tx)
  {
    Located(items, s, tx);
    var i := Position(s, items[tx]);
    ValuesSplit(s, i, i + 1);
  }

  /** container/list MoveToFront */
  function MoveToFront(s: seq<Item>, it: Item): (r: seq<Item>)
    requires it in s && Once(s)
  {
    [it] + Unlink(s, it)
  }

  lemma Moved(items: map<Tx, Item>, s: seq<Item>, tx: Tx)
    requires Linked(items, s) && tx in items
    ensures Linked(items, MoveToFront(s, items[tx]))
    ensures forall it :: it in MoveToFront(s, items[tx]) <==> it in s
    ensures Values(MoveToFront(s, items[tx])) == [items[tx].Value()] + Drop(Values(s), tx)
  {
    LinkedUnlink(items, s, tx);
    LinkedMove(items, s, tx);
    ValuesUnlink(items, s, tx);
    ValuesPush(Unlink(s, items[tx]), items[tx]);
  }

  lemma LinkedBack(items: map<Tx, Item>, s: seq<Item>)
    requires Linked(items, s) && s != []
    ensures Linked(items - {s[|s| - 1].tx}, s[..|s| - 1])
  {
    var back := s[|s| - 1];
    LinkedUnlink(items, s, back.tx);
    assert Unlink(s, back) == s[..|s| - 1];
  }

  /** Changing the bytes or the hash of one element does not change what is left without it. */
  lemma DropUpdated(l: seq<Entry>, m: seq<Entry>, tx: Tx)
    requires |l| == |m| && (forall i :: 0 <= i < |l| ==> l[i].tx == m[i].tx && (l[i].tx != tx ==> l[i] == m[i]))
    requires Keyed(l)
    ensures Drop(l, tx) == Drop(m, tx)
  {
    assert Has(l, tx) ==> m[IndexOf(l, tx)].tx == tx;
  }

  class EncoderCache {
    const cap: int
    const maxTxBytes: int
    const sha: Bytes -> Hash
    var items: map<Tx, Item>
    var lru: seq<Item>

    ghost predicate Valid()
      reads this, lru
    {
      Linked(items, lru) && Good(sha, cap, View())
    }

    ghost function View(): (l: seq<Entry>)
      reads this, lru
    {
      Values(lru)
    }

    constructor (size: nat, maxTxBytes: nat, sha: Bytes -> Hash)
      ensures Valid() && View() == [] && this.sha == sha
      ensures cap == ToInt(if size == 0 then DEFAULT_CACHE_SIZE else size)
      ensures this.maxTxBytes == ToInt(if maxTxBytes == 0 then DEFAULT_MAX_TX_BYTES else maxTxBytes)
    {
      this.cap := ToInt(if size == 0 then DEFAULT_CACHE_SIZE else size);
      this.maxTxBytes := ToInt(if maxTxBytes == 0 then DEFAULT_MAX_TX_BYTES else maxTxBytes);
      this.sha, items, lru := sha, map[], [];
    }

    method Set(tx: Option<Tx>, bz: Bytes)
      requires Valid()
      modifies this, lru
      ensures Valid() && fresh(set it | it in lru && it !in old(lru))
      ensures tx.None? ==> View() == old(View())
      ensures tx.Some? ==> View() == SetSpec(cap, maxTxBytes, old(View()), tx.value, bz)
    {
      if tx.None? || |bz| > maxTxBytes { return; }
      SpecGood(sha, cap, maxTxBytes, View(), tx.value, bz);
      Located(items, lru, tx.value);
      if tx.value in items {
        Overwrite(tx.value, bz, items[tx.value].hash, false);
      } else {
        MakeRoom();
        Insert(tx.value, bz);
      }
    }

    /** An element changed in place: what the list holds besides it stays. */
    method Amend(it: Item, bz: Bytes, hash: Hash, hashed: bool)
      requires it in lru && Keyed(View())
      modifies it
      ensures it.Value() == Entry(it.tx, bz, if hashed then Some(hash) else None)
      ensures Drop(View(), it.tx) == Drop(old(View()), it.tx)
    {
      ghost var l := View();
      it.bz, it.hash, it.hashed := bz, hash, hashed;
      DropUpdated(l, View(), it.tx);
    }

    /** An element changed in place and moved to the front. */
    method Overwrite(tx: Tx, bz: Bytes, hash: Hash, hashed: bool)
      requires Linked(items, lru) && Keyed(View()) && tx in items
      modifies this`lru, lru
      ensures Linked(items, lru) && (forall it :: it in lru <==> it in old(lru))
      ensures View() == Front(Entry(tx, bz, if hashed then Some(hash) else None), old(View()))
    {
      var it := items[tx];
      Amend(it, bz, hash, hashed);
      Moved(items, lru, tx);
      lru := MoveToFront(lru, it);
    }

    /** Removal of the least recently used element when the cache is full. */
    method MakeRoom()
      requires Linked(items, lru)
      modifies this
      ensures Linked(items, lru) && (forall it :: it in lru ==> it in old(lru))
      ensures items.Keys <= old(items.Keys)
      ensures View() == Capped(cap, old(View()))
    {
      if |lru| >= cap {
        if lru != [] {
          var back := lru[|lru| - 1];
          LinkedBack(items, lru);
          ValuesSplit(lru, |lru| - 1, |lru|);
          items := items - {back.tx};
          lru := lru[..|lru| - 1];
        }
      }
    }

    method Insert(tx: Tx, bz: Bytes)
      requires Linked(items, lru) && tx !in items
      modifies this
      ensures Linked(items, lru) && (forall it :: it in lru && it !in old(lru) ==> fresh(it))
      ensures View() == Front(Entry(tx, bz, None), old(View()))
    {
      Located(items, lru, tx);
      var it := new Item(tx, bz);
      LinkedPush(items, lru, it);
      DropAbsent(View(), tx);
      ValuesPush(lru, it);
      items := items[tx := it];
      lru := [it] + lru;
    }

    method Evict(tx: Option<Tx>)
      requires Valid()
      modifies this
      ensures Valid() && (forall it :: it in lru ==> it in old(lru))
      ensures View() == if tx.None? then old(View()) else Drop(old(View()), tx.value)
    {
      if tx.None? { return; }
      Located(items, lru, tx.value);
      if tx.value in items {
        var it := items[tx.value];
        LinkedUnlink(items, lru, tx.value);
        ValuesUnlink(items, lru, tx.value);
        lru := Unlink(lru, it);
        items := items - {tx.value};
      }
    }

    /** MoveToFront of the element of a cached transaction. */
    method Promote(tx: Tx)
      requires Valid() && tx in items
      modifies this`lru
      ensures Valid() && (forall it :: it in lru <==> it in old(lru))
      ensures View() == GetSpec(old(View()), tx)
    {
      Located(items, lru, tx);
      Moved(items, lru, tx);
      GetGood(sha, cap, View(), tx);
      lru := MoveToFront(lru, items[tx]);
    }

    method Get(tx: Option<Tx>) returns (r: Option<Bytes>)
      requires Valid()
      modifies this`lru
      ensures Valid() && (forall it :: it in lru <==> it in old(lru))
      ensures View() == if tx.None? then old(View()) else GetSpec(old(View()), tx.value)
      ensures r == if tx.Some? && Has(old(View()), tx.value)
                   then Some(old(View())[IndexOf(old(View()), tx.value)].bz) else None
    {
      if tx.None? { return None; }
      Located(items, lru, tx.value);
      if tx.value !in items { return None; }
      Promote(tx.value);
      return Some(items[tx.value].bz);
    }

    /** HashTx up to its first unlock; None means the hash must be computed. */
    method HashLookup(tx: Tx) returns (r: Option<Hash>)
      requires Valid()
      modifies this`lru
      ensures Valid() && (forall it :: it in lru <==> it in old(lru))
      ensures View() == LookupSpec(old(View()), tx)
      ensures r == if Has(old(View()), tx) then old(View())[IndexOf(old(View()), tx)].hash else None
    {
      Located(items, lru, tx);
      if tx in items {
        if items[tx].hashed {
          Promote(tx);
          return Some(items[tx].hash);
        }
      }
      return None;
    }

    /** HashTx from its first unlock on: hash, lock again, and keep the hash if it still applies. */
    method HashStore(tx: Tx, bz: Bytes) returns (h: Hash)
      requires Valid()
      modifies this`lru, lru
      ensures Valid() && (forall it :: it in lru <==> it in old(lru))
      ensures h == sha(bz) && View() == StoreSpec(old(View()), tx, bz, h)
    {
      h := sha(bz);
      Located(items, lru, tx);
      StoreGood(sha, cap, View(), tx, bz);
      if tx in items {
        if items[tx].bz == bz {
          Overwrite(tx, bz, h, true);
        }
      }
    }

    /** HashTx when nothing comes between its two critical sections. */
    method HashTx(tx: Option<Tx>, bz: Bytes) returns (h: Hash)
      requires Valid()
      modifies this`lru, lru
      ensures Valid()
      ensures h == if tx.None? then sha(bz) else HashAnswer(sha, old(View()), tx.value, bz)
      ensures View() == if tx.None? then old(View()) else
                        if Has(old(View()), tx.value) &&
                            old(View())[IndexOf(old(View()), tx.value)].hash.Some? then GetSpec(old(View()), tx.value)
                        else StoreSpec(old(View()), tx.value, bz, sha(bz))
    {
      if tx.None? { return sha(bz); }
      var hit := HashLookup(tx.value);
      if hit.Some? { return hit.value; }
      h := HashStore(tx.value, bz);
    }
  }

  /** What HashTx answers: the hash on the entry if there is one, else the hash of the argument. */
  ghost function HashAnswer(sha: Bytes -> Hash, l: seq<Entry>, tx: Tx, bz: Bytes): (h: Hash) {
    if Has(l, tx) && l[IndexOf(l, tx)].hash.Some? then l[IndexOf(l, tx)].hash.value else sha(bz)
  }

  // ---------------------------------------------------------------------------------------
  // Every operation keeps a good list good

  lemma DropAbsent(l: seq<Entry>, tx: Tx)
    requires forall i :: 0 <= i < |l| ==> l[i].tx != tx
    ensures Drop(l, tx) == l
  {
  }

  lemma FrontGood(sha: Bytes -> Hash, cap: int, e: Entry, l: seq<Entry>)
    requires Keyed(l) && HashesTrue(sha, l) && |Drop(l, e.tx)| < Bound(cap)
    requires e.hash.Some? ==> e.hash.value == sha(e.bz)
    ensures Good(sha, cap, Front(e, l))
  {
  }

  lemma SpecGood(sha: Bytes -> Hash, cap: int, maxTxBytes: int, l: seq<Entry>, tx: Tx, bz: Bytes)
    requires Good(sha, cap, l)
    ensures Good(sha, cap, SetSpec(cap, maxTxBytes, l, tx, bz))
  {
    var e := Entry(tx, bz, None);
    if Has(l, tx) {
      FrontGood(sha, cap, e, l);
    } else {
      FrontGood(sha, cap, e, Capped(cap, l));
    }
  }

  lemma GetGood(sha: Bytes -> Hash, cap: int, l: seq<Entry>, tx: Tx)
    requires Good(sha, cap, l)
    ensures Good(sha, cap, GetSpec(l, tx))
  {
    if Has(l, tx) { FrontGood(sha, cap, l[IndexOf(l, tx)], l); }
  }

  lemma StoreGood(sha: Bytes -> Hash, cap: int, l: seq<Entry>, tx: Tx, bz: Bytes)
    requires Good(sha, cap, l)
    ensures Good(sha, cap, StoreSpec(l, tx, bz, sha(bz)))
  {
    if Has(l, tx) { FrontGood(sha, cap, Entry(tx, bz, Some(sha(bz))), l); }
  }

  lemma DropGood(sha: Bytes -> Hash, cap: int, l: seq<Entry>, tx: Tx)
    requires Good(sha, cap, l)
    ensures Good(sha, cap, Drop(l, tx))
  {
  }

  // ---------------------------------------------------------------------------------------
  // Interleavings

  datatype Op =
    | OpSet(tx: Tx, bz: Bytes)
    | OpGet(tx: Tx)
    | OpEvict(tx: Tx)
    | OpLookup(t: Tid, tx: Tx, bz: Bytes)   // first half of HashTx in goroutine t
    | OpStore(t: Tid)                       // second half, when the first was a miss

  /** The list, and the goroutines that are hashing between the two halves of HashTx. */
  datatype State = State(l: seq<Entry>, hashing: map<Tid, (Tx, Bytes)>)

  datatype Params = Params(sha: Bytes -> Hash, cap: int, maxTxBytes: int)

  ghost function Apply(p: Params, s: State, op: Op): (r: State) {
    match op
    case OpSet(tx, bz) => s.(l := SetSpec(p.cap, p.maxTxBytes, s.l, tx, bz))
    case OpGet(tx) => s.(l := GetSpec(s.l, tx))
    case OpEvict(tx) => s.(l := Drop(s.l, tx))
    case OpLookup(t, tx, bz) =>
      if t in s.hashing then s
      else if Has(s.l, tx) && s.l[IndexOf(s.l, tx)].hash.Some? then s.(l := LookupSpec(s.l, tx))
      else s.(hashing := s.hashing[t := (tx, bz)])
    case OpStore(t) =>
      if t !in s.hashing then s
      else
        var (tx, bz) := s.hashing[t];
        State(StoreSpec(s.l, tx, bz, p.sha(bz)), s.hashing - {t})
  }

  ghost function Exec(p: Params, s: State, ops: seq<Op>): (r: State) {
    if ops == [] then s else Apply(p, Exec(p, s, ops[..|ops| - 1]), ops[|ops| - 1])
  }

  lemma ApplyGood(p: Params, s: State, op: Op)
    requires Good(p.sha, p.cap, s.l)
    ensures Good(p.sha, p.cap, Apply(p, s, op).l)
  {
    match op
    case OpSet(tx, bz) => SpecGood(p.sha, p.cap, p.maxTxBytes, s.l, tx, bz);
    case OpGet(tx) => GetGood(p.sha, p.cap, s.l, tx);
    case OpEvict(tx) => DropGood(p.sha, p.cap, s.l, tx);
    case OpLookup(t, tx, bz) => GetGood(p.sha, p.cap, s.l, tx);
    case OpStore(t) => if t in s.hashing { StoreGood(p.sha, p.cap, s.l, s.hashing[t].0, s.hashing[t].1); }
  }

  /**
   In every interleaving the list has one entry for a transaction, at most max(cap, 1) entries,
   and every cached hash is the hash of the bytes it sits beside.
   */
  lemma {:induction false} AlwaysGood(p: Params, ops: seq<Op>)
    ensures Good(p.sha, p.cap, Exec(p, State([], map[]), ops).l)
  {
    if ops != [] {
      AlwaysGood(p, ops[..|ops| - 1]);
      ApplyGood(p, Exec(p, State([], map[]), ops[..|ops| - 1]), ops[|ops| - 1]);
    }
  }

  /**
   HashTx does not always return the hash of its argument. It does exactly when the entry it
   would hit, if any, holds bytes with the same hash.
   */
  lemma HashAnswerExact(sha: Bytes -> Hash, cap: int, l: seq<Entry>, tx: Tx, bz: Bytes)
    requires Good(sha, cap, l)
    ensures HashAnswer(sha, l, tx, bz) == sha(bz) <==>
            !(Has(l, tx) && l[IndexOf(l, tx)].hash.Some? && sha(l[IndexOf(l, tx)].bz) != sha(bz))
  {
  }

  /** The failing case is reachable: the bytes are replaced and hashed after a caller encoded. */
  lemma StaleArgument(p: Params, tx: Tx, before: Bytes, later: Bytes)
    requires p.sha(before) != p.sha(later) && |before| <= p.maxTxBytes && |later| <= p.maxTxBytes
    ensures var s1 := Apply(p, State([], map[]), OpSet(tx, before));
            var s2 := Apply(p, s1, OpSet(tx, later));
            var s3 := Apply(p, s2, OpLookup(0, tx, later));
            var s4 := Apply(p, s3, OpStore(0));
            HashAnswer(p.sha, s4.l, tx, before) == p.sha(later)
  {
    var s1 := Apply(p, State([], map[]), OpSet(tx, before));
    assert s1.l == [Entry(tx, before, None)];
    var s2 := Apply(p, s1, OpSet(tx, later));
    IndexUnique(s1.l, tx, 0);
    assert s2.l == [Entry(tx, later, None)];
    var s3 := Apply(p, s2, OpLookup(0, tx, later));
    IndexUnique(s2.l, tx, 0);
    assert s3 == State(s2.l, map[0 := (tx, later)]);
    var s4 := Apply(p, s3, OpStore(0));
    assert s4.l == [Entry(tx, later, Some(p.sha(later)))];
    IndexUnique(s4.l, tx, 0);
  }

  // ---------------------------------------------------------------------------------------
  // What least recently used means

  /** The transactions more recent than `tx`. */
  ghost function Ahead(l: seq<Entry>, tx: Tx): (r: set<Tx>) {
    set i | 0 <= i < IndexOf(l, tx) :: l[i].tx
  }

  /** The operation uses `tx`: an admitted Set, or a hit of Get or of either half of HashTx. */
  ghost predicate Refreshes(p: Params, s: State, op: Op, tx: Tx) {
    match op
    case OpSet(y, bz) => y == tx && |bz| <= p.maxTxBytes
    case OpGet(y) => y == tx && Has(s.l, tx)
    case OpEvict(_) => false
    case OpLookup(t, y, _) => y == tx && t !in s.hashing && Has(s.l, tx) && s.l[IndexOf(s.l, tx)].hash.Some?
    case OpStore(t) =>
      t in s.hashing && s.hashing[t].0 == tx && Has(s.l, tx) && s.l[IndexOf(s.l, tx)].bz == s.hashing[t].1
  }

  /** The transaction the operation is about, if it is used. */
  ghost function Uses(p: Params, s: State, op: Op): (r: set<Tx>)
    ensures forall tx :: tx in r <==> Refreshes(p, s, op, tx)
  {
    var about := if op.OpStore? then (if op.t in s.hashing then {s.hashing[op.t].0} else {}) else {op.tx};
    set tx | tx in about && Refreshes(p, s, op, tx)
  }

  /** The transactions used while `ops` ran. */
  ghost function Used(p: Params, s: State, ops: seq<Op>): (r: set<Tx>) {
    if ops == [] then {}
    else Used(p, s, ops[..|ops| - 1]) + Uses(p, Exec(p, s, ops[..|ops| - 1]), ops[|ops| - 1])
  }

  /** What an entry becomes when its own transaction is used: new bytes, or the hash of its bytes. */
  ghost function Renewed(p: Params, s: State, op: Op, e: Entry): (r: Entry) {
    if !Refreshes(p, s, op, e.tx) then e
    else if op.OpSet? then Entry(e.tx, op.bz, None)
    else if op.OpStore? then Entry(e.tx, e.bz, Some(p.sha(e.bz)))
    else e
  }

  ghost function RenewedBy(p: Params, s: State, ops: seq<Op>, e: Entry): (r: Entry)
    ensures r.tx == e.tx
  {
    if ops == [] then e
    else Renewed(p, Exec(p, s, ops[..|ops| - 1]), ops[|ops| - 1], RenewedBy(p, s, ops[..|ops| - 1], e))
  }

  /** The bytes of the last admitted Set of `tx`, starting from `bz`. */
  ghost function LastSet(p: Params, ops: seq<Op>, tx: Tx, bz: Bytes): (r: Bytes) {
    if ops == [] then bz
    else
      var op := ops[|ops| - 1];
      if op.OpSet? && op.tx == tx && |op.bz| <= p.maxTxBytes then op.bz
      else LastSet(p, ops[..|ops| - 1], tx, bz)
  }

  lemma {:induction false} RenewedBytes(p: Params, s: State, ops: seq<Op>, e: Entry)
    ensures RenewedBy(p, s, ops, e).bz == LastSet(p, ops, e.tx, e.bz)
  {
    if ops != [] { RenewedBytes(p, s, ops[..|ops| - 1], e); }
  }

  lemma {:induction false} AheadCount(l: seq<Entry>, n: nat)
    requires Keyed(l) && n <= |l|
    ensures |set i | 0 <= i < n :: l[i].tx| == n
  {
    if n > 0 {
      AheadCount(l, n - 1);
      assert (set i | 0 <= i < n :: l[i].tx) == (set i | 0 <= i < n - 1 :: l[i].tx) + {l[n - 1].tx};
    }
  }

  lemma IndexUnique(l: seq<Entry>, tx: Tx, i: nat)
    requires Keyed(l) && i < |l| && l[i].tx == tx
    ensures IndexOf(l, tx) == i
  {
  }

  lemma DropAhead(l: seq<Entry>, y: Tx, tx: Tx)
    requires Keyed(l) && Has(l, tx) && y != tx
    ensures Has(Drop(l, y), tx) && Ahead(Drop(l, y), tx) <= Ahead(l, tx)
    ensures Drop(l, y)[IndexOf(Drop(l, y), tx)] == l[IndexOf(l, tx)]
  {
    var i, k, r := IndexOf(l, tx), IndexOf(l, y), Drop(l, y);
    var i' := if k < i then i - 1 else i;
    IndexUnique(r, tx, i');
    forall x | x in Ahead(r, tx) ensures x in Ahead(l, tx) {
      var j :| 0 <= j < i' && r[j].tx == x;
      assert l[if j < k then j else j + 1].tx == x;
    }
  }

  lemma FrontAhead(e: Entry, l: seq<Entry>, tx: Tx)
    requires Keyed(l) && Has(l, tx) && e.tx != tx
    ensures Has(Front(e, l), tx) && Ahead(Front(e, l), tx) <= Ahead(l, tx) + {e.tx}
    ensures Front(e, l)[IndexOf(Front(e, l), tx)] == l[IndexOf(l, tx)]
  {
    DropAhead(l, e.tx, tx);
    var d, f := Drop(l, e.tx), Front(e, l);
    IndexUnique(f, tx, IndexOf(d, tx) + 1);
    forall x | x in Ahead(f, tx) ensures x in Ahead(l, tx) + {e.tx} {
      var j :| 0 <= j < IndexOf(f, tx) && f[j].tx == x;
      if j > 0 { assert d[j - 1].tx == x; }
    }
  }

  /** A full cache does not drop `tx` while fewer than cap transactions were used after it. */
  lemma CappedAhead(cap: int, l: seq<Entry>, y: Tx, tx: Tx, used: set<Tx>)
    requires Keyed(l) && Has(l, tx) && !Has(l, y)
    requires Ahead(l, tx) <= used && y in used && |used| < cap
    ensures Has(Capped(cap, l), tx) && IndexOf(Capped(cap, l), tx) == IndexOf(l, tx)
    ensures Ahead(Capped(cap, l), tx) == Ahead(l, tx)
  {
    var i := IndexOf(l, tx);
    AheadCount(l, i);
    assert |Ahead(l, tx) + {y}| == i + 1;
    Seqs.SubsetCount(Ahead(l, tx) + {y}, used);
    IndexUnique(Capped(cap, l), tx, i);
  }

  ghost predicate Kept(l: seq<Entry>, e: Entry, used: set<Tx>) {
    Has(l, e.tx) && l[IndexOf(l, e.tx)] == e && Ahead(l, e.tx) <= used
  }

  lemma RefreshKeeps(e: Entry, l: seq<Entry>, used: set<Tx>)
    requires Keyed(l)
    ensures Kept(Front(e, l), e, used) && Front(e, l)[0] == e
  {
    IndexUnique(Front(e, l), e.tx, 0);
  }

  /** A use puts an entry in front, of the list or, when it is new, of the list with room made. */
  lemma UseIsFront(p: Params, s: State, op: Op, tx: Tx) returns (e: Entry)
    requires Refreshes(p, s, op, tx)
    ensures e.tx == tx && Uses(p, s, op) == {tx}
    ensures Apply(p, s, op).l == Front(e, if Has(s.l, tx) then s.l else Capped(p.cap, s.l))
    ensures Has(s.l, tx) ==> e == Renewed(p, s, op, s.l[IndexOf(s.l, tx)])
    ensures op.OpSet? ==> e == Entry(tx, op.bz, None)
  {
    e := if op.OpSet? then Entry(tx, op.bz, None) else Renewed(p, s, op, s.l[IndexOf(s.l, tx)]);
  }

  lemma UnusedUnchanged(p: Params, s: State, op: Op)
    requires !op.OpEvict? && Uses(p, s, op) == {}
    ensures Apply(p, s, op).l == s.l
  {
    if op.OpStore? {
      assert op.t in s.hashing ==> !Refreshes(p, s, op, s.hashing[op.t].0);
    } else {
      assert !Refreshes(p, s, op, op.tx);
    }
  }

  /** Whatever makes a use, the entry is in front after it. */
  lemma UsePutsInFront(p: Params, s: State, op: Op, tx: Tx)
    requires Keyed(s.l) && Refreshes(p, s, op, tx)
    ensures var l := Apply(p, s, op).l;
            && l != [] && l[0].tx == tx && Kept(l, l[0], {})
            && (Has(s.l, tx) ==> l[0] == Renewed(p, s, op, s.l[IndexOf(s.l, tx)]))
            && (op.OpSet? ==> l[0] == Entry(tx, op.bz, None))
  {
    var e := UseIsFront(p, s, op, tx);
    RefreshKeeps(e, if Has(s.l, tx) then s.l else Capped(p.cap, s.l), {});
  }

  lemma OtherKeeps(p: Params, s: State, op: Op, e: Entry, used: set<Tx>)
    requires Keyed(s.l) && Kept(s.l, e, used) && !Refreshes(p, s, op, e.tx) && op != OpEvict(e.tx)
    requires |used + Uses(p, s, op)| < p.cap
    ensures Kept(Apply(p, s, op).l, e, used + Uses(p, s, op))
  {
    if op.OpEvict? {
      DropAhead(s.l, op.tx, e.tx);
    } else if y :| y in Uses(p, s, op) {
      var f := UseIsFront(p, s, op, y);
      if Has(s.l, y) {
        FrontAhead(f, s.l, e.tx);
      } else {
        CappedAhead(p.cap, s.l, y, e.tx, used + {y});
        FrontAhead(f, Capped(p.cap, s.l), e.tx);
      }
    } else {
      UnusedUnchanged(p, s, op);
    }
  }

  lemma UsedNext(p: Params, s: State, ops: seq<Op>, tx: Tx)
    requires ops != []
    ensures var front, mid := ops[..|ops| - 1], Exec(p, s, ops[..|ops| - 1]);
            var before, after := Used(p, s, front) - {tx}, Used(p, s, ops) - {tx};
            && |before| <= |after|
            && after == if Refreshes(p, mid, ops[|ops| - 1], tx) then before
                        else before + Uses(p, mid, ops[|ops| - 1])
  {
    var mid, op := Exec(p, s, ops[..|ops| - 1]), ops[|ops| - 1];
    assert forall y :: Refreshes(p, mid, op, tx) && Refreshes(p, mid, op, y) ==> y == tx;
    Seqs.SubsetCount(Used(p, s, ops[..|ops| - 1]) - {tx}, Used(p, s, ops) - {tx});
  }

  lemma {:induction false} KeptThrough(p: Params, s: State, ops: seq<Op>, e: Entry)
    requires Good(p.sha, p.cap, s.l) && Kept(s.l, e, {})
    requires OpEvict(e.tx) !in ops && |Used(p, s, ops) - {e.tx}| < p.cap
    ensures Good(p.sha, p.cap, Exec(p, s, ops).l)
    ensures Kept(Exec(p, s, ops).l, RenewedBy(p, s, ops, e), Used(p, s, ops) - {e.tx})
  {
    if ops != [] {
      var front, op := ops[..|ops| - 1], ops[|ops| - 1];
      var mid := Exec(p, s, front);
      UsedNext(p, s, ops, e.tx);
      KeptThrough(p, s, front, e);
      ApplyGood(p, mid, op);
      if Refreshes(p, mid, op, e.tx) {
        UsePutsInFront(p, mid, op, e.tx);
      } else {
        OtherKeeps(p, mid, op, RenewedBy(p, s, front, e), Used(p, s, front) - {e.tx});
      }
    }
  }

  lemma {:induction false} ExecSplits(p: Params, s: State, ops: seq<Op>, i: nat)
    requires i <= |ops|
    ensures Exec(p, s, ops) == Exec(p, Exec(p, s, ops[..i]), ops[i..])
  {
    if i == |ops| {
      assert ops[..i] == ops;
    } else {
      var front := ops[..|ops| - 1];
      ExecSplits(p, s, front, i);
      assert front[..i] == ops[..i] && front[i..] == ops[i..][..|ops| - i - 1];
    }
  }

  lemma {:induction false} ExecGood(p: Params, s: State, ops: seq<Op>)
    requires Good(p.sha, p.cap, s.l)
    ensures Good(p.sha, p.cap, Exec(p, s, ops).l)
  {
    if ops != [] {
      ExecGood(p, s, ops[..|ops| - 1]);
      ApplyGood(p, Exec(p, s, ops[..|ops| - 1]), ops[|ops| - 1]);
    }
  }

  /** The entry of `tx` right after its use by `ops[i]`. */
  ghost function UsedEntry(p: Params, s: State, ops: seq<Op>, i: nat, tx: Tx): (e: Entry)
    requires i < |ops| && (ops[i].OpSet? || Has(Exec(p, s, ops[..i]).l, tx))
  {
    var before := Exec(p, s, ops[..i]);
    if ops[i].OpSet? then Entry(tx, ops[i].bz, None)
    else Renewed(p, before, ops[i], before.l[IndexOf(before.l, tx)])
  }

  /**
   The least-recently-used promise, over every interleaving. If `ops[i]` uses `tx`, then it is
   still cached after `ops` as long as it was not evicted later and fewer than cap other
   transactions were used since; its bytes are those of its last admitted Set, and its hash is
   there if it was stored after that Set.
   */
  lemma RecentlyUsedSurvives(p: Params, s: State, ops: seq<Op>, i: nat, tx: Tx)
    requires Good(p.sha, p.cap, s.l) && i < |ops| && Refreshes(p, Exec(p, s, ops[..i]), ops[i], tx)
    requires OpEvict(tx) !in ops[i + 1..]
    requires |Used(p, Exec(p, s, ops[..i + 1]), ops[i + 1..]) - {tx}| < p.cap
    ensures var l, e := Exec(p, s, ops).l, UsedEntry(p, s, ops, i, tx);
            && Has(l, tx)
            && l[IndexOf(l, tx)] == RenewedBy(p, Exec(p, s, ops[..i + 1]), ops[i + 1..], e)
            && l[IndexOf(l, tx)].bz == LastSet(p, ops[i + 1..], tx, e.bz)
  {
    var before, mid, rest := Exec(p, s, ops[..i]), Exec(p, s, ops[..i + 1]), ops[i + 1..];
    assert ops[..i + 1][..i] == ops[..i];
    ExecGood(p, s, ops[..i]);
    ApplyGood(p, before, ops[i]);
    UsePutsInFront(p, before, ops[i], tx);
    KeptThrough(p, mid, rest, mid.l[0]);
    RenewedBytes(p, mid, rest, mid.l[0]);
    ExecSplits(p, s, ops, i + 1);
  }

  // ---------------------------------------------------------------------------------------
  // ... and what is not recently used goes

  /** While nothing is evicted by hand, whatever is used comes ahead of `tx` and stays there. */
  lemma {:induction false} UsedComeAhead(p: Params, s: State, ops: seq<Op>, tx: Tx)
    requires Good(p.sha, p.cap, s.l) && (forall op :: op in ops ==> !op.OpEvict?) && tx !in Used(p, s, ops)
    ensures var l := Exec(p, s, ops).l;
            Has(l, tx) ==> Has(s.l, tx) && Used(p, s, ops) <= Ahead(l, tx)
  {
    if ops != [] {
      var front, op := ops[..|ops| - 1], ops[|ops| - 1];
      var mid := Exec(p, s, front);
      UsedComeAhead(p, s, front, tx);
      ExecGood(p, s, front);
      assert op in ops && tx !in Uses(p, mid, op);
      ComesAhead(p, mid, op, tx);
    }
  }

  lemma ComesAhead(p: Params, s: State, op: Op, tx: Tx)
    requires Keyed(s.l) && !op.OpEvict? && !Refreshes(p, s, op, tx)
    ensures var l := Apply(p, s, op).l;
            Has(l, tx) ==> Has(s.l, tx) && Ahead(s.l, tx) + Uses(p, s, op) <= Ahead(l, tx)
  {
    if y :| y in Uses(p, s, op) {
      var e := UseIsFront(p, s, op, y);
      CappedHolds(p.cap, s.l, tx);
      FrontHolds(e, if Has(s.l, y) then s.l else Capped(p.cap, s.l), tx);
    } else {
      UnusedUnchanged(p, s, op);
    }
  }

  lemma CappedHolds(cap: int, l: seq<Entry>, tx: Tx)
    requires Keyed(l)
    ensures Has(Capped(cap, l), tx) ==> Has(l, tx) && IndexOf(Capped(cap, l), tx) == IndexOf(l, tx)
    ensures Has(Capped(cap, l), tx) ==> Ahead(Capped(cap, l), tx) == Ahead(l, tx)
  {
    if Has(Capped(cap, l), tx) { IndexUnique(l, tx, IndexOf(Capped(cap, l), tx)); }
  }

  lemma FrontHolds(e: Entry, l: seq<Entry>, tx: Tx)
    requires Keyed(l) && e.tx != tx
    ensures Has(Front(e, l), tx) ==> Has(l, tx) && Ahead(l, tx) + {e.tx} <= Ahead(Front(e, l), tx)
  {
    var f := Front(e, l);
    if Has(f, tx) {
      var at, k := IndexOf(f, tx), IndexOf(l, e.tx);
      var i := if at - 1 < k then at - 1 else at;
      IndexUnique(l, tx, i);
      forall x | x in Ahead(l, tx) ensures x in Ahead(f, tx) {
        var j :| 0 <= j < i && l[j].tx == x;
        if j != k { assert f[if j < k then j + 1 else j].tx == x; } else { assert f[0].tx == x; }
      }
      assert f[0].tx == e.tx;
    }
  }

  /**
   The other half: once cap other transactions have been used since and nothing was evicted by
   hand, a transaction not used again is gone. So the cache holds the cap most recently used.
   */
  lemma NotRecentlyUsedGoes(p: Params, s: State, ops: seq<Op>, tx: Tx)
    requires Good(p.sha, p.cap, s.l) && p.cap > 0 && (forall op :: op in ops ==> !op.OpEvict?)
    requires tx !in Used(p, s, ops) && |Used(p, s, ops)| >= p.cap
    ensures !Has(Exec(p, s, ops).l, tx)
  {
    var l := Exec(p, s, ops).l;
    ExecGood(p, s, ops);
    UsedComeAhead(p, s, ops, tx);
    if Has(l, tx) {
      AheadCount(l, IndexOf(l, tx));
      Seqs.SubsetCount(Used(p, s, ops), Ahead(l, tx));
    }
  }

  /** Evict removes that entry and no other. */
  lemma EvictRemoves(p: Params, s: State, tx: Tx, y: Tx)
    requires Keyed(s.l)
    ensures var l := Apply(p, s, OpEvict(tx)).l;
            && !Has(l, tx)
            && (y != tx && Has(s.l, y) ==> Has(l, y) && l[IndexOf(l, y)] == s.l[IndexOf(s.l, y)])
  {
    if y != tx && Has(s.l, y) { DropAhead(s.l, tx, y); }
  }

  /** What is not cached comes back only through an admitted Set. */
  lemma {:induction false} AbsentUntilSet(p: Params, s: State, ops: seq<Op>, tx: Tx)
    requires Good(p.sha, p.cap, s.l) && !Has(s.l, tx)
    requires forall op :: op in ops && op.OpSet? && op.tx == tx ==> |op.bz| > p.maxTxBytes
    ensures !Has(Exec(p, s, ops).l, tx)
  {
    if ops != [] {
      var front, op := ops[..|ops| - 1], ops[|ops| - 1];
      AbsentUntilSet(p, s, front, tx);
      ExecGood(p, s, front);
      assert op in ops;
      if !op.OpEvict? { ComesAhead(p, Exec(p, s, front), op, tx); }
    }
  }

  /** HashTx without interference leaves the hash of the entry's bytes behind, so the next one hits. */
  lemma HashedOnce(p: Params, s: State, t: Tid, tx: Tx, bz: Bytes, u: Tid, bz': Bytes)
    requires Good(p.sha, p.cap, s.l) && t !in s.hashing && Has(s.l, tx) && s.l[IndexOf(s.l, tx)].bz == bz
    ensures var r := Exec(p, s, [OpLookup(t, tx, bz), OpStore(t)]);
            && r.hashing == s.hashing && Kept(r.l, Entry(tx, bz, Some(p.sha(bz))), {})
            && (u !in r.hashing ==> Refreshes(p, r, OpLookup(u, tx, bz'), tx))
  {
    var ops := [OpLookup(t, tx, bz), OpStore(t)];
    var none: seq<Op> := [];
    assert ops[..1] == [ops[0]] && ops[..1][..0] == none && Exec(p, s, none) == s;
    var mid := Apply(p, s, ops[0]);
    assert Exec(p, s, ops[..1]) == mid;
    ApplyGood(p, s, ops[0]);
    if Refreshes(p, s, ops[0], tx) {
      UsePutsInFront(p, s, ops[0], tx);
    } else {
      UsePutsInFront(p, mid, ops[1], tx);
    }
  }
}
