/**
 The sharded LRU cache of decoded transactions and the caching decoder built on it.

 `base` is the wrapped decoder and `hash` is the seeded 64-bit xxhash; both are arbitrary
 functions, so two inputs may well have the same hash. A shard keeps a map from hashes to list
 elements and a recency list; elements are never changed, so they are values here.

 `ShardGet` and `ShardSet` specify a shard on its recency list. The last part runs any number
 of goroutines through the caching decoder, whose lookup and insertion are separate critical
 sections.
 */
module DecodeCache {
  import opened Common
  import Seqs

  type Tx = nat
  type Tid = nat

  datatype Result = Ok(tx: Tx) | Err(code: nat)

  datatype Item = Item(h: nat, key: Bytes, tx: Tx)

  const SHARD_COUNT: nat := 16
  const MAX_INT: nat := TWO_63 - 1

  // ---------------------------------------------------------------------------------------
  // One shard, on values

  ghost predicate Keyed(l: seq<Item>) {
    forall i, j :: 0 <= i < j < |l| ==> l[i].h != l[j].h
  }

  ghost predicate Has(l: seq<Item>, h: nat) { exists i :: 0 <= i < |l| && l[i].h == h }

  function IndexOf(l: seq<Item>, h: nat): (i: nat)
    requires Keyed(l) && Has(l, h)
    ensures i < |l| && l[i].h == h
  {
    var i :| 0 <= i < |l| && l[i].h == h; i
  }

  function Unlink(l: seq<Item>, h: nat): (r: seq<Item>)
    requires Keyed(l) && Has(l, h)
  {
    l[..IndexOf(l, h)] + l[IndexOf(l, h) + 1..]
  }

  function Promote(l: seq<Item>, h: nat): (r: seq<Item>)
    requires Keyed(l) && Has(l, h)
  {
    [l[IndexOf(l, h)]] + Unlink(l, h)
  }

  ghost predicate Hit(l: seq<Item>, h: nat, bz: Bytes)
    requires Keyed(l)
  {
    Has(l, h) && l[IndexOf(l, h)].key == bz
  }

  ghost function ShardGet(l: seq<Item>, h: nat, bz: Bytes): (r: seq<Item>)
    requires Keyed(l)
  {
    if Hit(l, h, bz) then Promote(l, h) else l
  }

  /** The list once a colliding entry and, if the shard is still full, the oldest one are gone. */
  ghost function Room(cap: nat, l: seq<Item>, h: nat): (r: seq<Item>)
    requires Keyed(l)
  {
    var m := if Has(l, h) then Unlink(l, h) else l;
    if m != [] && |m| >= cap then m[..|m| - 1] else m
  }

  ghost function ShardSet(cap: nat, l: seq<Item>, h: nat, bz: Bytes, tx: Tx): (r: seq<Item>)
    requires Keyed(l)
  {
    if Hit(l, h, bz) then Promote(l, h) else [Item(h, bz, tx)] + Room(cap, l, h)
  }

  /** What a shard may hold: entries of its own stripe, under their own hash, decoded truly. */
  ghost predicate Good(base: Bytes -> Result, hash: Bytes -> nat, cap: nat, stripe: nat, l: seq<Item>) {
    && Keyed(l) && |l| <= cap
    && (forall i :: 0 <= i < |l| ==>
        hash(l[i].key) == l[i].h && l[i].h % SHARD_COUNT == stripe &&
        base(l[i].key) == Ok(l[i].tx))
  }

  lemma UnlinkKeyed(l: seq<Item>, h: nat)
    requires Keyed(l) && Has(l, h)
    ensures Keyed(Unlink(l, h)) && !Has(Unlink(l, h), h) && |Unlink(l, h)| == |l| - 1
    ensures forall e :: e in Unlink(l, h) <==> e in l && e.h != h
  {
    var i, r := IndexOf(l, h), Unlink(l, h);
    forall e | e in l && e.h != h ensures e in r {
      var j :| 0 <= j < |l| && l[j] == e;
      assert r[if j < i then j else j - 1] == e;
    }
  }

  lemma PromoteGood(base: Bytes -> Result, hash: Bytes -> nat, cap: nat, stripe: nat, l: seq<Item>, h: nat)
    requires Good(base, hash, cap, stripe, l) && Has(l, h)
    ensures Good(base, hash, cap, stripe, Promote(l, h))
    ensures forall e :: e in Promote(l, h) <==> e in l
  {
    UnlinkKeyed(l, h);
  }

  lemma SetGood(base: Bytes -> Result, hash: Bytes -> nat, cap: nat, stripe: nat, l: seq<Item>, bz: Bytes, tx: Tx)
    requires Good(base, hash, cap, stripe, l) && cap > 0
    requires hash(bz) % SHARD_COUNT == stripe && base(bz) == Ok(tx)
    ensures Good(base, hash, cap, stripe, ShardSet(cap, l, hash(bz), bz, tx))
  {
    var h := hash(bz);
    if Has(l, h) { UnlinkKeyed(l, h); }
    if Hit(l, h, bz) { PromoteGood(base, hash, cap, stripe, l, h); }
  }

  // ---------------------------------------------------------------------------------------
  // How long an entry lasts in its shard

  datatype ShardOp = DoGet(h: nat, bz: Bytes) | DoSet(h: nat, bz: Bytes, tx: Tx)

  lemma PromoteKeyed(l: seq<Item>, h: nat)
    requires Keyed(l) && Has(l, h)
    ensures Keyed(Promote(l, h)) && |Promote(l, h)| == |l|
  {
    UnlinkKeyed(l, h);
  }

  ghost function ShardStep(cap: nat, l: seq<Item>, op: ShardOp): (r: seq<Item>)
    requires Keyed(l)
  {
    match op
    case DoGet(h, bz) => ShardGet(l, h, bz)
    case DoSet(h, bz, tx) => ShardSet(cap, l, h, bz, tx)
  }

  lemma StepKeyed(cap: nat, l: seq<Item>, op: ShardOp)
    requires Keyed(l) && |l| <= cap && cap > 0
    ensures Keyed(ShardStep(cap, l, op)) && |ShardStep(cap, l, op)| <= cap
  {
    if Has(l, op.h) {
      PromoteKeyed(l, op.h);
      UnlinkKeyed(l, op.h);
    }
  }

  /** The recency list after `ops`, which the goroutines using the shard issue in this order. */
  ghost function ShardExec(cap: nat, l: seq<Item>, ops: seq<ShardOp>): (r: seq<Item>)
    requires Keyed(l) && |l| <= cap && cap > 0
    ensures Keyed(r) && |r| <= cap
  {
    if ops == [] then l
    else
      var m := ShardExec(cap, l, ops[..|ops| - 1]);
      StepKeyed(cap, m, ops[|ops| - 1]);
      ShardStep(cap, m, ops[|ops| - 1])
  }

  /** The operation uses the entry of this hash: a hit, or an insertion. */
  ghost predicate ShardUses(l: seq<Item>, op: ShardOp)
    requires Keyed(l)
  {
    op.DoSet? || Hit(l, op.h, op.bz)
  }

  /** The hashes used while `ops` ran. */
  ghost function HashesUsed(cap: nat, l: seq<Item>, ops: seq<ShardOp>): (r: set<nat>)
    requires Keyed(l) && |l| <= cap && cap > 0
  {
    if ops == [] then {}
    else
      var front, op := ops[..|ops| - 1], ops[|ops| - 1];
      HashesUsed(cap, l, front) + if ShardUses(ShardExec(cap, l, front), op) then {op.h} else {}
  }

  /** `e` stands at index `i`, and everything ahead of it was used. */
  ghost predicate StandsAt(l: seq<Item>, e: Item, used: set<nat>, i: int) {
    0 <= i < |l| && l[i] == e && forall j :: 0 <= j < i ==> l[j].h in used
  }

  ghost predicate Stands(l: seq<Item>, e: Item, used: set<nat>) { exists i :: StandsAt(l, e, used, i) }

  lemma {:induction false} AheadCount(l: seq<Item>, n: nat)
    requires Keyed(l) && n <= |l|
    ensures |set i | 0 <= i < n :: l[i].h| == n
  {
    if n > 0 {
      AheadCount(l, n - 1);
      assert (set i | 0 <= i < n :: l[i].h) == (set i | 0 <= i < n - 1 :: l[i].h) + {l[n - 1].h};
    }
  }

  lemma UnlinkStands(l: seq<Item>, h: nat, e: Item, used: set<nat>)
    requires Keyed(l) && Has(l, h) && h != e.h && Stands(l, e, used)
    ensures Stands(Unlink(l, h), e, used)
  {
    var i :| StandsAt(l, e, used, i);
    var k := IndexOf(l, h);
    assert StandsAt(Unlink(l, h), e, used, if k < i then i - 1 else i);
  }

  lemma PushStands(x: Item, l: seq<Item>, e: Item, used: set<nat>)
    requires Stands(l, e, used)
    ensures Stands([x] + l, e, used + {x.h})
  {
    var i :| StandsAt(l, e, used, i);
    assert StandsAt([x] + l, e, used + {x.h}, i + 1);
  }

  lemma EvictStands(cap: nat, l: seq<Item>, h: nat, e: Item, used: set<nat>)
    requires Keyed(l) && !Has(l, h) && |l| <= cap && Stands(l, e, used) && |used + {h}| < cap
    ensures Stands(Room(cap, l, h), e, used)
  {
    var i :| StandsAt(l, e, used, i);
    var ahead := set j | 0 <= j < i :: l[j].h;
    AheadCount(l, i);
    assert h !in ahead;
    Seqs.SubsetCount(ahead + {h}, used + {h});
    assert StandsAt(Room(cap, l, h), e, used, i);
  }

  lemma OtherStands(cap: nat, l: seq<Item>, op: ShardOp, e: Item, used: set<nat>)
    requires Keyed(l) && |l| <= cap && Stands(l, e, used) && op.h != e.h && ShardUses(l, op) && |used + {op.h}| < cap
    ensures Stands(ShardStep(cap, l, op), e, used + {op.h})
  {
    if Has(l, op.h) {
      UnlinkStands(l, op.h, e, used);
      UnlinkKeyed(l, op.h);
      PushStands(l[IndexOf(l, op.h)], Unlink(l, op.h), e, used);
      if op.DoSet? { PushStands(Item(op.h, op.bz, op.tx), Unlink(l, op.h), e, used); }
    } else {
      EvictStands(cap, l, op.h, e, used);
      PushStands(Item(op.h, op.bz, op.tx), Room(cap, l, op.h), e, used);
    }
  }

  /** A use puts the entry in front: the one found, or a new one. */
  lemma UsePutsInFront(cap: nat, l: seq<Item>, op: ShardOp)
    requires Keyed(l) && |l| <= cap && cap > 0 && ShardUses(l, op)
    ensures var r := ShardStep(cap, l, op);
            && r != [] && r[0].h == op.h && r[0].key == op.bz
            && (if Hit(l, op.h, op.bz) then r[0] == l[IndexOf(l, op.h)] else op.DoSet? && r[0].tx == op.tx)
  {
  }

  lemma UsedNext(cap: nat, l: seq<Item>, ops: seq<ShardOp>, h: nat)
    requires Keyed(l) && |l| <= cap && cap > 0 && ops != []
    ensures var front, op := ops[..|ops| - 1], ops[|ops| - 1];
            var before, after := HashesUsed(cap, l, front) - {h}, HashesUsed(cap, l, ops) - {h};
            && |before| <= |after|
            && after == if op.h == h || !ShardUses(ShardExec(cap, l, front), op) then before else before + {op.h}
  {
    Seqs.SubsetCount(HashesUsed(cap, l, ops[..|ops| - 1]) - {h}, HashesUsed(cap, l, ops) - {h});
  }

  /** Nobody stores other bytes under the hash of `e`. */
  ghost predicate NoCollision(ops: seq<ShardOp>, e: Item) {
    forall op :: op in ops && op.DoSet? && op.h == e.h ==> op.bz == e.key
  }

  lemma {:induction false} StandsThrough(cap: nat, l: seq<Item>, ops: seq<ShardOp>, e: Item)
    requires Keyed(l) && |l| <= cap && l != [] && l[0] == e && NoCollision(ops, e)
    requires |HashesUsed(cap, l, ops) - {e.h}| < cap
    ensures Stands(ShardExec(cap, l, ops), e, HashesUsed(cap, l, ops) - {e.h})
  {
    if ops == [] {
      assert StandsAt(l, e, HashesUsed(cap, l, ops) - {e.h}, 0);
    } else {
      var front, op := ops[..|ops| - 1], ops[|ops| - 1];
      var used, m := HashesUsed(cap, l, front) - {e.h}, ShardExec(cap, l, front);
      UsedNext(cap, l, ops, e.h);
      assert NoCollision(front, e) && op in ops;
      StandsThrough(cap, l, front, e);
      if op.h == e.h {
        OwnStands(cap, m, op, e, used);
      } else if ShardUses(m, op) {
        OtherStands(cap, m, op, e, used);
      }
    }
  }

  lemma OwnStands(cap: nat, l: seq<Item>, op: ShardOp, e: Item, used: set<nat>)
    requires Keyed(l) && Stands(l, e, used) && op.h == e.h && (op.DoSet? ==> op.bz == e.key)
    ensures Stands(ShardStep(cap, l, op), e, used)
  {
    var i :| StandsAt(l, e, used, i);
    assert IndexOf(l, e.h) == i;
    if op.bz == e.key { assert StandsAt(ShardStep(cap, l, op), e, used, 0); }
  }

  lemma {:induction false} ShardSplits(cap: nat, l: seq<Item>, ops: seq<ShardOp>, i: nat)
    requires Keyed(l) && |l| <= cap && cap > 0 && i <= |ops|
    ensures ShardExec(cap, l, ops) == ShardExec(cap, ShardExec(cap, l, ops[..i]), ops[i..])
  {
    if i == |ops| {
      assert ops[..i] == ops;
    } else {
      var front := ops[..|ops| - 1];
      ShardSplits(cap, l, front, i);
      assert front[..i] == ops[..i] && front[i..] == ops[i..][..|ops| - i - 1];
    }
  }

  /**
   The least-recently-used promise of one shard, over every order in which its users come. If
   `ops[i]` is a hit or an insertion, its bytes are still found after `ops`, with the transaction
   found or inserted then, as long as no other bytes of the same hash were stored since and fewer
   than cap other hashes were used since.
   */
  lemma {:induction false} RecentlyUsedIsHit(cap: nat, l: seq<Item>, ops: seq<ShardOp>, i: nat)
    requires Keyed(l) && |l| <= cap && cap > 0 && i < |ops| && ShardUses(ShardExec(cap, l, ops[..i]), ops[i])
    requires forall op :: op in ops[i + 1..] && op.DoSet? && op.h == ops[i].h ==> op.bz == ops[i].bz
    requires |HashesUsed(cap, ShardExec(cap, l, ops[..i + 1]), ops[i + 1..]) - {ops[i].h}| < cap
    ensures var m, r, h, bz := ShardExec(cap, l, ops[..i]), ShardExec(cap, l, ops), ops[i].h, ops[i].bz;
            && Hit(r, h, bz)
            && (Hit(m, h, bz) ==> r[IndexOf(r, h)] == m[IndexOf(m, h)])
            && (!Hit(m, h, bz) ==> ops[i].DoSet? && r[IndexOf(r, h)] == Item(h, bz, ops[i].tx))
  {
    var m, rest := ShardExec(cap, l, ops[..i]), ops[i + 1..];
    assert ops[..i + 1][..i] == ops[..i];
    UsePutsInFront(cap, m, ops[i]);
    var mid := ShardExec(cap, l, ops[..i + 1]);
    StandsThrough(cap, mid, rest, mid[0]);
    ShardSplits(cap, l, ops, i + 1);
    var r := ShardExec(cap, l, ops);
    var at :| StandsAt(r, mid[0], HashesUsed(cap, mid, rest) - {mid[0].h}, at);
    assert r[at].h == mid[0].h;
  }

  /** If the hash is listed, everything used stands ahead of it. */
  ghost predicate Behind(l: seq<Item>, h: nat, used: set<nat>) {
    forall i, x :: 0 <= i < |l| && l[i].h == h && x in used ==> exists j :: 0 <= j < i && l[j].h == x
  }

  lemma UnlinkBehind(l: seq<Item>, g: nat, h: nat, used: set<nat>)
    requires Keyed(l) && Has(l, g) && g != h && Behind(l, h, used)
    ensures Behind(Unlink(l, g), h, used - {g})
  {
    var k, r := IndexOf(l, g), Unlink(l, g);
    forall i, x | 0 <= i < |r| && r[i].h == h && x in used - {g} ensures exists j :: 0 <= j < i && r[j].h == x {
      var j :| 0 <= j < (if i < k then i else i + 1) && l[j].h == x;
      assert r[if j < k then j else j - 1].h == x;
    }
  }

  lemma PushBehind(e: Item, l: seq<Item>, h: nat, used: set<nat>)
    requires e.h != h && Behind(l, h, used - {e.h})
    ensures Behind([e] + l, h, used + {e.h})
  {
    var r := [e] + l;
    forall i, x | 0 <= i < |r| && r[i].h == h && x in used + {e.h} ensures exists j :: 0 <= j < i && r[j].h == x {
      if x == e.h {
        assert r[0].h == x;
      } else {
        assert l[i - 1].h == h && x in used - {e.h};
        var j :| 0 <= j < i - 1 && l[j].h == x;
        assert r[j + 1].h == x;
      }
    }
  }

  lemma PrefixBehind(l: seq<Item>, n: nat, h: nat, used: set<nat>)
    requires n <= |l| && Behind(l, h, used)
    ensures Behind(l[..n], h, used)
  {
    forall i, x | 0 <= i < n && l[i].h == h && x in used ensures exists j :: 0 <= j < i && l[..n][j].h == x {
      var j :| 0 <= j < i && l[j].h == x;
      assert l[..n][j].h == x;
    }
  }

  /** Whatever is used comes ahead of what is not. */
  lemma ComesAhead(cap: nat, l: seq<Item>, op: ShardOp, h: nat, used: set<nat>)
    requires Keyed(l) && cap > 0 && op.h != h && ShardUses(l, op) && Behind(l, h, used)
    ensures Behind(ShardStep(cap, l, op), h, used + {op.h})
  {
    assert Behind(l, h, used - {op.h});
    var m := if Has(l, op.h) then Unlink(l, op.h) else l;
    if Has(l, op.h) { UnlinkBehind(l, op.h, h, used); }
    if Hit(l, op.h, op.bz) {
      PushBehind(l[IndexOf(l, op.h)], m, h, used);
    } else {
      if m != [] { PrefixBehind(m, |m| - 1, h, used - {op.h}); }
      PushBehind(Item(op.h, op.bz, op.tx), Room(cap, l, op.h), h, used);
    }
  }

  lemma {:induction false} UsedComeAhead(cap: nat, l: seq<Item>, ops: seq<ShardOp>, h: nat)
    requires Keyed(l) && |l| <= cap && cap > 0 && h !in HashesUsed(cap, l, ops)
    ensures Behind(ShardExec(cap, l, ops), h, HashesUsed(cap, l, ops))
  {
    if ops != [] {
      var front, op := ops[..|ops| - 1], ops[|ops| - 1];
      UsedComeAhead(cap, l, front, h);
      var m, used := ShardExec(cap, l, front), HashesUsed(cap, l, front);
      if ShardUses(m, op) {
        ComesAhead(cap, m, op, h, used);
      } else {
        assert used + {} == used;
      }
    }
  }

  /** The other half: once cap other hashes have been used, one not used again is gone. */
  lemma NotRecentlyUsedGoes(cap: nat, l: seq<Item>, ops: seq<ShardOp>, h: nat)
    requires Keyed(l) && |l| <= cap && cap > 0
    requires h !in HashesUsed(cap, l, ops) && |HashesUsed(cap, l, ops)| >= cap
    ensures !Has(ShardExec(cap, l, ops), h)
  {
    var r, used := ShardExec(cap, l, ops), HashesUsed(cap, l, ops);
    UsedComeAhead(cap, l, ops, h);
    if i :| 0 <= i < |r| && r[i].h == h {
      AheadCount(r, i);
      Seqs.SubsetCount(used, set j | 0 <= j < i :: r[j].h);
    }
  }

  /** Other bytes of the same hash, once stored, take the entry's place at once. */
  lemma CollisionReplaces(cap: nat, l: seq<Item>, e: Item, bz: Bytes, tx: Tx)
    requires Keyed(l) && |l| <= cap && e in l && bz != e.key
    ensures var r := ShardSet(cap, l, e.h, bz, tx); e !in r && Keyed(r) && !Hit(r, e.h, e.key) && Hit(r, e.h, bz)
  {
    var i :| 0 <= i < |l| && l[i] == e;
    assert IndexOf(l, e.h) == i;
    UnlinkKeyed(l, e.h);
    var r := ShardSet(cap, l, e.h, bz, tx);
    assert r[0] == Item(e.h, bz, tx);
  }

  // ---------------------------------------------------------------------------------------
  // The shard and the cache

  /** The map and the recency list are in bijection. */
  ghost predicate Linked(items: map<nat, Item>, l: seq<Item>) {
    && Keyed(l)
    && (forall e :: e in l ==> e.h in items && items[e.h] == e)
    && (forall h :: h in items ==> items[h] in l && items[h].h == h)
  }

  lemma LinkedHas(items: map<nat, Item>, l: seq<Item>, h: nat)
    requires Linked(items, l)
    ensures h in items <==> Has(l, h)
    ensures h in items ==> l[IndexOf(l, h)] == items[h]
  {
    if h in items {
      var i :| 0 <= i < |l| && l[i] == items[h];
      assert l[i].h == h;
    }
  }

  lemma LinkedUnlink(items: map<nat, Item>, l: seq<Item>, h: nat)
    requires Linked(items, l) && h in items && Has(l, h)
    ensures Linked(items - {h}, Unlink(l, h))
  {
    UnlinkKeyed(l, h);
  }

  lemma LinkedPush(items: map<nat, Item>, l: seq<Item>, e: Item)
    requires Linked(items, l) && e.h !in items
    ensures Linked(items[e.h := e], [e] + l)
  {
    forall h | h in items ensures items[h] in [e] + l { assert items[h] in l; }
  }

  class CacheShard {
    const cap: nat
    var items: map<nat, Item>
    var lru: seq<Item>

    ghost predicate Valid(base: Bytes -> Result, hash: Bytes -> nat, stripe: nat)
      reads this
    {
      cap > 0 && Linked(items, lru) && Good(base, hash, cap, stripe, lru)
    }

    constructor (cap: nat)
      ensures this.cap == cap && items == map[] && lru == []
    {
      this.cap, items, lru := cap, map[], [];
    }

    method MoveToFront(h: nat)
      requires Linked(items, lru) && h in items
      modifies this`lru
      ensures Has(old(lru), h) && lru == Promote(old(lru), h) && Linked(items, lru)
    {
      LinkedHas(items, lru, h);
      LinkedUnlink(items, lru, h);
      LinkedPush(items - {h}, Unlink(lru, h), items[h]);
      assert (items - {h})[h := items[h]] == items;
      lru := Promote(lru, h);
    }

    method Get(h: nat, bz: Bytes) returns (r: Option<Tx>)
      requires Linked(items, lru)
      modifies this`lru
      ensures Linked(items, lru) && lru == ShardGet(old(lru), h, bz)
      ensures r == if Hit(old(lru), h, bz) then Some(old(lru)[IndexOf(old(lru), h)].tx) else None
    {
      LinkedHas(items, lru, h);
      if h !in items { return None; }
      var item := items[h];
      if item.key != bz { return None; }
      MoveToFront(h);
      return Some(item.tx);
    }

    method Remove(h: nat)
      requires Linked(items, lru) && h in items
      modifies this`items, this`lru
      ensures Has(old(lru), h) && lru == Unlink(old(lru), h) && items == old(items) - {h} && Linked(items, lru)
    {
      LinkedHas(items, lru, h);
      LinkedUnlink(items, lru, h);
      items := items - {h};
      lru := Unlink(lru, h);
    }

    /** The eviction branch indexes the back of the list: a shard that is full is never empty. */
    method Set(h: nat, bz: Bytes, tx: Tx)
      requires Linked(items, lru) && cap > 0
      modifies this`items, this`lru
      ensures Linked(items, lru) && lru == ShardSet(cap, old(lru), h, bz, tx)
    {
      LinkedHas(items, lru, h);
      if h in items {
        if items[h].key == bz {
          MoveToFront(h);
          return;
        }
        Remove(h);
      }
      EvictBack();
      LinkedPush(items, lru, Item(h, bz, tx));
      items := items[h := Item(h, bz, tx)];
      lru := [Item(h, bz, tx)] + lru;
    }

    method EvictBack()
      requires Linked(items, lru) && cap > 0
      modifies this`items, this`lru
      ensures Linked(items, lru) && items.Keys <= old(items.Keys)
      ensures lru == if |old(lru)| >= cap then old(lru)[..|old(lru)| - 1] else old(lru)
    {
      if |lru| >= cap {
        var back := lru[|lru| - 1];
        assert Has(lru, back.h);
        ghost var l := lru;
        Remove(back.h);
        assert l[..|l| - 1] + l[|l|..] == l[..|l| - 1];
      }
    }
  }

  function EffectiveSize(size: nat): (n: nat) { if size == 0 then DEFAULT_CACHE_SIZE else size }

  /** The capacity NewDecodeCache gives each shard. */
  function ShardCap(size: nat): (cap: nat)
    ensures cap > 0
    ensures SHARD_COUNT * cap < EffectiveSize(size) + SHARD_COUNT
    ensures SHARD_COUNT * cap >= (if size == 0 then DEFAULT_CACHE_SIZE else size) || cap == MAX_INT / SHARD_COUNT
  {
    var n := EffectiveSize(size);
    var perShard := n / SHARD_COUNT + (if n % SHARD_COUNT != 0 then 1 else 0);
    if perShard <= MAX_INT / SHARD_COUNT then perShard else MAX_INT / SHARD_COUNT
  }

  class DecodeCache {
    const shards: seq<CacheShard>
    const maxTxBytes: int
    const base: Bytes -> Result
    const hash: Bytes -> nat
    ghost const size: nat

    ghost predicate Valid()
      reads this, shards
    {
      && |shards| == SHARD_COUNT
      && (forall i, j :: 0 <= i < j < |shards| ==> shards[i] != shards[j])
      && (forall i :: 0 <= i < |shards| ==> shards[i].cap == ShardCap(size) && shards[i].Valid(base, hash, i))
    }

    constructor (size: nat, maxTxBytes: nat, base: Bytes -> Result, hash: Bytes -> nat)
      ensures Valid() && fresh(shards)
      ensures this.base == base && this.hash == hash && this.size == size
      ensures this.maxTxBytes == ToInt(if maxTxBytes == 0 then DEFAULT_MAX_TX_BYTES else maxTxBytes)
      ensures forall i :: 0 <= i < |shards| ==> shards[i].lru == []
    {
      var made: seq<CacheShard> := [];
      for i := 0 to SHARD_COUNT
        invariant |made| == i && fresh(made)
        invariant forall k :: 0 <= k < i ==>
                made[k].cap == ShardCap(size) && made[k].items == map[] &&
                made[k].lru == []
        invariant forall k, m :: 0 <= k < m < i ==> made[k] != made[m]
      {
        var s := new CacheShard(ShardCap(size));
        made := made + [s];
      }
      this.shards := made;
      this.maxTxBytes := ToInt(if maxTxBytes == 0 then DEFAULT_MAX_TX_BYTES else maxTxBytes);
      this.base, this.hash, this.size := base, hash, size;
    }

    /** The recency lists of the shards. */
    ghost function Lists(): (ls: seq<seq<Item>>)
      reads this, shards
    {
      seq(|shards|, i requires 0 <= i < |shards| reads this, shards => shards[i].lru)
    }

    ghost function Cfg(): (p: Params)
    {
      Params(base, hash, ShardCap(size), maxTxBytes)
    }

    lemma ListsGood()
      requires Valid()
      ensures AllGood(Cfg(), Lists())
    {
      forall i | 0 <= i < SHARD_COUNT ensures Good(base, hash, ShardCap(size), i, Lists()[i]) {
        assert shards[i].Valid(base, hash, i);
      }
    }

    method Get(bz: Bytes) returns (r: Option<Tx>)
      requires Valid()
      modifies shards
      ensures Valid() && AllGood(Cfg(), old(Lists()))
      ensures Lists() == CacheGet(Cfg(), old(Lists()), bz)
      ensures r == if Cached(Cfg(), old(Lists()), bz) then Some(CachedTx(Cfg(), old(Lists()), bz)) else None
    {
      ListsGood();
      var h := hash(bz);
      var stripe := h % SHARD_COUNT;
      var shard := shards[stripe];
      assert shard.Valid(base, hash, stripe);
      if Hit(shard.lru, h, bz) { PromoteGood(base, hash, shard.cap, stripe, shard.lru, h); }
      r := shard.Get(h, bz);
    }

    method Set(bz: Bytes, tx: Tx)
      requires Valid() && base(bz) == Ok(tx)
      modifies shards
      ensures Valid() && AllGood(Cfg(), old(Lists()))
      ensures Lists() == CacheSet(Cfg(), old(Lists()), bz, tx)
    {
      ListsGood();
      if |bz| > maxTxBytes { return; }
      var h := hash(bz);
      var stripe := h % SHARD_COUNT;
      var shard := shards[stripe];
      assert shard.Valid(base, hash, stripe);
      SetGood(base, hash, shard.cap, stripe, shard.lru, bz, tx);
      shard.Set(h, bz, tx);
    }

    /** The caching decoder answers as the base decoder does, and remembers what it decoded. */
    method Decode(bz: Bytes) returns (r: Result)
      requires Valid()
      modifies shards
      ensures Valid() && AllGood(Cfg(), Lists())
      ensures r == base(bz)
      ensures r.Ok? && |bz| <= maxTxBytes ==> Cached(Cfg(), Lists(), bz)
    {
      var hit := Get(bz);
      ListsGood();
      if hit.Some? {
        CachedTrue(Cfg(), old(Lists()), bz);
        GetKeepsCached(Cfg(), old(Lists()), bz);
        return Ok(hit.value);
      }
      r := base(bz);
      if r.Ok? {
        SetCaches(Cfg(), Lists(), bz, r.tx);
        Set(bz, r.tx);
        ListsGood();
      }
    }
  }

  // ---------------------------------------------------------------------------------------
  // The whole cache, on values

  datatype Params = Params(base: Bytes -> Result, hash: Bytes -> nat, shardCap: nat, maxTxBytes: int)

  ghost predicate AllGood(p: Params, ls: seq<seq<Item>>) {
    |ls| == SHARD_COUNT && forall i :: 0 <= i < |ls| ==> Good(p.base, p.hash, p.shardCap, i, ls[i])
  }

  function Stripe(p: Params, bz: Bytes): (i: nat)
    ensures i < SHARD_COUNT
  {
    p.hash(bz) % SHARD_COUNT
  }

  ghost predicate Cached(p: Params, ls: seq<seq<Item>>, bz: Bytes)
    requires AllGood(p, ls)
  {
    Hit(ls[Stripe(p, bz)], p.hash(bz), bz)
  }

  ghost function CachedTx(p: Params, ls: seq<seq<Item>>, bz: Bytes): (tx: Tx)
    requires AllGood(p, ls) && Cached(p, ls, bz)
  {
    var l := ls[Stripe(p, bz)];
    l[IndexOf(l, p.hash(bz))].tx
  }

  ghost function CacheGet(p: Params, ls: seq<seq<Item>>, bz: Bytes): (r: seq<seq<Item>>)
    requires AllGood(p, ls)
  {
    ls[Stripe(p, bz) := ShardGet(ls[Stripe(p, bz)], p.hash(bz), bz)]
  }

  ghost function CacheSet(p: Params, ls: seq<seq<Item>>, bz: Bytes, tx: Tx): (r: seq<seq<Item>>)
    requires AllGood(p, ls)
  {
    if |bz| > p.maxTxBytes then ls
    else ls[Stripe(p, bz) := ShardSet(p.shardCap, ls[Stripe(p, bz)], p.hash(bz), bz, tx)]
  }

  lemma CachedTrue(p: Params, ls: seq<seq<Item>>, bz: Bytes)
    requires AllGood(p, ls) && Cached(p, ls, bz)
    ensures p.base(bz) == Ok(CachedTx(p, ls, bz))
  {
    assert Good(p.base, p.hash, p.shardCap, Stripe(p, bz), ls[Stripe(p, bz)]);
  }

  lemma HitInFront(l: seq<Item>, e: Item)
    requires Keyed([e] + l)
    ensures Hit([e] + l, e.h, e.key)
  {
    assert ([e] + l)[0].h == e.h;
  }

  lemma GetKeepsCached(p: Params, ls: seq<seq<Item>>, bz: Bytes)
    requires AllGood(p, ls) && Cached(p, ls, bz)
    ensures AllGood(p, CacheGet(p, ls, bz)) && Cached(p, CacheGet(p, ls, bz), bz)
  {
    var l, h := ls[Stripe(p, bz)], p.hash(bz);
    PromoteGood(p.base, p.hash, p.shardCap, Stripe(p, bz), l, h);
    HitInFront(Unlink(l, h), l[IndexOf(l, h)]);
  }

  lemma SetCaches(p: Params, ls: seq<seq<Item>>, bz: Bytes, tx: Tx)
    requires AllGood(p, ls) && p.shardCap > 0 && p.base(bz) == Ok(tx)
    ensures AllGood(p, CacheSet(p, ls, bz, tx))
    ensures |bz| <= p.maxTxBytes ==> Cached(p, CacheSet(p, ls, bz, tx), bz)
  {
    var i, h := Stripe(p, bz), p.hash(bz);
    SetGood(p.base, p.hash, p.shardCap, i, ls[i], bz, tx);
    if Hit(ls[i], h, bz) {
      HitInFront(Unlink(ls[i], h), ls[i][IndexOf(ls[i], h)]);
    } else {
      HitInFront(Room(p.shardCap, ls[i], h), Item(h, bz, tx));
    }
  }

  // ---------------------------------------------------------------------------------------
  // Interleavings

  datatype Op =
    | Lookup(t: Tid, bz: Bytes)   // goroutine t calls the caching decoder
    | Finish(t: Tid)              // after a miss: base decoder, then insertion

  /** The shards, the goroutines that missed and are decoding, and every answer given so far. */
  datatype State = State(ls: seq<seq<Item>>, decoding: map<Tid, Bytes>, answers: seq<(Bytes, Result)>)

  function Init(): (s: State) { State(seq(SHARD_COUNT, i => []), map[], []) }

  ghost function Apply(p: Params, s: State, op: Op): (r: State)
    requires AllGood(p, s.ls)
  {
    match op
    case Lookup(t, bz) =>
      if t in s.decoding then s
      else if Cached(p, s.ls, bz) then
        s.(ls := CacheGet(p, s.ls, bz), answers := s.answers + [(bz, Ok(CachedTx(p, s.ls, bz)))])
      else s.(decoding := s.decoding[t := bz])
    case Finish(t) =>
      if t !in s.decoding then s
      else
        var bz := s.decoding[t];
        var r := p.base(bz);
        State(if r.Ok? then CacheSet(p, s.ls, bz, r.tx) else s.ls, s.decoding - {t}, s.answers + [(bz, r)])
  }

  ghost predicate Inv(p: Params, s: State) {
    AllGood(p, s.ls) && forall i :: 0 <= i < |s.answers| ==> s.answers[i].1 == p.base(s.answers[i].0)
  }

  lemma ApplyInv(p: Params, s: State, op: Op)
    requires Inv(p, s) && p.shardCap > 0
    ensures Inv(p, Apply(p, s, op))
  {
    match op
    case Lookup(t, bz) =>
      if Cached(p, s.ls, bz) {
        CachedTrue(p, s.ls, bz);
        GetKeepsCached(p, s.ls, bz);
      }
    case Finish(t) =>
      if t in s.decoding && p.base(s.decoding[t]).Ok? {
        SetCaches(p, s.ls, s.decoding[t], p.base(s.decoding[t]).tx);
      }
  }

  /** The state after the operations `ops`, from an empty cache. */
  ghost function Exec(p: Params, ops: seq<Op>): (s: State)
    requires p.shardCap > 0
    ensures Inv(p, s)
  {
    if ops == [] then Init()
    else
      var before := Exec(p, ops[..|ops| - 1]);
      ApplyInv(p, before, ops[|ops| - 1]);
      Apply(p, before, ops[|ops| - 1])
  }

  function Total(ls: seq<seq<Item>>): (n: nat) {
    if ls == [] then 0 else Total(ls[..|ls| - 1]) + |ls[|ls| - 1]|
  }

  lemma {:induction false} TotalBound(ls: seq<seq<Item>>, cap: nat)
    requires forall i :: 0 <= i < |ls| ==> |ls[i]| <= cap
    ensures Total(ls) <= |ls| * cap
  {
    if ls != [] {
      TotalBound(ls[..|ls| - 1], cap);
      assert |ls| * cap == (|ls| - 1) * cap + cap;
    }
  }

  /**
   After every history of calls, in every interleaving and whatever hashes collide, each answer
   of the caching decoder is the base decoder's, and a cache built for `size` entries holds
   fewer than size + 16.
   */
  lemma CachingDecoderIsBase(size: nat, p: Params, ops: seq<Op>)
    requires p.shardCap == ShardCap(size)
    ensures var s := Exec(p, ops);
            && (forall k :: 0 <= k < |s.answers| ==> s.answers[k].1 == p.base(s.answers[k].0))
            && AllGood(p, s.ls) && Total(s.ls) < EffectiveSize(size) + SHARD_COUNT
  {
    TotalBound(Exec(p, ops).ls, p.shardCap);
  }

  // ---------------------------------------------------------------------------------------
  // How long the cache remembers

  /** The bytes a step looks up, or stores after decoding them. */
  ghost function OpOn(p: Params, s: State, op: Op, stripe: nat): (r: seq<ShardOp>) {
    match op
    case Lookup(t, bz) => if t !in s.decoding && Stripe(p, bz) == stripe then [DoGet(p.hash(bz), bz)] else []
    case Finish(t) =>
      if t in s.decoding && Stripe(p, s.decoding[t]) == stripe && p.base(s.decoding[t]).Ok? &&
          |s.decoding[t]| <= p.maxTxBytes
      then [DoSet(p.hash(s.decoding[t]), s.decoding[t], p.base(s.decoding[t]).tx)]
      else []
  }

  /** What a run does to one shard. */
  ghost function ShardOps(p: Params, ops: seq<Op>, stripe: nat): (r: seq<ShardOp>)
    requires p.shardCap > 0
  {
    if ops == [] then []
    else ShardOps(p, ops[..|ops| - 1], stripe) + OpOn(p, Exec(p, ops[..|ops| - 1]), ops[|ops| - 1], stripe)
  }

  lemma StepProjects(p: Params, s: State, op: Op, stripe: nat)
    requires Inv(p, s) && p.shardCap > 0 && stripe < SHARD_COUNT
    ensures Keyed(s.ls[stripe]) && |Apply(p, s, op).ls| == SHARD_COUNT
    ensures var did := OpOn(p, s, op, stripe);
            |did| <= 1 && Apply(p, s, op).ls[stripe] ==
            if did == [] then s.ls[stripe] else ShardStep(p.shardCap, s.ls[stripe], did[0])
  {
    assert Good(p.base, p.hash, p.shardCap, stripe, s.ls[stripe]);
  }

  /** Each shard of the cache, in every interleaving, is the shard after its own operations. */
  lemma {:induction false} RunProjects(p: Params, ops: seq<Op>, stripe: nat)
    requires p.shardCap > 0 && stripe < SHARD_COUNT
    ensures Exec(p, ops).ls[stripe] == ShardExec(p.shardCap, [], ShardOps(p, ops, stripe))
  {
    if ops != [] {
      var front, op := ops[..|ops| - 1], ops[|ops| - 1];
      RunProjects(p, front, stripe);
      StepProjects(p, Exec(p, front), op, stripe);
      var before, did := ShardOps(p, front, stripe), OpOn(p, Exec(p, front), op, stripe);
      if did == [] {
        assert before + did == before;
      } else {
        assert (before + did)[..|before|] == before;
      }
    }
  }

  lemma {:induction false} ShardOpsSplit(p: Params, ops: seq<Op>, i: nat, stripe: nat)
    requires p.shardCap > 0 && i < |ops|
    ensures ShardOps(p, ops[..i], stripe) + OpOn(p, Exec(p, ops[..i]), ops[i], stripe) <= ShardOps(p, ops, stripe)
  {
    if i == |ops| - 1 {
      assert ops[..i] == ops[..|ops| - 1];
    } else {
      var front := ops[..|ops| - 1];
      assert front[..i] == ops[..i] && front[i] == ops[i];
      ShardOpsSplit(p, front, i, stripe);
    }
  }

  /** Step `op` answers from the cache for `bz`, or stores what it decoded for it. */
  ghost predicate Remembers(p: Params, s: State, op: Op, bz: Bytes)
    requires AllGood(p, s.ls)
  {
    match op
    case Lookup(t, b) => b == bz && t !in s.decoding && Cached(p, s.ls, bz)
    case Finish(t) => t in s.decoding && s.decoding[t] == bz && p.base(bz).Ok? && |bz| <= p.maxTxBytes
  }

  /**
   In every interleaving, bytes that were found or stored at step `i` are still answered from the
   cache after `ops`, as long as no other bytes of their hash were stored since and fewer hashes of
   their stripe than a shard holds were used since.
   */
  lemma RecentlyDecodedIsCached(p: Params, ops: seq<Op>, i: nat, bz: Bytes)
    requires p.shardCap > 0 && i < |ops| && Remembers(p, Exec(p, ops[..i]), ops[i], bz)
    requires var all, n := ShardOps(p, ops, Stripe(p, bz)), |ShardOps(p, ops[..i], Stripe(p, bz))| + 1;
             && n <= |all|
             && (forall op :: op in all[n..] && op.DoSet? && op.h == p.hash(bz) ==> op.bz == bz)
             && |HashesUsed(p.shardCap, ShardExec(p.shardCap, [], all[..n]), all[n..]) - {p.hash(bz)}| < p.shardCap
    ensures Cached(p, Exec(p, ops).ls, bz)
  {
    var stripe := Stripe(p, bz);
    var all, n := ShardOps(p, ops, stripe), |ShardOps(p, ops[..i], stripe)|;
    RememberedOp(p, ops, i, bz);
    RunProjects(p, ops, stripe);
    RecentlyUsedIsHit(p.shardCap, [], all, n);
  }

  lemma RememberedOp(p: Params, ops: seq<Op>, i: nat, bz: Bytes)
    requires p.shardCap > 0 && i < |ops| && Remembers(p, Exec(p, ops[..i]), ops[i], bz)
    ensures var all, n := ShardOps(p, ops, Stripe(p, bz)), |ShardOps(p, ops[..i], Stripe(p, bz))|;
            && n < |all| && all[n].h == p.hash(bz) && all[n].bz == bz
            && ShardUses(ShardExec(p.shardCap, [], all[..n]), all[n])
  {
    var stripe := Stripe(p, bz);
    ShardOpsSplit(p, ops, i, stripe);
    RunProjects(p, ops[..i], stripe);
    var all, before := ShardOps(p, ops, stripe), ShardOps(p, ops[..i], stripe);
    assert all[..|before|] == before && all[|before|] == OpOn(p, Exec(p, ops[..i]), ops[i], stripe)[0];
  }

  /** A call that is not answered from the cache ends by storing what it decoded, if it is short enough. */
  lemma MissIsStored(p: Params, ops: seq<Op>, t: Tid, bz: Bytes)
    requires p.shardCap > 0 && t !in Exec(p, ops).decoding && !Cached(p, Exec(p, ops).ls, bz)
    requires p.base(bz).Ok? && |bz| <= p.maxTxBytes
    ensures Cached(p, Exec(p, ops + [Lookup(t, bz), Finish(t)]).ls, bz)
  {
    var one, two := ops + [Lookup(t, bz)], ops + [Lookup(t, bz), Finish(t)];
    assert one[..|ops|] == ops && two[..|ops| + 1] == one;
    SetCaches(p, Exec(p, one).ls, bz, p.base(bz).tx);
  }
}
