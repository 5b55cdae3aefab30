/**
 The consensus blocklist: how a blob becomes the list, which transactions it rejects, and the
 proposal check every validator runs.

 Decryption, JSON and bech32 are partial functions. The decoder is a partial function from bytes
 to transactions.
 */
module BlockList {
  import opened Common

  type Addr = Bytes

  datatype Codec = Codec(toText: Addr -> Option<string>, fromText: string -> Option<Addr>)

  /** An EIP-7702 authorisation; `authority` is None when signature recovery fails. */
  datatype Auth = Auth(authority: Option<Addr>, address: Addr)

  datatype Msg = OtherMsg | EthereumTx(to: Option<Addr>, auths: seq<Auth>)

  /** `signers` is None when the transaction is not SigVerifiable or its signers cannot be read. */
  datatype Tx = Tx(signers: Option<seq<Addr>>, msgs: seq<Msg>)

  // ---------------------------------------------------------------------------------------
  // Which transactions are accepted

  predicate AddrOk(codec: Codec, blocklist: set<string>, a: Addr) {
    codec.toText(a).Some? && codec.toText(a).value !in blocklist
  }

  function AuthAddrs(auth: Auth): (r: set<Addr>) {
    (if auth.authority.Some? then {auth.authority.value} else {}) + {auth.address}
  }

  function MsgAddrs(msg: Msg): (r: set<Addr>) {
    match msg
    case OtherMsg => {}
    case EthereumTx(to, auths) =>
      (if to.Some? then {to.value} else {}) + (set auth, a | auth in auths && a in AuthAddrs(auth) :: a)
  }

  /** Every address a transaction names as signer, destination, authority or authorised code. */
  function Mentions(tx: Tx): (r: set<Addr>) {
    (if tx.signers.Some? then set a | a in tx.signers.value else {})
    + (set msg, a | msg in tx.msgs && a in MsgAddrs(msg) :: a)
  }

  /** A transaction passes a non-empty list when all its addresses encode and none is listed. */
  ghost predicate Passes(codec: Codec, blocklist: set<string>, tx: Tx) {
    tx.signers.Some? && forall a :: a in Mentions(tx) ==> AddrOk(codec, blocklist, a)
  }

  ghost predicate Accepts(codec: Codec, blocklist: set<string>, decode: Bytes -> Option<Tx>, tx: Option<Tx>,
      bz: Bytes) {
    || blocklist == {}
    || (tx.Some? && Passes(codec, blocklist, tx.value))
    || (tx.None? && decode(bz).Some? && Passes(codec, blocklist, decode(bz).value))
  }

  // ---------------------------------------------------------------------------------------
  // From a blob to a list

  /** The entries of a decoded list: one bad address spoils it, unblockable ones are left out. */
  function Listed(codec: Codec, unblockable: set<Addr>, names: seq<string>): (r: Option<set<string>>) {
    if names == [] then Some({})
    else
      var front := Listed(codec, unblockable, names[..|names| - 1]);
      var addr := codec.fromText(names[|names| - 1]);
      if front.None? || addr.None? then None
      else if addr.value in unblockable then front
      else if codec.toText(addr.value).None? then None
      else Some(front.value + {codec.toText(addr.value).value})
  }

  class ProposalHandler {
    const hasIdentity: bool
    const codec: Codec
    const unblockable: set<Addr>
    const decode: Bytes -> Option<Tx>
    const decrypt: Bytes -> Option<Bytes>
    const parse: Bytes -> Option<seq<string>>
    var blocklist: set<string>
    var lastBlockList: Bytes

    constructor (hasIdentity: bool, codec: Codec, unblockable: set<Addr>, decode: Bytes -> Option<Tx>,
                 decrypt: Bytes -> Option<Bytes>, parse: Bytes -> Option<seq<string>>)
      ensures blocklist == {} && lastBlockList == []
      ensures Rules() == BlockRules(hasIdentity, codec, unblockable, decrypt, parse) && this.decode == decode
    {
      this.hasIdentity, this.codec, this.unblockable := hasIdentity, codec, unblockable;
      this.decode, this.decrypt, this.parse := decode, decrypt, parse;
      blocklist, lastBlockList := {}, [];
    }

    function Rules(): (r: BlockRules) { BlockRules(hasIdentity, codec, unblockable, decrypt, parse) }

    /** The loop that turns the decoded names into the lookup map. */
    method BuildList(names: seq<string>) returns (m: Option<set<string>>)
      ensures m == Listed(codec, unblockable, names)
    {
      var entries: set<string> := {};
      for i := 0 to |names|
        invariant Listed(codec, unblockable, names[..i]) == Some(entries)
      {
        assert names[..i + 1][..i] == names[..i];
        var addr := codec.fromText(names[i]);
        if addr.None? { ListedFails(codec, unblockable, names, i + 1); return None; }
        if addr.value !in unblockable {
          var text := codec.toText(addr.value);
          if text.None? { ListedFails(codec, unblockable, names, i + 1); return None; }
          entries := entries + {text.value};
        }
      }
      assert names[..|names|] == names;
      return Some(entries);
    }

    method SetBlockList(blob: Bytes) returns (ok: bool)
      modifies this`blocklist, this`lastBlockList
      ensures (List(blocklist, lastBlockList), ok) == Update(Rules(), List(old(blocklist), old(lastBlockList)), blob)
    {
      if !hasIdentity { return true; }
      if lastBlockList == blob { return true; }
      if |blob| == 0 {
        blocklist, lastBlockList := {}, [];
        return true;
      }
      var data := decrypt(blob);
      if data.None? { return false; }
      var names := parse(data.value);
      if names.None? { return false; }
      var m := BuildList(names.value);
      if m.None? { return false; }
      blocklist, lastBlockList := m.value, blob;
      return true;
    }

    /** The check of one address: it must encode, and its text must not be listed. */
    method CheckAddr(a: Addr) returns (ok: bool)
      ensures ok == AddrOk(codec, blocklist, a)
    {
      var text := codec.toText(a);
      return text.Some? && text.value !in blocklist;
    }

    method CheckAuths(auths: seq<Auth>) returns (ok: bool)
      ensures ok <==> forall auth, a :: auth in auths && a in AuthAddrs(auth) ==> AddrOk(codec, blocklist, a)
    {
      for i := 0 to |auths|
        invariant forall auth, a :: auth in auths[..i] && a in AuthAddrs(auth) ==> AddrOk(codec, blocklist, a)
      {
        var auth := auths[i];
        assert forall x :: x in AuthAddrs(auth) <==> (auth.authority == Some(x) || x == auth.address);
        if auth.authority.Some? {
          var good := CheckAddr(auth.authority.value);
          if !good { assert auth.authority.value in AuthAddrs(auth); return false; }
        }
        var good := CheckAddr(auth.address);
        if !good { assert auth.address in AuthAddrs(auth); return false; }
      }
      return true;
    }

    method CheckMsg(msg: Msg) returns (ok: bool)
      ensures ok <==> forall a :: a in MsgAddrs(msg) ==> AddrOk(codec, blocklist, a)
    {
      if msg.OtherMsg? { return true; }
      if msg.to.Some? {
        var good := CheckAddr(msg.to.value);
        if !good { assert msg.to.value in MsgAddrs(msg); return false; }
      }
      ok := CheckAuths(msg.auths);
      if !ok {
        var auth, a :| auth in msg.auths && a in AuthAddrs(auth) && !AddrOk(codec, blocklist, a);
        assert a in MsgAddrs(msg);
      }
    }

    /** Accepts exactly the transactions that name no listed address. */
    method ValidateTransaction(tx: Option<Tx>, bz: Bytes) returns (ok: bool)
      ensures ok == Accepts(codec, blocklist, decode, tx, bz)
    {
      if blocklist == {} { return true; }
      var got := if tx.None? then decode(bz) else tx;
      if got.None? { return false; }
      var t := got.value;
      if t.signers.None? { return false; }
      var signers := t.signers.value;
      for i := 0 to |signers|
        invariant forall a :: a in signers[..i] ==> AddrOk(codec, blocklist, a)
      {
        var good := CheckAddr(signers[i]);
        if !good { assert signers[i] in Mentions(t); return false; }
      }
      assert signers[..|signers|] == signers;
      for i := 0 to |t.msgs|
        invariant forall msg, a :: msg in t.msgs[..i] && a in MsgAddrs(msg) ==> AddrOk(codec, blocklist, a)
      {
        var good := CheckMsg(t.msgs[i]);
        if !good {
          var a :| a in MsgAddrs(t.msgs[i]) && !AddrOk(codec, blocklist, a);
          assert a in Mentions(t);
          return false;
        }
      }
      assert t.msgs[..|t.msgs|] == t.msgs;
      return true;
    }

    /** ProcessProposal: accept when every transaction of the block, decoded afresh, passes. */
    method ProcessProposal(txs: seq<Bytes>) returns (accept: bool)
      ensures accept <==> forall bz :: bz in txs ==> Accepts(codec, blocklist, decode, None, bz)
    {
      if blocklist == {} { return true; }
      for i := 0 to |txs|
        invariant forall bz :: bz in txs[..i] ==> Accepts(codec, blocklist, decode, None, bz)
      {
        var good := ValidateTransaction(None, txs[i]);
        if !good { return false; }
      }
      assert txs[..|txs|] == txs;
      return true;
    }
  }

  lemma {:induction false} ListedFails(codec: Codec, unblockable: set<Addr>, names: seq<string>, i: nat)
    requires i <= |names| && Listed(codec, unblockable, names[..i]).None?
    ensures Listed(codec, unblockable, names).None?
  {
    if i < |names| {
      assert names[..|names| - 1][..i] == names[..i];
      ListedFails(codec, unblockable, names[..|names| - 1], i);
    } else {
      assert names[..i] == names;
    }
  }

  predicate NameOk(codec: Codec, unblockable: set<Addr>, name: string) {
    var addr := codec.fromText(name);
    addr.Some? && (addr.value in unblockable || codec.toText(addr.value).Some?)
  }

  /** `text` is the canonical spelling of an address that `name` spells and that may be blocked. */
  predicate Names(codec: Codec, unblockable: set<Addr>, name: string, text: string) {
    var addr := codec.fromText(name);
    addr.Some? && addr.value !in unblockable && codec.toText(addr.value) == Some(text)
  }

  /** A list is usable when every name is, and then holds exactly the blockable addresses named. */
  lemma {:induction false} ListedExact(codec: Codec, unblockable: set<Addr>, names: seq<string>)
    ensures Listed(codec, unblockable, names).Some? <==> forall name :: name in names ==>
            NameOk(codec, unblockable, name)
    ensures Listed(codec, unblockable, names).Some? ==>
              forall text :: text in Listed(codec, unblockable, names).value <==>
                             exists name :: name in names && Names(codec, unblockable, name, text)
  {
    if names != [] {
      var front, last := names[..|names| - 1], names[|names| - 1];
      ListedExact(codec, unblockable, front);
      assert forall name :: name in names <==> name in front || name == last by {
        assert names == front + [last];
      }
      assert Listed(codec, unblockable, names).Some? <==>
             Listed(codec, unblockable, front).Some? && NameOk(codec, unblockable, last);
      if Listed(codec, unblockable, names).Some? {
        assert forall text :: text in Listed(codec, unblockable, names).value <==>
                 text in Listed(codec, unblockable, front).value || Names(codec, unblockable, last, text);
      }
    }
  }

  // ---------------------------------------------------------------------------------------
  // Every history of updates

  datatype BlockRules = BlockRules(hasIdentity: bool, codec: Codec, unblockable: set<Addr>,
                                   decrypt: Bytes -> Option<Bytes>, parse: Bytes -> Option<seq<string>>)

  datatype List = List(blocklist: set<string>, lastBlockList: Bytes)

  /** What a blob says: nothing if empty, else its decrypted, parsed and filtered names. */
  function Meaning(r: BlockRules, blob: Bytes): (m: Option<set<string>>) {
    if blob == [] then Some({})
    else if r.decrypt(blob).None? then None
    else if r.parse(r.decrypt(blob).value).None? then None
    else Listed(r.codec, r.unblockable, r.parse(r.decrypt(blob).value).value)
  }

  /** One SetBlockList call, and whether it reports success. */
  function Update(r: BlockRules, l: List, blob: Bytes): (res: (List, bool)) {
    if !r.hasIdentity || l.lastBlockList == blob then (l, true)
    else if Meaning(r, blob).None? then (l, false)
    else (List(Meaning(r, blob).value, blob), true)
  }

  function After(r: BlockRules, blobs: seq<Bytes>): (l: List) {
    if blobs == [] then List({}, []) else Update(r, After(r, blobs[..|blobs| - 1]), blobs[|blobs| - 1]).0
  }

  /** The last blob of the history that could be applied, or the empty one. */
  function LastGood(r: BlockRules, blobs: seq<Bytes>): (blob: Bytes) {
    if blobs == [] then []
    else if Meaning(r, blobs[|blobs| - 1]).Some? then blobs[|blobs| - 1]
    else LastGood(r, blobs[..|blobs| - 1])
  }

  ghost predicate Injective(codec: Codec) {
    forall a, b :: codec.toText(a).Some? && codec.toText(a) == codec.toText(b) ==> a == b
  }

  lemma {:induction false} ListedBlockable(codec: Codec, unblockable: set<Addr>, names: seq<string>, a: Addr)
    requires Injective(codec) && Listed(codec, unblockable, names).Some? && a in unblockable && codec.toText(a).Some?
    ensures codec.toText(a).value !in Listed(codec, unblockable, names).value
  {
    if names != [] { ListedBlockable(codec, unblockable, names[..|names| - 1], a); }
  }

  /**
   After any history of updates the list is the meaning of the last blob that could be applied,
   so failed updates leave no trace; a node without an identity keeps the empty list.
   */
  lemma {:induction false} ListIsLastGood(r: BlockRules, blobs: seq<Bytes>)
    ensures r.hasIdentity ==> After(r, blobs).lastBlockList == LastGood(r, blobs)
    ensures r.hasIdentity ==> Meaning(r, LastGood(r, blobs)) == Some(After(r, blobs).blocklist)
    ensures !r.hasIdentity ==> After(r, blobs) == List({}, [])
  {
    if blobs != [] { ListIsLastGood(r, blobs[..|blobs| - 1]); }
  }

  /** ... and it never names an unblockable address. */
  lemma UnblockableNeverListed(r: BlockRules, blobs: seq<Bytes>, a: Addr)
    requires Injective(r.codec) && a in r.unblockable && r.codec.toText(a).Some?
    ensures r.codec.toText(a).value !in After(r, blobs).blocklist
  {
    ListIsLastGood(r, blobs);
    var blob := LastGood(r, blobs);
    if r.hasIdentity && blob != [] {
      ListedBlockable(r.codec, r.unblockable, r.parse(r.decrypt(blob).value).value, a);
    }
  }

  // ---------------------------------------------------------------------------------------
  // Which transactions a node accepts after any history

  /** The blob can be applied: it is empty, or decrypts and parses to names that all can be read. */
  ghost predicate Applies(r: BlockRules, blob: Bytes) {
    || blob == []
    || (r.decrypt(blob).Some? && r.parse(r.decrypt(blob).value).Some? &&
        forall name :: name in r.parse(r.decrypt(blob).value).value ==> NameOk(r.codec, r.unblockable, name))
  }

  lemma AppliesExact(r: BlockRules, blob: Bytes)
    ensures Meaning(r, blob).Some? <==> Applies(r, blob)
  {
    if blob != [] && r.decrypt(blob).Some? && r.parse(r.decrypt(blob).value).Some? {
      ListedExact(r.codec, r.unblockable, r.parse(r.decrypt(blob).value).value);
    }
  }

  /** Blob `i` is the last of the history that can be applied. */
  ghost predicate InForce(r: BlockRules, blobs: seq<Bytes>, i: int) {
    0 <= i < |blobs| && Applies(r, blobs[i]) && forall j :: i < j < |blobs| ==> !Applies(r, blobs[j])
  }

  /** The blob names an address that may be blocked and is spelled `text`. */
  ghost predicate Spells(r: BlockRules, blob: Bytes, text: string) {
    && blob != [] && r.decrypt(blob).Some? && r.parse(r.decrypt(blob).value).Some?
    && (exists name :: name in r.parse(r.decrypt(blob).value).value && Names(r.codec, r.unblockable, name, text))
  }

  lemma {:induction false} LastGoodExact(r: BlockRules, blobs: seq<Bytes>, i: nat)
    requires InForce(r, blobs, i)
    ensures LastGood(r, blobs) == blobs[i]
  {
    var last := blobs[|blobs| - 1];
    AppliesExact(r, last);
    if i < |blobs| - 1 {
      assert blobs[|blobs| - 1] == last && InForce(r, blobs[..|blobs| - 1], i);
      LastGoodExact(r, blobs[..|blobs| - 1], i);
    }
  }

  /** After any history the list holds exactly the texts that the blob in force spells. */
  lemma ListExact(r: BlockRules, blobs: seq<Bytes>, i: nat, text: string)
    requires r.hasIdentity && InForce(r, blobs, i)
    ensures text in After(r, blobs).blocklist <==> Spells(r, blobs[i], text)
  {
    ListIsLastGood(r, blobs);
    LastGoodExact(r, blobs, i);
    if blobs[i] != [] {
      AppliesExact(r, blobs[i]);
      ListedExact(r.codec, r.unblockable, r.parse(r.decrypt(blobs[i]).value).value);
    }
  }

  /** An update reports success if and only if the blob can be applied, or the node has no identity. */
  lemma UpdateReports(r: BlockRules, blobs: seq<Bytes>, blob: Bytes)
    ensures Update(r, After(r, blobs), blob).1 <==> !r.hasIdentity || Applies(r, blob)
  {
    ListIsLastGood(r, blobs);
    AppliesExact(r, blob);
  }

  /** The transaction names the address: as signer, destination, authority or authorised code. */
  ghost predicate NamesAddr(tx: Tx, a: Addr) {
    || (tx.signers.Some? && a in tx.signers.value)
    || (exists msg :: msg in tx.msgs && msg.EthereumTx? && msg.to == Some(a))
    || (exists msg, auth :: msg in tx.msgs && msg.EthereumTx? && auth in msg.auths && Authorises(auth, a))
  }

  predicate Authorises(auth: Auth, a: Addr) { auth.authority == Some(a) || auth.address == a }

  lemma MentionsExact(tx: Tx, a: Addr)
    ensures a in Mentions(tx) <==> NamesAddr(tx, a)
  {
    forall msg
      ensures a in MsgAddrs(msg) <==>
              msg.EthereumTx? && (msg.to == Some(a) || exists auth :: auth in msg.auths && Authorises(auth, a))
    {
      if msg.EthereumTx? {
        if auth :| auth in msg.auths && Authorises(auth, a) { assert a in AuthAddrs(auth); }
      }
    }
    if NamesAddr(tx, a) && !(tx.signers.Some? && a in tx.signers.value) {
      assert exists msg :: msg in tx.msgs && a in MsgAddrs(msg);
    }
  }

  /** The list in force names nothing, so the check is off. */
  ghost predicate NothingListed(r: BlockRules, blob: Bytes) { forall text :: !Spells(r, blob, text) }

  /**
   The promise of the blocklist, after any history of updates: a transaction is accepted if and
   only if the blob in force lists nothing, or its signers can be read and every address it names
   can be spelled and is not one that the blob lists.
   */
  lemma AcceptedExact(r: BlockRules, blobs: seq<Bytes>, i: nat, decode: Bytes -> Option<Tx>, given: Option<Tx>,
      bz: Bytes)
    requires r.hasIdentity && InForce(r, blobs, i)
    ensures var tx := if given.Some? then given else decode(bz);
            Accepts(r.codec, After(r, blobs).blocklist, decode, given, bz) <==>
            NothingListed(r, blobs[i]) ||
            (tx.Some? && tx.value.signers.Some? &&
                forall a :: NamesAddr(tx.value, a) ==>
                  r.codec.toText(a).Some? && !Spells(r, blobs[i], r.codec.toText(a).value))
  {
    var blocklist := After(r, blobs).blocklist;
    forall text ensures text in blocklist <==> Spells(r, blobs[i], text) { ListExact(r, blobs, i, text); }
    assert blocklist == {} <==> NothingListed(r, blobs[i]) by {
      if blocklist != {} { var text :| text in blocklist; }
    }
    var tx := if given.Some? then given else decode(bz);
    if tx.Some? {
      forall a ensures a in Mentions(tx.value) <==> NamesAddr(tx.value, a) { MentionsExact(tx.value, a); }
    }
  }

  /** Before any blob, and without an identity, every transaction is accepted. */
  lemma AcceptsBefore(r: BlockRules, blobs: seq<Bytes>, decode: Bytes -> Option<Tx>, given: Option<Tx>, bz: Bytes)
    requires !r.hasIdentity || forall j :: 0 <= j < |blobs| ==> !Applies(r, blobs[j])
    ensures Accepts(r.codec, After(r, blobs).blocklist, decode, given, bz)
  {
    ListIsLastGood(r, blobs);
    if r.hasIdentity { NoneInForce(r, blobs); }
  }

  lemma {:induction false} NoneInForce(r: BlockRules, blobs: seq<Bytes>)
    requires forall j :: 0 <= j < |blobs| ==> !Applies(r, blobs[j])
    ensures LastGood(r, blobs) == []
  {
    if blobs != [] {
      AppliesExact(r, blobs[|blobs| - 1]);
      NoneInForce(r, blobs[..|blobs| - 1]);
    }
  }
}
