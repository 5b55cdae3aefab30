/**
 Staging of senders against recheck cycles. `FinalizeBlock` and the proposal handler stage
 senders at any moment; a recheck cycle, run by the worker or called directly, takes everything
 staged, and may store a carry of transactions for the next cycle. What a cycle does in between,
 and which carry it stores, is left open here; the module Rechecks fills it in.

 The system is the recheck worker's protocol with the body of the recheck function put back in:
 the worker's run may only return once its cycle has left `recheckMu`. Each critical section of
 `stagingMu` is one step.

 Every act of staging a sender is a token. `taken` records, for each token, the one drain that
 took it; `overwrote` would record that a cycle's carry replaced one that was still waiting.
 */
module Staging {
  import M = Manager
  import W = RecheckWorker

  type Sender = M.Sender
  type Tx = M.Tx

  datatype Token = Token(id: nat, sender: Sender)

  datatype Caller = TheWorker | Direct(id: nat)

  datatype Phase = Entered | Drained | Capped

  datatype Cycle = NoCycle | InCycle(caller: Caller, phase: Phase)

  datatype Sys = Sys(
    w: W.State,
    recheckSenders: set<Sender>,
    deferred: seq<Tx>,
    cycle: Cycle,                   // holder of recheckMu and how far it is
    fnDone: bool,                   // the worker's current run has finished its cycle
    overwrote: bool,
    nextId: nat,
    tokens: set<Token>,             // everything ever staged
    taken: map<Token, nat>,         // token -> the drain that took it
    drains: seq<set<Sender>>,       // the senders each drain returned
    left: nat,                      // cycles that have left recheckMu
    atBegin: seq<set<Token>>)       // the tokens staged when the n-th worker run began

  datatype Action =
    | Protocol(step: W.Step)
    | Stage(senders: set<Sender>)
    | Enter(caller: Caller)
    | DrainStaging
    | StoreCarry(carry: seq<Tx>)
    | Leave

  function Init(threads: set<W.Tid>): (s: Sys) {
    Sys(W.Init(threads), {}, [], NoCycle, false, false, 0, {}, map[], [], 0, [])
  }

  predicate Enabled(s: Sys, a: Action) {
    match a
    case Protocol(step) => W.Enabled(s.w, step) && (step == W.Worker(W.Finish) ==> s.fnDone)
    case Stage(_) => true
    case Enter(c) => s.cycle.NoCycle? && (c.TheWorker? ==> s.w.sh.worker.Running? && !s.fnDone)
    case DrainStaging => s.cycle.InCycle? && s.cycle.phase.Entered?
    case StoreCarry(_) => s.cycle.InCycle? && s.cycle.phase.Drained?
    case Leave => s.cycle.InCycle? && !s.cycle.phase.Entered?
  }

  function Fresh(id: nat, senders: set<Sender>): (ts: set<Token>) {
    set x | x in senders :: Token(id, x)
  }

  function Pending(s: Sys): (ts: set<Token>) { s.tokens - s.taken.Keys }

  function Apply(s: Sys, a: Action): (r: Sys)
    requires Enabled(s, a)
  {
    match a
    case Protocol(step) =>
      var w := W.Apply(s.w, step);
      if w.sh.started > s.w.sh.started then s.(w := w, fnDone := false, atBegin := s.atBegin + [s.tokens])
      else s.(w := w)
    case Stage(senders) =>
      s.(recheckSenders := s.recheckSenders + senders,
         tokens := s.tokens + Fresh(s.nextId, senders), nextId := s.nextId + 1)
    case Enter(c) => s.(cycle := InCycle(c, Entered))
    case DrainStaging =>
      s.(recheckSenders := {}, deferred := [], cycle := InCycle(s.cycle.caller, Drained),
         taken := s.taken + (map k | k in Pending(s) :: |s.drains|),
         drains := s.drains + [s.recheckSenders])
    case StoreCarry(carry) =>
      s.(overwrote := s.overwrote || s.deferred != [], deferred := carry,
         cycle := InCycle(s.cycle.caller, Capped))
    case Leave =>
      s.(cycle := NoCycle, left := s.left + 1, fnDone := s.fnDone || s.cycle.caller.TheWorker?)
  }

  ghost predicate IsRun(b: seq<Sys>, acts: seq<Action>) {
    && |b| == |acts| + 1
    && (exists threads :: b[0] == Init(threads))
    && (forall i :: 0 <= i < |acts| ==> Enabled(b[i], acts[i]) && b[i + 1] == Apply(b[i], acts[i]))
  }

  // ---------------------------------------------------------------------------------------
  // Invariants

  /** Staged senders are exactly those of the tokens no drain has taken. */
  ghost predicate Accounted(s: Sys) {
    && s.taken.Keys <= s.tokens
    && (forall k :: k in s.tokens ==> k.id < s.nextId)
    && (forall k :: k in Pending(s) ==> k.sender in s.recheckSenders)
    && (forall x :: x in s.recheckSenders ==> exists k :: k in Pending(s) && k.sender == x)
    && (forall k :: k in s.taken ==> s.taken[k] < |s.drains| && k.sender in s.drains[s.taken[k]])
    && (forall d, x :: 0 <= d < |s.drains| && x in s.drains[d] ==> exists k ::
        k in s.taken && s.taken[k] == d &&
        k.sender == x)
  }

  predicate CycleOk(s: Sys) {
    && !s.overwrote
    && |s.drains| == s.left + (if s.cycle.InCycle? && !s.cycle.phase.Entered? then 1 else 0)
    && (s.cycle.InCycle? && s.cycle.phase.Drained? ==> s.deferred == [])
    && (s.cycle.InCycle? && s.cycle.caller.TheWorker? ==> s.w.sh.worker.Running? && !s.fnDone)
  }

  /** What the worker's current run owes: everything staged when it began. */
  ghost predicate RunOk(s: Sys) {
    && |s.atBegin| == s.w.sh.started
    && (forall n :: 0 <= n < |s.atBegin| ==> s.atBegin[n] <= s.tokens)
    && (s.w.sh.worker.Running? ==>
          && |s.atBegin| > 0
          && (s.cycle.InCycle? && s.cycle.caller.TheWorker? && !s.cycle.phase.Entered? ==>
                s.atBegin[|s.atBegin| - 1] <= s.taken.Keys)
          && (s.fnDone ==> Served(s, s.atBegin[|s.atBegin| - 1])))
  }

  /** Every token was taken by a drain whose cycle has left `recheckMu`. */
  predicate Served(s: Sys, ts: set<Token>) {
    forall k :: k in ts ==> k in s.taken && s.taken[k] < s.left
  }

  ghost predicate Inv(s: Sys) { W.Inv(s.w) && Accounted(s) && CycleOk(s) && RunOk(s) }

  lemma StageAccounted(s: Sys, senders: set<Sender>)
    requires Accounted(s)
    ensures Accounted(Apply(s, Stage(senders)))
  {
    var r := Apply(s, Stage(senders));
    assert Pending(r) == Pending(s) + Fresh(s.nextId, senders);
    forall x | x in r.recheckSenders ensures exists k :: k in Pending(r) && k.sender == x {
      if x in senders { assert Token(s.nextId, x) in Pending(r); }
    }
  }

  lemma DrainAccounted(s: Sys)
    requires Accounted(s) && Enabled(s, DrainStaging)
    ensures Accounted(Apply(s, DrainStaging))
  {
    var r := Apply(s, DrainStaging);
    assert Pending(r) == {};
    forall d, x | 0 <= d < |r.drains| && x in r.drains[d]
      ensures exists k :: k in r.taken && r.taken[k] == d && k.sender == x
    {
      if d == |s.drains| {
        var k :| k in Pending(s) && k.sender == x;
        assert k in r.taken && r.taken[k] == d;
      } else {
        var k :| k in s.taken && s.taken[k] == d && k.sender == x;
        assert k in r.taken && r.taken[k] == d;
      }
    }
  }

  lemma StepAccounted(s: Sys, a: Action)
    requires Accounted(s) && Enabled(s, a)
    ensures Accounted(Apply(s, a))
  {
    if a.Stage? {
      StageAccounted(s, a.senders);
    } else if a.DrainStaging? {
      DrainAccounted(s);
    } else {
      assert Pending(Apply(s, a)) == Pending(s);
    }
  }

  predicate RunCounted(sh: W.Shared, r: W.Shared, finishes: bool) {
    && (r.started == sh.started || (r.started == sh.started + 1 && !sh.worker.Running? && r.worker.Running?))
    && (r.started == sh.started && r.worker.Running? ==> sh.worker.Running?)
    && (sh.worker.Running? && !r.worker.Running? ==> finishes)
  }

  lemma ClientCounters(sh: W.Shared, t: W.Tid, pc: W.ClientPc, op: W.ClientOp)
    requires W.ClientEnabled(sh, pc, op)
    ensures RunCounted(sh, W.ClientEffect(sh, t, pc, op), false)
  {
  }

  lemma WorkerCounters(sh: W.Shared, op: W.WorkerOp)
    requires W.WorkerEnabled(sh, op)
    ensures RunCounted(sh, W.WorkerEffect(sh, op), op == W.Finish)
  {
  }

  /** The counters of one worker step: a run begins only from `Received`. */
  lemma ProtocolStep(s: W.State, step: W.Step)
    requires W.Inv(s) && W.Enabled(s, step)
    ensures W.Inv(W.Apply(s, step)) && RunCounted(s.sh, W.Apply(s, step).sh, step == W.Worker(W.Finish))
  {
    W.StepInv(s, step);
    match step
    case Client(t, op) => ClientCounters(s.sh, t, s.clients[t], op);
    case Worker(op) => WorkerCounters(s.sh, op);
    case Environment =>
  }

  lemma StepCycle(s: Sys, a: Action)
    requires Inv(s) && Enabled(s, a)
    ensures CycleOk(Apply(s, a)) && RunOk(Apply(s, a)) && W.Inv(Apply(s, a).w)
  {
    if a.Protocol? { ProtocolStep(s.w, a.step); }
  }

  lemma {:induction false} RunInv(b: seq<Sys>, acts: seq<Action>, i: nat)
    requires IsRun(b, acts) && i < |b|
    ensures Inv(b[i])
  {
    if i == 0 {
      var threads :| b[0] == Init(threads);
      assert Inv(b[0]);
    } else {
      RunInv(b, acts, i - 1);
      StepAccounted(b[i - 1], acts[i - 1]);
      StepCycle(b[i - 1], acts[i - 1]);
    }
  }

  /**
   No staged sender is lost, in any interleaving: it is still staged, or the drain recorded for
   it returned it; a drain returns nothing that was not staged; and when a cycle stores its carry
   no earlier carry is waiting.
   */
  lemma NothingStagedIsLost(b: seq<Sys>, acts: seq<Action>, i: nat, k: Token)
    requires IsRun(b, acts) && i < |b| && k in b[i].tokens
    ensures k !in b[i].taken ==> k.sender in b[i].recheckSenders
    ensures k in b[i].taken ==> b[i].taken[k] < |b[i].drains| && k.sender in b[i].drains[b[i].taken[k]]
    ensures !b[i].overwrote
    ensures i < |acts| && acts[i].StoreCarry? ==> b[i].deferred == []
  {
    RunInv(b, acts, i);
  }

  /** Nothing recorded in `s` is lost or moved in `r`. */
  ghost predicate Extends(s: Sys, r: Sys) {
    && s.tokens <= r.tokens && s.left <= r.left && s.drains <= r.drains && s.atBegin <= r.atBegin
    && (forall k :: k in s.taken ==> k in r.taken && r.taken[k] == s.taken[k])
  }

  lemma TakenStep(s: Sys, a: Action)
    requires Enabled(s, a)
    ensures Extends(s, Apply(s, a))
  {
    if a.DrainStaging? {
      var r := Apply(s, a);
      forall k | k in s.taken ensures k in r.taken && r.taken[k] == s.taken[k] { assert k !in Pending(s); }
    }
  }

  lemma ExtendsThrough(s: Sys, m: Sys, r: Sys)
    requires Extends(s, m) && Extends(m, r)
    ensures Extends(s, r)
  {
  }

  /** A token is taken once: later states never move it to another drain. */
  lemma {:induction false} TakenForGood(b: seq<Sys>, acts: seq<Action>, i: nat, j: nat)
    requires IsRun(b, acts) && i <= j < |b|
    ensures Extends(b[i], b[j])
  {
    if i < j {
      TakenForGood(b, acts, i, j - 1);
      TakenStep(b[j - 1], acts[j - 1]);
      ExtendsThrough(b[i], b[j - 1], b[j]);
    }
  }

  // ---------------------------------------------------------------------------------------
  // What a proposal may rely on

  function Project(a: Action): (step: W.Step) { if a.Protocol? then a.step else W.Environment }

  ghost function States(b: seq<Sys>): (r: seq<W.State>) { seq(|b|, i requires 0 <= i < |b| => b[i].w) }

  ghost function Steps(acts: seq<Action>): (r: seq<W.Step>) {
    seq(|acts|, i requires 0 <= i < |acts| => Project(acts[i]))
  }

  lemma ProjectsToWorker(b: seq<Sys>, acts: seq<Action>)
    requires IsRun(b, acts)
    ensures W.IsRun(States(b), Steps(acts))
  {
    var wb, ws := States(b), Steps(acts);
    var threads :| b[0] == Init(threads);
    assert wb[0] == W.Init(threads);
    forall i | 0 <= i < |ws| ensures W.Enabled(wb[i], ws[i]) && wb[i + 1] == W.Apply(wb[i], ws[i]) {
      assert Enabled(b[i], acts[i]) && b[i + 1] == Apply(b[i], acts[i]);
    }
  }

  /**
   Senders staged before the trigger are rechecked before the proposal. A commit calls `recheck`
   at step `c` and returns at step `u`; a proposal reads `ready` at step `j` and stops waiting at
   step `k` without a timeout. Unless the worker was stopped, every token staged before `c` was
   taken by a drain whose cycle has finished.
   */
  lemma StagedBeforeTriggerIsServed(b: seq<Sys>, acts: seq<Action>, r: W.Tid, c: nat, u: nat, w: W.Tid, j: nat,
      k: nat)
    requires IsRun(b, acts) && c < u < j < k < |acts|
    requires W.Latest(Steps(acts), r, W.RecheckCall, c, u) && acts[u] == Protocol(W.Client(r, W.RecheckUnlock))
    requires W.Latest(Steps(acts), w, W.WaitRead, j, k) && acts[k] == Protocol(W.Client(w, W.WaitDone))
    requires !b[k].w.sh.quit
    ensures Served(b[k], b[c].tokens)
  {
    var wb, ws := States(b), Steps(acts);
    ProjectsToWorker(b, acts);
    var p, q := W.WaitSeesFreshRun(wb, ws, r, c, u, w, j, k);
    var n := b[c].w.sh.started;
    RunInv(b, acts, p);
    RunInv(b, acts, q);
    assert b[p + 1] == Apply(b[p], acts[p]) && b[p + 1].atBegin[n] == b[p].tokens;
    TakenForGood(b, acts, c, p);
    TakenForGood(b, acts, p + 1, q);
    TakenForGood(b, acts, q, k);
    assert Enabled(b[q], acts[q]) && b[q].fnDone;
    assert b[q].w.sh.started == n + 1;
    assert b[c].tokens <= b[q].atBegin[n];
  }
}
