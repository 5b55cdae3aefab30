/**
 Recheck cycles inside the concurrent system: the staging protocol of the module Staging, with
 each cycle doing what the module Manager says. A cycle drains, selects over a snapshot of the
 pool, stores what exceeds the cap, and leaves; blocks and proposals stage senders, and goroutines
 trigger and wait, at any moment.

 Forgetting what the cycles compute gives a run of Staging. Forgetting everything else gives a run
 of cycles of Manager. So the results of both hold together, and join into one: what happens to a
 transaction between a commit and the next proposal.
 */
module Rechecks {
  import opened Common
  import opened Seqs
  import M = Manager
  import S = Staging
  import W = RecheckWorker

  /** How far the cycle in progress is, and what it has read. */
  datatype Progress =
    | Waiting                                                          // no cycle, or not yet drained
    | Took(staged: set<S.Sender>, height: int, carry: seq<M.Tx>)
    | Picked(c: M.Cycle, was: M.Books)                                 // was: the books it found
    | Stored(c: M.Cycle, was: M.Books)

  datatype State = State(
    s: S.Sys,
    cfg: M.Config,
    lastCommittedHeight: int,
    arrival: map<M.Tx, int>,
    progress: Progress,
    cycles: seq<M.Cycle>,             // the cycles that have left recheckMu
    books: seq<M.Books>)              // what was there at first, and after each of them

  datatype Action =
    | Protocol(step: W.Step)
    | Stage(senders: set<S.Sender>, height: Option<int>)               // the height of a committed block
    | Enter(caller: S.Caller)
    | Drain
    | Select(snapshot: seq<M.Tx>, now: int)
    | Cap
    | Leave

  function Init(cfg: M.Config, threads: set<W.Tid>): (st: State) {
    State(S.Init(threads), cfg, 0, map[], Waiting, [], [M.Books([], map[])])
  }

  function Overflow(st: State): (txs: seq<M.Tx>)
    requires st.progress.Picked?
  {
    M.Carry(st.cfg, st.progress.was.arrival, st.progress.was.carry, st.progress.c)
  }

  /** The step of the staging protocol; capRecheckTxs touches `deferred` only when something is left over. */
  function Base(st: State, a: Action): (b: S.Action)
    requires a.Cap? ==> st.progress.Picked?
  {
    match a
    case Protocol(step) => S.Protocol(step)
    case Stage(senders, _) => S.Stage(senders)
    case Enter(caller) => S.Enter(caller)
    case Drain => S.DrainStaging
    case Select(_, _) => S.Protocol(W.Environment)
    case Cap => if Overflow(st) == [] then S.Protocol(W.Environment) else S.StoreCarry(Overflow(st))
    case Leave => S.Leave
  }

  /** Nothing was drained before the first block: the cycle ends without a scan. */
  predicate NothingToDo(p: Progress) { p.Took? && p.staged == {} && p.carry == [] && p.height == 0 }

  ghost predicate Enabled(st: State, a: Action) {
    && (match a
        case Drain => st.progress.Waiting?
        case Select(snapshot, _) => st.progress.Took? && !NothingToDo(st.progress) && Distinct(snapshot)
        case Cap => st.progress.Picked?
        case Leave => st.progress.Stored? || NothingToDo(st.progress)
        case _ => true)
    && S.Enabled(st.s, Base(st, a))
  }

  function Finished(p: Progress): (c: M.Cycle) { if p.Stored? then p.c else M.Cycle([], {}, 0, 0) }

  ghost function Apply(st: State, a: Action): (r: State)
    requires Enabled(st, a)
  {
    var s := S.Apply(st.s, Base(st, a));
    match a
    case Stage(_, height) =>
      st.(s := s, lastCommittedHeight := if height.Some? then height.value else st.lastCommittedHeight)
    case Drain => st.(s := s, progress := Took(st.s.recheckSenders, st.lastCommittedHeight, st.s.deferred))
    case Select(snapshot, now) =>
      var c := M.Cycle(snapshot, st.progress.staged, st.progress.height, now);
      st.(s := s, arrival := M.NewArrival(st.cfg, st.arrival, c),
          progress := Picked(c, M.Books(st.progress.carry, st.arrival)))
    case Cap => st.(s := s, progress := Stored(st.progress.c, st.progress.was))
    case Leave =>
      st.(s := s, progress := Waiting, cycles := st.cycles + [Finished(st.progress)],
          books := st.books + [M.Books(s.deferred, st.arrival)])
    case _ => st.(s := s)
  }

  ghost predicate IsRun(b: seq<State>, acts: seq<Action>) {
    && |b| == |acts| + 1
    && (exists cfg, threads :: b[0] == Init(cfg, threads))
    && (forall i :: 0 <= i < |acts| ==> Enabled(b[i], acts[i]) && b[i + 1] == Apply(b[i], acts[i]))
  }

  // ---------------------------------------------------------------------------------------
  // Projection to the staging protocol

  ghost function Systems(b: seq<State>): (r: seq<S.Sys>) { seq(|b|, i requires 0 <= i < |b| => b[i].s) }

  ghost function Bases(b: seq<State>, acts: seq<Action>): (r: seq<S.Action>)
    requires IsRun(b, acts)
  {
    seq(|acts|, i requires 0 <= i < |acts| => assert Enabled(b[i], acts[i]); Base(b[i], acts[i]))
  }

  lemma ProjectsToStaging(b: seq<State>, acts: seq<Action>)
    requires IsRun(b, acts)
    ensures S.IsRun(Systems(b), Bases(b, acts))
  {
    var sb, sa := Systems(b), Bases(b, acts);
    var cfg, threads :| b[0] == Init(cfg, threads);
    assert sb[0] == S.Init(threads);
    forall i | 0 <= i < |sa| ensures S.Enabled(sb[i], sa[i]) && sb[i + 1] == S.Apply(sb[i], sa[i]) {
      assert Enabled(b[i], acts[i]) && b[i + 1] == Apply(b[i], acts[i]);
    }
  }

  // ---------------------------------------------------------------------------------------
  // Projection to runs of cycles

  predicate PastEntry(s: S.Sys) { s.cycle.InCycle? && !s.cycle.phase.Entered? }

  /** The finished cycles are a run, each on the senders its drain returned. */
  ghost predicate CyclesOk(st: State) {
    && M.IsRun(st.cfg, st.books, st.cycles) && |st.cycles| == st.s.left <= |st.s.drains|
    && (forall d :: 0 <= d < |st.cycles| ==> st.cycles[d].staged == st.s.drains[d])
  }

  /** What the cycle in progress has made of the books it found, the last ones. */
  ghost predicate ProgressOk(st: State)
    requires st.books != []
  {
    var was, drains := st.books[|st.books| - 1], st.s.drains;
    && (st.progress.Waiting? <==> !PastEntry(st.s))
    && (PastEntry(st.s) ==> |drains| > 0)
    && match st.progress
       case Waiting => M.Books(st.s.deferred, st.arrival) == was
       case Took(staged, _, carry) =>
         st.s.cycle.phase.Drained? && staged == drains[|drains| - 1] && M.Books(carry, st.arrival) == was
       case Picked(c, found) =>
         && st.s.cycle.phase.Drained? && c.staged == drains[|drains| - 1] && found == was
         && Distinct(c.snapshot) && !M.Skips(was.carry, c) && st.arrival == M.NewArrival(st.cfg, was.arrival, c)
       case Stored(c, found) =>
         && c.staged == drains[|drains| - 1] && found == was && Distinct(c.snapshot)
         && M.Books(st.s.deferred, st.arrival) == M.Next(st.cfg, was, c)
  }

  ghost predicate Inv(st: State) { CyclesOk(st) && ProgressOk(st) }

  lemma LeaveExtends(st: State)
    requires Inv(st) && S.CycleOk(st.s) && Enabled(st, Leave)
    ensures CyclesOk(Apply(st, Leave))
  {
    var r, c := Apply(st, Leave), Finished(st.progress);
    assert Distinct(c.snapshot);
    assert M.Books(st.s.deferred, st.arrival) == M.Next(st.cfg, st.books[|st.books| - 1], c);
    forall i | 0 <= i < |r.cycles|
      ensures r.books[i + 1] == M.Next(st.cfg, r.books[i], r.cycles[i]) && Distinct(r.cycles[i].snapshot)
    {
      if i < |st.cycles| { assert st.books[i + 1] == M.Next(st.cfg, st.books[i], st.cycles[i]); }
    }
  }

  lemma DrainInv(st: State)
    requires Inv(st) && S.CycleOk(st.s) && Enabled(st, Drain)
    ensures Inv(Apply(st, Drain))
  {
  }

  lemma SelectInv(st: State, snapshot: seq<M.Tx>, now: int)
    requires Inv(st) && S.CycleOk(st.s) && Enabled(st, Select(snapshot, now))
    ensures Inv(Apply(st, Select(snapshot, now)))
  {
  }

  lemma CapInv(st: State)
    requires Inv(st) && S.CycleOk(st.s) && Enabled(st, Cap)
    ensures Inv(Apply(st, Cap))
  {
  }

  lemma LeaveInv(st: State)
    requires Inv(st) && S.CycleOk(st.s) && Enabled(st, Leave)
    ensures Inv(Apply(st, Leave))
  {
    LeaveExtends(st);
  }

  lemma StepInv(st: State, a: Action)
    requires Inv(st) && S.CycleOk(st.s) && Enabled(st, a)
    ensures Inv(Apply(st, a))
  {
    match a
    case Drain => DrainInv(st);
    case Select(snapshot, now) => SelectInv(st, snapshot, now);
    case Cap => CapInv(st);
    case Leave => LeaveInv(st);
    case _ =>
  }

  lemma {:induction false} RunInv(b: seq<State>, acts: seq<Action>, i: nat)
    requires IsRun(b, acts) && i < |b|
    ensures Inv(b[i]) && S.Inv(b[i].s)
  {
    ProjectsToStaging(b, acts);
    S.RunInv(Systems(b), Bases(b, acts), i);
    if i > 0 {
      RunInv(b, acts, i - 1);
      StepInv(b[i - 1], acts[i - 1]);
    }
  }

  /** The finished cycles of every interleaving are a run of cycles: Manager's results apply to them. */
  lemma CyclesAreARun(b: seq<State>, acts: seq<Action>, i: nat)
    requires IsRun(b, acts) && i < |b|
    ensures M.IsRun(b[i].cfg, b[i].books, b[i].cycles) && |b[i].cycles| <= |b[i].s.drains|
    ensures forall d :: 0 <= d < |b[i].cycles| ==> b[i].cycles[d].staged == b[i].s.drains[d]
  {
    RunInv(b, acts, i);
  }

  // ---------------------------------------------------------------------------------------
  // From a commit to a proposal

  /** Cycle `d` has dealt with the transaction: evicted it, or put it once in its batch or its carry. */
  predicate DealtWith(st: State, d: nat, tx: M.Tx)
    requires |st.books| == |st.cycles| + 1 && d < |st.cycles|
  {
    var was, c := st.books[d], st.cycles[d];
    || M.Evicts(st.cfg, was.arrival, c, tx)
    || multiset(M.Batch(st.cfg, was.arrival, was.carry, c))[tx] +
        multiset(st.books[d + 1].carry)[tx] == 1
  }

  lemma SignersDealtWith(st: State, d: nat, sender: S.Sender, tx: M.Tx)
    requires CyclesOk(st) && d < |st.cycles| && sender in st.cycles[d].staged
    requires tx in st.cycles[d].snapshot && sender in tx.signers
    ensures DealtWith(st, d, tx)
  {
    var was, c := st.books[d], st.cycles[d];
    M.RunPartition(st.cfg, st.books, st.cycles, d, tx);
    if !M.Evicts(st.cfg, was.arrival, c, tx) { assert M.Owed(st.cfg, was.arrival, was.carry, c, tx); }
  }

  /**
   A commit calls `recheck` at step `c` and returns at step `u`; a proposal reads `ready` at step
   `j` and stops waiting at step `k` without a timeout. Unless the worker was stopped, for every
   sender staged before `c` there is a finished cycle that took it, and every transaction of that
   sender in the cycle's snapshot of the pool was evicted by that cycle, or is exactly once in its
   batch or its carry. A transaction that is not in the snapshot had left the pool or not yet come.
   */
  lemma StagedSendersDealtWith(b: seq<State>, acts: seq<Action>, r: W.Tid, c: nat, u: nat, w: W.Tid, j: nat, k: nat,
      token: S.Token)
    returns (d: nat)
    requires IsRun(b, acts) && c < u < j < k < |acts|
    requires W.Latest(S.Steps(Bases(b, acts)), r, W.RecheckCall, c, u) &&
            acts[u] == Protocol(W.Client(r, W.RecheckUnlock))
    requires W.Latest(S.Steps(Bases(b, acts)), w, W.WaitRead, j, k) && acts[k] == Protocol(W.Client(w, W.WaitDone))
    requires !b[k].s.w.sh.quit && token in b[c].s.tokens
    ensures d < |b[k].cycles| && |b[k].books| == |b[k].cycles| + 1 && token.sender in b[k].cycles[d].staged
    ensures forall tx :: tx in b[k].cycles[d].snapshot && token.sender in tx.signers ==> DealtWith(b[k], d, tx)
  {
    ProjectsToStaging(b, acts);
    S.StagedBeforeTriggerIsServed(Systems(b), Bases(b, acts), r, c, u, w, j, k);
    RunInv(b, acts, k);
    d := b[k].s.taken[token];
    assert token.sender in b[k].s.drains[d] && b[k].cycles[d].staged == b[k].s.drains[d];
    forall tx | tx in b[k].cycles[d].snapshot && token.sender in tx.signers ensures DealtWith(b[k], d, tx) {
      SignersDealtWith(b[k], d, token.sender, tx);
    }
  }

  /**
   A transaction that a finished cycle carried is in the batch of a later finished cycle, or has
   left the pool, as soon as enough cycles have finished, however staging and triggers interleave.
   */
  lemma CarriedIsSettled(b: seq<State>, acts: seq<Action>, k: nat, d: nat, i: nat)
    requires IsRun(b, acts) && k < |b| && b[k].cfg.maxRecheckBatch > 0
    requires d < |b[k].books| && i < |b[k].books[d].carry| && d + i / b[k].cfg.maxRecheckBatch < |b[k].cycles|
    ensures |b[k].books| == |b[k].cycles| + 1
    ensures exists n: nat :: d <= n <= d + i / b[k].cfg.maxRecheckBatch &&
                             M.SettledAt(b[k].cfg, b[k].books, b[k].cycles, n, b[k].books[d].carry[i])
  {
    RunInv(b, acts, k);
    M.NoStarvation(b[k].cfg, b[k].books, b[k].cycles, d, i);
  }

  // ---------------------------------------------------------------------------------------
  // A cycle always comes to its end

  /** Steps the cycle in progress has still to take. */
  function StepsLeft(st: State): (n: nat) {
    if st.s.cycle.NoCycle? then 0
    else match st.progress
      case Waiting => 4
      case Took(_, _, _) => 3
      case Picked(_, _) => 2
      case Stored(_, _) => 1
  }

  predicate OfCycle(a: Action) { a.Drain? || a.Select? || a.Cap? || a.Leave? }

  /** What the cycle in progress does next; it needs nothing from anybody else. */
  function NextOfCycle(st: State, snapshot: seq<M.Tx>, now: int): (a: Action) {
    match st.progress
    case Waiting => Drain
    case Took(_, _, _) => if NothingToDo(st.progress) then Leave else Select(snapshot, now)
    case Picked(_, _) => Cap
    case Stored(_, _) => Leave
  }

  lemma CycleCanStep(st: State, snapshot: seq<M.Tx>, now: int)
    requires Inv(st) && S.CycleOk(st.s) && st.s.cycle.InCycle? && Distinct(snapshot)
    ensures Enabled(st, NextOfCycle(st, snapshot, now)) && 0 < StepsLeft(st) <= 4
  {
  }

  lemma CycleStep(st: State, a: Action)
    requires Inv(st) && Enabled(st, a)
    ensures OfCycle(a) ==> StepsLeft(Apply(st, a)) < StepsLeft(st)
    ensures !OfCycle(a) && st.s.cycle.InCycle? ==> StepsLeft(Apply(st, a)) == StepsLeft(st)
  {
  }

  /**
   In every reachable state the cycle that holds `recheckMu` can take its next step, whatever it
   then sees of the pool, and each of its steps brings it closer to leaving: four in all. Without
   a cycle in progress the worker's run can enter one, and once that has left, the run can return.
   */
  lemma CycleEnds(b: seq<State>, acts: seq<Action>, i: nat, snapshot: seq<M.Tx>, now: int)
    requires IsRun(b, acts) && i < |b| && Distinct(snapshot)
    ensures b[i].s.cycle.InCycle? ==> Enabled(b[i], NextOfCycle(b[i], snapshot, now)) && 0 < StepsLeft(b[i]) <= 4
    ensures b[i].s.cycle.NoCycle? && b[i].s.w.sh.worker.Running? && !b[i].s.fnDone ==> Enabled(b[i], Enter(S.TheWorker))
    ensures b[i].s.w.sh.worker.Running? && b[i].s.fnDone ==> Enabled(b[i], Protocol(W.Worker(W.Finish)))
    ensures i < |acts| && OfCycle(acts[i]) ==> StepsLeft(b[i + 1]) < StepsLeft(b[i])
    ensures i < |acts| && !OfCycle(acts[i]) && b[i].s.cycle.InCycle? ==> StepsLeft(b[i + 1]) == StepsLeft(b[i])
  {
    RunInv(b, acts, i);
    if b[i].s.cycle.InCycle? { CycleCanStep(b[i], snapshot, now); }
    if i < |acts| { CycleStep(b[i], acts[i]); }
  }

  // ---------------------------------------------------------------------------------------
  // What a cycle works on

  /** The height of the last committed block among the first `n` actions, 0 before any. */
  function HeightBy(acts: seq<Action>, n: nat): (h: int)
    requires n <= |acts|
  {
    if n == 0 then 0
    else if acts[n - 1].Stage? && acts[n - 1].height.Some? then acts[n - 1].height.value
    else HeightBy(acts, n - 1)
  }

  lemma {:induction false} HeightKnown(b: seq<State>, acts: seq<Action>, i: nat)
    requires IsRun(b, acts) && i < |b|
    ensures b[i].lastCommittedHeight == HeightBy(acts, i)
  {
    if i > 0 {
      HeightKnown(b, acts, i - 1);
      assert b[i] == Apply(b[i - 1], acts[i - 1]);
    }
  }

  /** Between its drain and its end, a cycle holds the senders, the height and the carry it drained. */
  ghost predicate WorksOn(st: State, staged: set<S.Sender>, height: int, carry: seq<M.Tx>) {
    match st.progress
    case Waiting => false
    case Took(s, h, c) => s == staged && h == height && c == carry
    case Picked(c, was) => c.staged == staged && c.height == height && was.carry == carry
    case Stored(c, was) => c.staged == staged && c.height == height && was.carry == carry
  }

  lemma {:induction false} WorksThrough(b: seq<State>, acts: seq<Action>, d: nat, e: nat)
    requires IsRun(b, acts) && d < e < |b| && acts[d] == Drain && (forall x :: d < x < e ==> acts[x] != Leave)
    ensures WorksOn(b[e], b[d].s.recheckSenders, b[d].lastCommittedHeight, b[d].s.deferred)
  {
    assert Enabled(b[e - 1], acts[e - 1]) && b[e] == Apply(b[e - 1], acts[e - 1]);
    if d < e - 1 { WorksThrough(b, acts, d, e - 1); }
  }

  /**
   The cycle that drains at step `d` and leaves at step `e` after a scan is recorded with what was
   staged when it drained and with the height of the last block committed before that.
   */
  lemma CycleInputs(b: seq<State>, acts: seq<Action>, d: nat, e: nat)
    requires IsRun(b, acts) && d < e < |acts| && acts[d] == Drain && acts[e] == Leave
    requires (forall x :: d < x < e ==> acts[x] != Leave) && b[e].progress.Stored?
    ensures |b[e + 1].cycles| == |b[e].cycles| + 1
    ensures var c := b[e + 1].cycles[|b[e].cycles|]; c.staged == b[d].s.recheckSenders && c.height == HeightBy(acts, d)
  {
    WorksThrough(b, acts, d, e);
    HeightKnown(b, acts, d);
    assert Enabled(b[e], acts[e]) && b[e + 1] == Apply(b[e], acts[e]);
  }
}
