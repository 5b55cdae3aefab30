/**
 The asynchronous recheck worker: one goroutine that runs the recheck function once per
 drained trigger, any number of goroutines that call `recheck`, `stop` and `wait`, a one-slot
 channel that carries the gate of the pending run, and a mutex around `ready`.

 The protocol is a transition system. Every step is one shared-memory action of one
 goroutine, so the send on the trigger channel and the publication of `ready` are two steps
 and the worker may run between them. Go panics on a second `close`; here a second close sets
 `panicked`, which is then proved to stay false.

 `offer`, `maker`, `started`, `finished` and `owed` are history variables: the gate that is in
 flight between the send and its publication, who made each gate, how many runs of the recheck
 function have begun and have returned, and how many must return before the rechecks requested
 so far are served. The protocol never branches on them.
 */
module RecheckWorker {
  import opened Common

  type Gate = nat
  type Tid = nat

  datatype WorkerPc =
    | Select                    // in the outer select
    | Received(gate: Gate)      // took a gate, about to look at quit again
    | Running(gate: Gate)       // inside the recheck function
    | Returned(gate: Gate)      // the function returned, the gate is still open
    | Abandoning(gate: Gate)    // quit was closed, about to close the gate without a run
    | Draining                  // in drainTrigger
    | DrainHeld(gate: Gate)     // drainTrigger took a gate
    | Exiting                   // trigger drained, about to close done
    | Exited

  datatype ClientPc =
    | Idle
    | RecheckEnter(gate: Gate, began: nat)    // gate made, waiting for the mutex
    | RecheckLocked(gate: Gate, began: nat)
    | RecheckOpen(gate: Gate, began: nat)     // quit was seen open
    | RecheckSent(gate: Gate, began: nat)     // gate is in the slot, ready not yet updated
    | RecheckLeave(began: nat)
    | StopEnter
    | StopOnce                                // won sync.Once, waiting for the mutex
    | StopLocked
    | StopClosed
    | StopWaiting
    | WaitEnter
    | WaitLocked
    | WaitHolding(gate: Gate, goal: nat)      // read ready, still holds the mutex
    | WaitBlocked(gate: Gate, goal: nat)
    | WaitReturned(timedOut: bool, goal: nat)

  datatype Once = Fresh | Busy(runner: Tid) | Spent

  datatype Shared = Shared(
    slot: Option<Gate>,
    ready: Gate,
    closed: set<Gate>,
    quit: bool,
    done: bool,
    once: Once,
    lock: Option<Tid>,
    worker: WorkerPc,
    panicked: bool,
    offer: Option<Gate>,
    maker: seq<Tid>,
    started: nat,
    finished: nat,
    owed: nat)

  datatype State = State(sh: Shared, clients: map<Tid, ClientPc>)

  datatype ClientOp =
    | RecheckCall | RecheckLock | RecheckLookQuit | RecheckTrySend | RecheckPublish | RecheckUnlock
    | StopCall | StopEnterOnce | StopLock | StopCloseQuit | StopUnlock | StopReturn
    | WaitCall | WaitLock | WaitRead | WaitUnlock | WaitDone | WaitTimeout | WaitLeave

  datatype WorkerOp =
    | Take | SeeQuit | LookQuit | Finish | Close | Drain | Exit

  datatype Step =
    | Client(t: Tid, op: ClientOp)
    | Worker(wop: WorkerOp)
    | Environment               // a step of code outside this protocol

  /** `newRecheckWorker` followed by `start`: gate 0 is the pre-closed idle gate. */
  function Init(threads: set<Tid>): (s: State) {
    State(Shared(None, 0, {0}, false, false, Fresh, None, Select, false, None, [0], 0, 0, 0),
          map t | t in threads :: Idle)
  }

  predicate ClientEnabled(sh: Shared, pc: ClientPc, op: ClientOp) {
    match op
    case RecheckCall => pc.Idle?
    case RecheckLock => pc.RecheckEnter? && sh.lock.None?
    case RecheckLookQuit => pc.RecheckLocked?
    case RecheckTrySend => pc.RecheckOpen?
    case RecheckPublish => pc.RecheckSent?
    case RecheckUnlock => pc.RecheckLeave?
    case StopCall => pc.Idle?
    case StopEnterOnce => pc.StopEnter? && !sh.once.Busy?
    case StopLock => pc.StopOnce? && sh.lock.None?
    case StopCloseQuit => pc.StopLocked?
    case StopUnlock => pc.StopClosed?
    case StopReturn => pc.StopWaiting? && sh.done
    case WaitCall => pc.Idle?
    case WaitLock => pc.WaitEnter? && sh.lock.None?
    case WaitRead => pc.WaitLocked?
    case WaitUnlock => pc.WaitHolding?
    case WaitDone => pc.WaitBlocked? && pc.gate in sh.closed
    case WaitTimeout => pc.WaitBlocked? && pc.gate !in sh.closed
    case WaitLeave => pc.WaitReturned?
  }

  function ClientNext(sh: Shared, pc: ClientPc, op: ClientOp): (pc': ClientPc)
    requires ClientEnabled(sh, pc, op)
  {
    match op
    case RecheckCall => RecheckEnter(|sh.maker|, sh.started)
    case RecheckLock => RecheckLocked(pc.gate, pc.began)
    case RecheckLookQuit => if sh.quit then RecheckLeave(pc.began) else RecheckOpen(pc.gate, pc.began)
    case RecheckTrySend => if sh.slot.None? then RecheckSent(pc.gate, pc.began) else RecheckLeave(pc.began)
    case RecheckPublish => RecheckLeave(pc.began)
    case RecheckUnlock => Idle
    case StopCall => StopEnter
    case StopEnterOnce => if sh.once.Fresh? then StopOnce else StopWaiting
    case StopLock => StopLocked
    case StopCloseQuit => StopClosed
    case StopUnlock => StopWaiting
    case StopReturn => Idle
    case WaitCall => WaitEnter
    case WaitLock => WaitLocked
    case WaitRead => WaitHolding(sh.ready, sh.owed)
    case WaitUnlock => WaitBlocked(pc.gate, pc.goal)
    case WaitDone => WaitReturned(false, pc.goal)
    case WaitTimeout => WaitReturned(true, pc.goal)
    case WaitLeave => Idle
  }

  function ClientEffect(sh: Shared, t: Tid, pc: ClientPc, op: ClientOp): (sh': Shared)
    requires ClientEnabled(sh, pc, op)
  {
    match op
    case RecheckCall => sh.(maker := sh.maker + [t])
    case RecheckLock => sh.(lock := Some(t))
    case RecheckTrySend =>
      if sh.slot.None? then sh.(slot := Some(pc.gate), offer := Some(pc.gate), owed := sh.started + 1)
      else sh.(owed := sh.started + 1)
    case RecheckPublish => sh.(ready := pc.gate, offer := None)
    case RecheckUnlock => sh.(lock := None)
    case StopEnterOnce => if sh.once.Fresh? then sh.(once := Busy(t)) else sh
    case StopLock => sh.(lock := Some(t))
    case StopCloseQuit => sh.(quit := true, panicked := sh.panicked || sh.quit)
    case StopUnlock => sh.(lock := None, once := Spent)
    case WaitLock => sh.(lock := Some(t))
    case WaitUnlock => sh.(lock := None)
    case _ => sh
  }

  predicate WorkerEnabled(sh: Shared, op: WorkerOp) {
    match op
    case Take => sh.worker.Select? && sh.slot.Some?
    case SeeQuit => sh.worker.Select? && sh.quit
    case LookQuit => sh.worker.Received?
    case Finish => sh.worker.Running?
    case Close => sh.worker.Returned? || sh.worker.Abandoning? || sh.worker.DrainHeld?
    case Drain => sh.worker.Draining?
    case Exit => sh.worker.Exiting?
  }

  function WorkerEffect(sh: Shared, op: WorkerOp): (sh': Shared)
    requires WorkerEnabled(sh, op)
  {
    match op
    case Take => sh.(slot := None, worker := Received(sh.slot.value))
    case SeeQuit => sh.(worker := Draining)
    case LookQuit =>
      if sh.quit then sh.(worker := Abandoning(sh.worker.gate))
      else sh.(worker := Running(sh.worker.gate), started := sh.started + 1)
    case Finish => sh.(worker := Returned(sh.worker.gate), finished := sh.finished + 1)
    case Close =>
      sh.(closed := sh.closed + {sh.worker.gate},
          panicked := sh.panicked || sh.worker.gate in sh.closed,
          worker := if sh.worker.Returned? then Select else Draining)
    case Drain =>
      if sh.slot.Some? then sh.(slot := None, worker := DrainHeld(sh.slot.value))
      else sh.(worker := Exiting)
    case Exit => sh.(worker := Exited, done := true, panicked := sh.panicked || sh.done)
  }

  predicate Enabled(s: State, step: Step) {
    match step
    case Client(t, op) => t in s.clients && ClientEnabled(s.sh, s.clients[t], op)
    case Worker(op) => WorkerEnabled(s.sh, op)
    case Environment => true
  }

  function Apply(s: State, step: Step): (r: State)
    requires Enabled(s, step)
  {
    match step
    case Client(t, op) =>
      State(ClientEffect(s.sh, t, s.clients[t], op), s.clients[t := ClientNext(s.sh, s.clients[t], op)])
    case Worker(op) => s.(sh := WorkerEffect(s.sh, op))
    case Environment => s
  }

  /** A run of the protocol: `steps[i]` takes state `b[i]` to state `b[i + 1]`. */
  ghost predicate IsRun(b: seq<State>, steps: seq<Step>) {
    && |b| == |steps| + 1
    && (exists threads :: b[0] == Init(threads))
    && (forall i :: 0 <= i < |steps| ==> Enabled(b[i], steps[i]) && b[i + 1] == Apply(b[i], steps[i]))
  }

  // ---------------------------------------------------------------------------------------
  // The inductive invariant

  predicate Critical(pc: ClientPc) {
    pc.RecheckLocked? || pc.RecheckOpen? || pc.RecheckSent? || pc.RecheckLeave? ||
    pc.StopLocked? || pc.StopClosed? || pc.WaitLocked? || pc.WaitHolding?
  }

  /** The client has made a gate and not offered it to the slot yet. */
  predicate Private(pc: ClientPc) { pc.RecheckEnter? || pc.RecheckLocked? || pc.RecheckOpen? }

  predicate InOnce(pc: ClientPc) { pc.StopOnce? || pc.StopLocked? || pc.StopClosed? }

  predicate Holds(w: WorkerPc) {
    w.Received? || w.Running? || w.Returned? || w.Abandoning? || w.DrainHeld?
  }

  predicate Held(sh: Shared, g: Gate) { Holds(sh.worker) && sh.worker.gate == g }

  /** Every gate somebody may wait on is closed, in the slot, or in the worker's hands. */
  predicate Placed(sh: Shared, g: Gate) { g in sh.closed || sh.slot == Some(g) || Held(sh, g) }

  /** Once `g` is closed, `goal` runs have returned, unless the worker was told to quit. */
  predicate Covers(sh: Shared, g: Gate, goal: nat) {
    && Placed(sh, g)
    && goal <= sh.started + 1
    && (Held(sh, g) && sh.worker.Running? ==> goal <= sh.started)
    && (Held(sh, g) && sh.worker.Returned? ==> goal <= sh.finished)
    && (g in sh.closed ==> sh.quit || goal <= sh.finished)
  }

  /** The latest gate, counting the one the mutex holder has sent and not yet published. */
  function Effective(sh: Shared): (g: Gate) { if sh.offer.Some? then sh.offer.value else sh.ready }

  /** The worker has seen quit. */
  predicate Quitting(w: WorkerPc) { w.Abandoning? || w.Draining? || w.DrainHeld? || w.Exiting? || w.Exited? }

  predicate SharedOk(sh: Shared) {
    && !sh.panicked
    && sh.started == sh.finished + (if sh.worker.Running? then 1 else 0)
    && (Quitting(sh.worker) ==> sh.quit)
    && (sh.worker.Exiting? || sh.worker.Exited? ==> sh.slot.None?)
    && sh.done == sh.worker.Exited?
    && (sh.once.Fresh? ==> !sh.quit)
    && (sh.once.Spent? ==> sh.quit)
    && (sh.lock.None? ==> sh.offer.None?)
    && (forall g :: g in sh.closed ==> g < |sh.maker|)
    && sh.ready < |sh.maker|
    && (sh.slot.Some? ==> sh.slot.value < |sh.maker| && sh.slot.value !in sh.closed && sh.slot.value == Effective(sh))
    && (Holds(sh.worker) ==>
        sh.worker.gate < |sh.maker| && sh.worker.gate !in sh.closed &&
        sh.slot != Some(sh.worker.gate))
    && Placed(sh, sh.ready)
    && Covers(sh, Effective(sh), sh.owed)
  }

  predicate ClientOk(sh: Shared, t: Tid, pc: ClientPc) {
    && (Critical(pc) <==> sh.lock == Some(t))
    && (pc.RecheckSent? ==> sh.offer == Some(pc.gate))
    && (Critical(pc) && !pc.RecheckSent? ==> sh.offer.None?)
    && (Private(pc) ==> pc.gate < |sh.maker| && sh.maker[pc.gate] == t && !Placed(sh, pc.gate))
    && (pc.RecheckOpen? || pc.RecheckSent? ==> !sh.quit)
    && (Private(pc) ==> pc.began <= sh.started)
    && (pc.RecheckSent? || pc.RecheckLeave? ==> sh.quit || pc.began + 1 <= sh.owed)
    && (InOnce(pc) <==> sh.once == Busy(t))
    && (pc.StopOnce? || pc.StopLocked? ==> !sh.quit)
    && (pc.StopClosed? ==> sh.quit)
    && (pc.WaitHolding? || pc.WaitBlocked? ==> Covers(sh, pc.gate, pc.goal))
    && (pc.WaitReturned? && !pc.timedOut ==> sh.quit || pc.goal <= sh.finished)
  }

  predicate Inv(s: State) {
    && SharedOk(s.sh)
    && (s.sh.lock.Some? ==> s.sh.lock.value in s.clients)
    && (forall t :: t in s.clients ==> ClientOk(s.sh, t, s.clients[t]))
  }

  lemma ClientStepShared(sh: Shared, t: Tid, pc: ClientPc, op: ClientOp)
    requires SharedOk(sh) && ClientOk(sh, t, pc) && ClientEnabled(sh, pc, op)
    ensures SharedOk(ClientEffect(sh, t, pc, op))
  {
  }

  lemma ClientStepOwn(sh: Shared, t: Tid, pc: ClientPc, op: ClientOp)
    requires SharedOk(sh) && ClientOk(sh, t, pc) && ClientEnabled(sh, pc, op)
    ensures ClientOk(ClientEffect(sh, t, pc, op), t, ClientNext(sh, pc, op))
  {
  }

  lemma ClientStepOther(sh: Shared, t: Tid, pc: ClientPc, op: ClientOp, u: Tid, other: ClientPc)
    requires SharedOk(sh) && ClientOk(sh, t, pc) && ClientEnabled(sh, pc, op)
    requires t != u && ClientOk(sh, u, other)
    ensures ClientOk(ClientEffect(sh, t, pc, op), u, other)
  {
  }

  lemma WorkerStepOk(sh: Shared, op: WorkerOp)
    requires SharedOk(sh) && WorkerEnabled(sh, op)
    ensures SharedOk(WorkerEffect(sh, op))
  {
  }

  lemma WorkerStepOther(sh: Shared, op: WorkerOp, u: Tid, pc: ClientPc)
    requires SharedOk(sh) && WorkerEnabled(sh, op) && ClientOk(sh, u, pc)
    ensures ClientOk(WorkerEffect(sh, op), u, pc)
  {
  }

  lemma StepInv(s: State, step: Step)
    requires Inv(s) && Enabled(s, step)
    ensures Inv(Apply(s, step))
  {
    var r := Apply(s, step);
    match step {
      case Client(t, op) =>
        ClientStepShared(s.sh, t, s.clients[t], op);
        ClientStepOwn(s.sh, t, s.clients[t], op);
        forall u | u in r.clients && u != t ensures ClientOk(r.sh, u, r.clients[u]) {
          ClientStepOther(s.sh, t, s.clients[t], op, u, s.clients[u]);
        }
      case Worker(op) =>
        WorkerStepOk(s.sh, op);
        forall u | u in r.clients ensures ClientOk(r.sh, u, r.clients[u]) {
          WorkerStepOther(s.sh, op, u, s.clients[u]);
        }
      case Environment =>
    }
  }

  /** The invariant holds in every state of every run; in particular no channel is closed twice. */
  lemma {:induction false} RunInv(b: seq<State>, steps: seq<Step>, i: nat)
    requires IsRun(b, steps) && i < |b|
    ensures Inv(b[i]) && !b[i].sh.panicked
  {
    if i > 0 {
      RunInv(b, steps, i - 1);
      StepInv(b[i - 1], steps[i - 1]);
    }
  }

  /**
   Where the gates are, in every state of every run. Whenever the mutex is free, the gate in
   the slot is the one waiters are handed; the published gate and every gate a waiter is blocked
   on is closed, in the slot or in the worker's hands; an open gate is in one place only.
   */
  lemma GatesAccountedFor(b: seq<State>, steps: seq<Step>, i: nat)
    requires IsRun(b, steps) && i < |b|
    ensures b[i].sh.lock.None? && b[i].sh.slot.Some? ==> b[i].sh.ready == b[i].sh.slot.value
    ensures Placed(b[i].sh, b[i].sh.ready)
    ensures forall t :: t in b[i].clients && b[i].clients[t].WaitBlocked? ==> Placed(b[i].sh, b[i].clients[t].gate)
    ensures forall g: Gate :: g in b[i].sh.closed ==> b[i].sh.slot != Some(g) && !Held(b[i].sh, g)
    ensures forall g: Gate :: Held(b[i].sh, g) ==> b[i].sh.slot != Some(g)
  {
    RunInv(b, steps, i);
  }

  // ---------------------------------------------------------------------------------------
  // A wait that follows a recheck sees a run that began after it

  predicate NotBefore(x: Shared, y: Shared) {
    && x.started <= y.started && x.finished <= y.finished && x.owed <= y.owed
    && x.closed <= y.closed && (x.quit ==> y.quit) && (x.done ==> y.done)
  }

  lemma ClientMonotone(sh: Shared, t: Tid, pc: ClientPc, op: ClientOp)
    requires SharedOk(sh) && ClientEnabled(sh, pc, op)
    ensures NotBefore(sh, ClientEffect(sh, t, pc, op))
  {
  }

  lemma WorkerMonotone(sh: Shared, op: WorkerOp)
    requires SharedOk(sh) && WorkerEnabled(sh, op)
    ensures NotBefore(sh, WorkerEffect(sh, op))
  {
  }

  lemma StepMonotone(s: State, step: Step)
    requires SharedOk(s.sh) && Enabled(s, step)
    ensures NotBefore(s.sh, Apply(s, step).sh)
  {
    match step
    case Client(t, op) => ClientMonotone(s.sh, t, s.clients[t], op);
    case Worker(op) => WorkerMonotone(s.sh, op);
    case Environment =>
  }

  lemma {:induction false} Monotone(b: seq<State>, steps: seq<Step>, i: nat, j: nat)
    requires IsRun(b, steps) && i <= j < |b|
    ensures NotBefore(b[i].sh, b[j].sh)
  {
    if i < j {
      Monotone(b, steps, i, j - 1);
      RunInv(b, steps, j - 1);
      StepMonotone(b[j - 1], steps[j - 1]);
      assert b[j] == Apply(b[j - 1], steps[j - 1]);
      StillNotBefore(b[i].sh, b[j - 1].sh, b[j].sh);
    }
  }

  lemma StillNotBefore(x: Shared, y: Shared, z: Shared)
    requires NotBefore(x, y) && NotBefore(y, z)
    ensures NotBefore(x, z)
  {
  }

  predicate InRecheck(pc: ClientPc) { Private(pc) || pc.RecheckSent? || pc.RecheckLeave? }

  predicate InWait(pc: ClientPc) { pc.WaitHolding? || pc.WaitBlocked? }

  /** The client performs `op` at `first` and not again before `last`. */
  ghost predicate Latest(steps: seq<Step>, t: Tid, op: ClientOp, first: int, last: int) {
    && 0 <= first < last < |steps|
    && steps[first] == Client(t, op)
    && (forall x :: first < x < last ==> steps[x] != Client(t, op))
  }

  /** A recheck call remembers how many runs had begun when it was made. */
  lemma {:induction false} RecheckRemembers(b: seq<State>, steps: seq<Step>, t: Tid, c: nat, j: nat)
    requires IsRun(b, steps) && c < j < |steps|
    requires Latest(steps, t, RecheckCall, c, j)
    ensures t in b[j].clients
    ensures InRecheck(b[j].clients[t]) ==> b[j].clients[t].began == b[c].sh.started
  {
    if j == c + 1 {
      assert b[j] == Apply(b[c], steps[c]);
    } else {
      RecheckRemembers(b, steps, t, c, j - 1);
      assert b[j] == Apply(b[j - 1], steps[j - 1]);
    }
  }

  /** A wait call remembers what was owed when it read `ready`. */
  lemma {:induction false} WaitRemembers(b: seq<State>, steps: seq<Step>, t: Tid, c: nat, j: nat)
    requires IsRun(b, steps) && c < j < |steps|
    requires Latest(steps, t, WaitRead, c, j)
    ensures t in b[j].clients
    ensures InWait(b[j].clients[t]) ==> b[j].clients[t].goal == b[c].sh.owed
  {
    if j == c + 1 {
      assert b[j] == Apply(b[c], steps[c]);
    } else {
      WaitRemembers(b, steps, t, c, j - 1);
      assert b[j] == Apply(b[j - 1], steps[j - 1]);
    }
  }

  /** The n-th run of the recheck function begins with step `p`. */
  predicate BeginsRun(b: seq<State>, steps: seq<Step>, p: int, n: nat) {
    && 0 <= p < |steps| && |b| == |steps| + 1
    && steps[p] == Worker(LookQuit) && b[p].sh.started == n && b[p + 1].sh.started == n + 1
  }

  /** The n-th run of the recheck function returns with step `q`. */
  predicate EndsRun(b: seq<State>, steps: seq<Step>, q: int, n: nat) {
    && 0 <= q < |steps| && |b| == |steps| + 1
    && steps[q] == Worker(Finish) && b[q].sh.finished == n && b[q + 1].sh.finished == n + 1
  }

  lemma {:induction false} FindBegin(b: seq<State>, steps: seq<Step>, i: nat, j: nat, n: nat) returns (p: nat)
    requires IsRun(b, steps) && i <= j < |b|
    requires b[i].sh.started <= n < b[j].sh.started
    ensures i <= p < j && BeginsRun(b, steps, p, n)
  {
    assert b[j] == Apply(b[j - 1], steps[j - 1]);
    if n < b[j - 1].sh.started { p := FindBegin(b, steps, i, j - 1, n); } else { p := j - 1; }
  }

  lemma {:induction false} FindEnd(b: seq<State>, steps: seq<Step>, i: nat, j: nat, n: nat) returns (q: nat)
    requires IsRun(b, steps) && i <= j < |b|
    requires b[i].sh.finished <= n < b[j].sh.finished
    ensures i <= q < j && EndsRun(b, steps, q, n)
  {
    assert b[j] == Apply(b[j - 1], steps[j - 1]);
    if n < b[j - 1].sh.finished { q := FindEnd(b, steps, i, j - 1, n); } else { q := j - 1; }
  }

  /**
   The promise of the worker. A recheck is called at step `c` and returns at step `u`; later a
   wait reads `ready` at step `j` and returns at step `k` without having timed out. Unless the
   worker was stopped, some run of the recheck function began after `c` and returned before `k`.
   */
  lemma WaitSeesFreshRun(b: seq<State>, steps: seq<Step>, r: Tid, c: nat, u: nat, w: Tid, j: nat, k: nat)
    returns (p: nat, q: nat)
    requires IsRun(b, steps) && c < u < j < k < |steps|
    requires Latest(steps, r, RecheckCall, c, u) && steps[u] == Client(r, RecheckUnlock)
    requires Latest(steps, w, WaitRead, j, k) && steps[k] == Client(w, WaitDone)
    requires !b[k].sh.quit
    ensures c < p < q < k
    ensures BeginsRun(b, steps, p, b[c].sh.started) && EndsRun(b, steps, q, b[c].sh.started)
  {
    var n := b[c].sh.started;
    RecheckRemembers(b, steps, r, c, u);
    WaitRemembers(b, steps, w, j, k);
    RunInv(b, steps, u);
    RunInv(b, steps, k);
    Monotone(b, steps, u, j);
    Monotone(b, steps, u, k);
    assert ClientOk(b[u].sh, r, b[u].clients[r]);
    assert ClientOk(b[k].sh, w, b[k].clients[w]);
    assert n + 1 <= b[k].sh.finished;
    p := FindBegin(b, steps, c, k, n);
    RunInv(b, steps, p + 1);
    q := FindEnd(b, steps, p + 1, k, n);
  }

  // ---------------------------------------------------------------------------------------
  // After stop: the worker exits within a bounded number of its own steps

  lemma StepAfterQuit(s: State, step: Step)
    requires Inv(s) && Enabled(s, step) && s.sh.quit
    ensures Apply(s, step).sh.slot.None? || Apply(s, step).sh.slot == s.sh.slot
    ensures Remaining(Apply(s, step).sh) + (if step.Worker? then 1 else 0) <= Remaining(s.sh)
  {
    if step.Client? { assert ClientOk(s.sh, step.t, s.clients[step.t]); }
  }

  /** Nothing enters the slot once quit is closed. */
  lemma {:induction false} SlotOnlyDrains(b: seq<State>, steps: seq<Step>, i: nat, j: nat)
    requires IsRun(b, steps) && i <= j < |b| && b[i].sh.quit
    ensures b[j].sh.slot.None? || b[j].sh.slot == b[i].sh.slot
  {
    if i < j {
      SlotOnlyDrains(b, steps, i, j - 1);
      RunInv(b, steps, j - 1);
      Monotone(b, steps, i, j - 1);
      StepAfterQuit(b[j - 1], steps[j - 1]);
    }
  }

  function Rank(w: WorkerPc): (n: nat) {
    match w
    case Exited => 0
    case Exiting => 1
    case Draining => 2
    case DrainHeld(_) => 3
    case Abandoning(_) => 3
    case Select => 3
    case Received(_) => 4
    case Returned(_) => 4
    case Running(_) => 5
  }

  function Remaining(sh: Shared): (n: nat) { Rank(sh.worker) + (if sh.slot.Some? then 2 else 0) }

  ghost function WorkerSteps(steps: seq<Step>, i: nat, j: nat): (n: nat)
    requires i <= j <= |steps|
    decreases j
  {
    if i == j then 0 else WorkerSteps(steps, i, j - 1) + (if steps[j - 1].Worker? then 1 else 0)
  }

  /** The worker is never stuck before it has exited. */
  lemma WorkerCanStep(b: seq<State>, steps: seq<Step>, i: nat)
    requires IsRun(b, steps) && i < |b| && b[i].sh.quit && !b[i].sh.done
    ensures exists op :: WorkerEnabled(b[i].sh, op)
  {
    RunInv(b, steps, i);
    var sh := b[i].sh;
    var op := match sh.worker
      case Select => SeeQuit
      case Received(_) => LookQuit
      case Running(_) => Finish
      case Draining => Drain
      case Exiting => Exit
      case _ => Close;
    assert WorkerEnabled(sh, op);
  }

  lemma {:induction false} QuitMeasure(b: seq<State>, steps: seq<Step>, i: nat, j: nat)
    requires IsRun(b, steps) && i <= j < |b| && b[i].sh.quit
    ensures WorkerSteps(steps, i, j) + Remaining(b[j].sh) <= Remaining(b[i].sh) <= 7
  {
    if i < j {
      QuitMeasure(b, steps, i, j - 1);
      RunInv(b, steps, j - 1);
      Monotone(b, steps, i, j - 1);
      StepAfterQuit(b[j - 1], steps[j - 1]);
    }
  }

  /** Seven steps of the worker after quit take it to `done`, with no waiter left behind. */
  lemma StopStrandsNobody(b: seq<State>, steps: seq<Step>, i: nat, j: nat)
    requires IsRun(b, steps) && i <= j < |b| && b[i].sh.quit
    requires WorkerSteps(steps, i, j) >= 7
    ensures b[j].sh.done && b[j].sh.slot.None? && b[j].sh.ready in b[j].sh.closed
    ensures forall t :: t in b[j].clients && b[j].clients[t].WaitBlocked? ==> Enabled(b[j], Client(t, WaitDone))
  {
    QuitMeasure(b, steps, i, j);
    RunInv(b, steps, j);
  }

  // ---------------------------------------------------------------------------------------
  // Nobody waits in vain

  /**
   What `wait` reports, in every run: false if and only if its gate was closed at the moment it
   stopped waiting, true if the deadline came first.
   */
  lemma WaitReportsExact(b: seq<State>, steps: seq<Step>, k: nat, t: Tid)
    requires IsRun(b, steps) && k < |steps| && t in b[k].clients && b[k].clients[t].WaitBlocked?
    ensures t in b[k + 1].clients
    ensures b[k + 1].clients[t].WaitReturned? ==>
            (b[k + 1].clients[t].timedOut <==> b[k].clients[t].gate !in b[k].sh.closed)
    ensures !b[k + 1].clients[t].WaitReturned? ==> b[k + 1].clients[t] == b[k].clients[t]
  {
    assert Enabled(b[k], steps[k]) && b[k + 1] == Apply(b[k], steps[k]);
  }

  /** `WaitSeesFreshRun` for a caller, who only sees what `wait` reports. */
  lemma FalseMeansFresh(b: seq<State>, steps: seq<Step>, r: Tid, c: nat, u: nat, w: Tid, j: nat, k: nat)
    returns (p: nat, q: nat)
    requires IsRun(b, steps) && c < u < j < k < |steps|
    requires Latest(steps, r, RecheckCall, c, u) && steps[u] == Client(r, RecheckUnlock)
    requires Latest(steps, w, WaitRead, j, k) && w in b[k].clients && b[k].clients[w].WaitBlocked?
    requires w in b[k + 1].clients && b[k + 1].clients[w].WaitReturned? && !b[k + 1].clients[w].timedOut
    requires !b[k].sh.quit
    ensures c < p < q < k
    ensures BeginsRun(b, steps, p, b[c].sh.started) && EndsRun(b, steps, q, b[c].sh.started)
  {
    assert Enabled(b[k], steps[k]) && b[k + 1] == Apply(b[k], steps[k]);
    p, q := WaitSeesFreshRun(b, steps, r, c, u, w, j, k);
  }

  /** Worker steps left until the gate is closed. */
  function ToClose(sh: Shared, g: Gate): (n: nat) {
    if g in sh.closed then 0
    else if Held(sh, g) then (if sh.worker.Received? then 3 else if sh.worker.Running? then 2 else 1)
    else match sh.worker
      case Select => 4
      case Received(_) => 7
      case Running(_) => 6
      case Returned(_) => 5
      case Draining => 2
      case _ => 3
  }

  /** The gate is closed, or will be within `n` steps of the worker. */
  predicate ClosesWithin(sh: Shared, g: Gate, n: int) { Placed(sh, g) && (g in sh.closed || ToClose(sh, g) <= n) }

  lemma ClientToClose(sh: Shared, t: Tid, pc: ClientPc, op: ClientOp, g: Gate, n: int)
    requires SharedOk(sh) && ClientOk(sh, t, pc) && ClientEnabled(sh, pc, op) && ClosesWithin(sh, g, n)
    ensures ClosesWithin(ClientEffect(sh, t, pc, op), g, n)
  {
  }

  lemma WorkerToClose(sh: Shared, op: WorkerOp, g: Gate, n: int)
    requires SharedOk(sh) && WorkerEnabled(sh, op) && ClosesWithin(sh, g, n)
    ensures ClosesWithin(WorkerEffect(sh, op), g, n - 1)
  {
  }

  lemma StepToClose(s: State, step: Step, g: Gate, n: int)
    requires Inv(s) && Enabled(s, step) && ClosesWithin(s.sh, g, n)
    ensures ClosesWithin(Apply(s, step).sh, g, if step.Worker? then n - 1 else n)
  {
    match step
    case Client(t, op) => ClientToClose(s.sh, t, s.clients[t], op, g, n);
    case Worker(op) => WorkerToClose(s.sh, op, g, n);
    case Environment =>
  }

  lemma {:induction false} GateApproaches(b: seq<State>, steps: seq<Step>, i: nat, j: nat, g: Gate, n: int)
    requires IsRun(b, steps) && i <= j < |b| && ClosesWithin(b[i].sh, g, n)
    ensures ClosesWithin(b[j].sh, g, n - WorkerSteps(steps, i, j))
  {
    if i < j {
      GateApproaches(b, steps, i, j - 1, g, n);
      RunInv(b, steps, j - 1);
      StepToClose(b[j - 1], steps[j - 1], g, n - WorkerSteps(steps, i, j - 1));
    }
  }

  /**
   Every gate that is handed out is closed within seven steps of the worker, whatever the clients
   do meanwhile and whether or not the worker is stopped; so no `wait` blocks for ever.
   */
  lemma GateIsClosed(b: seq<State>, steps: seq<Step>, i: nat, j: nat, g: Gate)
    requires IsRun(b, steps) && i <= j < |b| && WorkerSteps(steps, i, j) >= 7
    requires g == b[i].sh.ready || b[i].sh.slot == Some(g) ||
             exists t :: t in b[i].clients && b[i].clients[t].WaitBlocked? && b[i].clients[t].gate == g
    ensures g in b[j].sh.closed
  {
    GatesAccountedFor(b, steps, i);
    assert ClosesWithin(b[i].sh, g, 7);
    GateApproaches(b, steps, i, j, g, 7);
  }

  /** ... and the worker can take those steps: it is not stuck while a gate is open. */
  lemma WorkerNotStuck(b: seq<State>, steps: seq<Step>, i: nat, g: Gate)
    requires IsRun(b, steps) && i < |b| && Placed(b[i].sh, g) && g !in b[i].sh.closed
    ensures exists op :: WorkerEnabled(b[i].sh, op)
  {
    RunInv(b, steps, i);
    var sh := b[i].sh;
    var op := match sh.worker
      case Select => Take
      case Received(_) => LookQuit
      case Running(_) => Finish
      case Draining => Drain
      case Exiting => Exit
      case _ => Close;
    assert WorkerEnabled(sh, op);
  }

  /** Whoever holds the mutex can go on, so `recheck`, `stop` and `wait` get it in turn. */
  lemma HolderCanStep(b: seq<State>, steps: seq<Step>, i: nat)
    requires IsRun(b, steps) && i < |b| && b[i].sh.lock.Some?
    ensures b[i].sh.lock.value in b[i].clients
    ensures exists op :: ClientEnabled(b[i].sh, b[i].clients[b[i].sh.lock.value], op)
  {
    RunInv(b, steps, i);
    var pc := b[i].clients[b[i].sh.lock.value];
    assert ClientOk(b[i].sh, b[i].sh.lock.value, pc);
    var op := match pc
      case RecheckLocked(_, _) => RecheckLookQuit
      case RecheckOpen(_, _) => RecheckTrySend
      case RecheckSent(_, _) => RecheckPublish
      case RecheckLeave(_) => RecheckUnlock
      case StopLocked => StopCloseQuit
      case StopClosed => StopUnlock
      case WaitLocked => WaitRead
      case _ => WaitUnlock;
    assert ClientEnabled(b[i].sh, pc, op);
  }

  /** `stop` returns only once the worker has exited; nothing is left in the slot then. */
  lemma StopWaits(b: seq<State>, steps: seq<Step>, k: nat, t: Tid)
    requires IsRun(b, steps) && k < |steps| && t in b[k].clients && b[k].clients[t].StopWaiting?
    ensures t in b[k + 1].clients
    ensures b[k + 1].clients[t] != b[k].clients[t] ==>
            b[k + 1].clients[t].Idle? && b[k].sh.worker.Exited? && b[k].sh.slot.None?
  {
    RunInv(b, steps, k);
    assert Enabled(b[k], steps[k]) && b[k + 1] == Apply(b[k], steps[k]);
  }
}
