/**
 The HOTP lock / generate / commit transaction across processes that share one profile
 (`HotpTransaction`, `HotpStore`, `token_lock`, `token_unlock`).

 The seed is represented by its counter. Native contract
 (`native/include/openconnect.h:584-599`): between lock and unlock native code uses the
 seed the lock gave it, returns the seed with the next counter, and releases the code of
 the old counter only if unlock returned 0.
 */
module Hotp {
  import opened Common

  /** Where the worker of one process stands; `Loaded` and on carry the seed native code has. */
  datatype Process =
    | Idle
    | Waiting                    // blocked in the file lock
    | Locked                     // has it, has not read the keyring
    | Loaded(counter: nat)       // the seed was read and stored, native not refreshed
    | Generating(counter: nat)   // lock returned 0
    | Writing(counter: nat)      // unlock took the transaction, new seed not written
    | Leaving(commit: Option<nat>)  // written or not; still holds the file lock
    | Returned(commit: Option<nat>) // unlock returned; Some: it returned 0 for this commit
    | Provisioning               // explicit save or removal of the seed, holds the file lock

  /** A successful write of the counter after `counter`, in a provisioning epoch. */
  datatype Commit = Commit(epoch: nat, counter: nat)

  /**
   `slots` are the transaction slots of the processes' `HotpStore`s, `epoch` counts explicit
   provisionings; `commits` and `released` (indices of commits) are history.
   */
  datatype State = State(
    keyring: Option<nat>, holder: Option<nat>, processes: seq<Process>, slots: seq<Option<nat>>,
    epoch: nat, commits: seq<Commit>, released: seq<nat>)

  function Init(n: nat, seed: Option<nat>): State {
    State(seed, None, seq(n, i => Idle), seq(n, i => None), 0, [], [])
  }

  datatype Action =
      // Native code asks for a lock: at rest, or while it already has one.
    | CallLock(p: nat)
    | Acquire(p: nat)
    | Read(p: nat, ok: bool)
    | Refresh(p: nat, ok: bool)
    | UnlockWithout(p: nat)                 // no new seed, an undecodable one, or an empty one
    | Unlock(p: nat)                        // with the next seed
    | Write(p: nat, effect: bool, ok: bool)
    | ReleaseLock(p: nat)
    | ReleaseCode(p: nat)
    | StartProvision(p: nat)
    | Provision(p: nat, seed: Option<nat>, effect: bool)

  /** Native code runs here and may call back. */
  predicate NativeRuns(p: Process) {
    p.Idle? || p.Loaded? || p.Generating?
  }

  predicate Enabled(s: State, a: Action) {
    && a.p < |s.processes| == |s.slots|
    && match a
       case CallLock(p) => NativeRuns(s.processes[p])
       case Acquire(p) => s.processes[p].Waiting? && s.holder.None?
       case Read(p, _) => s.processes[p].Locked?
       case Refresh(p, _) => s.processes[p].Loaded?
       case UnlockWithout(p) => s.processes[p].Generating?
       case Unlock(p) => s.processes[p].Generating?
       case Write(p, effect, ok) => s.processes[p].Writing? && (ok ==> effect)
       case ReleaseLock(p) => s.processes[p].Leaving?
       case ReleaseCode(p) => s.processes[p].Returned?
       case StartProvision(p) => s.processes[p].Idle? && s.holder.None?
       case Provision(p, _, _) => s.processes[p].Provisioning?
  }

  function Become(s: State, p: nat, next: Process): State
    requires p < |s.processes|
  {
    s.(processes := s.processes[p := next])
  }

  function SetSlot(s: State, p: nat, slot: Option<nat>): State
    requires p < |s.slots|
  {
    s.(slots := s.slots[p := slot])
  }

  /** Unlock takes the transaction; without one it returns at once, and no file lock is given back. */
  function TakeSlot(s: State, p: nat, next: Process): State
    requires p < |s.processes| == |s.slots|
  {
    if s.slots[p].Some? then SetSlot(Become(s, p, next), p, None) else Become(s, p, Returned(None))
  }

  function Apply(s: State, a: Action): State
    requires Enabled(s, a)
  {
    match a
    // A filled slot refuses the lock before the file lock is touched.
    case CallLock(p) => if s.slots[p].Some? then s else Become(s, p, Waiting)
    case Acquire(p) => Become(s, p, Locked).(holder := Some(p))
    case Read(p, ok) =>
      if ok && s.keyring.Some? then SetSlot(Become(s, p, Loaded(s.keyring.value)), p, s.keyring)
      else Become(s, p, Leaving(None))
    // A seed native code refuses is given back with an unlock.
    case Refresh(p, ok) =>
      if ok then Become(s, p, Generating(s.processes[p].counter)) else TakeSlot(s, p, Leaving(None))
    case UnlockWithout(p) => TakeSlot(s, p, Leaving(None))
    case Unlock(p) => TakeSlot(s, p, Writing(s.processes[p].counter))
    case Write(p, effect, ok) =>
      var c := s.processes[p].counter;
      var written := if effect then s.(keyring := Some(c + 1)) else s;
      if ok then Become(written, p, Leaving(Some(|s.commits|))).(commits := s.commits + [Commit(s.epoch, c)])
      else Become(written, p, Leaving(None))
    case ReleaseLock(p) => Become(s, p, Returned(s.processes[p].commit)).(holder := None)
    case ReleaseCode(p) =>
      var done := Become(s, p, Idle);
      if s.processes[p].commit.Some? then done.(released := s.released + [s.processes[p].commit.value]) else done
    case StartProvision(p) => Become(s, p, Provisioning).(holder := Some(p))
    case Provision(p, seed, effect) =>
      var done := Become(s, p, Leaving(None));
      if effect then done.(epoch := s.epoch + 1, keyring := seed) else done
  }

  ghost predicate IsRun(n: nat, seed: Option<nat>, states: seq<State>, actions: seq<Action>) {
    && |states| == |actions| + 1
    && states[0] == Init(n, seed)
    && forall i :: 0 <= i < |actions| ==>
                     Enabled(states[i], actions[i]) && states[i + 1] == Apply(states[i], actions[i])
  }

  // ---------------------------------------------------------------- the invariant

  predicate HoldsLock(p: Process) {
    !p.Idle? && !p.Waiting? && !p.Returned?
  }

  ghost predicate LockInv(s: State) {
    && (s.holder.Some? ==> s.holder.value < |s.processes|)
    && (forall p :: 0 <= p < |s.processes| ==> (HoldsLock(s.processes[p]) <==> s.holder == Some(p)))
  }

  /** The counter in the keyring is ahead of every commit, and a transaction has the current one. */
  ghost predicate CounterInv(s: State) {
    && (forall i :: 0 <= i < |s.commits| ==> s.commits[i].epoch <= s.epoch)
    && (forall i :: 0 <= i < |s.commits| && s.commits[i].epoch == s.epoch ==>
                      s.keyring.Some? && s.commits[i].counter < s.keyring.value)
    && (forall p :: 0 <= p < |s.processes| ==>
                      var q := s.processes[p];
                      q.Loaded? || q.Generating? || q.Writing? ==> s.keyring == Some(q.counter))
    && (forall i, j :: 0 <= i < j < |s.commits| && s.commits[i].epoch == s.commits[j].epoch ==>
                         s.commits[i].counter < s.commits[j].counter)
  }

  function Owed(p: Process): Option<nat> {
    if p.Leaving? || p.Returned? then p.commit else None
  }

  /** Each commit is owed to at most one process or was released once. */
  ghost predicate ReleaseInv(s: State) {
    && (forall k :: 0 <= k < |s.released| ==> s.released[k] < |s.commits|)
    && (forall j, k :: 0 <= j < k < |s.released| ==> s.released[j] != s.released[k])
    && (forall p :: 0 <= p < |s.processes| && Owed(s.processes[p]).Some? ==>
                      Owed(s.processes[p]).value < |s.commits| && Owed(s.processes[p]).value !in s.released)
    && (forall p, q :: 0 <= p < q < |s.processes| && Owed(s.processes[p]).Some? ==>
                         Owed(s.processes[p]) != Owed(s.processes[q]))
  }

  /** A transaction is in the slot exactly from the end of lock to the beginning of unlock. */
  ghost predicate SlotInv(s: State) {
    && |s.slots| == |s.processes|
    && (forall p :: 0 <= p < |s.processes| ==>
                      s.slots[p] == if s.processes[p].Loaded? || s.processes[p].Generating?
                      then Some(s.processes[p].counter) else None)
  }

  ghost predicate Inv(s: State) {
    SlotInv(s) && LockInv(s) && CounterInv(s) && ReleaseInv(s)
  }

  lemma KeepsSlot(s: State, a: Action)
    requires SlotInv(s) && Enabled(s, a)
    ensures SlotInv(Apply(s, a))
  {
  }

  lemma KeepsLock(s: State, a: Action)
    requires SlotInv(s) && LockInv(s) && Enabled(s, a)
    ensures LockInv(Apply(s, a))
  {
  }

  predicate HasSeed(p: Process) {
    p.Loaded? || p.Generating? || p.Writing?
  }

  /** An action that neither writes the keyring nor releases a code changes one process only. */
  predicate Quiet(a: Action) {
    !a.Write? && !a.ReleaseCode? && !a.Provision?
  }

  ghost predicate Moves(s: State, n: State, p: nat) {
    && p < |s.processes| == |n.processes|
    && n.keyring == s.keyring && n.epoch == s.epoch && n.commits == s.commits && n.released == s.released
    && (forall q :: 0 <= q < |s.processes| && q != p ==> n.processes[q] == s.processes[q])
    && (Owed(n.processes[p]).None? || Owed(n.processes[p]) == Owed(s.processes[p]))
    && (HasSeed(n.processes[p]) ==>
          Some(n.processes[p].counter) == s.keyring
          || (HasSeed(s.processes[p]) && n.processes[p].counter == s.processes[p].counter))
  }

  lemma QuietMoves(s: State, a: Action)
    requires Enabled(s, a) && Quiet(a)
    ensures Moves(s, Apply(s, a), a.p)
  {
  }

  lemma MoveKeeps(s: State, n: State, p: nat)
    requires Moves(s, n, p)
    ensures CounterInv(s) ==> CounterInv(n)
    ensures ReleaseInv(s) ==> ReleaseInv(n)
  {
  }

  lemma KeepsCounter(s: State, a: Action)
    requires LockInv(s) && CounterInv(s) && Enabled(s, a)
    ensures CounterInv(Apply(s, a))
  {
    if Quiet(a) {
      hide Apply, LockInv, CounterInv, ReleaseInv, Moves;
      QuietMoves(s, a);
      MoveKeeps(s, Apply(s, a), a.p);
    } else if a.Write? {
      WriteKeepsCounter(s, a);
    } else {
      CodeKeepsCounter(s, a);
    }
  }

  lemma WriteKeepsCounter(s: State, a: Action)
    requires LockInv(s) && CounterInv(s) && Enabled(s, a) && a.Write?
    ensures CounterInv(Apply(s, a))
  {
  }

  lemma CodeKeepsCounter(s: State, a: Action)
    requires LockInv(s) && CounterInv(s) && Enabled(s, a) && (a.ReleaseCode? || a.Provision?)
    ensures CounterInv(Apply(s, a))
  {
  }

  lemma KeepsRelease(s: State, a: Action)
    requires ReleaseInv(s) && Enabled(s, a)
    ensures ReleaseInv(Apply(s, a))
  {
    if Quiet(a) {
      hide Apply, CounterInv, ReleaseInv, Moves;
      QuietMoves(s, a);
      MoveKeeps(s, Apply(s, a), a.p);
    } else if a.Write? {
      WriteKeepsRelease(s, a);
    } else {
      CodeKeepsRelease(s, a);
    }
  }

  lemma WriteKeepsRelease(s: State, a: Action)
    requires ReleaseInv(s) && Enabled(s, a) && a.Write?
    ensures ReleaseInv(Apply(s, a))
  {
  }

  lemma CodeKeepsRelease(s: State, a: Action)
    requires ReleaseInv(s) && Enabled(s, a) && (a.ReleaseCode? || a.Provision?)
    ensures ReleaseInv(Apply(s, a))
  {
  }

  lemma {:induction false} InvAlways(n: nat, seed: Option<nat>, states: seq<State>, actions: seq<Action>, i: nat)
    requires IsRun(n, seed, states, actions) && i < |states|
    ensures Inv(states[i])
  {
    if i > 0 {
      hide Apply, SlotInv, LockInv, CounterInv, ReleaseInv;
      InvAlways(n, seed, states, actions, i - 1);
      KeepsSlot(states[i - 1], actions[i - 1]);
      KeepsLock(states[i - 1], actions[i - 1]);
      KeepsCounter(states[i - 1], actions[i - 1]);
      KeepsRelease(states[i - 1], actions[i - 1]);
    }
  }

  // ---------------------------------------------------------------- the promises

  function Released(s: State, k: nat): Commit
    requires k < |s.released| && s.released[k] < |s.commits|
  {
    s.commits[s.released[k]]
  }

  /** Between two provisionings the committed counters strictly increase, across all processes. */
  lemma CommittedCountersIncrease(n: nat, seed: Option<nat>, states: seq<State>, actions: seq<Action>, t: nat,
                                  i: nat, j: nat)
    requires IsRun(n, seed, states, actions) && t < |states| && i < j < |states[t].commits|
    requires states[t].commits[i].epoch == states[t].commits[j].epoch
    ensures states[t].commits[i].counter < states[t].commits[j].counter
  {
    InvAlways(n, seed, states, actions, t);
  }

  /** No counter is released twice between two provisionings, and only committed ones are. */
  lemma NoCodeIsReleasedTwice(n: nat, seed: Option<nat>, states: seq<State>, actions: seq<Action>, t: nat, j: nat,
                              k: nat)
    requires IsRun(n, seed, states, actions) && t < |states| && j < k < |states[t].released|
    ensures states[t].released[j] < |states[t].commits| && states[t].released[k] < |states[t].commits|
    ensures Released(states[t], j) != Released(states[t], k)
  {
    InvAlways(n, seed, states, actions, t);
    var a, b := states[t].released[j], states[t].released[k];
    if a < b {
      CommitsDiffer(states[t], a, b);
    } else {
      CommitsDiffer(states[t], b, a);
    }
  }

  lemma CommitsDiffer(s: State, a: nat, b: nat)
    requires Inv(s) && a < b < |s.commits|
    ensures s.commits[a] != s.commits[b]
  {
  }

  /**
   Released counters of one epoch increase exactly when the codes are released in the
   order of their commits.
   */
  lemma ReleaseOrder(n: nat, seed: Option<nat>, states: seq<State>, actions: seq<Action>, t: nat, j: nat, k: nat)
    requires IsRun(n, seed, states, actions) && t < |states| && j < k < |states[t].released|
    ensures states[t].released[j] < |states[t].commits| && states[t].released[k] < |states[t].commits|
    ensures Released(states[t], j).epoch == Released(states[t], k).epoch ==>
              (Released(states[t], j).counter < Released(states[t], k).counter <==>
               states[t].released[j] < states[t].released[k])
  {
    InvAlways(n, seed, states, actions, t);
    var a, b := states[t].released[j], states[t].released[k];
    assert a != b;
    if b < a && states[t].commits[a].epoch == states[t].commits[b].epoch {
      assert states[t].commits[b].counter < states[t].commits[a].counter;
    }
  }

  /**
   The slot is empty whenever lock and unlock are not both under way: before and after every
   pair, whichever of its steps failed, and already while unlock still writes. Outside the
   pair the file lock is not held either.
   */
  lemma SlotIsEmptyOutside(n: nat, seed: Option<nat>, states: seq<State>, actions: seq<Action>, t: nat, p: nat)
    requires IsRun(n, seed, states, actions) && t < |states| && p < |states[t].processes|
    requires !states[t].processes[p].Loaded? && !states[t].processes[p].Generating?
    ensures |states[t].slots| == |states[t].processes| && states[t].slots[p].None?
    ensures states[t].processes[p].Idle? || states[t].processes[p].Returned? ==> states[t].holder != Some(p)
  {
    InvAlways(n, seed, states, actions, t);
  }

  /**
   A lock called from native code goes on to wait for the file lock exactly when its own
   process does not hold it; a nested one changes nothing. So no process ever waits for
   itself.
   */
  lemma NestedLockIsRefused(n: nat, seed: Option<nat>, states: seq<State>, actions: seq<Action>, t: nat, p: nat)
    requires IsRun(n, seed, states, actions) && t < |states| && p < |states[t].processes|
    ensures Enabled(states[t], CallLock(p)) ==>
              && (Apply(states[t], CallLock(p)).processes[p].Waiting? <==> states[t].holder != Some(p))
              && (states[t].holder == Some(p) ==> Apply(states[t], CallLock(p)) == states[t])
    ensures states[t].processes[p].Waiting? ==> states[t].holder != Some(p)
  {
    InvAlways(n, seed, states, actions, t);
  }

  // ---------------------------------------------------------------- the order of releases

  /** No process takes the file lock while another has yet to release the code it committed. */
  ghost predicate Serial(states: seq<State>, actions: seq<Action>) {
    |states| == |actions| + 1
    && forall i :: 0 <= i < |actions| && actions[i].Acquire? ==>
                     forall p :: 0 <= p < |states[i].processes| ==> !IsPending(states[i].processes[p])
  }

  predicate IsPending(p: Process) {
    p.Returned? && p.commit.Some?
  }

  predicate MayCommit(p: Process) {
    p.Locked? || p.Loaded? || p.Generating? || p.Writing? || (p.Leaving? && p.commit.Some?)
  }

  /** A pending release excludes every other one, and every transaction that may still commit. */
  ghost predicate Exclusive(s: State) {
    forall p, q :: 0 <= p < |s.processes| && 0 <= q < |s.processes| && p != q ==>
                     !(IsPending(s.processes[p]) && (IsPending(s.processes[q]) || MayCommit(s.processes[q])))
  }

  ghost predicate Ordered(s: State) {
    && (forall p, k :: 0 <= p < |s.processes| && Owed(s.processes[p]).Some? && 0 <= k < |s.released| ==>
                         s.released[k] < Owed(s.processes[p]).value)
    && (forall j, k :: 0 <= j < k < |s.released| ==> s.released[j] < s.released[k])
  }

  ghost predicate SerialInv(s: State) {
    Exclusive(s) && Ordered(s)
  }

  /** One process changes, and not towards a pending release or a commit. */
  ghost predicate Recedes(s: State, n: State, p: nat) {
    && p < |s.processes| == |n.processes|
    && (forall q :: 0 <= q < |s.processes| && q != p ==> n.processes[q] == s.processes[q])
    && (IsPending(n.processes[p]) ==> IsPending(s.processes[p]))
    && (MayCommit(n.processes[p]) ==> MayCommit(s.processes[p]))
  }

  lemma MostRecede(s: State, a: Action)
    requires Enabled(s, a) && !a.Acquire? && !a.ReleaseLock?
    ensures Recedes(s, Apply(s, a), a.p)
  {
  }

  lemma RecedingKeepsExclusive(s: State, n: State, p: nat)
    requires Exclusive(s) && Recedes(s, n, p)
    ensures Exclusive(n)
  {
    hide IsPending, MayCommit;
  }

  lemma ExclusiveStep(s: State, a: Action)
    requires LockInv(s) && Exclusive(s) && Enabled(s, a)
    requires a.Acquire? ==> forall p :: 0 <= p < |s.processes| ==> !IsPending(s.processes[p])
    ensures Exclusive(Apply(s, a))
  {
    if a.Acquire? || a.ReleaseLock? {
      LockStepKeepsExclusive(s, a);
    } else {
      hide Apply, LockInv, Exclusive;
      MostRecede(s, a);
      RecedingKeepsExclusive(s, Apply(s, a), a.p);
    }
  }

  lemma LockStepKeepsExclusive(s: State, a: Action)
    requires LockInv(s) && Exclusive(s) && Enabled(s, a) && (a.Acquire? || a.ReleaseLock?)
    requires a.Acquire? ==> forall p :: 0 <= p < |s.processes| ==> !IsPending(s.processes[p])
    ensures Exclusive(Apply(s, a))
  {
  }

  lemma OrderedStep(s: State, a: Action)
    requires LockInv(s) && ReleaseInv(s) && SerialInv(s) && Enabled(s, a)
    ensures Ordered(Apply(s, a))
  {
    if a.ReleaseCode? {
      if s.processes[a.p].commit.Some? {
        ReleaseIsLast(s, a.p);
      }
    } else {
      hide Exclusive;
    }
  }

  /** While a release is pending, no other process is owed one. */
  lemma ReleaseIsLast(s: State, p: nat)
    requires LockInv(s) && Exclusive(s) && p < |s.processes| && IsPending(s.processes[p])
    ensures forall q :: 0 <= q < |s.processes| && q != p ==> Owed(s.processes[q]).None?
  {
  }

  lemma SerialStep(s: State, a: Action)
    requires Inv(s) && SerialInv(s) && Enabled(s, a)
    requires a.Acquire? ==> forall p :: 0 <= p < |s.processes| ==> !IsPending(s.processes[p])
    ensures SerialInv(Apply(s, a))
  {
    hide Apply, Exclusive, Ordered, LockInv, CounterInv, ReleaseInv;
    ExclusiveStep(s, a);
    OrderedStep(s, a);
  }

  lemma {:induction false} SerialAlways(n: nat, seed: Option<nat>, states: seq<State>, actions: seq<Action>, i: nat)
    requires IsRun(n, seed, states, actions) && Serial(states, actions) && i < |states|
    ensures SerialInv(states[i])
  {
    if i > 0 {
      hide Apply, Inv, SerialInv;
      SerialAlways(n, seed, states, actions, i - 1);
      InvAlways(n, seed, states, actions, i - 1);
      SerialStep(states[i - 1], actions[i - 1]);
    }
  }

  /** Without such overlap, the released counters of an epoch strictly increase. */
  lemma SerialReleasesIncrease(n: nat, seed: Option<nat>, states: seq<State>, actions: seq<Action>, t: nat, j: nat,
                               k: nat)
    requires IsRun(n, seed, states, actions) && Serial(states, actions) && t < |states| && j < k < |states[t].released|
    ensures states[t].released[j] < |states[t].commits| && states[t].released[k] < |states[t].commits|
    ensures Released(states[t], j).epoch == Released(states[t], k).epoch ==>
              Released(states[t], j).counter < Released(states[t], k).counter
  {
    SerialAlways(n, seed, states, actions, t);
    ReleaseOrder(n, seed, states, actions, t, j, k);
  }

  lemma Extend(n: nat, seed: Option<nat>, states: seq<State>, actions: seq<Action>, a: Action)
    returns (longer: seq<State>, more: seq<Action>)
    requires IsRun(n, seed, states, actions) && Enabled(states[|states| - 1], a)
    ensures IsRun(n, seed, longer, more)
    ensures longer[|longer| - 1] == Apply(states[|states| - 1], a)
  {
    longer, more := states + [Apply(states[|states| - 1], a)], actions + [a];
  }

  /** The first half of a transaction of an idle process: native code generates with the saved seed. */
  lemma Begin(n: nat, seed: Option<nat>, states: seq<State>, actions: seq<Action>, p: nat)
    returns (longer: seq<State>, more: seq<Action>)
    requires IsRun(n, seed, states, actions)
    requires var s := states[|states| - 1];
             && p < |s.processes| == |s.slots| && s.processes[p].Idle? && s.slots[p].None?
             && s.holder.None? && s.keyring.Some?
    ensures IsRun(n, seed, longer, more)
    ensures var s := states[|states| - 1];
            longer[|longer| - 1] ==
            State(s.keyring, Some(p), s.processes[p := Generating(s.keyring.value)], s.slots[p := s.keyring],
                  s.epoch, s.commits, s.released)
  {
    hide IsRun;
    longer, more := Extend(n, seed, states, actions, CallLock(p));
    longer, more := Extend(n, seed, longer, more, Acquire(p));
    longer, more := Extend(n, seed, longer, more, Read(p, true));
    longer, more := Extend(n, seed, longer, more, Refresh(p, true));
  }

  /** One complete transaction of an idle process, up to the return of unlock. */
  lemma Transact(n: nat, seed: Option<nat>, states: seq<State>, actions: seq<Action>, p: nat)
    returns (longer: seq<State>, more: seq<Action>)
    requires IsRun(n, seed, states, actions)
    requires var s := states[|states| - 1];
             && p < |s.processes| == |s.slots| && s.processes[p].Idle? && s.slots[p].None?
             && s.holder.None? && s.keyring.Some?
    ensures IsRun(n, seed, longer, more)
    ensures var s := states[|states| - 1];
            longer[|longer| - 1] ==
            State(Some(s.keyring.value + 1), None, s.processes[p := Returned(Some(|s.commits|))], s.slots, s.epoch,
                  s.commits + [Commit(s.epoch, s.keyring.value)], s.released)
  {
    hide IsRun;
    longer, more := Begin(n, seed, states, actions, p);
    longer, more := Extend(n, seed, longer, more, Unlock(p));
    longer, more := Extend(n, seed, longer, more, Write(p, true, true));
    longer, more := Extend(n, seed, longer, more, ReleaseLock(p));
  }

  /** A run in which every process is at rest and a seed is saved. */
  lemma WithSeed(n: nat, seed: Option<nat>) returns (states: seq<State>, actions: seq<Action>)
    requires n > 0
    ensures IsRun(n, seed, states, actions)
    ensures var last := states[|states| - 1];
            last == Init(n, last.keyring).(epoch := last.epoch) && last.keyring.Some?
  {
    states, actions := [Init(n, seed)], [];
    if seed.None? {
      states, actions := Provisioned(n, seed, states, actions);
    }
  }

  lemma Provisioned(n: nat, seed: Option<nat>, states: seq<State>, actions: seq<Action>)
    returns (longer: seq<State>, more: seq<Action>)
    requires n > 0 && IsRun(n, seed, states, actions) && states[|states| - 1] == Init(n, None)
    ensures IsRun(n, seed, longer, more)
    ensures longer[|longer| - 1] == Init(n, Some(0)).(epoch := 1)
  {
    hide IsRun, Init;
    var rest := Init(n, None);
    assert |rest.processes| == |rest.slots| == n && rest.processes[0] == Idle && rest.holder.None?
    by { RestingInit(n); }
    longer, more := Extend(n, seed, states, actions, StartProvision(0));
    longer, more := Extend(n, seed, longer, more, Provision(0, Some(0), true));
    longer, more := Extend(n, seed, longer, more, ReleaseLock(0));
    longer, more := Extend(n, seed, longer, more, ReleaseCode(0));
    assert rest.processes[0 := Idle] == rest.processes;
    RestingInit(n);
  }

  lemma RestingInit(n: nat)
    requires n > 0
    ensures var rest := Init(n, None);
            && |rest.processes| == |rest.slots| == n && rest.processes[0] == Idle && rest.holder.None?
            && Init(n, Some(0)).(epoch := 1) == rest.(keyring := Some(0), epoch := 1)
            && rest.epoch == 0
  {
  }

  /**
   With overlap they need not: the file lock is dropped before unlock returns, so a second
   process can commit and release the next counter before the first one releases its own.
   */
  lemma OvertakenRelease(n: nat, seed: Option<nat>) returns (states: seq<State>, actions: seq<Action>)
    requires n >= 2
    ensures IsRun(n, seed, states, actions)
    ensures var last := states[|states| - 1];
            && |last.released| == 2 && last.released[0] < |last.commits| && last.released[1] < |last.commits|
            && Released(last, 0).epoch == Released(last, 1).epoch
            && Released(last, 0).counter == Released(last, 1).counter + 1
  {
    states, actions := WithSeed(n, seed);
    hide IsRun;
    states, actions := Transact(n, seed, states, actions, 0);
    states, actions := Transact(n, seed, states, actions, 1);
    states, actions := Extend(n, seed, states, actions, ReleaseCode(1));
    states, actions := Extend(n, seed, states, actions, ReleaseCode(0));
  }

  // ---------------------------------------------------------------- exactly when the promise holds

  /** The released counters of each epoch strictly increase. */
  ghost predicate ReleasesIncrease(s: State) {
    && (forall k :: 0 <= k < |s.released| ==> s.released[k] < |s.commits|)
    && (forall j, k :: 0 <= j < k < |s.released| && s.commits[s.released[j]].epoch == s.commits[s.released[k]].epoch ==>
                         s.commits[s.released[j]].counter < s.commits[s.released[k]].counter)
  }

  ghost predicate EveryRunIncreases(n: nat, seed: Option<nat>) {
    forall states, actions :: IsRun(n, seed, states, actions) ==> ReleasesIncrease(states[|states| - 1])
  }

  lemma {:induction false} ProcessesStay(n: nat, seed: Option<nat>, states: seq<State>, actions: seq<Action>, i: nat)
    requires IsRun(n, seed, states, actions) && i < |states|
    ensures |states[i].processes| == n
  {
    if i > 0 {
      ProcessesStay(n, seed, states, actions, i - 1);
    }
  }

  lemma AloneIsSerial(n: nat, seed: Option<nat>, states: seq<State>, actions: seq<Action>)
    requires IsRun(n, seed, states, actions) && n <= 1
    ensures Serial(states, actions)
  {
    hide Apply;
    forall i, p | 0 <= i < |actions| && actions[i].Acquire? && 0 <= p < |states[i].processes|
      ensures !IsPending(states[i].processes[p])
    {
      ProcessesStay(n, seed, states, actions, i);
      assert Enabled(states[i], actions[i]);
    }
  }

  lemma SerialRunIncreases(n: nat, seed: Option<nat>, states: seq<State>, actions: seq<Action>)
    requires IsRun(n, seed, states, actions) && Serial(states, actions)
    ensures ReleasesIncrease(states[|states| - 1])
  {
    hide IsRun, Serial, Inv;
    var t := |states| - 1;
    assert t >= 0 by { RunsHaveStates(n, seed, states, actions); }
    forall k | 0 <= k < |states[t].released|
      ensures states[t].released[k] < |states[t].commits|
    {
      ReleasedWereCommitted(n, seed, states, actions, t, k);
    }
    forall j, k | 0 <= j < k < |states[t].released|
                  && states[t].commits[states[t].released[j]].epoch == states[t].commits[states[t].released[k]].epoch
      ensures states[t].commits[states[t].released[j]].counter < states[t].commits[states[t].released[k]].counter
    {
      SerialReleasesIncrease(n, seed, states, actions, t, j, k);
    }
  }

  lemma RunsHaveStates(n: nat, seed: Option<nat>, states: seq<State>, actions: seq<Action>)
    requires IsRun(n, seed, states, actions)
    ensures |states| > 0
  {
  }

  lemma ReleasedWereCommitted(n: nat, seed: Option<nat>, states: seq<State>, actions: seq<Action>, t: nat, k: nat)
    requires IsRun(n, seed, states, actions) && t < |states| && k < |states[t].released|
    ensures states[t].released[k] < |states[t].commits|
  {
    InvAlways(n, seed, states, actions, t);
  }

  lemma OvertakingIsNoIncrease(s: State)
    requires |s.released| == 2 && s.released[0] < |s.commits| && s.released[1] < |s.commits|
    requires Released(s, 0).epoch == Released(s, 1).epoch && Released(s, 0).counter > Released(s, 1).counter
    ensures !ReleasesIncrease(s)
  {
  }

  /**
   Released counters increase in every run exactly when at most one process shares the
   profile, whatever seed was saved at first.
   */
  lemma IncreasingExactlyAlone(n: nat, seed: Option<nat>)
    ensures EveryRunIncreases(n, seed) <==> n <= 1
  {
    hide Apply, Enabled, ReleasesIncrease, Init;
    if n <= 1 {
      forall states, actions | IsRun(n, seed, states, actions)
        ensures ReleasesIncrease(states[|states| - 1])
      {
        AloneIsSerial(n, seed, states, actions);
        SerialRunIncreases(n, seed, states, actions);
      }
    } else {
      var states, actions := OvertakenRelease(n, seed);
      assert IsRun(n, seed, states, actions);
      OvertakingIsNoIncrease(states[|states| - 1]);
    }
  }
}
