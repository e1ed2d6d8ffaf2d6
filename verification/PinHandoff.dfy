/**
 Pin persistence racing with completion (`crates/client/src/auth.rs`): threads answer
 certificate prompts and save pins under the certificate lock, while the session thread
 may already hold the worker's `Authenticated` event.
 */
module PinHandoff {
  import opened Common

  datatype Decision = Reject | AcceptAttempt | Pin

  /** A thread in `AuthControl::certificate_reply`, or in `AuthControl::cancel`. */
  datatype Replier =
    | Idle
    | Waiting(id: nat, decision: Decision)  // wants the certificate lock
    | Holding(id: nat, decision: Decision)  // has it
    | Live(id: nat, decision: Decision)     // not cancelled, the prompt is known
    | Saving(id: nat)                       // native took a Pin decision, the save is running
    | Failing(id: nat)                      // the save failed, `cancel` not called yet
    | Stopping(id: nat)                     // client flag set, native flag not set yet
    | Clearing(id: nat)                     // native flag set, native slot not cleared yet
    | Removing(id: nat)                     // about to forget the prompt and unlock
    | Cancelling                            // a user's cancel, after setting the client flag
    | CancelFlagged                         // ... and the native one
    | CancelCleared                         // ... and after clearing the native slot

  datatype Native =
    | Working
    | Asking(id: nat, sound: bool)  // waits for the decision on this prompt; not sound: a callback failed before
    | Broken                  // a callback failed
    | Finished(ok: bool)      // slot not cleared yet
    | Cleared(ok: bool)       // slot cleared, final event not sent
    | Done

  datatype Event = Certificate(id: nat) | Authenticated | Failed | Stopped

  /** The session thread in `recv_timeout`. */
  datatype Session =
    | Ready
    | Polling
    | Settling                // holds `Authenticated`, waits for the certificate lock
    | Rechecking(event: Event)
    | Inserting(id: nat)      // not cancelled, about to remember a certificate prompt
    | Delivered               // the handoff was returned
    | Over                    // returned Cancelled, Failed or an error

  datatype State = State(
    cancelled: bool,               // client flag
    nativeCancelled: bool,
    poisoned: bool,                // a thread panicked under the certificate lock
    holder: Option<nat>,           // of the certificate lock
    known: set<nat>,               // the certificate map
    repliers: seq<Replier>,
    native: Native, slot: Option<nat>, queue: seq<(nat, Decision)>, nextId: nat,
    events: seq<Event>, session: Session,
    pinned: set<nat>,              // prompts on which native took a Pin decision
    saved: set<nat>,               // prompts whose pin was durably saved
    failed: set<nat>)              // prompts whose save failed or panicked

  function Init(threads: nat): State {
    State(false, false, false, None, {}, seq(threads, i => Idle), Working, None, [], 0, [], Ready, {}, {}, {})
  }

  datatype Action =
    | StartReply(t: nat, id: nat, decision: Decision)
    | Acquire(t: nat)
    | Look(t: nat)
    | Answer(t: nat, accepted: bool)   // `accepted`: the native queue has room
    | Save(t: nat, ok: bool)
    | Panic(t: nat)
    | SetFlag(t: nat)
    | FlagNative(t: nat)
    | ClearNative(t: nat)
    | Forget(t: nat)
    | StartCancel(t: nat)
    | FinishCancel(t: nat)
    | Ask
    | Take
    | GiveUp
    | Finish
    | Clear
    | Emit
    | Enter
    | Poll
    | Settle
    | Recheck
    | Insert

  predicate Enabled(s: State, a: Action) {
    match a
    case StartReply(t, _, _) => t < |s.repliers| && s.repliers[t].Idle?
    case Acquire(t) => t < |s.repliers| && s.repliers[t].Waiting? && s.holder.None?
    case Look(t) => t < |s.repliers| && s.repliers[t].Holding?
    case Answer(t, _) => t < |s.repliers| && s.repliers[t].Live?
    case Save(t, _) => t < |s.repliers| && s.repliers[t].Saving?
    case Panic(t) => t < |s.repliers| && s.repliers[t].Saving?
    case SetFlag(t) => t < |s.repliers| && s.repliers[t].Failing?
    case FlagNative(t) => t < |s.repliers| && (s.repliers[t].Stopping? || s.repliers[t].Cancelling?)
    case ClearNative(t) => t < |s.repliers| && (s.repliers[t].Clearing? || s.repliers[t].CancelFlagged?)
    case Forget(t) => t < |s.repliers| && s.repliers[t].Removing?
    case StartCancel(t) => t < |s.repliers| && s.repliers[t].Idle?
    case FinishCancel(t) => t < |s.repliers| && s.repliers[t].CancelCleared?
    case Ask => s.native.Working? || s.native.Broken?
    case Take => s.native.Asking? && s.queue != []
    case GiveUp => s.native.Asking? || s.native.Working?
    case Finish => s.native.Working? || s.native.Broken?
    case Clear => s.native.Finished?
    case Emit => s.native.Cleared?
    case Enter => s.session.Ready?
    case Poll => s.session.Polling?
    case Settle => s.session.Settling? && s.holder.None?
    case Recheck => s.session.Rechecking?
    case Insert => s.session.Inserting? && s.holder.None?
  }

  function With(s: State, t: nat, r: Replier): State
    requires t < |s.repliers|
  {
    s.(repliers := s.repliers[t := r])
  }

  function Unlock(s: State, t: nat): State
    requires t < |s.repliers|
  {
    s.(holder := None, repliers := s.repliers[t := Idle])
  }

  function Apply(s: State, a: Action): State
    requires Enabled(s, a)
  {
    match a
    case StartReply(t, id, decision) => With(s, t, Waiting(id, decision))
    case Acquire(t) =>
      if s.poisoned then With(s, t, Idle)
      else With(s, t, Holding(s.repliers[t].id, s.repliers[t].decision)).(holder := Some(t))
    case Look(t) =>
      if s.cancelled || s.repliers[t].id !in s.known then Unlock(s, t)
      else With(s, t, Live(s.repliers[t].id, s.repliers[t].decision))
    case Answer(t, accepted) =>
      var Live(id, decision) := s.repliers[t];
      if s.nativeCancelled || s.slot != Some(id) || !accepted then Unlock(s, t)
      else
        var sent := s.(queue := s.queue + [(id, decision)], slot := None);
        if decision == Pin then With(sent, t, Saving(id)).(pinned := s.pinned + {id})
        else With(sent, t, Removing(id))
    case Save(t, ok) =>
      if ok then With(s, t, Removing(s.repliers[t].id)).(saved := s.saved + {s.repliers[t].id})
      else With(s, t, Failing(s.repliers[t].id)).(failed := s.failed + {s.repliers[t].id})
    case Panic(t) => Unlock(s, t).(poisoned := true, failed := s.failed + {s.repliers[t].id})
    case SetFlag(t) => With(s, t, Stopping(s.repliers[t].id)).(cancelled := true)
    case FlagNative(t) =>
      var next := if s.repliers[t].Stopping? then Clearing(s.repliers[t].id) else CancelFlagged;
      With(s, t, next).(nativeCancelled := true)
    case ClearNative(t) =>
      With(s, t, if s.repliers[t].Clearing? then Removing(s.repliers[t].id) else CancelCleared).(slot := None)
    case Forget(t) => Unlock(s, t).(known := s.known - {s.repliers[t].id})
    case StartCancel(t) => With(s, t, Cancelling).(cancelled := true)
    case FinishCancel(t) => With(s, t, Idle).(known := if s.holder.None? then {} else s.known)
    case Ask => s.(native := Asking(s.nextId, s.native.Working?), slot := Some(s.nextId), nextId := s.nextId + 1,
    events := s.events + [Certificate(s.nextId)])
    case Take =>
      var (id, decision) := s.queue[0];
      s.(queue := s.queue[1..],
      native := if s.native.sound && id == s.native.id && decision != Reject then Working else Broken)
    case GiveUp => s.(native := Broken)
    case Finish => s.(native := Finished(s.native.Working?))
    case Clear => s.(native := Cleared(s.native.ok), slot := None)
    case Emit =>
      s.(native := Done,
      events := s.events + [if s.nativeCancelled then Stopped else if s.native.ok then Authenticated else Failed])
    case Enter => s.(session := if s.cancelled then Over else Polling)
    case Poll =>
      if s.events == [] then s.(session := Ready)
      else s.(events := s.events[1..],
           session := if s.events[0].Authenticated? then Settling else Rechecking(s.events[0]))
    case Settle => s.(session := if s.poisoned then Over else Rechecking(Authenticated))
    case Insert =>
      if s.poisoned then s.(session := Ready) else s.(known := s.known + {s.session.id}, session := Ready)
    case Recheck =>
      if s.cancelled then s.(session := Over)
      else
        match s.session.event
        case Certificate(id) => s.(session := Inserting(id))
        case Authenticated => s.(session := Delivered)
        case Failed => s.(session := Over)
        case Stopped => s.(session := Over)
  }

  ghost predicate IsRun(threads: nat, states: seq<State>, actions: seq<Action>) {
    && |states| == |actions| + 1
    && states[0] == Init(threads)
    && forall i :: 0 <= i < |actions| ==>
                     Enabled(states[i], actions[i]) && states[i + 1] == Apply(states[i], actions[i])
  }

  // ---------------------------------------------------------------- the invariant

  predicate HoldsLock(r: Replier) {
    r.Holding? || r.Live? || r.Saving? || r.Failing? || r.Stopping? || r.Clearing? || r.Removing?
  }

  predicate StillSaving(s: State, id: nat) {
    && s.holder.Some? && s.holder.value < |s.repliers|
    && (s.repliers[s.holder.value] == Saving(id) || s.repliers[s.holder.value] == Failing(id))
  }

  predicate Ended(n: Native) {
    n.Cleared? || n.Done?
  }

  /** No Pin decision is lost: it was saved, or its outcome is still pending, or the attempt is over. */
  ghost predicate Accounted(s: State) {
    forall id :: id in s.pinned ==> id in s.saved || s.cancelled || s.poisoned || StillSaving(s, id)
  }

  ghost predicate LockInv(s: State) {
    && (s.holder.Some? ==> s.holder.value < |s.repliers|)
    && (forall t :: 0 <= t < |s.repliers| ==> (HoldsLock(s.repliers[t]) <==> s.holder == Some(t)))
  }

  /** Each prompt is decided once, so its save is tried once. */
  ghost predicate OnceInv(s: State) {
    && (s.slot.Some? ==> s.slot.value < s.nextId && s.slot.value !in s.pinned)
    && (forall id :: id in s.pinned ==> id < s.nextId)
    && (forall t :: 0 <= t < |s.repliers| && s.repliers[t].Saving? ==>
                      s.repliers[t].id in s.pinned && s.repliers[t].id !in s.failed && s.repliers[t].id !in s.saved)
    && s.failed <= s.pinned && s.saved <= s.pinned && s.failed !! s.saved
  }

  ghost predicate EndInv(s: State) {
    && (Ended(s.native) ==> s.slot == None)
    && (forall k :: 0 <= k < |s.events| && s.events[k].Authenticated? ==> s.native.Done?)
    && (s.session.Settling? ==> s.native.Done?)
    && (s.session == Rechecking(Authenticated) ==> s.native.Done? && (s.pinned <= s.saved || s.cancelled))
    && (s.session.Delivered? ==> s.native.Done? && s.pinned <= s.saved)
  }

  ghost predicate Inv(s: State) {
    LockInv(s) && Accounted(s) && OnceInv(s) && EndInv(s)
  }

  predicate IsReplierAction(a: Action) {
    || a.StartReply? || a.Acquire? || a.Look? || a.Answer? || a.Save? || a.Panic? || a.SetFlag? || a.FlagNative?
    || a.ClearNative? || a.Forget? || a.StartCancel? || a.FinishCancel?
  }

  /** One replier moves, and the lock with it. */
  ghost predicate MovesWithLock(s: State, n: State, a: Action, t: nat) {
    && t < |s.repliers| == |n.repliers|
    && n.repliers == s.repliers[t := n.repliers[t]]
    && (HoldsLock(n.repliers[t]) ==>
          && n.holder == (if a.Acquire? then Some(t) else s.holder)
          && (if a.Acquire? then s.holder.None? else HoldsLock(s.repliers[t])))
    && (!HoldsLock(n.repliers[t]) ==> n.holder == if HoldsLock(s.repliers[t]) then None else s.holder)
  }

  lemma AnswerMoves(s: State, a: Action)
    requires Enabled(s, a) && a.Answer?
    ensures MovesWithLock(s, Apply(s, a), a, a.t)
  {
  }

  lemma LookMoves(s: State, a: Action)
    requires Enabled(s, a) && (a.Acquire? || a.Look? || a.Panic? || a.Forget?)
    ensures MovesWithLock(s, Apply(s, a), a, a.t)
  {
  }

  lemma OtherMoves(s: State, a: Action)
    requires Enabled(s, a) && IsReplierAction(a) && !a.Answer? && !a.Acquire? && !a.Look? && !a.Panic? && !a.Forget?
    ensures MovesWithLock(s, Apply(s, a), a, a.t)
  {
  }

  lemma ReplierMoves(s: State, a: Action)
    requires Enabled(s, a) && IsReplierAction(a)
    ensures MovesWithLock(s, Apply(s, a), a, a.t)
  {
    hide Apply, MovesWithLock;
    if a.Answer? {
      AnswerMoves(s, a);
    } else if a.Acquire? || a.Look? || a.Panic? || a.Forget? {
      LookMoves(s, a);
    } else {
      OtherMoves(s, a);
    }
  }

  lemma MoveKeepsLock(s: State, n: State, a: Action, t: nat)
    requires LockInv(s) && MovesWithLock(s, n, a, t)
    ensures LockInv(n)
  {
    hide HoldsLock;
  }

  lemma OthersLeaveLock(s: State, a: Action)
    requires Enabled(s, a) && !IsReplierAction(a)
    ensures Apply(s, a).repliers == s.repliers && Apply(s, a).holder == s.holder
  {
  }

  lemma KeepsLock(s: State, a: Action)
    requires LockInv(s) && Enabled(s, a)
    ensures LockInv(Apply(s, a))
  {
    if IsReplierAction(a) {
      hide Apply, Enabled, HoldsLock, MovesWithLock, LockInv;
      ReplierMoves(s, a);
      MoveKeepsLock(s, Apply(s, a), a, a.t);
    } else {
      hide Apply, Enabled, HoldsLock;
      OthersLeaveLock(s, a);
    }
  }

  lemma KeepsAccounted(s: State, a: Action)
    requires LockInv(s) && Accounted(s) && Enabled(s, a)
    ensures Accounted(Apply(s, a))
  {
    forall id | id in Apply(s, a).pinned
      ensures var n := Apply(s, a);
              id in n.saved || n.cancelled || n.poisoned || StillSaving(n, id)
    {
      assert id in s.pinned ==> id in s.saved || s.cancelled || s.poisoned || StillSaving(s, id);
    }
  }

  /** Only the holder of the lock is saving. */
  lemma OneSaver(s: State, t: nat)
    requires LockInv(s) && t < |s.repliers| && HoldsLock(s.repliers[t])
    ensures forall u :: 0 <= u < |s.repliers| && u != t ==> !HoldsLock(s.repliers[u])
  {
  }

  lemma KeepsOnce(s: State, a: Action)
    requires LockInv(s) && OnceInv(s) && Enabled(s, a)
    ensures OnceInv(Apply(s, a))
  {
    hide Apply, LockInv, OnceInv;
    if IsReplierAction(a) {
      ReplierKeepsOnce(s, a);
    } else {
      OthersKeepOnce(s, a);
    }
  }

  lemma OthersKeepOnce(s: State, a: Action)
    requires OnceInv(s) && Enabled(s, a) && !IsReplierAction(a)
    ensures OnceInv(Apply(s, a))
  {
  }

  lemma ReplierKeepsOnce(s: State, a: Action)
    requires LockInv(s) && OnceInv(s) && Enabled(s, a) && IsReplierAction(a)
    ensures OnceInv(Apply(s, a))
  {
    if a.Answer? || a.Save? || a.Panic? {
      DecisionKeepsOnce(s, a);
    } else {
      QuietReplier(s, a);
      hide Apply;
    }
  }

  lemma DecisionKeepsOnce(s: State, a: Action)
    requires LockInv(s) && OnceInv(s) && Enabled(s, a) && (a.Answer? || a.Save? || a.Panic?)
    ensures OnceInv(Apply(s, a))
  {
    if a.Answer? {
      AnswerKeepsOnce(s, a);
    } else {
      OutcomeKeepsOnce(s, a);
    }
  }

  lemma AnswerKeepsOnce(s: State, a: Action)
    requires LockInv(s) && OnceInv(s) && Enabled(s, a) && a.Answer?
    ensures OnceInv(Apply(s, a))
  {
    OneSaver(s, a.t);
    hide LockInv;
  }

  lemma OutcomeKeepsOnce(s: State, a: Action)
    requires LockInv(s) && OnceInv(s) && Enabled(s, a) && (a.Save? || a.Panic?)
    ensures OnceInv(Apply(s, a))
  {
    OneSaver(s, a.t);
    hide LockInv;
  }

  lemma QuietReplier(s: State, a: Action)
    requires Enabled(s, a) && IsReplierAction(a) && !a.Answer? && !a.Save? && !a.Panic?
    ensures var n := Apply(s, a);
            && n.pinned == s.pinned && n.saved == s.saved && n.failed == s.failed && n.nextId == s.nextId
            && (n.slot == s.slot || n.slot == None)
            && a.t < |s.repliers| && !n.repliers[a.t].Saving?
            && n.repliers == s.repliers[a.t := n.repliers[a.t]]
  {
  }

  lemma KeepsEnd(s: State, a: Action)
    requires LockInv(s) && Accounted(s) && EndInv(s) && Enabled(s, a)
    ensures EndInv(Apply(s, a))
  {
    hide Apply, LockInv, Accounted, EndInv;
    if IsReplierAction(a) {
      ReplierKeepsEnd(s, a);
    } else if a.Settle? {
      SettleKeepsEnd(s, a);
    } else {
      OthersKeepEnd(s, a);
    }
  }

  /** A replying thread touches neither the events nor the session, and pins only while a prompt is open. */
  ghost predicate LeavesEnd(s: State, n: State) {
    && n.native == s.native && n.events == s.events && n.session == s.session
    && s.saved <= n.saved && (s.cancelled ==> n.cancelled)
    && (n.slot == s.slot || n.slot == None)
    && (n.pinned == s.pinned || s.slot.Some?)
  }

  lemma AnswerLeavesEnd(s: State, a: Action)
    requires Enabled(s, a) && a.Answer?
    ensures LeavesEnd(s, Apply(s, a))
  {
  }

  lemma OtherRepliersLeaveEnd(s: State, a: Action)
    requires Enabled(s, a) && IsReplierAction(a) && !a.Answer?
    ensures LeavesEnd(s, Apply(s, a))
  {
  }

  lemma ReplierLeavesEnd(s: State, a: Action)
    requires Enabled(s, a) && IsReplierAction(a)
    ensures LeavesEnd(s, Apply(s, a))
  {
    hide Apply, LeavesEnd;
    if a.Answer? {
      AnswerLeavesEnd(s, a);
    } else {
      OtherRepliersLeaveEnd(s, a);
    }
  }

  lemma ReplierKeepsEnd(s: State, a: Action)
    requires EndInv(s) && Enabled(s, a) && IsReplierAction(a)
    ensures EndInv(Apply(s, a))
  {
    hide Apply;
    ReplierLeavesEnd(s, a);
  }

  lemma SettleKeepsEnd(s: State, a: Action)
    requires LockInv(s) && Accounted(s) && EndInv(s) && Enabled(s, a) && a.Settle?
    ensures EndInv(Apply(s, a))
  {
    assert forall id :: id in s.pinned ==> !StillSaving(s, id);
  }

  lemma OthersKeepEnd(s: State, a: Action)
    requires EndInv(s) && Enabled(s, a) && !IsReplierAction(a) && !a.Settle?
    ensures EndInv(Apply(s, a))
  {
  }

  lemma InvStep(s: State, a: Action)
    requires Inv(s) && Enabled(s, a)
    ensures Inv(Apply(s, a))
  {
    KeepsLock(s, a);
    KeepsAccounted(s, a);
    KeepsOnce(s, a);
    KeepsEnd(s, a);
  }

  lemma {:induction false} InvAlways(threads: nat, states: seq<State>, actions: seq<Action>, i: nat)
    requires IsRun(threads, states, actions) && i < |states|
    ensures Inv(states[i])
  {
    hide Apply, Enabled, LockInv, Accounted, OnceInv, EndInv;
    if i > 0 {
      InvAlways(threads, states, actions, i - 1);
      InvStep(states[i - 1], actions[i - 1]);
    } else {
      InvInit(threads);
    }
  }

  lemma InvInit(threads: nat)
    ensures Inv(Init(threads))
  {
  }

  /**
   In every interleaving of replies, cancellations and the session thread, a delivered
   handoff means that every Pin decision native ever took was durably saved, and that no
   save of the attempt failed.
   */
  lemma HandoffOnlyAfterEveryPinSaved(threads: nat, states: seq<State>, actions: seq<Action>, i: nat)
    requires IsRun(threads, states, actions) && i < |states| && states[i].session.Delivered?
    ensures states[i].pinned <= states[i].saved
    ensures states[i].failed == {}
  {
    InvAlways(threads, states, actions, i);
  }

  lemma FailureStep(s: State, a: Action)
    requires Enabled(s, a)
    ensures s.failed <= Apply(s, a).failed
  {
  }

  lemma {:induction false} FailureStays(threads: nat, states: seq<State>, actions: seq<Action>, i: nat, j: nat)
    requires IsRun(threads, states, actions) && i <= j < |states|
    ensures states[i].failed <= states[j].failed
    decreases j - i
  {
    hide Apply, Enabled;
    if i < j {
      FailureStays(threads, states, actions, i, j - 1);
      FailureStep(states[j - 1], actions[j - 1]);
    }
  }

  /**
   A save that fails or panics is never overtaken by an `Authenticated` event, however
   the event raced with it: the handoff is not delivered afterwards, and a session that
   holds the event ends without it.
   */
  lemma FailedSaveWithholdsHandoff(threads: nat, states: seq<State>, actions: seq<Action>, i: nat, j: nat)
    requires IsRun(threads, states, actions) && i < j < |states|
    requires actions[i].Panic? || (actions[i].Save? && !actions[i].ok)
    ensures !states[j].session.Delivered?
    ensures j + 1 < |states| && states[j].session == Rechecking(Authenticated) && actions[j].Recheck? ==>
              states[j + 1].session.Over?
  {
    assert states[i + 1].failed != {} by {
      assert states[i].repliers[actions[i].t].id in states[i + 1].failed;
    }
    FailureStays(threads, states, actions, i + 1, j);
    InvAlways(threads, states, actions, j);
    if j + 1 < |states| {
      InvAlways(threads, states, actions, j + 1);
      FailureStays(threads, states, actions, j, j + 1);
    }
  }
}
