/**
 What the certificate decisions come to (`AuthControl::certificate_reply` and `cancel` in
 `crates/client/src/auth.rs`, and the native worker behind them).
 */
module PinReplies {
  import opened Common
  import opened PinHandoff
  import opened PinDelivery

  // ---------------------------------------------------------------- decisions and saves

  /** Step `m` is a reply that native code takes: this decision on this prompt, the one it shows. */
  predicate Decides(states: seq<State>, actions: seq<Action>, m: nat, id: nat, decision: Decision)
    requires m < |actions| < |states|
  {
    && actions[m].Answer? && actions[m].t < |states[m].repliers|
    && states[m].repliers[actions[m].t] == Live(id, decision)
    && |states[m + 1].queue| > |states[m].queue|
  }

  predicate SavesPin(states: seq<State>, actions: seq<Action>, m: nat, id: nat)
    requires m < |actions| < |states|
  {
    actions[m].Save? && actions[m].ok && actions[m].t < |states[m].repliers|
    && states[m].repliers[actions[m].t] == Saving(id)
  }

  /** `pinned` and `saved` are what happened: the Pin decisions taken, and the saves that succeeded. */
  lemma {:induction false} PinnedAndSaved(threads: nat, states: seq<State>, actions: seq<Action>, i: nat, id: nat)
    requires IsRun(threads, states, actions) && i < |states|
    ensures id in states[i].pinned <==> exists m :: 0 <= m < i && Decides(states, actions, m, id, Pin)
    ensures id in states[i].saved <==> exists m :: 0 <= m < i && SavesPin(states, actions, m, id)
  {
    hide Apply, Enabled, Decides, SavesPin;
    if i > 0 {
      PinnedAndSaved(threads, states, actions, i - 1, id);
      assert Enabled(states[i - 1], actions[i - 1]) && states[i] == Apply(states[i - 1], actions[i - 1]);
      PinnedStep(states, actions, i - 1, id);
      SavedStep(states, actions, i - 1, id);
    }
  }

  lemma PinnedStep(states: seq<State>, actions: seq<Action>, m: nat, id: nat)
    requires m < |actions| < |states| && Enabled(states[m], actions[m]) && states[m + 1] == Apply(states[m], actions[m])
    ensures id in states[m + 1].pinned <==> id in states[m].pinned || Decides(states, actions, m, id, Pin)
  {
    if !actions[m].Answer? {
      OthersPinNothing(states[m], actions[m]);
      hide Apply;
    }
  }

  lemma OthersPinNothing(s: State, a: Action)
    requires Enabled(s, a) && !a.Answer?
    ensures Apply(s, a).pinned == s.pinned
  {
  }

  lemma SavedStep(states: seq<State>, actions: seq<Action>, m: nat, id: nat)
    requires m < |actions| < |states| && Enabled(states[m], actions[m]) && states[m + 1] == Apply(states[m], actions[m])
    ensures id in states[m + 1].saved <==> id in states[m].saved || SavesPin(states, actions, m, id)
  {
    if !actions[m].Save? {
      OthersSaveNothing(states[m], actions[m]);
      hide Apply;
    }
  }

  lemma OthersSaveNothing(s: State, a: Action)
    requires Enabled(s, a) && !a.Save?
    ensures Apply(s, a).saved == s.saved
  {
  }

  /** A delivered handoff: every Pin decision taken in the whole run was followed by its successful save. */
  lemma EveryDecisionIsSaved(threads: nat, states: seq<State>, actions: seq<Action>, i: nat, m: nat, id: nat)
    requires IsRun(threads, states, actions) && m < i < |states| && states[i].session.Delivered?
    requires Decides(states, actions, m, id, Pin)
    ensures exists n :: 0 <= n < i && SavesPin(states, actions, n, id)
  {
    hide Apply, Enabled, Decides, SavesPin;
    PinnedAndSaved(threads, states, actions, i, id);
    HandoffOnlyAfterEveryPinSaved(threads, states, actions, i);
  }

  // ---------------------------------------------------------------- what native code makes of them

  /** A callback fails: native code gives up, or takes a rejection or a reply to another prompt. */
  predicate Fails(s: State, a: Action) {
    a.GiveUp?
    || (a.Take? && s.native.Asking? && s.queue != [] && (s.queue[0].0 != s.native.id || s.queue[0].1 == Reject))
  }

  predicate Sound(n: Native) {
    n.Working? || (n.Asking? && n.sound) || (n.Finished? && n.ok) || (n.Cleared? && n.ok)
  }

  predicate Unsound(n: Native) {
    n.Broken? || (n.Asking? && !n.sound) || (n.Finished? && !n.ok) || (n.Cleared? && !n.ok)
  }

  /** Until its final event native code is sound exactly as long as no callback failed. */
  lemma {:induction false} SoundExactlyWhen(threads: nat, states: seq<State>, actions: seq<Action>, i: nat)
    requires IsRun(threads, states, actions) && i < |states|
    ensures Sound(states[i].native) ==> forall m :: 0 <= m < i ==> !Fails(states[m], actions[m])
    ensures Unsound(states[i].native) ==> exists m :: 0 <= m < i && Fails(states[m], actions[m])
  {
    hide Apply, Enabled, Fails;
    if i > 0 {
      SoundExactlyWhen(threads, states, actions, i - 1);
      assert Enabled(states[i - 1], actions[i - 1]) && states[i] == Apply(states[i - 1], actions[i - 1]);
      SoundStep(states[i - 1], actions[i - 1]);
    }
  }

  lemma SoundStep(s: State, a: Action)
    requires Enabled(s, a)
    ensures var n := Apply(s, a);
            && (Sound(n.native) ==> Sound(s.native) && !Fails(s, a))
            && (Unsound(n.native) ==> Unsound(s.native) || Fails(s, a))
            && (s.native.Done? ==> n.native.Done?)
  {
    if IsReplierAction(a) {
      ReplierKeepsSession(s, a);
      hide Apply;
    }
  }

  /** The handoff was sent by native code none of whose callbacks had failed, and that had not been told to stop. */
  predicate SentWell(states: seq<State>, actions: seq<Action>, m: nat)
    requires m < |actions| < |states|
  {
    actions[m].Emit? && states[m].native.Cleared? && states[m].native.ok && !states[m].nativeCancelled
  }

  ghost predicate HandoffSent(s: State) {
    Authenticated in s.events || s.session.Settling? || s.session == Rechecking(Authenticated) || s.session.Delivered?
  }

  lemma {:induction false} HandoffWasSent(threads: nat, states: seq<State>, actions: seq<Action>, i: nat)
    requires IsRun(threads, states, actions) && i < |states| && HandoffSent(states[i])
    ensures exists m :: 0 <= m < i && SentWell(states, actions, m)
  {
    hide Apply, Enabled, HandoffSent;
    if i > 0 {
      assert Enabled(states[i - 1], actions[i - 1]) && states[i] == Apply(states[i - 1], actions[i - 1]);
      SentStep(states[i - 1], actions[i - 1]);
      if HandoffSent(states[i - 1]) {
        HandoffWasSent(threads, states, actions, i - 1);
      } else {
        assert SentWell(states, actions, i - 1);
      }
    } else {
      NothingSentFirst(threads);
    }
  }

  lemma NothingSentFirst(threads: nat)
    ensures !HandoffSent(Init(threads))
  {
  }

  lemma SentStep(s: State, a: Action)
    requires Enabled(s, a) && HandoffSent(Apply(s, a))
    ensures HandoffSent(s) || (a.Emit? && s.native.Cleared? && s.native.ok && !s.nativeCancelled)
  {
    if IsReplierAction(a) {
      ReplierKeepsSession(s, a);
      hide Apply;
    }
  }

  /** A delivered handoff: no certificate was rejected, no callback failed and nobody had told native code to stop. */
  lemma HandoffMeansNoFailure(threads: nat, states: seq<State>, actions: seq<Action>, i: nat)
    requires IsRun(threads, states, actions) && i < |states| && states[i].session.Delivered?
    ensures exists m :: 0 <= m < i && SentWell(states, actions, m)
                        && forall k :: 0 <= k < m ==> !Fails(states[k], actions[k])
  {
    HandoffWasSent(threads, states, actions, i);
    var m :| 0 <= m < i && SentWell(states, actions, m);
    SoundExactlyWhen(threads, states, actions, m);
  }

  /** Once a cancellation has reached native code, no handoff is sent any more. */
  lemma {:induction false} NoHandoffAfterFlag(threads: nat, states: seq<State>, actions: seq<Action>, i: nat, j: nat)
    requires IsRun(threads, states, actions) && i < j < |states| && actions[i].FlagNative?
    ensures states[j].nativeCancelled
    ensures j < |actions| ==> !SentWell(states, actions, j)
    decreases j
  {
    if j == i + 1 {
      assert Enabled(states[i], actions[i]);
    } else {
      NoHandoffAfterFlag(threads, states, actions, i, j - 1);
      assert Enabled(states[j - 1], actions[j - 1]);
      NativeFlagStays(states[j - 1], actions[j - 1]);
    }
  }

  lemma NativeFlagStays(s: State, a: Action)
    requires Enabled(s, a) && s.nativeCancelled
    ensures Apply(s, a).nativeCancelled
  {
  }

  // ---------------------------------------------------------------- the calls themselves

  /** The prompt a thread has looked up, under the lock it still holds. */
  function LookedUp(r: Replier): Option<nat> {
    match r
    case Live(id, _) => Some(id)
    case Saving(id) => Some(id)
    case Failing(id) => Some(id)
    case Stopping(id) => Some(id)
    case Clearing(id) => Some(id)
    case Removing(id) => Some(id)
    case _ => None
  }

  /** The thread with the lock works on a prompt the session has shown. */
  ghost predicate WorksOnKnown(s: State) {
    s.holder.Some? && s.holder.value < |s.repliers| && LookedUp(s.repliers[s.holder.value]).Some? ==>
      LookedUp(s.repliers[s.holder.value]).value in s.known
  }

  lemma {:induction false} KnownAlways(threads: nat, states: seq<State>, actions: seq<Action>, i: nat)
    requires IsRun(threads, states, actions) && i < |states|
    ensures WorksOnKnown(states[i])
  {
    hide Apply, Enabled;
    if i > 0 {
      KnownAlways(threads, states, actions, i - 1);
      InvAlways(threads, states, actions, i - 1);
      assert Enabled(states[i - 1], actions[i - 1]) && states[i] == Apply(states[i - 1], actions[i - 1]);
      KnownStep(states[i - 1], actions[i - 1]);
    }
  }

  lemma KnownStep(s: State, a: Action)
    requires LockInv(s) && WorksOnKnown(s) && Enabled(s, a)
    ensures WorksOnKnown(Apply(s, a))
  {
    if IsReplierAction(a) {
      var t := a.t;
      assert HoldsLock(s.repliers[t]) <==> s.holder == Some(t);
      hide LockInv;
      if a.Acquire? || a.Look? || a.Answer? {
        EarlyKnown(s, a);
      } else {
        LateKnown(s, a);
      }
    } else {
      hide LockInv;
    }
  }

  lemma EarlyKnown(s: State, a: Action)
    requires WorksOnKnown(s) && Enabled(s, a) && (a.Acquire? || a.Look? || a.Answer?)
    requires HoldsLock(s.repliers[a.t]) <==> s.holder == Some(a.t)
    ensures WorksOnKnown(Apply(s, a))
  {
  }

  lemma LateKnown(s: State, a: Action)
    requires WorksOnKnown(s) && Enabled(s, a) && IsReplierAction(a) && !a.Acquire? && !a.Look? && !a.Answer?
    requires HoldsLock(s.repliers[a.t]) <==> s.holder == Some(a.t)
    ensures WorksOnKnown(Apply(s, a))
  {
  }

  /** In every run a thread answers, saves or cleans up only after a prompt the session has shown. */
  lemma OnlyKnownPromptsAreAnswered(threads: nat, states: seq<State>, actions: seq<Action>, i: nat, t: nat)
    requires IsRun(threads, states, actions) && i < |states| && t < |states[i].repliers|
    ensures LookedUp(states[i].repliers[t]).Some? ==> LookedUp(states[i].repliers[t]).value in states[i].known
  {
    KnownAlways(threads, states, actions, i);
    InvAlways(threads, states, actions, i);
  }

  /** The set of shown prompts changes only under the certificate lock. */
  lemma KnownChangesUnderLock(threads: nat, states: seq<State>, actions: seq<Action>, i: nat)
    requires IsRun(threads, states, actions) && i < |actions| && states[i + 1].known != states[i].known
    ensures states[i].holder.None? || (actions[i].Forget? && states[i].holder == Some(actions[i].t))
    ensures actions[i].Insert? ==> states[i + 1].known == states[i].known + {states[i].session.id}
  {
    InvAlways(threads, states, actions, i);
    assert Enabled(states[i], actions[i]);
    LockedStep(states[i], actions[i]);
  }

  lemma LockedStep(s: State, a: Action)
    requires LockInv(s) && Enabled(s, a) && Apply(s, a).known != s.known
    ensures s.holder.None? || (a.Forget? && s.holder == Some(a.t))
    ensures a.Insert? ==> Apply(s, a).known == s.known + {s.session.id}
  {
  }

  /** After a save that panicked nobody gets the certificate lock again. */
  lemma {:induction false} PoisonedLockStaysFree(threads: nat, states: seq<State>, actions: seq<Action>, i: nat)
    requires IsRun(threads, states, actions) && i < |states| && states[i].poisoned
    ensures states[i].holder.None?
    ensures forall t :: 0 <= t < |states[i].repliers| ==> !HoldsLock(states[i].repliers[t])
  {
    InvAlways(threads, states, actions, i);
    hide Accounted, OnceInv, EndInv;
    if i > 0 {
      assert Enabled(states[i - 1], actions[i - 1]);
      InvAlways(threads, states, actions, i - 1);
      if states[i - 1].poisoned {
        PoisonedLockStaysFree(threads, states, actions, i - 1);
      }
      PoisonStep(states[i - 1], actions[i - 1]);
    }
  }

  lemma PoisonStep(s: State, a: Action)
    requires LockInv(s) && Enabled(s, a) && (s.poisoned ==> s.holder.None?)
    ensures Apply(s, a).poisoned ==> Apply(s, a).holder.None?
  {
  }

  /** A thread in a call, with the lock if it needs it, goes on to its next step. */
  predicate GoesOn(s: State, t: nat)
    requires t < |s.repliers|
  {
    match s.repliers[t]
    case Idle => true
    case Waiting(_, _) => s.holder.None? ==> Enabled(s, Acquire(t))
    case Holding(_, _) => Enabled(s, Look(t))
    case Live(_, _) => Enabled(s, Answer(t, true)) && Enabled(s, Answer(t, false))
    case Saving(_) => Enabled(s, Save(t, true)) && Enabled(s, Save(t, false))
    case Failing(_) => Enabled(s, SetFlag(t))
    case Stopping(_) => Enabled(s, FlagNative(t))
    case Clearing(_) => Enabled(s, ClearNative(t))
    case Removing(_) => Enabled(s, Forget(t))
    case Cancelling => Enabled(s, FlagNative(t))
    case CancelFlagged => Enabled(s, ClearNative(t))
    case CancelCleared => Enabled(s, FinishCancel(t))
  }

  /** No call gets stuck but behind the lock, whose holder goes on; and native code always goes on. */
  lemma NobodyIsStuck(threads: nat, states: seq<State>, actions: seq<Action>, i: nat, t: nat)
    requires IsRun(threads, states, actions) && i < |states| && t < |states[i].repliers|
    ensures GoesOn(states[i], t)
    ensures states[i].holder.Some? ==>
              var h := states[i].holder.value;
              h < |states[i].repliers| && GoesOn(states[i], h) && !states[i].repliers[h].Waiting?
    ensures states[i].native.Working? || states[i].native.Broken? ==>
              Enabled(states[i], Ask) && Enabled(states[i], Finish)
    ensures states[i].native.Asking? ==>
              Enabled(states[i], GiveUp) && (states[i].queue != [] ==> Enabled(states[i], Take))
    ensures states[i].native.Working? ==> Enabled(states[i], GiveUp)
    ensures states[i].native.Finished? ==> Enabled(states[i], Clear)
    ensures states[i].native.Cleared? ==> Enabled(states[i], Emit)
  {
    hide Accounted, OnceInv, EndInv, Apply;
    InvAlways(threads, states, actions, i);
  }

  function Stage(s: State, t: nat, r: Replier): State
    requires t < |s.repliers|
  {
    s.(repliers := s.repliers[t := r], holder := if r.Waiting? then s.holder else Some(t))
  }

  /**
   A decision on the prompt native code shows reaches it: with the prompt known, nobody cancelling,
   no panic, the lock free and room in the queue, an idle thread that replies goes through its steps,
   queues that decision and no other, takes the prompt out of the slot, and goes on to save exactly
   a Pin.
   */
  lemma DecisionIsTaken(threads: nat, states: seq<State>, actions: seq<Action>, i: nat, t: nat, id: nat,
                        decision: Decision)
    requires IsRun(threads, states, actions) && i < |states| && t < |states[i].repliers|
    requires states[i].repliers[t].Idle? && states[i].holder.None? && !states[i].poisoned
    requires !states[i].cancelled && !states[i].nativeCancelled && id in states[i].known && states[i].slot == Some(id)
    ensures var s := states[i];
            var (waiting, holding, live) :=
              (Stage(s, t, Waiting(id, decision)), Stage(s, t, Holding(id, decision)), Stage(s, t, Live(id, decision)));
            && Enabled(s, StartReply(t, id, decision)) && Apply(s, StartReply(t, id, decision)) == waiting
            && Enabled(waiting, Acquire(t)) && Apply(waiting, Acquire(t)) == holding
            && Enabled(holding, Look(t)) && Apply(holding, Look(t)) == live
            && Enabled(live, Answer(t, true))
            && var n := Apply(live, Answer(t, true));
            && n.queue == s.queue + [(id, decision)] && n.slot.None?
            && n.repliers == s.repliers[t := if decision == Pin then Saving(id) else Removing(id)]
            && Apply(live, Answer(t, false)) == s
  {
    var s := states[i];
    var (waiting, holding) := (Stage(s, t, Waiting(id, decision)), Stage(s, t, Holding(id, decision)));
    assert waiting.repliers[t := Holding(id, decision)] == holding.repliers;
    assert holding.repliers[t := Live(id, decision)] == Stage(s, t, Live(id, decision)).repliers;
    assert s.repliers[t := Idle] == s.repliers;
  }
}
