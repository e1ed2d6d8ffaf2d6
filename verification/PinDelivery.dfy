/**
 A handoff that native code completes reaches the caller (`AuthSession::recv_timeout` in
 `crates/client/src/auth.rs`), unless it is cancelled or a save panicked.
 */
module PinDelivery {
  import opened Common
  import opened PinHandoff

  predicate IsSessionAction(a: Action) {
    a.Enter? || a.Poll? || a.Settle? || a.Recheck? || a.Insert?
  }

  predicate OnlyCertificates(events: seq<Event>) {
    forall k :: 0 <= k < |events| ==> events[k].Certificate?
  }

  /** While native code is at work there are only certificate prompts to receive, and nothing has ended. */
  ghost predicate NotYetDone(s: State) {
    !s.native.Done? ==>
      && OnlyCertificates(s.events)
      && (s.session.Rechecking? ==> s.session.event.Certificate?)
      && !s.session.Settling? && !s.session.Delivered?
      && (s.session.Over? ==> s.cancelled || s.poisoned)
  }

  lemma {:induction false} NotDoneAlways(threads: nat, states: seq<State>, actions: seq<Action>, i: nat)
    requires IsRun(threads, states, actions) && i < |states|
    ensures NotYetDone(states[i])
  {
    hide Apply, Enabled;
    if i > 0 {
      NotDoneAlways(threads, states, actions, i - 1);
      NotDoneStep(states[i - 1], actions[i - 1]);
    }
  }

  lemma NotDoneStep(s: State, a: Action)
    requires NotYetDone(s) && Enabled(s, a)
    ensures NotYetDone(Apply(s, a))
  {
    if IsReplierAction(a) {
      ReplierKeepsSession(s, a);
      hide Apply;
    }
  }

  lemma ReplierKeepsSession(s: State, a: Action)
    requires Enabled(s, a) && IsReplierAction(a)
    ensures var n := Apply(s, a);
            && n.native == s.native && n.events == s.events && n.session == s.session
            && (s.cancelled ==> n.cancelled) && (s.poisoned ==> n.poisoned)
  {
  }

  /** The handoff is still to come: its event is the last one, behind certificate prompts, or in the session's hand. */
  predicate Ahead(s: State) {
    if s.events == [] then s.session.Settling? || s.session == Rechecking(Authenticated)
    else
      && s.events[|s.events| - 1].Authenticated? && OnlyCertificates(s.events[..|s.events| - 1])
      && (s.session.Ready? || s.session.Polling? || s.session.Inserting?
          || (s.session.Rechecking? && s.session.event.Certificate?))
  }

  /** Steps of the session until the handoff is delivered. */
  function Left(s: State): nat
    requires Ahead(s)
  {
    if s.events == [] then (if s.session.Settling? then 2 else 1)
    else
      4 * |s.events|
      + match s.session
        case Ready => 0
        case Polling => -1
        case Inserting(_) => 1
        case _ => 2
  }

  ghost predicate ComesCloser(s: State, a: Action, n: State)
    requires Ahead(s)
  {
    || n.session.Delivered?
    || (Ahead(n) && Left(n) + (if IsSessionAction(a) then 1 else 0) <= Left(s))
  }

  lemma AheadStep(s: State, a: Action)
    requires Enabled(s, a) && s.native.Done? && Ahead(s) && !s.cancelled && !s.poisoned
    ensures Apply(s, a).native.Done? && ComesCloser(s, a, Apply(s, a))
  {
    if IsReplierAction(a) {
      ReplierKeepsSession(s, a);
      hide Apply;
    } else if a.Poll? {
      PollStep(s);
    }
  }

  lemma PollStep(s: State)
    requires Enabled(s, Poll) && s.native.Done? && Ahead(s) && !s.cancelled && !s.poisoned
    ensures ComesCloser(s, Poll, Apply(s, Poll))
  {
    var rest := s.events[1..];
    assert forall k :: 0 <= k < |rest| ==> rest[k] == s.events[k + 1];
    if |s.events| > 1 {
      assert s.events[0] == s.events[..|s.events| - 1][0];
      var (before, after) := (s.events[..|s.events| - 1], rest[..|rest| - 1]);
      assert forall k :: 0 < k < |before| ==> after[k - 1] == before[k];
    }
  }

  lemma {:induction false} FlagsStay(threads: nat, states: seq<State>, actions: seq<Action>, i: nat, j: nat)
    requires IsRun(threads, states, actions) && i <= j < |states|
    ensures states[i].cancelled ==> states[j].cancelled
    ensures states[i].poisoned ==> states[j].poisoned
    decreases j - i
  {
    hide Apply, Enabled;
    if i < j {
      FlagsStay(threads, states, actions, i, j - 1);
      OneFlagStays(states[j - 1], actions[j - 1]);
    }
  }

  lemma OneFlagStays(s: State, a: Action)
    requires Enabled(s, a)
    ensures s.cancelled ==> Apply(s, a).cancelled
    ensures s.poisoned ==> Apply(s, a).poisoned
  {
  }

  function SessionActions(actions: seq<Action>): nat {
    if actions == [] then 0
    else SessionActions(actions[..|actions| - 1]) + (if IsSessionAction(actions[|actions| - 1]) then 1 else 0)
  }

  /** Native code that finishes well and was not cancelled sends the handoff behind the prompts still unread. */
  lemma EmitPutsAhead(threads: nat, states: seq<State>, actions: seq<Action>, i: nat)
    requires IsRun(threads, states, actions) && i < |actions|
    requires actions[i].Emit? && states[i].native.ok && !states[i].nativeCancelled
    requires !states[i].cancelled && !states[i].poisoned
    ensures states[i + 1].native.Done? && Ahead(states[i + 1])
  {
    assert Enabled(states[i], actions[i]);
    NotDoneAlways(threads, states, actions, i);
    var s := states[i];
    assert (s.events + [Authenticated])[..|s.events|] == s.events;
  }

  /**
   In every interleaving: once native code has finished well, and unless the attempt is
   cancelled or a save panicked, the session delivers the handoff within four of its own
   steps for each event it has to receive, and one of these steps is enabled whenever
   nobody holds the certificate lock.
   */
  lemma {:induction false} GoodHandoffIsDelivered(threads: nat, states: seq<State>, actions: seq<Action>, i: nat,
                                                  j: nat)
    requires IsRun(threads, states, actions) && i < j < |states|
    requires actions[i].Emit? && states[i].native.ok && !states[i].nativeCancelled
    requires !states[j].cancelled && !states[j].poisoned
    ensures states[j].native.Done? && Ahead(states[i + 1])
    ensures states[j].session.Delivered? || Ahead(states[j])
    ensures Ahead(states[j]) ==>
              SessionActions(actions[i + 1..j]) + Left(states[j]) <= Left(states[i + 1]) <= 4 * |states[i + 1].events|
              + 2
    ensures Ahead(states[j]) && states[j].holder.None? ==>
              Enabled(states[j], Enter) || Enabled(states[j], Poll) || Enabled(states[j], Settle)
              || Enabled(states[j], Recheck) || Enabled(states[j], Insert)
    decreases j
  {
    hide Apply, Ahead, Left, ComesCloser;
    FlagsStay(threads, states, actions, i, j);
    EmitPutsAhead(threads, states, actions, i);
    if j == i + 1 {
      assert actions[i + 1..j] == [];
      StartBound(states[j]);
    } else {
      FlagsStay(threads, states, actions, j - 1, j);
      GoodHandoffIsDelivered(threads, states, actions, i, j - 1);
      assert actions[i + 1..j][..j - i - 2] == actions[i + 1..j - 1];
      assert Enabled(states[j - 1], actions[j - 1]);
      if Ahead(states[j - 1]) {
        AheadStep(states[j - 1], actions[j - 1]);
        CloserMeans(states[j - 1], actions[j - 1], states[j]);
      } else {
        DeliveredStays(states[j - 1], actions[j - 1]);
      }
    }
    hide Enabled;
    CanGoOn(states[j]);
  }

  lemma StartBound(s: State)
    requires Ahead(s)
    ensures Left(s) <= 4 * |s.events| + 2
  {
  }

  lemma CloserMeans(s: State, a: Action, n: State)
    requires Ahead(s) && ComesCloser(s, a, n)
    ensures n.session.Delivered? || Ahead(n)
    ensures Ahead(n) ==> Left(n) + (if IsSessionAction(a) then 1 else 0) <= Left(s)
  {
  }

  lemma DeliveredStays(s: State, a: Action)
    requires Enabled(s, a) && s.session.Delivered? && s.native.Done?
    ensures Apply(s, a).session.Delivered? && Apply(s, a).native.Done? && !Ahead(Apply(s, a))
  {
  }

  lemma CanGoOn(s: State)
    ensures Ahead(s) && s.holder.None? ==>
              Enabled(s, Enter) || Enabled(s, Poll) || Enabled(s, Settle) || Enabled(s, Recheck) || Enabled(s, Insert)
  {
  }
}
