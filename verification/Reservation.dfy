/**
 Starting connections against removing profiles (`reserve_profile` and `remove_profile` in
 `crates/client/src/configuration.rs`, the reservation in `crates/client/src/connect.rs`).

 Every starter and every remover takes one per-user lock. The service is an environment
 with one slot: it may grant a request at any time after it was sent, shows a granted
 profile as active before it answers, and may end an attempt at any time.
 */
module Reservation {
  import opened Common

  /** A connection start; each number stands for one start. */
  datatype Starter =
    | Unstarted
    | Locked(profile: nat)
    | Resolved(profile: nat)
    | Sent(profile: nat)
      // The service answered; the lock is still held.
    | Answered(profile: nat)
      // The attempt goes on without the lock.
    | Holding(profile: nat)
    | Finished

  datatype Remover =
    | Idle
    | Guarding(profile: nat)
      // `shown`: the active profiles of the snapshot it read.
    | Looked(profile: nat, shown: set<nat>)
    | Gone

  datatype Holder = Start(starter: nat) | Removal(remover: nat)

  datatype Slot = Slot(profile: nat, starter: nat, visible: bool)

  datatype State = State(
    store: set<nat>,
    lock: Option<Holder>,
    starters: map<nat, Starter>,
    removers: map<nat, Remover>,
    requests: map<nat, nat>,
    slot: Option<Slot>)

  datatype Step =
      // The starter
    | Acquire(starter: nat, profile: nat)
    | Resolve(starter: nat)
    | Send(starter: nat)
    | GetAnswer(starter: nat)
    | Unlock(starter: nat)
      // A stop request, an error, a refusal or a timeout; a sent request stays on its way.
    | GiveUp(starter: nat)
      // The service
    | Grant(starter: nat)
    | Refuse(starter: nat)
    | Show
    | End
      // The remover; `sees` is whether a slot not yet visible is in its snapshot.
    | Guard(remover: nat, profile: nat)
    | Look(remover: nat, sees: bool)
    | Delete(remover: nat)
    | Withdraw(remover: nat)

  function StarterOf(s: State, c: nat): Starter {
    if c in s.starters then s.starters[c] else Unstarted
  }

  function RemoverOf(s: State, r: nat): Remover {
    if r in s.removers then s.removers[r] else Idle
  }

  function SetStarter(s: State, c: nat, to: Starter): State {
    s.(starters := s.starters[c := to])
  }

  function SetRemover(s: State, r: nat, to: Remover): State {
    s.(removers := s.removers[r := to])
  }

  predicate HasLock(c: Starter) {
    c.Locked? || c.Resolved? || c.Sent? || c.Answered?
  }

  predicate Enabled(s: State, step: Step) {
    match step
    case Acquire(c, _) => s.lock.None? && StarterOf(s, c).Unstarted?
    case Resolve(c) => StarterOf(s, c).Locked?
    case Send(c) => StarterOf(s, c).Resolved?
    case GetAnswer(c) =>
      StarterOf(s, c).Sent? && s.slot.Some? && s.slot.value == Slot(StarterOf(s, c).profile, c, true)
    case Unlock(c) => StarterOf(s, c).Answered?
    case GiveUp(c) => HasLock(StarterOf(s, c))
    case Grant(c) => c in s.requests && s.slot.None?
    case Refuse(c) => c in s.requests
    case Show => s.slot.Some?
    case End => s.slot.Some?
    case Guard(r, _) => s.lock.None? && RemoverOf(s, r).Idle?
    case Look(r, _) => RemoverOf(s, r).Guarding?
    case Delete(r) => RemoverOf(s, r).Looked?
    case Withdraw(r) => RemoverOf(s, r).Guarding? || RemoverOf(s, r).Looked?
  }

  function Apply(s: State, step: Step): State
    requires Enabled(s, step)
  {
    match step
    case Acquire(c, p) => SetStarter(s, c, Locked(p)).(lock := Some(Start(c)))
    case Resolve(c) =>
      var p := StarterOf(s, c).profile;
      if p in s.store then SetStarter(s, c, Resolved(p)) else SetStarter(s, c, Finished).(lock := None)
    case Send(c) =>
      var p := StarterOf(s, c).profile;
      SetStarter(s, c, Sent(p)).(requests := s.requests[c := p])
    case GetAnswer(c) => SetStarter(s, c, Answered(StarterOf(s, c).profile))
    case Unlock(c) => SetStarter(s, c, Holding(StarterOf(s, c).profile)).(lock := None)
    case GiveUp(c) => SetStarter(s, c, Finished).(lock := None)
    case Grant(c) => s.(slot := Some(Slot(s.requests[c], c, false)), requests := s.requests - {c})
    case Refuse(c) => s.(requests := s.requests - {c})
    case Show => s.(slot := Some(Slot(s.slot.value.profile, s.slot.value.starter, true)))
    case End =>
      var c := s.slot.value.starter;
      var ended := s.(slot := None);
      if StarterOf(s, c).Holding? then SetStarter(ended, c, Finished)
      else if StarterOf(s, c).Answered? then SetStarter(ended, c, Finished).(lock := None)
      else ended
    case Guard(r, p) => SetRemover(s, r, Guarding(p)).(lock := Some(Removal(r)))
    case Look(r, sees) =>
      SetRemover(s, r, Looked(RemoverOf(s, r).profile,
                              if s.slot.Some? && (s.slot.value.visible || sees) then {s.slot.value.profile} else {}))
    case Delete(r) =>
      var was := RemoverOf(s, r);
      var left := if was.profile in was.shown then s.store else s.store - {was.profile};
      SetRemover(s, r, Gone).(lock := None, store := left)
    case Withdraw(r) => SetRemover(s, r, Gone).(lock := None)
  }

  function Begin(store: set<nat>): State {
    State(store, None, map[], map[], map[], None)
  }

  ghost predicate Path(states: seq<State>, steps: seq<Step>) {
    && |states| == |steps| + 1
    && forall k :: 0 <= k < |steps| ==> Enabled(states[k], steps[k]) && states[k + 1] == Apply(states[k], steps[k])
  }

  ghost predicate StarterInv(s: State, c: nat) {
    var me := StarterOf(s, c);
    && (HasLock(me) ==> s.lock == Some(Start(c)))
    && (me.Resolved? || me.Sent? || me.Answered? || me.Holding? ==> me.profile in s.store)
    && (me.Answered? || me.Holding? ==> s.slot == Some(Slot(me.profile, c, true)))
    && (c in s.requests ==> me.Finished? || me == Sent(s.requests[c]))
    && (s.slot.Some? && s.slot.value.starter == c ==>
          c !in s.requests
          && (me.Finished? || ((me.Sent? || me.Answered? || me.Holding?) && me.profile == s.slot.value.profile)))
  }

  ghost predicate RemoverInv(s: State, r: nat) {
    var me := RemoverOf(s, r);
    && (me.Guarding? || me.Looked? ==> s.lock == Some(Removal(r)))
    && (me.Looked? && s.slot.Some? && StarterOf(s, s.slot.value.starter).Holding? ==> s.slot.value.profile in me.shown)
  }

  /** The lock has a holder that can give it up. */
  predicate LockHeld(s: State) {
    match s.lock
    case None => true
    case Some(Start(c)) => HasLock(StarterOf(s, c))
    case Some(Removal(r)) => RemoverOf(s, r).Guarding? || RemoverOf(s, r).Looked?
  }

  ghost predicate Inv(s: State) {
    && LockHeld(s)
    && (forall c :: StarterInv(s, c))
    && (forall r :: RemoverInv(s, r))
  }

  lemma StepStarter(s: State, step: Step, c: nat)
    requires Inv(s) && Enabled(s, step)
    ensures StarterInv(Apply(s, step), c)
  {
    assert StarterInv(s, c);
    match step
    case Delete(r) =>
      assert RemoverInv(s, r);
    case GiveUp(d) => assert StarterInv(s, d);
    case Unlock(d) => assert StarterInv(s, d);
    case Resolve(d) => assert StarterInv(s, d);
    case Grant(d) => assert StarterInv(s, d);
    case End => assert StarterInv(s, s.slot.value.starter);
    case Withdraw(r) => assert RemoverInv(s, r);
    case _ =>
  }

  lemma StepRemover(s: State, step: Step, r: nat)
    requires Inv(s) && Enabled(s, step)
    ensures RemoverInv(Apply(s, step), r)
  {
    assert RemoverInv(s, r);
    if s.slot.Some? {
      assert StarterInv(s, s.slot.value.starter);
    }
    match step
    case GiveUp(d) => assert StarterInv(s, d);
    case Unlock(d) => assert StarterInv(s, d);
    case Resolve(d) => assert StarterInv(s, d);
    case Grant(d) => assert StarterInv(s, d);
    case Delete(q) => assert RemoverInv(s, q);
    case Withdraw(q) => assert RemoverInv(s, q);
    case _ =>
  }

  lemma StepLock(s: State, step: Step)
    requires Inv(s) && Enabled(s, step)
    ensures LockHeld(Apply(s, step))
  {
    match step
    case GiveUp(d) => assert StarterInv(s, d);
    case Unlock(d) => assert StarterInv(s, d);
    case Resolve(d) => assert StarterInv(s, d);
    case End => assert StarterInv(s, s.slot.value.starter);
    case Delete(q) => assert RemoverInv(s, q);
    case Withdraw(q) => assert RemoverInv(s, q);
    case _ =>
  }

  lemma {:induction false} InvAlways(states: seq<State>, steps: seq<Step>, k: nat)
    requires Path(states, steps) && k < |states| && Inv(states[0])
    ensures Inv(states[k])
  {
    if k > 0 {
      InvAlways(states, steps, k - 1);
      StepLock(states[k - 1], steps[k - 1]);
      forall c ensures StarterInv(states[k], c) { StepStarter(states[k - 1], steps[k - 1], c); }
      forall r ensures RemoverInv(states[k], r) { StepRemover(states[k - 1], steps[k - 1], r); }
    }
  }

  /**
   In every interleaving, from the moment a starter has its reservation answered until the
   service ends that attempt, the profile stays in the store and the slot stays its own.
   */
  lemma ReservedProfileStays(states: seq<State>, steps: seq<Step>, store: set<nat>, k: nat, c: nat)
    requires Path(states, steps) && k < |states| && states[0] == Begin(store)
    requires StarterOf(states[k], c).Answered? || StarterOf(states[k], c).Holding?
    ensures StarterOf(states[k], c).profile in states[k].store
    ensures states[k].slot == Some(Slot(StarterOf(states[k], c).profile, c, true))
  {
    assert Inv(states[0]);
    InvAlways(states, steps, k);
    assert StarterInv(states[k], c);
  }

  // ---------------------------------------------------------------- which slots can lose their profile

  /** A remover of the profile has looked, saw no active attempt on it, and may delete it now. */
  ghost predicate StaleLook(s: State, profile: nat) {
    exists r :: RemoverOf(s, r).Looked? && RemoverOf(s, r).profile == profile && profile !in RemoverOf(s, r).shown
  }

  /** The steps keep the slot with its start and end with its profile gone from the store. */
  ghost predicate LosesBy(s: State, steps: seq<Step>, starter: nat)
    decreases |steps|
  {
    && s.slot.Some? && s.slot.value.starter == starter
    && if steps == [] then s.slot.value.profile !in s.store
       else Enabled(s, steps[0]) && LosesBy(Apply(s, steps[0]), steps[1..], starter)
  }

  ghost predicate CanLose(s: State)
    requires s.slot.Some?
  {
    exists steps :: LosesBy(s, steps, s.slot.value.starter)
  }

  /** The profile of the slot is stored, shown as active, and no remover has overlooked it. */
  ghost predicate Safe(s: State) {
    s.slot.Some? ==>
      s.slot.value.visible && s.slot.value.profile in s.store && !StaleLook(s, s.slot.value.profile)
  }

  lemma SafeStep(s: State, step: Step)
    requires Safe(s) && s.slot.Some? && Enabled(s, step) && Apply(s, step).slot.Some?
    ensures Safe(Apply(s, step)) && Apply(s, step).slot.value.starter == s.slot.value.starter
  {
    var n, p := Apply(s, step), s.slot.value.profile;
    forall r: nat
      ensures !(RemoverOf(n, r).Looked? && RemoverOf(n, r).profile == p && p !in RemoverOf(n, r).shown)
    {
      assert !(RemoverOf(s, r).Looked? && RemoverOf(s, r).profile == p && p !in RemoverOf(s, r).shown);
    }
  }

  lemma {:induction false} SafeNeverLoses(s: State, steps: seq<Step>, starter: nat)
    requires Safe(s)
    ensures !LosesBy(s, steps, starter)
    decreases |steps|
  {
    if LosesBy(s, steps, starter) && steps != [] {
      assert LosesBy(Apply(s, steps[0]), steps[1..], starter);
      SafeStep(s, steps[0]);
      SafeNeverLoses(Apply(s, steps[0]), steps[1..], starter);
    }
  }

  lemma LoseOneStep(s: State, step: Step, steps: seq<Step>, starter: nat)
    requires s.slot.Some? && s.slot.value.starter == starter
    requires Enabled(s, step) && LosesBy(Apply(s, step), steps, starter)
    ensures LosesBy(s, [step] + steps, starter)
  {
    assert ([step] + steps)[1..] == steps;
  }

  lemma DeleteLoses(s: State, r: nat)
    requires s.slot.Some? && RemoverOf(s, r).Looked?
    requires RemoverOf(s, r).profile == s.slot.value.profile && s.slot.value.profile !in RemoverOf(s, r).shown
    ensures LosesBy(s, [Delete(r)], s.slot.value.starter)
  {
    assert LosesBy(Apply(s, Delete(r)), [], s.slot.value.starter);
    LoseOneStep(s, Delete(r), [], s.slot.value.starter);
    assert [Delete(r)] + [] == [Delete(r)];
  }

  lemma {:induction false} Bound(keys: set<nat>) returns (b: nat)
    ensures forall k :: k in keys ==> k < b
    decreases |keys|
  {
    if keys == {} {
      b := 0;
    } else {
      var k :| k in keys;
      var rest := Bound(keys - {k});
      b := if k < rest then rest else k + 1;
      assert keys == (keys - {k}) + {k};
    }
  }

  /** With the lock free, a new removal overlooks a slot that is not yet visible. */
  lemma FreeLockLoses(s: State)
    requires s.slot.Some? && !s.slot.value.visible && s.lock.None?
    ensures CanLose(s)
  {
    var r := Bound(s.removers.Keys);
    var c, p := s.slot.value.starter, s.slot.value.profile;
    var guarded := Apply(s, Guard(r, p));
    var looked := Apply(guarded, Look(r, false));
    DeleteLoses(looked, r);
    LoseOneStep(guarded, Look(r, false), [Delete(r)], c);
    LoseOneStep(s, Guard(r, p), [Look(r, false)] + [Delete(r)], c);
  }

  lemma InvisibleSlotLoses(s: State)
    requires LockHeld(s) && s.slot.Some? && !s.slot.value.visible
    ensures CanLose(s)
  {
    match s.lock
    case None => FreeLockLoses(s);
    case Some(holder) =>
      var step := match holder case Start(c) => GiveUp(c) case Removal(r) => Withdraw(r);
      FreeLockLoses(Apply(s, step));
      var c := s.slot.value.starter;
      var steps :| LosesBy(Apply(s, step), steps, c);
      LoseOneStep(s, step, steps, c);
  }

  /**
   From a reachable state the slot can lose its profile while its start still owns it
   exactly when the profile is already gone, or the service does not show the slot yet, or a
   remover of the profile has looked without seeing it.
   */
  lemma LosesProfileExactlyWhen(states: seq<State>, steps: seq<Step>, store: set<nat>, k: nat)
    requires Path(states, steps) && k < |states| && states[0] == Begin(store) && states[k].slot.Some?
    ensures var (s, slot) := (states[k], states[k].slot.value);
            CanLose(s) <==> slot.profile !in s.store || !slot.visible || StaleLook(s, slot.profile)
  {
    var s := states[k];
    var c, p := s.slot.value.starter, s.slot.value.profile;
    assert Inv(states[0]);
    InvAlways(states, steps, k);
    if p !in s.store {
      assert LosesBy(s, [], c);
    } else if !s.slot.value.visible {
      InvisibleSlotLoses(s);
    } else if StaleLook(s, p) {
      var r :| RemoverOf(s, r).Looked? && RemoverOf(s, r).profile == p && p !in RemoverOf(s, r).shown;
      DeleteLoses(s, r);
    } else {
      forall steps
        ensures !LosesBy(s, steps, c)
      {
        SafeNeverLoses(s, steps, c);
      }
    }
  }

  /** Once answered, a start has a safe slot or none, for good. */
  ghost predicate Settled(s: State, c: nat) {
    && c !in s.requests
    && (StarterOf(s, c).Answered? || StarterOf(s, c).Holding? || StarterOf(s, c).Finished?)
    && (s.slot.Some? && s.slot.value.starter == c ==> Safe(s))
  }

  lemma AnswerSettles(s: State, c: nat)
    requires Inv(s) && (StarterOf(s, c).Answered? || StarterOf(s, c).Holding?)
    ensures Settled(s, c)
  {
    assert StarterInv(s, c);
    forall r
      ensures RemoverOf(s, r).Looked? ==> s.slot.value.profile in RemoverOf(s, r).shown
    {
      assert RemoverInv(s, r);
    }
  }

  lemma SettledStep(s: State, step: Step, c: nat)
    requires Settled(s, c) && Enabled(s, step)
    ensures Settled(Apply(s, step), c)
  {
    var n := Apply(s, step);
    if n.slot.Some? && n.slot.value.starter == c {
      assert s.slot.Some? && s.slot.value.starter == c by { OwnerStays(s, step, c); }
      SafeStep(s, step);
    }
    hide StaleLook;
  }

  lemma OwnerStays(s: State, step: Step, c: nat)
    requires Enabled(s, step) && c !in s.requests
    requires Apply(s, step).slot.Some? && Apply(s, step).slot.value.starter == c
    ensures s.slot.Some? && s.slot.value.starter == c
  {
  }

  lemma {:induction false} AnsweredNeverLoses(states: seq<State>, steps: seq<Step>, store: set<nat>, j: nat, k: nat,
                                              c: nat)
    requires Path(states, steps) && j <= k < |states| && states[0] == Begin(store)
    requires StarterOf(states[j], c).Answered? || StarterOf(states[j], c).Holding?
    ensures Settled(states[k], c)
    decreases k
  {
    hide Settled, Apply, Enabled;
    if j == k {
      assert Inv(states[0]) by { BeginInv(store); }
      InvAlways(states, steps, k);
      AnswerSettles(states[k], c);
    } else {
      AnsweredNeverLoses(states, steps, store, j, k - 1, c);
      SettledStep(states[k - 1], steps[k - 1], c);
    }
  }

  lemma BeginInv(store: set<nat>)
    ensures Inv(Begin(store))
  {
  }

  /**
   A slot whose profile is gone belongs to a start that has given up, and that gave up
   before its reservation was ever answered.
   */
  lemma LostSlotWasNeverAnswered(states: seq<State>, steps: seq<Step>, store: set<nat>, k: nat)
    requires Path(states, steps) && k < |states| && states[0] == Begin(store)
    requires states[k].slot.Some? && states[k].slot.value.profile !in states[k].store
    ensures var c := states[k].slot.value.starter;
            && StarterOf(states[k], c).Finished?
            && forall j :: 0 <= j <= k ==> !StarterOf(states[j], c).Answered? && !StarterOf(states[j], c).Holding?
  {
    hide Apply, Enabled;
    var c := states[k].slot.value.starter;
    BeginInv(store);
    InvAlways(states, steps, k);
    assert StarterInv(states[k], c);
    forall j | 0 <= j <= k
      ensures !StarterOf(states[j], c).Answered? && !StarterOf(states[j], c).Holding?
    {
      if StarterOf(states[j], c).Answered? || StarterOf(states[j], c).Holding? {
        AnsweredNeverLoses(states, steps, store, j, k, c);
      }
    }
  }

  function RunFrom(s: State, steps: seq<Step>): Option<State>
    decreases |steps|
  {
    if steps == [] then Some(s)
    else if !Enabled(s, steps[0]) then None
    else RunFrom(Apply(s, steps[0]), steps[1..])
  }

  lemma OneMoreStep(s: State, step: Step, steps: seq<Step>, end: State)
    requires Enabled(s, step) && RunFrom(Apply(s, step), steps) == Some(end)
    ensures RunFrom(s, [step] + steps) == Some(end)
  {
    assert ([step] + steps)[1..] == steps;
  }

  /**
   That case exists: a start times out with its request on the way, a removal looks and
   deletes, and the request is granted between the two.
   */
  lemma LateGrantLosesItsProfile(profile: nat)
    ensures exists steps ::
              var end := RunFrom(Begin({profile}), steps);
              end.Some? && end.value.slot.Some? && end.value.slot.value.profile == profile
              && profile !in end.value.store
  {
    var s2 := State({profile}, Some(Start(0)), map[0 := Resolved(profile)], map[], map[], None);
    var s4 := State({profile}, None, map[0 := Finished], map[], map[0 := profile], None);
    var end := State({}, None, map[0 := Finished], map[0 := Gone], map[], Some(Slot(profile, 0, false)));
    TheStartGivesUp(profile, s2, s4);
    var removal := [Guard(0, profile), Look(0, false), Grant(0), Delete(0)];
    TheRemovalDeletes(profile, s4, end, removal);
    OneMoreStep(Apply(s2, Send(0)), GiveUp(0), removal, end);
    OneMoreStep(s2, Send(0), [GiveUp(0)] + removal, end);
    var s1 := Apply(Begin({profile}), Acquire(0, profile));
    OneMoreStep(s1, Resolve(0), [Send(0)] + ([GiveUp(0)] + removal), end);
    OneMoreStep(Begin({profile}), Acquire(0, profile), [Resolve(0)] + ([Send(0)] + ([GiveUp(0)] + removal)), end);
  }

  lemma TheStartGivesUp(profile: nat, s2: State, s4: State)
    requires s2 == State({profile}, Some(Start(0)), map[0 := Resolved(profile)], map[], map[], None)
    requires s4 == State({profile}, None, map[0 := Finished], map[], map[0 := profile], None)
    ensures Apply(Apply(Begin({profile}), Acquire(0, profile)), Resolve(0)) == s2
    ensures Apply(Apply(s2, Send(0)), GiveUp(0)) == s4
  {
  }

  lemma TheRemovalDeletes(profile: nat, s4: State, end: State, removal: seq<Step>)
    requires s4 == State({profile}, None, map[0 := Finished], map[], map[0 := profile], None)
    requires end == State({}, None, map[0 := Finished], map[0 := Gone], map[], Some(Slot(profile, 0, false)))
    requires removal == [Guard(0, profile), Look(0, false), Grant(0), Delete(0)]
    ensures RunFrom(s4, removal) == Some(end)
  {
    var s5 := State({profile}, Some(Removal(0)), map[0 := Finished], map[0 := Guarding(profile)], map[0 := profile],
                    None);
    var s6 := State({profile}, Some(Removal(0)), map[0 := Finished], map[0 := Looked(profile, {})], map[0 := profile],
                    None);
    var s7 := State({profile}, Some(Removal(0)), map[0 := Finished], map[0 := Looked(profile, {})], map[],
                    Some(Slot(profile, 0, false)));
    assert RunFrom(end, []) == Some(end);
    assert Apply(s7, Delete(0)) == end;
    OneMoreStep(s7, Delete(0), [], end);
    assert Apply(s6, Grant(0)) == s7;
    OneMoreStep(s6, Grant(0), [Delete(0)] + [], end);
    assert Apply(s5, Look(0, false)) == s6;
    OneMoreStep(s5, Look(0, false), [Grant(0)] + ([Delete(0)] + []), end);
    assert Apply(s4, Guard(0, profile)) == s5;
    OneMoreStep(s4, Guard(0, profile), [Look(0, false)] + ([Grant(0)] + ([Delete(0)] + [])), end);
    assert removal == [Guard(0, profile)] + ([Look(0, false)] + ([Grant(0)] + ([Delete(0)] + [])));
  }
}
