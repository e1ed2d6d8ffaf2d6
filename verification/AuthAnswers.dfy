/**
 What becomes of an answer (`wait_for` and its callers in `crates/engine/src/auth.rs`):
 a reply that was accepted is acted on, unless cancellation or a timeout comes first.
 */
module AuthAnswers {
  import opened Common
  import opened AuthExchange

  /** The worker has its own reply in hand, the flag behind it, and if it is a browser's still its transaction. */
  predicate HasOwnReply(s: State) {
    s.worker.Screening? && s.worker.reply == s.worker.prompt
    && (s.worker.prompt.kind == Browser ==> s.slot == Some(s.worker.prompt))
  }

  /**
   In every run a step acts on a reply exactly when it screens the worker's own one, and then
   on that one. The wait ends with it, unless a browser has more pages to show, and then its
   transaction goes on with a fresh allowance of replies to skip.
   */
  lemma OwnReplyIsActedOn(threads: nat, states: seq<State>, actions: seq<Action>, i: nat)
    requires IsRun(threads, states, actions) && i < |actions|
    ensures actions[i].Screen? && HasOwnReply(states[i]) ==>
              var (p, n) := (states[i].worker.prompt, states[i + 1]);
              && n.acts == states[i].acts + [Act(p, p)] && n.slot == states[i].slot && n.queue == states[i].queue
              && (if p.kind == Browser && actions[i].page == More then n.worker == Top(p) && n.skipped == 0
                  else if p.kind == Browser && actions[i].page == Finished then n.worker == Settling(p)
                  else n.worker == Native)
    ensures !(actions[i].Screen? && HasOwnReply(states[i])) ==> states[i + 1].acts == states[i].acts
  {
    assert Enabled(states[i], actions[i]);
    InvAlways(threads, states, actions, i);
    StepActs(states[i], actions[i]);
  }

  lemma StepActs(s: State, a: Action)
    requires Inv(s) && Enabled(s, a)
    ensures var n := Apply(s, a);
            if a.Screen? && HasOwnReply(s) then
              var p := s.worker.prompt;
              && n.acts == s.acts + [Act(p, p)] && n.slot == s.slot && n.queue == s.queue
              && (if p.kind == Browser && a.page == More then n.worker == Top(p) && n.skipped == 0
                  else if p.kind == Browser && a.page == Finished then n.worker == Settling(p)
                  else n.worker == Native)
            else n.acts == s.acts
  {
    hide SkipInv, ReplyInv, ActInv, LockInv, CancelInv;
  }

  /**
   What becomes of every other reply: one of another browser transaction is always passed over,
   and counted; one of another form or certificate ends the wait.
   */
  lemma OtherRepliesAreNotActedOn(threads: nat, states: seq<State>, actions: seq<Action>, i: nat)
    requires IsRun(threads, states, actions) && i < |actions| && actions[i].Screen?
    requires states[i].worker.Screening? && !HasOwnReply(states[i])
    ensures var (Screening(prompt, reply), n) := (states[i].worker, states[i + 1]);
            if reply.kind == Browser then
              n.worker == Top(prompt) && n.skipped == states[i].skipped + (if reply == prompt then 0 else 1)
            else n.worker == Native
  {
    assert Enabled(states[i], actions[i]);
    InvAlways(threads, states, actions, i);
    OtherReply(states[i], actions[i]);
  }

  lemma OtherReply(s: State, a: Action)
    requires Inv(s) && Enabled(s, a) && a.Screen? && s.worker.Screening? && !HasOwnReply(s)
    ensures var (Screening(prompt, reply), n) := (s.worker, Apply(s, a));
            if reply.kind == Browser then
              n.worker == Top(prompt) && n.skipped == s.skipped + (if reply == prompt then 0 else 1)
            else n.worker == Native
  {
    hide SkipInv, ReplyInv, ActInv, LockInv, CancelInv;
  }

  // ---------------------------------------------------------------- cancellation is the only Cancel

  ghost predicate CancelsAreFlagged(s: State) {
    Cancel in s.queue ==> s.cancelled
  }

  lemma {:induction false} CancelsAlwaysFlagged(threads: nat, states: seq<State>, actions: seq<Action>, i: nat)
    requires IsRun(threads, states, actions) && i < |states|
    ensures CancelsAreFlagged(states[i])
  {
    hide Apply, Enabled;
    if i > 0 {
      CancelsAlwaysFlagged(threads, states, actions, i - 1);
      InvAlways(threads, states, actions, i - 1);
      FlaggedStep(states[i - 1], actions[i - 1]);
    }
  }

  lemma FlaggedStep(s: State, a: Action)
    requires Inv(s) && CancelsAreFlagged(s) && Enabled(s, a)
    ensures CancelsAreFlagged(Apply(s, a))
  {
    hide SkipInv, ReplyInv, ActInv, LockInv, SlotInv;
  }

  // ---------------------------------------------------------------- a pending answer

  /** Where the first reply to the prompt stands in the queue, its length if there is none. */
  function Index(queue: seq<Response>, p: Prompt): (i: nat)
    ensures i <= |queue|
    ensures i < |queue| ==> queue[i] == Reply(p)
    ensures forall j :: 0 <= j < i ==> queue[j] != Reply(p)
  {
    if queue == [] || queue[0] == Reply(p) then 0 else 1 + Index(queue[1..], p)
  }

  predicate InHand(s: State, p: Prompt) {
    (s.worker.Received? || s.worker.Screening?) && s.worker.reply == p
  }

  /** No reply to another form or certificate is on its way to the worker. */
  ghost predicate NoOlderReply(s: State, p: Prompt) {
    && (forall k :: 0 <= k < |s.queue| && s.queue[k].Reply? && s.queue[k].to.kind != Browser ==> s.queue[k].to == p)
    && (s.worker.Received? || s.worker.Screening? ==> s.worker.reply.kind == Browser || s.worker.reply == p)
  }

  predicate WaitsOn(s: State, p: Prompt) {
    Waits(s.worker) && s.worker.prompt == p
  }

  /** The worker waits on the form or certificate, and its answer is queued or in hand. */
  ghost predicate Pending(s: State, p: Prompt) {
    && p.kind != Browser && WaitsOn(s, p) && NoOlderReply(s, p)
    && (InHand(s, p) || Reply(p) in s.queue)
  }

  /** Worker actions until the answer is acted on. */
  function Left(s: State, p: Prompt): nat
    requires Waits(s.worker)
  {
    if InHand(s, p) then (if s.worker.Received? then 2 else 1)
    else
      4 * Index(s.queue, p)
      + match s.worker
        case Receiving(_) => 3
        case Top(_) => 4
        case Screening(_, _) => 5
        case _ => 6
  }

  lemma {:induction false} IndexAppend(queue: seq<Response>, r: Response, p: Prompt)
    requires Reply(p) in queue
    ensures Index(queue + [r], p) == Index(queue, p)
  {
    if queue[0] != Reply(p) {
      assert (queue + [r])[1..] == queue[1..] + [r];
      IndexAppend(queue[1..], r, p);
    }
  }

  ghost predicate Acted(s: State, n: State, p: Prompt) {
    n.acts == s.acts + [Act(p, p)] && !Waits(n.worker)
  }

  /** A step of a wait with its answer pending: it comes closer to the answer or acts on it. */
  ghost predicate ComesCloser(s: State, a: Action, n: State, p: Prompt)
    requires Waits(s.worker)
  {
    || Acted(s, n, p)
    || (Pending(n, p) && n.acts == s.acts && Left(n, p) + (if IsWorkerAction(a) then 1 else 0) <= Left(s, p))
  }

  lemma QueueGrows(s: State, a: Action)
    requires Enabled(s, a) && !IsWorkerAction(a)
    ensures var n := Apply(s, a);
            && n.worker == s.worker && n.acts == s.acts
            && (n.queue == s.queue || (a.SendCancel? && n.queue == s.queue + [Cancel])
                || (a.Send? && s.slot.Some? && n.queue == s.queue + [Reply(s.slot.value)]))
  {
  }

  lemma ControlComesCloser(s: State, a: Action, p: Prompt)
    requires Inv(s) && Enabled(s, a) && !IsWorkerAction(a) && Pending(s, p)
    ensures ComesCloser(s, a, Apply(s, a), p)
  {
    QueueGrows(s, a);
    hide Apply, Enabled, SkipInv, ReplyInv, ActInv, LockInv, CancelInv;
    var n := Apply(s, a);
    if n.queue != s.queue {
      if Reply(p) in s.queue {
        IndexAppend(s.queue, n.queue[|s.queue|], p);
      }
      assert forall r :: r in s.queue ==> r in n.queue;
    }
  }

  lemma ReceiveComesCloser(s: State, p: Prompt)
    requires Enabled(s, Receive) && Pending(s, p) && !s.cancelled && CancelsAreFlagged(s)
    ensures ComesCloser(s, Receive, Apply(s, Receive), p)
  {
    var n := Apply(s, Receive);
    assert s.queue[0] in s.queue;
    if s.queue[0] != Reply(p) {
      assert Index(s.queue, p) == 1 + Index(n.queue, p);
      assert Reply(p) in n.queue;
    }
  }

  lemma WorkerComesCloser(s: State, a: Action, p: Prompt)
    requires Inv(s) && Enabled(s, a) && IsWorkerAction(a) && !a.Receive? && !a.Timeout?
    requires Pending(s, p) && !s.cancelled
    ensures ComesCloser(s, a, Apply(s, a), p)
  {
    hide SkipInv, ReplyInv, ActInv, LockInv, CancelInv;
  }

  lemma PendingStep(s: State, a: Action, p: Prompt)
    requires Inv(s) && CancelsAreFlagged(s) && Enabled(s, a) && Pending(s, p) && !s.cancelled && !a.Timeout?
    ensures ComesCloser(s, a, Apply(s, a), p)
  {
    if a.Receive? {
      ReceiveComesCloser(s, p);
    } else if IsWorkerAction(a) {
      WorkerComesCloser(s, a, p);
    } else {
      ControlComesCloser(s, a, p);
    }
  }

  /** Nobody cancels and the wait does not run out between two moments. */
  ghost predicate Undisturbed(states: seq<State>, actions: seq<Action>, i: nat, j: nat)
    requires i <= j < |states| && j <= |actions|
  {
    && (forall k :: i <= k < j ==> !actions[k].Timeout?)
    && (forall k :: i <= k < j ==> !states[k].cancelled)
  }

  /**
   An answer to a form or certificate that is on its way is acted on, and nothing else is,
   within at most 38 steps of the worker, if nobody cancels, the wait does not run out and
   no older reply of a form or certificate is in the queue before it.
   */
  lemma {:induction false} AnswerIsActedOn(threads: nat, states: seq<State>, actions: seq<Action>, i: nat, j: nat,
                                           p: Prompt)
    requires IsRun(threads, states, actions) && i <= j < |states|
    requires Pending(states[i], p) && Undisturbed(states, actions, i, j)
    ensures if forall k :: i <= k <= j ==> Waits(states[k].worker) then
              && Pending(states[j], p) && states[j].acts == states[i].acts
              && WorkerActions(actions[i..j]) + Left(states[j], p) <= Left(states[i], p) <= 38
            else
              exists k :: i < k <= j && Acted(states[i], states[k], p)
                          && forall m :: i <= m < k ==> Waits(states[m].worker)
    decreases j
  {
    hide Apply, Enabled, Inv, Pending, ComesCloser, Left;
    if i == j {
      assert actions[i..j] == [];
      InvAlways(threads, states, actions, i);
      LeftBound(states[i], p);
    } else {
      AnswerIsActedOn(threads, states, actions, i, j - 1, p);
      if forall k :: i <= k <= j - 1 ==> Waits(states[k].worker) {
        InvAlways(threads, states, actions, j - 1);
        CancelsAlwaysFlagged(threads, states, actions, j - 1);
        PendingStep(states[j - 1], actions[j - 1], p);
        assert actions[i..j][..j - i - 1] == actions[i..j - 1];
        CloserMeans(states[j - 1], actions[j - 1], states[j], p);
        if !Waits(states[j].worker) {
          assert Acted(states[i], states[j], p);
        }
      }
    }
  }

  lemma LeftBound(s: State, p: Prompt)
    requires Inv(s) && Pending(s, p)
    ensures Waits(s.worker) && Left(s, p) <= 38
  {
  }

  lemma CloserMeans(s: State, a: Action, n: State, p: Prompt)
    requires Waits(s.worker) && ComesCloser(s, a, n, p)
    ensures if Waits(n.worker) then
              && Pending(n, p) && n.acts == s.acts
              && Left(n, p) + (if IsWorkerAction(a) then 1 else 0) <= Left(s, p)
            else Acted(s, n, p)
  {
  }

  /** An accepted reply is such an answer from its acceptance on, and a worker in its receive can take it. */
  lemma AcceptedReplyIsPending(threads: nat, states: seq<State>, actions: seq<Action>, i: nat, p: Prompt)
    requires IsRun(threads, states, actions) && i < |actions| && p.kind != Browser
    requires Accepts(states[i], actions[i], p) && WaitsOn(states[i], p) && NoOlderReply(states[i], p)
    ensures Pending(states[i + 1], p)
    ensures states[i + 1].worker.Receiving? ==> Enabled(states[i + 1], Receive)
  {
    QueueGrows(states[i], actions[i]);
    var (s, n) := (states[i], states[i + 1]);
    assert n.queue[|s.queue|] == Reply(p);
    assert forall k :: 0 <= k < |s.queue| ==> n.queue[k] == s.queue[k];
  }

  // ---------------------------------------------------------------- calls of the other threads

  /** The flag is set: its Cancel was attempted, or the thread that set it is about to. */
  ghost predicate CancelIsUnderWay(s: State) {
    s.cancelled ==> s.attempted || exists t :: 0 <= t < |s.controls| && s.controls[t].Flagged?
  }

  /** No cancellation stops at the flag: its send was attempted, or one of the threads is enabled to. */
  lemma {:induction false} CancelIsAttempted(threads: nat, states: seq<State>, actions: seq<Action>, i: nat)
    requires IsRun(threads, states, actions) && i < |states|
    ensures CancelIsUnderWay(states[i])
  {
    hide Apply, Enabled;
    if i > 0 {
      CancelIsAttempted(threads, states, actions, i - 1);
      UnderWayStep(states[i - 1], actions[i - 1]);
    }
  }

  lemma UnderWayStep(s: State, a: Action)
    requires CancelIsUnderWay(s) && Enabled(s, a)
    ensures CancelIsUnderWay(Apply(s, a))
  {
    FlaggedStays(s, a);
    hide Apply;
  }

  lemma FlaggedStays(s: State, a: Action)
    requires Enabled(s, a)
    ensures var n := Apply(s, a);
            && (s.attempted || a.SendCancel? ==> n.attempted) && |n.controls| == |s.controls|
            && (a.StartCancel? && !s.cancelled ==> a.t < |n.controls| && n.controls[a.t].Flagged?)
            && (!a.StartCancel? ==> n.cancelled == s.cancelled)
            && (!a.SendCancel? ==>
                  forall t :: 0 <= t < |s.controls| && s.controls[t].Flagged? ==> n.controls[t].Flagged?)
  {
  }

  /** A reply call that has not read the flag before it is set is never accepted. */
  lemma {:induction false} RepliesAfterCancelAreRefused(
    threads: nat, states: seq<State>, actions: seq<Action>, i: nat, j: nat, t: nat)
    requires IsRun(threads, states, actions) && i <= j < |states| && t < |states[i].controls|
    requires states[i].cancelled && !states[i].controls[t].Checked?
    ensures t < |states[j].controls| && !states[j].controls[t].Checked?
    ensures j < |actions| && actions[j].Send? ==> actions[j].t != t
    decreases j - i
  {
    if j < |actions| {
      assert Enabled(states[j], actions[j]);
    }
    if i < j {
      RepliesAfterCancelAreRefused(threads, states, actions, i, j - 1, t);
      FlagStays(threads, states, actions, i, j - 1);
      assert Enabled(states[j - 1], actions[j - 1]);
      UncheckedStep(states[j - 1], actions[j - 1], t);
    }
  }

  lemma UncheckedStep(s: State, a: Action, t: nat)
    requires Enabled(s, a) && s.cancelled && t < |s.controls| && !s.controls[t].Checked?
    ensures var n := Apply(s, a);
            t < |n.controls| && !n.controls[t].Checked?
  {
  }

  /** Once the worker has dropped its receiver, nothing is queued any more. */
  lemma {:induction false} NothingIsQueuedAfterDrop(threads: nat, states: seq<State>, actions: seq<Action>, i: nat,
                                                    j: nat)
    requires IsRun(threads, states, actions) && i <= j < |states| && !Connected(states[i])
    ensures !Connected(states[j]) && states[j].queue == states[i].queue
    decreases j - i
  {
    if i < j {
      NothingIsQueuedAfterDrop(threads, states, actions, i, j - 1);
      assert Enabled(states[j - 1], actions[j - 1]);
      DroppedStep(states[j - 1], actions[j - 1]);
    }
  }

  lemma DroppedStep(s: State, a: Action)
    requires Enabled(s, a) && !Connected(s)
    ensures !Connected(Apply(s, a)) && Apply(s, a).queue == s.queue
  {
  }

  /** The states a valid call for the prompt passes through when no other thread steps in. */
  function Calling(s: State, t: nat, p: Prompt, stage: Control): State
    requires t < |s.controls|
  {
    s.(controls := s.controls[t := stage], holder := if stage.Waiting? then s.holder else Some(t))
  }

  /**
   A valid reply is accepted: in every state of a run in which the prompt is open, nobody
   cancelled, the lock is free and the queue has room, an idle thread that calls with it goes
   through its steps one after another and queues it, and takes a form or certificate out of the slot.
   */
  lemma ReplyIsAccepted(threads: nat, states: seq<State>, actions: seq<Action>, i: nat, t: nat, p: Prompt)
    requires IsRun(threads, states, actions) && i < |states| && t < |states[i].controls|
    requires states[i].controls[t].Idle? && states[i].holder.None? && !states[i].cancelled
    requires states[i].slot == Some(p) && |states[i].queue| < CAPACITY && Connected(states[i])
    ensures var (s, call) := (states[i], Call(p, true));
            var (waiting, holding, checked) :=
              (Calling(s, t, p, Waiting(call)), Calling(s, t, p, Holding(call)), Calling(s, t, p, Checked(call)));
            && Enabled(s, StartReply(t, call)) && Apply(s, StartReply(t, call)) == waiting
            && Enabled(waiting, Acquire(t)) && Apply(waiting, Acquire(t)) == holding
            && Enabled(holding, ReadFlag(t)) && Apply(holding, ReadFlag(t)) == checked
            && Enabled(checked, Send(t)) && Apply(checked, Send(t)).queue == s.queue + [Reply(p)]
            && (p.kind != Browser ==>
                  Enabled(Apply(checked, Send(t)), ClearSlot(t))
                  && Apply(Apply(checked, Send(t)), ClearSlot(t)).slot.None?)
  {
    var (s, call) := (states[i], Call(p, true));
    var (waiting, holding) := (Calling(s, t, p, Waiting(call)), Calling(s, t, p, Holding(call)));
    assert waiting.controls[t := Holding(call)] == holding.controls;
    assert holding.controls[t := Checked(call)] == Calling(s, t, p, Checked(call)).controls;
  }
}
