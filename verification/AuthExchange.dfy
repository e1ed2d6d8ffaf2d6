/**
 The hand-over between control threads and the authentication worker
 (`crates/engine/src/auth.rs`): one pending-prompt slot behind a lock, one cancel flag,
 one queue of eight responses.

 Every atomic access of the source is one action; any number of control threads
 interleave with the worker. The lock is held across several actions by a replying
 thread, and for a single action by `cancel` and by the worker.
 */
module AuthExchange {
  import opened Common

  const CAPACITY: nat := 8

  datatype Kind = Form | Certificate | Browser

  /** A prompt or browser transaction; ids are fresh for every one. */
  datatype Prompt = Prompt(id: nat, kind: Kind)

  datatype Response = Reply(to: Prompt) | Cancel

  /** A call of `reply`, `certificate_reply` or `browser_reply`. `valid`: the payload checks pass. */
  datatype Call = Call(to: Prompt, valid: bool)

  datatype Control =
    | Idle
    | Waiting(call: Call)    // wants the slot lock
    | Holding(call: Call)    // has it, has not read the flag
    | Checked(call: Call)    // read the flag as false
    | Sent(call: Call)       // queued the response, has not cleared the slot
    | Flagged                // in `cancel`, set the flag first
    | Clearing               // in `cancel`, about to clear the slot

  datatype Worker =
    | Native                                    // inside the library
    | Publishing(prompt: Prompt)                // about to fill the slot
    | Top(prompt: Prompt)                       // top of the `wait_for` loop
    | Receiving(prompt: Prompt)
    | Received(prompt: Prompt, reply: Prompt)   // has not re-read the flag
    | Screening(prompt: Prompt, reply: Prompt)  // re-read the flag as false
    | Settling(prompt: Prompt)                  // browser transaction finished, slot not cleared
    | Dropped                                   // receiver gone, slot not cleared
    | Gone

  datatype Act = Act(prompt: Prompt, reply: Prompt)

  /** `attempted`: `cancel` has tried its send. The last four fields are history. */
  datatype State = State(
    cancelled: bool, attempted: bool, queue: seq<Response>, slot: Option<Prompt>, holder: Option<nat>,
    controls: seq<Control>, worker: Worker, nextId: nat,
    accepted: set<nat>, consumed: set<nat>, acts: seq<Act>, skipped: nat)

  function Init(threads: nat): State {
    State(false, false, [], None, None, seq(threads, i => Idle), Native, 0, {}, {}, [], 0)
  }

  /** What native code makes of a browser reply: ask for another page, finish, or fail. */
  datatype PageOutcome = More | Finished | Failed

  datatype Action =
    | StartReply(t: nat, call: Call)
    | Acquire(t: nat)
    | ReadFlag(t: nat)
    | Send(t: nat)
    | ClearSlot(t: nat)
    | StartCancel(t: nat)
    | SendCancel(t: nat)
    | FinishCancel(t: nat)
    | Begin(kind: Kind)
    | Publish
    | CheckTop
    | Receive
    | Timeout
    | Recheck
    | Screen(page: PageOutcome)
    | Settle
    | Drop
    | Leave

  predicate IsWorkerAction(a: Action) {
    a.Begin? || a.Publish? || a.CheckTop? || a.Receive? || a.Timeout? || a.Recheck? || a.Screen? || a.Settle?
    || a.Drop? || a.Leave?
  }

  predicate Enabled(s: State, a: Action) {
    match a
    case StartReply(t, _) => t < |s.controls| && s.controls[t].Idle?
    case Acquire(t) => t < |s.controls| && s.controls[t].Waiting? && s.holder.None?
    case ReadFlag(t) => t < |s.controls| && s.controls[t].Holding?
    case Send(t) => t < |s.controls| && s.controls[t].Checked?
    case ClearSlot(t) => t < |s.controls| && s.controls[t].Sent?
    case StartCancel(t) => t < |s.controls| && s.controls[t].Idle?
    case SendCancel(t) => t < |s.controls| && s.controls[t].Flagged?
    case FinishCancel(t) => t < |s.controls| && s.controls[t].Clearing? && s.holder.None?
    case Begin(_) => s.worker.Native?
    case Publish => s.worker.Publishing? && s.holder.None?
    case CheckTop => s.worker.Top?
    case Receive => s.worker.Receiving? && s.queue != []
    case Timeout => s.worker.Receiving?
    case Recheck => s.worker.Received?
    case Screen(_) => s.worker.Screening? && (s.worker.reply.kind == Browser ==> s.holder.None?)
    case Settle => s.worker.Settling? && s.holder.None?
    case Drop => s.worker.Native?
    case Leave => s.worker.Dropped? && s.holder.None?
  }

  predicate Connected(s: State) {
    !s.worker.Dropped? && !s.worker.Gone?
  }

  function Unlock(s: State, t: nat): State
    requires t < |s.controls|
  {
    s.(holder := None, controls := s.controls[t := Idle])
  }

  /** The slot check, the queue and the three refusals of a replying thread. */
  function SendReply(s: State, t: nat, call: Call): State
    requires t < |s.controls|
  {
    if s.slot != Some(call.to) || !call.valid || !Connected(s) || |s.queue| >= CAPACITY then Unlock(s, t)
    else
      var queued := s.(queue := s.queue + [Reply(call.to)]);
      if call.to.kind == Browser then Unlock(queued, t)
      else queued.(controls := s.controls[t := Sent(call)], accepted := s.accepted + {call.to.id})
  }

  function SkipReply(s: State): State
    requires s.worker.Screening?
  {
    s.(worker := Top(s.worker.prompt),
    skipped := if s.worker.reply == s.worker.prompt then s.skipped else s.skipped + 1)
  }

  /** What the waiting callback does with a reply `wait_for` returned. */
  function UseReply(s: State, page: PageOutcome): State
    requires s.worker.Screening?
  {
    var Screening(prompt, reply) := s.worker;
    var taken := if reply.kind == Browser then s else s.(consumed := s.consumed + {reply.id});
    if reply == prompt then
      taken.(acts := s.acts + [Act(prompt, reply)],
      worker := if prompt.kind != Browser || page == Failed then Native
      else if page == More then Top(prompt) else Settling(prompt),
      skipped := if prompt.kind == Browser && page == More then 0 else s.skipped)
    else if reply.kind == Browser && prompt.kind == Browser then taken.(worker := Top(prompt), skipped := 0)
    else taken.(worker := Native)
  }

  function Apply(s: State, a: Action): State
    requires Enabled(s, a)
  {
    match a
    case StartReply(t, call) => s.(controls := s.controls[t := Waiting(call)])
    case Acquire(t) => s.(holder := Some(t), controls := s.controls[t := Holding(s.controls[t].call)])
    case ReadFlag(t) =>
      if s.cancelled then Unlock(s, t) else s.(controls := s.controls[t := Checked(s.controls[t].call)])
    case Send(t) => SendReply(s, t, s.controls[t].call)
    case ClearSlot(t) => Unlock(s.(slot := None), t)
    case StartCancel(t) =>
      s.(cancelled := true, controls := s.controls[t := if s.cancelled then Clearing else Flagged])
    case SendCancel(t) =>
      s.(attempted := true, controls := s.controls[t := Clearing],
      queue := if |s.queue| < CAPACITY && Connected(s) then s.queue + [Cancel] else s.queue)
    case FinishCancel(t) => s.(slot := None, controls := s.controls[t := Idle])
    case Begin(kind) => s.(worker := Publishing(Prompt(s.nextId, kind)), nextId := s.nextId + 1)
    case Publish => s.(slot := Some(s.worker.prompt), worker := Top(s.worker.prompt), skipped := 0)
    case CheckTop => s.(worker := if s.cancelled then Native else Receiving(s.worker.prompt))
    case Receive =>
      var r := s.queue[0];
      s.(queue := s.queue[1..],
      worker := if r.Cancel? then Native else Received(s.worker.prompt, r.to))
    case Timeout => s.(worker := Native)
    case Recheck =>
      if s.cancelled then
        s.(worker := Native,
        consumed := if s.worker.reply.kind == Browser then s.consumed else s.consumed + {s.worker.reply.id})
      else s.(worker := Screening(s.worker.prompt, s.worker.reply))
    case Screen(page) =>
      if s.worker.reply.kind == Browser && s.slot != Some(s.worker.reply) then SkipReply(s) else UseReply(s, page)
    case Settle => s.(slot := None, worker := Native)
    case Drop => s.(worker := Dropped)
    case Leave => s.(slot := None, worker := Gone)
  }

  // ---------------------------------------------------------------- runs

  ghost predicate IsRun(threads: nat, states: seq<State>, actions: seq<Action>) {
    && |states| == |actions| + 1
    && states[0] == Init(threads)
    && forall i :: 0 <= i < |actions| ==>
                     Enabled(states[i], actions[i]) && states[i + 1] == Apply(states[i], actions[i])
  }

  // ---------------------------------------------------------------- the invariant

  predicate HoldsLock(c: Control) {
    c.Holding? || c.Checked? || c.Sent?
  }

  ghost predicate LockInv(s: State) {
    && (s.holder.Some? ==> s.holder.value < |s.controls|)
    && (forall t :: 0 <= t < |s.controls| ==> (HoldsLock(s.controls[t]) <==> s.holder == Some(t)))
    && (forall t :: 0 <= t < |s.controls| && s.controls[t].Sent? ==>
                      s.slot == Some(s.controls[t].call.to) && s.controls[t].call.to.kind != Browser)
  }

  predicate Waits(w: Worker) {
    w.Top? || w.Receiving? || w.Received? || w.Screening?
  }

  /** Cancellation: once its send was attempted, a receiving worker has something to receive. */
  ghost predicate CancelInv(s: State) {
    && |s.queue| <= CAPACITY
    && (s.attempted ==> s.cancelled)
    && (s.attempted && s.worker.Receiving? ==> s.queue != [])
    && (forall t :: 0 <= t < |s.controls| && (s.controls[t].Flagged? || s.controls[t].Clearing?) ==> s.cancelled)
  }

  predicate Counted(s: State, id: nat) {
    id in s.accepted && id !in s.consumed
  }

  /** A queued or received reply to a form or certificate is its prompt's only one. */
  ghost predicate ReplyInv(s: State) {
    && (forall i :: 0 <= i < |s.queue| && s.queue[i].Reply? && s.queue[i].to.kind != Browser ==>
                      Counted(s, s.queue[i].to.id))
    && (forall i, j :: 0 <= i < j < |s.queue| && s.queue[i].Reply? && s.queue[j].Reply?
                       && s.queue[i].to.kind != Browser && s.queue[j].to.kind != Browser ==>
                         s.queue[i].to.id != s.queue[j].to.id)
    && ((s.worker.Received? || s.worker.Screening?) && s.worker.reply.kind != Browser ==>
          && Counted(s, s.worker.reply.id)
          && forall i :: 0 <= i < |s.queue| && s.queue[i].Reply? && s.queue[i].to.kind != Browser ==>
                           s.queue[i].to.id != s.worker.reply.id)
    && s.consumed <= s.accepted
  }

  /** An accepted prompt has left the slot, or its thread is about to take it out. */
  ghost predicate SlotInv(s: State) {
    && (s.slot.Some? && s.slot.value.id in s.accepted ==>
          s.holder.Some? && s.holder.value < |s.controls| && s.controls[s.holder.value].Sent?)
    && (s.slot.Some? ==> s.slot.value.id < s.nextId)
    && (s.worker.Publishing? ==> s.worker.prompt.id < s.nextId && s.worker.prompt.id !in s.accepted)
    && (s.worker.Publishing? && s.slot.Some? ==> s.slot.value.id != s.worker.prompt.id)
    && (forall id :: id in s.accepted ==> id < s.nextId)
    && (Waits(s.worker) && s.slot.Some? ==> s.slot.value == s.worker.prompt)
  }

  ghost predicate ActInv(s: State) {
    && (forall k :: 0 <= k < |s.acts| ==>
                      s.acts[k].reply == s.acts[k].prompt
                      && (s.acts[k].prompt.kind != Browser ==> s.acts[k].prompt.id in s.consumed))
    && (forall j, k :: 0 <= j < k < |s.acts| && s.acts[j].prompt.kind != Browser && s.acts[k].prompt.kind != Browser ==>
                         s.acts[j].prompt.id != s.acts[k].prompt.id)
  }

  function Stale(queue: seq<Response>, p: Prompt): nat {
    if queue == [] then 0
    else (if queue[0].Reply? && queue[0].to.kind == Browser && queue[0].to != p then 1 else 0) + Stale(queue[1..], p)
  }

  function StaleInHand(w: Worker): nat
    requires Waits(w)
  {
    if (w.Received? || w.Screening?) && w.reply.kind == Browser && w.reply != w.prompt then 1 else 0
  }

  ghost predicate SkipInv(s: State) {
    Waits(s.worker) ==> s.skipped + StaleInHand(s.worker) + Stale(s.queue, s.worker.prompt) <= CAPACITY
  }

  ghost predicate Inv(s: State) {
    LockInv(s) && CancelInv(s) && ReplyInv(s) && SlotInv(s) && ActInv(s) && SkipInv(s)
  }

  // ---------------------------------------------------------------- preservation

  lemma {:induction false} StaleBound(queue: seq<Response>, p: Prompt)
    ensures Stale(queue, p) <= |queue|
  {
    if queue != [] {
      StaleBound(queue[1..], p);
    }
  }

  lemma {:induction false} StaleAppend(queue: seq<Response>, r: Response, p: Prompt)
    ensures Stale(queue + [r], p) == Stale(queue, p) + Stale([r], p)
  {
    if queue == [] {
      assert [] + [r] == [r];
    } else {
      assert (queue + [r])[1..] == queue[1..] + [r];
      StaleAppend(queue[1..], r, p);
    }
  }

  lemma StaleOne(r: Response, p: Prompt)
    ensures Stale([r], p) == if r.Reply? && r.to.kind == Browser && r.to != p then 1 else 0
  {
    assert [r][1..] == [];
  }

  lemma ControlKeepsLock(s: State, a: Action)
    requires LockInv(s) && SlotInv(s) && Enabled(s, a) && !IsWorkerAction(a)
    ensures LockInv(Apply(s, a))
  {
    hide SlotInv;
  }

  lemma WorkerKeepsLock(s: State, a: Action)
    requires LockInv(s) && Enabled(s, a) && IsWorkerAction(a)
    ensures LockInv(Apply(s, a))
  {
  }

  lemma KeepsCancel(s: State, a: Action)
    requires CancelInv(s) && Enabled(s, a)
    ensures CancelInv(Apply(s, a))
  {
  }

  /** The replies in the queue and in the worker's hand stay, or the one in hand is put down. */
  ghost predicate SameReplies(s: State, n: State) {
    && n.queue == s.queue && n.accepted == s.accepted && n.consumed == s.consumed
    && (n.worker.Received? || n.worker.Screening? ==>
          (s.worker.Received? || s.worker.Screening?) && n.worker.reply == s.worker.reply)
  }

  lemma MostKeepReplies(s: State, a: Action)
    requires Enabled(s, a) && !a.Send? && !a.SendCancel? && !a.Receive? && !a.Recheck? && !a.Screen?
    ensures SameReplies(s, Apply(s, a))
  {
  }

  lemma SameRepliesKeep(s: State, n: State)
    requires ReplyInv(s) && SameReplies(s, n)
    ensures ReplyInv(n)
  {
  }

  lemma SendKeepsReply(s: State, a: Action)
    requires LockInv(s) && SlotInv(s) && ReplyInv(s) && Enabled(s, a) && a.Send?
    ensures ReplyInv(Apply(s, a))
  {
    if s.slot == Some(s.controls[a.t].call.to) && s.slot.value.kind != Browser {
      assert s.slot.value.id !in s.accepted;
    }
    hide LockInv, SlotInv;
  }

  lemma SendCancelKeepsReply(s: State, a: Action)
    requires ReplyInv(s) && Enabled(s, a) && a.SendCancel?
    ensures ReplyInv(Apply(s, a))
  {
  }

  lemma ReceiveKeepsReply(s: State, a: Action)
    requires ReplyInv(s) && Enabled(s, a) && a.Receive?
    ensures ReplyInv(Apply(s, a))
  {
    assert forall i :: 0 <= i < |s.queue| - 1 ==> s.queue[1..][i] == s.queue[i + 1];
  }

  lemma UseKeepsReply(s: State, a: Action)
    requires ReplyInv(s) && Enabled(s, a) && (a.Recheck? || a.Screen?)
    ensures ReplyInv(Apply(s, a))
  {
  }

  lemma KeepsReply(s: State, a: Action)
    requires LockInv(s) && SlotInv(s) && ReplyInv(s) && Enabled(s, a)
    ensures ReplyInv(Apply(s, a))
  {
    hide Apply, LockInv, SlotInv, ReplyInv, SameReplies;
    if a.Send? {
      SendKeepsReply(s, a);
    } else if a.SendCancel? {
      SendCancelKeepsReply(s, a);
    } else if a.Receive? {
      ReceiveKeepsReply(s, a);
    } else if a.Recheck? || a.Screen? {
      UseKeepsReply(s, a);
    } else {
      MostKeepReplies(s, a);
      SameRepliesKeep(s, Apply(s, a));
    }
  }

  lemma ControlKeepsSlot(s: State, a: Action)
    requires LockInv(s) && SlotInv(s) && Enabled(s, a) && !IsWorkerAction(a)
    ensures SlotInv(Apply(s, a))
  {
  }

  lemma WorkerKeepsSlot(s: State, a: Action)
    requires LockInv(s) && SlotInv(s) && Enabled(s, a) && IsWorkerAction(a)
    ensures SlotInv(Apply(s, a))
  {
    hide LockInv;
  }

  lemma KeepsAct(s: State, a: Action)
    requires ReplyInv(s) && ActInv(s) && Enabled(s, a)
    ensures ActInv(Apply(s, a))
  {
    if a.Screen? {
      ScreenKeepsAct(s, a);
    } else {
      OthersKeepActs(s, a);
      hide Apply, ReplyInv;
    }
  }

  lemma OthersKeepActs(s: State, a: Action)
    requires Enabled(s, a) && !a.Screen?
    ensures Apply(s, a).acts == s.acts && s.consumed <= Apply(s, a).consumed
  {
  }

  lemma ScreenKeepsAct(s: State, a: Action)
    requires ReplyInv(s) && ActInv(s) && Enabled(s, a) && a.Screen?
    ensures ActInv(Apply(s, a))
  {
  }

  /** What one action does to the queue and the skips of a waiting worker. */
  lemma KeepsSkip(s: State, a: Action)
    requires Inv(s) && Enabled(s, a)
    ensures SkipInv(Apply(s, a))
  {
    hide Apply, LockInv, ReplyInv, ActInv, SlotInv;
    if IsWorkerAction(a) {
      WorkerKeepsSkip(s, a);
    } else {
      ControlKeepsSkip(s, a);
    }
  }

  lemma WorkerKeepsSkip(s: State, a: Action)
    requires CancelInv(s) && SlotInv(s) && SkipInv(s) && Enabled(s, a) && IsWorkerAction(a)
    ensures SkipInv(Apply(s, a))
  {
    var n := Apply(s, a);
    if Waits(n.worker) {
      StaleBound(n.queue, n.worker.prompt);
    }
  }

  lemma ControlKeepsSkip(s: State, a: Action)
    requires CancelInv(s) && SlotInv(s) && SkipInv(s) && Enabled(s, a) && !IsWorkerAction(a)
    ensures SkipInv(Apply(s, a))
  {
    hide Stale;
    var n := Apply(s, a);
    if Waits(n.worker) && |n.queue| > |s.queue| {
      var r, p := n.queue[|s.queue|], n.worker.prompt;
      StaleAppend(s.queue, r, p);
      StaleOne(r, p);
    }
  }

  lemma InvStep(s: State, a: Action)
    requires Inv(s) && Enabled(s, a)
    ensures Inv(Apply(s, a))
  {
    hide Apply, LockInv, CancelInv, ReplyInv, SlotInv, ActInv, SkipInv;
    if IsWorkerAction(a) {
      WorkerKeepsLock(s, a);
      WorkerKeepsSlot(s, a);
    } else {
      ControlKeepsLock(s, a);
      ControlKeepsSlot(s, a);
    }
    KeepsCancel(s, a);
    KeepsReply(s, a);
    KeepsAct(s, a);
    KeepsSkip(s, a);
  }

  /** Every state of every run, for any number of control threads. */
  lemma {:induction false} InvAlways(threads: nat, states: seq<State>, actions: seq<Action>, i: nat)
    requires IsRun(threads, states, actions) && i < |states|
    ensures Inv(states[i])
  {
    if i > 0 {
      InvAlways(threads, states, actions, i - 1);
      InvStep(states[i - 1], actions[i - 1]);
    }
  }

  // ---------------------------------------------------------------- cancellation

  /**
   Cancellation is not lost: once its send was attempted, even into a full queue, a
   worker in `wait_for` has a next action that needs no lock it could wait for, except
   the slot lock for a browser reply, and whoever holds that lock can go on; in particular
   the worker is never blocked in its receive.
   */
  lemma CancelIsNeverLost(threads: nat, states: seq<State>, actions: seq<Action>, i: nat)
    requires IsRun(threads, states, actions) && i < |states|
    requires states[i].attempted && Waits(states[i].worker)
    ensures states[i].worker.Receiving? ==> Enabled(states[i], Receive)
    ensures states[i].worker.Top? ==> Enabled(states[i], CheckTop)
    ensures states[i].worker.Received? ==> Enabled(states[i], Recheck)
    ensures states[i].worker.Screening? && states[i].holder.None? ==> Enabled(states[i], Screen(Finished))
    ensures states[i].holder.Some? ==>
              var t := states[i].holder.value;
              Enabled(states[i], ReadFlag(t)) || Enabled(states[i], Send(t)) || Enabled(states[i], ClearSlot(t))
  {
    InvAlways(threads, states, actions, i);
  }

  /** Worker actions left until `wait_for` returns, once the flag is set. */
  function Remaining(w: Worker): nat
    requires Waits(w)
  {
    if w.Top? || w.Received? then 1 else 2
  }

  function WorkerActions(actions: seq<Action>): nat {
    if actions == [] then 0
    else WorkerActions(actions[..|actions| - 1]) + (if IsWorkerAction(actions[|actions| - 1]) then 1 else 0)
  }

  lemma {:induction false} FlagStays(threads: nat, states: seq<State>, actions: seq<Action>, i: nat, j: nat)
    requires IsRun(threads, states, actions) && i <= j < |states|
    requires states[i].cancelled
    ensures states[j].cancelled
    decreases j - i
  {
    hide Apply, Enabled;
    if i < j {
      FlagStays(threads, states, actions, i, j - 1);
      CancelledStep(states[j - 1], actions[j - 1]);
    }
  }

  lemma CancelledStep(s: State, a: Action)
    requires Enabled(s, a) && s.cancelled
    ensures Apply(s, a).cancelled
    ensures !s.worker.Screening? ==> Apply(s, a).acts == s.acts && !Apply(s, a).worker.Screening?
    ensures Waits(s.worker) && Waits(Apply(s, a).worker) ==>
              (if IsWorkerAction(a) then 1 else 0) + Remaining(Apply(s, a).worker) <= Remaining(s.worker)
  {
  }

  /** A worker that waits while the flag is set leaves `wait_for` within two of its own actions. */
  lemma {:induction false} CancelReturnsSoon(threads: nat, states: seq<State>, actions: seq<Action>, i: nat, j: nat)
    requires IsRun(threads, states, actions) && i <= j < |states|
    requires states[i].cancelled
    requires forall k :: i <= k <= j ==> Waits(states[k].worker)
    ensures WorkerActions(actions[i..j]) + Remaining(states[j].worker) <= Remaining(states[i].worker)
    decreases j - i
  {
    hide Apply, Enabled;
    if i == j {
      assert actions[i..j] == [];
    } else {
      CancelReturnsSoon(threads, states, actions, i, j - 1);
      FlagStays(threads, states, actions, i, j - 1);
      CancelledStep(states[j - 1], actions[j - 1]);
      assert actions[i..j][..j - i - 1] == actions[i..j - 1];
    }
  }

  /** After the flag is set, no reply is acted on whose second flag check comes later. */
  lemma {:induction false} NoReplyAfterCancel(threads: nat, states: seq<State>, actions: seq<Action>, i: nat, j: nat)
    requires IsRun(threads, states, actions) && i <= j < |states|
    requires states[i].cancelled && !states[i].worker.Screening?
    ensures states[j].acts == states[i].acts && !states[j].worker.Screening?
    decreases j - i
  {
    hide Apply, Enabled;
    if i < j {
      NoReplyAfterCancel(threads, states, actions, i, j - 1);
      FlagStays(threads, states, actions, i, j - 1);
      CancelledStep(states[j - 1], actions[j - 1]);
    }
  }

  /** One wait skips at most as many replies to other browser transactions as the queue holds. */
  lemma SkipsAreBounded(threads: nat, states: seq<State>, actions: seq<Action>, i: nat)
    requires IsRun(threads, states, actions) && i < |states| && Waits(states[i].worker)
    ensures states[i].skipped <= CAPACITY
  {
    InvAlways(threads, states, actions, i);
  }

  // ---------------------------------------------------------------- replies

  /** The action queues a reply to the prompt. */
  predicate Accepts(s: State, a: Action, p: Prompt)
    requires Enabled(s, a)
  {
    a.Send? && s.controls[a.t].call.to == p && |Apply(s, a).queue| > |s.queue|
  }

  /** Publish made the prompt visible before step `m`. */
  ghost predicate PublishedBefore(states: seq<State>, actions: seq<Action>, m: nat, p: Prompt)
    requires m <= |actions| <= |states|
  {
    exists q :: 0 <= q < m && actions[q].Publish? && states[q].worker == Publishing(p)
  }

  /** Step `m` is a valid call naming the prompt that queues its reply while the published prompt is in the slot. */
  ghost predicate SentAt(states: seq<State>, actions: seq<Action>, m: nat, p: Prompt)
    requires m < |actions| <= |states|
  {
    && Enabled(states[m], actions[m]) && Accepts(states[m], actions[m], p)
    && states[m].controls[actions[m].t].call == Call(p, true) && Connected(states[m])
    && states[m].slot == Some(p) && PublishedBefore(states, actions, m, p)
  }

  ghost predicate WasSent(states: seq<State>, actions: seq<Action>, i: nat, p: Prompt)
    requires i <= |actions| <= |states|
  {
    exists m :: 0 <= m < i && SentAt(states, actions, m, p)
  }

  lemma {:induction false} SlotWasPublished(threads: nat, states: seq<State>, actions: seq<Action>, i: nat, p: Prompt)
    requires IsRun(threads, states, actions) && i < |states| && states[i].slot == Some(p)
    ensures PublishedBefore(states, actions, i, p)
  {
    if i > 0 {
      SlotStep(states[i - 1], actions[i - 1]);
      if states[i - 1].slot == Some(p) {
        hide Apply, Enabled;
        SlotWasPublished(threads, states, actions, i - 1, p);
      } else {
        hide Apply, Enabled;
        assert actions[i - 1].Publish? && states[i - 1].worker == Publishing(p);
      }
    }
  }

  lemma SlotStep(s: State, a: Action)
    requires Enabled(s, a)
    ensures var n := Apply(s, a);
            n.slot == s.slot || n.slot == None || (a.Publish? && n.slot == Some(s.worker.prompt))
    ensures a.Publish? ==> s.worker.Publishing?
  {
  }

  /** What one action makes of queued and received replies: only an accepting Send adds one. */
  ghost predicate NoNewReply(s: State, n: State, sent: Option<Prompt>) {
    && (forall k :: 0 <= k < |n.queue| && n.queue[k].Reply? ==> n.queue[k] in s.queue || sent == Some(n.queue[k].to))
    && ((n.worker.Received? || n.worker.Screening?) ==>
          Reply(n.worker.reply) in s.queue
          || ((s.worker.Received? || s.worker.Screening?) && n.worker.reply == s.worker.reply))
    && (forall k :: 0 <= k < |n.acts| ==>
                      n.acts[k] in s.acts || (s.worker.Screening? && n.acts[k].reply == s.worker.reply))
  }

  lemma ReplyStep(s: State, a: Action)
    requires Enabled(s, a)
    ensures NoNewReply(s, Apply(s, a),
                       if a.Send? && Accepts(s, a, s.controls[a.t].call.to)
                       then Some(s.controls[a.t].call.to) else None)
    ensures a.Send? && Accepts(s, a, s.controls[a.t].call.to) ==>
              s.slot == Some(s.controls[a.t].call.to) && s.controls[a.t].call.valid && Connected(s)
  {
  }

  /** Every reply the worker has acted on, holds or will receive was sent to its prompt. */
  ghost predicate AllWereSent(states: seq<State>, actions: seq<Action>, i: nat)
    requires i <= |actions| && |actions| < |states|
  {
    var s := states[i];
    && (forall k :: 0 <= k < |s.queue| && s.queue[k].Reply? ==> WasSent(states, actions, i, s.queue[k].to))
    && (s.worker.Received? || s.worker.Screening? ==> WasSent(states, actions, i, s.worker.reply))
    && (forall k :: 0 <= k < |s.acts| ==> WasSent(states, actions, i, s.acts[k].reply))
  }

  lemma SentStays(states: seq<State>, actions: seq<Action>, i: nat, p: Prompt)
    requires i < |actions| < |states| && WasSent(states, actions, i, p)
    ensures WasSent(states, actions, i + 1, p)
  {
  }

  lemma {:induction false} RepliesWereSent(threads: nat, states: seq<State>, actions: seq<Action>, i: nat)
    requires IsRun(threads, states, actions) && i < |states|
    ensures AllWereSent(states, actions, i)
  {
    if i > 0 {
      var s, a, n := states[i - 1], actions[i - 1], states[i];
      RepliesWereSent(threads, states, actions, i - 1);
      ReplyStep(s, a);
      if a.Send? && Accepts(s, a, s.controls[a.t].call.to) {
        var p := s.controls[a.t].call.to;
        SlotWasPublished(threads, states, actions, i - 1, p);
        assert SentAt(states, actions, i - 1, p);
      }
      hide Apply, Enabled, SentAt, Accepts;
      AllStay(states, actions, i);
    }
  }

  lemma AllStay(states: seq<State>, actions: seq<Action>, i: nat)
    requires 0 < i <= |actions| < |states| && AllWereSent(states, actions, i - 1)
    requires Enabled(states[i - 1], actions[i - 1])
    requires var s, a := states[i - 1], actions[i - 1];
             var accepts := a.Send? && Accepts(s, a, s.controls[a.t].call.to);
             && NoNewReply(s, states[i], if accepts then Some(s.controls[a.t].call.to) else None)
             && (accepts ==> SentAt(states, actions, i - 1, s.controls[a.t].call.to))
    ensures AllWereSent(states, actions, i)
  {
    hide Apply, Accepts, SentAt, Enabled;
    forall p | WasSent(states, actions, i - 1, p)
      ensures WasSent(states, actions, i, p)
    {
      SentStays(states, actions, i - 1, p);
    }
  }

  /**
   The worker acts only on a reply to the very prompt it shows, at most once on a form or
   certificate prompt, whatever stale entries timeouts left in the queue; and each such
   reply was sent by a call naming that prompt, after its publication and while it stood in
   the slot.
   */
  lemma ActsOnlyOnOwnReply(threads: nat, states: seq<State>, actions: seq<Action>, i: nat)
    requires IsRun(threads, states, actions) && i < |states|
    ensures forall k :: 0 <= k < |states[i].acts| ==>
                          states[i].acts[k].reply == states[i].acts[k].prompt
                          && WasSent(states, actions, i, states[i].acts[k].prompt)
    ensures forall j, k :: 0 <= j < k < |states[i].acts|
                           && states[i].acts[j].prompt.kind != Browser && states[i].acts[k].prompt.kind != Browser ==>
                             states[i].acts[j].prompt != states[i].acts[k].prompt
  {
    hide Apply, Enabled, WasSent;
    InvAlways(threads, states, actions, i);
    RepliesWereSent(threads, states, actions, i);
  }

  lemma {:induction false} AcceptedStays(threads: nat, states: seq<State>, actions: seq<Action>, i: nat, j: nat,
                                         id: nat)
    requires IsRun(threads, states, actions) && i <= j < |states|
    requires id in states[i].accepted
    ensures id in states[j].accepted
    decreases j - i
  {
    if i < j {
      AcceptedStays(threads, states, actions, i, j - 1, id);
    }
  }

  /** In every interleaving a form or certificate prompt accepts at most one reply. */
  lemma AtMostOneReply(threads: nat, states: seq<State>, actions: seq<Action>, i: nat, j: nat, p: Prompt)
    requires IsRun(threads, states, actions) && i < j < |actions| && p.kind != Browser
    requires Accepts(states[i], actions[i], p)
    ensures !Accepts(states[j], actions[j], p)
  {
    AcceptedStays(threads, states, actions, i + 1, j, p.id);
    InvAlways(threads, states, actions, j);
  }

  /** The prompt stands in the slot and nobody has queued a reply to it. */
  ghost predicate Open(s: State, p: Prompt) {
    s.slot == Some(p) && forall t :: 0 <= t < |s.controls| ==> !s.controls[t].Sent?
  }

  lemma OpenStays(s: State, a: Action, p: Prompt)
    requires Inv(s) && Enabled(s, a) && Open(s, p) && p.kind != Browser
    requires Waits(s.worker) && Waits(Apply(s, a).worker) && !s.cancelled && !Accepts(s, a, p)
    ensures Open(Apply(s, a), p)
  {
    hide SkipInv, ReplyInv, ActInv;
  }

  lemma RefusalLeavesOpen(s: State, a: Action, p: Prompt)
    requires Inv(s) && Enabled(s, a) && a.Send? && s.slot == Some(p) && |s.queue| >= CAPACITY
    ensures Open(s, p) && Open(Apply(s, a), p) && !Accepts(s, a, p)
  {
    hide SkipInv, ReplyInv, ActInv;
    assert s.holder == Some(a.t);
    assert forall t :: 0 <= t < |s.controls| && s.controls[t].Sent? ==> HoldsLock(s.controls[t]);
  }

  /**
   A refusal for a full queue costs the prompt nothing: as long as the worker waits for it,
   nobody cancels and no other reply to it was accepted, the prompt stays in the slot with
   no reply accepted, and every later valid call naming it is accepted exactly when the
   queue has room.
   */
  lemma {:induction false} BusyLeavesPromptAnswerable(
    threads: nat, states: seq<State>, actions: seq<Action>, i: nat, j: nat, p: Prompt)
    requires IsRun(threads, states, actions) && i < j < |states| && actions[i].Send? && p.kind != Browser
    requires states[i].slot == Some(p) == Some(states[i].controls[actions[i].t].call.to)
             && |states[i].queue| >= CAPACITY
    requires forall k :: i <= k <= j ==> Waits(states[k].worker)
    requires !states[j].cancelled
    requires forall k :: i < k < j ==> !Accepts(states[k], actions[k], p)
    ensures Open(states[j], p) && p.id !in states[j].accepted
    ensures j < |actions| && actions[j].Send? && states[j].controls[actions[j].t].call.to == p
            && states[j].controls[actions[j].t].call.valid ==>
              (Accepts(states[j], actions[j], p) <==> |states[j].queue| < CAPACITY)
    decreases j
  {
    hide Apply, Enabled, Inv, Open, Accepts;
    InvAlways(threads, states, actions, j - 1);
    InvAlways(threads, states, actions, j);
    assert Open(states[j], p) by {
      if j == i + 1 {
        RefusalLeavesOpen(states[i], actions[i], p);
      } else {
        if states[j - 1].cancelled {
          FlagStays(threads, states, actions, j - 1, j);
        }
        BusyLeavesPromptAnswerable(threads, states, actions, i, j - 1, p);
        OpenStays(states[j - 1], actions[j - 1], p);
      }
    }
    OpenIsAnswerable(states[j], p);
  }

  lemma OpenIsAnswerable(s: State, p: Prompt)
    requires Inv(s) && Open(s, p) && Waits(s.worker)
    ensures p.id !in s.accepted
    ensures forall a: Action :: Enabled(s, a) && a.Send? && s.controls[a.t].call == Call(p, true) ==>
                                  (Accepts(s, a, p) <==> |s.queue| < CAPACITY)
  {
    hide SkipInv, ReplyInv, ActInv;
  }
}
