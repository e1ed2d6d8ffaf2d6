/**
 The browser transaction (`Flow` in `crates/client/src/browser.rs`): callbacks and pages
 are turned into a pending completion, the user confirms it, and one page goes to native
 code. Any number of flows share one replay ledger.
 */
module BrowserFlow {
  import opened Common
  import opened CompletionResult
  import opened PageCompletion
  import opened ReplayLedger

  const MAX_ACCOUNT: nat := 4096

  datatype Kind = Webview | External

  datatype Mode = System | Embedded | Manual

  /** `gp`: the protocol is GlobalProtect. */
  datatype Request = Request(gp: bool, kind: Kind, mode: Mode)

  datatype Stage = Opening | Waiting | ManualInput | ConfirmAccount

  datatype Effect =
    | OpenedReply
    | Prompt(stage: Stage, account: Option<string>)
    | Submit(completion: GpCompletion)
      // A page of another protocol, without its document.
    | Forward(headers: seq<Header>)
    | CancelNative

  /** What the world answers while one call runs: the native reply, the prompt queue, the ledger write. */
  datatype Env = Env(native: Option<ErrorCode>, promptFull: bool, now: nat, write: FileWrite)

  datatype Input =
    | Opened
      // What `decode_callback` makes of the callback address.
    | Callback(decoded: Result<Document>)
    | Confirm(accepted: bool)
      // `valid`: what the page's own checks against the expected origin answer.
    | PageArrived(page: Page, valid: Result<()>)

  datatype State = State(pending: Option<GpCompletion>, submitted: bool, shown: bool)

  const START: State := State(None, false, false)

  /** A call of a flow: its new state, the claim it made, what left it, and its answer. */
  datatype Reaction = Reaction(state: State, claim: Option<Claim>, effects: seq<Effect>, result: Result<()>)

  function Prompted(state: State, claim: Option<Claim>, effects: seq<Effect>, stage: Stage, env: Env): Reaction {
    if env.promptFull then Reaction(state, claim, effects, Err(Busy))
    else Reaction(state, claim, effects + [Prompt(stage, None)], Ok(()))
  }

  function Confirmation(request: Request, s: State, file: File, c: GpCompletion, env: Env,
                        sha256: string -> Digest): Reaction {
    if Utf8Length(c.username) > MAX_ACCOUNT then Reaction(s, None, [], Err(InvalidInput))
    else
      var claim := if request.mode.Embedded? then None else Some(Claim(sha256(c.cookie), env.now, env.write));
      var claimed := if claim.None? then Ok(()) else Claimed(file, claim.value).1;
      if claimed.Err? then Reaction(s, claim, [], claimed)
      else if env.promptFull then Reaction(s, claim, [], Err(Busy))
      else Reaction(s.(pending := Some(c)), claim, [Prompt(ConfirmAccount, Some(c.username))], Ok(()))
  }

  function DecodedCompletion(decoded: Result<Document>): Result<GpCompletion> {
    match decoded
    case Err(e) => Err(e)
    case Ok(d) =>
      match Parse(d.text, d.tokens)
      case Err(e) => Err(e)
      case Ok(None) => Err(AuthenticationRejected)
      case Ok(Some(c)) => Ok(c)
  }

  function Handle(request: Request, s: State, file: File, input: Input, env: Env, sha256: string -> Digest): Reaction {
    match input
    case Opened =>
      var replies := !s.shown && request.kind.External?;
      if replies && env.native.Some? then Reaction(s, None, [], Err(env.native.value))
      else
        Prompted(s.(shown := true), None, if replies then [OpenedReply] else [],
                 if request.mode.Manual? then ManualInput else Waiting, env)
    case Callback(decoded) =>
      if !request.gp || request.kind.External? || request.mode.Embedded? || s.pending.Some? || s.submitted
      then Reaction(s, None, [], Err(Conflict))
      else
        (match DecodedCompletion(decoded)
         case Err(e) => Reaction(s, None, [], Err(e))
         case Ok(c) => Confirmation(request, s, file, c, env, sha256))
    case Confirm(accepted) =>
      if s.pending.None? then Reaction(s, None, [], Err(Conflict))
      else
        var taken := s.(pending := None);
        if !accepted then Reaction(taken, None, [CancelNative], Err(Cancelled))
        else if env.native.Some? then Reaction(taken, None, [], Err(env.native.value))
        else Prompted(taken.(submitted := true), None, [Submit(s.pending.value)], Waiting, env)
    case PageArrived(page, valid) =>
      if valid.Err? then Reaction(s, None, [], valid)
      else if request.kind.External? || s.pending.Some? || s.submitted then Reaction(s, None, [], Ok(()))
      else if request.gp then
        (match PageDecision(page)
         case Err(e) => Reaction(s, None, [], Err(e))
         case Ok(None) => Reaction(s, None, [], Ok(()))
         case Ok(Some(c)) => Confirmation(request, s, file, c, env, sha256))
      else if env.native.Some? then Reaction(s, None, [], Err(env.native.value))
      else Reaction(s, None, [Forward(page.headers)], Ok(()))
  }

  function FileWith(file: File, claim: Option<Claim>): File {
    if claim.None? then file else Claimed(file, claim.value).0
  }

  class Flow {
    const request: Request
    const ledger: Ledger
    const sha256: string -> Digest
    var pending: Option<GpCompletion>
    var submitted: bool
    var shown: bool
    /** What left the flow: replies to native code and prompts to the user. */
    var effects: seq<Effect>

    constructor (request: Request, ledger: Ledger, sha256: string -> Digest)
      ensures this.request == request && this.ledger == ledger && this.sha256 == sha256
      ensures Now() == START && effects == []
    {
      this.request, this.ledger, this.sha256 := request, ledger, sha256;
      pending, submitted, shown, effects := None, false, false, [];
    }

    function Now(): State
      reads this
    {
      State(pending, submitted, shown)
    }

    twostate predicate Did(new reaction: Reaction, new result: Result<()>)
      reads this, ledger
    {
      && Now() == reaction.state
      && effects == old(effects) + reaction.effects
      && ledger.file == FileWith(old(ledger.file), reaction.claim)
      && result == reaction.result
    }

    method SendPrompt(stage: Stage, account: Option<string>, env: Env) returns (r: Result<()>)
      modifies this`effects
      ensures if env.promptFull then r == Err(Busy) && effects == old(effects)
              else r == Ok(()) && effects == old(effects) + [Prompt(stage, account)]
    {
      if env.promptFull {
        return Err(Busy);
      }
      effects := effects + [Prompt(stage, account)];
      return Ok(());
    }

    method Reply(effect: Effect, env: Env) returns (r: Result<()>)
      modifies this`effects
      ensures if env.native.Some? then r == Err(env.native.value) && effects == old(effects)
              else r == Ok(()) && effects == old(effects) + [effect]
    {
      if env.native.Some? {
        return Err(env.native.value);
      }
      effects := effects + [effect];
      return Ok(());
    }

    method HandleOpened(env: Env) returns (r: Result<()>)
      modifies this
      ensures Did(Handle(request, old(Now()), old(ledger.file), Opened, env, sha256), r)
    {
      if !shown && request.kind.External? {
        r := Reply(OpenedReply, env);
        if r.Err? {
          return;
        }
      }
      shown := true;
      r := SendPrompt(if request.mode.Manual? then ManualInput else Waiting, None, env);
    }

    method HandleCallback(decoded: Result<Document>, env: Env) returns (r: Result<()>)
      modifies this, ledger
      ensures Did(Handle(request, old(Now()), old(ledger.file), Callback(decoded), env, sha256), r)
    {
      hide Claimed;
      if !request.gp || request.kind.External? || request.mode.Embedded? || pending.Some? || submitted {
        return Err(Conflict);
      }
      if decoded.Err? {
        return Err(decoded.code);
      }
      var parsed := ParseCompletionIfPresent(decoded.value.text, decoded.value.tokens);
      if parsed.Err? {
        return Err(parsed.code);
      }
      if parsed.value.None? {
        return Err(AuthenticationRejected);
      }
      r := AskConfirmation(parsed.value.value, env);
    }

    method AskConfirmation(completion: GpCompletion, env: Env) returns (r: Result<()>)
      modifies this, ledger
      ensures Did(Confirmation(request, old(Now()), old(ledger.file), completion, env, sha256), r)
    {
      hide Claimed;
      if Utf8Length(completion.username) > MAX_ACCOUNT {
        return Err(InvalidInput);
      }
      if !request.mode.Embedded? {
        r := ledger.ClaimCompletion(Claim(sha256(completion.cookie), env.now, env.write));
        if r.Err? {
          return;
        }
      }
      r := SendPrompt(ConfirmAccount, Some(completion.username), env);
      if r.Err? {
        return;
      }
      pending := Some(completion);
      return Ok(());
    }

    method HandleConfirm(accepted: bool, env: Env) returns (r: Result<()>)
      modifies this
      ensures Did(Handle(request, old(Now()), old(ledger.file), Confirm(accepted), env, sha256), r)
    {
      if pending.None? {
        return Err(Conflict);
      }
      var completion := pending.value;
      pending := None;
      if !accepted {
        effects := effects + [CancelNative];
        return Err(Cancelled);
      }
      r := Reply(Submit(completion), env);
      if r.Err? {
        return;
      }
      submitted := true;
      r := SendPrompt(Waiting, None, env);
    }

    method HandlePage(page: Page, valid: Result<()>, env: Env) returns (r: Result<()>)
      modifies this, ledger
      ensures Did(Handle(request, old(Now()), old(ledger.file), PageArrived(page, valid), env, sha256), r)
    {
      hide Claimed, PageDecision;
      if valid.Err? {
        return valid;
      }
      if request.kind.External? || pending.Some? || submitted {
        return Ok(());
      }
      if request.gp {
        var completion := CompletionOfPage(page);
        if completion.Err? {
          return Err(completion.code);
        }
        if completion.value.Some? {
          r := AskConfirmation(completion.value.value, env);
          return;
        }
        return Ok(());
      }
      r := Reply(Forward(page.headers), env);
    }
  }

  // ---------------------------------------------------------------- runs of many flows over one ledger

  datatype Entry = Entry(flow: nat, effect: Effect)

  datatype Call = Call(flow: nat, input: Input, env: Env)

  /** The flows by number, the ledger, every claim made of it with the flow that made it, and all effects in order. */
  datatype World = World(flows: map<nat, State>, file: File, claims: seq<Claim>, claimants: seq<nat>, log: seq<Entry>)

  function At(w: World, flow: nat): State {
    if flow in w.flows then w.flows[flow] else START
  }

  function Stamp(flow: nat, effects: seq<Effect>): seq<Entry> {
    seq(|effects|, i requires 0 <= i < |effects| => Entry(flow, effects[i]))
  }

  function React(requests: nat -> Request, w: World, call: Call, sha256: string -> Digest): Reaction {
    Handle(requests(call.flow), At(w, call.flow), w.file, call.input, call.env, sha256)
  }

  function Step(requests: nat -> Request, w: World, call: Call, sha256: string -> Digest): World {
    var r := React(requests, w, call, sha256);
    World(
      w.flows[call.flow := r.state],
      FileWith(w.file, r.claim),
      if r.claim.Some? then w.claims + [r.claim.value] else w.claims,
      if r.claim.Some? then w.claimants + [call.flow] else w.claimants,
      w.log + Stamp(call.flow, r.effects))
  }

  function Run(requests: nat -> Request, file: File, calls: seq<Call>, sha256: string -> Digest): World {
    if calls == [] then World(map[], file, [], [], [])
    else Step(requests, Run(requests, file, calls[..|calls| - 1], sha256), calls[|calls| - 1], sha256)
  }

  predicate IsPage(e: Effect) {
    e.Submit? || e.Forward?
  }

  /** How many pages a flow has sent to native code. */
  function Pages(log: seq<Entry>, flow: nat): nat {
    if log == [] then 0
    else
      var last := log[|log| - 1];
      Pages(log[..|log| - 1], flow) + (if last.flow == flow && IsPage(last.effect) then 1 else 0)
  }

  /** The account the user of a flow was last asked about. */
  function LastAsked(log: seq<Entry>, flow: nat): Option<string> {
    if log == [] then None
    else
      var last := log[|log| - 1];
      if last.flow == flow && last.effect.Prompt? && last.effect.stage.ConfirmAccount? then last.effect.account
      else LastAsked(log[..|log| - 1], flow)
  }

  /** The cookie was accepted by the ledger, for this flow. */
  predicate AcceptedFor(file: File, claims: seq<Claim>, claimants: seq<nat>, flow: nat, digest: Digest)
    requires |claims| == |claimants|
  {
    exists i :: 0 <= i < |claims| && claimants[i] == flow && claims[i].digest == digest && Answer(file, claims, i).Ok?
  }

  predicate Backed(requests: nat -> Request, file: File, w: World, flow: nat, c: GpCompletion, sha256: string -> Digest)
    requires |w.claims| == |w.claimants|
  {
    requests(flow).mode.Embedded? || AcceptedFor(file, w.claims, w.claimants, flow, sha256(c.cookie))
  }

  /** What holds of a GlobalProtect flow at any moment. */
  ghost predicate FlowInv(requests: nat -> Request, file: File, w: World, flow: nat, sha256: string -> Digest)
    requires |w.claims| == |w.claimants|
  {
    var s := At(w, flow);
    && !(s.pending.Some? && s.submitted)
    && Pages(w.log, flow) == (if s.submitted then 1 else 0)
    && (s.pending.Some? ==>
          LastAsked(w.log, flow) == Some(s.pending.value.username)
          && Backed(requests, file, w, flow, s.pending.value, sha256))
  }

  ghost predicate LedgerInv(file: File, w: World) {
    |w.claims| == |w.claimants| && w.file == FileAfter(file, w.claims)
  }

  lemma {:induction false} LogExtends(log: seq<Entry>, flow: nat, effects: seq<Effect>, other: nat)
    ensures other != flow ==> Pages(log + Stamp(flow, effects), other) == Pages(log, other)
                              && LastAsked(log + Stamp(flow, effects), other) == LastAsked(log, other)
    ensures (forall k :: 0 <= k < |effects| ==> !IsPage(effects[k])) ==>
              Pages(log + Stamp(flow, effects), flow) == Pages(log, flow)
    ensures (forall k :: 0 <= k < |effects| ==> !(effects[k].Prompt? && effects[k].stage.ConfirmAccount?)) ==>
              LastAsked(log + Stamp(flow, effects), flow) == LastAsked(log, flow)
  {
    if effects == [] {
      assert log + Stamp(flow, effects) == log;
    } else {
      var shorter := effects[..|effects| - 1];
      LogExtends(log, flow, shorter, other);
      var whole := log + Stamp(flow, effects);
      assert whole[..|whole| - 1] == log + Stamp(flow, shorter);
    }
  }

  lemma ClaimsExtend(file: File, claims: seq<Claim>, claim: Claim, i: nat)
    requires i < |claims|
    ensures Answer(file, claims + [claim], i) == Answer(file, claims, i)
  {
    assert (claims + [claim])[..i] == claims[..i];
  }

  /** A claim already made stays made. */
  lemma AcceptedStays(file: File, claims: seq<Claim>, claimants: seq<nat>, claim: Claim, claimant: nat, flow: nat,
                      digest: Digest)
    requires |claims| == |claimants| && AcceptedFor(file, claims, claimants, flow, digest)
    ensures AcceptedFor(file, claims + [claim], claimants + [claimant], flow, digest)
  {
    hide Answer;
    var i :| 0 <= i < |claims| && claimants[i] == flow && claims[i].digest == digest && Answer(file, claims, i).Ok?;
    ClaimsExtend(file, claims, claim, i);
    assert (claims + [claim])[i] == claims[i] && (claimants + [claimant])[i] == flow;
  }

  lemma BackedStays(requests: nat -> Request, file: File, w: World, call: Call, flow: nat, c: GpCompletion,
                    sha256: string -> Digest)
    requires LedgerInv(file, w) && Backed(requests, file, w, flow, c, sha256)
    ensures Backed(requests, file, Step(requests, w, call, sha256), flow, c, sha256)
  {
    hide Handle, Claimed, AcceptedFor;
    var r := React(requests, w, call, sha256);
    if !requests(flow).mode.Embedded? && r.claim.Some? {
      AcceptedStays(file, w.claims, w.claimants, r.claim.value, call.flow, flow, sha256(c.cookie));
    }
  }

  lemma LedgerStep(requests: nat -> Request, file: File, w: World, call: Call, sha256: string -> Digest)
    requires LedgerInv(file, w)
    ensures LedgerInv(file, Step(requests, w, call, sha256))
  {
    hide Handle, Claimed;
    var r := React(requests, w, call, sha256);
    if r.claim.Some? {
      assert (w.claims + [r.claim.value])[..|w.claims|] == w.claims;
    }
  }

  lemma OtherFlowStep(requests: nat -> Request, file: File, w: World, call: Call, flow: nat, sha256: string -> Digest)
    requires LedgerInv(file, w) && FlowInv(requests, file, w, flow, sha256) && call.flow != flow
    ensures FlowInv(requests, file, Step(requests, w, call, sha256), flow, sha256)
  {
    hide Handle, Claimed, Backed, Pages, LastAsked;
    LogExtends(w.log, call.flow, React(requests, w, call, sha256).effects, flow);
    var s := At(w, flow);
    if s.pending.Some? {
      BackedStays(requests, file, w, call, flow, s.pending.value, sha256);
    }
  }

  /** How one call of a GlobalProtect flow changes what it has pending and what it has sent. */
  lemma ReactionShape(request: Request, s: State, file: File, input: Input, env: Env, sha256: string -> Digest)
    requires request.gp && !(s.pending.Some? && s.submitted)
    ensures var r := Handle(request, s, file, input, env, sha256);
            && !(r.state.pending.Some? && r.state.submitted)
            && (r.state.submitted == s.submitted ==> forall k :: 0 <= k < |r.effects| ==> !IsPage(r.effects[k]))
            && (r.state.submitted != s.submitted ==>
                  && r.state.submitted && r.state.pending.None? && r.claim.None? && input == Confirm(true)
                  && s.pending.Some?
                  && r.effects[0] == Submit(s.pending.value)
                  && (|r.effects| == 1 || (|r.effects| == 2 && !IsPage(r.effects[1]))))
            && (r.state.pending.Some? && r.state.pending != s.pending ==>
                  && r.effects == [Prompt(ConfirmAccount, Some(r.state.pending.value.username))]
                  && (!request.mode.Embedded? ==>
                        && r.claim.Some? && r.claim.value.digest == sha256(r.state.pending.value.cookie)
                        && Claimed(file, r.claim.value).1.Ok?))
            && (r.state.pending.Some? && r.state.pending == s.pending ==>
                  forall k :: 0 <= k < |r.effects| ==> !(r.effects[k].Prompt? && r.effects[k].stage.ConfirmAccount?))
  {
    hide Claimed, PageDecision, DecodedCompletion, Utf8Length;
  }

  lemma OwnPages(requests: nat -> Request, file: File, w: World, call: Call, sha256: string -> Digest)
    requires requests(call.flow).gp && LedgerInv(file, w) && FlowInv(requests, file, w, call.flow, sha256)
    ensures var w' := Step(requests, w, call, sha256);
            var s' := At(w', call.flow);
            && !(s'.pending.Some? && s'.submitted)
            && Pages(w'.log, call.flow) == (if s'.submitted then 1 else 0)
  {
    hide Handle, Claimed, Backed, LastAsked;
    var s := At(w, call.flow);
    var r := React(requests, w, call, sha256);
    ReactionShape(requests(call.flow), s, w.file, call.input, call.env, sha256);
    if r.state.submitted == s.submitted {
      LogExtends(w.log, call.flow, r.effects, call.flow);
    } else {
      var first := w.log + Stamp(call.flow, [r.effects[0]]);
      assert first[..|w.log|] == w.log;
      assert Pages(first, call.flow) == 1;
      LogExtends(first, call.flow, r.effects[1..], call.flow);
      assert w.log + Stamp(call.flow, r.effects) == first + Stamp(call.flow, r.effects[1..]);
    }
  }

  lemma OwnPending(requests: nat -> Request, file: File, w: World, call: Call, sha256: string -> Digest)
    requires requests(call.flow).gp && LedgerInv(file, w) && FlowInv(requests, file, w, call.flow, sha256)
    requires At(Step(requests, w, call, sha256), call.flow).pending.Some?
    ensures var w' := Step(requests, w, call, sha256);
            var c := At(w', call.flow).pending.value;
            LastAsked(w'.log, call.flow) == Some(c.username) && Backed(requests, file, w', call.flow, c, sha256)
  {
    hide Handle, Claimed, Pages, AcceptedFor;
    var s := At(w, call.flow);
    var r := React(requests, w, call, sha256);
    ReactionShape(requests(call.flow), s, w.file, call.input, call.env, sha256);
    var c := r.state.pending.value;
    if r.state.pending == s.pending {
      LogExtends(w.log, call.flow, r.effects, call.flow);
      BackedStays(requests, file, w, call, call.flow, c, sha256);
    } else {
      assert (w.log + Stamp(call.flow, r.effects))[|w.log|] == Entry(call.flow, r.effects[0]);
      if !requests(call.flow).mode.Embedded? {
        NewClaimAccepted(file, w.claims, w.claimants, r.claim.value, call.flow);
      }
    }
  }

  lemma NewClaimAccepted(file: File, claims: seq<Claim>, claimants: seq<nat>, claim: Claim, flow: nat)
    requires |claims| == |claimants| && Claimed(FileAfter(file, claims), claim).1.Ok?
    ensures AcceptedFor(file, claims + [claim], claimants + [flow], flow, claim.digest)
  {
    hide Claimed;
    var n := |claims|;
    assert (claims + [claim])[..n] == claims;
    assert (claims + [claim])[n] == claim && (claimants + [flow])[n] == flow;
    assert Answer(file, claims + [claim], n).Ok?;
  }

  /** Every GlobalProtect flow of every run keeps its invariant, whatever the other flows do. */
  lemma {:induction false} FlowInvAlways(requests: nat -> Request, file: File, calls: seq<Call>, flow: nat,
                                         sha256: string -> Digest)
    requires requests(flow).gp
    ensures var w := Run(requests, file, calls, sha256);
            LedgerInv(file, w) && FlowInv(requests, file, w, flow, sha256)
  {
    hide Step, FlowInv, LedgerInv;
    if calls == [] {
      StartInv(requests, file, flow, sha256);
    } else {
      var call, w := calls[|calls| - 1], Run(requests, file, calls[..|calls| - 1], sha256);
      FlowInvAlways(requests, file, calls[..|calls| - 1], flow, sha256);
      LedgerStep(requests, file, w, call, sha256);
      FlowStep(requests, file, w, call, flow, sha256);
    }
  }

  lemma StartInv(requests: nat -> Request, file: File, flow: nat, sha256: string -> Digest)
    ensures var w := World(map[], file, [], [], []);
            LedgerInv(file, w) && FlowInv(requests, file, w, flow, sha256)
  {
  }

  lemma FlowStep(requests: nat -> Request, file: File, w: World, call: Call, flow: nat, sha256: string -> Digest)
    requires requests(flow).gp && LedgerInv(file, w) && FlowInv(requests, file, w, flow, sha256)
    requires LedgerInv(file, Step(requests, w, call, sha256))
    ensures FlowInv(requests, file, Step(requests, w, call, sha256), flow, sha256)
  {
    hide Handle, Claimed, Backed, Pages, LastAsked;
    if call.flow != flow {
      OtherFlowStep(requests, file, w, call, flow, sha256);
    } else {
      OwnPages(requests, file, w, call, sha256);
      if At(Step(requests, w, call, sha256), flow).pending.Some? {
        OwnPending(requests, file, w, call, sha256);
      }
    }
  }

  /** Native code receives at most one page of a GlobalProtect transaction. */
  lemma AtMostOnePage(requests: nat -> Request, file: File, calls: seq<Call>, flow: nat, sha256: string -> Digest)
    requires requests(flow).gp
    ensures var w := Run(requests, file, calls, sha256);
            && Pages(w.log, flow) <= 1
            && !(At(w, flow).pending.Some? && At(w, flow).submitted)
  {
    hide Run, Pages;
    FlowInvAlways(requests, file, calls, flow, sha256);
  }

  /**
   A page leaves a GlobalProtect flow only while the user confirms; it is the completion
   whose account the user was last asked about, and unless the browser is embedded its
   cookie was accepted by the ledger for this very flow.
   */
  lemma PagesAreConfirmed(requests: nat -> Request, file: File, calls: seq<Call>, call: Call, k: nat,
                          sha256: string -> Digest)
    requires requests(call.flow).gp
    requires var r := React(requests, Run(requests, file, calls, sha256), call, sha256);
             k < |r.effects| && IsPage(r.effects[k])
    ensures var w := Run(requests, file, calls, sha256);
            var effect := React(requests, w, call, sha256).effects[k];
            && effect.Submit?
            && call.input == Confirm(true)
            && LastAsked(w.log, call.flow) == Some(effect.completion.username)
            && LedgerInv(file, w) && Backed(requests, file, w, call.flow, effect.completion, sha256)
  {
    hide Run, Handle, Claimed, Pages, LastAsked, Backed;
    var w := Run(requests, file, calls, sha256);
    FlowInvAlways(requests, file, calls, call.flow, sha256);
    ReactionShape(requests(call.flow), At(w, call.flow), w.file, call.input, call.env, sha256);
  }

  // ---------------------------------------------------------------- the opened report

  /** How often a flow has told native code that its browser is open. */
  function Reports(log: seq<Entry>, flow: nat): nat {
    if log == [] then 0
    else
      var last := log[|log| - 1];
      Reports(log[..|log| - 1], flow) + (if last == Entry(flow, OpenedReply) then 1 else 0)
  }

  /** The browser of the flow was reported open while native code was there to hear it. */
  predicate Heard(calls: seq<Call>, flow: nat) {
    exists i :: 0 <= i < |calls| && Opens(calls[i], flow)
  }

  predicate Opens(call: Call, flow: nat) {
    call.flow == flow && call.input.Opened? && call.env.native.None?
  }

  lemma {:induction false} ReportsExtend(log: seq<Entry>, sender: nat, effects: seq<Effect>, flow: nat)
    requires forall k :: 0 < k < |effects| ==> !effects[k].OpenedReply?
    ensures Reports(log + Stamp(sender, effects), flow)
         == Reports(log, flow) + (if sender == flow && effects != [] && effects[0].OpenedReply? then 1 else 0)
  {
    if effects == [] {
      assert log + Stamp(sender, effects) == log;
    } else {
      var shorter := effects[..|effects| - 1];
      ReportsExtend(log, sender, shorter, flow);
      var whole := log + Stamp(sender, effects);
      assert whole[..|whole| - 1] == log + Stamp(sender, shorter);
    }
  }

  /** Only the first report of an open external browser that native code hears is passed on. */
  lemma ReactionReports(request: Request, s: State, file: File, input: Input, env: Env, sha256: string -> Digest)
    ensures var r := Handle(request, s, file, input, env, sha256);
            && (forall k :: 0 < k < |r.effects| ==> !r.effects[k].OpenedReply?)
            && (r.effects != [] && r.effects[0].OpenedReply? <==> request.kind.External? && r.state.shown && !s.shown)
            && (request.kind.External? ==> (r.state.shown <==> s.shown || (input.Opened? && env.native.None?)))
  {
    hide Claimed, PageDecision, DecodedCompletion, Utf8Length;
  }

  /**
   An external browser is reported open to native code once in a whole run if it ever is
   while native code hears it, and never otherwise; other browsers are never reported.
   */
  lemma {:induction false} OpenedOnce(requests: nat -> Request, file: File, calls: seq<Call>, flow: nat,
                                      sha256: string -> Digest)
    ensures var w := Run(requests, file, calls, sha256);
            var heard := requests(flow).kind.External? && Heard(calls, flow);
            && Reports(w.log, flow) == (if heard then 1 else 0)
            && (requests(flow).kind.External? ==> (At(w, flow).shown <==> heard))
  {
    hide Handle;
    if calls != [] {
      var n := |calls| - 1;
      var before, call := calls[..n], calls[n];
      OpenedOnce(requests, file, before, flow, sha256);
      var w := Run(requests, file, before, sha256);
      var r := React(requests, w, call, sha256);
      ReactionReports(requests(call.flow), At(w, call.flow), w.file, call.input, call.env, sha256);
      ReportsExtend(w.log, call.flow, r.effects, flow);
      HeardNext(before, call, flow);
      assert calls == before + [call];
    }
  }

  lemma HeardNext(calls: seq<Call>, call: Call, flow: nat)
    ensures Heard(calls + [call], flow) <==> Heard(calls, flow) || Opens(call, flow)
  {
    var all := calls + [call];
    assert all[|calls|] == call;
    assert forall i :: 0 <= i < |calls| ==> all[i] == calls[i];
  }

  // ---------------------------------------------------------------- one cookie, one page a day

  ghost predicate SubmitsBacked(requests: nat -> Request, file: File, w: World, sha256: string -> Digest)
    requires |w.claims| == |w.claimants|
  {
    forall k :: 0 <= k < |w.log| && w.log[k].effect.Submit? ==>
                  Backed(requests, file, w, w.log[k].flow, w.log[k].effect.completion, sha256)
  }

  lemma {:induction false} SubmitsStayBacked(requests: nat -> Request, file: File, calls: seq<Call>,
                                             sha256: string -> Digest)
    ensures var w := Run(requests, file, calls, sha256);
            LedgerInv(file, w) && SubmitsBacked(requests, file, w, sha256)
  {
    if calls != [] {
      var before, call := calls[..|calls| - 1], calls[|calls| - 1];
      SubmitsStayBacked(requests, file, before, sha256);
      LedgerStep(requests, file, Run(requests, file, before, sha256), call, sha256);
      SubmitsStep(requests, file, before, call, sha256);
    }
  }

  /** Flows of other protocols never have a completion to confirm. */
  lemma {:induction false} OthersNeverPend(requests: nat -> Request, file: File, calls: seq<Call>, flow: nat,
                                           sha256: string -> Digest)
    requires !requests(flow).gp
    ensures At(Run(requests, file, calls, sha256), flow).pending.None?
  {
    hide Handle;
    if calls != [] {
      var before, call := calls[..|calls| - 1], calls[|calls| - 1];
      OthersNeverPend(requests, file, before, flow, sha256);
      var w := Run(requests, file, before, sha256);
      if call.flow == flow {
        OtherReaction(requests(flow), At(w, flow), w.file, call.input, call.env, sha256);
      }
    }
  }

  lemma OtherReaction(request: Request, s: State, file: File, input: Input, env: Env, sha256: string -> Digest)
    requires !request.gp && s.pending.None?
    ensures var r := Handle(request, s, file, input, env, sha256);
            r.state.pending.None? && forall k :: 0 <= k < |r.effects| ==> !r.effects[k].Submit?
  {
    hide Claimed, PageDecision, DecodedCompletion, Utf8Length;
  }

  lemma SubmitsStep(requests: nat -> Request, file: File, calls: seq<Call>, call: Call, sha256: string -> Digest)
    requires var w := Run(requests, file, calls, sha256);
             && LedgerInv(file, w) && SubmitsBacked(requests, file, w, sha256)
             && LedgerInv(file, Step(requests, w, call, sha256))
    ensures SubmitsBacked(requests, file, Step(requests, Run(requests, file, calls, sha256), call, sha256), sha256)
  {
    hide Run, Handle, Claimed, Backed, FileAfter, LastAsked;
    var w := Run(requests, file, calls, sha256);
    var w' := Step(requests, w, call, sha256);
    forall k | 0 <= k < |w'.log| && w'.log[k].effect.Submit?
      ensures Backed(requests, file, w', w'.log[k].flow, w'.log[k].effect.completion, sha256)
    {
      if k >= |w.log| {
        OnlyGlobalProtectSubmits(requests, file, calls, call, k - |w.log|, sha256);
        PagesAreConfirmed(requests, file, calls, call, k - |w.log|, sha256);
      }
      BackedStays(requests, file, w, call, w'.log[k].flow, w'.log[k].effect.completion, sha256);
    }
  }

  lemma OnlyGlobalProtectSubmits(requests: nat -> Request, file: File, calls: seq<Call>, call: Call, k: nat,
                                 sha256: string -> Digest)
    requires var r := React(requests, Run(requests, file, calls, sha256), call, sha256);
             k < |r.effects| && r.effects[k].Submit?
    ensures requests(call.flow).gp
  {
    hide Run, Handle;
    if !requests(call.flow).gp {
      var w := Run(requests, file, calls, sha256);
      OthersNeverPend(requests, file, calls, call.flow, sha256);
      OtherReaction(requests(call.flow), At(w, call.flow), w.file, call.input, call.env, sha256);
    }
  }

  predicate DayApart(a: Claim, b: Claim) {
    b.now >= SaturatingAdd(a.now, WINDOW) || a.now >= SaturatingAdd(b.now, WINDOW)
  }

  /**
   Two flows outside the embedded browser that both send a page with the same cookie had
   it accepted at least a day apart.
   */
  lemma SameCookieIsSentADayApart(requests: nat -> Request, file: File, calls: seq<Call>, a: nat, b: nat,
                                  sha256: string -> Digest)
    requires var w := Run(requests, file, calls, sha256);
             && a < |w.log| && b < |w.log| && ClockRuns(w.claims)
             && w.log[a].flow != w.log[b].flow
             && !requests(w.log[a].flow).mode.Embedded? && !requests(w.log[b].flow).mode.Embedded?
             && w.log[a].effect.Submit? && w.log[b].effect.Submit?
             && w.log[a].effect.completion.cookie == w.log[b].effect.completion.cookie
    ensures var w := Run(requests, file, calls, sha256);
            && |w.claims| == |w.claimants|
            && exists i, j ::
                 && 0 <= i < |w.claims| && 0 <= j < |w.claims|
                 && w.claimants[i] == w.log[a].flow && w.claimants[j] == w.log[b].flow
                 && w.claims[i].digest == w.claims[j].digest == sha256(w.log[a].effect.completion.cookie)
                 && DayApart(w.claims[i], w.claims[j])
  {
    hide Run, Answer, ClockRuns;
    var w := Run(requests, file, calls, sha256);
    SubmitsStayBacked(requests, file, calls, sha256);
    var digest := sha256(w.log[a].effect.completion.cookie);
    assert AcceptedFor(file, w.claims, w.claimants, w.log[a].flow, digest);
    assert AcceptedFor(file, w.claims, w.claimants, w.log[b].flow, digest);
    var i :| 0 <= i < |w.claims| && w.claimants[i] == w.log[a].flow && w.claims[i].digest == digest
             && Answer(file, w.claims, i).Ok?;
    var j :| 0 <= j < |w.claims| && w.claimants[j] == w.log[b].flow && w.claims[j].digest == digest
             && Answer(file, w.claims, j).Ok?;
    if i < j {
      ReplayWindow(file, w.claims, i, j);
    } else {
      ReplayWindow(file, w.claims, j, i);
    }
    assert DayApart(w.claims[i], w.claims[j]);
  }
}
