/**
 What a browser transaction comes to (`Flow` in `crates/client/src/browser.rs`): ordinary
 pages leave it alone, and a completion the user confirms reaches native code.
 */
module BrowserOutcome {
  import opened Common
  import Completion
  import opened CompletionResult
  import opened CompletionOutcome
  import opened PageCompletion
  import opened ReplayLedger
  import opened BrowserFlow

  /** A GlobalProtect transaction whose pages are still read: nothing is to be confirmed and nothing was sent. */
  predicate Reading(requests: nat -> Request, w: World, flow: nat) {
    requests(flow).gp && requests(flow).kind.Webview? && At(w, flow).pending.None? && !At(w, flow).submitted
  }

  /** Neither the headers nor the document of the page carry a completion field. */
  ghost predicate Ordinary(page: Page) {
    !CarriesField(page.headers) && (page.document.None? || Shows(page, Completion.NO_FIELDS))
  }

  /**
   In every run, an ordinary page of a transaction that is still read, the login page for
   instance, is answered well and changes nothing: no flow, no ledger, no message.
   */
  lemma OrdinaryPageChangesNothing(requests: nat -> Request, file: File, calls: seq<Call>, call: Call, page: Page,
                                   sha256: string -> Digest)
    requires Reading(requests, Run(requests, file, calls, sha256), call.flow)
    requires call.input == PageArrived(page, Ok(())) && Ordinary(page)
    ensures var w := Run(requests, file, calls, sha256);
            var w' := Run(requests, file, calls + [call], sha256);
            && React(requests, w, call, sha256).result == Ok(())
            && (forall flow :: At(w', flow) == At(w, flow))
            && w'.file == w.file && w'.claims == w.claims && w'.log == w.log
  {
    hide Run, Ordinary, Reads, Shows, CarriesField;
    RunNext(requests, file, calls, call, sha256);
    OrdinaryDecides(page);
    hide PageDecision;
    var w := Run(requests, file, calls, sha256);
    assert Stamp(call.flow, []) == [];
    assert w.log + [] == w.log;
  }

  lemma OrdinaryDecides(page: Page)
    requires Ordinary(page)
    ensures PageDecision(page) == Ok(None)
  {
    hide PageDecision;
    PageOutcomes(page);
  }

  lemma RunNext(requests: nat -> Request, file: File, calls: seq<Call>, call: Call, sha256: string -> Digest)
    ensures Run(requests, file, calls + [call], sha256)
         == Step(requests, Run(requests, file, calls, sha256), call, sha256)
  {
    assert (calls + [call])[..|calls|] == calls;
  }

  /** A valid page of a transaction of another protocol is passed on with its headers and without its document. */
  lemma OtherPageIsForwarded(requests: nat -> Request, file: File, calls: seq<Call>, call: Call, page: Page,
                             sha256: string -> Digest)
    requires !requests(call.flow).gp && requests(call.flow).kind.Webview?
    requires call.input == PageArrived(page, Ok(())) && call.env.native.None?
    ensures var w := Run(requests, file, calls, sha256);
            var w' := Run(requests, file, calls + [call], sha256);
            && React(requests, w, call, sha256).result == Ok(())
            && w'.log == w.log + [Entry(call.flow, Forward(page.headers))]
            && w'.file == w.file && forall flow :: At(w', flow) == At(w, flow)
  {
    OthersNeverPend(requests, file, calls, call.flow, sha256);
    OthersNeverSubmit(requests, file, calls, call.flow, sha256);
    RunNext(requests, file, calls, call, sha256);
    hide Run, PageDecision;
    assert Stamp(call.flow, [Forward(page.headers)]) == [Entry(call.flow, Forward(page.headers))];
  }

  lemma {:induction false} OthersNeverSubmit(requests: nat -> Request, file: File, calls: seq<Call>, flow: nat,
                                             sha256: string -> Digest)
    requires !requests(flow).gp
    ensures !At(Run(requests, file, calls, sha256), flow).submitted
  {
    hide Handle;
    if calls != [] {
      var before, call := calls[..|calls| - 1], calls[|calls| - 1];
      OthersNeverSubmit(requests, file, before, flow, sha256);
      OthersNeverPend(requests, file, before, flow, sha256);
      var w := Run(requests, file, before, sha256);
      if call.flow == flow {
        OtherStays(requests(flow), At(w, flow), w.file, call.input, call.env, sha256);
      }
    }
  }

  lemma OtherStays(request: Request, s: State, file: File, input: Input, env: Env, sha256: string -> Digest)
    requires !request.gp && s.pending.None? && !s.submitted
    ensures !Handle(request, s, file, input, env, sha256).state.submitted
  {
    hide Claimed, PageDecision, DecodedCompletion, Utf8Length;
  }

  // ---------------------------------------------------------------- from the browser to native code

  /** The input brings this completion: a page that carries or shows it, or a callback document that does. */
  ghost predicate Brings(request: Request, input: Input, c: GpCompletion) {
    && Deliverable(c)
    && match input
       case PageArrived(page, valid) =>
         valid == Ok(()) && (Carries(page.headers, FieldsOf(c)) || Shows(page, FieldsOf(c)))
       case Callback(decoded) =>
         && !request.mode.Embedded? && decoded.Ok?
         && Reads(decoded.value.text, decoded.value.tokens, FieldsOf(c))
       case _ => false
  }

  lemma BroughtIsAsked(request: Request, s: State, file: File, input: Input, env: Env, sha256: string -> Digest,
                       c: GpCompletion)
    requires request.gp && request.kind.Webview? && s.pending.None? && !s.submitted && Brings(request, input, c)
    ensures Handle(request, s, file, input, env, sha256) == Confirmation(request, s, file, c, env, sha256)
  {
    hide Confirmation, PageDecision, Reads, Matches, CarriesField, FieldsOf, Deliverable, Parse;
    match input {
      case PageArrived(page, _) => PageBrings(page, c);
      case Callback(decoded) => ParseOutcomes(decoded.value.text, decoded.value.tokens);
      case _ =>
    }
  }

  lemma PageBrings(page: Page, c: GpCompletion)
    requires Deliverable(c) && (Carries(page.headers, FieldsOf(c)) || Shows(page, FieldsOf(c)))
    ensures PageDecision(page) == Ok(Some(c))
  {
    hide PageDecision, Matches, CarriesField, FieldsOf, Deliverable, Reads, Parse;
    HeaderCompletionMeaning(page, c);
    if page.document.Some? {
      ParseOutcomes(page.document.value.text, page.document.value.tokens);
    }
  }

  /** The cookie may be used: in the embedded browser always, and elsewhere if the ledger lets this claim land. */
  ghost predicate MayUse(request: Request, file: File, c: GpCompletion, env: Env, sha256: string -> Digest) {
    request.mode.Embedded?
    || (Lands(file, Claim(sha256(c.cookie), env.now, env.write)) && env.write.FileWritten?)
  }

  lemma UsableIsAsked(request: Request, s: State, file: File, c: GpCompletion, env: Env, sha256: string -> Digest)
    requires MayUse(request, file, c, env, sha256) && Utf8Length(c.username) <= 4096 && !env.promptFull
    ensures var r := Confirmation(request, s, file, c, env, sha256);
            && r.result == Ok(()) && r.state == s.(pending := Some(c))
            && r.effects == [Prompt(ConfirmAccount, Some(c.username))]
  {
    hide Claimed, Guards, Utf8Length;
    if !request.mode.Embedded? {
      ClaimAcceptedExactlyWhen(file, Claim(sha256(c.cookie), env.now, env.write));
    }
  }

  /**
   In every run: a completion that arrives in a transaction still read, whose cookie may be used,
   is put to the user by its account, and when the user confirms and native code listens, that
   completion is what native code receives; when the user declines, native code is cancelled and
   receives nothing.
   */
  lemma ConfirmedCompletionIsSubmitted(
    requests: nat -> Request, file: File, calls: seq<Call>, arrival: Call, answer: Call, c: GpCompletion,
    sha256: string -> Digest)
    requires var w := Run(requests, file, calls, sha256);
             Reading(requests, w, arrival.flow) && MayUse(requests(arrival.flow), w.file, c, arrival.env, sha256)
    requires Brings(requests(arrival.flow), arrival.input, c)
    requires Utf8Length(c.username) <= 4096 && !arrival.env.promptFull
    requires answer.flow == arrival.flow && answer.input.Confirm? && answer.env.native.None? && !answer.env.promptFull
    ensures var flow := arrival.flow;
            var w := Run(requests, file, calls, sha256);
            var end := Run(requests, file, calls + [arrival] + [answer], sha256);
            && end.log == w.log + [Entry(flow, Prompt(ConfirmAccount, Some(c.username)))]
                          + (if answer.input.accepted
                             then [Entry(flow, Submit(c)), Entry(flow, Prompt(Waiting, None))]
                             else [Entry(flow, CancelNative)])
            && At(end, flow).submitted == answer.input.accepted && At(end, flow).pending.None?
  {
    hide Run, Confirmation, Brings, MayUse, Utf8Length, PageDecision, DecodedCompletion;
    var w := Run(requests, file, calls, sha256);
    var asked := Run(requests, file, calls + [arrival], sha256);
    var flow := arrival.flow;
    RunNext(requests, file, calls, arrival, sha256);
    RunNext(requests, file, calls + [arrival], answer, sha256);
    BroughtIsAsked(requests(flow), At(w, flow), w.file, arrival.input, arrival.env, sha256, c);
    UsableIsAsked(requests(flow), At(w, flow), w.file, c, arrival.env, sha256);
    var prompt := Prompt(ConfirmAccount, Some(c.username));
    assert Stamp(flow, [prompt]) == [Entry(flow, prompt)];
    assert asked.log == w.log + [Entry(flow, prompt)] && At(asked, flow).pending == Some(c);
    if answer.input.accepted {
      assert Stamp(flow, [Submit(c), Prompt(Waiting, None)])
          == [Entry(flow, Submit(c)), Entry(flow, Prompt(Waiting, None))];
      assert [Submit(c)] + [Prompt(Waiting, None)] == [Submit(c), Prompt(Waiting, None)];
    } else {
      assert Stamp(flow, [CancelNative]) == [Entry(flow, CancelNative)];
    }
  }

  // ---------------------------------------------------------------- refusals

  /**
   A completion that arrives but cannot be asked about leaves its transaction as it was and sends
   nothing: its account is too long, the ledger refuses its cookie, or the user's queue is full.
   */
  lemma ArrivalIsRefused(requests: nat -> Request, w: World, call: Call, c: GpCompletion, sha256: string -> Digest)
    requires Reading(requests, w, call.flow) && Brings(requests(call.flow), call.input, c)
    ensures var r := React(requests, w, call, sha256);
            var claim := Claim(sha256(c.cookie), call.env.now, call.env.write);
            var embedded := requests(call.flow).mode.Embedded?;
            && (Utf8Length(c.username) > 4096 ==> r.result == Err(InvalidInput))
            && (Utf8Length(c.username) <= 4096 && !embedded && Claimed(w.file, claim).1.Err? ==>
                  r.result == Claimed(w.file, claim).1)
            && (Utf8Length(c.username) <= 4096 && (embedded || Claimed(w.file, claim).1.Ok?) && call.env.promptFull ==>
                  r.result == Err(Busy))
            && (r.result.Err? ==> r.state == At(w, call.flow) && r.effects == [])
            && (r.claim.Some? <==> Utf8Length(c.username) <= 4096 && !embedded)
            && (r.claim.Some? ==> r.claim.value == claim)
  {
    hide Claimed, Brings, Utf8Length, Handle;
    BroughtIsAsked(requests(call.flow), At(w, call.flow), w.file, call.input, call.env, sha256, c);
  }

  /** A callback is refused outside a system or manual GlobalProtect transaction that is still read. */
  lemma CallbackIsRefused(requests: nat -> Request, w: World, call: Call, decoded: Result<Document>,
                          sha256: string -> Digest)
    requires call.input == Callback(decoded)
    ensures var r := React(requests, w, call, sha256);
            && (!Reading(requests, w, call.flow) || requests(call.flow).mode.Embedded? ==>
                  r == Reaction(At(w, call.flow), None, [], Err(Conflict)))
            && (Reading(requests, w, call.flow) && !requests(call.flow).mode.Embedded? && decoded.Err? ==>
                  r == Reaction(At(w, call.flow), None, [], Err(decoded.code)))
            && (Reading(requests, w, call.flow) && !requests(call.flow).mode.Embedded? && decoded.Ok?
                && Reads(decoded.value.text, decoded.value.tokens, Completion.NO_FIELDS) ==>
                  r == Reaction(At(w, call.flow), None, [], Err(AuthenticationRejected)))
  {
    hide Parse, Reads, Confirmation;
    if decoded.Ok? {
      ParseOutcomes(decoded.value.text, decoded.value.tokens);
    }
  }

  /** A page that is not valid, or comes when it is not read any more, changes nothing. */
  lemma PageIsIgnored(requests: nat -> Request, w: World, call: Call, page: Page, valid: Result<()>,
                      sha256: string -> Digest)
    requires call.input == PageArrived(page, valid)
    requires valid.Err? || requests(call.flow).kind.External? || At(w, call.flow).pending.Some?
             || At(w, call.flow).submitted
    ensures React(requests, w, call, sha256)
         == Reaction(At(w, call.flow), None, [], if valid.Err? then valid else Ok(()))
  {
    hide PageDecision;
  }

  /**
   An open browser is announced to the user by the stage of its mode, unless the report to native
   code fails; then it is not, and the report is made again next time.
   */
  lemma OpenedIsShown(requests: nat -> Request, w: World, call: Call, sha256: string -> Digest)
    requires call.input.Opened?
    ensures var (r, before) := (React(requests, w, call, sha256), At(w, call.flow));
            var request := requests(call.flow);
            var report := request.kind.External? && !before.shown;
            if report && call.env.native.Some? then
              r == Reaction(before, None, [], Err(call.env.native.value))
            else
              && r.state == before.(shown := true) && r.claim.None?
              && r.effects == (if report then [OpenedReply] else [])
                              + (if call.env.promptFull then []
                                 else [Prompt(if request.mode == Manual then ManualInput else Waiting, None)])
              && r.result == if call.env.promptFull then Err(Busy) else Ok(())
  {
  }

  /** Confirming takes the pending completion, and only a pending one can be confirmed. */
  lemma ConfirmTakesPending(requests: nat -> Request, w: World, call: Call, sha256: string -> Digest)
    requires call.input.Confirm?
    ensures var (r, before) := (React(requests, w, call, sha256), At(w, call.flow));
            && r.state.pending.None? && r.claim.None?
            && (before.pending.None? ==> r == Reaction(before, None, [], Err(Conflict)))
            && (before.pending.Some? && !call.input.accepted ==>
                  r.effects == [CancelNative] && r.result == Err(Cancelled) && r.state.submitted == before.submitted)
            && (before.pending.Some? && call.input.accepted && call.env.native.Some? ==>
                  r.effects == [] && r.result == Err(call.env.native.value) && r.state.submitted == before.submitted)
            && (before.pending.Some? && call.input.accepted && call.env.native.None? ==>
                  r.effects != [] && r.effects[0] == Submit(before.pending.value) && r.state.submitted
                  && r.result == if call.env.promptFull then Err(Busy) else Ok(()))
  {
  }
}
