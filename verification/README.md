# OpenConnect GUI: models and proofs

A Dafny 4.11 model of the protocols inside the VPN client: threads that hand an
authentication over to each other, a parser for untrusted documents, processes that share a
keyring, a client that follows a privileged service, and byte formats. Every theorem is a
statement over all inputs, all runs or all interleavings. `dafny verify dfyconfig.toml`
checks the whole project.

## How the source is modelled

* **Interleavings** (`AuthExchange`, `PinHandoff`, `Hotp`, `Reservation`) are state machines with
  one action per atomic access of the source. Any number of threads, processes, starters or
  removers take part; a run is any sequence of enabled actions.
* **Objects with changing fields** (`AuthForm.Worker`, `BrowserFlow.Flow`,
  `ReplayLedger.Ledger`, `ProfileStore.MetadataStore`, `EventStream.Events`,
  `DaemonConnection.Connection`, `Frames.Channel`, `Frames.BoundedWriter`) are classes. Their
  methods have the source's branches and loops and are proved against functions or relations
  on values; runs of calls are sequences of those.
* **Loops over buffers and slices** (`Completion.ParseFragment`, `ChoiceIds.ChoiceIds`,
  `PageCompletion.CollectHeaders`, `Bootstrap.ReadHeader`, `Utf8Truncation.Progress`) keep their
  arrays.
* **The world** (what a peer sends, whether a write succeeds and whether a failed one took
  effect, what the user answers, when a wait runs out) is a parameter of each call, and the
  theorems hold for all of its values.
* Errors are the source's error codes, without their messages. Unsigned 64-bit saturation,
  exhaustion and the 32-bit length cast are written out.

| module | source | what it is about |
|---|---|---|
| Common | | results, error codes, decimal digits |
| AuthExchange, AuthAnswers | crates/engine/src/auth.rs | prompt slot, cancel flag and response queue, what becomes of an answer |
| PinHandoff, PinDelivery, PinReplies | crates/client/src/auth.rs | saving pins while the handoff is under way, delivering it, what decisions come to |
| ChoiceIds, AuthForm, AuthFormRuns, AuthFormAnswers | crates/engine/src/auth.rs | public ids of choices, the form callback, all its calls, what each option is sent |
| Hotp | crates/client/src/credentials.rs | one-time-code counter shared by processes |
| Completion, CompletionDocument, CompletionResult, CompletionOutcome, CompletionText | crates/client/src/globalprotect.rs | completion parser, the documents it accepts, all its answers, a printer and its text |
| PageCompletion, ReplayLedger, BrowserFlow, BrowserOutcome | crates/client/src/browser.rs | completion headers, replay ledger, browser transaction and what it comes to |
| Bootstrap, BootstrapRequests | crates/client/src/browser_bootstrap.rs | one-shot loopback listener, the requests it answers |
| DaemonConnection, EventStream, EventDelivery | crates/client/src/daemon.rs | request pairing, gap-detecting streams, when they deliver and fail |
| ConnectAttempt, ConnectOutcome | crates/client/src/connect.rs | reserve, authenticate, start, cancel, clean up; which attempts connect |
| ProfileStore, ProfileStoreRuns, ProfileEffects | crates/client/src/profiles.rs | metadata store, its runs, what each call stores |
| Reservation | crates/client/src/configuration.rs | starting a connection against removing its profile |
| Utf8Truncation | native/bridge/ocgui.c | truncated progress messages |
| Frames | crates/model/src/ipc.rs | IPC frames |

## Where the code does less than one would expect

Each of these comes with an input or run that shows it, and with the exact condition under
which the expected property holds.

* **Released one-time codes need not come in counter order.** The profile's file lock is dropped
  before `unlock` returns, so a second process can commit and release counter n + 1 before the
  first releases n (`Hotp.OvertakenRelease`). No code is released twice, and released counters
  increase in every run if and only if at most one process shares the profile
  (`Hotp.IncreasingExactlyAlone`).
* **An event stream can deliver one snapshot twice.** After a service restart, events of the old
  instance that are still buffered each cause a fetch, and the new instance's unchanged
  snapshot comes again (`EventStream.RestartRepeatsSnapshot`). This can happen if and only if the buffered event at
  which the call stops was left behind by an older instance
  (`EventStream.RepeatsExactlyWhen`).
* **An acceptable HEAD can end the bootstrap listener without any GET**, when its response cannot
  be written: `Bootstrap.HeadKeepsGetOut` gives such a HEAD and a good GET behind it, and
  `Bootstrap.GoodGetIsServed` says exactly when a good GET is served.
* **A reservation granted after its client gave up can lose its profile**
  (`Reservation.LateGrantLosesItsProfile`). `Reservation.LosesProfileExactlyWhen` states from which
  reachable states an owned slot can lose it, and an answered reservation never does
  (`Reservation.LostSlotWasNeverAnswered`).
* **In the last day of the 64-bit clock the replay window is cut short**: it is a full day if and
  only if it ends before the clock does (`ReplayLedger.WindowIsFullExactlyWhen`).
* **A refused removal may already have deleted some of the profile's credentials**, when the
  keyring fails midway (`ProfileStoreRuns.RefusedRemovalLosesPassword`) or the metadata write
  fails after it. `ProfileStoreRuns.CredentialsLost` says exactly which credentials any call
  loses; no document changes unless a failing write took effect.
## Model

| member | source | states |
|---|---|---|
| AuthExchange.InvAlways | crates/engine/src/auth.rs:85-177 | the locking, cancellation, reply, slot and skip invariants hold after every interleaving of control threads with the worker |
| AuthExchange.CancelIsNeverLost | crates/engine/src/auth.rs:157-177 | once `cancel` has attempted its send, a worker blocked in the queue always has something to receive, full queue included; every later point of the wait can go on, and so can any thread holding the slot lock it may need |
| AuthExchange.CancelReturnsSoon | crates/engine/src/auth.rs:715-746 | with the flag set, a waiting worker leaves the wait within two of its own steps |
| AuthExchange.NoReplyAfterCancel | crates/engine/src/auth.rs:715-746 | after the flag is set no reply is acted on whose second flag check comes later |
| AuthExchange.SkipsAreBounded | crates/engine/src/auth.rs:728-740 | one wait skips at most eight replies to other browser transactions |
| AuthExchange.ActsOnlyOnOwnReply | crates/engine/src/auth.rs:1342-1360 | every reply the worker acts on was sent by a valid call naming the prompt it shows, after that prompt was published, while it was in the slot and the worker was there; a form or certificate prompt is acted on once, whatever stale entries timeouts leave queued |
| AuthExchange.AtMostOneReply | crates/engine/src/auth.rs:124-156 | in every interleaving a form or certificate prompt accepts at most one reply |
| AuthExchange.BusyLeavesPromptAnswerable | crates/engine/src/auth.rs:89-156 | after a refusal for a full queue, over every continuation in which the worker waits on, nobody cancels and no other reply is accepted, no reply to the prompt is accepted yet and a later valid call for it is accepted if and only if the queue has room |
| AuthAnswers.OwnReplyIsActedOn | crates/engine/src/auth.rs:715-746 | in every run a step acts exactly when it screens the worker's own reply, a browser's only while its transaction is in the slot, and ends the wait unless the browser has more pages |
| AuthAnswers.OtherRepliesAreNotActedOn | crates/engine/src/auth.rs:728-746 | a reply to another browser transaction is passed over and counted, one to another form or certificate ends the wait |
| AuthAnswers.AcceptedReplyIsPending | crates/engine/src/auth.rs:124-156 | an accepted reply to the form or certificate the worker waits on is on its way from then on, and a worker in its receive can take it |
| AuthAnswers.AnswerIsActedOn | crates/engine/src/auth.rs:715-746 | an answer on its way is acted on, and nothing else is, within 38 worker steps, if nobody cancels, the wait does not run out and no older form or certificate reply is queued |
| AuthAnswers.ReplyIsAccepted | crates/engine/src/auth.rs:85-156 | whenever the prompt is open, nobody cancelled, the lock is free and there is room, a valid call goes through its steps, queues the reply and takes a form or certificate out of the slot |
| AuthAnswers.RepliesAfterCancelAreRefused | crates/engine/src/auth.rs:89-156 | a call that has not read the flag before a cancellation is never accepted |
| AuthAnswers.CancelIsAttempted | crates/engine/src/auth.rs:157-177 | no cancellation stops at the flag: its send was attempted or a thread is about to |
| AuthAnswers.NothingIsQueuedAfterDrop | crates/engine/src/auth.rs:124-177 | once the receiver is dropped nothing is queued any more |
| PinHandoff.InvAlways | crates/client/src/auth.rs:123-169 | no Pin decision is lost in any interleaving: it was saved, is being saved, or the attempt is over |
| PinHandoff.HandoffOnlyAfterEveryPinSaved | crates/client/src/auth.rs:261-289 | a delivered handoff means every Pin decision native code took was durably saved and no save failed |
| PinHandoff.FailedSaveWithholdsHandoff | crates/client/src/auth.rs:142-154 | after a failed or panicking save the handoff is never delivered, and a session already holding the Authenticated event ends without it |
| PinDelivery.GoodHandoffIsDelivered | crates/client/src/auth.rs:261-289 | once native code has finished well, unless the attempt is cancelled or a save panicked, the handoff is delivered within four session steps for each event before it, and one of them is enabled whenever the certificate lock is free |
| PinReplies.PinnedAndSaved | crates/client/src/auth.rs:123-154 | over every run the Pin decisions native code took and the saves that succeeded are exactly those of its steps |
| PinReplies.EveryDecisionIsSaved | crates/client/src/auth.rs:261-289 | when the handoff is delivered every Pin decision of the run has had its successful save |
| PinReplies.SoundExactlyWhen | crates/engine/src/auth.rs:964-986 | native code can still finish well if and only if no callback failed, gave up, was rejected or answered for another prompt |
| PinReplies.HandoffMeansNoFailure | crates/engine/src/auth.rs:964-986 | a delivered handoff was sent by native code none of whose callbacks had failed and that had not been told to stop |
| PinReplies.NoHandoffAfterFlag | crates/engine/src/auth.rs:157-177 | once a cancellation has reached native code no handoff is sent |
| PinReplies.DecisionIsTaken | crates/client/src/auth.rs:123-154 | with the prompt known, nobody cancelling, no panic, the lock free and room in the queue, a reply goes through its steps, queues its own decision, and goes on to save if and only if it is a Pin |
| PinReplies.OnlyKnownPromptsAreAnswered | crates/client/src/auth.rs:123-154 | in every run a thread answers, saves or cleans up only after a prompt the session has shown |
| PinReplies.KnownChangesUnderLock | crates/client/src/auth.rs:123-169 | shown prompts are added and forgotten only under the certificate lock |
| PinReplies.PoisonedLockStaysFree | crates/client/src/auth.rs:123-154 | after a save that panicked nobody gets the certificate lock again |
| PinReplies.NobodyIsStuck | crates/client/src/auth.rs:123-169 | every call goes on, with the lock if it needs it, the lock's holder always does, and so does native code |
| ChoiceIds.FreeId | crates/engine/src/auth.rs:1072-1079 | the inner search ends with the first candidate that is not reserved, after at most as many tries as there are reserved ids, plus one |
| ChoiceIds.TriesAreBounded | crates/engine/src/auth.rs:1074-1078 | no more candidates can be taken than there are taken ids |
| ChoiceIds.ChoiceIds | crates/engine/src/auth.rs:1065-1083 | the slice is rewritten in place to the promised ids, captions stay, and the native values are returned in order |
| ChoiceIds.IdsAreDistinct | crates/engine/src/auth.rs:1065-1083 | public ids are pairwise distinct for any values and labels, and a value that occurs once keeps itself as its id |
| ChoiceIds.NamingIsUnique | crates/engine/src/auth.rs:1065-1083 | the ids are determined by the native values and labels |
| ChoiceIds.AnswerSelectsItsChoice | crates/engine/src/auth.rs:1368-1383 | answering with the id of choice i selects choice i |
| ChoiceIds.SavedChoiceIsTheOnlyMatch | crates/engine/src/auth.rs:1084-1103 | a saved choice is found if and only if exactly one choice matches, and then it selects that one |
| AuthForm.PublicChoices | crates/engine/src/auth.rs:1179-1203 | choices are published exactly when there are 1 to 256 of them and none is missing, over the native values and with the promised, distinct ids |
| AuthForm.ReadOptions | crates/engine/src/auth.rs:1134-1215 | the fields are exactly the visible options native code does not fill itself, in order; reading succeeds if and only if the form is readable |
| AuthFormAnswers.AskedMeaning | crates/engine/src/auth.rs:1134-1166 | which options are asked for |
| AuthFormAnswers.UnreadableExactlyWhen | crates/engine/src/auth.rs:1134-1199 | a form cannot be read if and only if it has more than 256 options, asks for one of unknown kind, without a name or with bad choices, or asks twice under one name |
| AuthFormAnswers.RepliesAreRefusedExactlyWhen | crates/model/src/auth.rs:55-89 | a reply is refused if and only if it did not come, is for another prompt, names a field that was not shown, leaves one out, or has an empty, overlong, NUL, non-numeric or unknown answer |
| AuthFormAnswers.OnlyCStrings | crates/engine/src/auth.rs:360-368 | native code is given C strings of at most 65536 bytes only, and a success has no option it refused |
| AuthForm.SavedPasswordField | crates/engine/src/auth.rs:1297-1319 | the saved password goes to a field exactly when it is the only password field, unused, in no challenge, and named as an initial password |
| AuthForm.Automatic | crates/engine/src/auth.rs:1253-1319 | the automatic answers are exactly those the profile and saved password give; failure names a saved selection that cannot be made |
| AuthForm.Worker.SelectGroup | crates/engine/src/auth.rs:1216-1247 | the first round of a saved group selects the saved choice and sends its native value, alone, and asks for a new form, or says why not |
| AuthForm.Worker.Answer | crates/engine/src/auth.rs:1364-1405 | answers reach their own options in order up to a failure or a group change; the saved password is spent exactly when a password was sent; native code is given C strings only; each refusal has its reason |
| AuthForm.Worker.Reply | crates/engine/src/auth.rs:1320-1363 | exactly the fields without an automatic answer are shown; a success means the reply is current, complete and valid for them, a failure has its reason, and a third empty form in a row is refused |
| AuthForm.Worker.Form | crates/engine/src/auth.rs:1105-1405 | one callback keeps every promise of `Step`; it writes or succeeds only when not cancelled, on a readable form, and with a valid reply to exactly the fields left open; it fails only for a stated reason with that reason's code |
| AuthForm.Worker.FormCallback | crates/engine/src/auth.rs:966-992 | the C entry point keeps the same promises, refuses for good after a failure, and otherwise returns -1 only for a stated reason and with its code |
| AuthFormRuns.NothingUnchecked | crates/engine/src/auth.rs:1112-1363 | in every run a call that is cancelled, cannot read its form or has no valid answer to what it shows fails without a write |
| AuthFormRuns.NewGroupAtMostOnce | crates/engine/src/auth.rs:1394-1399 | over every sequence of callbacks NEWGROUP is returned at most once |
| AuthFormRuns.SavedGroupIsSent | crates/engine/src/auth.rs:1216-1247 | in every run with a saved group, or else a saved gateway, what the first round sends is the native value of the one choice of the group option that bears the saved value or caption, and nothing else |
| AuthFormRuns.AnsweredGroupIsSent | crates/engine/src/auth.rs:1243-1399 | without one, it is the native value of the choice whose public id the user answered, in a valid reply to the group field alone |
| AuthFormRuns.ChosenGroupIsKept | crates/engine/src/auth.rs:1274-1290 | every later form that asks for the group gets the group that was chosen |
| AuthFormRuns.SavedPasswordAtMostOnce | crates/engine/src/auth.rs:1310-1319 | the saved password reaches a native option at most once |
| AuthFormRuns.SavedPasswordIsTheFirst | crates/engine/src/auth.rs:1400-1403 | once any password was sent, typed or saved, the saved one is never sent again |
| AuthFormRuns.NoSavedPasswordAfterError | crates/engine/src/auth.rs:1130-1133 | once a form carried an error the saved password is never sent again, that form included |
| AuthFormRuns.SavedPasswordDestination | crates/engine/src/auth.rs:1297-1319 | in every run what is sent as saved is the saved password, to a visible password option of the form, failing calls included, and no other visible option of the form is one, unless it is itself the group option |
| AuthFormRuns.SavedPasswordIsTheOnlyOne | native/include/openconnect.h:291 | with a selection as group option, as it is declared, no other visible option of the form is a password |
| AuthFormRuns.PasswordGroupTakesPassword | crates/engine/src/auth.rs:1243-1405 | without that declaration the promises of one callback leave room for a group option that takes the saved password beside a password option |
| AuthFormRuns.AtMostTwoEmptyForms | crates/engine/src/auth.rs:1320-1332 | of three empty forms in a row the third is not answered |
| AuthFormRuns.EmptyFormsAreCounted | crates/engine/src/auth.rs:1320-1332 | a success on an empty form counts it, two at most, and any other success but the first round of a saved group starts the count again |
| AuthFormRuns.FailureIsFinal | crates/engine/src/auth.rs:1106-1111 | after a failed callback every later one fails without touching an option |
| AuthFormRuns.MemoryStays | crates/engine/src/auth.rs:1105-1405 | failure, a used password and a chosen group are never undone |
| AuthFormAnswers.OptionsGetTheirAnswers | crates/engine/src/auth.rs:1253-1405 | in every run, failing calls included, each option is sent what belongs to it, read off the native form: the user name, the Array method, the gateway, the group and the password where they are asked for and saved, and otherwise the user's own answer to it |
| AuthFormAnswers.EveryOptionIsSet | crates/engine/src/auth.rs:1364-1405 | a complete answer sets every option that is asked for, in order and each once |
| AuthFormAnswers.SavedPasswordIsSent | crates/engine/src/auth.rs:1297-1319 | a form without an error and no challenge whose only password option has an initial name gets the unspent saved password |
| AuthFormAnswers.SelectionFailsExactlyWhen | crates/engine/src/auth.rs:1272-1295 | filling in without asking fails if and only if a saved gateway is not exactly one of the choices or the chosen group is not among them, each with its code |
| Hotp.InvAlways | crates/client/src/credentials.rs:253-298 | lock, counter and release invariants over any number of processes and keyring writes that fail with or without effect |
| Hotp.CommittedCountersIncrease | crates/client/src/credentials.rs:284-298 | between two provisionings that take effect committed counters strictly increase across all processes |
| Hotp.NoCodeIsReleasedTwice | crates/engine/src/auth.rs:1043-1063 | released codes were committed, and none is released twice |
| Hotp.ReleaseOrder | native/include/openconnect.h:584-599 | released counters of one provisioning increase in a run if and only if its codes leave in the order of their commits |
| Hotp.SerialReleasesIncrease | native/include/openconnect.h:584-599 | they do when no process takes the lock while another has a committed code still to release |
| Hotp.OvertakenRelease | crates/client/src/credentials.rs:284-298 | for any two or more processes and any saved counter, a run that releases a counter before its predecessor |
| Hotp.IncreasingExactlyAlone | native/include/openconnect.h:584-599 | released counters increase in every run if and only if at most one process shares the profile, whatever counter is saved |
| Hotp.SlotIsEmptyOutside | crates/client/src/auth.rs:52-82 | in every run the transaction slot is empty outside the pair of lock and unlock, and already while unlock writes, failures included, and outside the pair the file lock is not held |
| Hotp.NestedLockIsRefused | crates/client/src/auth.rs:52-66 | in every run a lock goes on to wait for the file lock if and only if its process does not hold it, and changes nothing otherwise; no process waits for itself |
| Completion.Resolve | crates/client/src/globalprotect.rs:237-249 | a resolved reference is a character of the XML character set |
| CompletionOutcome.CharactersHaveReferences | crates/client/src/globalprotect.rs:237-249 | every character of the set resolves from its decimal and its hexadecimal number |
| CompletionOutcome.NumberMeaning | crates/client/src/globalprotect.rs:237-249 | a number is one or more digits of its radix and nothing else |
| CompletionOutcome.HexIgnoresCase | crates/client/src/globalprotect.rs:237-249 | hexadecimal digits count the same in either case |
| Completion.ValidateAttribute | crates/client/src/globalprotect.rs:276-293 | the scan over `&...;` accepts an attribute value if and only if all of it is plain text and resolvable references |
| CompletionOutcome.AttributesMeaning | crates/client/src/globalprotect.rs:276-293 | the attributes of an element are accepted if and only if each is made of text and references that resolve, without markup |
| Completion.ParseFragment | crates/client/src/globalprotect.rs:148-274 | the loop with its recursion into comments fills the field table, counts events and fails as the event-by-event semantics says |
| CompletionDocument.Simulate | crates/client/src/globalprotect.rs:148-274 | running the loop over a printed tree has the effect the tree's summary gives |
| CompletionDocument.ReadMeaning | crates/client/src/globalprotect.rs:148-274 | that effect in terms of validity, size, depth and entries of the tree |
| CompletionDocument.Decompose | crates/client/src/globalprotect.rs:148-274 | every accepted event stream is the printing of a tree |
| CompletionDocument.FillMeaning | crates/client/src/globalprotect.rs:195-204 | filling the table succeeds if and only if no field stands twice, and then holds exactly the entries |
| CompletionDocument.ForestOutcome | crates/client/src/globalprotect.rs:148-274 | parsing a printed tree gives its table if and only if the tree is valid, within 32768 events and depth 64, and has no repeated field |
| CompletionDocument.AcceptsExactlyDocuments | crates/client/src/globalprotect.rs:94-101 | a stream parses to a table if and only if it prints a document with that table: one element outside inert elements for each field |
| CompletionDocument.InertContentIsIgnored | crates/client/src/globalprotect.rs:148-274 | content of script, style, template and textarea never changes a successful result |
| CompletionResult.ParseCompletionIfPresent | crates/client/src/globalprotect.rs:84-121 | input limits and characters, the unsupported token form, the fields and the decision, with the error of the first that fails |
| CompletionResult.DecideMeaning | crates/client/src/globalprotect.rs:96-120 | a table decides to a completion if and only if it is that completion's own table and its values may be header values |
| CompletionResult.PrintedForestMeaning | crates/client/src/globalprotect.rs:148-274 | a printed completion is a document with that completion's table |
| CompletionResult.PrintedEventsParseBack | crates/client/src/globalprotect.rs:84-121 | the events of a printed completion, with any mix of escapes, plain or in a comment, parse back to it if and only if it is deliverable and within the event limit |
| CompletionText.DocumentInput | crates/client/src/globalprotect.rs:85-93 | the written document passes the input checks if and only if its values are written in XML characters and it is within the input limit; it is never taken for a token text, and adds at most 800 bytes to its values |
| CompletionText.PieceCharacters | crates/client/src/globalprotect.rs:124-126 | references are always written in XML characters, raw text and sections exactly when they consist of them |
| CompletionText.ParseInvertsPrint | crates/client/src/globalprotect.rs:84-121 | the document of a completion parses back to it if and only if the completion is deliverable and the document consists of XML characters and keeps the size and event limits |
| CompletionText.EscapeMeaning | crates/client/src/globalprotect.rs:237-253 | escaping any text gives pieces that are read as written, stand for that text, keep its characters XML or not, and are at most six times as long |
| CompletionText.EscapedCompletionParsesBack | crates/client/src/globalprotect.rs:84-121 | the escaped document of any completion, plain or in a comment, parses back to it if and only if the completion is deliverable and of XML characters and the document keeps the size and event limits |
| CompletionOutcome.ParseOutcomes | crates/client/src/globalprotect.rs:84-121 | every answer of the parser: nothing if and only if the document has no completion field, a completion if and only if it has just its fields and may be sent, a rejection if and only if the status of its fields is not 1 |
| CompletionOutcome.DeliverableMeaning | crates/client/src/globalprotect.rs:112-115 | a completion may be sent if and only if both values are visible and free of control characters, line breaks and NUL among them |
| CompletionOutcome.XmlCharMeaning | crates/client/src/globalprotect.rs:124-126 | every character is allowed but controls other than tab and line ends, and two noncharacters |
| CompletionOutcome.NamesMeaning | crates/client/src/globalprotect.rs:128-147 | which element names are void, which have inert content, in any case of letters, and which are the token form |
| CompletionOutcome.TokenTextMeaning | crates/client/src/globalprotect.rs:88-90 | the unsupported token form is recognised exactly behind blanks at the beginning |
| PageCompletion.CollectHeaders | crates/client/src/browser.rs:678-694 | the loop fills the table with the headers' fields and reports a duplicate if and only if there is one |
| PageCompletion.CompletionOfPage | crates/client/src/browser.rs:677-727 | headers decide if any carries a field, otherwise the document does; a duplicate header refuses the page |
| PageCompletion.HeaderCompletionMeaning | crates/client/src/browser.rs:677-727 | a page whose headers carry a field, or that has no document, completes if and only if they carry each field of the completion once, in any case of letters, and no other; any other page completes as its document does |
| PageCompletion.HeadersDecideLikeDocument | crates/client/src/browser.rs:695-727 | headers and a document with the same field values get the same answer |
| PageCompletion.PageOutcomes | crates/client/src/browser.rs:677-727 | a page decides nothing if and only if it is an ordinary one, without completion fields in headers or document; it is rejected if and only if its fields have another status than 1 |
| ReplayLedger.Retain | crates/client/src/browser.rs:767-767 | pruning keeps exactly the unexpired records, in order |
| ReplayLedger.Ledger.ClaimCompletion | crates/client/src/browser.rs:746-790 | the file and the answer after a claim: corrupt, replayed, full, written, or failed with or without effect |
| ReplayLedger.ReplayWindow | crates/client/src/browser.rs:767-784 | a digest accepted at t1 is accepted again at t2 only if t2 is at least t1 + 86400, saturating, over every run with a non-decreasing clock and failing writes |
| ReplayLedger.ClaimAcceptedExactlyWhen | crates/client/src/browser.rs:746-790 | a claim is accepted if and only if the ledger can be trusted, no unexpired record has the digest, fewer than 256 are unexpired, and the write succeeds; each refusal has its code |
| ReplayLedger.ClaimLeavesGuard | crates/client/src/browser.rs:767-790 | a claim that lands leaves a record for a day behind exactly the unexpired ones, any other leaves the file |
| ReplayLedger.LedgerBound | crates/client/src/browser.rs:729-734 | a ledger of at most 256 records serialises to at most 44033 bytes |
| ReplayLedger.LedgerStaysReadable | crates/client/src/browser.rs:746-790 | no run of claims writes a ledger of more than 256 records or one the next read could refuse |
| ReplayLedger.WindowIsFullExactlyWhen | crates/client/src/browser.rs:781-784 | an accepted digest is refused for a full day if and only if that day ends before the 64-bit clock does |
| BrowserFlow.Flow.HandleCallback | crates/client/src/browser.rs:315-327 | a callback is refused outside a current system or manual GlobalProtect transaction, and otherwise asks for confirmation |
| BrowserFlow.Flow.AskConfirmation | crates/client/src/browser.rs:328-341 | the account limit, the claim, the prompt and only then the pending completion |
| BrowserFlow.Flow.HandleConfirm | crates/client/src/browser.rs:342-371 | confirmation takes the pending completion and sends its page, a refusal cancels |
| BrowserFlow.Flow.HandlePage | crates/client/src/browser.rs:372-392 | pages of GlobalProtect are read for a completion, others are passed on without their document |
| BrowserFlow.Flow.HandleOpened | crates/client/src/browser.rs:300-314 | the report goes out before the flow is shown, and a failing report leaves it unshown |
| BrowserFlow.OpenedOnce | crates/client/src/browser.rs:300-314 | over every run an external browser is reported open to native code exactly once if it ever reports itself open while native code listens, and otherwise not at all |
| BrowserFlow.FlowInvAlways | crates/client/src/browser.rs:278-392 | the invariant of every flow over every run of any number of flows on one ledger |
| BrowserFlow.AtMostOnePage | crates/client/src/browser.rs:315-392 | native code receives at most one page of a GlobalProtect transaction, and pending and submitted are never both set |
| BrowserFlow.PagesAreConfirmed | crates/client/src/browser.rs:342-369 | a page leaves only while the user confirms, it is the completion whose account was last asked about, and outside embedded mode its cookie was claimed for this flow |
| BrowserFlow.SameCookieIsSentADayApart | crates/client/src/browser.rs:332-334 | two flows outside embedded mode that send the same cookie had it accepted at least a day apart, whatever other flows run |
| BrowserOutcome.OrdinaryPageChangesNothing | crates/client/src/browser.rs:372-392 | in every run an ordinary page of a GlobalProtect transaction, the login page for instance, is answered Ok and changes no flow, no ledger and sends nothing |
| BrowserOutcome.OtherPageIsForwarded | crates/client/src/browser.rs:372-392 | a valid page of another protocol reaches native code with its headers and without its document |
| BrowserOutcome.ConfirmedCompletionIsSubmitted | crates/client/src/browser.rs:315-392 | in every run a completion that arrives by page or callback and whose cookie may be used is put to the user by its account; confirmed, it is what native code receives, declined, native code is cancelled |
| BrowserOutcome.ArrivalIsRefused | crates/client/src/browser.rs:328-341 | a completion with too long an account, a cookie the ledger refuses or no room for the prompt is refused with that reason and leaves its transaction as it was |
| BrowserOutcome.CallbackIsRefused | crates/client/src/browser.rs:315-327 | a callback outside a system or manual transaction still read, one that cannot be decoded, and one without a completion are refused without effect |
| BrowserOutcome.PageIsIgnored | crates/client/src/browser.rs:372-378 | an invalid page, and one that comes when pages are not read any more, changes nothing |
| BrowserOutcome.OpenedIsShown | crates/client/src/browser.rs:300-314 | an open browser is announced by the stage of its mode, unless its report fails; then it is reported again next time |
| BrowserOutcome.ConfirmTakesPending | crates/client/src/browser.rs:342-371 | only a pending completion can be confirmed, and confirming or declining takes it, also when native code does not listen |
| Bootstrap.ReadHeader | crates/client/src/browser_bootstrap.rs:154-169 | whatever the reads deliver, the answer is the decision on the byte stream, and the header is its beginning |
| Bootstrap.LimitIsInclusive | crates/client/src/browser_bootstrap.rs:156-169 | a blank line ending exactly at byte 16384 is accepted, one byte later the request is too large |
| Bootstrap.CheckFields | crates/client/src/browser_bootstrap.rs:180-211 | the loop's flag and last Host accept if and only if every line is a well-formed harmless field and there is one Host, the expected one |
| Bootstrap.RejoinSplit | crates/client/src/browser_bootstrap.rs:174-175 | splitting loses nothing |
| Bootstrap.JudgeMeaning | crates/client/src/browser_bootstrap.rs:170-219 | a GET is answered if and only if the request line is exactly `GET path HTTP/1.1` and the fields are right; likewise HEAD |
| Bootstrap.Respond | crates/client/src/browser_bootstrap.rs:147-220 | a connection from elsewhere, stalled, closed, too large, malformed, for another path or method, or a GET or HEAD to answer |
| Bootstrap.Serve | crates/client/src/browser_bootstrap.rs:119-145 | connections are answered one after another until one ends the listener, or its total time does |
| Bootstrap.AtMostOneGet | crates/client/src/browser_bootstrap.rs:119-145 | at most one GET is answered, nothing is accepted after it, and the listener ends well if and only if it was written |
| Bootstrap.GoodGetIsServed | crates/client/src/browser_bootstrap.rs:125-144 | a good GET is served if and only if no earlier connection ended the listener; rejected, malformed and stalled requests never do |
| Bootstrap.BrokenHeadEndsListener | crates/client/src/browser_bootstrap.rs:139-144 | a HEAD whose response cannot be written ends the listener with an error and no GET |
| Bootstrap.PlainRequestIsAnswered | crates/client/src/browser_bootstrap.rs:147-220 | the bytes of the shortest GET or HEAD for a printable path and authority are answered, in whatever pieces they arrive |
| Bootstrap.HeadKeepsGetOut | crates/client/src/browser_bootstrap.rs:139-144 | such a HEAD with a broken response keeps a good GET behind it from being served |
| BootstrapRequests.TrimMeaning | crates/client/src/browser_bootstrap.rs:197-208 | trimming removes exactly the blanks around a value |
| BootstrapRequests.FieldsMeaning | crates/client/src/browser_bootstrap.rs:180-211 | the fields are right if and only if every line is a well-formed field without a body, upgrade or transfer coding, and exactly one is a Host, the expected one |
| BootstrapRequests.JudgeOutcomes | crates/client/src/browser_bootstrap.rs:174-220 | a header that does not ask in HTTP/1.1 with right fields is malformed; another target is not found, another verb not allowed, GET and HEAD are answered |
| DaemonConnection.Connection.Call | crates/client/src/daemon.rs:71-85 | the stream is put back only after a frame with the request's id |
| DaemonConnection.RequestsPairWithTheirAnswers | crates/client/src/daemon.rs:71-85 | over every run of calls a request is answered only by the frame of its own position and id, silence and other frames fail it with their codes, and after a failed call nothing is sent and every call fails |
| EventStream.Events.NextEvent | crates/client/src/daemon.rs:138-186 | the loop over initial event and wire skips, delivers, fetches or fails exactly as the service relation used below, and closes the stream on a failed read |
| EventStream.SubscriberFollowsService | crates/client/src/daemon.rs:94-110 | at every moment a subscriber holds exactly the service state of its remembered position; without a fetch only log lines were passed over |
| EventStream.DeliveryAdvances | crates/client/src/daemon.rs:156-179 | the position never goes back, and a delivery repeats it if and only if the buffered event it stops at is of an older instance and the service is still at that position |
| EventStream.RepeatsExactlyWhen | crates/client/src/daemon.rs:156-179 | known before the fetch: some true and up-to-date answer delivers the position again if and only if the buffered event at which the call stops belongs to an older instance |
| EventStream.NothingIsDeliveredTwice | crates/client/src/daemon.rs:156-179 | delivered positions strictly increase over the whole subscription, except where a call stops at a buffered event of an older instance |
| EventStream.RestartRepeatsSnapshot | crates/client/src/daemon.rs:169-179 | a restart that makes the subscription deliver one snapshot twice |
| EventStream.FollowerMissesNothing | crates/client/src/daemon.rs:111-130 | a log follower has received every log line after its starting point, once and in order, up to where it stands, and nothing else |
| EventDelivery.NextMeaning | crates/client/src/daemon.rs:138-186 | a call reads exactly the events that give it nothing and the one that stops it; its answer, fetch and new position follow from them |
| EventDelivery.FailsExactlyWhen | crates/client/src/daemon.rs:138-186 | a call fails if and only if its stream is closed or runs out, an event is malformed, or events were lost and it is a log follower or its fetch fails |
| EventDelivery.InOrderIsDelivered | crates/client/src/daemon.rs:160-186 | while events follow one another, a call delivers the first of the requested kind without a fetch, whatever a fetch would answer |
| EventDelivery.SubscriptionStarts | crates/client/src/daemon.rs:94-110 | a new subscription delivers its own snapshot first |
| ConnectAttempt.InspectMeaning | crates/client/src/connect.rs:272-294 | the monitor is satisfied if and only if the snapshot is a live state of the attempt itself; a failure, another attempt and an end of this one have their codes |
| ConnectAttempt.Authenticate | crates/client/src/connect.rs:395-434 | the loop sends and returns exactly what `AuthRun` makes of the connection and the turns |
| ConnectAttempt.AuthMeaning | crates/client/src/connect.rs:395-434 | that is: success only when a handoff came before anything ended the loop and every progress report was accepted, failure for a stated reason with its code; only progress reports are sent |
| ConnectAttempt.AwaitConnected | crates/client/src/connect.rs:452-468 | the loop returns exactly what `WaitRun` makes of the turns |
| ConnectAttempt.WaitMeaning | crates/client/src/connect.rs:452-468 | that is: the attempt's own Connected snapshot if and only if one comes before anything ends the wait, and otherwise the code of what ended it |
| ConnectAttempt.Reserved | crates/client/src/connect.rs:381-468 | requests, connection and result are exactly those of `ReservedRun` |
| ConnectAttempt.ReservedMeaning | crates/client/src/connect.rs:381-468 | that is: Start is sent last, once, and only after authentication with no stop request standing; success is the Connected snapshot the monitor reported after an accepted Start |
| ConnectAttempt.CancelAttempt | crates/client/src/connect.rs:345-375 | Cancel goes to this attempt on its own connection, and on a fresh one exactly when the first answer does not confirm and one can be opened; it is confirmed if and only if one was answered Ok with any payload, Busy or Conflict |
| ConnectAttempt.WaitForCleanup | crates/client/src/connect.rs:470-491 | the polling loop returns exactly what `PollRun` makes of the opened connection |
| ConnectAttempt.PollMeaning | crates/client/src/connect.rs:470-491 | that is: success if and only if the last answer shows the slot idle, owned by another attempt, or Busy, the attempt still being owned in every earlier one |
| ConnectAttempt.Connect | crates/client/src/connect.rs:296-379 | result, requests and all connections are exactly those of `ConnectRun` |
| ConnectAttempt.EveryRunEndsWell | crates/client/src/connect.rs:296-379 | over every script: a run ends Connected with the snapshot the monitor reported after an accepted Start and cancels nothing, or with its own error after a confirmed Cancel and a cleanup observed on the fresh connection, or with the cancellation or cleanup error; a second Cancel and the cleanup take place exactly when they should; every connection holds just the answers its requests drew from the script |
| ConnectOutcome.AuthSucceedsExactlyWhen | crates/client/src/connect.rs:395-434 | the authentication loop succeeds if and only if a handoff comes and every report of activity before it is accepted |
| ConnectOutcome.StartsExactlyWhen | crates/client/src/connect.rs:312-451 | Start is sent for an attempt if and only if it was reserved, no stop stands, the monitor is open, there is a handoff and every report before it was accepted |
| ConnectOutcome.ConnectsExactlyWhen | crates/client/src/connect.rs:296-468 | a run connects with a snapshot if and only if that holds, Start is accepted too, and the monitor reports that snapshot as the attempt's tunnel before anything ends the wait |
| ConnectOutcome.PassedMeaning | crates/client/src/connect.rs:395-434 | the authentication loop goes on exactly after activity, an event that is passed on, and a monitor that says nothing against the attempt |
| ConnectOutcome.TunnelMeaning | crates/client/src/connect.rs:452-468 | the wait is for the attempt's own Connected snapshot before a stop request, a failing monitor or another tunnel |
| ConnectOutcome.UnreservedRuns | crates/client/src/connect.rs:305-331 | without an attempt the run asks at most for the reservation and ends with the error of the first thing in its way |
| ConnectOutcome.CancelsAgainExactlyWhen | crates/client/src/connect.rs:345-377 | a failed attempt is cancelled again on a fresh connection if and only if its first Cancel got neither an Ok nor Busy nor Conflict, and cleanup is watched if and only if one of the answers was one of these |
| ConnectOutcome.CleanupAnswers | crates/client/src/connect.rs:470-491 | which answers end the wait for cleanup, let it go on, or fail it with which error |
| ConnectAttempt.StartAtMostOnce | crates/client/src/connect.rs:436-451 | on the connection of an attempt Start and Cancel are each sent at most once, and only for the attempt that was reserved |
| ProfileStore.ValidateProfiles | crates/client/src/profiles.rs:51-64 | the sets accept a list if and only if all profiles are valid and ids and names are distinct, and report the first fault |
| ProfileStore.CheckedMeaning | crates/client/src/profiles.rs:51-64 | the same for the specification |
| ProfileStore.ImportConflicts | crates/client/src/profiles.rs:211-229 | the scan is empty if and only if the concatenation has distinct ids and names, and every finding names something that stands twice |
| ProfileStore.MetadataStore.Create | crates/client/src/profiles.rs:145-154 | the profile is added at revision 1 when it is valid and clashes with nothing; otherwise the store stays and the answer says why |
| ProfileStore.MetadataStore.Update | crates/client/src/profiles.rs:155-170 | the profile is replaced at the next revision only over its own current revision; every refusal leaves the store |
| ProfileStore.MetadataStore.Duplicate | crates/client/src/profiles.rs:171-182 | a copy with a fresh id, the given name and revision 1 is added, or nothing |
| ProfileStore.MetadataStore.Remove | crates/client/src/profiles.rs:183-202 | an unprotected profile at the expected revision disappears with its credentials; the credentials are touched only after every check and deleted as far as the keyring lets them |
| ProfileStore.MetadataStore.DeleteCredentials | crates/client/src/credentials.rs:197-207 | the loop over the purposes erases up to the first failure, which it reports, and only that profile's |
| ProfileStoreRuns.CredentialsLost | crates/client/src/profiles.rs:183-202 | a call loses a credential if and only if it is a removal of its profile that passes every check and the deletions came as far as its purpose |
| ProfileStore.MetadataStore.Import | crates/client/src/profiles.rs:203-233 | all imported profiles are added at revision 1, or none; version, revision, validity and clashes are checked in the order of the source |
| ProfileStore.MetadataStore.ExportProfiles | crates/client/src/profiles.rs:234-245 | one selected profile or all of them, under schema version 1 |
| ProfileStore.MetadataStore.SavePin | crates/client/src/profiles.rs:317-334 | a normalised pin replaces the one of its host and port or is added, at the expected revision only |
| ProfileStoreRuns.StoreStaysReadable | crates/client/src/profiles.rs:119-334 | over every sequence of calls and failing writes ids and names stay unique, one pin stands for a host and port, and the store stays readable |
| ProfileStoreRuns.ReadableMeaning | crates/client/src/profiles.rs:119-133 | what a readable store is |
| ProfileStoreRuns.RefusalChangesNothing | crates/client/src/profiles.rs:145-334 | a refused call changes no document unless a failing write took effect, and loses a credential if and only if it is a removal that passed every check and whose deletions reached one |
| ProfileStoreRuns.RefusedRemovalLosesPassword | crates/client/src/credentials.rs:197-207 | such a removal: the keyring locks after the first deletion and the password is gone while the profile stays |
| ProfileStoreRuns.RevisionStep | crates/client/src/profiles.rs:155-202 | only an update of the profile moves its revision, by one, and only its own removal makes it disappear |
| ProfileStoreRuns.UpdateNeedsItsRevision | crates/client/src/profiles.rs:164-165 | an update succeeds only over the revision it carries |
| ProfileStoreRuns.UpdatesExcludeEachOther | crates/client/src/profiles.rs:35-43 | of two updates carrying the same revision of a profile not removed in between at most one succeeds |
| ProfileEffects.CreatesExactlyWhen | crates/client/src/profiles.rs:145-154 | a create is answered Ok if and only if the profile is valid, its id and name are free and the document can be written; then exactly it is added at revision 1 |
| ProfileEffects.DuplicatesExactlyWhen | crates/client/src/profiles.rs:171-182 | likewise a copy of the one profile the selector names, under the drawn id and the new name |
| ProfileEffects.UpdatesExactlyWhen | crates/client/src/profiles.rs:155-170 | an update is answered Ok if and only if its own revision is stored, it is valid and no other profile has its name; then exactly that profile is replaced at the next revision |
| ProfileEffects.RemovesExactlyWhen | crates/client/src/profiles.rs:183-202 | a removal is answered Ok if and only if the profile is not protected and at its revision, and keyring and document can be written; then exactly it is gone, with all its credentials and no others |
| ProfileEffects.ImportsExactlyWhen | crates/client/src/profiles.rs:203-233 | an import is answered Ok if and only if every profile is valid and nothing stands twice; then all are added at revision 1 |
| ProfileEffects.SavesPinExactlyWhen | crates/client/src/profiles.rs:317-334 | a pin is saved if and only if it is well formed and the expected revision is stored; then it stands alone for its host and port and all other pins stay |
| ProfileEffects.DecodeMeaning | crates/client/src/profiles.rs:336-372 | an import is read if and only if it carries the current schema, no zero revision and fitting fields; a newer schema has its own error |
| ProfileEffects.UnusableStoreStays | crates/client/src/profiles.rs:119-133 | nothing is stored over a document that cannot be read or holds invalid or clashing profiles |
| ProfileEffects.UnusablePinsStay | crates/client/src/profiles.rs:300-334 | nor over such a pin document |
| ProfileStoreRuns.ImportRestoresExport | crates/client/src/profiles.rs:203-245 | importing an export adds the exported profiles at revision 1 if and only if nothing clashes, and changes nothing otherwise |
| ProfileStoreRuns.ExportFillsEmptyStore | crates/client/src/profiles.rs:203-245 | an export imported into an empty store restores it up to revisions |
| Reservation.InvAlways | crates/client/src/configuration.rs:47-84 | the lock and slot invariants over every interleaving of starts, removals and the service |
| Reservation.ReservedProfileStays | crates/client/src/connect.rs:312-332 | from its answered reservation to the end of the attempt no interleaving removes the profile |
| Reservation.LosesProfileExactlyWhen | crates/client/src/configuration.rs:47-84 | from a reachable state an owned slot can come to lose its profile if and only if the profile is gone already, the slot is not yet visible, or a remover of the profile has looked without seeing it |
| Reservation.LostSlotWasNeverAnswered | crates/client/src/configuration.rs:63-84 | a slot whose profile is gone belongs to a start that gave up before its reservation was ever answered |
| Reservation.LateGrantLosesItsProfile | crates/client/src/connect.rs:316-331 | a run in which that happens |
| Utf8Truncation.ValidIsEncoded | native/bridge/ocgui.c:389-390 | a text counts as valid if and only if it encodes Unicode scalar values as section 3 of RFC 3629 says |
| Utf8Truncation.CutAtCharacter | native/bridge/ocgui.c:402-409 | where a valid text may be cut, at most four bytes before any byte of it |
| Utf8Truncation.CutAtZero | native/bridge/ocgui.c:409-413 | cutting a valid text at its first zero byte leaves a valid text |
| Utf8Truncation.CutEnd | native/bridge/ocgui.c:403-408 | the truncated copy ends at most four bytes before the buffer does, between characters if the message is valid |
| Utf8Truncation.Progress | native/bridge/ocgui.c:373-415 | the callback gets the C string of a message of up to 65535 bytes; a longer valid message is cut between characters at 65531 to 65535 bytes first; what arrives is valid UTF-8 if the message is |
| Frames.BoundedWriter.Write | crates/model/src/ipc.rs:151-157 | a chunk is taken whole or refused |
| Frames.WriteChunks | crates/model/src/ipc.rs:130-135 | chunked writes all succeed if and only if their total is at most 2^20 bytes |
| Frames.HeaderRoundTrip | crates/model/src/ipc.rs:136-139 | so the cast of the length to 32 bits is exact |
| Frames.Channel.WriteFrame | crates/model/src/ipc.rs:126-148 | header and payload are appended, or nothing is |
| Frames.Channel.ReadFrame | crates/model/src/ipc.rs:107-124 | the value read and the bytes left |
| Frames.FrameReadsBack | crates/model/src/ipc.rs:107-148 | a written frame reads back with the following bytes untouched if and only if its payload is not empty |
| Frames.CutFrameFails | crates/model/src/ipc.rs:107-124 | every proper prefix of a frame is an error |
| Frames.FramesRoundTrip | crates/model/src/ipc.rs:107-148 | any list of values reads back from its frames, and the bytes after them stay |
| Frames.ReadsExactlyFrames | crates/model/src/ipc.rs:107-124 | what can be read is exactly a frame of 1 to 2^20 bytes whose payload decodes, whatever follows; anything else is a protocol violation |
| Frames.CutStreamGivesWholeFrames | crates/model/src/ipc.rs:107-148 | a stream of frames cut at any byte gives exactly the values of its whole frames |

## Assumptions about the surroundings

* Native code releases a one-time code only if `token_unlock` returned 0, and calls it once for
  each successful `token_lock` (`Hotp`).
* The service numbers events consecutively within an instance, and a snapshot, fetched or
  delivered, is true of its own sequence number. That positions never go back also needs that
  a fetched snapshot is no older than what the subscriber has read, in the order in which
  instances were born (`EventStream`).
* The service shows a profile as active once it has answered its reservation (`Reservation`).
* The group option of a form is a selection, as native/include/openconnect.h:291 declares it;
  only `AuthFormRuns.SavedPasswordIsTheOnlyOne` needs it (`AuthForm`).
* A deserialiser inverts its serialiser, and a serialised value is never empty (`Frames`).
* A profile's validity depends on its revision only in that it is not 0; normalising a pin twice
  changes nothing more (`ProfileStore`).

## Left out

- The XML tokenizer, base64, SHA-256, JSON syntax and URL parsing are library code: the parser starts from reader events, digests and decoded values are parameters.
- Native OpenConnect and GnuTLS calls, raw pointers and C strings: only return codes and the order of callbacks are modelled.
- `Worker::certificate`, `Worker::browser` and the choice of a browser mode: their waiting and reply handling are part of AuthExchange, the TLS and portal logic around it is not.
- Form labels, captions of fields, banners and messages: they are shown and never decide anything.
- The fields of `Profile::validate` and `CertificatePin::new`: they are predicates given to the store.
- Settings documents: they repeat the revision check of the profile documents.
- Browser processes, peer identification, certificate decisions of the embedded browser and the clean-up of its directories.
- The event queue between `run` and its user (`Attempt::next`) and the lock around its control: hand-over of values already covered.
- The privileged service and the network helper: they appear as environments with the contracts above.
- Failed formatting and allocation of a progress message: the callback then gets a fixed text.
- Real time: a wait that runs out is a step that may happen at any moment; only the ledger's clock is a number.
- Transient failures to lock, open or read the ledger and the metadata files, and I/O errors while writing a frame: such a call ends at once and changes nothing it owns.
- A failing accept of the bootstrap listener, and the bytes of its responses.
- The log backlog sent before a followed stream.
- Panics: one under the certificate lock is modelled, others are not.
- Windows access control, Unix ownership checks, directory durability and keyring backends.
- Desktop, terminal and command-line interfaces, packaging and test fixtures.
- Zeroisation of memory.
- Hotp.ReleaseOrder: states when released counters increase instead of promising that they always do, because they need not.
- AuthFormRuns.SavedPasswordDestination: excepts a form whose group option is a password option, because there the code shows the group alone.
- CompletionText.ParseInvertsPrint: relates the text to its events by a writer, because the tokenizer is library code; pieces the reader would take for other events are excluded.
- EventStream.NothingIsDeliveredTwice: excepts calls that stop at a buffered event of an older instance, which can repeat a position.
