/**
 Which attempts start and which connect (`run` in `crates/client/src/connect.rs`), in terms
 of what arrives on the connection and what the loops see.
 */
module ConnectOutcome {
  import opened Common
  import opened DaemonConnection
  import opened ConnectAttempt

  /** Nothing stood in the way of the reservation, and the first answer reserved the attempt. */
  predicate ReservedAs(script: Script, attempt: nat) {
    && !script.stoppedAtStart && script.control.Open? && !script.stoppedBeforeUse
    && script.profileCurrent.Ok? && !script.stoppedBeforeReserve
    && script.control.wire != [] && script.control.wire[0] == Frame(0, Ok(Reserved(attempt)))
  }

  function Activities(turns: seq<Turn>): nat {
    if turns == [] then 0
    else Activities(turns[..|turns| - 1]) + (if turns[|turns| - 1].Activity? then 1 else 0)
  }

  /** Authentication hands over after `n` signs of activity, each of which is to be reported. */
  predicate HandsOver(turns: seq<Turn>, attempt: nat, n: nat) {
    exists k :: 0 <= k < |turns| && HandsOverAt(turns, attempt, k) && n == Activities(turns[..k])
  }

  predicate HandsOverAt(turns: seq<Turn>, attempt: nat, k: nat)
    requires k < |turns|
  {
    turns[k].Auth? && turns[k].event.Authenticated? && forall j :: 0 <= j < k ==> Passed(turns[j], attempt)
  }

  /** The monitor says nothing against the attempt, and the user interface hears what it says. */
  predicate Quiet(item: Result<Item>, emitted: bool, attempt: nat) {
    && item.Ok?
    && (item.value.Seen? ==>
          && emitted && item.value.snapshot.attempt == Some(attempt)
          && item.value.snapshot.state in {Authenticating, Connecting, Connected, Reconnecting})
  }

  /** Which turns of the authentication loop let it go on: activity, what it passes on, and a quiet monitor. */
  lemma PassedMeaning(t: Turn, attempt: nat)
    ensures Passed(t, attempt) <==>
            || t.Activity?
            || (t.Auth? && t.event in {Notice, Interaction} && t.emitted)
            || (t.Monitored? && Quiet(t.item, t.emitted, attempt))
  {
    if t.Monitored? && t.item.Ok? && t.item.value.Seen? {
      InspectMeaning(t.item.value.snapshot, attempt);
    }
  }

  /** The monitor reports this snapshot as the tunnel of the attempt. */
  predicate Shows(t: Turn, attempt: nat, s: Snapshot) {
    t.Monitored? && t.item == Ok(Seen(s)) && s.state == Connected && s.attempt == Some(attempt)
  }

  /** It does so before any stop request and while the monitor is quiet and has not reported another tunnel. */
  predicate TunnelReported(turns: seq<Turn>, attempt: nat, s: Snapshot) {
    exists k :: 0 <= k < |turns| && Shows(turns[k], attempt, s)
                && forall j :: 0 <= j < k ==> StillWaits(turns[j], attempt)
  }

  predicate StillWaits(t: Turn, attempt: nat) {
    t.Activity? || t.Auth?
    || (t.Monitored? && Quiet(t.item, t.emitted, attempt)
        && (t.item.value.Seen? ==> t.item.value.snapshot.state != Connected))
  }

  lemma TunnelMeaning(turns: seq<Turn>, attempt: nat, s: Snapshot)
    ensures ConnectedAt(turns, attempt, s) <==> TunnelReported(turns, attempt, s)
  {
    hide Inspect, Quiet;
    forall k | 0 <= k < |turns|
      ensures Harmless(turns[k], attempt) <==> StillWaits(turns[k], attempt)
      ensures Shows(turns[k], attempt, s) <==>
              ReportsConnected(turns[k], attempt) && turns[k].item.value.snapshot == s
    {
      TurnMeaning(turns[k], attempt);
    }
    hide Harmless, StillWaits, ReportsConnected, Shows;
  }

  lemma TurnMeaning(t: Turn, attempt: nat)
    ensures Harmless(t, attempt) <==> StillWaits(t, attempt)
  {
    if t.Monitored? && t.item.Ok? && t.item.value.Seen? {
      InspectMeaning(t.item.value.snapshot, attempt);
    }
  }

  /** Start is due after `n` reports: no stop request stands, the monitor is open, and there is a handoff. */
  predicate StartIsDue(script: Script, attempt: nat, n: nat) {
    && !script.stoppedAfterReserve && script.monitor.Ok? && !script.stoppedBeforeStart
    && (if script.handoffSupplied then n == 0 else HandsOver(script.authTurns, attempt, n))
  }

  /** The next `n` arrivals accept the next `n` requests. */
  predicate Accepts(l: Link, n: nat) {
    && l.stream.Some? && n <= |l.stream.value|
    && forall k :: 0 <= k < n ==> l.stream.value[k] == Frame(l.issued + k, Ok(Accepted))
  }

  lemma CallAccepted(l: Link, m: Rpc)
    requires l.stream.Some?
    ensures var (next, answer) := Called(l, m);
            && (answer == Ok(Accepted) <==> Accepts(l, 1))
            && (answer == Ok(Accepted) ==>
                  next.stream == Some(l.stream.value[1..]) && next.issued == l.issued + 1)
  {
  }

  lemma AcceptsLater(l: Link, next: Link, n: nat)
    requires Accepts(l, 1) && next.stream == Some(l.stream.value[1..]) && next.issued == l.issued + 1
    ensures Accepts(next, n) <==> Accepts(l, n + 1)
  {
    var (all, rest) := (l.stream.value, next.stream.value);
    assert forall k :: 0 <= k < |rest| ==> rest[k] == all[k + 1];
    if Accepts(next, n) {
      forall k | 0 <= k < n + 1
        ensures all[k] == Frame(l.issued + k, Ok(Accepted))
      {
        if k > 0 {
          assert rest[k - 1] == all[k];
        }
      }
    }
  }

  lemma {:induction false} ActivitiesLater(turns: seq<Turn>, k: nat)
    requires 0 < k <= |turns|
    ensures Activities(turns[..k]) == (if turns[0].Activity? then 1 else 0) + Activities(turns[1..][..k - 1])
    decreases k
  {
    assert turns[..k][..k - 1] == turns[..k - 1];
    if k == 1 {
      assert turns[..1][..0] == [] && turns[1..][..0] == [];
    } else {
      ActivitiesLater(turns, k - 1);
      assert turns[1..][..k - 1][..k - 2] == turns[1..][..k - 2];
    }
  }

  lemma HandsOverLater(turns: seq<Turn>, attempt: nat, n: nat)
    requires turns != []
    ensures HandsOver(turns, attempt, n) <==>
            if turns[0].Auth? && turns[0].event.Authenticated? then n == 0
            else
              && Passed(turns[0], attempt)
              && (turns[0].Activity? ==> n > 0)
              && HandsOver(turns[1..], attempt, if turns[0].Activity? then n - 1 else n)
  {
    hide Passed;
    var rest := turns[1..];
    assert forall j :: 0 < j < |turns| ==> turns[j] == rest[j - 1];
    assert turns[0].Auth? && turns[0].event.Authenticated? ==>
        !Passed(turns[0], attempt) by { HandoffEnds(turns[0], attempt); }
    if k :| 0 <= k < |turns| && HandsOverAt(turns, attempt, k) && n == Activities(turns[..k]) {
      if k > 0 {
        ActivitiesLater(turns, k);
        assert HandsOverAt(rest, attempt, k - 1);
      } else {
        assert turns[..0] == [];
      }
    }
    if turns[0].Auth? && turns[0].event.Authenticated? {
      assert turns[..0] == [] && HandsOverAt(turns, attempt, 0);
    } else if Passed(turns[0], attempt) && (turns[0].Activity? ==> n > 0) {
      var m: nat := if turns[0].Activity? then n - 1 else n;
      if k :| 0 <= k < |rest| && HandsOverAt(rest, attempt, k) && m == Activities(rest[..k]) {
        ActivitiesLater(turns, k + 1);
        assert HandsOverAt(turns, attempt, k + 1);
      }
    }
  }

  lemma HandsOverCases(turns: seq<Turn>, attempt: nat)
    requires turns != []
    ensures turns[0].Activity? ==>
              && !HandsOver(turns, attempt, 0)
              && forall n: nat :: HandsOver(turns[1..], attempt, n) <==> HandsOver(turns, attempt, n + 1)
    ensures !turns[0].Activity? && Passed(turns[0], attempt) ==>
              forall n: nat :: HandsOver(turns[1..], attempt, n) <==> HandsOver(turns, attempt, n)
    ensures !Passed(turns[0], attempt) ==>
              forall n: nat :: HandsOver(turns, attempt, n) ==>
                                 turns[0].Auth? && turns[0].event.Authenticated? && n == 0
    ensures turns[0].Auth? && turns[0].event.Authenticated? ==>
              HandsOver(turns, attempt, 0) && !Passed(turns[0], attempt)
  {
    hide Passed, HandsOver;
    HandoffEnds(turns[0], attempt);
    HandsOverLater(turns, attempt, 0);
    forall n: nat
      ensures turns[0].Activity? ==> (HandsOver(turns[1..], attempt, n) <==> HandsOver(turns, attempt, n + 1))
      ensures !turns[0].Activity? && Passed(turns[0], attempt) ==>
                (HandsOver(turns[1..], attempt, n) <==> HandsOver(turns, attempt, n))
      ensures !Passed(turns[0], attempt) && HandsOver(turns, attempt, n) ==>
                turns[0].Auth? && turns[0].event.Authenticated? && n == 0
    {
      HandsOverLater(turns, attempt, n);
      HandsOverLater(turns, attempt, n + 1);
    }
  }

  lemma HandoffEnds(t: Turn, attempt: nat)
    ensures t.Auth? && t.event.Authenticated? ==> !Passed(t, attempt) && AuthTurnError(t, attempt).None?
    ensures t.Activity? ==> Passed(t, attempt)
    ensures !t.Activity? && !(t.Auth? && t.event.Authenticated?) ==>
              (Passed(t, attempt) <==> AuthTurnError(t, attempt).None?)
  {
  }

  /** The loop succeeds exactly on a handoff all of whose reports are accepted. */
  lemma {:induction false} AuthSucceedsExactlyWhen(l: Link, attempt: nat, turns: seq<Turn>)
    requires l.stream.Some?
    ensures var (end, reports, r) := AuthRun(l, attempt, turns);
            && (forall n: nat :: HandsOver(turns, attempt, n) && Accepts(l, n) ==> r.Ok? && reports == n)
            && (r.Ok? ==>
                  && HandsOver(turns, attempt, reports) && Accepts(l, reports)
                  && end.stream == Some(l.stream.value[reports..]) && end.issued == l.issued + reports)
    decreases |turns|
  {
    hide Passed, Called, HandsOver, Accepts, AuthTurnError;
    if turns == [] {
      NoTurns(attempt);
    } else {
      HandoffEnds(turns[0], attempt);
      HandsOverCases(turns, attempt);
      NoneToAccept(l);
      if turns[0].Activity? {
        var (next, answer) := Called(l, AuthProgress(attempt));
        CallAccepted(l, AuthProgress(attempt));
        forall n: nat | n > 0 && answer != Ok(Accepted)
          ensures !Accepts(l, n)
        {
          FewerAccepted(l, n);
        }
        if answer == Ok(Accepted) {
          AuthSucceedsExactlyWhen(next, attempt, turns[1..]);
          forall n: nat
            ensures Accepts(next, n) <==> Accepts(l, n + 1)
          {
            AcceptsLater(l, next, n);
          }
          forall n: nat | n > 0 && HandsOver(turns, attempt, n) && Accepts(l, n)
            ensures AuthRun(l, attempt, turns).2.Ok? && AuthRun(l, attempt, turns).1 == n
          {
            var m: nat := n - 1;
            assert HandsOver(turns[1..], attempt, m) && Accepts(next, m);
          }
          var reports := AuthRun(next, attempt, turns[1..]).1;
          if AuthRun(next, attempt, turns[1..]).2.Ok? {
            AcceptsEnough(l, reports + 1);
            assert l.stream.value[1..][reports..] == l.stream.value[reports + 1..];
          }
        }
      } else if Passed(turns[0], attempt) {
        AuthSucceedsExactlyWhen(l, attempt, turns[1..]);
        var run := AuthRun(l, attempt, turns[1..]);
        assert AuthRun(l, attempt, turns) == run;
        assert HandsOver(turns[1..], attempt, run.1) <==> HandsOver(turns, attempt, run.1);
      } else if turns[0].Auth? && turns[0].event.Authenticated? {
        assert l.stream.value[0..] == l.stream.value;
      }
    }
  }

  lemma NoTurns(attempt: nat)
    ensures forall n: nat :: !HandsOver([], attempt, n)
  {
  }

  lemma NoneToAccept(l: Link)
    requires l.stream.Some?
    ensures Accepts(l, 0)
  {
  }

  lemma FewerAccepted(l: Link, n: nat)
    requires n > 0
    ensures Accepts(l, n) ==> Accepts(l, 1)
  {
  }

  // ---------------------------------------------------------------- the whole attempt

  /** The first answer reserves the attempt exactly then. */
  lemma ReservedExactlyWhen(script: Script, attempt: nat)
    ensures ReserveOutcome(script) == Ok(attempt) <==> ReservedAs(script, attempt)
  {
  }

  lemma AfterReservation(profile: nat, script: Script, attempt: nat)
    requires ReservedAs(script, attempt)
    ensures var l := Called(Fresh(script.control.wire), Reserve(profile)).0;
            l.stream == Some(script.control.wire[1..]) && l.issued == 1
  {
  }

  /** From a link: Start is sent exactly when it is due after so many reports and all of them are accepted. */
  lemma ReservedStartsExactlyWhen(l: Link, attempt: nat, script: Script)
    requires l.stream.Some?
    ensures var (end, sent, r) := ReservedRun(l, attempt, script);
            && (Start(attempt) in sent <==> exists n: nat :: StartIsDue(script, attempt, n) && Accepts(l, n))
            && forall s :: r == Ok(s) <==>
                           && ConnectedAt(script.startTurns, attempt, s)
                           && exists n: nat :: StartIsDue(script, attempt, n) && Accepts(l, n + 1)
  {
    hide AuthRun, WaitRun, Called, ConnectedAt, HandsOver, Accepts;
    if !script.stoppedAfterReserve && script.monitor.Ok? {
      var (ready, reports, authenticated) :=
        if script.handoffSupplied then (l, 0, Ok(())) else AuthRun(l, attempt, script.authTurns);
      NoneToAccept(l);
      AuthSucceedsExactlyWhen(l, attempt, script.authTurns);
      assert Start(attempt) !in Reports(attempt, reports);
      if authenticated.Err? {
        forall n: nat | StartIsDue(script, attempt, n)
          ensures !Accepts(l, n) && !Accepts(l, n + 1)
        {
          OneFewer(l, n);
        }
      } else if !script.stoppedBeforeStart {
        assert StartIsDue(script, attempt, reports) && Accepts(l, reports);
        forall n: nat | StartIsDue(script, attempt, n) && Accepts(l, n + 1)
          ensures n == reports
        {
          OneFewer(l, n);
        }
        AcceptsEnough(l, reports);
        assert ready.stream == Some(l.stream.value[reports..]) && ready.issued == l.issued + reports by {
          assert l.stream.value[0..] == l.stream.value;
        }
        CallAccepted(ready, Start(attempt));
        AcceptsOneMore(l, ready, reports);
        WaitMeaning(attempt, script.startTurns);
      }
    }
  }

  lemma OneFewer(l: Link, n: nat)
    ensures Accepts(l, n + 1) ==> Accepts(l, n)
  {
  }

  lemma AcceptsOneMore(l: Link, ready: Link, n: nat)
    requires Accepts(l, n) && ready.stream == Some(l.stream.value[n..]) && ready.issued == l.issued + n
    ensures Accepts(ready, 1) <==> Accepts(l, n + 1)
  {
    if n < |l.stream.value| {
      assert ready.stream.value[0] == l.stream.value[n];
    }
  }

  /** The answers that follow the reservation: the next `n` are Accepted, each for its own request. */
  predicate AcceptsAfterReserve(wire: seq<Wire>, n: nat) {
    n < |wire| && forall k :: 0 < k <= n ==> wire[k] == Frame(k, Ok(Accepted))
  }

  lemma SameAnswers(l: Link, wire: seq<Wire>, n: nat)
    requires wire != [] && l.stream == Some(wire[1..]) && l.issued == 1
    ensures Accepts(l, n) <==> AcceptsAfterReserve(wire, n)
  {
    assert forall k :: 0 < k < |wire| ==> wire[1..][k - 1] == wire[k];
    if Accepts(l, n) {
      forall k | 0 < k <= n
        ensures wire[k] == Frame(k, Ok(Accepted))
      {
        assert l.stream.value[k - 1] == wire[k];
      }
    }
  }

  /**
   Start is sent exactly when the attempt was reserved, Start is due, and every report before
   it was accepted: a supplied handoff needs none of them.
   */
  lemma StartsExactlyWhen(profile: nat, script: Script, attempt: nat)
    ensures Start(attempt) in ConnectRun(profile, script).1.sent <==>
            && ReservedAs(script, attempt)
            && exists n: nat :: StartIsDue(script, attempt, n) && AcceptsAfterReserve(script.control.wire, n)
  {
    hide ReservedRun, Called, StartIsDue, AcceptsAfterReserve, Accepts, ReserveOutcome, ReservedAs;
    ReservedExactlyWhen(script, attempt);
    if ReservedAs(script, attempt) {
      ReservedNotEmpty(script, attempt);
      AfterReservation(profile, script, attempt);
      var l := Called(Fresh(script.control.wire), Reserve(profile)).0;
      ReservedStartsExactlyWhen(l, attempt, script);
      forall n: nat
        ensures Accepts(l, n) <==> AcceptsAfterReserve(script.control.wire, n)
      {
        SameAnswers(l, script.control.wire, n);
      }
    } else if ReserveOutcome(script).Ok? {
      OnlyItsOwnStart(profile, script, attempt);
    }
  }

  lemma ReservedNotEmpty(script: Script, attempt: nat)
    requires ReservedAs(script, attempt)
    ensures script.control.Open? && script.control.wire != []
  {
  }

  lemma OnlyItsOwnStart(profile: nat, script: Script, attempt: nat)
    requires ReserveOutcome(script).Ok? && ReserveOutcome(script).value != attempt
    ensures Start(attempt) !in ConnectRun(profile, script).1.sent
  {
    hide ReservedRun, AuthRun, WaitRun, Called;
    EveryRunEndsWell(profile, script);
    StartAtMostOnce(ConnectRun(profile, script).1.sent, profile, Some(ReserveOutcome(script).value), Start(attempt));
  }

  /**
   Exactly which runs connect, and with which snapshot: the attempt was reserved, Start was due
   and it and every report before it were accepted, and the monitor reported that snapshot as the
   attempt's tunnel before anything ended the wait.
   */
  lemma ConnectsExactlyWhen(profile: nat, script: Script, s: Snapshot)
    ensures ConnectRun(profile, script).0 == Ok(s) <==>
            exists attempt: nat, n: nat ::
              && ReservedAs(script, attempt) && StartIsDue(script, attempt, n)
              && AcceptsAfterReserve(script.control.wire, n + 1)
              && TunnelReported(script.startTurns, attempt, s)
  {
    hide TunnelReported, ReservedRun, FailedRun, Called, StartIsDue, AcceptsAfterReserve, Accepts, ReserveOutcome,
      ReservedAs, ConnectedAt;
    forall attempt: nat
      ensures ReserveOutcome(script) == Ok(attempt) <==> ReservedAs(script, attempt)
    {
      ReservedExactlyWhen(script, attempt);
    }
    if ReserveOutcome(script).Ok? {
      var attempt := ReserveOutcome(script).value;
      TunnelMeaning(script.startTurns, attempt, s);
      ReservedNotEmpty(script, attempt);
      AfterReservation(profile, script, attempt);
      var l := Called(Fresh(script.control.wire), Reserve(profile)).0;
      ReservedStartsExactlyWhen(l, attempt, script);
      forall n: nat
        ensures Accepts(l, n) <==> AcceptsAfterReserve(script.control.wire, n)
      {
        SameAnswers(l, script.control.wire, n);
      }
      var inner := ReservedRun(l, attempt, script).2;
      if inner.Err? {
        FailureStays(script, attempt, profile);
      }
    }
  }

  lemma FailureStays(script: Script, attempt: nat, profile: nat)
    requires ReserveOutcome(script) == Ok(attempt)
    requires ReservedRun(Called(Fresh(script.control.wire), Reserve(profile)).0, attempt, script).2.Err?
    ensures ConnectRun(profile, script).0.Err?
  {
    hide ReservedRun, Called, PollRun;
  }

  lemma AcceptsEnough(l: Link, n: nat)
    ensures Accepts(l, n) ==> l.stream.Some? && n <= |l.stream.value|
  {
  }

  // ---------------------------------------------------------------- runs that do not connect

  /** Reserve is asked for exactly when no stop stands before it, a connection is open and the profile is current. */
  predicate AsksToReserve(script: Script) {
    !script.stoppedAtStart && script.control.Open? && !script.stoppedBeforeUse && script.profileCurrent.Ok?
    && !script.stoppedBeforeReserve
  }

  /** Without an attempt: what is asked, and the error of the first thing in the way. */
  lemma UnreservedRuns(profile: nat, script: Script)
    requires forall attempt: nat :: !ReservedAs(script, attempt)
    ensures var (r, t) := ConnectRun(profile, script);
            && t.attempt.None? && r.Err?
            && t.sent == (if AsksToReserve(script) then [Reserve(profile)] else [])
            && (script.stoppedAtStart ==> r == Err(Cancelled))
            && (!script.stoppedAtStart && script.control.Open? && script.stoppedBeforeUse ==> r == Err(Cancelled))
            && (!script.stoppedAtStart && script.control.Open? && !script.stoppedBeforeUse
                && script.profileCurrent.Ok? ==>
                  script.stoppedBeforeReserve ==> r == Err(Cancelled))
            && (AsksToReserve(script) ==>
                  var wire := script.control.wire;
                  r == if wire == [] || wire[0].Silence? then Err(ServiceUnavailable)
                  else if wire[0].Frame? && wire[0].id == 0 && wire[0].result.Err? then Err(wire[0].result.code)
                  else Err(ProtocolViolation))
  {
    if ReserveOutcome(script).Ok? {
      ReservedExactlyWhen(script, ReserveOutcome(script).value);
    }
    hide ReservedRun;
  }

  /** The service answers that it has nothing to cancel any more, or that it cancels. */
  predicate SettlesCancel(answer: Result<Payload>) {
    answer.Ok? || answer.code in {Busy, Conflict}
  }

  /**
   A failed attempt is cancelled on its own connection, and on a fresh one exactly when that answer
   settles nothing.
   */
  lemma CancelsAgainExactlyWhen(profile: nat, script: Script)
    requires var (r, t) := ConnectRun(profile, script); r.Err? && t.attempt.Some?
    ensures var (r, t) := ConnectRun(profile, script);
            var n := |t.sent| - 1;
            && script.control.Open? && n >= 0 && t.sent[n] == Cancel(t.attempt.value)
            && var first := Reply(Fresh(script.control.wire), t.sent, n);
            && (t.retried.Some? <==> !SettlesCancel(first) && script.recovery.Open?)
            && (t.watch.Some? <==>
                && script.cleanup.Open?
                && (SettlesCancel(first)
                    || (script.recovery.Open?
                        && SettlesCancel(Reply(Fresh(script.recovery.wire), [Cancel(t.attempt.value)], 0)))))
  {
    hide ReservedRun, PollRun, Called, After;
    EveryRunEndsWell(profile, script);
    ReservedStaysOpen(script);
    var t := ConnectRun(profile, script).1;
    var n := |t.sent| - 1;
    CancelIsLast(profile, script);
    if script.recovery.Open? {
      OneCall(Fresh(script.recovery.wire), Cancel(t.attempt.value));
    }
  }

  lemma ReservedStaysOpen(script: Script)
    requires ReserveOutcome(script).Ok?
    ensures script.control.Open?
  {
  }

  lemma CancelIsLast(profile: nat, script: Script)
    requires var (r, t) := ConnectRun(profile, script); r.Err? && t.attempt.Some?
    ensures var t := ConnectRun(profile, script).1;
            var (main, own, inner) :=
              ReservedRun(Called(Fresh(script.control.wire), Reserve(profile)).0, t.attempt.value, script);
            && script.control.Open? && inner.Err?
            && t.sent == [Reserve(profile)] + own + [Cancel(t.attempt.value)]
            && Called(main, Cancel(t.attempt.value)).1 == Reply(Fresh(script.control.wire), t.sent, |t.sent| - 1)
  {
    hide ReservedRun, PollRun, Called, After, Reply;
    var t := ConnectRun(profile, script).1;
    var attempt := t.attempt.value;
    ReservedStaysOpen(script);
    var l := Called(Fresh(script.control.wire), Reserve(profile)).0;
    var (main, own, inner) := ReservedRun(l, attempt, script);
    assert l.stream.Some? by { ReservedKeepsStream(profile, script); }
    ReservedMeaning(l, attempt, script);
    RunFirst(Fresh(script.control.wire), Reserve(profile), own);
    LastReply(Fresh(script.control.wire), [Reserve(profile)] + own, Cancel(attempt));
  }

  lemma LastReply(l: Link, before: seq<Rpc>, m: Rpc)
    ensures Reply(l, before + [m], |before|) == Called(After(l, before), m).1
  {
    assert (before + [m])[..|before|] == before;
  }

  /** The answer shows that the service is done with the attempt: it is idle, or with another attempt, or Busy. */
  predicate ShowsOver(answer: Result<Payload>, attempt: nat) {
    match answer
    case Err(code) => code == Busy
    case Ok(SnapshotOf(s)) =>
      (s.attempt.Some? && s.attempt != Some(attempt))
      || (s.state in {Disconnected, AuthenticationNeeded, Failed} && s.error != Some(RecoveryRequired))
    case _ => false
  }

  /** Which answers end the wait for cleanup well, which let it go on, and with which error the others end it. */
  lemma CleanupAnswers(answer: Result<Payload>, attempt: nat)
    ensures CleanedUp(answer, attempt) <==> ShowsOver(answer, attempt)
    ensures StillOwned(answer, attempt) <==>
            && answer.Ok? && answer.value.SnapshotOf? && answer.value.snapshot.error != Some(RecoveryRequired)
            && !ShowsOver(answer, attempt)
    ensures !CleanedUp(answer, attempt) && !StillOwned(answer, attempt) ==>
              PollError(answer) == match answer
                                   case Err(code) => code
                                   case Ok(SnapshotOf(_)) => RecoveryRequired
                                   case _ => ProtocolViolation
  {
  }
}
