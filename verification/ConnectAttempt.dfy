/**
 One connection attempt (`run`, `reserved`, `inspect` and `wait_for_cleanup` in
 `crates/client/src/connect.rs`): reserve, authenticate, start, and cancel with cleanup on
 every failure.

 The world is a script: what arrives on each connection, and what each turn of a waiting
 loop sees. A script that ends while a loop still waits stands for a stop request there.
 */
module ConnectAttempt {
  import opened Common
  import opened DaemonConnection

  /** An event of the service's monitor: a snapshot, or a log line, which is ignored. */
  datatype Item = Seen(snapshot: Snapshot) | LogLine

  datatype AuthEvent = Notice | Interaction | Authenticated | AuthFailed(code: ErrorCode) | AuthCancelled | WorkerGone

  /** One turn of a waiting loop; `emitted` is whether a passed-on event was taken. */
  datatype Turn =
    | StopRequested
    | Monitored(item: Result<Item>, emitted: bool)
    | Activity
    | Auth(event: AuthEvent, emitted: bool)

  datatype Script = Script(
    stoppedAtStart: bool,
    control: Opening,
    stoppedBeforeUse: bool,
    profileCurrent: Result<()>,
    stoppedBeforeReserve: bool,
    stoppedAfterReserve: bool,
    monitor: Result<()>,
    handoffSupplied: bool,
    authTurns: seq<Turn>,
    stoppedBeforeStart: bool,
    startTurns: seq<Turn>,
    recovery: Opening,
    cleanup: Opening,
    polls: nat)

  /** What a snapshot of the monitor means for this attempt. */
  function Inspect(s: Snapshot, attempt: nat): Result<()> {
    if s.state.Failed? || s.state.AuthenticationNeeded? then
      Err(if s.error.Some? then s.error.value else AuthenticationRequired)
    else if s.attempt != Some(attempt) then Err(Conflict)
    else if s.state.Disconnected? || s.state.Disconnecting? then Err(Cancelled)
    else Ok(())
  }

  /** The monitor is satisfied exactly by a live state of the attempt itself. */
  lemma InspectMeaning(s: Snapshot, attempt: nat)
    ensures Inspect(s, attempt).Ok? <==>
            s.attempt == Some(attempt) && s.state in {Authenticating, Connecting, Connected, Reconnecting}
    ensures s.state in {Failed, AuthenticationNeeded} ==>
              Inspect(s, attempt) == Err(if s.error.Some? then s.error.value else AuthenticationRequired)
    ensures s.state !in {Failed, AuthenticationNeeded} && s.attempt != Some(attempt) ==>
              Inspect(s, attempt) == Err(Conflict)
    ensures s.state in {Disconnected, Disconnecting} && s.attempt == Some(attempt) ==>
              Inspect(s, attempt) == Err(Cancelled)
  {
  }

  /** A connection just opened, before any request. */
  function Fresh(wire: seq<Wire>): Link {
    Link(Some(wire), 0, [])
  }

  function Reports(attempt: nat, n: nat): seq<Rpc> {
    seq(n, i => AuthProgress(attempt))
  }

  function Polls(n: nat): seq<Rpc> {
    seq(n, i => GetSnapshot)
  }

  /** A turn of the authentication loop after which it goes on; its report must also be accepted. */
  predicate Passed(t: Turn, attempt: nat) {
    match t
    case StopRequested => false
    case Monitored(item, emitted) =>
      item.Ok? && (item.value.Seen? ==> Inspect(item.value.snapshot, attempt).Ok? && emitted)
    case Activity => true
    case Auth(event, emitted) => (event.Notice? || event.Interaction?) && emitted
  }

  /** The error a turn of the authentication loop ends it with; reports of progress are judged by their answers. */
  function AuthTurnError(t: Turn, attempt: nat): Option<ErrorCode> {
    match t
    case StopRequested => Some(Cancelled)
    case Monitored(item, emitted) => MonitorError(item, emitted, attempt)
    case Activity => None
    case Auth(event, emitted) =>
      match event
      case Authenticated => None
      case AuthFailed(code) => Some(code)
      case AuthCancelled => Some(Cancelled)
      case WorkerGone => Some(RuntimeFailure)
      case _ => if emitted then None else Some(Cancelled)
  }

  function MonitorError(item: Result<Item>, emitted: bool, attempt: nat): Option<ErrorCode> {
    if item.Err? then Some(item.code)
    else if item.value.LogLine? then None
    else if Inspect(item.value.snapshot, attempt).Err? then Some(Inspect(item.value.snapshot, attempt).code)
    else if emitted then None
    else Some(Cancelled)
  }

  /** Why the authentication loop fails: a turn ends it, a stop follows its last turn, or a report is not accepted. */
  predicate AuthEnds(turns: seq<Turn>, attempt: nat, link: Link, code: ErrorCode) {
    || (exists k :: 0 <= k < |turns| && AuthTurnError(turns[k], attempt) == Some(code)
                    && forall j :: 0 <= j < k ==> Passed(turns[j], attempt))
    || (code.Cancelled? && forall j :: 0 <= j < |turns| ==> Passed(turns[j], attempt))
    || NotAccepted(link, AuthProgress(attempt), code)
  }

  /** The last request was this one and was not answered with Accepted. */
  predicate NotAccepted(link: Link, rpc: Rpc, code: ErrorCode) {
    && link.log != []
    && var last := link.log[|link.log| - 1];
    last.rpc == rpc && last.answer != Ok(Accepted)
    && code == if last.answer.Err? then last.answer.code else ProtocolViolation
  }

  /** Authentication delivered its handoff before anything ended the loop. */
  predicate HandedOver(turns: seq<Turn>, attempt: nat) {
    exists k :: 0 <= k < |turns| && turns[k].Auth? && turns[k].event.Authenticated?
                && forall j :: 0 <= j < k ==> Passed(turns[j], attempt)
  }

  /** The authentication loop from a link: the link after it, how many reports it sent, and how it ended. */
  function AuthRun(l: Link, attempt: nat, turns: seq<Turn>): (Link, nat, Result<()>)
    decreases |turns|
  {
    if turns == [] then (l, 0, Err(Cancelled))
    else if turns[0].Activity? then
      var (next, answer) := Called(l, AuthProgress(attempt));
      if answer != Ok(Accepted) then (next, 1, Err(if answer.Err? then answer.code else ProtocolViolation))
      else
        var (end, reports, r) := AuthRun(next, attempt, turns[1..]);
        (end, reports + 1, r)
    else if AuthTurnError(turns[0], attempt).Some? then (l, 0, Err(AuthTurnError(turns[0], attempt).value))
    else if turns[0].Auth? && turns[0].event.Authenticated? then (l, 0, Ok(()))
    else AuthRun(l, attempt, turns[1..])
  }

  method Authenticate(connection: Connection, attempt: nat, turns: seq<Turn>) returns (r: Result<()>)
    modifies connection
    ensures var run := AuthRun(old(connection.Now()), attempt, turns);
            connection.Now() == run.0 && r == run.2
  {
    ghost var run := AuthRun(connection.Now(), attempt, turns);
    var i := 0;
    while i < |turns|
      invariant 0 <= i <= |turns|
      invariant var rest := AuthRun(connection.Now(), attempt, turns[i..]);
                rest.0 == run.0 && rest.2 == run.2
    {
      assert turns[i..][0] == turns[i] && turns[i..][1..] == turns[i + 1..];
      match turns[i] {
        case StopRequested =>
          return Err(Cancelled);
        case Monitored(item, emitted) =>
          if item.Err? {
            return Err(item.code);
          }
          if item.value.Seen? {
            var inspected := Inspect(item.value.snapshot, attempt);
            if inspected.Err? {
              return inspected;
            }
            if !emitted {
              return Err(Cancelled);
            }
          }
        case Activity =>
          var answer := connection.Call(AuthProgress(attempt));
          if answer.Err? {
            return Err(answer.code);
          }
          if answer.value != Accepted {
            return Err(ProtocolViolation);
          }
        case Auth(event, emitted) =>
          match event {
            case Authenticated => return Ok(());
            case AuthFailed(code) => return Err(code);
            case AuthCancelled => return Err(Cancelled);
            case WorkerGone => return Err(RuntimeFailure);
            case _ =>
              if !emitted {
                return Err(Cancelled);
              }
          }
      }
      i := i + 1;
    }
    return Err(Cancelled);
  }

  /**
   The loop's requests are reports; it succeeds only on a handoff with every report accepted, and
   fails for a reason.
   */
  lemma {:induction false} AuthMeaning(l: Link, attempt: nat, turns: seq<Turn>)
    requires l.stream.Some?
    ensures var (end, reports, r) := AuthRun(l, attempt, turns);
            && end == After(l, Reports(attempt, reports))
            && (r.Ok? ==>
                  end.stream.Some? && HandedOver(turns, attempt) && AllAccepted(l, Reports(attempt, reports)))
            && (r.Err? ==> AuthEnds(turns, attempt, end, r.code))
    decreases |turns|
  {
    hide Called, Inspect;
      var (end, reports, r) := AuthRun(l, attempt, turns);
    assert Reports(attempt, 0) == [];
    if turns != [] && turns[0].Activity? {
      ReportMeaning(l, attempt, turns);
      var (next, answer) := Called(l, AuthProgress(attempt));
      if answer == Ok(Accepted) {
        assert next.stream.Some? by { AcceptedKeepsStream(l, attempt); }
        AuthMeaning(next, attempt, turns[1..]);
        FirstReport(l, attempt, AuthRun(next, attempt, turns[1..]).1);
        LaterTurns(turns, attempt, end, r);
      }
    } else if turns != [] && Passed(turns[0], attempt) {
      AuthMeaning(l, attempt, turns[1..]);
      LaterTurns(turns, attempt, end, r);
    }
  }

  /** A report that is not accepted ends the loop. */
  lemma AcceptedKeepsStream(l: Link, attempt: nat)
    requires Called(l, AuthProgress(attempt)).1 == Ok(Accepted)
    ensures Called(l, AuthProgress(attempt)).0.stream.Some?
  {
  }

  lemma ReportMeaning(l: Link, attempt: nat, turns: seq<Turn>)
    requires l.stream.Some? && turns != [] && turns[0].Activity?
    ensures var (next, answer) := Called(l, AuthProgress(attempt));
            answer != Ok(Accepted) ==>
              && next == After(l, Reports(attempt, 1))
              && AuthEnds(turns, attempt, next, if answer.Err? then answer.code else ProtocolViolation)
  {
    assert Reports(attempt, 1) == [AuthProgress(attempt)] && [AuthProgress(attempt)][..0] == [];
    assert After(l, []) == l;
  }

  predicate AllAccepted(l: Link, methods: seq<Rpc>) {
    forall k :: 0 <= k < |methods| ==> Reply(l, methods, k) == Ok(Accepted)
  }

  lemma FirstReport(l: Link, attempt: nat, n: nat)
    requires Called(l, AuthProgress(attempt)).1 == Ok(Accepted)
    ensures var next := Called(l, AuthProgress(attempt)).0;
            && After(next, Reports(attempt, n)) == After(l, Reports(attempt, n + 1))
            && (AllAccepted(next, Reports(attempt, n)) ==> AllAccepted(l, Reports(attempt, n + 1)))
  {
    hide Called, Reply;
    var next, all := Called(l, AuthProgress(attempt)).0, Reports(attempt, n + 1);
    assert all == [AuthProgress(attempt)] + Reports(attempt, n);
    RunFirst(l, AuthProgress(attempt), Reports(attempt, n));
    if AllAccepted(next, Reports(attempt, n)) {
      forall k | 0 <= k < |all|
        ensures Reply(l, all, k) == Ok(Accepted)
      {
        if k > 0 {
          assert Reply(next, Reports(attempt, n), k - 1) == Reply(l, all, k);
        }
      }
    }
  }

  lemma LaterTurns(turns: seq<Turn>, attempt: nat, end: Link, r: Result<()>)
    requires turns != [] && Passed(turns[0], attempt)
    ensures HandedOver(turns[1..], attempt) ==> HandedOver(turns, attempt)
    ensures r.Err? && AuthEnds(turns[1..], attempt, end, r.code) ==> AuthEnds(turns, attempt, end, r.code)
  {
    hide Inspect, NotAccepted;
    var rest := turns[1..];
    if HandedOver(rest, attempt) {
      var k :| 0 <= k < |rest| && rest[k].Auth? && rest[k].event.Authenticated?
               && forall j :: 0 <= j < k ==> Passed(rest[j], attempt);
      assert turns[k + 1] == rest[k];
      assert forall j :: 0 < j < k + 1 ==> turns[j] == rest[j - 1];
    }
    if r.Err? && AuthEnds(rest, attempt, end, r.code) && !NotAccepted(end, AuthProgress(attempt), r.code) {
      assert forall j :: 0 < j < |turns| ==> turns[j] == rest[j - 1];
      if k :| 0 <= k < |rest| && AuthTurnError(rest[k], attempt) == Some(r.code)
              && forall j :: 0 <= j < k ==> Passed(rest[j], attempt) {
        assert AuthTurnError(turns[k + 1], attempt) == Some(r.code);
      }
    }
  }

  /** The loop after Start; only stop requests and the monitor are heard there. */
  method AwaitConnected(attempt: nat, turns: seq<Turn>) returns (r: Result<Snapshot>)
    ensures r == WaitRun(attempt, turns)
  {
    var i := 0;
    while i < |turns|
      invariant 0 <= i <= |turns|
      invariant WaitRun(attempt, turns[i..]) == WaitRun(attempt, turns)
    {
      assert turns[i..][0] == turns[i] && turns[i..][1..] == turns[i + 1..];
      match turns[i] {
        case StopRequested =>
          return Err(Cancelled);
        case Monitored(item, emitted) =>
          if item.Err? {
            return Err(item.code);
          }
          if item.value.Seen? {
            var snapshot := item.value.snapshot;
            var inspected := Inspect(snapshot, attempt);
            if inspected.Err? {
              return Err(inspected.code);
            }
            if snapshot.state.Connected? {
              return Ok(snapshot);
            }
            if !emitted {
              return Err(Cancelled);
            }
          }
        case _ =>
      }
      i := i + 1;
    }
    return Err(Cancelled);
  }

  function WaitRun(attempt: nat, turns: seq<Turn>): Result<Snapshot> {
    if turns == [] then Err(Cancelled)
    else if ReportsConnected(turns[0], attempt) then Ok(turns[0].item.value.snapshot)
    else if WaitTurnError(turns[0], attempt).Some? then Err(WaitTurnError(turns[0], attempt).value)
    else WaitRun(attempt, turns[1..])
  }

  /** The first report of the tunnel, before anything that ends the wait. */
  predicate ConnectedAt(turns: seq<Turn>, attempt: nat, s: Snapshot) {
    exists k :: 0 <= k < |turns| && ReportsConnected(turns[k], attempt) && turns[k].item.value.snapshot == s
                && forall j :: 0 <= j < k ==> Harmless(turns[j], attempt)
  }

  /** The wait succeeds with a snapshot exactly when the monitor reports it so, and fails for a reason. */
  lemma {:induction false} WaitMeaning(attempt: nat, turns: seq<Turn>)
    ensures forall s :: WaitRun(attempt, turns) == Ok(s) <==> ConnectedAt(turns, attempt, s)
    ensures WaitRun(attempt, turns).Err? ==> WaitEnds(turns, attempt, WaitRun(attempt, turns).code)
    decreases |turns|
  {
    hide Inspect;
    if turns != [] {
      TurnKinds(turns[0], attempt);
      var rest := turns[1..];
      assert forall j :: 0 < j < |turns| ==> turns[j] == rest[j - 1];
      if Harmless(turns[0], attempt) {
        WaitMeaning(attempt, rest);
        forall s
          ensures ConnectedAt(turns, attempt, s) <==> ConnectedAt(rest, attempt, s)
        {
          LaterConnection(turns, attempt, s);
        }
        if WaitRun(attempt, rest).Err? {
          LaterEnd(turns, attempt, WaitRun(attempt, rest).code);
        }
      } else if ReportsConnected(turns[0], attempt) {
        assert ConnectedAt(turns, attempt, turns[0].item.value.snapshot);
      }
    }
  }

  /** A turn reports the tunnel, or ends the wait, or is harmless, and only one of these. */
  lemma TurnKinds(t: Turn, attempt: nat)
    ensures Harmless(t, attempt) <==> !ReportsConnected(t, attempt) && WaitTurnError(t, attempt).None?
    ensures ReportsConnected(t, attempt) ==> WaitTurnError(t, attempt).None?
  {
  }

  lemma LaterConnection(turns: seq<Turn>, attempt: nat, s: Snapshot)
    requires turns != [] && Harmless(turns[0], attempt)
    ensures ConnectedAt(turns, attempt, s) <==> ConnectedAt(turns[1..], attempt, s)
  {
    hide Inspect;
    var rest := turns[1..];
    TurnKinds(turns[0], attempt);
    assert forall j :: 0 <= j < |rest| ==> rest[j] == turns[j + 1];
    if k :| 0 <= k < |turns| && ReportsConnected(turns[k], attempt) && turns[k].item.value.snapshot == s
            && forall j :: 0 <= j < k ==> Harmless(turns[j], attempt) {
      assert rest[k - 1] == turns[k];
    }
    if k :| 0 <= k < |rest| && ReportsConnected(rest[k], attempt) && rest[k].item.value.snapshot == s
            && forall j :: 0 <= j < k ==> Harmless(rest[j], attempt) {
      assert turns[k + 1] == rest[k];
      assert forall j :: 0 < j < k + 1 ==> turns[j] == rest[j - 1];
    }
  }

  lemma LaterEnd(turns: seq<Turn>, attempt: nat, code: ErrorCode)
    requires turns != [] && Harmless(turns[0], attempt) && WaitEnds(turns[1..], attempt, code)
    ensures WaitEnds(turns, attempt, code)
  {
    hide Inspect;
    var rest := turns[1..];
    assert forall j :: 0 < j < |turns| ==> turns[j] == rest[j - 1];
    if k :| 0 <= k < |rest| && WaitTurnError(rest[k], attempt) == Some(code)
            && forall j :: 0 <= j < k ==> Harmless(rest[j], attempt) {
      assert turns[k + 1] == rest[k];
    }
  }

  predicate ReportsConnected(t: Turn, attempt: nat) {
    t.Monitored? && t.item.Ok? && t.item.value.Seen?
    && t.item.value.snapshot.state.Connected? && t.item.value.snapshot.attempt == Some(attempt)
  }

  /** Why waiting for the tunnel fails: a turn ends it, or a stop follows its last turn. */
  predicate WaitEnds(turns: seq<Turn>, attempt: nat, code: ErrorCode) {
    || (exists k :: 0 <= k < |turns| && WaitTurnError(turns[k], attempt) == Some(code)
                    && forall j :: 0 <= j < k ==> Harmless(turns[j], attempt))
    || (code.Cancelled? && forall j :: 0 <= j < |turns| ==> Harmless(turns[j], attempt))
  }

  function WaitTurnError(t: Turn, attempt: nat): Option<ErrorCode> {
    match t
    case StopRequested => Some(Cancelled)
    case Monitored(item, emitted) => if ReportsConnected(t, attempt) then None else MonitorError(item, emitted, attempt)
    case _ => None
  }

  /** A turn after which the loop goes on waiting. */
  predicate Harmless(t: Turn, attempt: nat) {
    match t
    case StopRequested => false
    case Monitored(item, emitted) =>
      item.Ok? && (item.value.Seen? ==>
                     Inspect(item.value.snapshot, attempt).Ok? && !item.value.snapshot.state.Connected? && emitted)
    case _ => true
  }

  /** No stop request stood before Start, the monitor was open and authentication was done. */
  predicate MayStart(script: Script, attempt: nat) {
    && !script.stoppedAfterReserve && script.monitor.Ok?
    && (script.handoffSupplied || HandedOver(script.authTurns, attempt))
    && !script.stoppedBeforeStart
  }

  /** Why a reserved attempt fails. */
  predicate AttemptEnds(script: Script, attempt: nat, link: Link, code: ErrorCode) {
    || ((script.stoppedAfterReserve || script.stoppedBeforeStart) && code.Cancelled?)
    || script.monitor == Err(code)
    || (!script.handoffSupplied && AuthEnds(script.authTurns, attempt, link, code))
    || (MayStart(script, attempt)
        && (NotAccepted(link, Start(attempt), code) || WaitEnds(script.startTurns, attempt, code)))
  }

  /** The reserved part from a link: the link after it, its requests, and how it ended. */
  function ReservedRun(l: Link, attempt: nat, script: Script): (Link, seq<Rpc>, Result<Snapshot>) {
    if script.stoppedAfterReserve then (l, [], Err(Cancelled))
    else if script.monitor.Err? then (l, [], Err(script.monitor.code))
    else
      var (ready, reports, authenticated) :=
        if script.handoffSupplied then (l, 0, Ok(())) else AuthRun(l, attempt, script.authTurns);
      if authenticated.Err? then (ready, Reports(attempt, reports), Err(authenticated.code))
      else if script.stoppedBeforeStart then (ready, Reports(attempt, reports), Err(Cancelled))
      else
        var (started, answer) := Called(ready, Start(attempt));
        var sent := Reports(attempt, reports) + [Start(attempt)];
        if answer.Err? then (started, sent, Err(answer.code))
        else if answer.value != Accepted then (started, sent, Err(ProtocolViolation))
        else (started, sent, WaitRun(attempt, script.startTurns))
  }

  method Reserved(connection: Connection, attempt: nat, script: Script) returns (r: Result<Snapshot>)
    modifies connection
    ensures var run := ReservedRun(old(connection.Now()), attempt, script);
            connection.Now() == run.0 && r == run.2
  {
    if script.stoppedAfterReserve {
      return Err(Cancelled);
    }
    if script.monitor.Err? {
      return Err(script.monitor.code);
    }
    if !script.handoffSupplied {
      var authenticated := Authenticate(connection, attempt, script.authTurns);
      if authenticated.Err? {
        return Err(authenticated.code);
      }
    }
    if script.stoppedBeforeStart {
      return Err(Cancelled);
    }
    var answer := connection.Call(Start(attempt));
    if answer.Err? {
      return Err(answer.code);
    }
    if answer.value != Accepted {
      return Err(ProtocolViolation);
    }
    r := AwaitConnected(attempt, script.startTurns);
  }

  /** The requests of a reserved attempt: progress reports, then perhaps one Start. */
  ghost predicate AttemptRequests(sent: seq<Rpc>, attempt: nat) {
    exists n :: sent == Reports(attempt, n) || sent == Reports(attempt, n) + [Start(attempt)]
  }

  /**
   The reserved part sends reports and, only when it may, one Start; it ends in the tunnel
   exactly as the monitor reports it after an accepted Start, and fails for a reason.
   */
  lemma ReservedMeaning(l: Link, attempt: nat, script: Script)
    requires l.stream.Some?
    ensures ReservedWell(l, attempt, script, ReservedRun(l, attempt, script))
  {
    hide Called, After, AuthRun, AuthEnds, AttemptRequests, ReservedWell, WaitRun, Reply;
    NothingSent(l, attempt);
    if script.stoppedAfterReserve || script.monitor.Err? {
      EndsBeforeStart(l, attempt, script, l, 0, if script.stoppedAfterReserve then Cancelled else script.monitor.code);
    } else {
      var (ready, reports, authenticated) :=
        if script.handoffSupplied then (l, 0, Ok(())) else AuthRun(l, attempt, script.authTurns);
      AuthMeaning(l, attempt, script.authTurns);
      if authenticated.Err? {
        EndsBeforeStart(l, attempt, script, ready, reports, authenticated.code);
      } else if script.stoppedBeforeStart {
        EndsBeforeStart(l, attempt, script, ready, reports, Cancelled);
      } else {
        StartMeaning(l, attempt, script, ready, reports);
      }
    }
  }

  ghost predicate ReservedWell(l: Link, attempt: nat, script: Script, run: (Link, seq<Rpc>, Result<Snapshot>)) {
    var (end, sent, r) := run;
    && end == After(l, sent)
    && AttemptRequests(sent, attempt)
    && (Start(attempt) in sent ==> MayStart(script, attempt))
    && (r.Ok? ==>
          && ConnectedAt(script.startTurns, attempt, r.value)
          && sent != [] && sent[|sent| - 1] == Start(attempt) && Reply(l, sent, |sent| - 1) == Ok(Accepted))
    && (r.Err? ==> AttemptEnds(script, attempt, end, r.code))
  }

  lemma NothingSent(l: Link, attempt: nat)
    ensures Reports(attempt, 0) == [] && After(l, []) == l
  {
  }

  lemma EndsBeforeStart(l: Link, attempt: nat, script: Script, end: Link, reports: nat, code: ErrorCode)
    requires end == After(l, Reports(attempt, reports)) && AttemptEnds(script, attempt, end, code)
    ensures ReservedWell(l, attempt, script, (end, Reports(attempt, reports), Err(code)))
  {
    hide AttemptEnds, MayStart, After;
    assert Start(attempt) !in Reports(attempt, reports);
  }

  lemma StartMeaning(l: Link, attempt: nat, script: Script, ready: Link, reports: nat)
    requires ready.stream.Some? && ready == After(l, Reports(attempt, reports)) && MayStart(script, attempt)
    ensures var (end, answer) := Called(ready, Start(attempt));
            var sent := Reports(attempt, reports) + [Start(attempt)];
            var r := if answer.Err? then Err(answer.code)
                     else if answer.value != Accepted then Err(ProtocolViolation)
                     else WaitRun(attempt, script.startTurns);
            ReservedWell(l, attempt, script, (end, sent, r))
  {
    hide Called, MayStart, WaitRun, WaitEnds, ConnectedAt, NotAccepted, AuthEnds;
    WaitMeaning(attempt, script.startTurns);
    StartAnswered(ready, attempt);
    var sent := Reports(attempt, reports) + [Start(attempt)];
    assert sent[..|sent| - 1] == Reports(attempt, reports);
  }

  lemma StartAnswered(l: Link, attempt: nat)
    requires l.stream.Some?
    ensures var (end, answer) := Called(l, Start(attempt));
            answer != Ok(Accepted) ==>
              NotAccepted(end, Start(attempt), if answer.Err? then answer.code else ProtocolViolation)
  {
  }

  // ---------------------------------------------------------------- cancellation and cleanup

  /** The service's slot is taken. */
  predicate Active(s: TunnelState) {
    s.Authenticating? || s.Connecting? || s.Connected? || s.Reconnecting? || s.Disconnecting?
  }

  predicate Confirms(answer: Result<Payload>) {
    answer.Ok? || answer.code.Busy? || answer.code.Conflict?
  }

  /** The service no longer owns the attempt. */
  predicate CleanedUp(answer: Result<Payload>, attempt: nat) {
    match answer
    case Err(code) => code.Busy?
    case Ok(p) =>
      p.SnapshotOf?
      && ((p.snapshot.attempt.Some? && p.snapshot.attempt.value != attempt)
          || (p.snapshot.error != Some(RecoveryRequired)
              && !Active(p.snapshot.state)))
  }

  /** The service still works on the attempt. */
  predicate StillOwned(answer: Result<Payload>, attempt: nat) {
    answer.Ok? && answer.value.SnapshotOf?
    && !(answer.value.snapshot.attempt.Some? && answer.value.snapshot.attempt.value != attempt)
    && answer.value.snapshot.error != Some(RecoveryRequired)
    && Active(answer.value.snapshot.state)
  }

  /** Polling from a link, at most `polls` times before the time is up. */
  function PollRun(l: Link, attempt: nat, polls: nat): (Link, Result<()>)
    decreases polls
  {
    if polls == 0 then (l, Err(RecoveryRequired))
    else
      var (next, answer) := Called(l, GetSnapshot);
      if CleanedUp(answer, attempt) then (next, Ok(()))
      else if StillOwned(answer, attempt) then PollRun(next, attempt, polls - 1)
      else (next, Err(PollError(answer)))
  }

  function PollError(answer: Result<Payload>): ErrorCode {
    if answer.Err? then answer.code
    else if answer.value.SnapshotOf? then RecoveryRequired
    else ProtocolViolation
  }

  /** Polls on a connection of its own; `watch` is that connection in the end. */
  method WaitForCleanup(attempt: nat, opening: Opening, polls: nat) returns (r: Result<()>, watch: Option<Link>)
    ensures if opening.Open?
            then PollRun(Fresh(opening.wire), attempt, polls).1 == r
                 && watch == Some(PollRun(Fresh(opening.wire), attempt, polls).0)
            else r == Err(OpeningError(opening)) && watch == None
  {
    hide Called;
    if !opening.Open? {
      return Err(OpeningError(opening)), None;
    }
    var connection := new Connection(opening.wire);
    var i := 0;
    while i < polls
      invariant 0 <= i <= polls && fresh(connection)
      invariant PollRun(connection.Now(), attempt, polls - i) == PollRun(Fresh(opening.wire), attempt, polls)
    {
      var answer := connection.Call(GetSnapshot);
      if answer.Err? {
        return if answer.code.Busy? then Ok(()) else Err(answer.code), Some(connection.Now());
      }
      if !answer.value.SnapshotOf? {
        return Err(ProtocolViolation), Some(connection.Now());
      }
      var snapshot := answer.value.snapshot;
      if snapshot.attempt.Some? && snapshot.attempt.value != attempt {
        return Ok(()), Some(connection.Now());
      }
      if snapshot.error == Some(RecoveryRequired) {
        return Err(RecoveryRequired), Some(connection.Now());
      }
      if !Active(snapshot.state) {
        return Ok(()), Some(connection.Now());
      }
      i := i + 1;
    }
    return Err(RecoveryRequired), Some(connection.Now());
  }

  /** The last answer of a connection. */
  function LastAnswer(l: Link): Option<Result<Payload>> {
    if l.log == [] then None else Some(l.log[|l.log| - 1].answer)
  }

  /** `n` polls were sent, every answer but the last showed the attempt still owned. */
  ghost predicate Polled(l: Link, end: Link, attempt: nat, n: nat) {
    end == After(l, Polls(n)) && OwnedBefore(l, Polls(n), attempt)
  }

  predicate OwnedBefore(l: Link, methods: seq<Rpc>, attempt: nat) {
    forall k :: 0 <= k < |methods| - 1 ==> StillOwned(Reply(l, methods, k), attempt)
  }

  /**
   Polling succeeds exactly when its last answer shows the attempt is over; otherwise it
   reports that answer, or after the last poll that recovery is required.
   */
  lemma {:induction false} PollMeaning(l: Link, attempt: nat, polls: nat)
    requires l.stream.Some?
    ensures var (end, r) := PollRun(l, attempt, polls);
            exists n: nat :: n <= polls && Polled(l, end, attempt, n)
                             && (r.Ok? <==> n > 0 && CleanedUp(Reply(l, Polls(n), n - 1), attempt))
                             && (r.Err? ==>
                                   || (n == polls && r.code.RecoveryRequired?)
                                   || (n > 0 && !StillOwned(Reply(l, Polls(n), n - 1), attempt)
                                       && r.code == PollError(Reply(l, Polls(n), n - 1))))
                             && (n > 0 ==> LastAnswer(end) == Some(Reply(l, Polls(n), n - 1)))
    decreases polls
  {
    hide Called, CleanedUp, StillOwned;
      var (end, r) := PollRun(l, attempt, polls);
    if polls == 0 {
      assert Polls(0) == [] && Polled(l, end, attempt, 0);
    } else {
      var (next, answer) := Called(l, GetSnapshot);
      OnePoll(l);
      Exclusive(answer, attempt);
      if StillOwned(answer, attempt) {
        AnsweredKeepsStream(l, attempt);
        PollMeaning(next, attempt, polls - 1);
        var m: nat :| m <= polls - 1 && Polled(next, end, attempt, m)
                      && (r.Ok? <==> m > 0 && CleanedUp(Reply(next, Polls(m), m - 1), attempt))
                      && (r.Err? ==>
                            || (m == polls - 1 && r.code.RecoveryRequired?)
                            || (m > 0 && !StillOwned(Reply(next, Polls(m), m - 1), attempt)
                                && r.code == PollError(Reply(next, Polls(m), m - 1))))
                      && (m > 0 ==> LastAnswer(end) == Some(Reply(next, Polls(m), m - 1)));
        MorePolls(l, end, attempt, m);
        assert Polled(l, end, attempt, m + 1);
      } else {
        assert Polled(l, next, attempt, 1);
      }
    }
  }

  lemma Exclusive(answer: Result<Payload>, attempt: nat)
    ensures !(CleanedUp(answer, attempt) && StillOwned(answer, attempt))
  {
  }

  lemma AnsweredKeepsStream(l: Link, attempt: nat)
    requires StillOwned(Called(l, GetSnapshot).1, attempt)
    ensures Called(l, GetSnapshot).0.stream.Some?
  {
  }

  lemma OnePoll(l: Link)
    ensures Called(l, GetSnapshot).0 == After(l, Polls(1)) && Called(l, GetSnapshot).1 == Reply(l, Polls(1), 0)
    ensures l.stream.Some? ==> LastAnswer(Called(l, GetSnapshot).0) == Some(Called(l, GetSnapshot).1)
  {
    assert Polls(1) == [GetSnapshot] && [GetSnapshot][..0] == [];
    assert After(l, []) == l;
  }

  lemma MorePolls(l: Link, end: Link, attempt: nat, n: nat)
    requires StillOwned(Called(l, GetSnapshot).1, attempt) && Polled(Called(l, GetSnapshot).0, end, attempt, n)
    ensures Polled(l, end, attempt, n + 1)
    ensures n > 0 ==> Reply(l, Polls(n + 1), n) == Reply(Called(l, GetSnapshot).0, Polls(n), n - 1)
  {
    hide Called, StillOwned, Reply;
    var next, all := Called(l, GetSnapshot).0, Polls(n + 1);
    assert all == [GetSnapshot] + Polls(n);
    RunFirst(l, GetSnapshot, Polls(n));
    forall k | 0 <= k < |all| - 1
      ensures StillOwned(Reply(l, all, k), attempt)
    {
      if k > 0 {
        assert Reply(next, Polls(n), k - 1) == Reply(l, all, k);
      }
    }
  }

  /** Cancel on the attempt's own connection and, unless that is confirmed, once on a fresh one. */
  method CancelAttempt(connection: Connection, attempt: nat, recovery: Opening)
    returns (confirmed: bool, retried: Option<Link>)
    modifies connection
    ensures var (end, first) := Called(old(connection.Now()), Cancel(attempt));
            && connection.Now() == end
            && if Confirms(first) then confirmed && retried == None
               else if !recovery.Open? then !confirmed && retried == None
               else
                 var (link, second) := Called(Fresh(recovery.wire), Cancel(attempt));
                 retried == Some(link) && confirmed == Confirms(second)
  {
    var answer := connection.Call(Cancel(attempt));
    if Confirms(answer) {
      return true, None;
    }
    if !recovery.Open? {
      return false, None;
    }
    var fresher := new Connection(recovery.wire);
    answer := fresher.Call(Cancel(attempt));
    return Confirms(answer), Some(fresher.Now());
  }

  /**
   What a run leaves behind: `sent` are the requests of its own connection and `main` that
   connection after them; `retried` and `watch` are the fresh connections of a second Cancel
   and of the cleanup.
   */
  datatype Trace = Trace(
    attempt: Option<nat>,
    inner: Result<Snapshot>,
    sent: seq<Rpc>,
    main: Link,
    retried: Option<Link>,
    watch: Option<Link>)

  /** How the part before the reservation ends: an attempt, or the first thing that went wrong. */
  function ReserveOutcome(script: Script): Result<nat> {
    if script.stoppedAtStart then Err(Cancelled)
    else if !script.control.Open? then Err(OpeningError(script.control))
    else if script.stoppedBeforeUse then Err(Cancelled)
    else if script.profileCurrent.Err? then Err(script.profileCurrent.code)
    else if script.stoppedBeforeReserve then Err(Cancelled)
    else
      match Answered(script.control.wire, 0).1
      case Err(code) => Err(code)
      case Ok(payload) => if payload.Reserved? then Ok(payload.attempt) else Err(ProtocolViolation)
  }

  const NOTHING: Trace := Trace(None, Err(Cancelled), [], Link(None, 0, []), None, None)

  /** A failed attempt: Cancel, and cleanup once it is confirmed. */
  function FailedRun(script: Script, attempt: nat, t: Trace, code: ErrorCode): (Result<Snapshot>, Trace) {
    var (main, first) := Called(t.main, Cancel(attempt));
    var retried := if Confirms(first) || !script.recovery.Open? then None
                   else Some(Called(Fresh(script.recovery.wire), Cancel(attempt)));
    var confirmed := Confirms(first) || (retried.Some? && Confirms(retried.value.1));
    var cancelled := t.(sent := t.sent + [Cancel(attempt)], main := main,
                     retried := if retried.None? then None else Some(retried.value.0));
    if !confirmed then (Err(ServiceUnavailable), cancelled)
    else if !script.cleanup.Open? then (Err(OpeningError(script.cleanup)), cancelled)
    else
      var (watch, cleanup) := PollRun(Fresh(script.cleanup.wire), attempt, script.polls);
      (Err(if cleanup.Err? then cleanup.code else code), cancelled.(watch := Some(watch)))
  }

  function ConnectRun(profile: nat, script: Script): (Result<Snapshot>, Trace) {
    match ReserveOutcome(script)
    case Err(code) =>
      var asked := !script.stoppedAtStart && script.control.Open? && !script.stoppedBeforeUse
                   && script.profileCurrent.Ok? && !script.stoppedBeforeReserve;
      (Err(code),
       if asked
       then NOTHING.(sent := [Reserve(profile)], main := Called(Fresh(script.control.wire), Reserve(profile)).0)
       else NOTHING)
    case Ok(attempt) =>
      var (main, sent, inner) := ReservedRun(Called(Fresh(script.control.wire), Reserve(profile)).0, attempt, script);
      var t := Trace(Some(attempt), inner, [Reserve(profile)] + sent, main, None, None);
      if inner.Ok? then (inner, t) else FailedRun(script, attempt, t, inner.code)
  }

  /** `run`: the answer, and what was asked of the service. */
  method Connect(profile: nat, script: Script) returns (r: Result<Snapshot>, ghost t: Trace)
    ensures r == ConnectRun(profile, script).0
    ensures t == ConnectRun(profile, script).1
  {
    hide Called, AuthRun, WaitRun, PollRun;
    t := NOTHING;
    if script.stoppedAtStart {
      return Err(Cancelled), t;
    }
    if !script.control.Open? {
      return Err(OpeningError(script.control)), t;
    }
    var connection := new Connection(script.control.wire);
    if script.stoppedBeforeUse {
      return Err(Cancelled), t;
    }
    if script.profileCurrent.Err? {
      return Err(script.profileCurrent.code), t;
    }
    if script.stoppedBeforeReserve {
      return Err(Cancelled), t;
    }
    var answer := connection.Call(Reserve(profile));
    assert answer == Answered(script.control.wire, 0).1 by { ReserveAnswered(script.control.wire, profile); }
    t := t.(sent := [Reserve(profile)], main := connection.Now());
    if answer.Err? {
      return Err(answer.code), t;
    }
    if !answer.value.Reserved? {
      return Err(ProtocolViolation), t;
    }
    var attempt := answer.value.attempt;
    ghost var run := ReservedRun(connection.Now(), attempt, script);
    var inner := Reserved(connection, attempt, script);
    t := Trace(Some(attempt), inner, [Reserve(profile)] + run.1, connection.Now(), None, None);
    if inner.Ok? {
      return inner, t;
    }
    var confirmed, retried := CancelAttempt(connection, attempt, script.recovery);
    t := t.(sent := t.sent + [Cancel(attempt)], main := connection.Now(), retried := retried);
    if !confirmed {
      return Err(ServiceUnavailable), t;
    }
    var cleanup, watch := WaitForCleanup(attempt, script.cleanup, script.polls);
    t := t.(watch := watch);
    return if cleanup.Err? then Err(cleanup.code) else inner, t;
  }

  lemma ReserveAnswered(wire: seq<Wire>, profile: nat)
    ensures Called(Fresh(wire), Reserve(profile)).1 == Answered(wire, 0).1
  {
  }

  // ---------------------------------------------------------------- what a run promises

  /** Reserve first, then the attempt's own requests, and at most one Cancel at the end. */
  ghost predicate Orderly(sent: seq<Rpc>, profile: nat, attempt: Option<nat>) {
    match attempt
    case None => sent == [] || sent == [Reserve(profile)]
    case Some(a) =>
      exists own :: AttemptRequests(own, a)
                    && (sent == [Reserve(profile)] + own || sent == [Reserve(profile)] + own + [Cancel(a)])
  }

  /** The connection's last request is a Cancel of the attempt that was accepted, Busy or Conflict. */
  predicate CancelConfirmed(l: Link, attempt: nat) {
    l.log != [] && l.log[|l.log| - 1].rpc == Cancel(attempt) && Confirms(l.log[|l.log| - 1].answer)
  }

  predicate CancelAnswered(t: Trace, attempt: nat) {
    CancelConfirmed(t.main, attempt) || (t.retried.Some? && CancelConfirmed(t.retried.value, attempt))
  }

  /** The last answer on the cleanup connection shows the attempt is over. */
  predicate CleanupObserved(t: Trace, attempt: nat) {
    t.watch.Some? && LastAnswer(t.watch.value).Some? && CleanedUp(LastAnswer(t.watch.value).value, attempt)
  }

  /** Every connection of the trace is what its requests make of the script. */
  ghost predicate Genuine(t: Trace, script: Script, attempt: nat) {
    && script.control.Open? && t.main == After(Fresh(script.control.wire), t.sent)
    && (t.retried.Some? ==>
          script.recovery.Open? && t.retried.value == After(Fresh(script.recovery.wire), [Cancel(attempt)]))
    && (t.watch.Some? ==>
          && script.cleanup.Open?
          && exists n: nat :: n <= script.polls && Polled(Fresh(script.cleanup.wire), t.watch.value, attempt, n))
  }

  /** How an attempt that was reserved may end. */
  ghost predicate EndsWell(script: Script, attempt: nat, r: Result<Snapshot>, t: Trace)
    requires script.control.Open?
  {
    match r
    case Ok(s) =>
      && t.inner == Ok(s) && ConnectedAt(script.startTurns, attempt, s)
      && |t.sent| > 1 && t.sent[|t.sent| - 1] == Start(attempt)
      && Reply(Fresh(script.control.wire), t.sent, |t.sent| - 1) == Ok(Accepted)
      && t.retried.None? && t.watch.None?
    case Err(e) =>
      && t.inner.Err?
      && (t.retried.Some? <==> !CancelConfirmed(t.main, attempt) && script.recovery.Open?)
      && (t.watch.Some? <==> CancelAnswered(t, attempt) && script.cleanup.Open?)
      && |t.sent| > 1 && t.sent[|t.sent| - 1] == Cancel(attempt)
      && AttemptEnds(script, attempt, After(Fresh(script.control.wire), t.sent[..|t.sent| - 1]), t.inner.code)
      && (if !CancelAnswered(t, attempt) then e == ServiceUnavailable && t.watch.None?
          else if CleanupObserved(t, attempt) then e == t.inner.code
          else if t.watch.None? then !script.cleanup.Open? && e == OpeningError(script.cleanup)
          else
            || e == RecoveryRequired
            || (LastAnswer(t.watch.value).Some? && e == PollError(LastAnswer(t.watch.value).value)))
  }

  lemma OneCall(l: Link, m: Rpc)
    ensures Called(l, m).0 == After(l, [m]) && Called(l, m).1 == Reply(l, [m], 0)
  {
    assert [m][..0] == [] && After(l, []) == l;
  }

  /** A Cancel is confirmed exactly when its answer is, on a connection that could send it. */
  lemma CancelLogged(l: Link, attempt: nat)
    requires !CancelConfirmed(l, attempt)
    ensures CancelConfirmed(Called(l, Cancel(attempt)).0, attempt) <==> Confirms(Called(l, Cancel(attempt)).1)
  {
  }

  lemma {:induction false} RequestsAreLogged(wire: seq<Wire>, methods: seq<Rpc>)
    ensures var log := After(Fresh(wire), methods).log;
            && |log| <= |methods|
            && (After(Fresh(wire), methods).stream.Some? ==> |log| == |methods|)
            && forall k :: 0 <= k < |log| ==> log[k].rpc == methods[k]
  {
    if methods != [] {
      RequestsAreLogged(wire, methods[..|methods| - 1]);
    }
  }

  lemma NoCancelYet(wire: seq<Wire>, profile: nat, own: seq<Rpc>, attempt: nat)
    requires AttemptRequests(own, attempt)
    ensures !CancelConfirmed(After(Fresh(wire), [Reserve(profile)] + own), attempt)
  {
    RequestsAreLogged(wire, [Reserve(profile)] + own);
    assert forall k :: 0 <= k < |own| ==> !own[k].Cancel?;
  }

  /** Cancellation and cleanup of a failed attempt end as promised. */
  lemma FailedMeaning(profile: nat, script: Script, attempt: nat, own: seq<Rpc>, t: Trace, code: ErrorCode)
    requires script.control.Open? && AttemptRequests(own, attempt)
    requires t == Trace(Some(attempt), Err(code), [Reserve(profile)] + own,
                        After(Fresh(script.control.wire), [Reserve(profile)] + own), None, None)
    requires AttemptEnds(script, attempt, t.main, code)
    ensures var (r, end) := FailedRun(script, attempt, t, code);
            Genuine(end, script, attempt) && EndsWell(script, attempt, r, end) && end.attempt == Some(attempt)
            && end.sent == [Reserve(profile)] + own + [Cancel(attempt)]
  {
    hide Called, AttemptEnds, PollRun, After, CleanedUp, StillOwned, Polled, AttemptRequests, Confirms, PollError;
      var (r, end) := FailedRun(script, attempt, t, code);
    NoCancelYet(script.control.wire, profile, own, attempt);
    CancelLogged(t.main, attempt);
    OneCall(t.main, Cancel(attempt));
    RunJoin(Fresh(script.control.wire), t.sent, [Cancel(attempt)]);
    assert end.sent[..|end.sent| - 1] == t.sent;
    if script.recovery.Open? {
      CancelLogged(Fresh(script.recovery.wire), attempt);
      OneCall(Fresh(script.recovery.wire), Cancel(attempt));
    }
    if script.cleanup.Open? {
      CleanupMeaning(script.cleanup.wire, attempt, script.polls);
      var (watch, cleanup) := PollRun(Fresh(script.cleanup.wire), attempt, script.polls);
      assert end.watch.Some? ==> end.watch.value == watch && r.code == if cleanup.Err? then cleanup.code else code;
      assert end.watch.Some? && !CleanupObserved(end, attempt) ==> cleanup.Err?;
      assert cleanup.Err? ==> cleanup.code.RecoveryRequired? || LastAnswer(watch).Some?;
    }
  }

  /** Cleanup on a fresh connection, in terms of the last answer it got. */
  lemma CleanupMeaning(wire: seq<Wire>, attempt: nat, polls: nat)
    ensures var (watch, r) := PollRun(Fresh(wire), attempt, polls);
            && (exists n: nat :: n <= polls && Polled(Fresh(wire), watch, attempt, n))
            && (r.Ok? <==> LastAnswer(watch).Some? && CleanedUp(LastAnswer(watch).value, attempt))
            && (r.Err? ==>
                  r.code.RecoveryRequired? || (LastAnswer(watch).Some? && r.code == PollError(LastAnswer(watch).value)))
  {
    hide PollRun, CleanedUp, StillOwned, OwnedBefore, PollError, Reply;
    PollMeaning(Fresh(wire), attempt, polls);
    assert Polls(0) == [];
    assert After(Fresh(wire), []) == Fresh(wire);
  }

  /**
   Every run: without a reservation it ends with what prevented it. With one, each of its
   connections carries what its requests make of the script, and it ends in the tunnel the
   monitor reported, or with its own error after a Cancel was answered and the cleanup
   observed, or with the cancellation or cleanup error.
   */
  lemma EveryRunEndsWell(profile: nat, script: Script)
    ensures var (r, t) := ConnectRun(profile, script);
            && t.attempt == Success(ReserveOutcome(script))
            && Orderly(t.sent, profile, t.attempt)
            && (t.attempt.None? ==> r == Err(ReserveOutcome(script).code))
            && (t.attempt.Some? ==>
                  && Genuine(t, script, t.attempt.value) && EndsWell(script, t.attempt.value, r, t)
                  && (Start(t.attempt.value) in t.sent ==> MayStart(script, t.attempt.value)))
  {
    hide Called, After, Reply, ReservedRun, FailedRun, AttemptEnds, MayStart, ConnectedAt, AttemptRequests,
      CancelAnswered,
      CleanupObserved;
    if ReserveOutcome(script).Ok? {
      var attempt := ReserveOutcome(script).value;
      var first := Called(Fresh(script.control.wire), Reserve(profile)).0;
      assert first.stream.Some? by { ReservedKeepsStream(profile, script); }
      ReservedMeaning(first, attempt, script);
      var (main, own, inner) := ReservedRun(first, attempt, script);
      RunFirst(Fresh(script.control.wire), Reserve(profile), own);
      var t := Trace(Some(attempt), inner, [Reserve(profile)] + own, main, None, None);
      if inner.Err? {
        FailedMeaning(profile, script, attempt, own, t, inner.code);
      } else {
        assert Reply(first, own, |own| - 1) == Reply(Fresh(script.control.wire), [Reserve(profile)] + own, |own|);
      }
    }
  }

  lemma ReservedKeepsStream(profile: nat, script: Script)
    requires ReserveOutcome(script).Ok?
    ensures Called(Fresh(script.control.wire), Reserve(profile)).0.stream.Some?
  {
  }

  /** Start is sent at most once, and only for the attempt that was reserved; on that connection so is Cancel. */
  lemma StartAtMostOnce(sent: seq<Rpc>, profile: nat, attempt: Option<nat>, rpc: Rpc)
    requires Orderly(sent, profile, attempt) && (rpc.Start? || rpc.Cancel?)
    ensures multiset(sent)[rpc] <= 1
    ensures rpc in sent ==> attempt.Some? && rpc in {Start(attempt.value), Cancel(attempt.value)}
  {
    if attempt.Some? {
      var a := attempt.value;
      var own :| AttemptRequests(own, a)
                 && (sent == [Reserve(profile)] + own || sent == [Reserve(profile)] + own + [Cancel(a)]);
      OwnRequests(own, a, rpc);
      assert multiset([Reserve(profile)] + own) == multiset{Reserve(profile)} + multiset(own);
      assert multiset([Reserve(profile)] + own + [Cancel(a)])
          == multiset{Reserve(profile)} + multiset(own) + multiset{Cancel(a)};
    }
  }

  lemma OwnRequests(own: seq<Rpc>, attempt: nat, rpc: Rpc)
    requires AttemptRequests(own, attempt) && (rpc.Start? || rpc.Cancel?)
    ensures multiset(own)[rpc] == if rpc == Start(attempt) && own != [] && own[|own| - 1] == rpc then 1 else 0
  {
    var n :| own == Reports(attempt, n) || own == Reports(attempt, n) + [Start(attempt)];
    assert rpc !in Reports(attempt, n);
    assert multiset(Reports(attempt, n))[rpc] == 0;
    if own != Reports(attempt, n) {
      assert multiset(own) == multiset(Reports(attempt, n)) + multiset{Start(attempt)};
    }
  }
}
