/**
 One daemon connection (`Connection` in `crates/client/src/daemon.rs`): one request at a
 time, and no request after one that got no proper answer.
 */
module DaemonConnection {
  import opened Common

  datatype TunnelState =
    | Disconnected | Authenticating | Connecting | Connected | Reconnecting | Disconnecting
    | AuthenticationNeeded | Failed

  datatype Snapshot = Snapshot(state: TunnelState, profile: Option<nat>, attempt: Option<nat>, error: Option<ErrorCode>)

  datatype Rpc = Reserve(profile: nat) | AuthProgress(attempt: nat) | Start(attempt: nat) | Cancel(attempt: nat)
               | GetSnapshot

  datatype Payload = Reserved(attempt: nat) | Accepted | SnapshotOf(snapshot: Snapshot) | OtherPayload

  /** What arrives for one request: a frame, nothing in time, or a read or write that fails. */
  datatype Wire = Frame(id: nat, result: Result<Payload>) | Silence | Broken

  datatype Exchange = Exchange(rpc: Rpc, id: nat, answer: Result<Payload>)

  /** `log`: the requests written so far and what the caller was told. */
  datatype Link = Link(stream: Option<seq<Wire>>, issued: nat, log: seq<Exchange>)

  /** How opening a connection can end, before any request. */
  datatype Opening = Open(wire: seq<Wire>) | Unreachable | Denied | Incompatible

  function OpeningError(o: Opening): ErrorCode
    requires !o.Open?
  {
    match o
    case Unreachable => ServiceUnavailable
    case Denied => AuthorizationDenied
    case Incompatible => ProtocolViolation
  }

  /** The caller's view of one arrival; a missing one is silence. */
  function Answered(stream: seq<Wire>, id: nat): (Option<seq<Wire>>, Result<Payload>) {
    if stream == [] then (None, Err(ServiceUnavailable))
    else
      match stream[0]
      case Silence => (None, Err(ServiceUnavailable))
      case Broken => (None, Err(ProtocolViolation))
      case Frame(answerId, result) =>
        if answerId != id then (None, Err(ProtocolViolation)) else (Some(stream[1..]), result)
  }

  function Called(l: Link, m: Rpc): (Link, Result<Payload>) {
    match l.stream
    case None => (l, Err(ServiceUnavailable))
    case Some(stream) =>
      var (rest, answer) := Answered(stream, l.issued);
      (Link(rest, l.issued + 1, l.log + [Exchange(m, l.issued, answer)]), answer)
  }

  class Connection {
    var stream: Option<seq<Wire>>
    var issued: nat
    var log: seq<Exchange>

    constructor (wire: seq<Wire>)
      ensures Now() == Link(Some(wire), 0, [])
    {
      stream, issued, log := Some(wire), 0, [];
    }

    function Now(): Link
      reads this
    {
      Link(stream, issued, log)
    }

    /** The stream is taken before the request and put back only after a frame with its id. */
    method Call(m: Rpc) returns (r: Result<Payload>)
      modifies this
      ensures (Now(), r) == Called(old(Now()), m)
    {
      if stream.None? {
        return Err(ServiceUnavailable);
      }
      var taken := stream.value;
      stream := None;
      var id := issued;
      issued := issued + 1;
      if taken == [] || taken[0].Silence? {
        r := Err(ServiceUnavailable);
      } else if taken[0].Broken? || taken[0].id != id {
        r := Err(ProtocolViolation);
      } else {
        stream := Some(taken[1..]);
        r := taken[0].result;
      }
      log := log + [Exchange(m, id, r)];
    }
  }

  // ---------------------------------------------------------------- runs of calls

  function After(l: Link, methods: seq<Rpc>): Link {
    if methods == [] then l else Called(After(l, methods[..|methods| - 1]), methods[|methods| - 1]).0
  }

  function Reply(l: Link, methods: seq<Rpc>, k: nat): Result<Payload>
    requires k < |methods|
  {
    Called(After(l, methods[..k]), methods[k]).1
  }

  lemma {:induction false} RunJoin(l: Link, first: seq<Rpc>, second: seq<Rpc>)
    ensures After(l, first + second) == After(After(l, first), second)
    decreases |second|
  {
    if second == [] {
      assert first + second == first;
    } else {
      RunJoin(l, first, second[..|second| - 1]);
      assert (first + second)[..|first + second| - 1] == first + second[..|second| - 1];
    }
  }

  /** A run is its first call and the run from there. */
  lemma RunFirst(l: Link, m: Rpc, methods: seq<Rpc>)
    ensures var next := Called(l, m).0;
            && After(next, methods) == After(l, [m] + methods)
            && Reply(l, [m] + methods, 0) == Called(l, m).1
            && forall k :: 0 <= k < |methods| ==> Reply(next, methods, k) == Reply(l, [m] + methods, k + 1)
  {
    hide Called;
    var next, all := Called(l, m).0, [m] + methods;
    assert After(l, []) == l && [m][..0] == [] && all[..0] == [];
    assert After(l, [m]) == next;
    RunJoin(l, [m], methods);
    forall k | 0 <= k < |methods|
      ensures Reply(next, methods, k) == Reply(l, all, k + 1)
    {
      RunJoin(l, [m], methods[..k]);
      assert all[..k + 1] == [m] + methods[..k];
    }
  }

  /** The k-th arrival answers the k-th request. */
  predicate Paired(wire: seq<Wire>, k: nat) {
    k < |wire| && wire[k].Frame? && wire[k].id == k
  }

  predicate AllPaired(wire: seq<Wire>, n: nat) {
    forall k :: 0 <= k < n ==> Paired(wire, k)
  }

  lemma {:induction false} LinkAfter(wire: seq<Wire>, methods: seq<Rpc>)
    ensures var l := After(Link(Some(wire), 0, []), methods);
            if AllPaired(wire, |methods|)
            then |methods| <= |wire| && l.stream == Some(wire[|methods|..]) && l.issued == |methods|
            else l.stream == None
  {
    if methods != [] {
      var n := |methods| - 1;
      LinkAfter(wire, methods[..n]);
      if AllPaired(wire, n) {
        assert AllPaired(wire, n + 1) <==> Paired(wire, n);
        if n < |wire| {
          assert wire[n..][0] == wire[n] && wire[n..][1..] == wire[n + 1..];
        }
      }
    }
  }

  /**
   A call is answered by the frame of its own position and id, provided every earlier call
   was; after any call that was not, nothing is sent and every call fails. So no request is
   ever paired with an answer to another one, however late answers arrive.
   */
  lemma RequestsPairWithTheirAnswers(wire: seq<Wire>, methods: seq<Rpc>, k: nat)
    requires k < |methods|
    ensures var start := Link(Some(wire), 0, []);
            && (AllPaired(wire, k) && Paired(wire, k) ==> Reply(start, methods, k) == wire[k].result)
            && (AllPaired(wire, k) && !Paired(wire, k) ==>
                  Reply(start, methods, k)
                  == Err(if k >= |wire| || wire[k].Silence? then ServiceUnavailable else ProtocolViolation))
            && (!AllPaired(wire, k) ==>
                  Reply(start, methods, k) == Err(ServiceUnavailable)
                  && After(start, methods[..k + 1]).log == After(start, methods[..k]).log)
  {
    LinkAfter(wire, methods[..k]);
    assert methods[..k + 1][..k] == methods[..k];
    assert AllPaired(wire, k + 1) <==> AllPaired(wire, k) && Paired(wire, k);
    if AllPaired(wire, k) && k < |wire| {
      assert wire[k..][0] == wire[k];
    }
  }
}
