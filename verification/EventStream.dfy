/**
 The daemon client's event stream (`Events::next` in `crates/client/src/daemon.rs`) as a
 refinement of the service's history.

 The service numbers its events consecutively within one instance. A snapshot event
 carries the whole state, a log event leaves it alone.
 */
module EventStream {
  import opened Common

  datatype Snapshot = Snapshot(instance: nat, sequence: nat, state: nat)

  datatype Payload = State(snapshot: Snapshot) | Log(record: nat)

  /** Instance 0 is the nil identifier. */
  datatype Event = Event(instance: nat, sequence: nat, payload: Payload)

  datatype Position = Position(instance: nat, sequence: nat)

  function At(e: Event): Position {
    Position(e.instance, e.sequence)
  }

  function FromSnapshot(s: Snapshot): Event {
    Event(s.instance, s.sequence, State(s))
  }

  /** `stream`: the wire events still to be read; None once the stream is closed. */
  datatype View = View(stream: Option<seq<Event>>, last: Option<Position>, initial: Option<Event>)

  function Subscribed(snapshot: Snapshot, wire: seq<Event>): View {
    View(Some(wire), None, Some(FromSnapshot(snapshot)))
  }

  /** A fetch of a snapshot: where the subscriber stood, and the event that did not follow. */
  datatype Jump = Jump(from: Position, event: Event)

  /** What a call of `next` does; `jump` is set when it delivered a fetched snapshot. */
  datatype Outcome = Outcome(view: View, result: Result<Event>, jump: Option<Jump>)

  predicate Malformed(e: Event) {
    e.instance == 0
    || (e.payload.State? && (e.payload.snapshot.instance != e.instance || e.payload.snapshot.sequence != e.sequence))
  }

  predicate Old(last: Option<Position>, e: Event) {
    last.Some? && last.value.instance == e.instance && e.sequence <= last.value.sequence
  }

  /** The event does not continue where the subscriber stands. */
  predicate Gap(last: Option<Position>, e: Event) {
    && last.Some?
    && (|| last.value.instance != e.instance
        || last.value.sequence == U64_MAX
        || last.value.sequence + 1 != e.sequence)
  }

  // ---------------------------------------------------------------- specification of one call

  function Left(v: View): nat {
    if v.stream.Some? then |v.stream.value| else 0
  }

  function Consume(v: View, e: Event, logs: bool, fetch: Result<Snapshot>): (o: Outcome)
    requires v.initial.None?
    decreases Left(v), 1
  {
    if Malformed(e) then Outcome(v, Err(ProtocolViolation), None)
    else if Old(v.last, e) then Next(v, logs, fetch)
    else if Gap(v.last, e) then
      if logs then Outcome(v, Err(ServiceUnavailable), None)
      else
        match fetch
        case Err(c) => Outcome(v, Err(c), None)
        case Ok(s) =>
          Outcome(v.(last := Some(Position(s.instance, s.sequence))), Ok(FromSnapshot(s)), Some(Jump(v.last.value, e)))
    else
      var moved := v.(last := Some(At(e)));
      if e.payload.Log? != logs then Next(moved, logs, fetch) else Outcome(moved, Ok(e), None)
  }

  function Next(v: View, logs: bool, fetch: Result<Snapshot>): Outcome
    requires v.initial.None?
    decreases Left(v), 0
  {
    match v.stream
    case None => Outcome(v, Err(ServiceUnavailable), None)
    case Some(events) =>
      if events == [] then Outcome(v.(stream := None), Err(ProtocolViolation), None)
      else Consume(v.(stream := Some(events[1..])), events[0], logs, fetch)
  }

  function Call(v: View, logs: bool, fetch: Result<Snapshot>): Outcome {
    match v.initial
    case Some(e) => Consume(v.(initial := None), e, logs, fetch)
    case None => Next(v, logs, fetch)
  }

  lemma CallReads(v: View, logs: bool, fetch: Result<Snapshot>)
    ensures v.initial.Some? ==> Call(v, logs, fetch) == Consume(v.(initial := None), v.initial.value, logs, fetch)
    ensures v.initial.None? && v.stream.None? ==> Call(v, logs, fetch) == Outcome(v, Err(ServiceUnavailable), None)
    ensures v.initial.None? && v.stream == Some([]) ==>
              Call(v, logs, fetch) == Outcome(v.(stream := None), Err(ProtocolViolation), None)
    ensures v.initial.None? && v.stream.Some? && v.stream.value != [] ==>
              Call(v, logs, fetch) == Consume(v.(stream := Some(v.stream.value[1..])), v.stream.value[0], logs, fetch)
  {
  }

  lemma ConsumeUnfolds(v: View, e: Event, logs: bool, fetch: Result<Snapshot>)
    requires v.initial.None?
    ensures var o := Consume(v, e, logs, fetch);
            var moved := v.(last := Some(At(e)));
            if Malformed(e) then o == Outcome(v, Err(ProtocolViolation), None)
            else if Old(v.last, e) then o == Call(v, logs, fetch)
            else if Gap(v.last, e) then
              (if logs then o == Outcome(v, Err(ServiceUnavailable), None)
               else if fetch.Err? then o == Outcome(v, Err(fetch.code), None)
               else o == Outcome(v.(last := Some(Position(fetch.value.instance, fetch.value.sequence))),
                                 Ok(FromSnapshot(fetch.value)), Some(Jump(v.last.value, e))))
            else if e.payload.Log? != logs then o == Call(moved, logs, fetch)
            else o == Outcome(moved, Ok(e), None)
  {
  }

  class Events {
    var stream: Option<seq<Event>>
    var last: Option<Position>
    var initial: Option<Event>
    const logStream: bool

    constructor Subscribe(snapshot: Snapshot, wire: seq<Event>)
      ensures !logStream && Now() == Subscribed(snapshot, wire)
    {
      stream, last, initial, logStream := Some(wire), None, Some(FromSnapshot(snapshot)), false;
    }

    constructor FollowLogs(wire: seq<Event>)
      ensures logStream && Now() == View(Some(wire), None, None)
    {
      stream, last, initial, logStream := Some(wire), None, None, true;
    }

    function Now(): View
      reads this
    {
      View(stream, last, initial)
    }

    /** The initial event first, then the wire; a failed read leaves the stream closed. */
    method Read() returns (r: Result<Event>)
      modifies this
      ensures var v := old(Now());
              Now().last == v.last && Now().initial.None? &&
              if v.initial.Some? then r == Ok(v.initial.value) && Now().stream == v.stream
              else if v.stream.None? then r == Err(ServiceUnavailable) && Now().stream == None
              else if v.stream.value == [] then r == Err(ProtocolViolation) && Now().stream == None
              else r == Ok(v.stream.value[0]) && Now().stream == Some(v.stream.value[1..])
    {
      if initial.Some? {
        r, initial := Ok(initial.value), None;
      } else if stream.None? {
        r := Err(ServiceUnavailable);
      } else {
        var events := stream.value;
        stream := None;
        if events == [] {
          return Err(ProtocolViolation);
        }
        r, stream := Ok(events[0]), Some(events[1..]);
      }
    }

    /** `fetch`: what opening a connection and asking for a snapshot would give. */
    method NextEvent(fetch: Result<Snapshot>) returns (r: Result<Event>)
      modifies this
      ensures var o := Call(old(Now()), logStream, fetch);
              Now() == o.view && r == o.result
    {
      hide Call, Consume, Next;
      ghost var spec := Call(Now(), logStream, fetch);
      while true
        invariant Call(Now(), logStream, fetch) == spec
        decreases Left(Now()), initial.Some?
      {
        CallReads(Now(), logStream, fetch);
        var read := Read();
        if read.Err? {
          return read;
        }
        var event := read.value;
        ConsumeUnfolds(Now(), event, logStream, fetch);
        if Malformed(event) {
          return Err(ProtocolViolation);
        }
        if Old(last, event) {
          continue;
        }
        if Gap(last, event) {
          if logStream {
            return Err(ServiceUnavailable);
          }
          if fetch.Err? {
            return Err(fetch.code);
          }
          last := Some(Position(fetch.value.instance, fetch.value.sequence));
          return Ok(FromSnapshot(fetch.value));
        }
        last := Some(At(event));
        if event.payload.Log? != logStream {
          continue;
        }
        return Ok(event);
      }
    }
  }

  // ---------------------------------------------------------------- the service

  datatype Change = NewState(state: nat) | Line(record: nat)

  /** Change number k of an instance has sequence number k + 1; all instances start in state 0. */
  type History = nat -> seq<Change>

  function StateAfter(changes: seq<Change>, n: nat): nat
    requires n <= |changes|
  {
    if n == 0 then 0
    else if changes[n - 1].NewState? then changes[n - 1].state
    else StateAfter(changes, n - 1)
  }

  /** A snapshot that is true of the service at its sequence number. */
  ghost predicate TrueSnapshot(h: History, s: Snapshot) {
    s.instance != 0 && s.sequence <= |h(s.instance)| && s.state == StateAfter(h(s.instance), s.sequence)
  }

  /** An event of the service's history: a log event is the line of its number, a snapshot a change of state. */
  ghost predicate Genuine(h: History, e: Event) {
    && 0 < e.sequence <= |h(e.instance)|
    && (e.payload.Log? ==> h(e.instance)[e.sequence - 1] == Line(e.payload.record))
    && (e.payload.State? ==> h(e.instance)[e.sequence - 1].NewState? && TrueSnapshot(h, e.payload.snapshot))
  }

  ghost predicate GenuineWire(h: History, v: View) {
    v.stream.Some? ==> forall k :: 0 <= k < |v.stream.value| ==> Genuine(h, v.stream.value[k])
  }

  /** The outcomes of a run of calls, one per answer a fetch would get. */
  function Calls(v: View, logs: bool, fetches: seq<Result<Snapshot>>): (os: seq<Outcome>)
    ensures |os| == |fetches|
    decreases |fetches|
  {
    if fetches == [] then []
    else
      var o := Call(v, logs, fetches[0]);
      [o] + Calls(o.view, logs, fetches[1..])
  }

  ghost predicate TrueFetch(h: History, fetch: Result<Snapshot>) {
    fetch.Ok? ==> TrueSnapshot(h, fetch.value)
  }

  // ---------------------------------------------------------------- snapshot subscribers

  /** The subscriber holds exactly the service state of its remembered position. */
  ghost predicate InStep(h: History, v: View, held: Option<nat>) {
    && GenuineWire(h, v)
    && match v.initial
       case Some(e) =>
         v.last.None? && held.None? && e.payload.State? && !Malformed(e) && TrueSnapshot(h, e.payload.snapshot)
       case None =>
         && v.last.Some? && v.last.value.instance != 0
         && v.last.value.sequence <= |h(v.last.value.instance)|
         && held == Some(StateAfter(h(v.last.value.instance), v.last.value.sequence))
  }

  /** What the subscriber holds after a call. */
  function Held(held: Option<nat>, r: Result<Event>): Option<nat> {
    if r.Ok? && r.value.payload.State? then Some(r.value.payload.snapshot.state) else held
  }

  /** No change of state lies between two positions of one instance. */
  predicate OnlyLogsBetween(changes: seq<Change>, from: nat, to: nat) {
    to <= |changes| && forall k :: from <= k < to ==> changes[k].Line?
  }

  /** A call without a fetch moves forward in one instance over log lines only, to the delivered change. */
  ghost predicate Continues(h: History, last: Position, o: Outcome) {
    o.jump.None? ==>
      && o.view.last.Some?
      && o.view.last.value.instance == last.instance
      && last.sequence <= o.view.last.value.sequence
      && (if o.result.Ok?
          then last.sequence < o.view.last.value.sequence
               && OnlyLogsBetween(h(last.instance), last.sequence, o.view.last.value.sequence - 1)
          else OnlyLogsBetween(h(last.instance), last.sequence, o.view.last.value.sequence))
  }

  ghost predicate DeliversState(o: Outcome) {
    o.result.Ok? ==>
      o.result.value.payload.State? && !Malformed(o.result.value) && o.view.last == Some(At(o.result.value))
  }

  /** A fetch is made only where the stream does not continue, and its answer is what is delivered. */
  ghost predicate JumpsOverGap(o: Outcome, fetch: Result<Snapshot>) {
    o.jump.Some? ==>
      && Gap(Some(o.jump.value.from), o.jump.value.event) && !Old(Some(o.jump.value.from), o.jump.value.event)
      && fetch.Ok? && o.result == Ok(FromSnapshot(fetch.value))
  }

  ghost predicate CallStep(h: History, v: View, fetch: Result<Snapshot>, held: Option<nat>, o: Outcome) {
    && InStep(h, o.view, Held(held, o.result))
    && DeliversState(o)
    && JumpsOverGap(o, fetch)
    && (v.last.Some? ==> Continues(h, v.last.value, o))
    && (v.last.Some? && o.jump.Some? ==>
          Continues(h, v.last.value, Outcome(v.(last := Some(o.jump.value.from)), Err(ServiceUnavailable), None)))
  }

  lemma {:induction false} NextStep(h: History, v: View, fetch: Result<Snapshot>, held: Option<nat>)
    requires InStep(h, v, held) && v.initial.None? && TrueFetch(h, fetch)
    ensures CallStep(h, v, fetch, held, Next(v, false, fetch))
    decreases Left(v), 0
  {
    if v.stream.Some? && v.stream.value != [] {
      var e, w := v.stream.value[0], v.(stream := Some(v.stream.value[1..]));
      if !Malformed(e) {
        if Old(v.last, e) {
          NextStep(h, w, fetch, held);
        } else if !Gap(v.last, e) && e.payload.Log? {
          NextStep(h, w.(last := Some(At(e))), fetch, held);
        }
      }
    }
  }

  lemma CallKeepsStep(h: History, v: View, fetch: Result<Snapshot>, held: Option<nat>)
    requires InStep(h, v, held) && TrueFetch(h, fetch)
    ensures CallStep(h, v, fetch, held, Call(v, false, fetch))
  {
    if v.initial.None? {
      NextStep(h, v, fetch, held);
    }
  }

  function ViewBefore(v: View, os: seq<Outcome>, k: nat): View
    requires k <= |os|
  {
    if k == 0 then v else os[k - 1].view
  }

  function HeldAfter(os: seq<Outcome>, k: nat): Option<nat>
    requires k <= |os|
  {
    if k == 0 then None else Held(HeldAfter(os, k - 1), os[k - 1].result)
  }

  lemma {:induction false} CallsAt(v: View, logs: bool, fetches: seq<Result<Snapshot>>, k: nat)
    requires k < |fetches|
    ensures var os := Calls(v, logs, fetches);
            os[k] == Call(ViewBefore(v, os, k), logs, fetches[k])
    decreases k
  {
    if k > 0 {
      CallsAt(Call(v, logs, fetches[0]).view, logs, fetches[1..], k - 1);
    }
  }

  /**
   At every moment of a subscription the subscriber holds the service state of its
   remembered position; a delivery without a fetch is the next change of state.
   */
  lemma {:induction false} SubscriberFollowsService(h: History, snapshot: Snapshot, wire: seq<Event>,
                                                    fetches: seq<Result<Snapshot>>, k: nat)
    requires TrueSnapshot(h, snapshot) && k <= |fetches|
    requires forall i :: 0 <= i < |wire| ==> Genuine(h, wire[i])
    requires forall i :: 0 <= i < |fetches| ==> TrueFetch(h, fetches[i])
    ensures var v := Subscribed(snapshot, wire);
            var os := Calls(v, false, fetches);
            && InStep(h, ViewBefore(v, os, k), HeldAfter(os, k))
            && (k < |os| ==> CallStep(h, ViewBefore(v, os, k), fetches[k], HeldAfter(os, k), os[k]))
    decreases k
  {
    hide Call;
    var v := Subscribed(snapshot, wire);
    var os := Calls(v, false, fetches);
    if k > 0 {
      SubscriberFollowsService(h, snapshot, wire, fetches, k - 1);
    }
    if k < |os| {
      CallsAt(v, false, fetches, k);
      CallKeepsStep(h, ViewBefore(v, os, k), fetches[k], HeldAfter(os, k));
    }
  }

  // ---------------------------------------------------------------- nothing is delivered twice

  /** The order in which the service passes through positions; `born` dates its instances. */
  predicate Before(born: nat -> nat, p: Position, q: Position) {
    born(p.instance) < born(q.instance) || (p.instance == q.instance && p.sequence < q.sequence)
  }

  predicate NotAfter(born: nat -> nat, p: Position, q: Position) {
    p == q || Before(born, p, q)
  }

  /** A fetched snapshot is no older than anything the subscriber has read. */
  ghost predicate UpToDate(born: nat -> nat, o: Outcome) {
    o.jump.Some? && o.result.Ok? ==>
      && NotAfter(born, o.jump.value.from, At(o.result.value))
      && NotAfter(born, At(o.jump.value.event), At(o.result.value))
  }

  /** The buffered event at which a snapshot subscriber would have to fetch, and where it would stand then. */
  function Stop(v: View): Option<Jump>
    requires v.last.Some?
    decreases Left(v)
  {
    if v.stream.None? || v.stream.value == [] then None
    else
      var e, w := v.stream.value[0], v.(stream := Some(v.stream.value[1..]));
      if Malformed(e) then None
      else if Old(v.last, e) then Stop(w)
      else if Gap(v.last, e) then Some(Jump(v.last.value, e))
      else if e.payload.Log? then Stop(w.(last := Some(At(e))))
      else None
  }

  /** The next event that counts was left behind by an instance older than the one the subscriber follows. */
  predicate StopsAtOlder(born: nat -> nat, v: View)
    requires v.last.Some?
  {
    match Stop(v)
    case None => false
    case Some(jump) => jump.from == v.last.value && born(jump.event.instance) < born(v.last.value.instance)
  }

  /** Where a call fetches does not depend on what the fetch would answer. */
  lemma {:induction false} FetchesAtStop(v: View, fetch: Result<Snapshot>)
    requires v.initial.None? && v.last.Some?
    ensures var (o, stop) := (Next(v, false, fetch), Stop(v));
            && o.jump == (if fetch.Ok? then stop else None)
            && (o.jump.Some? ==> o.result == Ok(FromSnapshot(fetch.value)))
            && (stop.Some? ==>
                  && stop.value.from.instance == v.last.value.instance
                  && v.last.value.sequence <= stop.value.from.sequence
                  && !Old(Some(stop.value.from), stop.value.event))
    decreases Left(v)
  {
    if v.stream.Some? && v.stream.value != [] {
      var e, w := v.stream.value[0], v.(stream := Some(v.stream.value[1..]));
      if !Malformed(e) {
        if Old(v.last, e) {
          FetchesAtStop(w, fetch);
        } else if !Gap(v.last, e) && e.payload.Log? {
          FetchesAtStop(w.(last := Some(At(e))), fetch);
        }
      }
    }
  }

  /**
   The remembered position never goes back, and a delivery repeats it exactly when the
   buffered event it stops at is of an older instance and the service is still at that position.
   */
  lemma DeliveryAdvances(h: History, born: nat -> nat, v: View, fetch: Result<Snapshot>, held: Option<nat>)
    requires InStep(h, v, held) && v.last.Some? && TrueFetch(h, fetch)
    requires UpToDate(born, Call(v, false, fetch))
    ensures var o := Call(v, false, fetch);
            && o.view.last.Some?
            && NotAfter(born, v.last.value, o.view.last.value)
            && (o.result.Ok? ==>
                  (At(o.result.value) == v.last.value <==>
                   StopsAtOlder(born, v) && fetch.Ok? && At(FromSnapshot(fetch.value)) == v.last.value))
  {
    hide Next, Consume, Stop;
    CallKeepsStep(h, v, fetch, held);
    FetchesAtStop(v, fetch);
  }

  /**
   Exactly when a position can be delivered twice, known before the fetch: some true and
   up-to-date answer of the service repeats it if and only if the buffered event the call
   stops at was left behind by an older instance.
   */
  lemma RepeatsExactlyWhen(h: History, born: nat -> nat, v: View, held: Option<nat>)
    requires InStep(h, v, held) && v.last.Some?
    ensures (exists s :: CanRepeat(h, born, v, s)) <==> StopsAtOlder(born, v)
  {
    hide Next, Consume, Stop, Call;
    if s :| CanRepeat(h, born, v, s) {
      DeliveryAdvances(h, born, v, Ok(s), held);
    }
    if StopsAtOlder(born, v) {
      var p := v.last.value;
      StillThere(h, born, v, Snapshot(p.instance, p.sequence, StateAfter(h(p.instance), p.sequence)), held);
    }
  }

  /** The answer of a service that has not moved since. */
  lemma StillThere(h: History, born: nat -> nat, v: View, s: Snapshot, held: Option<nat>)
    requires InStep(h, v, held) && v.last.Some? && StopsAtOlder(born, v)
    requires TrueSnapshot(h, s) && At(FromSnapshot(s)) == v.last.value
    ensures CanRepeat(h, born, v, s)
  {
    hide Next, Consume, Stop;
    FetchesAtStop(v, Ok(s));
  }

  /** With this true and up-to-date answer the call delivers the remembered position again. */
  ghost predicate CanRepeat(h: History, born: nat -> nat, v: View, s: Snapshot) {
    var o := Call(v, false, Ok(s));
    TrueSnapshot(h, s) && UpToDate(born, o) && o.result.Ok? && v.last == Some(At(o.result.value))
  }

  /** Delivered positions of one subscription only move forward, except where a call stops at an older instance. */
  lemma {:induction false} NothingIsDeliveredTwice(h: History, born: nat -> nat, snapshot: Snapshot,
                                                   wire: seq<Event>, fetches: seq<Result<Snapshot>>, i: nat, j: nat)
    requires TrueSnapshot(h, snapshot) && i < j < |fetches|
    requires forall k :: 0 <= k < |wire| ==> Genuine(h, wire[k])
    requires forall k :: 0 <= k < |fetches| ==> TrueFetch(h, fetches[k])
    requires var os := Calls(Subscribed(snapshot, wire), false, fetches);
             && (forall k :: 0 <= k < |os| ==> UpToDate(born, os[k]))
             && os[i].result.Ok?
    ensures var os := Calls(Subscribed(snapshot, wire), false, fetches);
            && os[j].view.last.Some?
            && NotAfter(born, At(os[i].result.value), os[j].view.last.value)
            && (os[j].result.Ok? ==>
                  && os[j].view.last.value == At(os[j].result.value)
                  && ViewBefore(Subscribed(snapshot, wire), os, j).last.Some?
                  && (StopsAtOlder(born, ViewBefore(Subscribed(snapshot, wire), os, j))
                      || Before(born, At(os[i].result.value), At(os[j].result.value))))
    decreases j
  {
    hide Call, Next, Consume, Calls, Stop;
    var v := Subscribed(snapshot, wire);
    var os := Calls(v, false, fetches);
    SubscriberFollowsService(h, snapshot, wire, fetches, j);
    SubscriberFollowsService(h, snapshot, wire, fetches, j - 1);
    CallsAt(v, false, fetches, j);
    if j - 1 > i {
      NothingIsDeliveredTwice(h, born, snapshot, wire, fetches, i, j - 1);
    }
    DeliveryAdvances(h, born, os[j - 1].view, fetches[j], HeldAfter(os, j));
  }

  /**
   The service restarts while the subscriber still reads the old stream: the old events
   each cause a fetch, and the new instance's snapshot is delivered twice.
   */
  lemma RestartRepeatsSnapshot(h: History, born: nat -> nat)
    requires h(1) == [NewState(7), NewState(8), NewState(9)] && h(2) == []
    requires born(1) < born(2)
    ensures exists wire: seq<Event> ::
              var s, f := Snapshot(1, 0, 0), Ok(Snapshot(2, 0, 0));
              && TrueSnapshot(h, s) && TrueFetch(h, f)
              && (forall k :: 0 <= k < |wire| ==> Genuine(h, wire[k]))
              && (var os := Calls(Subscribed(s, wire), false, [f, f, f]);
                  && (forall k :: 0 <= k < |os| ==> UpToDate(born, os[k]))
                  && os[1].result.Ok? && os[2].result == os[1].result)
  {
    var e2, e3 := Event(1, 2, State(Snapshot(1, 2, 8))), Event(1, 3, State(Snapshot(1, 3, 9)));
    var s, f := Snapshot(1, 0, 0), Ok(Snapshot(2, 0, 0));
    var wire := [e2, e3];
    var v := Subscribed(s, wire);
    CallReads(View(Some(wire), Some(Position(1, 0)), None), false, f);
    CallReads(View(Some([e3]), Some(Position(2, 0)), None), false, f);
    ConsumeUnfolds(View(Some([e3]), Some(Position(1, 0)), None), e2, false, f);
    ConsumeUnfolds(View(Some([]), Some(Position(2, 0)), None), e3, false, f);
    var o0, o1 := Call(v, false, f), Call(View(Some(wire), Some(Position(1, 0)), None), false, f);
    var o2 := Call(View(Some([e3]), Some(Position(2, 0)), None), false, f);
    assert o0.view == View(Some(wire), Some(Position(1, 0)), None);
    assert wire[1..] == [e3] && [e3][1..] == [];
    assert o1 == Outcome(View(Some([e3]), Some(Position(2, 0)), None), Ok(FromSnapshot(f.value)),
                         Some(Jump(Position(1, 0), e2)));
    assert o2 == Outcome(View(Some([]), Some(Position(2, 0)), None), Ok(FromSnapshot(f.value)),
                         Some(Jump(Position(2, 0), e3)));
    assert Calls(o2.view, false, []) == [];
    assert Calls(o1.view, false, [f]) == [o2] by { assert [f][1..] == []; }
    assert Calls(o0.view, false, [f, f]) == [o1, o2] by { assert [f, f][1..] == [f]; }
    assert Calls(v, false, [f, f, f]) == [o0, o1, o2] by { assert [f, f, f][1..] == [f, f]; }
    assert Genuine(h, e2) && Genuine(h, e3);
  }

  // ---------------------------------------------------------------- log followers

  /** The log records of a stretch of changes, in order. */
  function Lines(changes: seq<Change>, from: nat, to: nat): seq<nat>
    requires from <= to <= |changes|
  {
    if from == to then []
    else Lines(changes, from, to - 1) + (if changes[to - 1].Line? then [changes[to - 1].record] else [])
  }

  lemma {:induction false} LinesJoin(changes: seq<Change>, a: nat, b: nat, c: nat)
    requires a <= b <= c <= |changes|
    ensures Lines(changes, a, c) == Lines(changes, a, b) + Lines(changes, b, c)
    decreases c
  {
    if b < c {
      LinesJoin(changes, a, b, c - 1);
    }
  }

  function Records(r: Result<Event>): seq<nat> {
    if r.Ok? && r.value.payload.Log? then [r.value.payload.record] else []
  }

  function Delivered(os: seq<Outcome>, k: nat): seq<nat>
    requires k <= |os|
  {
    if k == 0 then [] else Delivered(os, k - 1) + Records(os[k - 1].result)
  }

  /** Where a log follower stands: after the remembered event, or before the first event it will take. */
  function Anchor(v: View): Option<Position>
    decreases Left(v)
  {
    if v.last.Some? then v.last
    else if v.stream.None? || v.stream.value == [] then None
    else if Malformed(v.stream.value[0]) || v.stream.value[0].sequence == 0
    then Anchor(v.(stream := Some(v.stream.value[1..])))
    else Some(Position(v.stream.value[0].instance, v.stream.value[0].sequence - 1))
  }

  ghost predicate Following(h: History, v: View) {
    && v.initial.None? && GenuineWire(h, v)
    && (v.last.Some? ==> v.last.value.sequence <= |h(v.last.value.instance)|)
  }

  ghost predicate FollowStep(h: History, v: View, o: Outcome) {
    && Following(h, o.view)
    && match Anchor(v)
       case None => Anchor(o.view).None? && o.result.Err?
       case Some(p) =>
         && (o.result.Ok? ==> o.result.value.payload.Log? && o.view.last == Some(At(o.result.value)))
         && Anchor(o.view).Some?
         && Anchor(o.view).value.instance == p.instance
         && p.sequence <= Anchor(o.view).value.sequence <= |h(p.instance)|
         && Records(o.result) == Lines(h(p.instance), p.sequence, Anchor(o.view).value.sequence)
  }

  lemma {:induction false} AnchorWithin(h: History, v: View)
    requires Following(h, v) && Anchor(v).Some?
    ensures Anchor(v).value.sequence <= |h(Anchor(v).value.instance)|
    decreases Left(v)
  {
    if v.last.None? {
      assert Genuine(h, v.stream.value[0]);
      if Malformed(v.stream.value[0]) {
        AnchorWithin(h, v.(stream := Some(v.stream.value[1..])));
      }
    }
  }

  lemma {:induction false} FollowerStep(h: History, v: View, fetch: Result<Snapshot>)
    requires Following(h, v)
    ensures FollowStep(h, v, Next(v, true, fetch))
    decreases Left(v)
  {
    hide Consume;
    if v.stream.Some? && v.stream.value != [] {
      var e, w := v.stream.value[0], v.(stream := Some(v.stream.value[1..]));
      assert Genuine(h, e);
      ConsumeUnfolds(w, e, true, fetch);
      CallReads(v, true, fetch);
      if Malformed(e) {
        if Anchor(w).Some? {
          AnchorWithin(h, w);
        }
      } else {
        if Old(v.last, e) {
          FollowerStep(h, w, fetch);
        } else if !Gap(v.last, e) {
          var moved := w.(last := Some(At(e)));
          var changes, from := h(e.instance), e.sequence - 1;
          assert Anchor(v) == Some(Position(e.instance, from));
          assert Lines(changes, from, from) == [];
          if e.payload.State? {
            assert Lines(changes, from, e.sequence) == [];
            FollowerStep(h, moved, fetch);
            LinesJoin(changes, from, e.sequence, Anchor(Next(moved, true, fetch).view).value.sequence);
          } else {
            assert Lines(changes, from, e.sequence) == [e.payload.record];
          }
        }
      }
    }
  }

  /**
   A log follower receives the log lines after its starting point, every one, once and in
   order, up to the position it stands at; nothing else is delivered to it.
   */
  lemma {:induction false} FollowerMissesNothing(h: History, wire: seq<Event>, fetches: seq<Result<Snapshot>>, k: nat)
    requires forall i :: 0 <= i < |wire| ==> Genuine(h, wire[i])
    requires k <= |fetches|
    ensures var v := View(Some(wire), None, None);
            var os := Calls(v, true, fetches);
            var now := ViewBefore(v, os, k);
            && Following(h, now)
            && match Anchor(v)
               case None => Anchor(now).None? && forall i :: 0 <= i < k ==> os[i].result.Err?
               case Some(start) =>
                 && Anchor(now).Some?
                 && Anchor(now).value.instance == start.instance
                 && start.sequence <= Anchor(now).value.sequence <= |h(start.instance)|
                 && Delivered(os, k) == Lines(h(start.instance), start.sequence, Anchor(now).value.sequence)
    decreases k
  {
    hide Next, Consume, Calls;
    var v := View(Some(wire), None, None);
    var os := Calls(v, true, fetches);
    if k == 0 {
      if Anchor(v).Some? {
        AnchorWithin(h, v);
      }
    } else {
      FollowerMissesNothing(h, wire, fetches, k - 1);
      var before := ViewBefore(v, os, k - 1);
      CallsAt(v, true, fetches, k - 1);
      FollowerStep(h, before, fetches[k - 1]);
      if Anchor(v).Some? {
        var start := Anchor(v).value;
        LinesJoin(h(start.instance), start.sequence, Anchor(before).value.sequence,
                  Anchor(os[k - 1].view).value.sequence);
      }
    }
  }
}
