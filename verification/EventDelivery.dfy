/**
 When a call on an event stream delivers and when it fails (`Events::next` in
 `crates/client/src/daemon.rs`), in terms of the buffered events alone.
 */
module EventDelivery {
  import opened Common
  import opened EventStream

  /** The instance is named, and a snapshot event agrees with the snapshot it carries. */
  predicate Sound(e: Event) {
    e.instance != 0 && (e.payload.State? ==> e.payload.snapshot.instance == e.instance
                                             && e.payload.snapshot.sequence == e.sequence)
  }

  /** The event is the next one; nothing is known before the first. */
  predicate Continues(q: Option<Position>, e: Event) {
    q.None? || (e.instance == q.value.instance && q.value.sequence != U64_MAX && e.sequence == q.value.sequence + 1)
  }

  predicate Repeats(q: Option<Position>, e: Event) {
    q.Some? && e.instance == q.value.instance && e.sequence <= q.value.sequence
  }

  /** Where the reader stands after the first `n` events: at the last of them that was the next one. */
  function Reached(q: Option<Position>, events: seq<Event>, n: nat): Option<Position>
    requires n <= |events|
  {
    if n == 0 then q
    else
      var before := Reached(q, events, n - 1);
      if !Repeats(before, events[n - 1]) && Continues(before, events[n - 1]) then Some(At(events[n - 1])) else before
  }

  /** The event gives the reader nothing: it was read before, or is the next one but of the other kind. */
  predicate Passed(logs: bool, q: Option<Position>, events: seq<Event>, k: nat)
    requires k < |events|
  {
    var (here, e) := (Reached(q, events, k), events[k]);
    Sound(e) && (Repeats(here, e) || (Continues(here, e) && e.payload.Log? != logs))
  }

  /** How many events a call passes over. */
  ghost predicate Passes(logs: bool, q: Option<Position>, events: seq<Event>, n: nat) {
    && n <= |events|
    && (forall k :: 0 <= k < n ==> Passed(logs, q, events, k))
    && (n < |events| ==> !Passed(logs, q, events, n))
  }

  /** What a call that passed over `n` events comes to, whatever it did not read. */
  function Answer(v: View, logs: bool, fetch: Result<Snapshot>, events: seq<Event>, n: nat): Result<Event>
    requires n <= |events|
  {
    if n == |events| then Err(ProtocolViolation)
    else
      var (here, e) := (Reached(v.last, events, n), events[n]);
      if !Sound(e) then Err(ProtocolViolation)
      else if Continues(here, e) then Ok(e)
      else if logs then Err(ServiceUnavailable)
      else if fetch.Ok? then Ok(FromSnapshot(fetch.value))
      else Err(fetch.code)
  }

  lemma {:induction false} ReachedLater(q: Option<Position>, events: seq<Event>, n: nat)
    requires 0 < n <= |events|
    ensures Reached(q, events, n) == Reached(Reached(q, events, 1), events[1..], n - 1)
    decreases n
  {
    if n > 1 {
      ReachedLater(q, events, n - 1);
      assert events[1..][n - 2] == events[n - 1];
    }
  }

  lemma PassesLater(logs: bool, q: Option<Position>, events: seq<Event>, n: nat)
    requires Passes(logs, q, events, n) && n > 0
    ensures Passes(logs, Reached(q, events, 1), events[1..], n - 1)
  {
    hide Sound, Repeats, Continues;
    forall k | 0 < k <= n && k < |events|
      ensures Passed(logs, q, events, k) == Passed(logs, Reached(q, events, 1), events[1..], k - 1)
    {
      ReachedLater(q, events, k);
    }
    forall k | 0 <= k < n - 1
      ensures Passed(logs, Reached(q, events, 1), events[1..], k)
    {
      assert Passed(logs, q, events, k + 1);
    }
  }

  /** A call reads exactly the events it passes over and the one that stops it. */
  lemma {:induction false} NextMeaning(v: View, logs: bool, fetch: Result<Snapshot>, events: seq<Event>, n: nat)
    requires v.initial.None? && v.stream == Some(events) && Passes(logs, v.last, events, n)
    ensures var o := Next(v, logs, fetch);
            && o.result == Answer(v, logs, fetch, events, n)
            && (o.jump.Some? <==> n < |events| && Sound(events[n]) && !Continues(Reached(v.last, events, n), events[n])
                                  && !logs && fetch.Ok?)
            && o.view.stream == (if n == |events| then None else Some(events[n + 1..]))
            && o.view.last == (if o.result.Ok? then Some(At(o.result.value)) else Reached(v.last, events, n))
    decreases n
  {
    if events != [] {
      assert Reached(v.last, events, 0) == v.last;
      var e, w := events[0], v.(stream := Some(events[1..]));
      if n > 0 {
        assert Passed(logs, v.last, events, 0);
        PassesLater(logs, v.last, events, n);
        var moved := w.(last := Reached(v.last, events, 1));
        NextMeaning(moved, logs, fetch, events[1..], n - 1);
        ReachedLater(v.last, events, n);
        assert n < |events| ==> events[1..][n - 1] == events[n] && events[1..][n..] == events[n + 1..];
      } else {
        assert !Passed(logs, v.last, events, 0);
        assert events[0 + 1..] == events[1..];
      }
    }
  }

  lemma {:induction false} SomeArePassed(logs: bool, q: Option<Position>, events: seq<Event>, from: nat)
    requires from <= |events| && forall k :: 0 <= k < from ==> Passed(logs, q, events, k)
    ensures exists n: nat :: Passes(logs, q, events, n)
    decreases |events| - from
  {
    if from < |events| && Passed(logs, q, events, from) {
      SomeArePassed(logs, q, events, from + 1);
    } else {
      assert Passes(logs, q, events, from);
    }
  }

  /**
   Exactly when a call fails: its stream is closed or runs out, an event is malformed, or events
   were lost and it cannot make up for them, as a log follower never can and a snapshot
   subscriber can unless its fetch fails.
   */
  lemma FailsExactlyWhen(v: View, logs: bool, fetch: Result<Snapshot>)
    requires v.initial.None?
    ensures Call(v, logs, fetch).result.Err? <==>
            || v.stream.None?
            || exists n: nat :: Passes(logs, v.last, v.stream.value, n)
                                && (|| n == |v.stream.value|
                                    || !Sound(v.stream.value[n])
                                    || (!Continues(Reached(v.last, v.stream.value, n), v.stream.value[n])
                                        && (logs || fetch.Err?)))
  {
    if v.stream.Some? {
      var events := v.stream.value;
      SomeArePassed(logs, v.last, events, 0);
      forall n | Passes(logs, v.last, events, n)
        ensures Call(v, logs, fetch).result == Answer(v, logs, fetch, events, n)
      {
        NextMeaning(v, logs, fetch, events, n);
      }
      hide Next, Passes, Reached, Sound, Continues;
    }
  }

  /** The events follow one another in one instance, from the position on. */
  predicate InOrder(p: Position, events: seq<Event>, n: nat) {
    && n <= |events|
    && p.sequence + n <= U64_MAX
    && forall k :: 0 <= k < n ==>
                     Sound(events[k]) && events[k].instance == p.instance && events[k].sequence == p.sequence + 1 + k
  }

  lemma {:induction false} ReachedInOrder(p: Position, events: seq<Event>, n: nat)
    requires InOrder(p, events, n)
    ensures Reached(Some(p), events, n) == Some(Position(p.instance, p.sequence + n))
  {
    if n > 0 {
      ReachedInOrder(p, events, n - 1);
    }
  }

  /**
   While events follow one another, a call delivers the first one of the requested kind, without
   a fetch and whatever a fetch would answer: snapshot events never disturb a log follower,
   nor log events a snapshot subscriber.
   */
  lemma InOrderIsDelivered(v: View, logs: bool, fetch: Result<Snapshot>, n: nat)
    requires v.initial.None? && v.last.Some? && v.stream.Some?
    requires n < |v.stream.value| && InOrder(v.last.value, v.stream.value, n + 1)
    requires forall k :: 0 <= k < n ==> v.stream.value[k].payload.Log? != logs
    requires v.stream.value[n].payload.Log? == logs
    ensures var o := Call(v, logs, fetch);
            && o.result == Ok(v.stream.value[n]) && o.jump.None?
            && o.view == View(Some(v.stream.value[n + 1..]), Some(At(v.stream.value[n])), None)
  {
    var p, events := v.last.value, v.stream.value;
    forall k | 0 <= k <= n
      ensures Reached(v.last, events, k) == Some(Position(p.instance, p.sequence + k))
    {
      ReachedInOrder(p, events, k);
    }
    assert Passes(logs, v.last, events, n);
    NextMeaning(v, logs, fetch, events, n);
    NothingInitial(v, logs, fetch);
  }

  lemma {:induction false} NothingInitial(v: View, logs: bool, fetch: Result<Snapshot>)
    requires v.initial.None?
    ensures Next(v, logs, fetch).view.initial.None?
    decreases Left(v)
  {
    if v.stream.Some? && v.stream.value != [] {
      var e, w := v.stream.value[0], v.(stream := Some(v.stream.value[1..]));
      if !Malformed(e) {
        if Old(v.last, e) {
          NothingInitial(w, logs, fetch);
        } else if !Gap(v.last, e) && e.payload.Log? != logs {
          NothingInitial(w.(last := Some(At(e))), logs, fetch);
        }
      }
    }
  }

  /** A new subscription delivers its own snapshot first. */
  lemma SubscriptionStarts(s: Snapshot, wire: seq<Event>, fetch: Result<Snapshot>)
    requires s.instance != 0
    ensures var o := Call(Subscribed(s, wire), false, fetch);
            o.result == Ok(FromSnapshot(s)) && o.view == View(Some(wire), Some(At(FromSnapshot(s))), None)
  {
  }
}
