/**
 The replay ledger of browser completions (`claim_completion_at` in
 `crates/client/src/browser.rs`): a bounded file of cookie digests, each kept for a day.
 */
module ReplayLedger {
  import opened Common

  const WINDOW: nat := 86400
  const MAX_RECORDS: nat := 256
  const READ_LIMIT: nat := 65536

  type Digest = seq<nat>

  datatype Consumed = Consumed(digest: Digest, expires: nat)

  /** Thirty-two bytes and an unsigned 64-bit time. */
  predicate Stored(r: Consumed) {
    |r.digest| == 32 && r.expires <= U64_MAX && forall i :: 0 <= i < 32 ==> r.digest[i] < 256
  }

  predicate AllStored(records: seq<Consumed>) {
    forall i :: 0 <= i < |records| ==> Stored(records[i])
  }

  /** The ledger file: absent, a list of records in some number of bytes, or anything else. */
  datatype File = Missing | Records(records: seq<Consumed>, bytes: nat) | Other(bytes: nat)

  datatype Claim = Claim(digest: Digest, now: nat, write: FileWrite)

  predicate Timely(c: Claim) {
    c.now <= U64_MAX && Stored(Consumed(c.digest, 0))
  }

  function SaturatingAdd(a: nat, b: nat): nat {
    if a + b > U64_MAX then U64_MAX else a + b
  }

  // ---------------------------------------------------------------- serialised size

  function Joined(items: seq<string>): string {
    if items == [] then ""
    else items[0] + (if |items| == 1 then "" else "," + Joined(items[1..]))
  }

  function Decimals(digest: Digest): seq<string> {
    seq(|digest|, i requires 0 <= i < |digest| => Decimal(digest[i]))
  }

  function RecordJson(r: Consumed): string {
    "{\"digest\":[" + Joined(Decimals(r.digest)) + "],\"expires\":" + Decimal(r.expires) + "}"
  }

  function RecordJsons(records: seq<Consumed>): seq<string> {
    seq(|records|, i requires 0 <= i < |records| => RecordJson(records[i]))
  }

  function Json(records: seq<Consumed>): string {
    "[" + Joined(RecordJsons(records)) + "]"
  }

  lemma {:induction false} JoinedBound(items: seq<string>, width: nat)
    requires items != [] && forall i :: 0 <= i < |items| ==> |items[i]| <= width
    ensures |Joined(items)| <= |items| * (width + 1) - 1
  {
    if |items| > 1 {
      JoinedBound(items[1..], width);
      assert |items| * (width + 1) == (|items| - 1) * (width + 1) + (width + 1);
    }
  }

  lemma RecordBound(r: Consumed)
    requires Stored(r)
    ensures |RecordJson(r)| <= 171
  {
    hide Decimal, Joined;
    forall i | 0 <= i < 32
      ensures |Decimal(r.digest[i])| <= 3
    {
      assert PowerOfTen(1) == 10 && PowerOfTen(2) == 100 && PowerOfTen(3) == 1000;
      DecimalWidth(r.digest[i], 3);
    }
    JoinedBound(Decimals(r.digest), 3);
    TwentyDigits();
    DecimalWidth(r.expires, 20);
    var (head, tail) := ("{\"digest\":[", "],\"expires\":");
    assert |head| == 11 && |tail| == 12;
    assert RecordJson(r) == head + Joined(Decimals(r.digest)) + tail + Decimal(r.expires) + "}";
  }

  lemma TwentyDigits()
    ensures U64_MAX < PowerOfTen(20)
  {
    assert PowerOfTen(4) == 10_000;
    assert PowerOfTen(8) == 100_000_000;
    assert PowerOfTen(12) == 1_000_000_000_000;
    assert PowerOfTen(16) == 10_000_000_000_000_000;
  }

  /** The largest ledger stays far below the limit of the next read. */
  lemma LedgerBound(records: seq<Consumed>)
    requires AllStored(records) && |records| <= MAX_RECORDS
    ensures |Json(records)| <= 44033 < READ_LIMIT
  {
    var items := RecordJsons(records);
    forall i | 0 <= i < |items|
      ensures |items[i]| <= 171
    {
      RecordBound(records[i]);
    }
    if items != [] {
      JoinedBound(items, 171);
    }
  }

  // ---------------------------------------------------------------- one claim

  function Live(records: seq<Consumed>, now: nat): (live: seq<Consumed>)
    ensures |live| <= |records|
    ensures forall r :: r in live <==> r in records && r.expires > now
  {
    if records == [] then []
    else
      var rest := Live(records[..|records| - 1], now);
      var r := records[|records| - 1];
      assert records == records[..|records| - 1] + [r];
      if r.expires > now then rest + [r] else rest
  }

  predicate Replayed(records: seq<Consumed>, digest: Digest, now: nat) {
    exists r :: r in records && r.expires > now && r.digest == digest
  }

  function Load(file: File): Result<seq<Consumed>> {
    match file
    case Missing => Ok([])
    case Records(records, bytes) => if bytes > READ_LIMIT then Err(CorruptStorage) else Ok(records)
    case Other(_) => Err(CorruptStorage)
  }

  function Written(records: seq<Consumed>): File {
    Records(records, |Json(records)|)
  }

  /** The file and the answer after a claim. */
  function Claimed(file: File, c: Claim): (File, Result<()>) {
    match Load(file)
    case Err(e) => (file, Err(e))
    case Ok(records) =>
      if Replayed(records, c.digest, c.now) then (file, Err(AuthenticationRejected))
      else if |Live(records, c.now)| >= MAX_RECORDS then (file, Err(Busy))
      else
        var file' := Written(Live(records, c.now) + [Consumed(c.digest, SaturatingAdd(c.now, WINDOW))]);
        match c.write
        case FileWritten => (file', Ok(()))
        case FileFails(code, effect) => (if effect then file' else file, Err(code))
  }

  /** The records a claim finds; None is a ledger that must not be trusted. */
  function Found(file: File): Option<seq<Consumed>> {
    match file
    case Missing => Some([])
    case Records(records, bytes) => if bytes <= 65536 then Some(records) else None
    case Other(_) => None
  }

  /** The records that still guard their digest. */
  function Guards(records: seq<Consumed>, now: nat): (s: set<nat>)
    ensures forall i: nat :: i in s <==> i < |records| && now < records[i].expires
  {
    set i: nat | 0 <= i < |records| && now < records[i].expires
  }

  lemma {:induction false} LiveIsGuards(records: seq<Consumed>, now: nat)
    ensures |Live(records, now)| == |Guards(records, now)|
  {
    if records == [] {
      assert Guards(records, now) == {};
    } else {
      var n := |records| - 1;
      var init := records[..n];
      LiveIsGuards(init, now);
      GuardsLast(records, now);
      hide Guards;
    }
  }

  lemma GuardsLast(records: seq<Consumed>, now: nat)
    requires records != []
    ensures var n := |records| - 1;
            n !in Guards(records[..n], now)
            && Guards(records, now) == Guards(records[..n], now) + (if records[n].expires > now then {n} else {})
  {
    var n := |records| - 1;
    assert forall i :: 0 <= i < n ==> records[..n][i] == records[i];
  }

  predicate Taken(records: seq<Consumed>, digest: Digest, now: nat) {
    exists i :: i in Guards(records, now) && records[i].digest == digest
  }

  lemma GuardedIsReplayed(records: seq<Consumed>, digest: Digest, now: nat)
    ensures Taken(records, digest, now) <==> Replayed(records, digest, now)
  {
    if r :| r in records && r.expires > now && r.digest == digest {
      var i :| 0 <= i < |records| && records[i] == r;
      assert i in Guards(records, now);
    }
  }

  /**
   Exactly when a claim is accepted: the ledger can be trusted, no record guards the digest, there
   is room beside those that guard others, and the write succeeds; each refusal has its code.
   */
  lemma ClaimAcceptedExactlyWhen(file: File, c: Claim)
    ensures var r := Claimed(file, c).1;
            match Found(file)
            case None => r == Err(CorruptStorage)
            case Some(records) =>
              if Taken(records, c.digest, c.now) then r == Err(AuthenticationRejected)
              else if |Guards(records, c.now)| >= 256 then r == Err(Busy)
              else if c.write.FileFails? then r == Err(c.write.code)
              else r == Ok(())
  {
    match Found(file)
    case None =>
    case Some(records) =>
      LiveIsGuards(records, c.now);
      GuardedIsReplayed(records, c.digest, c.now);
      hide Live, Guards, Json, Replayed, Taken;
  }

  /** The claim reaches the file: it is accepted, or its failing write takes effect. */
  predicate Lands(file: File, c: Claim) {
    && Found(file).Some? && !Taken(Found(file).value, c.digest, c.now) && |Guards(Found(file).value, c.now)| < 256
    && (c.write.FileWritten? || c.write.effect)
  }

  function DayAfter(now: nat): nat {
    if now + 86400 <= 0xFFFF_FFFF_FFFF_FFFF then now + 86400 else 0xFFFF_FFFF_FFFF_FFFF
  }

  /** What a claim leaves: a guard for a day behind all that still guard others, or the file as it was. */
  lemma ClaimLeavesGuard(file: File, c: Claim)
    ensures var file' := Claimed(file, c).0;
            if Lands(file, c) then
              && file'.Records? && file'.records != []
              && var n := |file'.records| - 1;
              && n == |Guards(Found(file).value, c.now)|
              && file'.records[n] == Consumed(c.digest, DayAfter(c.now))
              && forall e :: e in file'.records[..n] <==> e in Found(file).value && c.now < e.expires
            else file' == file
  {
    if Found(file).Some? {
      var records := Found(file).value;
      LiveIsGuards(records, c.now);
      GuardedIsReplayed(records, c.digest, c.now);
      hide Live, Guards, Json, Replayed, Taken;
      var live := Live(records, c.now);
      assert (live + [Consumed(c.digest, SaturatingAdd(c.now, WINDOW))])[..|live|] == live;
    }
  }

  lemma LiveNext(records: seq<Consumed>, i: nat, now: nat)
    requires i < |records|
    ensures Live(records[..i + 1], now)
         == Live(records[..i], now) + (if records[i].expires > now then [records[i]] else [])
  {
    var longer := records[..i + 1];
    assert longer[..i] == records[..i] && longer[i] == records[i];
  }

  /** Drops expired records, keeping the order of the rest. */
  method Retain(records: seq<Consumed>, now: nat) returns (kept: seq<Consumed>)
    ensures kept == Live(records, now)
  {
    kept := [];
    var i := 0;
    while i < |records|
      invariant 0 <= i <= |records|
      invariant kept == Live(records[..i], now)
    {
      hide Live;
      LiveNext(records, i, now);
      if records[i].expires > now {
        kept := kept + [records[i]];
      }
      i := i + 1;
    }
    assert records[..i] == records;
  }

  class Ledger {
    var file: File

    constructor (contents: File)
      ensures file == contents
    {
      file := contents;
    }

    method ClaimCompletion(c: Claim) returns (r: Result<()>)
      modifies this
      ensures (file, r) == Claimed(old(file), c)
    {
      hide Json, Live, AllStored;
      var records: seq<Consumed> := [];
      match file {
        case Missing =>
        case Records(found, bytes) =>
          if bytes > READ_LIMIT {
            return Err(CorruptStorage);
          }
          records := found;
        case Other(_) =>
          return Err(CorruptStorage);
      }
      ghost var loaded := records;
      records := Retain(records, c.now);
      var i := 0;
      while i < |records|
        invariant 0 <= i <= |records|
        invariant forall k :: 0 <= k < i ==> records[k].digest != c.digest
      {
        if records[i].digest == c.digest {
          assert records[i] in Live(loaded, c.now);
          return Err(AuthenticationRejected);
        }
        i := i + 1;
      }
      assert !Replayed(loaded, c.digest, c.now);
      if |records| >= MAX_RECORDS {
        return Err(Busy);
      }
      records := records + [Consumed(c.digest, SaturatingAdd(c.now, WINDOW))];
      match c.write {
        case FileWritten =>
          file := Written(records);
          return Ok(());
        case FileFails(code, effect) =>
          if effect {
            file := Written(records);
          }
          return Err(code);
      }
    }
  }

  // ---------------------------------------------------------------- runs of claims by any number of processes

  function FileAfter(file: File, claims: seq<Claim>): File {
    if claims == [] then file
    else Claimed(FileAfter(file, claims[..|claims| - 1]), claims[|claims| - 1]).0
  }

  function Answer(file: File, claims: seq<Claim>, i: nat): Result<()>
    requires i < |claims|
  {
    Claimed(FileAfter(file, claims[..i]), claims[i]).1
  }

  predicate ClockRuns(claims: seq<Claim>) {
    forall i, j :: 0 <= i < j < |claims| ==> claims[i].now <= claims[j].now
  }

  /** The file holds a record of the digest that lasts until `until`. */
  predicate Guarded(file: File, digest: Digest, until: nat) {
    file.Records? && exists r :: r in file.records && r.digest == digest && r.expires >= until
  }

  /** An accepted claim leaves its own guard. */
  lemma GuardSet(file: File, c: Claim)
    requires Claimed(file, c).1.Ok?
    ensures Guarded(Claimed(file, c).0, c.digest, SaturatingAdd(c.now, WINDOW))
  {
    hide Json;
    var records := Live(Load(file).value, c.now) + [Consumed(c.digest, SaturatingAdd(c.now, WINDOW))];
    assert records[|records| - 1] in records;
  }

  /** Before its time is over no claim removes a guard, and none of the same cookie passes it. */
  lemma GuardHolds(file: File, c: Claim, digest: Digest, until: nat)
    requires Guarded(file, digest, until) && c.now < until
    ensures Guarded(Claimed(file, c).0, digest, until)
    ensures c.digest == digest ==> Claimed(file, c).1.Err?
  {
    hide Json;
    var r :| r in file.records && r.digest == digest && r.expires >= until;
    if Load(file).Ok? {
      assert r in Live(file.records, c.now);
      assert r in Live(file.records, c.now) + [Consumed(c.digest, SaturatingAdd(c.now, WINDOW))];
    }
  }

  lemma {:induction false} GuardLasts(file: File, claims: seq<Claim>, i: nat, j: nat)
    requires i < j <= |claims| && ClockRuns(claims) && Answer(file, claims, i).Ok?
    requires j == i + 1 || claims[j - 1].now < SaturatingAdd(claims[i].now, WINDOW)
    ensures Guarded(FileAfter(file, claims[..j]), claims[i].digest, SaturatingAdd(claims[i].now, WINDOW))
    decreases j
  {
    hide Claimed, Guarded;
    assert claims[..j][..j - 1] == claims[..j - 1];
    var before := FileAfter(file, claims[..j - 1]);
    assert FileAfter(file, claims[..j]) == Claimed(before, claims[j - 1]).0;
    if j == i + 1 {
      GuardSet(before, claims[i]);
    } else {
      GuardLasts(file, claims, i, j - 1);
      GuardHolds(before, claims[j - 1], claims[i].digest, SaturatingAdd(claims[i].now, WINDOW));
    }
  }

  /**
   A cookie accepted once is not accepted again for a day, whoever asks and whatever
   writes fail in between; at the end of the clock's range it is refused until then.
   */
  lemma ReplayWindow(file: File, claims: seq<Claim>, i: nat, j: nat)
    requires i < j < |claims| && ClockRuns(claims)
    requires claims[i].digest == claims[j].digest
    requires Answer(file, claims, i).Ok? && Answer(file, claims, j).Ok?
    ensures claims[j].now >= SaturatingAdd(claims[i].now, WINDOW)
    ensures claims[i].now + WINDOW <= U64_MAX ==> claims[j].now >= claims[i].now + WINDOW
  {
    hide Claimed, Guarded;
    if claims[j].now < SaturatingAdd(claims[i].now, WINDOW) {
      GuardLasts(file, claims, i, j);
      GuardHolds(FileAfter(file, claims[..j]), claims[j], claims[i].digest, SaturatingAdd(claims[i].now, WINDOW));
    }
  }

  /** A ledger the code can have written, or none. */
  predicate Own(file: File) {
    file.Missing?
    || (file.Records? && AllStored(file.records) && |file.records| <= MAX_RECORDS && file.bytes == |Json(file.records)|)
  }

  lemma ClaimKeepsOwn(file: File, c: Claim)
    requires Own(file) && Timely(c)
    ensures Own(Claimed(file, c).0)
  {
    hide Json;
    if file.Records? {
      var live := Live(file.records, c.now);
      forall k | 0 <= k < |live|
        ensures Stored(live[k])
      {
        assert live[k] in live;
      }
    }
  }

  /** No run of claims writes a ledger that a later claim could refuse to read. */
  lemma {:induction false} LedgerStaysReadable(file: File, claims: seq<Claim>)
    requires Own(file) && forall i :: 0 <= i < |claims| ==> Timely(claims[i])
    ensures Own(FileAfter(file, claims))
    ensures Load(FileAfter(file, claims)).Ok?
    ensures FileAfter(file, claims).Records? ==> FileAfter(file, claims).bytes <= 44033
  {
    hide Claimed, Json;
    if claims != [] {
      LedgerStaysReadable(file, claims[..|claims| - 1]);
      ClaimKeepsOwn(FileAfter(file, claims[..|claims| - 1]), claims[|claims| - 1]);
    }
    var after := FileAfter(file, claims);
    if after.Records? {
      LedgerBound(after.records);
    }
  }

  /** After an accepted claim `c`, no later one of the same cookie is accepted within a full day. */
  ghost predicate FullWindow(file: File, c: Claim) {
    forall d: Claim :: d.digest == c.digest && c.now <= d.now && Timely(d) && Answer(file, [c, d], 1).Ok? ==>
                         d.now >= c.now + WINDOW
  }

  /**
   The full day is kept exactly when it ends before the clock does. Otherwise the guard
   expires with the clock's last second, and a claim made then is accepted too early.
   */
  lemma WindowIsFullExactlyWhen(file: File, c: Claim)
    requires Own(file) && Timely(c) && Answer(file, [c], 0).Ok?
    ensures FullWindow(file, c) <==> c.now + WINDOW <= U64_MAX
  {
    hide Claimed, Own;
    FirstOfTwo(file, c);
    if c.now + WINDOW <= U64_MAX {
      forall d: Claim | d.digest == c.digest && c.now <= d.now && Timely(d) && Answer(file, [c, d], 1).Ok?
        ensures d.now >= c.now + WINDOW
      {
        assert [c, d][..0] == [c][..0];
        ReplayWindow(file, [c, d], 0, 1);
      }
    } else {
      var late := Claim(c.digest, U64_MAX, FileWritten);
      ClaimKeepsOwn(file, c);
      LastSecondAccepts(Claimed(file, c).0, late);
      SecondOfTwo(file, c, late);
      assert !(late.now >= c.now + WINDOW);
    }
  }

  lemma FirstOfTwo(file: File, c: Claim)
    ensures Answer(file, [c], 0) == Claimed(file, c).1
  {
    hide Claimed;
    assert [c][..0] == [];
  }

  lemma SecondOfTwo(file: File, c: Claim, d: Claim)
    ensures Answer(file, [c, d], 1) == Claimed(Claimed(file, c).0, d).1
  {
    hide Claimed;
    assert [c, d][..1] == [c] && [c][..0] == [];
    assert FileAfter(file, []) == file;
    assert FileAfter(file, [c]) == Claimed(file, c).0;
  }

  lemma {:induction false} NoneLive(records: seq<Consumed>, now: nat)
    requires forall r :: r in records ==> r.expires <= now
    ensures Live(records, now) == []
  {
    if records != [] {
      NoneLive(records[..|records| - 1], now);
    }
  }

  lemma LastSecondAccepts(file: File, c: Claim)
    requires Own(file) && Timely(c) && c.now == U64_MAX && c.write.FileWritten?
    ensures Claimed(file, c).1.Ok?
  {
    hide Json, Written;
    if file.Records? {
      LedgerBound(file.records);
      assert forall r :: r in file.records ==> Stored(r) && r.expires <= c.now;
      NoneLive(file.records, c.now);
    } else {
      assert Live([], c.now) == [];
    }
  }
}
