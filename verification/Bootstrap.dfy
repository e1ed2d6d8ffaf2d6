/**
 The one-shot loopback listener (`serve` and `respond` in
 `crates/client/src/browser_bootstrap.rs`): header reading, header checks, and at most one
 answered GET.
 */
module Bootstrap {
  import opened Common

  const HEADER_LIMIT: nat := 16 * 1024

  // ---------------------------------------------------------------- where the header ends

  datatype HeaderEnd = Found(at: nat) | TooLarge | Closed

  predicate Blank(bytes: seq<Byte>, p: nat) {
    p + 4 <= |bytes| && bytes[p] == 13 && bytes[p + 1] == 10 && bytes[p + 2] == 13 && bytes[p + 3] == 10
  }

  function FirstBlank(bytes: seq<Byte>, from: nat): (p: Option<nat>)
    ensures p.Some? ==>
              && from <= p.value && Blank(bytes, p.value)
              && forall q: nat :: from <= q < p.value ==> !Blank(bytes, q)
    ensures p.None? ==> forall q: nat :: from <= q ==> !Blank(bytes, q)
    decreases |bytes| - from
  {
    if from + 4 > |bytes| then None
    else if Blank(bytes, from) then Some(from)
    else FirstBlank(bytes, from + 1)
  }

  /**
   The decision on everything a peer sends: a blank line that ends within the limit is
   found; otherwise the request is too large if it fills the limit, and closed if it does not.
   */
  function Decision(stream: seq<Byte>): HeaderEnd {
    var kept := stream[..if |stream| < HEADER_LIMIT then |stream| else HEADER_LIMIT];
    match FirstBlank(kept, 0)
    case Some(p) => Found(p)
    case None => if |stream| >= HEADER_LIMIT then TooLarge else Closed
  }

  lemma BlankInPrefix(stream: seq<Byte>, n: nat)
    requires n <= |stream|
    ensures forall p: nat :: Blank(stream[..n], p) <==> Blank(stream, p) && p + 4 <= n
  {
  }

  /** A blank line ending exactly at the limit still counts, one byte later it does not. */
  lemma LimitIsInclusive(stream: seq<Byte>, p: nat)
    requires Blank(stream, p) && forall q: nat :: q < p ==> !Blank(stream, q)
    ensures Decision(stream) == if p + 4 <= HEADER_LIMIT then Found(p) else TooLarge
  {
    hide Blank;
    var kept := if |stream| < HEADER_LIMIT then |stream| else HEADER_LIMIT;
    BlankInPrefix(stream, kept);
    BlankEnds(stream, p);
    if p + 4 <= kept {
      assert Blank(stream[..kept], p);
    }
  }

  lemma BlankEnds(stream: seq<Byte>, p: nat)
    requires Blank(stream, p)
    ensures p + 4 <= |stream|
  {
  }

  /** One read: the bytes go behind those already there. */
  method ReadInto(buffer: array<Byte>, used: nat, data: seq<Byte>)
    requires used + |data| <= buffer.Length
    modifies buffer
    ensures buffer[..used + |data|] == old(buffer[..used]) + data
  {
    forall i | 0 <= i < |data| {
      buffer[used + i] := data[i];
    }
  }

  /**
   The read loop. `splits` says how much each read delivers, within what is left and what
   fits; whatever it says, the answer is the decision on the stream.
   */
  method ReadHeader(stream: seq<Byte>, splits: seq<nat>) returns (end: HeaderEnd, header: seq<Byte>)
    ensures end == Decision(stream)
    ensures end.Found? ==> end.at <= |stream| && header == stream[..end.at]
  {
    hide Blank, FirstBlank;
    var buffer := new Byte[HEADER_LIMIT](_ => 0);
    var used, turn := 0, 0;
    BlankInPrefix(stream, 0);
    assert forall q: nat :: !Blank(stream[..0], q);
    while used != HEADER_LIMIT
      invariant 0 <= used <= HEADER_LIMIT && used <= |stream|
      invariant buffer[..used] == stream[..used]
      invariant forall q: nat :: !Blank(stream[..used], q)
      decreases HEADER_LIMIT - used
    {
      var available := if |stream| < HEADER_LIMIT then |stream| - used else HEADER_LIMIT - used;
      if available == 0 {
        assert stream[..used] == stream;
        return Closed, [];
      }
      var count := if turn < |splits| && 0 < splits[turn] <= available then splits[turn] else available;
      turn := turn + 1;
      ReadInto(buffer, used, stream[used..used + count]);
      used := used + count;
      var received := buffer[..used];
      assert received == stream[..used];
      var position := FirstBlank(received, 0);
      if position.Some? {
        BlankEnds(received, position.value);
        FoundEarly(stream, used, position.value);
        assert received[..position.value] == stream[..position.value];
        return Found(position.value), received[..position.value];
      }
    }
    return TooLarge, [];
  }

  lemma FoundEarly(stream: seq<Byte>, used: nat, p: nat)
    requires used <= |stream| && used <= HEADER_LIMIT
    requires Blank(stream[..used], p) && forall q: nat :: q < p ==> !Blank(stream[..used], q)
    ensures Decision(stream) == Found(p)
  {
    hide Blank;
    BlankInPrefix(stream, used);
    BlankEnds(stream[..used], p);
    LimitIsInclusive(stream, p);
  }

  // ---------------------------------------------------------------- header lines

  /** Text between separators, as `split` gives it. */
  function Split(text: string, separator: string): (parts: seq<string>)
    requires separator != ""
    ensures parts != []
    decreases |text|
  {
    var at := Index(text, separator, 0);
    if at.None? then [text]
    else [text[..at.value]] + Split(text[at.value + |separator|..], separator)
  }

  function Index(text: string, piece: string, from: nat): (i: Option<nat>)
    requires piece != ""
    ensures i.Some? ==> from <= i.value && i.value + |piece| <= |text| && text[i.value..i.value + |piece|] == piece
    decreases |text| - from
  {
    if from + |piece| > |text| then None
    else if text[from..from + |piece|] == piece then Some(from)
    else Index(text, piece, from + 1)
  }

  /** A field-name byte, section 5.6.2 of RFC 9110. */
  predicate TokenChar(c: char) {
    'a' <= c <= 'z' || 'A' <= c <= 'Z' || '0' <= c <= '9' || c in "!#$%&'*+-.^_`|~"
  }

  predicate ValueChar(c: char) {
    (c as int >= 32 || c == '\t') && c as int != 127
  }

  function TrimBoth(s: string, blank: char -> bool): string
    decreases |s|
  {
    if s == "" then s
    else if blank(s[0]) then TrimBoth(s[1..], blank)
    else if blank(s[|s| - 1]) then TrimBoth(s[..|s| - 1], blank)
    else s
  }

  predicate SpaceOrTab(c: char) {
    c == ' ' || c == '\t'
  }

  datatype Field = Field(name: string, value: string)

  function AsField(line: string): Option<Field> {
    match Index(line, ":", 0)
    case None => None
    case Some(at) => Some(Field(line[..at], line[at + 1..]))
  }

  predicate WellFormed(f: Field) {
    && f.name != "" && (forall i :: 0 <= i < |f.name| ==> TokenChar(f.name[i]))
    && (forall i :: 0 <= i < |f.value| ==> ValueChar(f.value[i]))
  }

  predicate IsHost(f: Field) {
    EqualsIgnoringCase(f.name, "host")
  }

  /** No body, upgrade or transfer coding is allowed. */
  predicate Forbidden(f: Field) {
    || EqualsIgnoringCase(f.name, "transfer-encoding")
    || EqualsIgnoringCase(f.name, "upgrade")
    || (EqualsIgnoringCase(f.name, "content-length") && TrimBoth(f.value, WhiteSpace) != "0")
  }

  predicate LineOk(line: string) {
    AsField(line).Some? && WellFormed(AsField(line).value) && !Forbidden(AsField(line).value)
  }

  /** The values of the Host fields, in order. */
  function Hosts(lines: seq<string>): seq<string> {
    if lines == [] then []
    else
      var f := AsField(lines[|lines| - 1]);
      Hosts(lines[..|lines| - 1])
      + (if f.Some? && IsHost(f.value) then [TrimBoth(f.value.value, SpaceOrTab)] else [])
  }

  /** What the checks on the fields are for: every line a well-formed harmless field, and one Host, the expected one. */
  predicate FieldsOk(lines: seq<string>, authority: string) {
    (forall i :: 0 <= i < |lines| ==> LineOk(lines[i])) && Hosts(lines) == [authority]
  }

  lemma {:induction false} HostsGrow(lines: seq<string>, k: nat)
    requires k <= |lines|
    ensures |Hosts(lines[..k])| <= |Hosts(lines)|
  {
    if k < |lines| {
      assert lines[..|lines| - 1][..k] == lines[..k];
      HostsGrow(lines[..|lines| - 1], k);
    } else {
      assert lines[..k] == lines;
    }
  }

  /** The loop over the lines, with its flag and its last Host. */
  method CheckFields(lines: seq<string>, authority: string) returns (ok: bool)
    ensures ok == FieldsOk(lines, authority)
  {
    hide Forbidden, EqualsIgnoringCase, TrimBoth, WellFormed, AsField;
    var valid := true;
    var host: Option<string> := None;
    var k := 0;
    while k < |lines|
      invariant 0 <= k <= |lines|
      invariant host == if Hosts(lines[..k]) == [] then None else Some(Hosts(lines[..k])[|Hosts(lines[..k])| - 1])
      invariant valid <==> (forall i :: 0 <= i < k ==> LineOk(lines[i])) && |Hosts(lines[..k])| <= 1
    {
      assert lines[..k + 1][..k] == lines[..k];
      HostsGrow(lines, k);
      HostsGrow(lines, k + 1);
      var field := AsField(lines[k]);
      if field.None? || !WellFormed(field.value) {
        assert !LineOk(lines[k]);
        return false;
      }
      if IsHost(field.value) {
        if host.Some? {
          valid := false;
        }
        host := Some(TrimBoth(field.value.value, SpaceOrTab));
      }
      if Forbidden(field.value) {
        valid := false;
      }
      k := k + 1;
    }
    assert lines[..k] == lines;
    return valid && host == Some(authority);
  }

  // ---------------------------------------------------------------- one request

  datatype Verdict = Silence | Reject(status: nat) | AnswerGet | AnswerHead

  /** The `k`-th part of a request line, empty when it is missing. */
  function Part(parts: seq<string>, k: nat): string {
    if k < |parts| then parts[k] else ""
  }

  predicate RequestOk(lines: seq<string>, authority: string)
    requires lines != []
  {
    var parts := Split(lines[0], " ");
    Part(parts, 2) == "HTTP/1.1" && |parts| <= 3 && FieldsOk(lines[1..], authority)
  }

  /** The answer to a header; None is a header that is not UTF-8. */
  function Judge(header: Option<string>, authority: string, path: string): Verdict {
    if header.None? then Reject(400)
    else
      var lines := Split(header.value, "\r\n");
      var parts := Split(lines[0], " ");
      if !RequestOk(lines, authority) then Reject(400)
      else if Part(parts, 1) != path then Reject(404)
      else if Part(parts, 0) == "GET" then AnswerGet
      else if Part(parts, 0) == "HEAD" then AnswerHead
      else Reject(405)
  }

  predicate NoSpace(s: string) {
    forall i :: 0 <= i < |s| ==> s[i] != ' '
  }

  lemma {:induction false} IndexOfChar(a: string, c: char, b: string, from: nat)
    requires c !in a && from <= |a|
    ensures Index(a + [c] + b, [c], from) == Some(|a|)
    ensures Index(a, [c], from) == None
    decreases |a| - from
  {
    var text := a + [c] + b;
    assert text[from..from + 1] == [text[from]];
    if from < |a| {
      assert text[from] == a[from] && a[from..from + 1] == [a[from]];
      IndexOfChar(a, c, b, from + 1);
    }
  }

  lemma SplitAtSpace(a: string, b: string)
    requires NoSpace(a)
    ensures Split(a + " " + b, " ") == [a] + Split(b, " ")
    ensures Split(a, " ") == [a]
  {
    assert " " == [' '];
    IndexOfChar(a, ' ', b, 0);
    assert (a + " " + b)[..|a|] == a && (a + " " + b)[|a| + 1..] == b;
  }

  function Rejoin(parts: seq<string>, separator: string): string
    requires parts != []
  {
    if |parts| == 1 then parts[0] else parts[0] + separator + Rejoin(parts[1..], separator)
  }

  lemma {:induction false} RejoinSplit(text: string, separator: string)
    requires separator != ""
    ensures Rejoin(Split(text, separator), separator) == text
    decreases |text|
  {
    var at := Index(text, separator, 0);
    if at.Some? {
      var rest := text[at.value + |separator|..];
      RejoinSplit(rest, separator);
      assert text == text[..at.value] + separator + rest;
    }
  }

  function RequestLine(verb: string, path: string): string {
    verb + " " + path + " HTTP/1.1"
  }

  lemma RequestLineParts(line: string, verb: string, path: string)
    requires NoSpace(path) && NoSpace(verb)
    ensures Split(line, " ") == [verb, path, "HTTP/1.1"] <==> line == RequestLine(verb, path)
  {
    hide Split, Rejoin, NoSpace;
    var version := "HTTP/1.1";
    assert NoSpace(version) by { VersionHasNoSpace(); }
    SplitAtSpace(version, "");
    SplitAtSpace(path, version);
    SplitAtSpace(verb, path + " " + version);
    assert verb + " " + (path + " " + version) == RequestLine(verb, path);
    RejoinSplit(line, " ");
    RejoinThree(verb, path, version);
    assert [verb] + ([path] + [version]) == [verb, path, version];
  }

  lemma VersionHasNoSpace()
    ensures NoSpace("HTTP/1.1")
  {
  }

  lemma RejoinThree(a: string, b: string, c: string)
    ensures Rejoin([a, b, c], " ") == a + " " + (b + " " + c)
  {
    assert Rejoin([c], " ") == c;
    assert [b, c][1..] == [c];
    assert Rejoin([b, c], " ") == b + " " + c;
    assert [a, b, c][1..] == [b, c];
  }

  /** A GET is answered for exactly one request line, and only with the right fields; likewise a HEAD. */
  lemma JudgeMeaning(header: string, authority: string, path: string)
    requires NoSpace(path)
    ensures var lines := Split(header, "\r\n");
            && (Judge(Some(header), authority, path) == AnswerGet
                <==> lines[0] == RequestLine("GET", path) && FieldsOk(lines[1..], authority))
            && (Judge(Some(header), authority, path) == AnswerHead
                <==> lines[0] == RequestLine("HEAD", path) && FieldsOk(lines[1..], authority))
  {
    hide Split, FieldsOk, RequestLine;
    var lines := Split(header, "\r\n");
    RequestLineParts(lines[0], "GET", path);
    RequestLineParts(lines[0], "HEAD", path);
    var parts := Split(lines[0], " ");
    if |parts| == 3 {
      assert parts == [parts[0], parts[1], parts[2]];
    }
  }

  // ---------------------------------------------------------------- the listener

  /** How writing a response ends. */
  datatype WriteEnd = Sent | Failed | TimedOut

  /**
   One connection: where it comes from, what its peer sends and in which pieces, whether
   its time is up before a response begins, and how writing the response ends.
   */
  datatype Peer = Peer(loopback: bool, stream: seq<Byte>, splits: seq<nat>, stalls: bool, write: WriteEnd)

  datatype Next = Continue | Stop(result: Result<()>)

  type Utf8 = seq<Byte> -> Option<string>

  function PeerVerdict(p: Peer, authority: string, path: string, utf8: Utf8): Verdict {
    if !p.loopback || p.stalls then Silence
    else
      match Decision(p.stream)
      case Closed => Silence
      case TooLarge => Reject(431)
      case Found(at) => if at <= |p.stream| then Judge(utf8(p.stream[..at]), authority, path) else Silence
  }

  /** Only a GET consumes the listener, and a failed write ends it. */
  function NextAfter(verdict: Verdict, write: WriteEnd): Next {
    match verdict
    case AnswerGet => Stop(if write.Sent? then Ok(()) else Err(RuntimeFailure))
    case AnswerHead => if write.Failed? then Stop(Err(RuntimeFailure)) else Continue
    case _ => Continue
  }

  /** The verdicts on the accepted connections, and how the listener ended; None while it waits for more. */
  function Served(peers: seq<Peer>, authority: string, path: string, utf8: Utf8): (seq<Verdict>, Option<Result<()>>) {
    if peers == [] then ([], None)
    else
      var verdict := PeerVerdict(peers[0], authority, path, utf8);
      match NextAfter(verdict, peers[0].write)
      case Stop(result) => ([verdict], Some(result))
      case Continue =>
        var rest := Served(peers[1..], authority, path, utf8);
        ([verdict] + rest.0, rest.1)
  }

  method Respond(p: Peer, authority: string, path: string, utf8: Utf8) returns (verdict: Verdict)
    ensures verdict == PeerVerdict(p, authority, path, utf8)
  {
    hide Split, FieldsOk;
    if !p.loopback || p.stalls {
      return Silence;
    }
    var end, header := ReadHeader(p.stream, p.splits);
    if end.TooLarge? {
      return Reject(431);
    }
    if end.Closed? {
      return Silence;
    }
    var text := utf8(header);
    if text.None? {
      return Reject(400);
    }
    var lines := Split(text.value, "\r\n");
    var parts := Split(lines[0], " ");
    var valid := Part(parts, 2) == "HTTP/1.1" && |parts| <= 3;
    var fields := CheckFields(lines[1..], authority);
    if !valid || !fields {
      return Reject(400);
    }
    if Part(parts, 1) != path {
      return Reject(404);
    }
    if Part(parts, 0) != "GET" && Part(parts, 0) != "HEAD" {
      return Reject(405);
    }
    return if Part(parts, 0) == "GET" then AnswerGet else AnswerHead;
  }

  /** The accept loop; when no further connection comes its total time runs out. */
  method Serve(peers: seq<Peer>, authority: string, path: string, utf8: Utf8) returns (verdicts: seq<Verdict>,
                                                                                       r: Result<()>)
    ensures var s := Served(peers, authority, path, utf8);
            verdicts == s.0 && r == if s.1.Some? then s.1.value else Err(AuthenticationRequired)
  {
    hide PeerVerdict, Served;
    verdicts := [];
    var k := 0;
    assert peers[0..] == peers;
    while k < |peers|
      invariant 0 <= k <= |peers|
      invariant var whole, rest := Served(peers, authority, path, utf8), Served(peers[k..], authority, path, utf8);
                whole.0 == verdicts + rest.0 && whole.1 == rest.1
    {
      ServedNext(peers, k, authority, path, utf8);
      var verdict := Respond(peers[k], authority, path, utf8);
      verdicts := verdicts + [verdict];
      if verdict.AnswerGet? {
        return verdicts, if peers[k].write.Sent? then Ok(()) else Err(RuntimeFailure);
      }
      if verdict.AnswerHead? && peers[k].write.Failed? {
        return verdicts, Err(RuntimeFailure);
      }
      k := k + 1;
    }
    ServedNext(peers, k, authority, path, utf8);
    return verdicts, Err(AuthenticationRequired);
  }

  lemma ServedNext(peers: seq<Peer>, k: nat, authority: string, path: string, utf8: Utf8)
    requires k <= |peers|
    ensures Served(peers[k..], authority, path, utf8) ==
            if k == |peers| then ([], None)
            else
              var verdict := PeerVerdict(peers[k], authority, path, utf8);
              match NextAfter(verdict, peers[k].write)
              case Stop(result) => ([verdict], Some(result))
              case Continue =>
                var rest := Served(peers[k + 1..], authority, path, utf8);
                ([verdict] + rest.0, rest.1)
  {
    hide PeerVerdict;
    if k < |peers| {
      assert peers[k..][0] == peers[k] && peers[k..][1..] == peers[k + 1..];
    }
  }

  /** At most one GET is ever answered, the listener accepts nothing after it, and only then it ends well. */
  lemma {:induction false} AtMostOneGet(peers: seq<Peer>, authority: string, path: string, utf8: Utf8)
    ensures var (verdicts, end) := Served(peers, authority, path, utf8);
            && |verdicts| <= |peers|
            && (forall k :: 0 <= k < |verdicts| ==> verdicts[k] == PeerVerdict(peers[k], authority, path, utf8))
            && (forall k :: 0 <= k < |verdicts| && verdicts[k].AnswerGet? ==> k == |verdicts| - 1 && end.Some?)
            && (end == Some(Ok(())) <==>
                verdicts != [] && verdicts[|verdicts| - 1].AnswerGet? && peers[|verdicts| - 1].write.Sent?)
  {
    hide PeerVerdict;
    if peers != [] {
      AtMostOneGet(peers[1..], authority, path, utf8);
    }
  }

  /**
   What ends the listener before a later GET: an answered GET, or an acceptable HEAD whose response
   cannot be written.
   */
  predicate Ends(p: Peer, authority: string, path: string, utf8: Utf8) {
    var verdict := PeerVerdict(p, authority, path, utf8);
    verdict.AnswerGet? || (verdict.AnswerHead? && p.write.Failed?)
  }

  /**
   A good GET is answered whatever came before it, except exactly when one of the earlier
   connections ended the listener; rejected, malformed and stalled requests do not.
   */
  lemma {:induction false} GoodGetIsServed(before: seq<Peer>, get: Peer, rest: seq<Peer>, authority: string,
                                           path: string, utf8: Utf8)
    requires PeerVerdict(get, authority, path, utf8).AnswerGet? && get.write.Sent?
    ensures |Served(before + [get] + rest, authority, path, utf8).0| > |before|
       <==> forall k :: 0 <= k < |before| ==> !Ends(before[k], authority, path, utf8)
    ensures (forall k :: 0 <= k < |before| ==> !Ends(before[k], authority, path, utf8))
            ==> Served(before + [get] + rest, authority, path, utf8).1 == Some(Ok(()))
  {
    hide PeerVerdict;
    var all := before + [get] + rest;
    if before == [] {
      assert all[0] == get;
    } else {
      assert all[0] == before[0] && all[1..] == before[1..] + [get] + rest;
      GoodGetIsServed(before[1..], get, rest, authority, path, utf8);
      assert forall k :: 0 < k < |before| ==> before[k] == before[1..][k - 1];
      if Ends(before[0], authority, path, utf8) {
        assert |Served(all, authority, path, utf8).0| == 1;
      } else {
        assert (forall k :: 0 <= k < |before| ==> !Ends(before[k], authority, path, utf8))
          <==> (forall k :: 0 <= k < |before[1..]| ==> !Ends(before[1..][k], authority, path, utf8));
      }
    }
  }

  /** One acceptable HEAD with a broken response ends the listener although no GET was ever answered. */
  lemma BrokenHeadEndsListener(head: Peer, rest: seq<Peer>, authority: string, path: string, utf8: Utf8)
    requires PeerVerdict(head, authority, path, utf8).AnswerHead? && head.write.Failed?
    ensures Served([head] + rest, authority, path, utf8) == ([AnswerHead], Some(Err(RuntimeFailure)))
  {
    hide PeerVerdict;
  }

  // ---------------------------------------------------------------- the plain request

  predicate PlainText(s: string) {
    forall i :: 0 <= i < |s| ==> '!' <= s[i] <= '~'
  }

  function Bytes(s: string): seq<Byte>
    requires forall i :: 0 <= i < |s| ==> s[i] as int < 0x80
  {
    seq(|s|, i requires 0 <= i < |s| => s[i] as int)
  }

  /** The header a browser sends at least: the request line and its Host field. */
  function PlainHeader(verb: string, path: string, authority: string): string {
    RequestLine(verb, path) + "\r\n" + ("Host:" + authority)
  }

  lemma {:induction false} IndexOfLineEnd(a: string, b: string, from: nat)
    requires '\r' !in a && from <= |a|
    ensures Index(a + "\r\n" + b, "\r\n", from) == Some(|a|)
    ensures Index(a, "\r\n", from) == None
    decreases |a| - from
  {
    var text := a + "\r\n" + b;
    if from < |a| {
      assert text[from] == a[from] && text[from..from + 2][0] == text[from];
      assert from + 2 <= |a| ==> a[from..from + 2][0] == a[from];
      IndexOfLineEnd(a, b, from + 1);
    } else {
      assert text[from..from + 2] == "\r\n";
    }
  }

  lemma TwoLines(a: string, b: string)
    requires '\r' !in a && '\r' !in b
    ensures Split(a + "\r\n" + b, "\r\n") == [a, b]
  {
    IndexOfLineEnd(a, b, 0);
    IndexOfLineEnd(b, "", 0);
    var text := a + "\r\n" + b;
    assert text[..|a|] == a && text[|a| + 2..] == b;
  }

  lemma HostIsFine(authority: string)
    requires PlainText(authority) && authority != ""
    ensures FieldsOk(["Host:" + authority], authority)
  {
    hide AsField, Forbidden, WellFormed, TrimBoth, IsHost;
    var line := "Host:" + authority;
    HostField(authority);
    HostIsWellFormed(authority);
    assert Hosts([line][..0]) == [];
    assert Hosts([line]) == [authority];
  }

  lemma HostField(authority: string)
    ensures AsField("Host:" + authority) == Some(Field("Host", authority))
  {
    hide Index;
    var line := "Host" + [':'] + authority;
    assert line == "Host:" + authority && [':'] == ":";
    IndexOfChar("Host", ':', authority, 0);
    assert line[..4] == "Host" && line[5..] == authority;
  }

  lemma HostIsWellFormed(authority: string)
    requires PlainText(authority) && authority != ""
    ensures var f := Field("Host", authority);
            WellFormed(f) && IsHost(f) && !Forbidden(f) && TrimBoth(authority, SpaceOrTab) == authority
  {
  }

  lemma PlainHeaderIsGood(verb: string, path: string, authority: string)
    requires verb == "GET" || verb == "HEAD"
    requires PlainText(path) && PlainText(authority) && authority != ""
    ensures Judge(Some(PlainHeader(verb, path, authority)), authority, path)
         == if verb == "GET" then AnswerGet else AnswerHead
  {
    hide Split, FieldsOk, Judge;
    TwoLines(RequestLine(verb, path), "Host:" + authority);
    HostIsFine(authority);
    assert [RequestLine(verb, path), "Host:" + authority][1..] == ["Host:" + authority];
    JudgeMeaning(PlainHeader(verb, path, authority), authority, path);
  }

  lemma HeaderIsAscii(verb: string, path: string, authority: string)
    requires verb == "GET" || verb == "HEAD"
    requires PlainText(path) && PlainText(authority)
    ensures var line, header := RequestLine(verb, path), PlainHeader(verb, path, authority);
            && (forall i :: 0 <= i < |header| ==> header[i] as int < 0x80)
            && |line| + 7 <= |header| && header[|line|] == '\r' && header[|line| + 2] == 'H'
            && (forall i :: 0 <= i < |header| && i != |line| ==> header[i] != '\r')
  {
  }

  /** The bytes of the plain request: its header ends at the only blank line. */
  lemma PlainHeaderEnds(verb: string, path: string, authority: string)
    requires verb == "GET" || verb == "HEAD"
    requires PlainText(path) && PlainText(authority)
    requires |PlainHeader(verb, path, authority)| + 4 <= HEADER_LIMIT
    ensures var header := PlainHeader(verb, path, authority);
            (forall i :: 0 <= i < |header| ==> header[i] as int < 0x80)
            && Decision(Bytes(header) + [13, 10, 13, 10]) == Found(|header|)
  {
    hide Decision, PlainHeader, RequestLine;
    HeaderIsAscii(verb, path, authority);
    var header := PlainHeader(verb, path, authority);
    var stream := Bytes(header) + [13, 10, 13, 10];
    assert forall i :: 0 <= i < |header| ==> stream[i] == header[i] as int;
    assert Blank(stream, |header|);
    LimitIsInclusive(stream, |header|);
  }

  /** The plain request for the path and authority is answered, whatever pieces it arrives in. */
  lemma PlainRequestIsAnswered(p: Peer, verb: string, path: string, authority: string, utf8: Utf8)
    requires verb == "GET" || verb == "HEAD"
    requires PlainText(path) && PlainText(authority) && authority != ""
    requires |PlainHeader(verb, path, authority)| + 4 <= HEADER_LIMIT
    requires p.loopback && !p.stalls
    requires var header := PlainHeader(verb, path, authority);
             && (forall i :: 0 <= i < |header| ==> header[i] as int < 0x80)
             && p.stream == Bytes(header) + [13, 10, 13, 10] && utf8(Bytes(header)) == Some(header)
    ensures PeerVerdict(p, authority, path, utf8) == if verb == "GET" then AnswerGet else AnswerHead
  {
    hide Decision, PlainHeader, Judge;
    PlainHeaderEnds(verb, path, authority);
    PlainHeaderIsGood(verb, path, authority);
    var header := PlainHeader(verb, path, authority);
    assert p.stream[..|header|] == Bytes(header);
  }

  /** The plain HEAD whose response cannot be written: the listener ends and a waiting plain GET is never answered. */
  lemma HeadKeepsGetOut(path: string, authority: string, utf8: Utf8)
    requires PlainText(path) && PlainText(authority) && authority != ""
    requires |PlainHeader("HEAD", path, authority)| + 4 <= HEADER_LIMIT
    requires forall text: string :: (forall i :: 0 <= i < |text| ==> text[i] as int < 0x80) ==>
                                      utf8(Bytes(text)) == Some(text)
    ensures exists head: Peer, get: Peer ::
              && Served([get], authority, path, utf8) == ([AnswerGet], Some(Ok(())))
              && Served([head, get], authority, path, utf8) == ([AnswerHead], Some(Err(RuntimeFailure)))
  {
    hide PeerVerdict, PlainHeader, Served, Decision, Bytes;
    GetIsShorter(path, authority);
    var head := PlainPeer("HEAD", path, authority, Failed, utf8);
    var get := PlainPeer("GET", path, authority, Sent, utf8);
    BrokenHeadEndsListener(head, [get], authority, path, utf8);
    assert [head] + [get] == [head, get];
    ServedNext([get], 0, authority, path, utf8);
    assert [get][0..] == [get];
  }

  lemma PlainPeer(verb: string, path: string, authority: string, write: WriteEnd, utf8: Utf8) returns (p: Peer)
    requires verb == "GET" || verb == "HEAD"
    requires PlainText(path) && PlainText(authority) && authority != ""
    requires |PlainHeader(verb, path, authority)| + 4 <= HEADER_LIMIT
    requires forall text: string :: (forall i :: 0 <= i < |text| ==> text[i] as int < 0x80) ==>
                                      utf8(Bytes(text)) == Some(text)
    ensures p.write == write
    ensures PeerVerdict(p, authority, path, utf8) == if verb == "GET" then AnswerGet else AnswerHead
  {
    hide PeerVerdict, PlainHeader, Decision, Bytes;
    HeaderIsAscii(verb, path, authority);
    p := Peer(true, Bytes(PlainHeader(verb, path, authority)) + [13, 10, 13, 10], [], false, write);
    PlainRequestIsAnswered(p, verb, path, authority, utf8);
  }

  lemma GetIsShorter(path: string, authority: string)
    ensures |PlainHeader("GET", path, authority)| <= |PlainHeader("HEAD", path, authority)|
  {
  }
}
