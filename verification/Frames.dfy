/**
 Length-prefixed IPC frames (`crates/model/src/ipc.rs`): a 32-bit big-endian length, then
 at most one mebibyte of payload.

 `encode` gives the chunks a serialiser writes for a value, `decode` what a deserialiser
 makes of a payload.
 */
module Frames {
  import opened Common

  const MAX_FRAME: nat := 1024 * 1024

  type Encode<!T> = T -> seq<seq<Byte>>

  type Decode<!T> = seq<Byte> -> Option<T>

  // ---------------------------------------------------------------- the bounded writer

  function Flatten(chunks: seq<seq<Byte>>): seq<Byte> {
    if chunks == [] then [] else Flatten(chunks[..|chunks| - 1]) + chunks[|chunks| - 1]
  }

  lemma {:induction false} FlattenGrows(chunks: seq<seq<Byte>>, k: nat)
    requires k <= |chunks|
    ensures Flatten(chunks[..k]) <= Flatten(chunks)
  {
    if k < |chunks| {
      var shorter := chunks[..|chunks| - 1];
      assert shorter[..k] == chunks[..k];
      FlattenGrows(shorter, k);
    } else {
      assert chunks[..k] == chunks;
    }
  }

  class BoundedWriter {
    var bytes: seq<Byte>

    constructor ()
      ensures bytes == []
    {
      bytes := [];
    }

    /** Takes a chunk whole or refuses it. */
    method Write(chunk: seq<Byte>) returns (ok: bool)
      modifies this
      ensures ok <==> |old(bytes)| + |chunk| <= MAX_FRAME || (chunk == [] && |old(bytes)| > MAX_FRAME)
      ensures bytes == if ok then old(bytes) + chunk else old(bytes)
    {
      var left := if |bytes| > MAX_FRAME then 0 else MAX_FRAME - |bytes|;
      if |chunk| > left {
        return false;
      }
      bytes := bytes + chunk;
      return true;
    }
  }

  /** A serialiser stops at the first refused chunk; all are taken exactly when their total fits. */
  method WriteChunks(chunks: seq<seq<Byte>>) returns (bytes: Option<seq<Byte>>)
    ensures bytes == if |Flatten(chunks)| <= MAX_FRAME then Some(Flatten(chunks)) else None
  {
    var writer := new BoundedWriter();
    var k := 0;
    while k < |chunks|
      invariant 0 <= k <= |chunks|
      invariant writer.bytes == Flatten(chunks[..k]) && |writer.bytes| <= MAX_FRAME
    {
      var ok := writer.Write(chunks[k]);
      assert chunks[..k + 1][..k] == chunks[..k];
      FlattenGrows(chunks, k + 1);
      if !ok {
        return None;
      }
      k := k + 1;
    }
    assert chunks[..k] == chunks;
    return Some(writer.bytes);
  }

  // ---------------------------------------------------------------- the header

  /** Four bytes, most significant first, of a number cut to 32 bits. */
  function Header(length: nat): (h: seq<Byte>)
    ensures |h| == 4
  {
    var n := length % 0x1_0000_0000;
    [n / 0x100 / 0x100 / 0x100, n / 0x100 / 0x100 % 0x100, n / 0x100 % 0x100, n % 0x100]
  }

  function HeaderValue(h: seq<Byte>): nat
    requires |h| == 4
  {
    ((h[0] as int * 0x100 + h[1] as int) * 0x100 + h[2] as int) * 0x100 + h[3] as int
  }

  lemma HeaderRoundTrip(length: nat)
    requires length <= MAX_FRAME
    ensures HeaderValue(Header(length)) == length
  {
  }

  // ---------------------------------------------------------------- one frame

  function Frame(payload: seq<Byte>): seq<Byte> {
    Header(|payload|) + payload
  }

  function Written<T>(encode: Encode<T>, v: T): Option<seq<Byte>> {
    if |Flatten(encode(v))| <= MAX_FRAME then Some(Frame(Flatten(encode(v)))) else None
  }

  /** The value read and what the reader has not taken; a failed read may have taken anything. */
  function Read<T>(decode: Decode<T>, stream: seq<Byte>): Result<(T, seq<Byte>)> {
    if |stream| < 4 then Err(ProtocolViolation)
    else
      var length := HeaderValue(stream[..4]);
      if length == 0 || length > MAX_FRAME then Err(ProtocolViolation)
      else if |stream| - 4 < length then Err(ProtocolViolation)
      else
        match decode(stream[4..4 + length])
        case None => Err(ProtocolViolation)
        case Some(v) => Ok((v, stream[4 + length..]))
  }

  class Channel {
    var bytes: seq<Byte>

    constructor (pending: seq<Byte>)
      ensures bytes == pending
    {
      bytes := pending;
    }

    method WriteFrame<T>(encode: Encode<T>, v: T) returns (r: Result<()>)
      modifies this
      ensures match Written(encode, v)
              case None => r == Err(ProtocolViolation) && bytes == old(bytes)
              case Some(frame) => r == Ok(()) && bytes == old(bytes) + frame
    {
      hide Flatten;
      var payload := WriteChunks(encode(v));
      if payload.None? {
        return Err(ProtocolViolation);
      }
      bytes := bytes + Header(|payload.value|);
      bytes := bytes + payload.value;
      return Ok(());
    }

    /** `read_exact`: all the bytes asked for, or an error at the end of the stream. */
    method ReadExact(n: nat) returns (taken: Option<seq<Byte>>)
      modifies this
      ensures if |old(bytes)| < n then taken == None && bytes == []
              else taken == Some(old(bytes)[..n]) && bytes == old(bytes)[n..]
    {
      if |bytes| < n {
        bytes := [];
        return None;
      }
      taken := Some(bytes[..n]);
      bytes := bytes[n..];
    }

    method ReadFrame<T>(decode: Decode<T>) returns (r: Result<T>)
      modifies this
      ensures match Read(decode, old(bytes))
              case Err(code) => r == Err(code)
              case Ok(result) => r == Ok(result.0) && bytes == result.1
    {
      var header := ReadExact(4);
      if header.None? {
        return Err(ProtocolViolation);
      }
      var length := HeaderValue(header.value);
      if length == 0 || length > MAX_FRAME {
        return Err(ProtocolViolation);
      }
      ghost var whole := old(bytes);
      var payload := ReadExact(length);
      if payload.None? {
        return Err(ProtocolViolation);
      }
      assert whole[4..][..length] == whole[4..4 + length] && whole[4..][length..] == whole[4 + length..];
      var v := decode(payload.value);
      return if v.None? then Err(ProtocolViolation) else Ok(v.value);
    }
  }

  // ---------------------------------------------------------------- round trips

  /** The codec's contract for one value: it fits, is not empty, and decodes to itself. */
  predicate Framable<T(==)>(encode: Encode<T>, decode: Decode<T>, v: T) {
    0 < |Flatten(encode(v))| <= MAX_FRAME && decode(Flatten(encode(v))) == Some(v)
  }

  /** A written frame reads back with the following bytes untouched, exactly when its payload is not empty. */
  lemma FrameReadsBack<T>(encode: Encode<T>, decode: Decode<T>, v: T, rest: seq<Byte>)
    requires Written(encode, v).Some? && decode(Flatten(encode(v))) == Some(v)
    ensures Read(decode, Written(encode, v).value + rest) == Ok((v, rest)) <==> Flatten(encode(v)) != []
  {
    hide Flatten;
    var payload := Flatten(encode(v));
    var stream := Frame(payload) + rest;
    HeaderRoundTrip(|payload|);
    assert stream[..4] == Header(|payload|);
    assert stream[4..4 + |payload|] == payload;
    assert stream[4 + |payload|..] == rest;
  }

  /** Nothing is made of a frame that is cut short. */
  lemma CutFrameFails<T>(decode: Decode<T>, payload: seq<Byte>, k: nat)
    requires |payload| <= MAX_FRAME && k < |Frame(payload)|
    ensures Read(decode, Frame(payload)[..k]) == Err(ProtocolViolation)
  {
    HeaderRoundTrip(|payload|);
    if k >= 4 {
      assert Frame(payload)[..k][..4] == Header(|payload|);
    }
  }

  lemma HeaderOfValue(header: seq<Byte>)
    requires |header| == 4
    ensures HeaderValue(header) < 0x1_0000_0000 && Header(HeaderValue(header)) == header
  {
  }

  /**
   What can be read at all: exactly the frames of a payload of 1 to 2^20 bytes that decodes,
   whatever follows them; anything else is a protocol violation.
   */
  lemma ReadsExactlyFrames<T>(decode: Decode<T>, stream: seq<Byte>)
    ensures forall v, rest :: Read(decode, stream) == Ok((v, rest)) <==>
                              exists payload :: IsFrame(stream, payload, rest) && decode(payload) == Some(v)
    ensures Read(decode, stream).Err? ==> Read(decode, stream) == Err(ProtocolViolation)
  {
    hide Header, HeaderValue;
    forall v, rest
      ensures Read(decode, stream) == Ok((v, rest)) <==>
              exists payload :: IsFrame(stream, payload, rest) && decode(payload) == Some(v)
    {
      if Read(decode, stream) == Ok((v, rest)) {
        var n := HeaderValue(stream[..4]);
        HeaderOfValue(stream[..4]);
        assert stream == stream[..4] + stream[4..4 + n] + stream[4 + n..];
        assert IsFrame(stream, stream[4..4 + n], rest);
      }
      if payload :| IsFrame(stream, payload, rest) && decode(payload) == Some(v) {
        HeaderRoundTrip(|payload|);
        assert stream[..4] == Header(|payload|) && stream[4..4 + |payload|] == payload;
        assert stream[4 + |payload|..] == rest;
      }
    }
  }

  ghost predicate IsFrame(stream: seq<Byte>, payload: seq<Byte>, rest: seq<Byte>) {
    0 < |payload| <= 1048576 && stream == Header(|payload|) + payload + rest
  }

  function Stream<T>(encode: Encode<T>, values: seq<T>): seq<Byte> {
    if values == [] then [] else Frame(Flatten(encode(values[0]))) + Stream(encode, values[1..])
  }

  /** Reads frames until one fails. */
  function ReadAll<T>(decode: Decode<T>, stream: seq<Byte>): seq<T>
    decreases |stream|
  {
    match Read(decode, stream)
    case Err(_) => []
    case Ok(result) => [result.0] + ReadAll(decode, result.1)
  }

  function ReadMany<T>(decode: Decode<T>, stream: seq<Byte>, n: nat): Result<(seq<T>, seq<Byte>)> {
    if n == 0 then Ok(([], stream))
    else
      match Read(decode, stream)
      case Err(code) => Err(code)
      case Ok(first) =>
        match ReadMany(decode, first.1, n - 1)
        case Err(code) => Err(code)
        case Ok(others) => Ok(([first.0] + others.0, others.1))
  }

  /** Any list of values is read back from its frames, and the bytes after them stay. */
  lemma {:induction false} FramesRoundTrip<T>(encode: Encode<T>, decode: Decode<T>, values: seq<T>, rest: seq<Byte>)
    requires forall i :: 0 <= i < |values| ==> Framable(encode, decode, values[i])
    ensures ReadMany(decode, Stream(encode, values) + rest, |values|) == Ok((values, rest))
  {
    hide Flatten, Read;
    if values == [] {
      assert Stream(encode, values) + rest == rest;
    } else {
      var others := Stream(encode, values[1..]) + rest;
      assert Framable(encode, decode, values[0]);
      FrameReadsBack(encode, decode, values[0], others);
      assert Stream(encode, values) + rest == Frame(Flatten(encode(values[0]))) + others;
      FramesRoundTrip(encode, decode, values[1..], rest);
      assert [values[0]] + values[1..] == values;
    }
  }

  /** How many frames lie wholly within the first `k` bytes. */
  function Whole<T>(encode: Encode<T>, values: seq<T>, k: nat): (n: nat)
    ensures n <= |values|
  {
    if values == [] then 0
    else
      var size := |Frame(Flatten(encode(values[0])))|;
      if k < size then 0 else 1 + Whole(encode, values[1..], k - size)
  }

  /** A stream cut at any byte gives the values of its whole frames, nothing else, then fails. */
  lemma {:induction false} CutStreamGivesWholeFrames<T>(encode: Encode<T>, decode: Decode<T>, values: seq<T>, k: nat)
    requires forall i :: 0 <= i < |values| ==> Framable(encode, decode, values[i])
    requires k <= |Stream(encode, values)|
    ensures ReadAll(decode, Stream(encode, values)[..k]) == values[..Whole(encode, values, k)]
    decreases |values|
  {
    hide Flatten, Read;
    if values == [] {
      EmptyFails(decode);
      assert Stream(encode, values)[..k] == [];
    } else {
      var frame := Frame(Flatten(encode(values[0])));
      var others := Stream(encode, values[1..]);
      assert Framable(encode, decode, values[0]);
      if k < |frame| {
        assert Stream(encode, values)[..k] == frame[..k];
        CutFrameFails(decode, Flatten(encode(values[0])), k);
      } else {
        var m := k - |frame|;
        assert Stream(encode, values)[..k] == frame + others[..m];
        FrameReadsBack(encode, decode, values[0], others[..m]);
        assert Read(decode, frame + others[..m]) == Ok((values[0], others[..m]));
        CutStreamGivesWholeFrames(encode, decode, values[1..], m);
        assert values[..Whole(encode, values, k)] == [values[0]] + values[1..][..Whole(encode, values[1..], m)];
      }
    }
  }

  lemma EmptyFails<T>(decode: Decode<T>)
    ensures Read(decode, []).Err?
  {
  }
}
