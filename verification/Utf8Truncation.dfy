/**
 Truncation of native progress messages (`ocgui_progress_bridge` in
 `native/bridge/ocgui.c`) against the UTF-8 syntax of section 4 of RFC 3629.
 */
module Utf8Truncation {
  import opened Common

  const LOCAL_SIZE: nat := 1024
  const MAX_CAPACITY: nat := 65536

  predicate Tail(b: Byte) {
    0x80 <= b <= 0xBF
  }

  /** Length of the character at the head of `s`, 0 if there is none. */
  function HeadLength(s: seq<Byte>): (n: nat)
    ensures n <= 4 && n <= |s|
  {
    if s == [] then 0
    else if s[0] <= 0x7F then 1
    else if |s| >= 2 && 0xC2 <= s[0] <= 0xDF && Tail(s[1]) then 2
    else if |s| >= 3 && ThreeByteHead(s[0], s[1]) && Tail(s[2]) then 3
    else if |s| >= 4 && FourByteHead(s[0], s[1]) && Tail(s[2]) && Tail(s[3]) then 4
    else 0
  }

  predicate ThreeByteHead(a: Byte, b: Byte) {
    || (a == 0xE0 && 0xA0 <= b <= 0xBF)
    || (0xE1 <= a <= 0xEC && Tail(b))
    || (a == 0xED && 0x80 <= b <= 0x9F)
    || (0xEE <= a <= 0xEF && Tail(b))
  }

  predicate FourByteHead(a: Byte, b: Byte) {
    || (a == 0xF0 && 0x90 <= b <= 0xBF)
    || (0xF1 <= a <= 0xF3 && Tail(b))
    || (a == 0xF4 && 0x80 <= b <= 0x8F)
  }

  predicate ValidUtf8(s: seq<Byte>)
    decreases |s|
  {
    s == [] || (HeadLength(s) > 0 && ValidUtf8(s[HeadLength(s)..]))
  }

  // ---------------------------------------------------------------- against the encoding of section 3 of RFC 3629

  /** Unicode scalar values: no surrogates. */
  predicate Scalar(c: nat) {
    c <= 0xD7FF || 0xE000 <= c <= 0x10FFFF
  }

  function Encoded(c: nat): (s: seq<Byte>)
    requires Scalar(c)
    ensures s != []
  {
    if c <= 0x7F then [c]
    else if c <= 0x7FF then [0xC0 + c / 64, 0x80 + c % 64]
    else if c <= 0xFFFF then [0xE0 + c / 64 / 64, 0x80 + c / 64 % 64, 0x80 + c % 64]
    else [0xF0 + c / 64 / 64 / 64, 0x80 + c / 64 / 64 % 64, 0x80 + c / 64 % 64, 0x80 + c % 64]
  }

  function EncodedAll(cs: seq<nat>): seq<Byte>
    requires forall i :: 0 <= i < |cs| ==> Scalar(cs[i])
  {
    if cs == [] then [] else Encoded(cs[0]) + EncodedAll(cs[1..])
  }

  lemma EncodedHead(c: nat, rest: seq<Byte>)
    requires Scalar(c)
    ensures HeadLength(Encoded(c) + rest) == |Encoded(c)|
  {
    var s := Encoded(c) + rest;
    assert forall i :: 0 <= i < |Encoded(c)| ==> s[i] == Encoded(c)[i];
    if 0x800 <= c <= 0xFFFF {
      ThreeBytes(c);
    } else if c >= 0x10000 {
      FourBytes(c);
    }
  }

  lemma ThreeBytes(c: nat)
    requires Scalar(c) && 0x800 <= c <= 0xFFFF
    ensures ThreeByteHead(0xE0 + c / 64 / 64, 0x80 + c / 64 % 64)
  {
    var q := c / 64;
    assert 32 <= q <= 1023 && !(864 <= q <= 895);
    HeadOfThree(q / 64, q % 64);
  }

  lemma HeadOfThree(x: nat, y: nat)
    requires y < 64 && 32 <= 64 * x + y <= 1023 && !(864 <= 64 * x + y <= 895)
    ensures ThreeByteHead(0xE0 + x, 0x80 + y)
  {
  }

  lemma FourBytes(c: nat)
    requires 0x10000 <= c <= 0x10FFFF
    ensures FourByteHead(0xF0 + c / 64 / 64 / 64, 0x80 + c / 64 / 64 % 64)
  {
    var q := c / 64 / 64;
    assert 16 <= q <= 271;
    HeadOfFour(q / 64, q % 64);
  }

  lemma HeadOfFour(x: nat, y: nat)
    requires y < 64 && 16 <= 64 * x + y <= 271
    ensures FourByteHead(0xF0 + x, 0x80 + y)
  {
  }

  /** The scalar value a character stands for. */
  function Decoded(s: seq<Byte>): (c: nat)
    requires HeadLength(s) > 0
  {
    var n := HeadLength(s);
    var a: nat := s[0];
    if n == 1 then a
    else
      var b: nat := s[1] - 0x80;
      if n == 2 then 64 * (a - 0xC0) + b
      else
        var c: nat := s[2] - 0x80;
        if n == 3 then 4096 * (a - 0xE0) + 64 * b + c
        else 262144 * (a - 0xF0) + 4096 * b + 64 * c + (s[3] - 0x80)
  }

  lemma DecodedHead(s: seq<Byte>)
    requires HeadLength(s) > 0
    ensures Scalar(Decoded(s)) && Encoded(Decoded(s)) == s[..HeadLength(s)]
  {
    if HeadLength(s) == 3 {
      DecodedFromThree(s);
    } else if HeadLength(s) == 4 {
      DecodedFromFour(s);
    }
  }

  lemma DecodedFromThree(s: seq<Byte>)
    requires HeadLength(s) == 3
    ensures Scalar(Decoded(s)) && Encoded(Decoded(s)) == s[..3]
  {
    DecodedThree(s[0] - 0xE0, s[1] - 0x80, s[2] - 0x80);
  }

  lemma DecodedFromFour(s: seq<Byte>)
    requires HeadLength(s) == 4
    ensures Scalar(Decoded(s)) && Encoded(Decoded(s)) == s[..4]
  {
    DecodedFour(s[0] - 0xF0, s[1] - 0x80, s[2] - 0x80, s[3] - 0x80);
  }

  lemma Sixbits(q: nat, r: nat)
    requires r < 64
    ensures (64 * q + r) / 64 == q && (64 * q + r) % 64 == r
  {
  }

  lemma DecodedThree(x: nat, y: nat, z: nat)
    requires y < 64 && z < 64
    ensures var c := 4096 * x + 64 * y + z;
            c / 64 / 64 == x && c / 64 % 64 == y && c % 64 == z
  {
    assert 4096 * x + 64 * y + z == 64 * (64 * x + y) + z;
    Sixbits(64 * x + y, z);
    Sixbits(x, y);
  }

  lemma DecodedFour(x: nat, y: nat, z: nat, w: nat)
    requires y < 64 && z < 64 && w < 64
    ensures var c := 262144 * x + 4096 * y + 64 * z + w;
            c / 64 / 64 / 64 == x && c / 64 / 64 % 64 == y && c / 64 % 64 == z && c % 64 == w
  {
    assert 262144 * x + 4096 * y + 64 * z + w == 64 * (4096 * x + 64 * y + z) + w;
    Sixbits(4096 * x + 64 * y + z, w);
    DecodedThree(x, y, z);
  }

  ghost predicate Encodes(cs: seq<nat>, s: seq<Byte>) {
    (forall i :: 0 <= i < |cs| ==> Scalar(cs[i])) && EncodedAll(cs) == s
  }

  /** A text is valid exactly when it encodes a sequence of scalar values. */
  lemma {:induction false} ValidIsEncoded(s: seq<Byte>)
    ensures ValidUtf8(s) <==> exists cs :: Encodes(cs, s)
    decreases |s|
  {
    hide Encodes, HeadLength, Decoded;
    if ValidUtf8(s) {
      if s == [] {
        NothingEncoded();
      } else {
        ValidIsEncoded(s[HeadLength(s)..]);
        var cs :| Encodes(cs, s[HeadLength(s)..]);
        OneMoreEncoded(s, cs);
      }
    }
    if cs :| Encodes(cs, s) {
      EncodesIsValid(cs, s);
    }
  }

  lemma NothingEncoded()
    ensures Encodes([], [])
  {
  }

  lemma OneMoreEncoded(s: seq<Byte>, cs: seq<nat>)
    requires HeadLength(s) > 0 && Encodes(cs, s[HeadLength(s)..])
    ensures Encodes([Decoded(s)] + cs, s)
  {
    DecodedHead(s);
    hide HeadLength, Encoded, Scalar, Decoded;
      var (n, all) := (HeadLength(s), [Decoded(s)] + cs);
    assert all[1..] == cs;
    assert s == s[..n] + s[n..];
  }

  lemma EncodesIsValid(cs: seq<nat>, s: seq<Byte>)
    requires Encodes(cs, s)
    ensures ValidUtf8(s)
  {
    EncodedIsValid(cs);
  }

  lemma {:induction false} EncodedIsValid(cs: seq<nat>)
    requires forall i :: 0 <= i < |cs| ==> Scalar(cs[i])
    ensures ValidUtf8(EncodedAll(cs))
  {
    hide HeadLength, Encoded, Scalar;
    if cs != [] {
      EncodedIsValid(cs[1..]);
      EncodedHead(cs[0], EncodedAll(cs[1..]));
      var s := EncodedAll(cs);
      assert s[|Encoded(cs[0])|..] == EncodedAll(cs[1..]);
    }
  }

  // ---------------------------------------------------------------- cutting

  /** Where the character holding byte n - 1 begins. */
  function CharacterStart(s: seq<Byte>, n: nat): (b: nat)
    requires ValidUtf8(s) && 0 < n <= |s|
    ensures b < n
    decreases |s|
  {
    var length := HeadLength(s);
    if n <= length then 0 else length + CharacterStart(s[length..], n - length)
  }

  /** The bytes of a character: a head that is no tail, then tails only. */
  lemma HeadShape(s: seq<Byte>, n: nat)
    requires 0 < n <= HeadLength(s)
    ensures !Tail(s[0]) && (s[0] >= 0xC0 <==> HeadLength(s) > 1)
    ensures forall k :: 1 <= k < n ==> Tail(s[k])
  {
  }

  lemma HeadOfPrefix(s: seq<Byte>, m: nat)
    requires 0 < HeadLength(s) <= m <= |s|
    ensures HeadLength(s[..m]) == HeadLength(s)
  {
  }

  /** A valid text may be cut where a character begins; that character is at most four bytes before any byte of it. */
  lemma {:induction false} CutAtCharacter(s: seq<Byte>, n: nat)
    requires ValidUtf8(s) && 0 < n <= |s|
    ensures var b := CharacterStart(s, n);
            && n - b <= 4
            && ValidUtf8(s[..b])
            && !Tail(s[b])
            && (forall k :: b < k < n ==> Tail(s[k]))
            && (s[b] < 0xC0 ==> b + 1 == n && ValidUtf8(s[..n]))
    decreases |s|
  {
    hide HeadLength, Tail;
    var length := HeadLength(s);
    var b := CharacterStart(s, n);
    if n <= length {
      HeadShape(s, n);
      assert ValidUtf8(s[..0]);
      assert s[..0] == [];
      if s[0] < 0xC0 {
        Prepend(s, n);
        assert s[length..][..n - length] == [];
      }
    } else {
      var rest := s[length..];
      CutAtCharacter(rest, n - length);
      Prepend(s, b);
      Prepend(s, n);
      assert forall k :: b < k < n ==> s[k] == rest[k - length];
    }
  }

  lemma Prepend(s: seq<Byte>, m: nat)
    requires 0 < HeadLength(s) <= m <= |s|
    ensures ValidUtf8(s[..m]) <==> ValidUtf8(s[HeadLength(s)..][..m - HeadLength(s)])
  {
    hide HeadLength;
    var length := HeadLength(s);
    HeadOfPrefix(s, m);
    assert s[..m][length..] == s[length..][..m - length];
  }

  /** `vsnprintf`: what fits is copied, and a terminator follows. */
  method Format(text: seq<Byte>, buffer: array<Byte>)
    requires buffer.Length > 0
    modifies buffer
    ensures var kept := if |text| < buffer.Length then |text| else buffer.Length - 1;
            buffer[..kept] == text[..kept] && buffer[kept] == 0
  {
    var kept := if |text| < buffer.Length then |text| else buffer.Length - 1;
    var i := 0;
    while i < kept
      invariant 0 <= i <= kept
      invariant buffer[..i] == text[..i]
    {
      buffer[i] := text[i];
      i := i + 1;
    }
    buffer[kept] := 0;
  }

  // ---------------------------------------------------------------- C strings

  /** What a C string holds: the bytes before its first zero. */
  function UpToZero(s: seq<Byte>): (r: seq<Byte>)
    ensures r <= s && 0 !in r
    ensures |r| < |s| ==> s[|r|] == 0
  {
    if s == [] || s[0] == 0 then [] else [s[0]] + UpToZero(s[1..])
  }

  lemma {:induction false} WithoutZero(s: seq<Byte>, n: nat)
    requires n <= |s| && forall i :: 0 <= i < n ==> s[i] != 0
    ensures |UpToZero(s)| == n + |UpToZero(s[n..])|
  {
    if n == 0 {
      assert s[0..] == s;
    } else {
      var rest := s[1..];
      WithoutZero(rest, n - 1);
      assert rest[n - 1..] == s[n..];
    }
  }

  /** Bytes behind a zero do not belong to the string. */
  lemma {:induction false} Terminated(s: seq<Byte>, n: nat)
    requires n < |s| && s[n] == 0
    ensures UpToZero(s) == UpToZero(s[..n])
  {
    if n > 0 && s[0] != 0 {
      Terminated(s[1..], n - 1);
      assert s[1..][..n - 1] == s[..n][1..];
    }
  }

  /** Cutting a valid text at its first zero leaves a valid text. */
  lemma {:induction false} CutAtZero(s: seq<Byte>)
    requires ValidUtf8(s)
    ensures ValidUtf8(UpToZero(s))
    decreases |s|
  {
    if s != [] && s[0] != 0 {
      var length := HeadLength(s);
      var rest := s[length..];
      HeadShape(s, length);
      WithoutZero(s, length);
      CutAtZero(rest);
      var cut := UpToZero(s);
      assert cut[length..] == UpToZero(rest);
      assert cut == s[..|cut|];
      HeadOfPrefix(s, |cut|);
    }
  }

  /** Reading a C string. */
  method Read(buffer: array<Byte>, ghost n: nat) returns (message: seq<Byte>)
    requires n < buffer.Length && buffer[n] == 0
    ensures message == UpToZero(buffer[..n])
  {
    var i := 0;
    while buffer[i] != 0
      invariant 0 <= i <= n && forall k :: 0 <= k < i ==> buffer[k] != 0
      decreases n - i
    {
      i := i + 1;
    }
    WithoutZero(buffer[..n], i);
    assert buffer[..n][..i] == buffer[..i];
    return buffer[..i];
  }

  // ---------------------------------------------------------------- the bridge

  /**
   What the callback receives: the buffer up to its first zero. Messages up to 65535 bytes
   are passed whole; longer valid ones are cut between characters, losing at most four
   bytes more than they must.
   */
  method Progress(text: seq<Byte>) returns (message: seq<Byte>)
    ensures message <= text && 0 !in message
    ensures |text| <= 65535 ==> message == UpToZero(text)
    ensures |text| > 65535 && ValidUtf8(text) ==>
              exists end :: 65531 <= end <= 65535 && ValidUtf8(text[..end]) && message == UpToZero(text[..end])
    ensures ValidUtf8(text) ==> ValidUtf8(message)
  {
    hide HeadLength, ValidUtf8, CharacterStart;
    if ValidUtf8(text) {
      CutAtZero(text);
    }
    var buffer := new Byte[LOCAL_SIZE](_ => 0);
    Format(text, buffer);
    if |text| < LOCAL_SIZE {
      message := Read(buffer, |text|);
      return;
    }
    var capacity := if |text| < MAX_CAPACITY - 1 then |text| + 1 else MAX_CAPACITY;
    buffer := new Byte[capacity](_ => 0);
    Format(text, buffer);
    if |text| < capacity {
      message := Read(buffer, |text|);
      return;
    }
    var end := CutEnd(buffer, capacity - 1, text);
    buffer[end] := 0;
    assert buffer[..end] == text[..end];
    message := Read(buffer, end);
    if ValidUtf8(text) {
      CutAtZero(text[..end]);
    }
  }

  /** Where the truncated copy of a message ends: back over tails, and over a head that lost its own. */
  method CutEnd(buffer: array<Byte>, n: nat, ghost text: seq<Byte>) returns (end: nat)
    requires 0 < n < buffer.Length && n <= |text| && buffer[..n] == text[..n]
    ensures end <= n && buffer[..end] == text[..end]
    ensures ValidUtf8(text) ==> n <= end + 4 && ValidUtf8(text[..end])
  {
    hide HeadLength, ValidUtf8, CharacterStart;
    ghost var valid := ValidUtf8(text);
    ghost var start := if valid then CharacterStart(text, n) else 0;
    if valid {
      CutAtCharacter(text, n);
    }
    assert forall i :: 0 <= i < n ==> buffer[i] == text[i];
    end := n;
    while end > 0 && Tail(buffer[end - 1])
      invariant 0 <= end <= n
      invariant valid ==> start < end
    {
      end := end - 1;
    }
    if end > 0 {
      assert valid ==> end == start + 1;
      if buffer[end - 1] >= 0xC0 {
        end := end - 1;
      }
    }
    assert buffer[..end] == text[..end];
  }
}
