/**
 Every answer of the completion parser (`parse_completion_if_present` in
 `crates/client/src/globalprotect.rs`), in terms of the document alone.
 */
module CompletionOutcome {
  import opened Common
  import opened Completion
  import opened CompletionDocument
  import opened CompletionResult

  /** An acceptable input whose events print a document with these completion fields. */
  ghost predicate Reads(text: string, tokens: seq<Token>, fields: Fields) {
    && text != "" && Utf8Length(text) <= 1048576 && (forall i :: 0 <= i < |text| ==> XmlChar(text[i]))
    && !TokenText(text)
    && exists f :: IsDocument(f, tokens, fields)
  }

  /** Blanks, then the beginning of the unsupported token form. */
  ghost predicate TokenText(text: string) {
    exists i: nat :: TokenAt(text, i)
  }

  predicate TokenAt(text: string, i: nat) {
    i <= |text| && "cas-as" <= text[i..] && forall j :: 0 <= j < i ==> WhiteSpace(text[j])
  }

  lemma TokenLater(text: string, i: nat)
    requires text != "" && WhiteSpace(text[0])
    ensures TokenAt(text[1..], i) <==> TokenAt(text, i + 1)
    ensures !TokenAt(text, 0)
  {
    var rest := text[1..];
    if i <= |rest| {
      assert text[i + 1..] == rest[i..];
      assert forall j :: 0 <= j < i ==> rest[j] == text[j + 1];
      if TokenAt(text, i + 1) {
        assert forall j :: 0 <= j < i + 1 ==> WhiteSpace(text[j]);
      }
    }
    assert text[0..] == text;
    assert "cas-as"[0] == 'c' && !WhiteSpace('c');
  }

  lemma {:induction false} TokenTextMeaning(text: string)
    ensures CasText(text) <==> TokenText(text)
  {
    hide TokenAt;
    if text != "" && WhiteSpace(text[0]) {
      TokenTextMeaning(text[1..]);
      if i: nat :| TokenAt(text[1..], i) {
        TokenLater(text, i);
      }
      if i: nat :| TokenAt(text, i) {
        TokenLater(text, if i == 0 then 0 else i - 1);
      }
    } else {
      TokenHere(text);
    }
  }

  lemma TokenHere(text: string)
    requires text == "" || !WhiteSpace(text[0])
    ensures TokenText(text) <==> "cas-as" <= text
  {
    assert text[0..] == text;
    assert TokenAt(text, 0) <==> "cas-as" <= text;
  }

  lemma {:induction false} ErrorCodes(tokens: seq<Token>, s: State, outer: nat)
    requires StateOk(s)
    ensures Run(tokens, s, outer).Err? ==> Run(tokens, s, outer).code in {InvalidInput, UnsupportedAuthentication}
    decreases tokens, 1
  {
    if tokens != [] {
      var counted := s.(events := s.events + 1);
      StepCodes(tokens[0], counted, outer);
      if Step(tokens[0], counted, outer).Ok? {
        ErrorCodes(tokens[1..], Step(tokens[0], counted, outer).value, outer);
      }
    }
  }

  lemma {:induction false} StepCodes(t: Token, s: State, outer: nat)
    requires StateOk(s)
    ensures Step(t, s, outer).Err? ==> Step(t, s, outer).code in {InvalidInput, UnsupportedAuthentication}
    decreases t, 0
  {
    if t.Comment? {
      ErrorCodes(t.inner, State([], None, None, s.fields, s.events), outer + |s.stack| + 1);
    }
  }

  /**
   The answers of the parser. Nothing is found exactly in documents without completion fields; a
   completion exactly in documents with just its fields, if they may be header values; and a
   document with fields is rejected exactly when its status is not 1. Everything else is
   malformed or the unsupported token form.
   */
  lemma ParseOutcomes(text: string, tokens: seq<Token>)
    ensures Parse(text, tokens) == Ok(None) <==> Reads(text, tokens, NO_FIELDS)
    ensures forall c :: Parse(text, tokens) == Ok(Some(c)) <==> Reads(text, tokens, FieldsOf(c)) && Deliverable(c)
    ensures Parse(text, tokens) == Err(AuthenticationRejected) <==>
            exists fields: Fields :: Reads(text, tokens, fields) && fields != NO_FIELDS && fields[0] != Some("1")
    ensures Parse(text, tokens).Err? ==>
              Parse(text, tokens).code in {InvalidInput, UnsupportedAuthentication, AuthenticationRejected}
    ensures InputOk(text) && TokenText(text) ==> Parse(text, tokens) == Err(UnsupportedAuthentication)
  {
    hide ParseFields, IsDocument, Deliverable, TokenText, CasText, Reads, InputOk, Visible, HeaderSafe;
    TokenTextMeaning(text);
    FieldErrors(tokens);
    forall fields: Fields
      ensures Reads(text, tokens, fields) <==> InputOk(text) && !CasText(text) && ParseFields(tokens) == Ok(fields)
    {
      ReadsMeaning(text, tokens, fields);
    }
    forall c
      ensures Parse(text, tokens) == Ok(Some(c)) <==> Reads(text, tokens, FieldsOf(c)) && Deliverable(c)
    {
      CompletionFound(text, tokens, c);
    }
    if ParseFields(tokens).Ok? {
      assert Reads(text, tokens, ParseFields(tokens).value) <==> InputOk(text) && !CasText(text);
    }
    assert Reads(text, tokens, NO_FIELDS) <==>
           InputOk(text) && !CasText(text) && ParseFields(tokens) == Ok(NO_FIELDS);
  }

  lemma ReadsMeaning(text: string, tokens: seq<Token>, fields: Fields)
    ensures Reads(text, tokens, fields) <==> InputOk(text) && !CasText(text) && ParseFields(tokens) == Ok(fields)
  {
    hide ParseFields, IsDocument, TokenText, CasText, XmlChar, Utf8Length;
    TokenTextMeaning(text);
    AcceptsExactlyDocuments(tokens, fields);
  }

  /** What may become a header value: text without a single control character, and not blank. */
  ghost predicate HeaderText(s: string) {
    && (forall i :: 0 <= i < |s| ==> 0x20 <= s[i] as int && !(0x7F <= s[i] as int < 0xA0))
    && exists i :: 0 <= i < |s| && !WhiteSpace(s[i])
  }

  /** A completion is delivered only as such text: no line break, no NUL, so no header can be injected. */
  lemma DeliverableMeaning(c: GpCompletion)
    ensures Deliverable(c) <==> HeaderText(c.username) && HeaderText(c.cookie)
    ensures Deliverable(c) ==> '\n' !in c.username && '\r' !in c.username && '\0' !in c.username
    ensures Deliverable(c) ==> '\n' !in c.cookie && '\r' !in c.cookie && '\0' !in c.cookie
  {
    hide WhiteSpace;
  }

  /** Every character but the controls (tab and line ends aside) and two noncharacters may stand in a document. */
  lemma XmlCharMeaning(c: char)
    ensures XmlChar(c) <==> !(c < ' ' && c !in "\t\n\r") && c as int !in {0xFFFE, 0xFFFF}
  {
  }

  /** The element names that matter, in any case of letters but for the token form. */
  lemma NamesMeaning(name: string)
    ensures Inert(name) <==> Lower(name) in ["script", "style", "template", "textarea"]
    ensures HtmlVoid(name) <==> Lower(name) in VOID_NAMES
    ensures CasName(name) <==> name == "cas-as" || name == "token"
  {
    hide EqualsIgnoringCase, Lower;
    LowerIs(name, "script");
    LowerIs(name, "style");
    LowerIs(name, "template");
    LowerIs(name, "textarea");
    forall k | 0 <= k < |VOID_NAMES|
      ensures EqualsIgnoringCase(name, VOID_NAMES[k]) <==> Lower(name) == VOID_NAMES[k]
    {
      LowerIs(name, VOID_NAMES[k]);
    }
  }

  lemma LowerIs(name: string, lower: string)
    requires forall i :: 0 <= i < |lower| ==> !('A' <= lower[i] <= 'Z')
    ensures EqualsIgnoringCase(name, lower) <==> Lower(name) == lower
  {
    if EqualsIgnoringCase(name, lower) {
      assert Lower(name) == lower;
    }
  }

  // ---------------------------------------------------------------- numeric references

  function Hex(n: nat): (s: string)
    ensures s != ""
  {
    if n < 16 then ["0123456789abcdef"[n]] else Hex(n / 16) + ["0123456789abcdef"[n % 16]]
  }

  lemma {:induction false} NumberReadsHex(n: nat)
    ensures Number(Hex(n), 16) == Some(n)
  {
    var s := Hex(n);
    HexDigitReads(n % 16);
    assert s[|s| - 1] == "0123456789abcdef"[n % 16];
    if n >= 16 {
      assert s[..|s| - 1] == Hex(n / 16);
      NumberReadsHex(n / 16);
    }
  }

  lemma HexDigitReads(d: nat)
    requires d < 16
    ensures DigitValue("0123456789abcdef"[d], 16) == Some(d)
  {
  }

  /** Hexadecimal digits count the same in either case of letters. */
  lemma {:induction false} HexIgnoresCase(s: string)
    ensures Number(Lower(s), 16) == Number(s, 16)
  {
    if s != "" {
      var n := |s| - 1;
      assert Lower(s)[..n] == Lower(s[..n]);
      HexIgnoresCase(s[..n]);
      assert DigitValue(LowerChar(s[n]), 16) == DigitValue(s[n], 16);
    }
  }

  /** What is read as a number: one or more digits and nothing else. */
  lemma {:induction false} NumberMeaning(s: string)
    ensures Number(s, 10).Some? <==> s != "" && forall i :: 0 <= i < |s| ==> '0' <= s[i] <= '9'
    ensures Number(s, 16).Some? <==>
            s != "" && forall i :: 0 <= i < |s| ==> '0' <= s[i] <= '9' || 'a' <= s[i] <= 'f' || 'A' <= s[i] <= 'F'
  {
    if |s| > 1 {
      NumberMeaning(s[..|s| - 1]);
    }
  }

  /** A character of the set may be written by its number, decimal or hexadecimal. */
  lemma CharactersHaveReferences(c: char)
    requires XmlChar(c)
    ensures Resolve("#" + Decimal(c as int)) == Some(c) && Resolve("#x" + Hex(c as int)) == Some(c)
  {
    hide Number, Decimal, Hex;
    var n := c as int;
    NumericResolves(c);
    NumberReadsHex(n);
    var name := "#x" + Hex(n);
    assert name[2..] == Hex(n) && name[0] == '#' && name[1] == 'x';
    assert n as char == c;
  }

  // ---------------------------------------------------------------- attribute values

  /** A piece of an attribute value: a character, or a reference by name. */
  datatype Part = Plain(c: char) | Ref(name: string)

  predicate GoodPart(p: Part) {
    match p
    case Plain(c) => c != '&'
    case Ref(name) => ';' !in name && Resolve(name).Some?
  }

  function PartText(p: Part): string {
    match p
    case Plain(c) => [c]
    case Ref(name) => "&" + name + ";"
  }

  function Joined(ps: seq<Part>): string {
    if ps == [] then "" else PartText(ps[0]) + Joined(ps[1..])
  }

  ghost predicate MadeOf(s: string, ps: seq<Part>) {
    Joined(ps) == s && forall i :: 0 <= i < |ps| ==> GoodPart(ps[i])
  }

  lemma {:induction false} FindIs(a: string, c: char, b: string)
    requires c !in a
    ensures Find(a + [c] + b, c) == |a|
  {
    if a != "" {
      assert (a + [c] + b)[1..] == a[1..] + [c] + b;
      FindIs(a[1..], c, b);
    }
  }

  lemma PlainInFront(s: string)
    requires s != "" && s[0] != '&'
    ensures ReferencesResolve(s) <==> ReferencesResolve(s[1..])
  {
    hide Resolve, ReferencesResolve;
    ResolvesFrom(s);
    ResolvesFrom(s[1..]);
    var at := Find(s[1..], '&');
    assert Find(s, '&') == at + 1;
    if at < |s[1..]| {
      assert s[at + 2..] == s[1..][at + 1..];
    }
  }

  /** What follows the first reference. */
  lemma ResolvesFrom(s: string)
    ensures var start := Find(s, '&');
            ReferencesResolve(s) <==>
            (start < |s| ==>
               var rest := s[start + 1..];
               var end := Find(rest, ';');
               end < |rest| && Resolve(rest[..end]).Some? && ReferencesResolve(rest[end + 1..]))
  {
    hide Resolve, Find;
  }

  lemma ReferenceInFront(name: string, s: string)
    requires ';' !in name && Resolve(name).Some?
    ensures ReferencesResolve("&" + name + ";" + s) <==> ReferencesResolve(s)
  {
    hide Resolve, ReferencesResolve;
    var whole := "&" + name + ";" + s;
    var rest := name + [';'] + s;
    assert whole[0] == '&' && whole[1..] == rest;
    FindIs(name, ';', s);
    assert rest[..|name|] == name && rest[|name| + 1..] == s;
    ResolvesFrom(whole);
  }

  lemma {:induction false} MadeOfGoodParts(ps: seq<Part>)
    requires forall i :: 0 <= i < |ps| ==> GoodPart(ps[i])
    ensures ReferencesResolve(Joined(ps))
  {
    hide Resolve, ReferencesResolve;
    if ps == [] {
      NothingResolves();
    } else {
      MadeOfGoodParts(ps[1..]);
      match ps[0]
      case Plain(c) =>
        assert Joined(ps)[0] == c && Joined(ps)[1..] == Joined(ps[1..]);
        PlainInFront(Joined(ps));
      case Ref(name) => ReferenceInFront(name, Joined(ps[1..]));
    }
  }

  lemma NothingResolves()
    ensures ReferencesResolve("")
  {
  }

  /** An attribute value is accepted exactly when it is made of characters and references that resolve. */
  lemma {:induction false} ReferencesMeaning(s: string)
    ensures ReferencesResolve(s) <==> exists ps :: MadeOf(s, ps)
    decreases |s|
  {
    hide MadeOf, Resolve, ReferencesResolve;
    ResolvesFrom(s);
    if ps :| MadeOf(s, ps) {
      MadeOfResolves(s, ps);
    }
    if ReferencesResolve(s) {
      if s == "" {
        MadeOfNothing();
      } else if s[0] != '&' {
        PlainInFront(s);
        ReferencesMeaning(s[1..]);
        var ps :| MadeOf(s[1..], ps);
        OneMorePart(Plain(s[0]), s[1..], ps);
        assert s == [s[0]] + s[1..];
      } else {
        var rest := s[1..];
        var end := Find(rest, ';');
        ReferencesMeaning(rest[end + 1..]);
        var ps :| MadeOf(rest[end + 1..], ps);
        OneMorePart(Ref(rest[..end]), rest[end + 1..], ps);
        assert s == "&" + rest[..end] + ";" + rest[end + 1..];
      }
    }
  }

  lemma MadeOfResolves(s: string, ps: seq<Part>)
    requires MadeOf(s, ps)
    ensures ReferencesResolve(s)
  {
    MadeOfGoodParts(ps);
  }

  lemma MadeOfNothing()
    ensures MadeOf("", [])
  {
  }

  lemma OneMorePart(p: Part, s: string, ps: seq<Part>)
    requires GoodPart(p) && MadeOf(s, ps)
    ensures MadeOf(PartText(p) + s, [p] + ps)
  {
    hide Resolve;
    assert ([p] + ps)[1..] == ps;
  }

  /** All attributes of an element are accepted exactly when each was read, and is such a value without markup. */
  lemma AttributesMeaning(a: Attributes)
    ensures AttributesOk(a) <==>
            forall v :: v in a.values ==> v.Some? && '<' !in v.value && exists ps :: MadeOf(v.value, ps)
  {
    hide ReferencesResolve, MadeOf;
    forall v | v in a.values && v.Some?
      ensures ReferencesResolve(v.value) <==> exists ps :: MadeOf(v.value, ps)
    {
      ReferencesMeaning(v.value);
    }
  }

  lemma FieldErrors(tokens: seq<Token>)
    ensures ParseFields(tokens).Err? ==> ParseFields(tokens).code in {InvalidInput, UnsupportedAuthentication}
  {
    ErrorCodes(tokens, START, 0);
  }

  lemma CompletionFound(text: string, tokens: seq<Token>, c: GpCompletion)
    ensures Parse(text, tokens) == Ok(Some(c)) <==> Reads(text, tokens, FieldsOf(c)) && Deliverable(c)
  {
    hide ParseFields, Reads, Deliverable, CasText, InputOk, Decide, FieldsOf;
    ReadsMeaning(text, tokens, FieldsOf(c));
    if ParseFields(tokens).Ok? {
      DecideMeaning(ParseFields(tokens).value, c);
    }
  }
}
