/**
 Printed completions as text: the document a printer writes, its characters and its size,
 and the two-way result between the printer and the parser.
 */
module CompletionText {
  import opened Common
  import opened Completion
  import opened CompletionResult

  // ---------------------------------------------------------------- writing events

  function WriteToken(t: Token): string
    decreases t, 0
  {
    match t
    case Open(name, attributes, empty) => "<" + name + attributes.raw + (if empty then "/>" else ">")
    case Close(name) => "</" + name + ">"
    case Text(text) => text
    case CData(text) => "<![CDATA[" + text + "]]>"
    case Reference(name) => "&" + name + ";"
    case Comment(inner, _) => "<!--" + Write(inner) + "-->"
    case Forbidden => ""
    case Broken => ""
  }

  function Write(ts: seq<Token>): string
    decreases ts, 1
  {
    if ts == [] then "" else WriteToken(ts[0]) + Write(ts[1..])
  }

  /** The document of a printed completion. */
  function Document(user: seq<Piece>, kind: CookieKind, cookie: seq<Piece>, commented: bool): string {
    Write(Print(user, kind, cookie, commented))
  }

  /** The reader takes the written piece for the event it was written from. */
  predicate PieceReads(p: Piece, commented: bool) {
    match p
    case Raw(text) => text != "" && '<' !in text && '&' !in text && (commented ==> !Contains(text, "--"))
    case Section(text) => !Contains(text, "]]>") && (commented ==> !Contains(text, "--"))
    case _ => true
  }

  /** All pieces are read as written; two raw ones in a row would be read as one. */
  predicate Legible(ps: seq<Piece>, commented: bool) {
    && (forall i :: 0 <= i < |ps| ==> Printable(ps[i]) && PieceReads(ps[i], commented))
    && (forall i :: 0 <= i < |ps| - 1 ==> !(ps[i].Raw? && ps[i + 1].Raw?))
  }

  // ---------------------------------------------------------------- characters and size of the document

  predicate AllXml(s: string) {
    forall i :: 0 <= i < |s| ==> XmlChar(s[i])
  }

  lemma AllXmlJoin(a: string, b: string)
    ensures AllXml(a + b) <==> AllXml(a) && AllXml(b)
  {
    assert forall i :: 0 <= i < |a| ==> (a + b)[i] == a[i];
    assert forall i :: 0 <= i < |b| ==> (a + b)[|a| + i] == b[i];
  }

  lemma {:induction false} Utf8Join(a: string, b: string)
    ensures Utf8Length(a + b) == Utf8Length(a) + Utf8Length(b)
  {
    if a == "" {
      assert a + b == b;
    } else {
      assert (a + b)[1..] == a[1..] + b;
      Utf8Join(a[1..], b);
    }
  }

  lemma {:induction false} Utf8Bound(s: string)
    ensures |s| <= Utf8Length(s) <= 4 * |s|
  {
    if s != "" {
      Utf8Bound(s[1..]);
    }
  }

  lemma {:induction false} WriteJoin(a: seq<Token>, b: seq<Token>)
    ensures Write(a + b) == Write(a) + Write(b)
  {
    if a == [] {
      assert a + b == b;
    } else {
      assert (a + b)[0] == a[0] && (a + b)[1..] == a[1..] + b;
      WriteJoin(a[1..], b);
    }
  }

  /** What a text adds to a document: its characters and its bytes. */
  datatype Measure = Measure(clean: bool, bytes: nat) {
    function Plus(other: Measure): Measure {
      Measure(clean && other.clean, bytes + other.bytes)
    }
  }

  ghost function MeasureOf(s: string): Measure {
    Measure(AllXml(s), Utf8Length(s))
  }

  lemma MeasureJoin(a: string, b: string)
    ensures MeasureOf(a + b) == MeasureOf(a).Plus(MeasureOf(b))
  {
    AllXmlJoin(a, b);
    Utf8Join(a, b);
  }

  function WritePieces(ps: seq<Piece>): string {
    Write(TokensOf(ps))
  }

  function Tag(name: string): string {
    "<" + name + ">"
  }

  function EndTag(name: string): string {
    "</" + name + ">"
  }

  const STATUS: string := "saml-auth-status"
  const USERNAME: string := "saml-username"

  /** The document without its two values: their elements and everything around them. */
  function Frame(kind: CookieKind, commented: bool): (string, string, string) {
    ((if commented then "<!--" else "") + (Tag(STATUS) + "1" + EndTag(STATUS) + Tag(USERNAME)),
     EndTag(USERNAME) + Tag(CookieName(kind)),
     EndTag(CookieName(kind)) + (if commented then "-->" else ""))
  }

  lemma FieldText(name: string, ps: seq<Piece>)
    ensures Write(PrintField(name, ps)) == Tag(name) + WritePieces(ps) + EndTag(name)
  {
    hide Write;
    var (open, close) := (Open(name, Attributes("", []), false), Close(name));
    WriteJoin([open] + TokensOf(ps), [close]);
    WriteJoin([open], TokensOf(ps));
    OneToken(open);
    OneToken(close);
    assert "<" + name + "" + ">" == "<" + name + ">";
  }

  lemma OneToken(t: Token)
    ensures Write([t]) == WriteToken(t)
  {
    assert [t][1..] == [];
    assert WriteToken(t) + Write([]) == WriteToken(t);
  }

  lemma StatusText()
    ensures WritePieces([Raw("1")]) == "1"
  {
    assert TokensOf([Raw("1")]) == [Text("1")];
    OneToken(Text("1"));
  }

  lemma BodyText(user: seq<Piece>, kind: CookieKind, cookie: seq<Piece>)
    ensures Write(Print(user, kind, cookie, false))
         == Tag(STATUS) + "1" + EndTag(STATUS) + (Tag(USERNAME) + WritePieces(user) + EndTag(USERNAME))
            + (Tag(CookieName(kind)) + WritePieces(cookie) + EndTag(CookieName(kind)))
  {
    hide Write, WritePieces, PrintField, Tag, EndTag;
    var first, second := PrintField(STATUS, [Raw("1")]), PrintField(USERNAME, user);
    var third := PrintField(CookieName(kind), cookie);
    FieldText(STATUS, [Raw("1")]);
    StatusText();
    FieldText(USERNAME, user);
    FieldText(CookieName(kind), cookie);
    WriteJoin(first + second, third);
    WriteJoin(first, second);
  }

  /** The document is its frame around the two written values. */
  lemma DocumentText(user: seq<Piece>, kind: CookieKind, cookie: seq<Piece>, commented: bool)
    ensures var (a, b, c) := Frame(kind, commented);
            Document(user, kind, cookie, commented) == a + WritePieces(user) + b + WritePieces(cookie) + c
  {
    hide Document, WritePieces, Tag, EndTag;
    PlainDocument(user, kind, cookie);
    if commented {
      CommentText(user, kind, cookie);
      var (a, b, c) := Frame(kind, false);
      FrameEnclosed(kind);
      Enclose(a, WritePieces(user), b, WritePieces(cookie), c);
    }
  }

  lemma FrameEnclosed(kind: CookieKind)
    ensures var (a, b, c) := Frame(kind, false);
            Frame(kind, true) == ("<!--" + a, b, c + "-->")
  {
    hide Tag, EndTag;
    var head := Tag(STATUS) + "1" + EndTag(STATUS) + Tag(USERNAME);
    var end := EndTag(CookieName(kind));
    assert "" + head == head && end + "" == end;
  }

  lemma PlainDocument(user: seq<Piece>, kind: CookieKind, cookie: seq<Piece>)
    ensures var (a, b, c) := Frame(kind, false);
            Document(user, kind, cookie, false) == a + WritePieces(user) + b + WritePieces(cookie) + c
  {
    hide Write, WritePieces, Tag, EndTag, Print, Frame;
    BodyText(user, kind, cookie);
    FrameText(WritePieces(user), kind, WritePieces(cookie));
  }

  lemma FrameText(u: string, kind: CookieKind, v: string)
    ensures var (a, b, c) := Frame(kind, false);
            Tag(STATUS) + "1" + EndTag(STATUS) + (Tag(USERNAME) + u + EndTag(USERNAME))
            + (Tag(CookieName(kind)) + v + EndTag(CookieName(kind))) == a + u + b + v + c
  {
    hide Tag, EndTag;
    var open := Tag(STATUS) + "1" + EndTag(STATUS);
    var (user, cookie) := (Tag(USERNAME), Tag(CookieName(kind)));
    Regroup(open, user, u, EndTag(USERNAME), cookie, v, EndTag(CookieName(kind)));
    assert "" + (open + user) == open + user;
    assert EndTag(CookieName(kind)) + "" == EndTag(CookieName(kind));
  }

  lemma Regroup(a: string, b: string, c: string, d: string, e: string, f: string, g: string)
    ensures a + (b + c + d) + (e + f + g) == (a + b) + c + (d + e) + f + g
  {
    assert a + (b + c + d) == a + b + c + d;
    assert a + b + c + d + (e + f + g) == a + b + c + d + e + f + g;
    assert a + b + c + (d + e) == a + b + c + d + e;
  }

  lemma Enclose(a: string, b: string, c: string, d: string, e: string)
    ensures "<!--" + (a + b + c + d + e) + "-->" == ("<!--" + a) + b + c + d + (e + "-->")
  {
    assert "<!--" + (a + b + c + d + e) == ("<!--" + a) + b + c + d + e;
    assert ("<!--" + a) + b + c + d + e + "-->" == ("<!--" + a) + b + c + d + (e + "-->");
  }

  lemma CommentText(user: seq<Piece>, kind: CookieKind, cookie: seq<Piece>)
    ensures Document(user, kind, cookie, true) == "<!--" + Document(user, kind, cookie, false) + "-->"
  {
    hide Write, PrintField;
    OneToken(Comment(Print(user, kind, cookie, false), true));
  }

  /** An acceptable input: its values consist of XML characters and it fits the input limit. */
  ghost predicate Fits(user: seq<Piece>, kind: CookieKind, cookie: seq<Piece>, commented: bool) {
    var (a, b, c) := Frame(kind, commented);
    && AllXml(WritePieces(user)) && AllXml(WritePieces(cookie))
    && Utf8Length(WritePieces(user)) + Utf8Length(WritePieces(cookie))
       + Utf8Length(a) + Utf8Length(b) + Utf8Length(c) <= MAX_INPUT
  }

  lemma TagIsXml(name: string)
    requires AllXml(name) && |name| <= 21
    ensures AllXml(Tag(name)) && AllXml(EndTag(name)) && |Tag(name)| <= 23 && |EndTag(name)| <= 24
    ensures Tag(name) != "" && Tag(name)[0] == '<'
  {
    AllXmlJoin("<" + name, ">");
    AllXmlJoin("<", name);
    AllXmlJoin("</" + name, ">");
    AllXmlJoin("</", name);
  }

  lemma NamesAreXml(kind: CookieKind)
    ensures AllXml(STATUS) && AllXml(USERNAME) && AllXml(CookieName(kind))
    ensures |STATUS| <= 21 && |USERNAME| <= 21 && |CookieName(kind)| <= 21
  {
  }

  lemma FrameIsXml(kind: CookieKind, commented: bool)
    ensures var (a, b, c) := Frame(kind, commented);
            AllXml(a) && AllXml(b) && AllXml(c) && a != "" && a[0] == '<' && |a| + |b| + |c| <= 200
  {
    hide AllXml, Tag, EndTag, CookieName;
    NamesAreXml(kind);
    TagIsXml(CookieName(kind));
    TagIsXml(USERNAME);
    PunctuationIsXml();
    FrameHead();
    var open := Tag(STATUS) + "1" + EndTag(STATUS) + Tag(USERNAME);
    var before := if commented then "<!--" else "";
    AllXmlJoin(before, open);
    assert (before + open)[0] == '<';
    AllXmlJoin(EndTag(USERNAME), Tag(CookieName(kind)));
    AllXmlJoin(EndTag(CookieName(kind)), if commented then "-->" else "");
  }

  lemma FrameHead()
    ensures var open := Tag(STATUS) + "1" + EndTag(STATUS) + Tag(USERNAME);
            AllXml(open) && 0 < |open| <= 80 && open[0] == '<'
  {
    hide AllXml, Tag, EndTag;
    NamesAreXml(Prelogin);
    TagIsXml(STATUS);
    TagIsXml(USERNAME);
    PunctuationIsXml();
    AllXmlJoin(Tag(STATUS) + "1" + EndTag(STATUS), Tag(USERNAME));
    AllXmlJoin(Tag(STATUS) + "1", EndTag(STATUS));
    AllXmlJoin(Tag(STATUS), "1");
    FirstStays(Tag(STATUS), "1");
    FirstStays(Tag(STATUS) + "1", EndTag(STATUS));
    FirstStays(Tag(STATUS) + "1" + EndTag(STATUS), Tag(USERNAME));
  }

  lemma FirstStays(a: string, b: string)
    requires a != ""
    ensures (a + b)[0] == a[0]
  {
  }

  lemma PunctuationIsXml()
    ensures AllXml("1") && AllXml("<!--") && AllXml("-->") && AllXml("")
  {
  }

  /** The document passes the input checks exactly when it fits, and it is never mistaken for a token text. */
  lemma DocumentInput(user: seq<Piece>, kind: CookieKind, cookie: seq<Piece>, commented: bool)
    ensures InputOk(Document(user, kind, cookie, commented)) <==> Fits(user, kind, cookie, commented)
    ensures Fits(user, kind, cookie, commented) <==>
            && AllXml(WritePieces(user)) && AllXml(WritePieces(cookie))
            && Utf8Length(Document(user, kind, cookie, commented)) <= MAX_INPUT
    ensures Utf8Length(Document(user, kind, cookie, commented))
         <= 800 + Utf8Length(WritePieces(user)) + Utf8Length(WritePieces(cookie))
    ensures !CasText(Document(user, kind, cookie, commented))
  {
    hide Document, WritePieces, Frame, Utf8Length, AllXml;
      var (a, b, c) := Frame(kind, commented);
    var (u, v) := (WritePieces(user), WritePieces(cookie));
    FrameIsXml(kind, commented);
    DocumentText(user, kind, cookie, commented);
    MeasureJoin(a, u);
    MeasureJoin(a + u, b);
    MeasureJoin(a + u + b, v);
    MeasureJoin(a + u + b + v, c);
    Utf8Bound(a);
    Utf8Bound(b);
    Utf8Bound(c);
    var text := Document(user, kind, cookie, commented);
    InputMeaning(text);
    assert text[0] == '<';
  }

  lemma InputMeaning(text: string)
    ensures InputOk(text) <==> text != "" && Utf8Length(text) <= MAX_INPUT && AllXml(text)
  {
  }

  /** Which pieces are written in XML characters: all references, and raw text and sections of such characters. */
  lemma PieceCharacters(p: Piece)
    requires Printable(p)
    ensures AllXml(WriteToken(PieceToken(p))) <==> (p.Raw? || p.Section? ==> AllXml(PieceText(p)))
  {
    match p
    case Raw(text) =>
    case Section(text) =>
      AllXmlJoin("<![CDATA[" + text, "]]>");
      AllXmlJoin("<![CDATA[", text);
    case Numeric(c) =>
      var digits := Decimal(c as int);
      AllXmlJoin("&" + ("#" + digits), ";");
      AllXmlJoin("&", "#" + digits);
      AllXmlJoin("#", digits);
    case Entity(c) =>
  }

  // ---------------------------------------------------------------- the printer and the parser

  /**
   Parsing inverts printing: the document of a completion, written with any mix of escapes,
   on its own or inside a comment, parses back to that completion exactly when the
   completion is deliverable and the document consists of XML characters and keeps the
   input and event limits.
   */
  lemma ParseInvertsPrint(user: seq<Piece>, kind: CookieKind, cookie: seq<Piece>, commented: bool)
    requires Legible(user, commented) && Legible(cookie, commented)
    ensures var c := GpCompletion(TextOf(user), kind, TextOf(cookie));
            Parse(Document(user, kind, cookie, commented), Print(user, kind, cookie, commented)) == Ok(Some(c)) <==>
            && Deliverable(c) && Fits(user, kind, cookie, commented)
            && PrintedSize(user, cookie, commented) + 1 <= MAX_EVENTS
  {
    hide Print, Document, Fits, Deliverable, InputOk, CasText, Decide, ParseFields;
    var text := Document(user, kind, cookie, commented);
    DocumentInput(user, kind, cookie, commented);
    if InputOk(text) {
      PrintedEventsParseBack(text, user, kind, cookie, commented);
    }
  }

  // ---------------------------------------------------------------- escaping

  predicate Plain(c: char, commented: bool) {
    c !in "&<>'\"" && (commented ==> c != '-')
  }

  /** How many plain characters a text begins with. */
  function PlainRun(s: string, commented: bool): (n: nat)
    ensures n <= |s| && (forall i :: 0 <= i < n ==> Plain(s[i], commented))
    ensures n < |s| ==> !Plain(s[n], commented)
  {
    if s == "" || !Plain(s[0], commented) then 0 else 1 + PlainRun(s[1..], commented)
  }

  /** Runs of plain characters as they are, markup characters as entities, and a hyphen in a comment by its number. */
  function Escape(s: string, commented: bool): (ps: seq<Piece>)
    decreases |s|
  {
    if s == "" then []
    else if !Plain(s[0], commented) then
      [if s[0] == '-' then Numeric(s[0]) else Entity(s[0])] + Escape(s[1..], commented)
    else
      var n := PlainRun(s, commented);
      [Raw(s[..n])] + Escape(s[n..], commented)
  }

  /** The pieces are legible, stand for the text and are at most six times as long; raw ones keep apart. */
  ghost predicate Escapes(ps: seq<Piece>, s: string, commented: bool) {
    && Legible(ps, commented) && TextOf(ps) == s && |ps| <= |s|
    && Utf8Length(WritePieces(ps)) <= 6 * |s|
    && (AllXml(s) <==> AllXml(WritePieces(ps)))
    && (ps != [] && ps[0].Raw? ==> s != "" && Plain(s[0], commented))
  }

  /** An escaped text is legible, keeps its characters and grows at most sixfold. */
  lemma {:induction false} EscapeMeaning(s: string, commented: bool)
    ensures Escapes(Escape(s, commented), s, commented)
    decreases |s|
  {
    if s != "" {
      hide Escapes, Heads;
      var n := if Plain(s[0], commented) then PlainRun(s, commented) else 1;
      var ps, rest := Escape(s, commented), Escape(s[n..], commented);
      HeadPiece(s, n, commented);
      HeadsCount(ps[0], s, n, commented);
      EscapeMeaning(s[n..], commented);
      EscapeFirst(ps[0], rest, s, n, commented);
    }
  }

  lemma HeadsCount(p: Piece, s: string, n: nat, commented: bool)
    requires Heads(p, s, n, commented)
    ensures 0 < n <= |s|
  {
  }

  lemma EscapeFirst(p: Piece, rest: seq<Piece>, s: string, n: nat, commented: bool)
    requires Heads(p, s, n, commented) && Escapes(rest, s[n..], commented)
    ensures Escapes([p] + rest, s, commented)
  {
    hide Legible, WritePieces, TextOf, Utf8Length, AllXml, WriteToken, PieceText, PieceToken, PieceReads, Printable,
      Plain;
    assert s == s[..n] + s[n..];
    WrittenFirst(p, rest);
    AllXmlJoin(s[..n], s[n..]);
    LegibleFirst(p, rest, commented);
  }

  lemma WrittenFirst(p: Piece, rest: seq<Piece>)
    ensures WritePieces([p] + rest) == WriteToken(PieceToken(p)) + WritePieces(rest)
    ensures MeasureOf(WritePieces([p] + rest))
         == MeasureOf(WriteToken(PieceToken(p))).Plus(MeasureOf(WritePieces(rest)))
    ensures TextOf([p] + rest) == PieceText(p) + TextOf(rest)
  {
    assert ([p] + rest)[0] == p && ([p] + rest)[1..] == rest;
    assert TokensOf([p] + rest) == [PieceToken(p)] + TokensOf(rest);
    assert ([PieceToken(p)] + TokensOf(rest))[1..] == TokensOf(rest);
    MeasureJoin(WriteToken(PieceToken(p)), WritePieces(rest));
  }

  lemma LegibleFirst(p: Piece, rest: seq<Piece>, commented: bool)
    requires Printable(p) && PieceReads(p, commented) && Legible(rest, commented)
    requires p.Raw? && rest != [] ==> !rest[0].Raw?
    ensures Legible([p] + rest, commented)
  {
    hide Printable, PieceReads;
    var ps := [p] + rest;
    assert forall i :: 0 < i < |ps| ==> ps[i] == rest[i - 1];
  }

  /** The first piece of an escaped text: it stands for the first n characters. */
  ghost predicate Heads(p: Piece, s: string, n: nat, commented: bool) {
    && 0 < n <= |s|
    && Printable(p) && PieceReads(p, commented) && PieceText(p) == s[..n]
    && Utf8Length(WriteToken(PieceToken(p))) <= 6 * n
    && (AllXml(s[..n]) <==> AllXml(WriteToken(PieceToken(p))))
    && (p.Raw? ==> Plain(s[0], commented) && (n < |s| ==> !Plain(s[n], commented)))
  }

  lemma HeadPiece(s: string, n: nat, commented: bool)
    requires s != "" && n == if Plain(s[0], commented) then PlainRun(s, commented) else 1
    ensures Escape(s, commented) != [] && Heads(Escape(s, commented)[0], s, n, commented)
    ensures Escape(s, commented) == [Escape(s, commented)[0]] + Escape(s[n..], commented)
  {
    hide Heads;
    if Plain(s[0], commented) {
      RawHead(s, n, commented);
    } else if s[0] == '-' {
      HyphenHead(s, commented);
    } else {
      EntityHead(s, commented);
    }
  }

  lemma RawHead(s: string, n: nat, commented: bool)
    requires s != "" && Plain(s[0], commented) && n == PlainRun(s, commented)
    ensures Heads(Raw(s[..n]), s, n, commented)
  {
    var text := s[..n];
    Utf8Bound(text);
    assert forall i :: 0 <= i < n ==> text[i] == s[i];
    assert '<' !in text && '&' !in text;
    if commented {
      NoHyphens(text);
    }
  }

  lemma NoHyphens(s: string)
    requires '-' !in s
    ensures !Contains(s, "--")
  {
    forall i | 0 <= i <= |s| ensures !("--" <= s[i..]) {
      if i < |s| {
        assert s[i..][0] == s[i];
      }
    }
  }

  lemma HyphenHead(s: string, commented: bool)
    requires s != "" && s[0] == '-' && !Plain(s[0], commented)
    ensures Heads(Numeric('-'), s, 1, commented)
  {
    assert s[..1] == [s[0]];
    assert Decimal(45) == "45" by {
      assert Decimal(4) == "4";
    }
    assert WriteToken(PieceToken(Numeric('-'))) == "&#45;";
    AsciiLength("&#45;");
    PieceCharacters(Numeric('-'));
  }

  lemma EntityHead(s: string, commented: bool)
    requires s != "" && !Plain(s[0], commented) && s[0] != '-'
    ensures Heads(Entity(s[0]), s, 1, commented)
  {
    assert s[..1] == [s[0]];
    AsciiLength(WriteToken(PieceToken(Entity(s[0]))));
    PieceCharacters(Entity(s[0]));
  }

  lemma {:induction false} AsciiLength(s: string)
    requires forall i :: 0 <= i < |s| ==> s[i] as int < 0x80
    ensures Utf8Length(s) == |s|
  {
    if s != "" {
      AsciiLength(s[1..]);
    }
  }

  /**
   The escaped document of any completion, on its own or inside a comment, parses back to it
   exactly when the completion is deliverable and consists of XML characters and the document
   keeps the size and event limits; a sixth of the size limit is always enough.
   */
  lemma EscapedCompletionParsesBack(c: GpCompletion, commented: bool)
    ensures var (user, cookie) := (Escape(c.username, commented), Escape(c.cookie, commented));
            var text := Document(user, c.kind, cookie, commented);
            && (Parse(text, Print(user, c.kind, cookie, commented)) == Ok(Some(c)) <==>
                && Deliverable(c) && AllXml(c.username) && AllXml(c.cookie)
                && Utf8Length(text) <= MAX_INPUT && PrintedSize(user, cookie, commented) + 1 <= MAX_EVENTS)
            && Utf8Length(text) <= 6 * (|c.username| + |c.cookie|) + 800
            && |user| <= |c.username| && |cookie| <= |c.cookie|
  {
    hide Parse, Print, Document, Escape, TextOf, Deliverable, Legible, AllXml, WritePieces, Fits;
      var (user, cookie) := (Escape(c.username, commented), Escape(c.cookie, commented));
    EscapeMeaning(c.username, commented);
    EscapeMeaning(c.cookie, commented);
    DocumentInput(user, c.kind, cookie, commented);
    ParseInvertsPrint(user, c.kind, cookie, commented);
  }
}
