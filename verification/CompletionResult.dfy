/**
 From the four completion fields to a decision (`parse_completion_if_present`), and the
 printer the parser inverts.
 */
module CompletionResult {
  import opened Common
  import opened Completion
  import opened CompletionDocument

  const MAX_INPUT: nat := 1024 * 1024

  datatype CookieKind = Prelogin | Portal

  function CookieName(kind: CookieKind): string {
    match kind
    case Prelogin => "prelogin-cookie"
    case Portal => "portal-userauthcookie"
  }

  datatype GpCompletion = GpCompletion(username: string, kind: CookieKind, cookie: string)

  predicate Control(c: char) {
    var n := c as int;
    n <= 0x1F || 0x7F <= n <= 0x9F
  }

  predicate Visible(s: string) {
    exists i :: 0 <= i < |s| && !WhiteSpace(s[i])
  }

  predicate HeaderSafe(s: string) {
    forall i :: 0 <= i < |s| ==> !Control(s[i])
  }

  /** The checks on a field table, in the order of the source. */
  function Decide(fields: Fields): Result<Option<GpCompletion>> {
    if fields == NO_FIELDS then Ok(None)
    else if fields[0] != Some("1") then Err(AuthenticationRejected)
    else if fields[1].None? || !Visible(fields[1].value) then Err(InvalidInput)
    else if fields[2].Some? == fields[3].Some? then Err(InvalidInput)
    else
      var (kind, cookie) := if fields[2].Some? then (Prelogin, fields[2].value) else (Portal, fields[3].value);
      if !Visible(cookie) || !HeaderSafe(fields[1].value) || !HeaderSafe(cookie) then Err(InvalidInput)
      else Ok(Some(GpCompletion(fields[1].value, kind, cookie)))
  }

  function TrimStart(s: string): string {
    if s != "" && WhiteSpace(s[0]) then TrimStart(s[1..]) else s
  }

  predicate InputOk(text: string) {
    text != "" && Utf8Length(text) <= MAX_INPUT && forall i :: 0 <= i < |text| ==> XmlChar(text[i])
  }

  predicate CasText(text: string) {
    "cas-as" <= TrimStart(text)
  }

  /** `text` is the document, `tokens` the events the reader makes of it. */
  function Parse(text: string, tokens: seq<Token>): Result<Option<GpCompletion>> {
    if !InputOk(text) then Err(InvalidInput)
    else if CasText(text) then Err(UnsupportedAuthentication)
    else
      match ParseFields(tokens)
      case Err(e) => Err(e)
      case Ok(fields) => Decide(fields)
  }

  method ParseCompletionIfPresent(text: string, tokens: seq<Token>) returns (r: Result<Option<GpCompletion>>)
    ensures r == Parse(text, tokens)
  {
    if !InputOk(text) {
      return Err(InvalidInput);
    }
    if CasText(text) {
      return Err(UnsupportedAuthentication);
    }
    var fields := new Option<string>[4](_ => None);
    assert fields[..] == NO_FIELDS;
    var parsed, _ := ParseFragment(tokens, fields, 0, 0);
    if parsed.Err? {
      return Err(parsed.code);
    }
    assert ParseFields(tokens) == Ok(fields[..]);
    if fields[0].None? && fields[1].None? && fields[2].None? && fields[3].None? {
      assert fields[..] == NO_FIELDS;
      return Ok(None);
    }
    if fields[0] != Some("1") {
      return Err(AuthenticationRejected);
    }
    if fields[1].None? || !Visible(fields[1].value) || fields[2].Some? == fields[3].Some? {
      return Err(InvalidInput);
    }
    var username := fields[1].value;
    var kind := if fields[2].Some? then Prelogin else Portal;
    var cookie := if fields[2].Some? then fields[2].value else fields[3].value;
    if !Visible(cookie) || !HeaderSafe(username) || !HeaderSafe(cookie) {
      return Err(InvalidInput);
    }
    return Ok(Some(GpCompletion(username, kind, cookie)));
  }

  /** A completion that may be handed to native code as header values. */
  predicate Deliverable(c: GpCompletion) {
    Visible(c.username) && Visible(c.cookie) && HeaderSafe(c.username) && HeaderSafe(c.cookie)
  }

  function FieldsOf(c: GpCompletion): Fields {
    if c.kind == Prelogin then [Some("1"), Some(c.username), Some(c.cookie), None]
    else [Some("1"), Some(c.username), None, Some(c.cookie)]
  }

  /** A table decides to a completion exactly when it is that completion's own table. */
  lemma DecideMeaning(fields: Fields, c: GpCompletion)
    ensures Decide(fields) == Ok(Some(c)) <==> fields == FieldsOf(c) && Deliverable(c)
  {
  }

  // ---------------------------------------------------------------- the printer

  /** One piece of a field value and how it is written. */
  datatype Piece =
    | Raw(text: string)
    | Section(text: string)
    | Numeric(c: char)
    | Entity(c: char)

  predicate Printable(p: Piece) {
    match p
    case Raw(_) => true
    case Section(_) => true
    case Numeric(c) => XmlChar(c)
    case Entity(c) => c in "&<>'\""
  }

  function PieceText(p: Piece): string {
    match p
    case Raw(text) => text
    case Section(text) => text
    case Numeric(c) => [c]
    case Entity(c) => [c]
  }

  function PieceToken(p: Piece): Token {
    match p
    case Raw(text) => Text(text)
    case Section(text) => CData(text)
    case Numeric(c) => Reference("#" + Decimal(c as int))
    case Entity(c) =>
      Reference(if c == '&' then "amp" else if c == '<' then "lt" else if c == '>' then "gt"
                else if c == '\'' then "apos" else "quot")
  }

  function TextOf(ps: seq<Piece>): string {
    if ps == [] then "" else PieceText(ps[0]) + TextOf(ps[1..])
  }

  function TokensOf(ps: seq<Piece>): (ts: seq<Token>)
    ensures |ts| == |ps|
  {
    if ps == [] then [] else [PieceToken(ps[0])] + TokensOf(ps[1..])
  }

  function PrintField(name: string, ps: seq<Piece>): seq<Token> {
    [Open(name, Attributes("", []), false)] + TokensOf(ps) + [Close(name)]
  }

  /** The completion as three elements, on their own or inside one comment. */
  function Print(user: seq<Piece>, kind: CookieKind, cookie: seq<Piece>, commented: bool): seq<Token> {
    var body :=
      PrintField("saml-auth-status", [Raw("1")]) + PrintField("saml-username", user)
      + PrintField(CookieName(kind), cookie);
    if commented then [Comment(body, true)] else body
  }

  // ---------------------------------------------------------------- references read back

  lemma {:induction false} NumberReadsDecimal(n: nat)
    ensures Number(Decimal(n), 10) == Some(n)
  {
    var s := Decimal(n);
    assert DigitValue(s[|s| - 1], 10) == Some(n % 10);
    if n >= 10 {
      assert s[..|s| - 1] == Decimal(n / 10);
      NumberReadsDecimal(n / 10);
    }
  }

  lemma PieceReadsBack(p: Piece)
    requires Printable(p)
    ensures Character(PieceToken(p)) && LeafText(PieceToken(p)) == PieceText(p)
  {
    hide Resolve;
    if p.Numeric? {
      NumericResolves(p.c);
    } else if p.Entity? {
      EntityResolves(p);
    }
  }

  lemma NumericResolves(c: char)
    requires XmlChar(c)
    ensures Resolve("#" + Decimal(c as int)) == Some(c)
  {
    hide Number, Decimal;
    var n := c as int;
    var name := "#" + Decimal(n);
    assert name[1..] == Decimal(n);
    NumberReadsDecimal(n);
    assert n as char == c;
  }

  lemma EntityResolves(p: Piece)
    requires p.Entity? && Printable(p)
    ensures PieceToken(p).Reference? && Resolve(PieceToken(p).name) == Some(p.c)
  {
    hide Number, Decimal;
  }

  // ---------------------------------------------------------------- round trip

  function PiecesForest(ps: seq<Piece>): Forest {
    if ps == [] then Nil else Leaf(PieceToken(ps[0]), PiecesForest(ps[1..]))
  }

  lemma {:induction false} PiecesRender(ps: seq<Piece>)
    requires forall i :: 0 <= i < |ps| ==> Printable(ps[i])
    ensures Render(PiecesForest(ps)) == TokensOf(ps)
    ensures Shaped(PiecesForest(ps), false) && Content(PiecesForest(ps))
    ensures Value(PiecesForest(ps)) == TextOf(ps)
    ensures Size(PiecesForest(ps)) == |ps|
  {
    if ps != [] {
      PieceReadsBack(ps[0]);
      PiecesRender(ps[1..]);
    }
  }

  function FieldForest(name: string, ps: seq<Piece>, rest: Forest): Forest {
    Element(name, Attributes("", []), PiecesForest(ps), rest)
  }

  lemma FieldRenders(i: nat, ps: seq<Piece>, rest: Forest)
    requires i < 4 && Shaped(rest, false)
    requires forall k :: 0 <= k < |ps| ==> Printable(ps[k])
    ensures var f := FieldForest(FIELD_NAMES[i], ps, rest);
            && Render(f) == PrintField(FIELD_NAMES[i], ps) + Render(rest)
            && Shaped(f, false)
            && (Valid(f, false) <==> Valid(rest, false))
            && Size(f) == 2 + |ps| + Size(rest)
            && Depth(f) == Max(1, Depth(rest))
            && Entries(f, false) == [Entry(i, TextOf(ps))] + Entries(rest, false)
  {
    hide Render, Shaped, Valid, Size, Depth, Entries, HtmlVoid, Inert, FieldIndex, PiecesForest, TextOf, Value;
    PiecesRender(ps);
    FieldName(i);
    FieldElement(FIELD_NAMES[i], i, PiecesForest(ps), rest);
  }

  lemma FieldElement(name: string, i: nat, kids: Forest, rest: Forest)
    requires !HtmlVoid(name) && !Inert(name) && FieldIndex(name) == Some(i)
    requires Shaped(kids, false) && Content(kids) && Shaped(rest, false)
    ensures var f := Element(name, Attributes("", []), kids, rest);
            && Render(f) == [Open(name, Attributes("", []), false)] + Render(kids) + [Close(name)] + Render(rest)
            && Shaped(f, false)
            && (Valid(f, false) <==> Valid(rest, false))
            && Size(f) == 2 + Size(kids) + Size(rest)
            && Depth(f) == Max(1, Depth(rest))
            && Entries(f, false) == [Entry(i, Value(kids))] + Entries(rest, false)
  {
    hide Render, Shaped, Valid, Size, Depth, Entries, HtmlVoid, Inert, FieldIndex, Content, Value;
    ContentIsFlat(kids);
    ElementRenders(name, kids, rest);
    ElementValid(name, kids, rest);
    ElementEntries(name, i, kids, rest);
  }

  lemma ElementRenders(name: string, kids: Forest, rest: Forest)
    ensures var f := Element(name, Attributes("", []), kids, rest);
            && Render(f) == [Open(name, Attributes("", []), false)] + Render(kids) + [Close(name)] + Render(rest)
            && Size(f) == 2 + Size(kids) + Size(rest)
            && Depth(f) == Max(1 + Depth(kids), Depth(rest))
  {
    hide Shaped, Valid, Entries, HtmlVoid, Inert, FieldIndex, Content, Value;
  }

  lemma ElementValid(name: string, kids: Forest, rest: Forest)
    requires !HtmlVoid(name) && !Inert(name) && FieldIndex(name).Some? && Shaped(kids, false) && Content(kids)
    ensures var f := Element(name, Attributes("", []), kids, rest);
            && (Shaped(f, false) <==> Shaped(rest, false))
            && (Valid(f, false) <==> Valid(rest, false))
  {
    hide Render, Size, Depth, Entries, HtmlVoid, Inert, FieldIndex, Content, Value, AttributesOk;
    EmptyAttributes();
  }

  lemma ElementEntries(name: string, i: nat, kids: Forest, rest: Forest)
    requires !Inert(name) && FieldIndex(name) == Some(i)
    ensures Entries(Element(name, Attributes("", []), kids, rest), false)
         == [Entry(i, Value(kids))] + Entries(rest, false)
  {
    hide Render, Shaped, Valid, Size, Depth, HtmlVoid, Inert, FieldIndex, Content, Value;
  }

  lemma EmptyAttributes()
    ensures AttributesOk(Attributes("", []))
  {
  }

  lemma FieldName(i: nat)
    requires i < 4
    ensures var name := FIELD_NAMES[i];
            !HtmlVoid(name) && !Inert(name) && FieldIndex(name) == Some(i)
  {
    var name := FIELD_NAMES[i];
    assert |name| in {16, 13, 15, 21};
  }

  /** Events of a printed completion, the end of its comment included. */
  function PrintedSize(user: seq<Piece>, cookie: seq<Piece>, commented: bool): nat {
    7 + |user| + |cookie| + (if commented then 2 else 0)
  }

  function PrintedForest(user: seq<Piece>, kind: CookieKind, cookie: seq<Piece>, commented: bool): Forest {
    var body := FieldForest(FIELD_NAMES[0], [Raw("1")],
                            FieldForest(FIELD_NAMES[1], user, FieldForest(CookieName(kind), cookie, Nil)));
    if commented then Note(body, Nil) else body
  }

  ghost predicate Prints(f: Forest, tokens: seq<Token>, size: nat, depth: nat, es: seq<Entry>) {
    && Render(f) == tokens
    && Shaped(f, false) && Valid(f, false)
    && Size(f) == size && Depth(f) == depth
    && Entries(f, false) == es
  }

  lemma FieldPrints(i: nat, ps: seq<Piece>, rest: Forest, tokens: seq<Token>, size: nat, depth: nat, es: seq<Entry>)
    requires i < 4 && Prints(rest, tokens, size, depth, es)
    requires forall k :: 0 <= k < |ps| ==> Printable(ps[k])
    ensures Prints(FieldForest(FIELD_NAMES[i], ps, rest), PrintField(FIELD_NAMES[i], ps) + tokens,
                   2 + |ps| + size, Max(1, depth), [Entry(i, TextOf(ps))] + es)
  {
    FieldRenders(i, ps, rest);
  }

  lemma BodyPrints(user: seq<Piece>, kind: CookieKind, cookie: seq<Piece>)
    requires forall k :: 0 <= k < |user| ==> Printable(user[k])
    requires forall k :: 0 <= k < |cookie| ==> Printable(cookie[k])
    ensures Prints(PrintedForest(user, kind, cookie, false), Print(user, kind, cookie, false),
                   7 + |user| + |cookie|, 1,
                   [Entry(0, "1"), Entry(1, TextOf(user)), Entry(if kind == Prelogin then 2 else 3, TextOf(cookie))])
  {
    hide Render, Shaped, Valid, Size, Depth, Entries, FieldForest, PrintField, TextOf;
    var i := if kind == Prelogin then 2 else 3;
    var first := PrintField(FIELD_NAMES[0], [Raw("1")]);
    var second := PrintField(FIELD_NAMES[1], user);
    var third := PrintField(FIELD_NAMES[i], cookie);
    NilPrints();
    FieldPrints(i, cookie, Nil, [], 0, 0, []);
    var last := FieldForest(FIELD_NAMES[i], cookie, Nil);
    FieldPrints(1, user, last, third + [], 2 + |cookie|, 1, [Entry(i, TextOf(cookie))] + []);
    var middle := FieldForest(FIELD_NAMES[1], user, last);
    var es := [Entry(1, TextOf(user))] + ([Entry(i, TextOf(cookie))] + []);
    FieldPrints(0, [Raw("1")], middle, second + (third + []), 4 + |user| + |cookie|, 1, es);
    RawText("1");
    Assemble(first, second, third);
    assert [Entry(0, "1")] + es == [Entry(0, "1"), Entry(1, TextOf(user)), Entry(i, TextOf(cookie))];
  }

  lemma Assemble(a: seq<Token>, b: seq<Token>, c: seq<Token>)
    ensures a + (b + (c + [])) == a + b + c
  {
  }

  lemma RawText(s: string)
    ensures TextOf([Raw(s)]) == s
  {
    assert [Raw(s)][1..] == [];
  }

  lemma NilPrints()
    ensures Prints(Nil, [], 0, 0, [])
  {
  }

  lemma PrintedForestMeaning(user: seq<Piece>, kind: CookieKind, cookie: seq<Piece>, commented: bool)
    requires forall k :: 0 <= k < |user| ==> Printable(user[k])
    requires forall k :: 0 <= k < |cookie| ==> Printable(cookie[k])
    ensures var f := PrintedForest(user, kind, cookie, commented);
            && Render(f) == Print(user, kind, cookie, commented)
            && Shaped(f, false) && Valid(f, false)
            && Size(f) == PrintedSize(user, cookie, commented)
            && Depth(f) <= 2
            && Fill(NO_FIELDS, Entries(f, false)) == Some(FieldsOf(GpCompletion(TextOf(user), kind, TextOf(cookie))))
  {
    hide Render, Shaped, Valid, Size, Depth, Entries, FieldForest, PrintField, TextOf, Fill;
    BodyPrints(user, kind, cookie);
    var body := PrintedForest(user, kind, cookie, false);
    var es := [Entry(0, "1"), Entry(1, TextOf(user)), Entry(if kind == Prelogin then 2 else 3, TextOf(cookie))];
    if commented {
      NotePrints(body, Print(user, kind, cookie, false), 7 + |user| + |cookie|, 1, es);
    }
    TableIsFilled(es, FieldsOf(GpCompletion(TextOf(user), kind, TextOf(cookie))));
    assert es[0].index == 0 && es[1].index == 1 && es[2].index == if kind == Prelogin then 2 else 3;
  }

  lemma NotePrints(f: Forest, tokens: seq<Token>, size: nat, depth: nat, es: seq<Entry>)
    requires Prints(f, tokens, size, depth, es) && depth > 0
    ensures Prints(Note(f, Nil), [Comment(tokens, true)], 2 + size, 1 + depth, es)
  {
    assert es + [] == es;
  }

  /**
   The events of a printed completion parse back to it exactly when it is deliverable and
   fits the event limit, whatever acceptable text they were read from.
   */
  lemma PrintedEventsParseBack(text: string, user: seq<Piece>, kind: CookieKind, cookie: seq<Piece>, commented: bool)
    requires InputOk(text) && !CasText(text)
    requires forall k :: 0 <= k < |user| ==> Printable(user[k])
    requires forall k :: 0 <= k < |cookie| ==> Printable(cookie[k])
    ensures var c := GpCompletion(TextOf(user), kind, TextOf(cookie));
            Parse(text, Print(user, kind, cookie, commented)) == Ok(Some(c)) <==>
            Deliverable(c) && PrintedSize(user, cookie, commented) + 1 <= MAX_EVENTS
  {
    hide Run, Fill, PrintedForest;
    PrintedForestMeaning(user, kind, cookie, commented);
    ForestOutcome(PrintedForest(user, kind, cookie, commented));
    DecideMeaning(FieldsOf(GpCompletion(TextOf(user), kind, TextOf(cookie))),
                  GpCompletion(TextOf(user), kind, TextOf(cookie)));
  }
}
