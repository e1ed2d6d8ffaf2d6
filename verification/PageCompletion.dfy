/**
 Completion fields of a page of the embedded browser (`page_completion` in
 `crates/client/src/browser.rs`): response headers first, then the document.
 */
module PageCompletion {
  import opened Common
  import opened Completion
  import opened CompletionDocument
  import opened CompletionResult
  import opened CompletionOutcome

  type Header = (string, string)

  /** A document and the events the reader makes of it. */
  datatype Document = Document(text: string, tokens: seq<Token>)

  datatype Page = Page(headers: seq<Header>, document: Option<Document>)

  /** The values of the headers that carry completion field `i`. */
  function Matches(headers: seq<Header>, i: nat): seq<string>
    requires i < 4
  {
    if headers == [] then []
    else
      var h := headers[|headers| - 1];
      Matches(headers[..|headers| - 1], i) + (if EqualsIgnoringCase(FIELD_NAMES[i], h.0) then [h.1] else [])
  }

  predicate NoDuplicates(headers: seq<Header>) {
    forall i :: 0 <= i < 4 ==> |Matches(headers, i)| <= 1
  }

  function Only(values: seq<string>): Option<string> {
    if values == [] then None else Some(values[0])
  }

  function Table(headers: seq<Header>): Fields {
    [Only(Matches(headers, 0)), Only(Matches(headers, 1)), Only(Matches(headers, 2)), Only(Matches(headers, 3))]
  }

  /** What a page decides: its headers if any carries a field, its document otherwise. */
  function PageDecision(page: Page): Result<Option<GpCompletion>> {
    if !NoDuplicates(page.headers) then Err(InvalidInput)
    else if Table(page.headers) != NO_FIELDS then Decide(Table(page.headers))
    else
      match page.document
      case None => Ok(None)
      case Some(d) => Parse(d.text, d.tokens)
  }

  lemma {:induction false} MatchesGrow(headers: seq<Header>, k: nat, i: nat)
    requires i < 4 && k <= |headers|
    ensures |Matches(headers[..k], i)| <= |Matches(headers, i)|
  {
    if k < |headers| {
      var shorter := headers[..|headers| - 1];
      MatchesGrow(shorter, k, i);
      assert shorter[..k] == headers[..k];
    } else {
      assert headers[..k] == headers;
    }
  }

  predicate Names(at: Option<nat>, name: string) {
    && (at.Some? ==> at.value < 4)
    && forall j :: 0 <= j < 4 ==> (EqualsIgnoringCase(FIELD_NAMES[j], name) <==> at == Some(j))
  }

  method Position(name: string) returns (at: Option<nat>)
    ensures Names(at, name)
  {
    at := None;
    var i := 0;
    while i < 4
      invariant 0 <= i <= 4
      invariant forall j :: 0 <= j < i ==> !EqualsIgnoringCase(FIELD_NAMES[j], name)
    {
      if EqualsIgnoringCase(FIELD_NAMES[i], name) {
        assert |FIELD_NAMES[0]| == 16 && |FIELD_NAMES[1]| == 13 && |FIELD_NAMES[2]| == 15 && |FIELD_NAMES[3]| == 21;
        return Some(i);
      }
      i := i + 1;
    }
  }

  lemma MatchStep(headers: seq<Header>, k: nat, at: Option<nat>, i: nat)
    requires i < 4 && k < |headers| && Names(at, headers[k].0)
    ensures at.Some? ==> at.value < 4
    ensures Matches(headers[..k + 1], i) == Matches(headers[..k], i) + (if at == Some(i) then [headers[k].1] else [])
  {
    hide EqualsIgnoringCase;
    assert headers[..k + 1][..k] == headers[..k];
  }

  /** What one more header does to the table. */
  lemma TableStep(headers: seq<Header>, k: nat, at: Option<nat>)
    requires k < |headers| && NoDuplicates(headers[..k]) && Names(at, headers[k].0)
    ensures var table, next := Table(headers[..k]), headers[..k + 1];
            match at
            case None => NoDuplicates(next) && Table(next) == table
            case Some(i) =>
              if table[i].Some? then !NoDuplicates(headers)
              else NoDuplicates(next) && Table(next) == table[i := Some(headers[k].1)]
  {
    hide EqualsIgnoringCase, Matches, Names;
    MatchStep(headers, k, at, 0);
    MatchStep(headers, k, at, 1);
    MatchStep(headers, k, at, 2);
    MatchStep(headers, k, at, 3);
    if at.Some? {
      MatchesGrow(headers, k + 1, at.value);
    }
  }

  /** The source's loop over the headers, filling `values`. */
  method CollectHeaders(headers: seq<Header>, values: array<Option<string>>) returns (duplicate: bool)
    requires values.Length == 4 && values[..] == NO_FIELDS
    modifies values
    ensures duplicate <==> !NoDuplicates(headers)
    ensures !duplicate ==> values[..] == Table(headers)
  {
    hide NoDuplicates, Table;
    assert NoDuplicates([]) && Table([]) == NO_FIELDS by { EmptyTable(); }
    var k := 0;
    assert headers[..k] == [];
    while k < |headers|
      invariant 0 <= k <= |headers|
      invariant NoDuplicates(headers[..k]) && values[..] == Table(headers[..k])
    {
      var (name, value) := headers[k];
      var at := Position(name);
      TableStep(headers, k, at);
      if at.Some? {
        if values[at.value].Some? {
          return true;
        }
        values[at.value] := Some(value);
      }
      k := k + 1;
    }
    assert headers[..k] == headers;
    return false;
  }

  lemma EmptyTable()
    ensures NoDuplicates([]) && Table([]) == NO_FIELDS
  {
  }

  /** `page_completion` itself. */
  method CompletionOfPage(page: Page) returns (r: Result<Option<GpCompletion>>)
    ensures r == PageDecision(page)
  {
    hide Matches;
    var values := new Option<string>[4](_ => None);
    assert values[..] == NO_FIELDS;
    var duplicate := CollectHeaders(page.headers, values);
    if duplicate {
      return Err(InvalidInput);
    }
    if values[0].Some? || values[1].Some? || values[2].Some? || values[3].Some? {
      if values[0] != Some("1") {
        return Err(AuthenticationRejected);
      }
      if values[1].None? || !Visible(values[1].value) {
        return Err(InvalidInput);
      }
      if values[2].Some? == values[3].Some? {
        return Err(InvalidInput);
      }
      var username := values[1].value;
      var kind := if values[2].Some? then Prelogin else Portal;
      var cookie := if values[2].Some? then values[2].value else values[3].value;
      if !Visible(cookie) || !HeaderSafe(username) || !HeaderSafe(cookie) {
        return Err(InvalidInput);
      }
      return Ok(Some(GpCompletion(username, kind, cookie)));
    }
    assert values[..] == NO_FIELDS;
    if page.document.None? {
      return Ok(None);
    }
    r := ParseCompletionIfPresent(page.document.value.text, page.document.value.tokens);
  }

  /** Headers and a document with the same field values get the same answer. */
  lemma HeadersDecideLikeDocument(page: Page, document: Document)
    requires NoDuplicates(page.headers) && Table(page.headers) != NO_FIELDS
    requires InputOk(document.text) && !CasText(document.text)
    requires ParseFields(document.tokens) == Ok(Table(page.headers))
    ensures PageDecision(page) == PageDecision(Page([], Some(document)))
  {
    assert Table([]) == NO_FIELDS;
  }

  function ListOf(value: Option<string>): seq<string> {
    if value.None? then [] else [value.value]
  }

  lemma TableMeaning(headers: seq<Header>, fields: Fields)
    ensures NoDuplicates(headers) && Table(headers) == fields <==>
            forall i :: 0 <= i < 4 ==> Matches(headers, i) == ListOf(fields[i])
  {
    hide Matches;
    if NoDuplicates(headers) && Table(headers) == fields {
      forall i | 0 <= i < 4
        ensures Matches(headers, i) == ListOf(fields[i])
      {
        assert Table(headers)[i] == Only(Matches(headers, i));
      }
    }
  }

  predicate CarriesField(headers: seq<Header>) {
    exists i :: 0 <= i < 4 && Matches(headers, i) != []
  }

  /**
   Which pages complete an authentication. If a header carries a field, or there is no
   document, those with one header for each field of the completion and no other; and
   otherwise those whose document does.
   */
  lemma HeaderCompletionMeaning(page: Page, c: GpCompletion)
    ensures PageDecision(page) == Ok(Some(c)) <==>
            if page.document.Some? && !CarriesField(page.headers) then
              Parse(page.document.value.text, page.document.value.tokens) == Ok(Some(c))
            else
              Deliverable(c) && forall i :: 0 <= i < 4 ==> Matches(page.headers, i) == ListOf(FieldsOf(c)[i])
  {
    hide Matches, Deliverable, Decide, Parse, CarriesField;
    DecideMeaning(Table(page.headers), c);
    TableMeaning(page.headers, FieldsOf(c));
    NoFieldHeaders(page.headers);
  }

  /** The page decides by its document: no header carries a field. */
  ghost predicate Shows(page: Page, fields: Fields) {
    !CarriesField(page.headers) && page.document.Some?
    && Reads(page.document.value.text, page.document.value.tokens, fields)
  }

  /** The headers carry exactly these fields, each once. */
  predicate Carries(headers: seq<Header>, fields: Fields) {
    CarriesField(headers) && forall i :: 0 <= i < 4 ==> Matches(headers, i) == ListOf(fields[i])
  }

  /**
   An ordinary page, one without completion fields in its headers or its document, decides
   nothing, and no other page does; a page is rejected exactly when the fields it carries or shows
   have another status than 1.
   */
  lemma PageOutcomes(page: Page)
    ensures PageDecision(page) == Ok(None) <==>
            !CarriesField(page.headers) && (page.document.None? || Shows(page, NO_FIELDS))
    ensures PageDecision(page) == Err(AuthenticationRejected) <==>
            exists fields: Fields ::
              (Carries(page.headers, fields) || Shows(page, fields)) && fields != NO_FIELDS && fields[0] != Some("1")
    ensures (exists i :: 0 <= i < 4 && |Matches(page.headers, i)| > 1) ==> PageDecision(page) == Err(InvalidInput)
  {
    hide Matches, Parse, CarriesField, Reads, Deliverable;
    NoFieldHeaders(page.headers);
    if page.document.Some? {
      ParseOutcomes(page.document.value.text, page.document.value.tokens);
    }
    forall fields: Fields
      ensures Carries(page.headers, fields) <==>
              CarriesField(page.headers) && NoDuplicates(page.headers) && Table(page.headers) == fields
    {
      TableMeaning(page.headers, fields);
    }
    hide Carries, NoDuplicates, Table, Visible, HeaderSafe;
    assert NoDuplicates(page.headers) ==>
        (Carries(page.headers, Table(page.headers)) <==> CarriesField(page.headers));
  }

  lemma NoFieldHeaders(headers: seq<Header>)
    ensures !CarriesField(headers) <==> NoDuplicates(headers) && Table(headers) == NO_FIELDS
  {
    hide Matches;
    if Table(headers) == NO_FIELDS {
      assert forall i :: 0 <= i < 4 ==> Table(headers)[i] == Only(Matches(headers, i));
    }
  }
}
