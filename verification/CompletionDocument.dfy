/**
 The documents the completion parser accepts, described as trees.

 `AcceptsExactlyDocuments` is the main result: a token stream parses to a field table
 exactly when it is the printing of a well-formed tree in which every field stands at
 most once outside inert elements, within the depth and event limits.
 */
module CompletionDocument {
  import opened Common
  import opened Completion

  /** A list of siblings. `Note` is a comment that is itself read as markup. */
  datatype Forest =
    | Nil
    | Leaf(token: Token, rest: Forest)
    | Element(name: string, attributes: Attributes, kids: Forest, rest: Forest)
    | Note(kids: Forest, rest: Forest)

  function Render(f: Forest): seq<Token> {
    match f
    case Nil => []
    case Leaf(t, rest) => [t] + Render(rest)
    case Element(name, attributes, kids, rest) =>
      [Open(name, attributes, false)] + Render(kids) + [Close(name)] + Render(rest)
    case Note(kids, rest) => [Comment(Render(kids), true)] + Render(rest)
  }

  /** Which tokens may stand as leaves, so that a token stream has one reading as a tree. */
  predicate Shaped(f: Forest, inert: bool) {
    match f
    case Nil => true
    case Leaf(t, rest) =>
      && !t.Close?
      && (t.Open? ==> t.empty || HtmlVoid(t.name))
      && (t.Comment? ==> inert || !t.markup)
      && Shaped(rest, inert)
    case Element(name, _, kids, rest) =>
      !HtmlVoid(name) && Shaped(kids, inert || Inert(name)) && Shaped(rest, inert)
    case Note(kids, rest) => !inert && Shaped(kids, false) && Shaped(rest, inert)
  }

  /** Reader events a forest accounts for: one per token, and the end of each comment read as markup. */
  function Size(f: Forest): nat {
    match f
    case Nil => 0
    case Leaf(_, rest) => 1 + Size(rest)
    case Element(_, _, kids, rest) => 2 + Size(kids) + Size(rest)
    case Note(kids, rest) => 2 + Size(kids) + Size(rest)
  }

  /** Deepest nesting of tags and comments, counting void and empty tags. */
  function Depth(f: Forest): nat {
    match f
    case Nil => 0
    case Leaf(t, rest) => Max(if t.Open? then 1 else 0, Depth(rest))
    case Element(_, _, kids, rest) => Max(1 + Depth(kids), Depth(rest))
    case Note(kids, rest) => Max(if Depth(kids) == 0 then 0 else 1 + Depth(kids), Depth(rest))
  }

  function Max(a: nat, b: nat): nat {
    if a < b then b else a
  }

  predicate Character(t: Token) {
    t.Text? || t.CData? || (t.Reference? && Resolve(t.name).Some?)
  }

  /** Only character data: what a completion field may contain. */
  predicate Content(f: Forest) {
    match f
    case Nil => true
    case Leaf(t, rest) => Character(t) && Content(rest)
    case _ => false
  }

  function LeafText(t: Token): string {
    match t
    case Text(text) => text
    case CData(text) => text
    case Reference(name) => if Resolve(name).Some? then [Resolve(name).value] else ""
    case _ => ""
  }

  function Value(f: Forest): string {
    match f
    case Leaf(t, rest) => LeafText(t) + Value(rest)
    case _ => ""
  }

  predicate LeafValid(t: Token, inert: bool) {
    match t
    case Open(name, attributes, _) =>
      && AttributesOk(attributes)
      && (inert || Inert(name) || (!CasName(name) && (FieldIndex(name).Some? ==> attributes.raw == "")))
    case Reference(name) => Resolve(name).Some?
    case Forbidden => false
    case Broken => false
    case _ => true
  }

  predicate Valid(f: Forest, inert: bool) {
    match f
    case Nil => true
    case Leaf(t, rest) => LeafValid(t, inert) && Valid(rest, inert)
    case Element(name, attributes, kids, rest) =>
      && AttributesOk(attributes)
      && (if inert || Inert(name) then Valid(kids, true)
          else if FieldIndex(name).Some? then attributes.raw == "" && Content(kids)
          else !CasName(name) && Valid(kids, false))
      && Valid(rest, inert)
    case Note(kids, rest) => Valid(kids, false) && Valid(rest, inert)
  }

  /** One completion field element and the text inside it. */
  datatype Entry = Entry(index: nat, value: string)

  /** The completion fields of a forest in document order, none of them inside inert elements. */
  function Entries(f: Forest, inert: bool): (es: seq<Entry>)
    ensures forall k :: 0 <= k < |es| ==> es[k].index < 4
    ensures inert ==> es == []
  {
    match f
    case Nil => []
    case Leaf(t, rest) =>
      (if !inert && t.Open? && !Inert(t.name) && FieldIndex(t.name).Some?
       then [Entry(FieldIndex(t.name).value, "")] else []) + Entries(rest, inert)
    case Element(name, _, kids, rest) =>
      (if inert || Inert(name) then []
       else if FieldIndex(name).Some? then [Entry(FieldIndex(name).value, Value(kids))]
       else Entries(kids, false)) + Entries(rest, inert)
    case Note(kids, rest) => (if inert then [] else Entries(kids, false)) + Entries(rest, inert)
  }

  predicate Distinct(es: seq<Entry>) {
    forall i, j :: 0 <= i < j < |es| ==> es[i].index != es[j].index
  }

  ghost predicate TableOf(es: seq<Entry>, fields: Fields) {
    && (forall k :: 0 <= k < |es| ==> es[k].index < 4 && fields[es[k].index] == Some(es[k].value))
    && (forall i :: 0 <= i < 4 && fields[i].Some? ==> exists k :: 0 <= k < |es| && es[k].index == i)
  }

  /** A document whose events are `tokens` and whose completion fields are `fields`. */
  ghost predicate IsDocument(f: Forest, tokens: seq<Token>, fields: Fields) {
    && Render(f) == tokens
    && Shaped(f, false)
    && Valid(f, false)
    && Size(f) + 1 <= MAX_EVENTS
    && Depth(f) <= MAX_DEPTH
    && Distinct(Entries(f, false))
    && TableOf(Entries(f, false), fields)
  }

  // ---------------------------------------------------------------- filling the field table

  function Fill(fields: Fields, es: seq<Entry>): Option<Fields>
    requires forall k :: 0 <= k < |es| ==> es[k].index < 4
    decreases |es|
  {
    if es == [] then Some(fields)
    else if fields[es[0].index].Some? then None
    else Fill(fields[es[0].index := Some(es[0].value)], es[1..])
  }

  lemma {:induction false} FillConcat(fields: Fields, a: seq<Entry>, b: seq<Entry>)
    requires forall k :: 0 <= k < |a| ==> a[k].index < 4
    requires forall k :: 0 <= k < |b| ==> b[k].index < 4
    ensures Fill(fields, a + b) ==
            match Fill(fields, a) case None => None case Some(mid) => Fill(mid, b)
    decreases |a|
  {
    if a == [] {
      assert a + b == b;
    } else if fields[a[0].index].None? {
      assert (a + b)[1..] == a[1..] + b;
      FillConcat(fields[a[0].index := Some(a[0].value)], a[1..], b);
    }
  }

  /** Filling succeeds exactly on fresh, pairwise different fields, and then holds the old and the new ones. */
  lemma {:induction false} FillMeaning(fields: Fields, es: seq<Entry>)
    requires forall k :: 0 <= k < |es| ==> es[k].index < 4
    ensures Fill(fields, es).Some? <==>
            Distinct(es) && forall k :: 0 <= k < |es| ==> fields[es[k].index].None?
    ensures Fill(fields, es).Some? ==>
              var r := Fill(fields, es).value;
              && (forall k :: 0 <= k < |es| ==> r[es[k].index] == Some(es[k].value))
              && (forall i :: 0 <= i < 4 && (forall k :: 0 <= k < |es| ==> es[k].index != i) ==> r[i] == fields[i])
    decreases |es|
  {
    if es != [] {
      var rest := es[1..];
      assert forall k :: 1 <= k < |es| ==> es[k] == rest[k - 1];
      assert forall k :: 0 <= k < |rest| ==> rest[k] == es[k + 1];
      if fields[es[0].index].None? {
        hide Distinct;
        DistinctFirst(es);
        FillMeaning(fields[es[0].index := Some(es[0].value)], rest);
      }
    }
  }

  lemma DistinctFirst(es: seq<Entry>)
    requires es != []
    ensures Distinct(es) <==> Distinct(es[1..]) && forall k :: 0 <= k < |es[1..]| ==> es[1..][k].index != es[0].index
  {
    var rest := es[1..];
    assert forall k :: 0 <= k < |rest| ==> rest[k] == es[k + 1];
    assert forall k :: 1 <= k < |es| ==> es[k] == rest[k - 1];
  }

  // ---------------------------------------------------------------- names

  lemma VoidNamesAreOrdinary(name: string)
    requires HtmlVoid(name)
    ensures !Inert(name) && !CasName(name) && FieldIndex(name).None?
  {
    var i :| 0 <= i < |VOID_NAMES| && EqualsIgnoringCase(name, VOID_NAMES[i]);
    assert LowerChar(name[1]) == LowerChar(VOID_NAMES[i][1]);
  }

  // ---------------------------------------------------------------- the machine on a printed forest

  /** What reading carries from one event to the next, apart from the open elements. */
  datatype Progress = Progress(fields: Fields, events: nat)

  function Tick(p: Progress): Option<Progress> {
    if p.events + 1 > MAX_EVENTS then None else Some(p.(events := p.events + 1))
  }

  function ReadLeaf(t: Token, inert: bool, depth: nat, p: Progress): Option<Progress> {
    if Tick(p).None? || !LeafValid(t, inert) || (t.Open? && depth + 1 > MAX_DEPTH) then None
    else if !inert && t.Open? && !Inert(t.name) && FieldIndex(t.name).Some? then
      var i := FieldIndex(t.name).value;
      if p.fields[i].Some? then None else Some(Progress(p.fields[i := Some("")], p.events + 1))
    else Tick(p)
  }

  function ReadElement(f: Forest, inert: bool, depth: nat, p: Progress): Option<Progress>
    requires f.Element?
    decreases f, 0
  {
    if Tick(p).None? || depth + 1 > MAX_DEPTH || !AttributesOk(f.attributes) then None
    else if inert || Inert(f.name) then
      var kids := Read(f.kids, true, depth + 1, Tick(p).value);
      if kids.None? then None else Tick(kids.value)
    else if FieldIndex(f.name).Some? then
      var i := FieldIndex(f.name).value;
      if p.fields[i].Some? || f.attributes.raw != "" || !Content(f.kids) || p.events + 2 + Size(f.kids) > MAX_EVENTS
      then None
      else Some(Progress(p.fields[i := Some(Value(f.kids))], p.events + 2 + Size(f.kids)))
    else if CasName(f.name) then None
    else
      var kids := Read(f.kids, false, depth + 1, Tick(p).value);
      if kids.None? then None else Tick(kids.value)
  }

  function ReadNote(f: Forest, depth: nat, p: Progress): Option<Progress>
    requires f.Note?
    decreases f, 0
  {
    if Tick(p).None? then None
    else
      var kids := Read(f.kids, false, depth + 1, Tick(p).value);
      if kids.None? then None else Tick(kids.value)
  }

  /** Reading a forest tree by tree, without a stack. */
  function Read(f: Forest, inert: bool, depth: nat, p: Progress): Option<Progress>
    decreases f, 1
  {
    if f.Nil? then Some(p)
    else
      var first := match f
        case Leaf(t, _) => ReadLeaf(t, inert, depth, p)
        case Element(_, _, _, _) => ReadElement(f, inert, depth, p)
        case Note(_, _) => ReadNote(f, depth, p);
      if first.None? then None else Read(f.rest, inert, depth, first.value)
  }

  predicate Ready(s: State) {
    && StateOk(s)
    && s.active.None?
    && (s.suppressed.Some? ==> s.suppressed.value <= |s.stack|)
  }

  function At(s: State): Progress {
    Progress(s.fields, s.events)
  }

  function With(s: State, p: Progress): State {
    s.(fields := p.fields, events := p.events)
  }

  /** The machine continues on `rest` from where reading the forest leaves it. */
  function Resume(p: Option<Progress>, rest: seq<Token>, s: State, outer: nat): Option<State>
    requires Ready(s)
  {
    if p.None? then None else Success(Run(rest, With(s, p.value), outer))
  }

  /** One event of the machine, the error forgotten. */
  lemma Unfold(t: Token, tokens: seq<Token>, s: State, outer: nat)
    requires StateOk(s)
    ensures Success(Run([t] + tokens, s, outer)) ==
            if s.events + 1 > MAX_EVENTS || Step(t, s.(events := s.events + 1), outer).Err? then None
            else Success(Run(tokens, Step(t, s.(events := s.events + 1), outer).value, outer))
  {
    assert ([t] + tokens)[1..] == tokens;
  }

  lemma UnfoldEnd(s: State, outer: nat)
    requires StateOk(s)
    ensures Success(Run([], s, outer)) ==
            if s.events + 1 > MAX_EVENTS || s.stack != [] then None else Some(s.(events := s.events + 1))
  {
  }

  /** Inside a field, only character data is read. */
  lemma UnfoldActive(t: Token, tokens: seq<Token>, s: State, outer: nat)
    requires StateOk(s) && s.active.Some? && !t.Close?
    ensures Success(Run([t] + tokens, s, outer)) ==
            if s.events + 1 > MAX_EVENTS || !Character(t) then None
            else Success(Run(tokens, Append(s, LeafText(t)).(events := s.events + 1), outer))
  {
    Unfold(t, tokens, s, outer);
  }

  lemma UnfoldClose(name: string, tokens: seq<Token>, s: State, outer: nat)
    requires StateOk(s) && s.stack != [] && s.stack[|s.stack| - 1] == name
    ensures Success(Run([Close(name)] + tokens, s, outer)) ==
            if s.events + 1 > MAX_EVENTS then None
            else
              Success(Run(tokens, State(
                            s.stack[..|s.stack| - 1], None,
                            if s.suppressed == Some(|s.stack|) then None else s.suppressed,
                            s.fields, s.events + 1), outer))
  {
    Unfold(Close(name), tokens, s, outer);
  }

  lemma {:induction false} SimulateContent(f: Forest, rest: seq<Token>, s: State, outer: nat)
    requires StateOk(s) && s.active.Some? && s.suppressed.None? && s.events <= MAX_EVENTS
    requires Shaped(f, false)
    ensures Success(Run(Render(f) + rest, s, outer)) ==
            if Content(f) && s.events + Size(f) <= MAX_EVENTS
            then Success(Run(rest, Append(s, Value(f)).(events := s.events + Size(f)), outer))
            else None
  {
    hide Run;
    match f
    case Nil =>
      assert Render(f) + rest == rest;
      assert s.fields[s.active.value].value + "" == s.fields[s.active.value].value;
      assert s.fields == Append(s, "").fields;
    case Leaf(t, tail) =>
      assert Render(f) + rest == [t] + (Render(tail) + rest);
      UnfoldActive(t, Render(tail) + rest, s, outer);
      if Character(t) && s.events < MAX_EVENTS {
        SimulateContent(tail, rest, Append(s, LeafText(t)).(events := s.events + 1), outer);
        AppendAppend(s, LeafText(t), Value(tail));
      }
    case _ =>
      var tokens := Render(f) + rest;
      assert tokens == [tokens[0]] + tokens[1..];
      UnfoldActive(tokens[0], tokens[1..], s, outer);
  }

  lemma AppendAppend(s: State, a: string, b: string)
    requires StateOk(s) && s.active.Some?
    ensures Append(Append(s, a), b) == Append(s, a + b)
  {
    var i := s.active.value;
    assert s.fields[i].value + a + b == s.fields[i].value + (a + b);
    assert Append(Append(s, a), b).fields == Append(s, a + b).fields;
  }

  lemma {:induction false} Simulate(f: Forest, rest: seq<Token>, s: State, outer: nat)
    requires Ready(s) && Shaped(f, s.suppressed.Some?)
    ensures Success(Run(Render(f) + rest, s, outer)) ==
            Resume(Read(f, s.suppressed.Some?, outer + |s.stack|, At(s)), rest, s, outer)
    decreases f, 1
  {
    hide Run;
    if f.Nil? {
      assert Render(f) + rest == rest;
      assert With(s, At(s)) == s;
      return;
    }
    var tail := Render(f.rest) + rest;
    var first;
    match f {
      case Leaf(t, _) =>
        first := ReadLeaf(t, s.suppressed.Some?, outer + |s.stack|, At(s));
        assert Render(f) + rest == [t] + tail;
        SimulateLeaf(t, tail, s, outer);
      case Element(name, _, _, _) =>
        first := ReadElement(f, s.suppressed.Some?, outer + |s.stack|, At(s));
        assert Render(f) + rest ==
               [Open(name, f.attributes, false)] + (Render(f.kids) + ([Close(name)] + tail));
        SimulateElement(f, tail, s, outer);
      case Note(_, _) =>
        first := ReadNote(f, outer + |s.stack|, At(s));
        assert Render(f) + rest == [Comment(Render(f.kids), true)] + tail;
        SimulateNote(f, tail, s, outer);
    }
    if first.Some? {
      Simulate(f.rest, rest, With(s, first.value), outer);
    }
  }

  lemma SimulateLeaf(t: Token, tail: seq<Token>, s: State, outer: nat)
    requires Ready(s) && Shaped(Leaf(t, Nil), s.suppressed.Some?)
    ensures Success(Run([t] + tail, s, outer)) ==
            Resume(ReadLeaf(t, s.suppressed.Some?, outer + |s.stack|, At(s)), tail, s, outer)
  {
    Unfold(t, tail, s, outer);
    if t.Open? && HtmlVoid(t.name) {
      VoidNamesAreOrdinary(t.name);
    }
  }

  lemma {:induction false} SimulateNote(f: Forest, tail: seq<Token>, s: State, outer: nat)
    requires f.Note? && Ready(s) && Shaped(f, s.suppressed.Some?)
    ensures Success(Run([Comment(Render(f.kids), true)] + tail, s, outer)) ==
            Resume(ReadNote(f, outer + |s.stack|, At(s)), tail, s, outer)
    decreases f, 0
  {
    hide Run;
    var t := Comment(Render(f.kids), true);
    Unfold(t, tail, s, outer);
    assert Render(f.kids) + [] == Render(f.kids);
    var inside := State([], None, None, s.fields, s.events + 1);
    Simulate(f.kids, [], inside, outer + |s.stack| + 1);
    var kids := Read(f.kids, false, outer + |s.stack| + 1, At(inside));
    if kids.Some? {
      UnfoldEnd(With(inside, kids.value), outer + |s.stack| + 1);
    }
  }

  /** Entering an element, the error forgotten. */
  lemma UnfoldOpen(name: string, attributes: Attributes, inside: seq<Token>, s: State, outer: nat)
    requires Ready(s) && !HtmlVoid(name)
    ensures Success(Run([Open(name, attributes, false)] + inside, s, outer)) ==
            var e := Entered(name, attributes, s, outer);
            if e.None? then None else Success(Run(inside, e.value, outer))
  {
    Unfold(Open(name, attributes, false), inside, s, outer);
  }

  function Entered(name: string, attributes: Attributes, s: State, outer: nat): (e: Option<State>)
    requires Ready(s)
    ensures e.Some? ==> StateOk(e.value)
  {
    if s.events + 1 > MAX_EVENTS || outer + |s.stack| + 1 > MAX_DEPTH || !AttributesOk(attributes) then None
    else
      var plain := State(s.stack + [name], None, s.suppressed, s.fields, s.events + 1);
      if s.suppressed.Some? then Some(plain)
      else if Inert(name) then Some(plain.(suppressed := Some(|s.stack| + 1)))
      else if FieldIndex(name).Some? then
        var i := FieldIndex(name).value;
        if s.fields[i].Some? || attributes.raw != "" then None
        else Some(plain.(active := Some(i), fields := s.fields[i := Some("")]))
      else if CasName(name) then None
      else Some(plain)
  }

  lemma {:induction false} SimulateElement(f: Forest, tail: seq<Token>, s: State, outer: nat)
    requires f.Element? && Ready(s) && Shaped(f, s.suppressed.Some?)
    ensures Success(Run([Open(f.name, f.attributes, false)] + (Render(f.kids) + ([Close(f.name)] + tail)), s, outer)) ==
            Resume(ReadElement(f, s.suppressed.Some?, outer + |s.stack|, At(s)), tail, s, outer)
    decreases f, 0
  {
    hide Run, Read, Render, HtmlVoid, Inert, AttributesOk, FieldIndex;
    UnfoldOpen(f.name, f.attributes, Render(f.kids) + ([Close(f.name)] + tail), s, outer);
    var e := Entered(f.name, f.attributes, s, outer);
    if e.Some? {
      if e.value.active.Some? {
        LeaveField(f, tail, s, e.value, outer);
      } else {
        Simulate(f.kids, [Close(f.name)] + tail, e.value, outer);
        var kids := Read(f.kids, e.value.suppressed.Some?, outer + |s.stack| + 1, At(e.value));
        if kids.Some? {
          UnfoldClose(f.name, tail, With(e.value, kids.value), outer);
          assert (s.stack + [f.name])[..|s.stack|] == s.stack;
        }
      }
    }
  }

  lemma LeaveField(f: Forest, tail: seq<Token>, s: State, entered: State, outer: nat)
    requires f.Element? && Ready(s) && s.suppressed.None? && Shaped(f, false)
    requires FieldIndex(f.name).Some? && s.events < MAX_EVENTS
    requires var i := FieldIndex(f.name).value;
             entered == State(s.stack + [f.name], Some(i), None, s.fields[i := Some("")], s.events + 1)
    ensures var i := FieldIndex(f.name).value;
            Success(Run(Render(f.kids) + ([Close(f.name)] + tail), entered, outer)) ==
            if Content(f.kids) && s.events + 2 + Size(f.kids) <= MAX_EVENTS
            then
              var read := Progress(s.fields[i := Some(Value(f.kids))], s.events + 2 + Size(f.kids));
              Success(Run(tail, With(s, read), outer))
            else None
  {
    hide Run;
    var i := FieldIndex(f.name).value;
    SimulateContent(f.kids, [Close(f.name)] + tail, entered, outer);
    var full := Append(entered, Value(f.kids)).(events := s.events + 1 + Size(f.kids));
    assert "" + Value(f.kids) == Value(f.kids);
    assert full.fields == s.fields[i := Some(Value(f.kids))];
    UnfoldClose(f.name, tail, full, outer);
    assert full.stack[..|full.stack| - 1] == s.stack;
  }

  // ---------------------------------------------------------------- reading a forest, declaratively

  /** What the acceptance of a forest depends on. */
  datatype Summary = Summary(valid: bool, size: nat, depth: nat, entries: seq<Entry>)

  type EntrySummary = m: Summary | forall k :: 0 <= k < |m.entries| ==> m.entries[k].index < 4
    witness Summary(true, 0, 0, [])

  function Join(a: EntrySummary, b: EntrySummary): EntrySummary {
    Summary(a.valid && b.valid, a.size + b.size, Max(a.depth, b.depth), a.entries + b.entries)
  }

  function Summarize(f: Forest, inert: bool): EntrySummary {
    Summary(Valid(f, inert), Size(f), Depth(f), Entries(f, inert))
  }

  function Apply(m: EntrySummary, depth: nat, p: Progress): Option<Progress> {
    var filled := Fill(p.fields, m.entries);
    if m.valid && p.events + m.size <= MAX_EVENTS && (m.depth > 0 ==> depth + m.depth <= MAX_DEPTH) && filled.Some?
    then Some(Progress(filled.value, p.events + m.size))
    else None
  }

  lemma ApplyJoin(a: EntrySummary, b: EntrySummary, depth: nat, p: Progress)
    ensures Apply(Join(a, b), depth, p) ==
            match Apply(a, depth, p) case None => None case Some(q) => Apply(b, depth, q)
  {
    FillConcat(p.fields, a.entries, b.entries);
  }

  function LeafSummary(t: Token, inert: bool): EntrySummary {
    Summary(
      LeafValid(t, inert), 1, if t.Open? then 1 else 0,
      if !inert && t.Open? && !Inert(t.name) && FieldIndex(t.name).Some?
      then [Entry(FieldIndex(t.name).value, "")] else [])
  }

  function ElementSummary(f: Forest, inert: bool): EntrySummary
    requires f.Element?
  {
    var field := !inert && !Inert(f.name) && FieldIndex(f.name).Some?;
    var kids := Summarize(f.kids, inert || Inert(f.name));
    Summary(
      && AttributesOk(f.attributes)
      && (if field then f.attributes.raw == "" && Content(f.kids)
          else (inert || Inert(f.name) || !CasName(f.name)) && kids.valid),
      2 + kids.size, 1 + kids.depth,
      if field then [Entry(FieldIndex(f.name).value, Value(f.kids))] else kids.entries)
  }

  function NoteSummary(f: Forest): EntrySummary
    requires f.Note?
  {
    var kids := Summarize(f.kids, false);
    Summary(kids.valid, 2 + kids.size, if kids.depth == 0 then 0 else 1 + kids.depth, kids.entries)
  }

  lemma {:induction false} ContentIsFlat(f: Forest)
    requires Content(f)
    ensures Depth(f) == 0
  {
    if f.Leaf? {
      ContentIsFlat(f.rest);
    }
  }

  lemma ReadLeafMeaning(t: Token, inert: bool, depth: nat, p: Progress)
    ensures ReadLeaf(t, inert, depth, p) == Apply(LeafSummary(t, inert), depth, p)
  {
    if !inert && t.Open? && !Inert(t.name) && FieldIndex(t.name).Some? {
      FillOne(p.fields, Entry(FieldIndex(t.name).value, ""));
    }
  }

  lemma {:induction false} ReadElementMeaning(f: Forest, inert: bool, depth: nat, p: Progress)
    requires f.Element? && Shaped(f, inert) && p.events <= MAX_EVENTS
    ensures ReadElement(f, inert, depth, p) == Apply(ElementSummary(f, inert), depth, p)
    decreases f, 0
  {
    hide Fill;
    if p.events < MAX_EVENTS {
      ReadMeaning(f.kids, inert || Inert(f.name), depth + 1, Tick(p).value);
    }
    if !inert && !Inert(f.name) && FieldIndex(f.name).Some? {
      FillOne(p.fields, Entry(FieldIndex(f.name).value, Value(f.kids)));
      if Content(f.kids) {
        ContentIsFlat(f.kids);
      }
    }
  }

  lemma FillOne(fields: Fields, e: Entry)
    requires e.index < 4
    ensures Fill(fields, [e]) ==
            if fields[e.index].Some? then None else Some(fields[e.index := Some(e.value)])
  {
    assert [e][1..] == [];
  }

  lemma {:induction false} ReadNoteMeaning(f: Forest, depth: nat, p: Progress)
    requires f.Note? && Shaped(f, false) && p.events <= MAX_EVENTS
    ensures ReadNote(f, depth, p) == Apply(NoteSummary(f), depth, p)
    decreases f, 0
  {
    hide Read, Fill;
    if p.events < MAX_EVENTS {
      ReadMeaning(f.kids, false, depth + 1, Tick(p).value);
    }
  }

  lemma {:induction false} ReadMeaning(f: Forest, inert: bool, depth: nat, p: Progress)
    requires Shaped(f, inert) && p.events <= MAX_EVENTS
    ensures Read(f, inert, depth, p) == Apply(Summarize(f, inert), depth, p)
    decreases f, 1
  {
    if f.Nil? {
      return;
    }
    var first: EntrySummary;
    match f {
      case Leaf(t, _) =>
        first := LeafSummary(t, inert);
        ReadLeafMeaning(t, inert, depth, p);
      case Element(_, _, _, _) =>
        first := ElementSummary(f, inert);
        ReadElementMeaning(f, inert, depth, p);
      case Note(_, _) =>
        first := NoteSummary(f);
        ReadNoteMeaning(f, depth, p);
    }
    hide ReadLeaf, ReadElement, ReadNote, Apply, Fill;
    assert Summarize(f, inert) == Join(first, Summarize(f.rest, inert));
    hide Summarize, Join;
    ApplyJoin(first, Summarize(f.rest, inert), depth, p);
    if Apply(first, depth, p).Some? {
      ReadMeaning(f.rest, inert, depth, Apply(first, depth, p).value);
    }
  }

  // ---------------------------------------------------------------- every accepted stream is a printed forest

  predicate Pushes(t: Token) {
    t.Open? && !t.empty && !HtmlVoid(t.name)
  }

  /** What an event that is not refused does to the open elements. */
  lemma StackEffect(t: Token, s: State, outer: nat)
    requires StateOk(s) && Step(t, s, outer).Ok?
    ensures var n := Step(t, s, outer).value;
            if Pushes(t) then
              && n.stack == s.stack + [t.name]
              && n.suppressed == if s.suppressed.None? && Inert(t.name) then Some(|s.stack| + 1) else s.suppressed
            else if t.Close? then
              && s.stack != [] && s.stack[|s.stack| - 1] == t.name && n.stack == s.stack[..|s.stack| - 1]
              && n.suppressed == if s.suppressed == Some(|s.stack|) then None else s.suppressed
            else n.stack == s.stack && n.suppressed == s.suppressed
    ensures t.Comment? && t.markup && s.suppressed.None? ==>
              Run(t.inner, State([], None, None, s.fields, s.events), outer + |s.stack| + 1).Ok?
  {
    hide Run;
    if t.Open? && HtmlVoid(t.name) {
      VoidNamesAreOrdinary(t.name);
    }
  }

  /** The first event of an accepted stream, and the stream after it. */
  lemma RunFirst(tokens: seq<Token>, s: State, outer: nat) returns (next: State)
    requires StateOk(s) && Run(tokens, s, outer).Ok?
    ensures tokens == [] ==> s.stack == []
    ensures tokens != [] ==>
              && StateOk(next) && Step(tokens[0], s.(events := s.events + 1), outer) == Ok(next)
              && Run(tokens[1..], next, outer) == Run(tokens, s, outer)
              && tokens == [tokens[0]] + tokens[1..]
  {
    next := s;
    if tokens != [] {
      next := Step(tokens[0], s.(events := s.events + 1), outer).value;
    }
  }

  predicate Bounded(s: State) {
    StateOk(s) && (s.suppressed.Some? ==> s.suppressed.value <= |s.stack|)
  }

  ghost predicate SplitsInto(tokens: seq<Token>, s: State, outer: nat, f: Forest, rest: seq<Token>, after: State)
    requires StateOk(s)
  {
    && tokens == Render(f) + rest
    && rest == tokens[|Render(f)|..]
    && Shaped(f, s.suppressed.Some?)
    && StateOk(after) && after.stack == s.stack && after.suppressed == s.suppressed
    && Run(rest, after, outer) == Run(tokens, s, outer)
    && if s.stack == [] then rest == [] else rest != [] && rest[0] == Close(s.stack[|s.stack| - 1])
  }

  /** Splits off the siblings that stand before the end of the innermost open element. */
  lemma {:induction false} Decompose(tokens: seq<Token>, s: State, outer: nat)
    returns (f: Forest, rest: seq<Token>, after: State)
    requires Bounded(s) && Run(tokens, s, outer).Ok?
    ensures SplitsInto(tokens, s, outer, f, rest, after)
    decreases tokens, 2
  {
    hide Run, Step;
    var next := RunFirst(tokens, s, outer);
    var counted := s.(events := s.events + 1);
    if tokens == [] {
      return Nil, tokens, s;
    }
    var t := tokens[0];
    StackEffect(t, counted, outer);
    if t.Close? {
      return Nil, tokens, s;
    }
    if Pushes(t) {
      f, rest, after := DecomposeElement(tokens, s, next, outer);
      return;
    }
    var tail;
    tail, rest, after := Decompose(tokens[1..], next, outer);
    if t.Comment? && t.markup && s.suppressed.None? {
      var inner := State([], None, None, s.fields, s.events + 1);
      var kids, end, last := Decompose(t.inner, inner, outer + |s.stack| + 1);
      NoteSplits(tokens, s, next, outer, kids, tail, rest, after);
      f := Note(kids, tail);
    } else {
      LeafSplits(tokens, s, next, outer, tail, rest, after);
      f := Leaf(t, tail);
    }
  }

  lemma LeafSplits(tokens: seq<Token>, s: State, next: State, outer: nat, tail: Forest, rest: seq<Token>, after: State)
    requires StateOk(s) && StateOk(next) && next.stack == s.stack && next.suppressed == s.suppressed
    requires tokens != [] && Run(tokens[1..], next, outer) == Run(tokens, s, outer)
    requires SplitsInto(tokens[1..], next, outer, tail, rest, after)
    requires !tokens[0].Close? && !Pushes(tokens[0])
    requires tokens[0].Comment? && tokens[0].markup ==> s.suppressed.Some?
    ensures SplitsInto(tokens, s, outer, Leaf(tokens[0], tail), rest, after)
  {
    hide Run, Render, Shaped, Pushes;
    LeafShape(tokens[0], tail, s.suppressed.Some?);
    ConsSplit(tokens, Render(tail), rest);
  }

  lemma LeafShape(t: Token, tail: Forest, inert: bool)
    ensures Render(Leaf(t, tail)) == [t] + Render(tail)
    ensures !t.Close? && !Pushes(t) && (t.Comment? && t.markup ==> inert) && Shaped(tail, inert) ==>
              Shaped(Leaf(t, tail), inert)
  {
    hide HtmlVoid;
  }

  lemma NoteShape(kids: Forest, tail: Forest)
    ensures Render(Note(kids, tail)) == [Comment(Render(kids), true)] + Render(tail)
    ensures Shaped(kids, false) && Shaped(tail, false) ==> Shaped(Note(kids, tail), false)
  {
  }

  lemma ConsSplit(tokens: seq<Token>, first: seq<Token>, rest: seq<Token>)
    requires tokens != [] && tokens[1..] == first + rest && rest == tokens[1..][|first|..]
    ensures tokens == ([tokens[0]] + first) + rest
    ensures rest == tokens[|[tokens[0]] + first|..]
  {
    assert tokens == [tokens[0]] + tokens[1..];
  }

  lemma NoteSplits(tokens: seq<Token>, s: State, next: State, outer: nat, kids: Forest, tail: Forest,
                   rest: seq<Token>, after: State)
    requires StateOk(s) && StateOk(next) && next.stack == s.stack && next.suppressed == s.suppressed
    requires tokens != [] && Run(tokens[1..], next, outer) == Run(tokens, s, outer)
    requires SplitsInto(tokens[1..], next, outer, tail, rest, after)
    requires tokens[0].Comment? && tokens[0].markup && s.suppressed.None?
    requires tokens[0].inner == Render(kids) + [] && Shaped(kids, false)
    ensures SplitsInto(tokens, s, outer, Note(kids, tail), rest, after)
  {
    hide Run, Render, Shaped;
    assert Render(kids) + [] == Render(kids);
    NoteShape(kids, tail);
    ConsSplit(tokens, Render(tail), rest);
  }

  lemma {:induction false} DecomposeElement(tokens: seq<Token>, s: State, entered: State, outer: nat)
    returns (f: Forest, rest: seq<Token>, after: State)
    requires Bounded(s) && Run(tokens, s, outer).Ok? && tokens != [] && Pushes(tokens[0])
    requires Bounded(entered) && entered.stack == s.stack + [tokens[0].name]
    requires entered.suppressed ==
             if s.suppressed.None? && Inert(tokens[0].name) then Some(|s.stack| + 1) else s.suppressed
    requires Run(tokens[1..], entered, outer) == Run(tokens, s, outer)
    ensures SplitsInto(tokens, s, outer, f, rest, after)
    decreases tokens, 1
  {
    hide Run, Step, Render, Inert, HtmlVoid;
    var t := tokens[0];
    var kids, middle, inside := Decompose(tokens[1..], entered, outer);
    var left := RunFirst(middle, inside, outer);
    StackEffect(middle[0], inside.(events := inside.events + 1), outer);
    assert middle[1..] == tokens[2 + |Render(kids)|..];
    var siblings;
    siblings, rest, after := Decompose(middle[1..], left, outer);
    f := Element(t.name, t.attributes, kids, siblings);
    RenderElement(f, tokens, middle, rest);
  }

  lemma RenderElement(f: Forest, tokens: seq<Token>, middle: seq<Token>, rest: seq<Token>)
    requires f.Element? && tokens != [] && tokens[0] == Open(f.name, f.attributes, false)
    requires tokens[1..] == Render(f.kids) + middle
    requires middle != [] && middle[0] == Close(f.name)
    requires middle[1..] == Render(f.rest) + rest
    ensures tokens == Render(f) + rest
    ensures rest == tokens[|Render(f)|..]
  {
    assert tokens == [tokens[0]] + (Render(f.kids) + ([middle[0]] + (Render(f.rest) + rest)));
  }

  // ---------------------------------------------------------------- acceptance

  /** What parsing makes of a printed forest. */
  lemma ForestOutcome(f: Forest)
    requires Shaped(f, false)
    ensures Success(ParseFields(Render(f))) ==
            if Valid(f, false) && Size(f) + 1 <= MAX_EVENTS && Depth(f) <= MAX_DEPTH
            then Fill(NO_FIELDS, Entries(f, false))
            else None
  {
    hide Run, Read, Fill;
    Simulate(f, [], START, 0);
    assert Render(f) + [] == Render(f);
    ReadMeaning(f, false, 0, At(START));
    var read := Read(f, false, 0, At(START));
    if read.Some? {
      UnfoldEnd(With(START, read.value), 0);
    }
  }

  lemma TableIsFilled(es: seq<Entry>, fields: Fields)
    requires forall k :: 0 <= k < |es| ==> es[k].index < 4
    ensures Distinct(es) && TableOf(es, fields) <==> Fill(NO_FIELDS, es) == Some(fields)
  {
    hide Fill;
    FillMeaning(NO_FIELDS, es);
    if Fill(NO_FIELDS, es).Some? {
      var filled := Fill(NO_FIELDS, es).value;
      if TableOf(es, fields) {
        assert filled == fields;
      }
    }
  }

  /**
   A stream is accepted with a field table exactly when it is the printing of a
   document: a well-formed tree, within the limits, in which no field stands twice and
   the table holds the text of the fields standing outside inert elements.
   */
  lemma AcceptsExactlyDocuments(tokens: seq<Token>, fields: Fields)
    ensures ParseFields(tokens) == Ok(fields) <==> exists f :: IsDocument(f, tokens, fields)
  {
    hide Run, Fill;
    if ParseFields(tokens) == Ok(fields) {
      var f, rest, after := Decompose(tokens, START, 0);
      assert Render(f) + [] == Render(f);
      ForestOutcome(f);
      TableIsFilled(Entries(f, false), fields);
      assert IsDocument(f, tokens, fields);
    }
    if f :| IsDocument(f, tokens, fields) {
      ForestOutcome(f);
      TableIsFilled(Entries(f, false), fields);
    }
  }

  // ---------------------------------------------------------------- inert content

  /** Empties every inert element. */
  function Blank(f: Forest): Forest {
    match f
    case Nil => Nil
    case Leaf(t, rest) => Leaf(t, Blank(rest))
    case Element(name, attributes, kids, rest) =>
      Element(name, attributes,
              if Inert(name) then Nil else if FieldIndex(name).Some? then kids else Blank(kids),
              Blank(rest))
    case Note(kids, rest) => Note(Blank(kids), Blank(rest))
  }

  lemma {:induction false} BlankKeeps(f: Forest)
    requires Shaped(f, false)
    ensures Shaped(Blank(f), false)
    ensures Valid(f, false) ==> Valid(Blank(f), false)
    ensures Size(Blank(f)) <= Size(f) && Depth(Blank(f)) <= Depth(f)
    ensures Entries(Blank(f), false) == Entries(f, false)
  {
    match f
    case Nil =>
    case Leaf(_, rest) => BlankKeeps(rest);
    case Element(name, _, kids, rest) =>
      if !Inert(name) {
        BlankKeeps(kids);
      }
      BlankKeeps(rest);
    case Note(kids, rest) =>
      BlankKeeps(kids);
      BlankKeeps(rest);
  }

  /**
   What stands inside script, style, template and textarea elements never changes a
   successful result: removing it all keeps the result, and two accepted documents that
   differ only there have the same fields.
   */
  lemma InertContentIsIgnored(f: Forest, g: Forest)
    requires Shaped(f, false) && Shaped(g, false) && Blank(f) == Blank(g)
    requires ParseFields(Render(f)).Ok?
    ensures ParseFields(Render(Blank(f))) == ParseFields(Render(f))
    ensures ParseFields(Render(g)).Ok? ==> ParseFields(Render(g)) == ParseFields(Render(f))
  {
    hide Run, Fill;
    BlankKeeps(f);
    BlankKeeps(g);
    ForestOutcome(f);
    ForestOutcome(Blank(f));
    ForestOutcome(g);
  }
}
