/**
 GlobalProtect completion decoding (`crates/client/src/globalprotect.rs`), from the
 event stream of the XML reader onwards.

 `Run` is the event-by-event behaviour of `parse_fragment`, and `ParseFragment` its loop on
 the mutable field table.
 */
module Completion {
  import opened Common

  const MAX_DEPTH: nat := 64
  const MAX_EVENTS: nat := 32_768

  // ---------------------------------------------------------------- reader events

  /** Attributes of a tag: the raw text, and what iterating them yields (None: a syntax error). */
  datatype Attributes = Attributes(raw: string, values: seq<Option<string>>)

  datatype Token =
    | Open(name: string, attributes: Attributes, empty: bool)
    | Close(name: string)
    | Text(text: string)
    | CData(text: string)
    | Reference(name: string)
      // `markup`: the comment text contains '<' and is read as a fragment of its own.
    | Comment(inner: seq<Token>, markup: bool)
      // Document type, XML declaration or processing instruction.
    | Forbidden
      // The reader reported an error.
    | Broken

  type Fields = f: seq<Option<string>> | |f| == 4 witness [None, None, None, None]

  const NO_FIELDS: Fields := [None, None, None, None]
  const FIELD_NAMES: seq<string> := ["saml-auth-status", "saml-username", "prelogin-cookie", "portal-userauthcookie"]

  // ---------------------------------------------------------------- characters and references

  predicate XmlChar(c: char) {
    var n := c as int;
    n == 0x9 || n == 0xA || n == 0xD || 0x20 <= n <= 0xD7FF || 0xE000 <= n <= 0xFFFD || 0x10000 <= n <= 0x10FFFF
  }

  const VOID_NAMES: seq<string> :=
    ["area", "base", "br", "col", "embed", "hr", "img", "input", "link", "meta", "param", "source", "track", "wbr"]

  predicate HtmlVoid(name: string) {
    exists i :: 0 <= i < |VOID_NAMES| && EqualsIgnoringCase(name, VOID_NAMES[i])
  }

  predicate Inert(name: string) {
    || EqualsIgnoringCase(name, "script")
    || EqualsIgnoringCase(name, "style")
    || EqualsIgnoringCase(name, "template")
    || EqualsIgnoringCase(name, "textarea")
  }

  predicate CasName(name: string) {
    name == "cas-as" || name == "token"
  }

  function FieldIndex(name: string): (i: Option<nat>)
    ensures i.Some? <==> name in FIELD_NAMES
    ensures i.Some? ==> i.value < 4 && FIELD_NAMES[i.value] == name
  {
    if name == FIELD_NAMES[0] then Some(0)
    else if name == FIELD_NAMES[1] then Some(1)
    else if name == FIELD_NAMES[2] then Some(2)
    else if name == FIELD_NAMES[3] then Some(3)
    else None
  }

  function DigitValue(c: char, radix: nat): (d: Option<nat>)
    ensures d.Some? ==> d.value < radix
  {
    var v: nat := if '0' <= c <= '9' then c as int - '0' as int
                  else if 'a' <= c <= 'f' then c as int - 'a' as int + 10
                  else if 'A' <= c <= 'F' then c as int - 'A' as int + 10
                  else 16;
    if v < radix then Some(v) else None
  }

  function Number(s: string, radix: nat): (n: Option<nat>) {
    if s == [] then None
    else
      match DigitValue(s[|s| - 1], radix)
      case None => None
      case Some(d) =>
        if |s| == 1 then Some(d)
        else
          match Number(s[..|s| - 1], radix)
          case None => None
          case Some(n) => Some(n * radix + d)
  }

  /**
   Resolution of `&name;`: a numeric reference must denote a scalar value of the XML
   character set, and any other name must be one of the five predefined entities.
   */
  function Resolve(name: string): (c: Option<char>)
    ensures c.Some? ==> XmlChar(c.value)
  {
    if |name| > 0 && name[0] == '#' then
      var code := if |name| > 1 && name[1] == 'x' then Number(name[2..], 16) else Number(name[1..], 10);
      match code
      case None => None
      case Some(n) =>
        if 0 < n < 0xD800 || 0xE000 <= n <= 0x10FFFF then
          if XmlChar(n as char) then Some(n as char) else None
        else None
    else if name == "amp" then Some('&')
    else if name == "lt" then Some('<')
    else if name == "gt" then Some('>')
    else if name == "apos" then Some('\'')
    else if name == "quot" then Some('"')
    else None
  }

  // ---------------------------------------------------------------- attribute values

  function Find(s: string, c: char): (i: nat)
    ensures i <= |s|
    ensures i < |s| ==> s[i] == c
    ensures forall j :: 0 <= j < i ==> s[j] != c
  {
    if s == [] || s[0] == c then 0 else 1 + Find(s[1..], c)
  }

  /** Every '&' in the value opens a reference that resolves and is closed by ';'. */
  predicate ReferencesResolve(s: string)
    decreases |s|
  {
    var start := Find(s, '&');
    start < |s| ==>
      var rest := s[start + 1..];
      var end := Find(rest, ';');
      end < |rest| && Resolve(rest[..end]).Some? && ReferencesResolve(rest[end + 1..])
  }

  predicate AttributeOk(value: string) {
    '<' !in value && ReferencesResolve(value)
  }

  predicate AttributesOk(a: Attributes) {
    forall i :: 0 <= i < |a.values| ==> a.values[i].Some? && AttributeOk(a.values[i].value)
  }

  method ValidateAttribute(value: string) returns (r: Result<()>)
    ensures r.Ok? <==> AttributeOk(value)
    ensures r.Err? ==> r.code == InvalidInput
  {
    if '<' in value {
      return Err(InvalidInput);
    }
    var rest := value;
    while Find(rest, '&') < |rest|
      invariant ReferencesResolve(value) <==> ReferencesResolve(rest)
      decreases |rest|
    {
      rest := rest[Find(rest, '&') + 1..];
      var end := Find(rest, ';');
      if end == |rest| || Resolve(rest[..end]).None? {
        return Err(InvalidInput);
      }
      rest := rest[end + 1..];
    }
    return Ok(());
  }

  // ---------------------------------------------------------------- the event machine

  /** `stack`, `active`, `suppressed`, `fields` and `events` of `parse_fragment`. */
  datatype State = State(
    stack: seq<string>, active: Option<nat>, suppressed: Option<nat>, fields: Fields, events: nat)

  predicate StateOk(s: State) {
    s.active.Some? ==> s.active.value < 4 && s.fields[s.active.value].Some?
  }

  function Append(s: State, text: string): (r: State)
    requires StateOk(s)
    ensures StateOk(r)
  {
    match s.active
    case None => s
    case Some(i) => s.(fields := s.fields[i := Some(s.fields[i].value + text)])
  }

  function OpenStep(t: Token, s: State, outer: nat): (r: Result<State>)
    requires t.Open? && StateOk(s)
    ensures r.Ok? ==> StateOk(r.value)
  {
    if outer + |s.stack| + 1 > MAX_DEPTH || s.active.Some? || !AttributesOk(t.attributes) then Err(InvalidInput)
    else
      var pushed := if t.empty || HtmlVoid(t.name) then s else s.(stack := s.stack + [t.name]);
      if s.suppressed.Some? then Ok(pushed)
      else if Inert(t.name) then
        Ok(if t.empty then pushed else pushed.(suppressed := Some(|s.stack| + 1)))
      else if CasName(t.name) then Err(UnsupportedAuthentication)
      else
        match FieldIndex(t.name)
        case None => Ok(pushed)
        case Some(i) =>
          if s.fields[i].Some? || t.attributes.raw != "" then Err(InvalidInput)
          else
            Ok(pushed.(fields := s.fields[i := Some("")], active := if t.empty then None else Some(i)))
  }

  function CloseStep(name: string, s: State): (r: Result<State>)
    ensures r.Ok? ==> StateOk(r.value)
  {
    if s.stack == [] || s.stack[|s.stack| - 1] != name then Err(InvalidInput)
    else
      Ok(s.(stack := s.stack[..|s.stack| - 1],
         active := None,
         suppressed := if s.suppressed == Some(|s.stack|) then None else s.suppressed))
  }

  /** One event other than end of input; `s.events` already counts it. */
  function Step(t: Token, s: State, outer: nat): (r: Result<State>)
    requires StateOk(s)
    ensures r.Ok? ==> StateOk(r.value)
    decreases t, 0
  {
    match t
    case Open(_, _, _) => OpenStep(t, s, outer)
    case Close(name) => CloseStep(name, s)
    case Text(text) => Ok(Append(s, text))
    case CData(text) => Ok(Append(s, text))
    case Reference(name) =>
      (match Resolve(name)
       case None => Err(InvalidInput)
       case Some(c) => Ok(Append(s, [c])))
    case Comment(inner, markup) =>
      if s.active.Some? then Err(InvalidInput)
      else if s.suppressed.Some? || !markup then Ok(s)
      else
        (match Run(inner, State([], None, None, s.fields, s.events), outer + |s.stack| + 1)
         case Err(e) => Err(e)
         case Ok(n) => Ok(s.(fields := n.fields, events := n.events)))
    case Forbidden => Err(InvalidInput)
    case Broken => Err(InvalidInput)
  }

  /** The whole loop of `parse_fragment`; the end of the token list is the end-of-input event. */
  function Run(tokens: seq<Token>, s: State, outer: nat): (r: Result<State>)
    requires StateOk(s)
    ensures r.Ok? ==> StateOk(r.value)
    decreases tokens, 1
  {
    var counted := s.(events := s.events + 1);
    if counted.events > MAX_EVENTS then Err(InvalidInput)
    else if tokens == [] then
      if s.stack != [] then Err(InvalidInput) else Ok(counted)
    else
      match Step(tokens[0], counted, outer)
      case Err(e) => Err(e)
      case Ok(n) => Run(tokens[1..], n, outer)
  }

  const START: State := State([], None, None, NO_FIELDS, 0)

  /** The fields found in a document, or the error it is refused with. */
  function ParseFields(tokens: seq<Token>): (r: Result<Fields>) {
    match Run(tokens, START, 0)
    case Err(e) => Err(e)
    case Ok(s) => Ok(s.fields)
  }

  /** One turn of the loop. */
  lemma RunTurn(tokens: seq<Token>, i: nat, s: State, outer: nat)
    requires StateOk(s) && i <= |tokens|
    ensures var counted := s.(events := s.events + 1);
            Run(tokens[i..], s, outer) ==
            if counted.events > MAX_EVENTS then Err(InvalidInput)
            else if i == |tokens| then (if s.stack != [] then Err(InvalidInput) else Ok(counted))
            else
              match Step(tokens[i], counted, outer)
              case Err(e) => Err(e)
              case Ok(n) => Run(tokens[i + 1..], n, outer)
  {
    hide Step;
    if i < |tokens| {
      assert tokens[i..][1..] == tokens[i + 1..];
    }
  }

  /** The loop and its recursion into comments, on the mutable field table. */
  method ParseFragment(tokens: seq<Token>, fields: array<Option<string>>, events: nat, outer: nat)
    returns (r: Result<()>, total: nat)
    requires fields.Length == 4
    modifies fields
    ensures var spec := Run(tokens, State([], None, None, old(fields[..]), events), outer);
            && (r.Ok? <==> spec.Ok?)
            && (r.Err? ==> spec.Err? && r.code == spec.code)
            && (r.Ok? ==> fields[..] == spec.value.fields && total == spec.value.events)
    decreases tokens
  {
    hide Run, Resolve, FieldIndex, Inert, HtmlVoid, CasName, AttributesOk;
    total := events;
    var stack: seq<string> := [];
    var active: Option<nat> := None;
    var suppressed: Option<nat> := None;
    ghost var spec := Run(tokens, State([], None, None, fields[..], events), outer);
    var i := 0;
    while true
      invariant 0 <= i <= |tokens|
      invariant StateOk(State(stack, active, suppressed, fields[..], total))
      invariant Run(tokens[i..], State(stack, active, suppressed, fields[..], total), outer) == spec
      decreases |tokens| - i
    {
      ghost var before := State(stack, active, suppressed, fields[..], total + 1);
      RunTurn(tokens, i, before.(events := total), outer);
      total := total + 1;
      if total > MAX_EVENTS {
        return Err(InvalidInput), total;
      }
      if i == |tokens| {
        return if stack != [] then Err(InvalidInput) else Ok(()), total;
      }
      var t := tokens[i];
      match t {
        case Open(name, attributes, empty) =>
          if outer + |stack| + 1 > MAX_DEPTH || active.Some? {
            return Err(InvalidInput), total;
          }
          var ok := ValidateAttributes(attributes);
          if !ok {
            return Err(InvalidInput), total;
          }
          if suppressed.None? {
            if Inert(name) {
              if !empty {
                suppressed := Some(|stack| + 1);
              }
            } else if CasName(name) {
              return Err(UnsupportedAuthentication), total;
            } else if FieldIndex(name).Some? {
              var index := FieldIndex(name).value;
              if fields[index].Some? || attributes.raw != "" {
                return Err(InvalidInput), total;
              }
              fields[index] := Some("");
              if !empty {
                active := Some(index);
              }
            }
          }
          if !empty && !HtmlVoid(name) {
            stack := stack + [name];
          }
        case Close(name) =>
          if stack == [] || stack[|stack| - 1] != name {
            return Err(InvalidInput), total;
          }
          stack := stack[..|stack| - 1];
          active := None;
          if suppressed == Some(|stack| + 1) {
            suppressed := None;
          }
        case Text(text) =>
          if active.Some? {
            fields[active.value] := Some(fields[active.value].value + text);
          }
        case CData(text) =>
          if active.Some? {
            fields[active.value] := Some(fields[active.value].value + text);
          }
        case Reference(name) =>
          var c := Resolve(name);
          if c.None? {
            return Err(InvalidInput), total;
          }
          if active.Some? {
            fields[active.value] := Some(fields[active.value].value + [c.value]);
          }
        case Comment(inner, markup) =>
          if active.Some? {
            return Err(InvalidInput), total;
          }
          if suppressed.None? && markup {
            var nested;
            nested, total := ParseFragment(inner, fields, total, outer + |stack| + 1);
            if nested.Err? {
              return Err(nested.code), total;
            }
          }
        case Forbidden =>
          return Err(InvalidInput), total;
        case Broken =>
          return Err(InvalidInput), total;
      }
      assert Step(t, before, outer) == Ok(State(stack, active, suppressed, fields[..], total));
      i := i + 1;
    }
  }

  method ValidateAttributes(a: Attributes) returns (ok: bool)
    ensures ok <==> AttributesOk(a)
  {
    for i := 0 to |a.values|
      invariant forall j :: 0 <= j < i ==> a.values[j].Some? && AttributeOk(a.values[j].value)
    {
      if a.values[i].None? {
        return false;
      }
      var r := ValidateAttribute(a.values[i].value);
      if r.Err? {
        return false;
      }
    }
    return true;
  }
}
