/**
 The requests the bootstrap listener answers, and its refusals (`respond` in
 `crates/client/src/browser_bootstrap.rs`), read off the lines of the header.
 */
module BootstrapRequests {
  import opened Common
  import opened Bootstrap

  /** The line is a field of this name and value: the name ends at its first colon. */
  predicate IsField(line: string, name: string, value: string) {
    line == name + ":" + value && ':' !in name
  }

  lemma FieldMeaning(line: string, name: string, value: string)
    ensures AsField(line) == Some(Field(name, value)) <==> IsField(line, name, value)
  {
    hide Index;
    assert ":" == [':'];
    if IsField(line, name, value) {
      IndexOfChar(name, ':', value, 0);
      assert line == name + [':'] + value;
      assert line[..|name|] == name && line[|name| + 1..] == value;
    }
    if AsField(line) == Some(Field(name, value)) {
      NoColonBefore(line, 0);
      var at := Index(line, ":", 0).value;
      assert line[at..at + 1] == ":";
      assert line == line[..at] + ":" + line[at + 1..];
    }
  }

  lemma {:induction false} NoColonBefore(line: string, from: nat)
    requires from <= |line|
    ensures var at := Index(line, ":", from);
            at.Some? ==> forall i :: from <= i < at.value ==> line[i] != ':'
    decreases |line| - from
  {
    if from < |line| {
      assert line[from..from + 1] == [line[from]];
      if line[from] != ':' {
        NoColonBefore(line, from + 1);
      }
    }
  }

  /** The value without the blanks around it. */
  ghost predicate IsTrim(value: string, core: string, blank: char -> bool) {
    exists a, b ::
      && value == a + core + b && AllBlank(a, blank) && AllBlank(b, blank)
      && (core != "" ==> !blank(core[0]) && !blank(core[|core| - 1]))
  }

  predicate AllBlank(s: string, blank: char -> bool) {
    forall i :: 0 <= i < |s| ==> blank(s[i])
  }

  lemma {:induction false} TrimIs(value: string, blank: char -> bool)
    ensures IsTrim(value, TrimBoth(value, blank), blank)
    decreases |value|
  {
    hide IsTrim;
    if value == "" || (!blank(value[0]) && !blank(value[|value| - 1])) {
      NothingToTrim(value, blank);
    } else if blank(value[0]) {
      TrimIs(value[1..], blank);
      BlankInFront(value, TrimBoth(value[1..], blank), blank);
    } else {
      TrimIs(value[..|value| - 1], blank);
      BlankBehind(value, TrimBoth(value[..|value| - 1], blank), blank);
    }
  }

  lemma NothingToTrim(value: string, blank: char -> bool)
    requires value == "" || (!blank(value[0]) && !blank(value[|value| - 1]))
    ensures IsTrim(value, value, blank)
  {
    assert value == "" + value + "";
    assert AllBlank("", blank);
  }

  lemma TrimParts(value: string, core: string, blank: char -> bool) returns (a: string, b: string)
    requires IsTrim(value, core, blank)
    ensures value == a + core + b && AllBlank(a, blank) && AllBlank(b, blank)
    ensures core != "" ==> !blank(core[0]) && !blank(core[|core| - 1])
  {
    a, b :| value == a + core + b && AllBlank(a, blank) && AllBlank(b, blank)
            && (core != "" ==> !blank(core[0]) && !blank(core[|core| - 1]));
  }

  lemma PartsTrim(a: string, core: string, b: string, blank: char -> bool)
    requires AllBlank(a, blank) && AllBlank(b, blank)
    requires core != "" ==> !blank(core[0]) && !blank(core[|core| - 1])
    ensures IsTrim(a + core + b, core, blank)
  {
  }

  lemma BlankInFront(value: string, core: string, blank: char -> bool)
    requires value != "" && blank(value[0]) && IsTrim(value[1..], core, blank)
    ensures IsTrim(value, core, blank)
  {
    hide IsTrim, AllBlank;
    var a, b := TrimParts(value[1..], core, blank);
    OneBlank(value[0], blank);
    BlanksJoin([value[0]], a, blank);
    Regroup([value[0]], a, core, b);
    PartsTrim([value[0]] + a, core, b, blank);
    assert value == [value[0]] + value[1..];
  }

  lemma BlankBehind(value: string, core: string, blank: char -> bool)
    requires value != "" && blank(value[|value| - 1]) && IsTrim(value[..|value| - 1], core, blank)
    ensures IsTrim(value, core, blank)
  {
    hide IsTrim, AllBlank;
    var last := value[|value| - 1];
    var a, b := TrimParts(value[..|value| - 1], core, blank);
    OneBlank(last, blank);
    BlanksJoin(b, [last], blank);
    Regroup([last], a, core, b);
    PartsTrim(a, core, b + [last], blank);
    assert value == value[..|value| - 1] + [last];
  }

  lemma OneBlank(c: char, blank: char -> bool)
    requires blank(c)
    ensures AllBlank([c], blank)
  {
  }

  lemma BlanksJoin(a: string, b: string, blank: char -> bool)
    requires AllBlank(a, blank) && AllBlank(b, blank)
    ensures AllBlank(a + b, blank)
  {
  }

  lemma Regroup(first: string, a: string, core: string, b: string)
    ensures first + (a + core + b) == (first + a) + core + b
    ensures (a + core + b) + first == a + core + (b + first)
  {
  }

  lemma {:induction false} TrimOf(a: string, core: string, b: string, blank: char -> bool)
    requires AllBlank(a, blank) && AllBlank(b, blank)
    requires core != "" ==> !blank(core[0]) && !blank(core[|core| - 1])
    ensures TrimBoth(a + core + b, blank) == core
    decreases |a| + |b|
  {
    var value := a + core + b;
    if a != "" {
      assert value[0] == a[0] && value[1..] == a[1..] + core + b;
      TrimOf(a[1..], core, b, blank);
    } else if b != "" {
      var n := |b| - 1;
      assert value[|value| - 1] == b[n] && value[..|value| - 1] == a + core + b[..n];
      if core != "" {
        assert value[0] == core[0];
        TrimOf(a, core, b[..n], blank);
      } else {
        assert value == b && a + core + b[1..] == b[1..] && value[0] == b[0];
        TrimOf(a, core, b[1..], blank);
      }
    } else {
      assert value == core;
    }
  }

  lemma TrimMeaning(value: string, core: string, blank: char -> bool)
    ensures TrimBoth(value, blank) == core <==> IsTrim(value, core, blank)
  {
    TrimIs(value, blank);
    if a, b :| value == a + core + b && AllBlank(a, blank) && AllBlank(b, blank)
               && (core != "" ==> !blank(core[0]) && !blank(core[|core| - 1])) {
      TrimOf(a, core, b, blank);
    }
  }

  /** A field the listener puts up with: well formed, and no body, upgrade or transfer coding. */
  ghost predicate Harmless(name: string, value: string) {
    && name != ""
    && (forall i :: 0 <= i < |name| ==>
                      'a' <= name[i] <= 'z' || 'A' <= name[i] <= 'Z' || '0' <= name[i] <= '9'
                      || name[i] in "!#$%&'*+-.^_`|~")
    && (forall i :: 0 <= i < |value| ==> value[i] == '\t' || (value[i] >= ' ' && value[i] as int != 127))
    && Lower(name) != "transfer-encoding" && Lower(name) != "upgrade"
    && (Lower(name) == "content-length" ==> IsTrim(value, "0", WhiteSpace))
  }

  lemma LowerMeaning(name: string, lower: string)
    requires forall i :: 0 <= i < |lower| ==> !('A' <= lower[i] <= 'Z')
    ensures EqualsIgnoringCase(name, lower) <==> Lower(name) == lower
  {
    if EqualsIgnoringCase(name, lower) {
      assert Lower(name) == lower;
    }
  }

  lemma HarmlessMeaning(f: Field)
    ensures WellFormed(f) && !Forbidden(f) <==> Harmless(f.name, f.value)
  {
    hide TrimBoth, IsTrim, EqualsIgnoringCase, Lower;
    LowerMeaning(f.name, "transfer-encoding");
    LowerMeaning(f.name, "upgrade");
    LowerMeaning(f.name, "content-length");
    TrimMeaning(f.value, "0", WhiteSpace);
  }

  /** The line is the Host field, for this authority. */
  ghost predicate HostLine(line: string) {
    exists name, value :: IsField(line, name, value) && Lower(name) == "host"
  }

  ghost predicate HostLineFor(line: string, authority: string) {
    exists name, value :: IsField(line, name, value) && Lower(name) == "host" && IsTrim(value, authority, SpaceOrTab)
  }

  ghost predicate HarmlessLine(line: string) {
    exists name, value :: IsField(line, name, value) && Harmless(name, value)
  }

  lemma LineMeaning(line: string, authority: string)
    ensures LineOk(line) <==> HarmlessLine(line)
    ensures AsField(line).Some? && IsHost(AsField(line).value) <==> HostLine(line)
    ensures HostLineFor(line, authority) <==>
            HostLine(line) && TrimBoth(AsField(line).value.value, SpaceOrTab) == authority
  {
    hide AsField, WellFormed, Forbidden, Harmless, TrimBoth, IsTrim, IsField, Lower, EqualsIgnoringCase;
    forall name, value
      ensures AsField(line) == Some(Field(name, value)) <==> IsField(line, name, value)
    {
      FieldMeaning(line, name, value);
    }
    if AsField(line).Some? {
      var f := AsField(line).value;
      assert IsField(line, f.name, f.value);
      HarmlessMeaning(f);
      LowerMeaning(f.name, "host");
      TrimMeaning(f.value, authority, SpaceOrTab);
    }
  }

  lemma LastHost(lines: seq<string>, authority: string)
    requires lines != []
    ensures var (init, last) := (lines[..|lines| - 1], lines[|lines| - 1]);
            && (Hosts(lines) == [] <==> Hosts(init) == [] && !HostLine(last))
            && (Hosts(lines) == [authority] <==>
                if HostLine(last) then Hosts(init) == [] && HostLineFor(last, authority)
                else Hosts(init) == [authority])
  {
    hide AsField, IsHost, TrimBoth, HostLine, HostLineFor;
      var (init, last) := (lines[..|lines| - 1], lines[|lines| - 1]);
    LineMeaning(last, authority);
    if HostLine(last) {
      var value := TrimBoth(AsField(last).value.value, SpaceOrTab);
      assert Hosts(lines) == Hosts(init) + [value];
      if Hosts(lines) == [authority] {
        assert |Hosts(init)| == 0;
      }
    }
  }

  /** One line, and no other, is a Host field, and it is for this authority. */
  ghost predicate OneHost(lines: seq<string>, authority: string, i: nat) {
    && i < |lines| && HostLineFor(lines[i], authority)
    && forall j :: 0 <= j < |lines| && j != i ==> !HostLine(lines[j])
  }

  lemma {:induction false} HostsMeaning(lines: seq<string>, authority: string)
    ensures Hosts(lines) == [] <==> forall i :: 0 <= i < |lines| ==> !HostLine(lines[i])
    ensures Hosts(lines) == [authority] <==> exists i: nat :: OneHost(lines, authority, i)
  {
    hide Hosts, HostLine, HostLineFor, OneHost;
    if lines == [] {
      NoHosts(authority);
    } else {
      HostsMeaning(lines[..|lines| - 1], authority);
      LastHost(lines, authority);
      LastOneHost(lines, authority);
    }
  }

  lemma LastOneHost(lines: seq<string>, authority: string)
    requires lines != []
    ensures var (init, last) := (lines[..|lines| - 1], lines[|lines| - 1]);
            var none := forall i :: 0 <= i < |init| ==> !HostLine(init[i]);
            && ((forall i :: 0 <= i < |lines| ==> !HostLine(lines[i])) <==> none && !HostLine(last))
            && ((exists i: nat :: OneHost(lines, authority, i)) <==>
                if HostLine(last) then none && HostLineFor(last, authority)
                else exists i: nat :: OneHost(init, authority, i))
  {
    hide HostLine, HostLineFor, OneHost;
    var n := |lines| - 1;
    var init := lines[..n];
    assert forall i :: 0 <= i < n ==> init[i] == lines[i];
    OneHostLast(lines, authority);
    forall i: nat | i < n
      ensures OneHost(lines, authority, i) <==> OneHost(init, authority, i) && !HostLine(lines[n])
    {
      OneHostEarlier(lines, authority, i);
    }
    forall i: nat | i >= n
      ensures !OneHost(init, authority, i) && (i > n ==> !OneHost(lines, authority, i))
    {
      OneHostInside(lines, authority, i);
    }
    LineMeaning(lines[n], authority);
  }

  lemma OneHostInside(lines: seq<string>, authority: string, i: nat)
    requires lines != [] && i >= |lines| - 1
    ensures !OneHost(lines[..|lines| - 1], authority, i) && (i > |lines| - 1 ==> !OneHost(lines, authority, i))
  {
  }

  lemma OneHostLast(lines: seq<string>, authority: string)
    requires lines != []
    ensures var n := |lines| - 1;
            OneHost(lines, authority, n) <==>
            HostLineFor(lines[n], authority) && forall j :: 0 <= j < n ==> !HostLine(lines[j])
  {
    hide HostLine, HostLineFor;
  }

  lemma OneHostEarlier(lines: seq<string>, authority: string, i: nat)
    requires i < |lines| - 1
    ensures var n := |lines| - 1;
            OneHost(lines, authority, i) <==> OneHost(lines[..n], authority, i) && !HostLine(lines[n])
  {
    hide HostLine, HostLineFor;
    var init := lines[..|lines| - 1];
    assert forall j :: 0 <= j < |init| ==> init[j] == lines[j];
  }

  lemma NoHosts(authority: string)
    ensures Hosts([]) == [] && forall i: nat :: !OneHost([], authority, i)
  {
  }

  /** The fields are right exactly when every line is a harmless field and one of them, alone, is the Host expected. */
  lemma FieldsMeaning(lines: seq<string>, authority: string)
    ensures FieldsOk(lines, authority) <==>
            && (forall i :: 0 <= i < |lines| ==> HarmlessLine(lines[i]))
            && exists i: nat :: OneHost(lines, authority, i)
  {
    hide LineOk, OneHost, HarmlessLine, HostLine, HostLineFor, Hosts;
    HostsMeaning(lines, authority);
    forall i | 0 <= i < |lines|
      ensures LineOk(lines[i]) <==> HarmlessLine(lines[i])
    {
      LineMeaning(lines[i], authority);
    }
  }

  /** A request line of three parts: verb, target and the version. */
  ghost predicate Asks(line: string, verb: string, target: string) {
    NoSpace(verb) && NoSpace(target) && line == verb + " " + target + " HTTP/1.1"
  }

  /**
   The answer to a header: malformed unless its first line asks for something in HTTP/1.1 and its
   fields are right; otherwise not found for another target, not allowed for another verb, and
   answered for the rest.
   */
  lemma JudgeOutcomes(header: string, authority: string, path: string, verb: string, target: string)
    ensures var lines := Split(header, "\r\n");
            var verdict := Judge(Some(header), authority, path);
            && (Asks(lines[0], verb, target) && FieldsOk(lines[1..], authority) ==>
                  verdict == if target != path then Reject(404)
                  else if verb == "GET" then AnswerGet
                  else if verb == "HEAD" then AnswerHead
                  else Reject(405))
            && (!FieldsOk(lines[1..], authority) ==> verdict == Reject(400))
            && ((forall v, t :: !Asks(lines[0], v, t)) ==> verdict == Reject(400))
  {
    hide Split, FieldsOk, NoSpace;
    var lines := Split(header, "\r\n");
    var parts := Split(lines[0], " ");
    if NoSpace(verb) && NoSpace(target) {
      assert RequestLine(verb, target) == verb + " " + target + " HTTP/1.1";
      RequestLineParts(lines[0], verb, target);
    }
    if |parts| == 3 && parts[2] == "HTTP/1.1" {
      PartsHaveNoSpace(lines[0]);
      assert parts == [parts[0], parts[1], "HTTP/1.1"];
      RequestLineParts(lines[0], parts[0], parts[1]);
      assert Asks(lines[0], parts[0], parts[1]);
    }
  }

  lemma {:induction false} PartsHaveNoSpace(text: string)
    ensures forall i :: 0 <= i < |Split(text, " ")| ==> NoSpace(Split(text, " ")[i])
    decreases |text|
  {
    assert " " == [' '];
    var at := Index(text, " ", 0);
    NoSpaceBefore(text, 0);
    if at.Some? {
      PartsHaveNoSpace(text[at.value + 1..]);
      assert forall i :: 0 <= i < at.value ==> text[..at.value][i] == text[i];
    }
  }

  lemma {:induction false} NoSpaceBefore(text: string, from: nat)
    requires from <= |text|
    ensures var at := Index(text, " ", from);
            forall i :: from <= i < (if at.Some? then at.value else |text|) ==> text[i] != ' '
    decreases |text| - from
  {
    if from < |text| {
      assert text[from..from + 1] == [text[from]];
      if text[from] != ' ' {
        NoSpaceBefore(text, from + 1);
      }
    }
  }
}
