/**
 The form callback of the authentication worker (`Worker::form`) and what it promises
 over a whole authentication.
 */
module AuthForm {
  import opened Common
  import opened ChoiceIds

  // ---------------------------------------------------------------- native forms and profiles

  datatype OptionKind =
    | TextOption
    | PasswordOption
      // None: a missing choice.
    | SelectOption(choices: seq<Option<Choice>>)
    | HiddenOption
    | TokenOption
    | SsoOption
    | UnknownOption

  /** `ignored` and `notUser` are the flags 1 and 0x8000; a missing name is None. */
  datatype NativeOption = NativeOption(
    kind: OptionKind, name: Option<string>, ignored: bool, numeric: bool, notUser: bool)

  /** `group` is the index of the authentication group option. */
  datatype NativeForm = NativeForm(authId: string, error: bool, options: seq<NativeOption>, group: Option<nat>)

  datatype Profile = Profile(
    protocol: string, username: Option<string>, authGroup: Option<string>, gateway: Option<string>, token: bool)

  datatype FieldKind = Text | Password | Select | Token

  /** A prompt field, the option it stands for, and the native values of its choices. */
  datatype Field = Field(
    option: nat, name: string, kind: FieldKind, numeric: bool, choices: seq<Choice>, native: seq<string>)

  predicate Visible(o: NativeOption) {
    !o.ignored && !o.kind.HiddenOption?
  }

  predicate Generated(p: Profile, o: NativeOption) {
    o.kind.SsoOption? || (o.kind.TokenOption? && p.token)
  }

  /** Options the callback has to set: visible, and not produced by native code afterwards. */
  predicate Asked(p: Profile, o: NativeOption) {
    Visible(o) && !Generated(p, o)
  }

  function KindOf(k: OptionKind): Option<FieldKind> {
    match k
    case TextOption => Some(Text)
    case PasswordOption => Some(Password)
    case SelectOption(_) => Some(Select)
    case TokenOption => Some(Token)
    case _ => None
  }

  /** The field describes the option, with public choice ids. */
  ghost predicate Describes(f: Field, form: NativeForm) {
    && f.option < |form.options|
    && var o := form.options[f.option];
    && o.name == Some(f.name) && KindOf(o.kind) == Some(f.kind) && f.numeric == o.numeric
    && |f.native| == |f.choices|
    && (o.kind.SelectOption? ==>
          && |f.choices| == |o.kind.choices|
          && (forall i :: 0 <= i < |f.choices| ==>
                            o.kind.choices[i].Some? && f.native[i] == o.kind.choices[i].value.id
                            && f.choices[i].caption == o.kind.choices[i].value.caption)
          && Distinct(Ids(f.choices)) && Named(f.native, Labels(f.choices), Ids(f.choices), |f.native|))
    && (!o.kind.SelectOption? ==> f.choices == [])
  }

  /** Exactly the options to set, in order. */
  ghost predicate DescribeAll(fields: seq<Field>, form: NativeForm, p: Profile, upTo: nat)
    requires upTo <= |form.options|
  {
    && (forall k :: 0 <= k < |fields| ==> Describes(fields[k], form) && fields[k].option < upTo
                                          && Asked(p, form.options[fields[k].option]))
    && (forall j, k :: 0 <= j < k < |fields| ==>
                         fields[j].option < fields[k].option && fields[j].name != fields[k].name)
    && (forall i :: 0 <= i < upTo && Asked(p, form.options[i]) ==>
                      exists k :: 0 <= k < |fields| && fields[k].option == i)
  }

  /** A form the callback can read at all. */
  predicate ChoicesReadable(choices: seq<Option<Choice>>) {
    1 <= |choices| <= 256 && forall i :: 0 <= i < |choices| ==> choices[i].Some?
  }

  predicate OptionReadable(o: NativeOption) {
    KindOf(o.kind).Some? && o.name.Some? && (o.kind.SelectOption? ==> ChoicesReadable(o.kind.choices))
  }

  predicate ReadableUpTo(form: NativeForm, p: Profile, n: nat)
    requires n <= |form.options|
  {
    && (forall i :: 0 <= i < n && Asked(p, form.options[i]) ==> OptionReadable(form.options[i]))
    && (forall i, j :: 0 <= i < j < n && Asked(p, form.options[i]) && Asked(p, form.options[j]) ==>
                         form.options[i].name != form.options[j].name)
  }

  predicate FormReadable(form: NativeForm, p: Profile) {
    |form.options| <= 256 && ReadableUpTo(form, p, |form.options|)
  }

  method PublicChoices(choices: seq<Option<Choice>>) returns (r: Result<(seq<Choice>, seq<string>)>)
    ensures r.Ok? <==> ChoicesReadable(choices)
    ensures r.Err? ==> r.code == ProtocolViolation
    ensures r.Ok? ==>
              var (public, native) := r.value;
              && |public| == |native| == |choices|
              && (forall i :: 0 <= i < |choices| ==>
                                choices[i].Some? && native[i] == choices[i].value.id
                                && public[i].caption == choices[i].value.caption)
              && Distinct(Ids(public)) && Named(native, Labels(public), Ids(public), |native|)
  {
    if |choices| < 1 || |choices| > 256 {
      return Err(ProtocolViolation);
    }
    var a := new Choice[|choices|](_ => Choice("", ""));
    for i := 0 to |choices|
      invariant forall j :: 0 <= j < i ==> choices[j].Some? && a[j] == choices[j].value
    {
      if choices[i].None? {
        return Err(ProtocolViolation);
      }
      a[i] := choices[i].value;
    }
    ghost var labels := Labels(a[..]);
    var native := ChoiceIds.ChoiceIds(a);
    IdsAreDistinct(native, labels, Ids(a[..]));
    assert Labels(a[..]) == labels;
    return Ok((a[..], native));
  }

  method ReadField(form: NativeForm, i: nat) returns (r: Result<Field>)
    requires i < |form.options|
    ensures r.Ok? ==> r.value.option == i && Describes(r.value, form)
    ensures r.Ok? <==> OptionReadable(form.options[i])
    ensures r.Err? ==>
              r.code == if KindOf(form.options[i].kind).None? then UnsupportedAuthentication else ProtocolViolation
  {
    var o := form.options[i];
    if KindOf(o.kind).None? {
      return Err(UnsupportedAuthentication);
    }
    if o.name.None? {
      return Err(ProtocolViolation);
    }
    var choices: seq<Choice>, native: seq<string> := [], [];
    if o.kind.SelectOption? {
      var public := PublicChoices(o.kind.choices);
      if public.Err? {
        return Err(public.code);
      }
      choices, native := public.value.0, public.value.1;
    }
    return Ok(Field(i, o.name.value, KindOf(o.kind).value, o.numeric, choices, native));
  }

  lemma DescribeMore(fields: seq<Field>, f: Field, form: NativeForm, p: Profile)
    requires f.option < |form.options| && Asked(p, form.options[f.option])
    requires Describes(f, form) && DescribeAll(fields, form, p, f.option)
    requires forall k :: 0 <= k < |fields| ==> fields[k].name != f.name
    ensures DescribeAll(fields + [f], form, p, f.option + 1)
  {
    hide Describes;
    var more := fields + [f];
    assert more[|fields|] == f;
    assert forall k :: 0 <= k < |fields| ==> more[k] == fields[k];
    forall i | 0 <= i < f.option + 1 && Asked(p, form.options[i])
      ensures exists k :: 0 <= k < |more| && more[k].option == i
    {
      if i < f.option {
        var k :| 0 <= k < |fields| && fields[k].option == i;
        assert more[k].option == i;
      }
    }
  }

  /** A readable option adds to what was read, unless its name was seen before. */
  lemma FieldIsNamed(form: NativeForm, p: Profile, fields: seq<Field>, i: nat, f: Result<Field>)
    requires i < |form.options| && Asked(p, form.options[i])
    requires DescribeAll(fields, form, p, i) && ReadableUpTo(form, p, i)
    requires f.Ok? <==> OptionReadable(form.options[i])
    requires f.Ok? ==> f.value.option == i && Describes(f.value, form)
    ensures f.Err? ==> !ReadableUpTo(form, p, |form.options|)
    ensures f.Ok? && (exists k :: 0 <= k < |fields| && fields[k].name == f.value.name) ==>
              !ReadableUpTo(form, p, |form.options|)
    ensures f.Ok? && (forall k :: 0 <= k < |fields| ==> fields[k].name != f.value.name) ==> ReadableUpTo(form, p, i + 1)
  {
    assert forall k :: 0 <= k < |fields| ==>
                         fields[k].option < i && form.options[fields[k].option].name == Some(fields[k].name);
  }

  lemma NothingRead(form: NativeForm, p: Profile)
    ensures DescribeAll([], form, p, 0) && ReadableUpTo(form, p, 0)
  {
  }

  lemma OptionSkipped(form: NativeForm, p: Profile, fields: seq<Field>, i: nat)
    requires i < |form.options| && !Asked(p, form.options[i])
    requires DescribeAll(fields, form, p, i) && ReadableUpTo(form, p, i)
    ensures DescribeAll(fields, form, p, i + 1) && ReadableUpTo(form, p, i + 1)
  {
  }

  /** The options of a form as prompt fields; `generated` if native code will fill some option itself. */
  method ReadOptions(form: NativeForm, p: Profile) returns (r: Result<seq<Field>>, generated: bool)
    ensures r.Ok? ==> DescribeAll(r.value, form, p, |form.options|)
    ensures r.Ok? <==> FormReadable(form, p)
    ensures r.Err? ==> r.code.ProtocolViolation? || r.code.UnsupportedAuthentication?
    ensures r.Ok? ==> (generated <==>
                       exists i :: 0 <= i < |form.options| && Visible(form.options[i]) && Generated(p, form.options[i]))
  {
    hide Describes, DescribeAll, ReadableUpTo, OptionReadable, KindOf;
    NothingRead(form, p);
    generated := false;
    if |form.options| > 256 {
      return Err(ProtocolViolation), generated;
    }
    var fields: seq<Field> := [];
    for i := 0 to |form.options|
      invariant DescribeAll(fields, form, p, i) && ReadableUpTo(form, p, i)
      invariant generated <==> exists j :: 0 <= j < i && Visible(form.options[j]) && Generated(p, form.options[j])
    {
      var o := form.options[i];
      if !Asked(p, o) {
        OptionSkipped(form, p, fields, i);
      }
      if Visible(o) {
        if Generated(p, o) {
          generated := true;
        } else {
          var f := ReadField(form, i);
          FieldIsNamed(form, p, fields, i, f);
          if f.Err? {
            return Err(f.code), generated;
          }
          if exists k :: 0 <= k < |fields| && fields[k].name == f.value.name {
            return Err(ProtocolViolation), generated;
          }
          DescribeMore(fields, f.value, form, p);
          fields := fields + [f.value];
        }
      }
    }
    return Ok(fields), generated;
  }

  // ---------------------------------------------------------------- automatic answers

  /** What one worker remembers between callbacks. */
  datatype View = View(failure: bool, passwordUsed: bool, password: Option<string>, group: Option<string>, empty: nat)

  function SavedSelection(p: Profile, v: View, f: Field, isGroup: bool): Option<string> {
    if isGroup then v.group
    else if Contains(Lower(f.name), "gateway") || (p.protocol == "gp" && f.name == "_portal") then p.gateway
    else None
  }

  /** The answer the profile gives for a field, if any; an error if a saved selection cannot be made. */
  function ProfileAnswer(p: Profile, v: View, f: Field, o: NativeOption, isGroup: bool): Result<Option<string>>
    requires |f.native| == |f.choices|
  {
    var lower := Lower(f.name);
    if f.kind == Text && ("user" <= lower || "uname" <= lower) && !Contains(lower, "secondary") && !o.notUser then
      Ok(p.username)
    else if f.kind == Text && p.protocol == "array" && f.name == "method" then Ok(p.authGroup)
    else if f.kind == Select then
      match SavedSelection(p, v, f, isGroup)
      case None => Ok(None)
      case Some(saved) =>
        if isGroup then
          if Position(f.choices, saved).Some? then Ok(Some(saved)) else Err(Conflict)
        else
          (match SavedChoice(f.choices, f.native, saved)
           case Ok(id) => Ok(Some(id))
           case Err(e) => Err(e))
    else Ok(None)
  }

  predicate PasswordName(p: Profile, authId: string, name: string) {
    || Lower(name) == "password"
    || Lower(name) == "passwd"
    || (p.protocol == "fortinet" && authId == "_login" && name == "credential")
    || (p.protocol == "array" && authId == "form" && name == "pwd")
  }

  /** The one visible password field of a form that may take the saved password. */
  predicate TakesSavedPassword(p: Profile, v: View, form: NativeForm, fields: seq<Field>, k: nat)
    requires k < |fields|
  {
    && fields[k].kind == Password
    && (forall j :: 0 <= j < |fields| && j != k ==> fields[j].kind != Password)
    && !v.passwordUsed && v.password.Some?
    && form.authId != "_challenge"
    && PasswordName(p, form.authId, fields[k].name)
  }

  predicate GroupField(form: NativeForm, f: Field) {
    form.group == Some(f.option)
  }

  function AnswerOfProfile(p: Profile, v: View, form: NativeForm, f: Field): Result<Option<string>>
    requires f.option < |form.options| && |f.native| == |f.choices|
  {
    ProfileAnswer(p, v, f, form.options[f.option], GroupField(form, f))
  }

  ghost predicate WellFormed(fields: seq<Field>, form: NativeForm) {
    && (forall k :: 0 <= k < |fields| ==> Describes(fields[k], form))
    && (forall j, k :: 0 <= j < k < |fields| ==> fields[j].name != fields[k].name)
  }

  /** The value a field is filled with without asking the user. */
  ghost function Filled(p: Profile, v: View, form: NativeForm, fields: seq<Field>, k: nat): Option<string>
    requires k < |fields| && WellFormed(fields, form)
  {
    if TakesSavedPassword(p, v, form, fields, k) then v.password
    else
      match AnswerOfProfile(p, v, form, fields[k])
      case Ok(answer) => answer
      case Err(_) => None
  }

  ghost predicate IsAutomatic(m: map<string, string>, p: Profile, v: View, form: NativeForm, fields: seq<Field>)
    requires WellFormed(fields, form)
  {
    && (forall k :: 0 <= k < |fields| ==>
                      (fields[k].name in m <==> Filled(p, v, form, fields, k).Some?)
                      && (fields[k].name in m ==> Filled(p, v, form, fields, k) == Some(m[fields[k].name]))
                      && AnswerOfProfile(p, v, form, fields[k]).Ok?)
    && (forall name :: name in m ==> exists k :: 0 <= k < |fields| && fields[k].name == name)
  }

  /** A saved selection cannot be made in field `k`. */
  ghost predicate SelectionFailsAt(p: Profile, v: View, form: NativeForm, fields: seq<Field>, k: nat, code: ErrorCode)
    requires k < |fields| && WellFormed(fields, form)
  {
    AnswerOfProfile(p, v, form, fields[k]) == Err(code)
  }

  ghost predicate SelectionFails(p: Profile, v: View, form: NativeForm, fields: seq<Field>, code: ErrorCode)
    requires WellFormed(fields, form)
  {
    exists k :: 0 <= k < |fields| && SelectionFailsAt(p, v, form, fields, k, code)
  }

  /** The password part of the automatic answers: the first password field, if it is the only one. */
  method SavedPasswordField(p: Profile, v: View, form: NativeForm, fields: seq<Field>) returns (found: Option<nat>)
    ensures found.Some? ==> found.value < |fields| && TakesSavedPassword(p, v, form, fields, found.value)
    ensures forall k :: 0 <= k < |fields| && TakesSavedPassword(p, v, form, fields, k) ==> found == Some(k)
  {
    var first: Option<nat> := None;
    for k := 0 to |fields|
      invariant first.None? ==> forall j :: 0 <= j < k ==> fields[j].kind != Password
      invariant first.Some? ==> first.value < k && fields[first.value].kind == Password
                                && forall j :: 0 <= j < k && j != first.value ==> fields[j].kind != Password
    {
      if fields[k].kind == Password {
        if first.Some? {
          return None;
        }
        first := Some(k);
      }
    }
    if first.Some? && !v.passwordUsed && v.password.Some? && form.authId != "_challenge"
       && PasswordName(p, form.authId, fields[first.value].name) {
      return first;
    }
    return None;
  }

  method Automatic(p: Profile, v: View, form: NativeForm, fields: seq<Field>) returns (r: Result<map<string, string>>)
    requires WellFormed(fields, form)
    ensures r.Ok? ==> IsAutomatic(r.value, p, v, form, fields)
    ensures r.Err? ==> SelectionFails(p, v, form, fields, r.code)
  {
    hide Describes, TakesSavedPassword, ProfileAnswer;
    var m: map<string, string> := map[];
    var chosen := SavedPasswordField(p, v, form, fields);
    for k := 0 to |fields|
      invariant forall j :: 0 <= j < k ==>
                              (fields[j].name in m <==> Filled(p, v, form, fields, j).Some?)
                              && (fields[j].name in m ==> Filled(p, v, form, fields, j) == Some(m[fields[j].name]))
                              && fields[j].option < |form.options| && |fields[j].native| == |fields[j].choices|
                              && AnswerOfProfile(p, v, form, fields[j]).Ok?
      invariant forall name :: name in m ==> exists j :: 0 <= j < k && fields[j].name == name
    {
      var f := fields[k];
      assert f.name !in m;
      OptionInRange(f, form);
      var answer := AnswerOfProfile(p, v, form, f);
      if answer.Err? {
        assert SelectionFailsAt(p, v, form, fields, k, answer.code);
        return Err(answer.code);
      }
      var value := if chosen == Some(k) then v.password else answer.value;
      if chosen == Some(k) {
        HasPassword(p, v, form, fields, k);
      }
      assert value == Filled(p, v, form, fields, k);
      if value.Some? {
        m := m[f.name := value.value];
      }
    }
    return Ok(m);
  }

  lemma OptionInRange(f: Field, form: NativeForm)
    requires Describes(f, form)
    ensures f.option < |form.options| && |f.native| == |f.choices|
  {
  }

  lemma HasPassword(p: Profile, v: View, form: NativeForm, fields: seq<Field>, k: nat)
    requires k < |fields| && TakesSavedPassword(p, v, form, fields, k)
    ensures v.password.Some?
  {
  }

  // ---------------------------------------------------------------- replies

  /** What waiting for the user ends with; `current`: the reply carries the ids of this prompt. */
  datatype Waited = Interrupted(code: ErrorCode) | Replied(current: bool, answers: Option<map<string, string>>)

  predicate AnswerOk(f: Field, value: string) {
    && value != "" && Utf8Length(value) <= 65536 && '\0' !in value
    && (f.numeric ==> forall i :: 0 <= i < |value| ==> '0' <= value[i] <= '9')
    && (f.kind == Select ==> Position(f.choices, value).Some?)
  }

  predicate NameOf(fields: seq<Field>, name: string) {
    exists k :: 0 <= k < |fields| && fields[k].name == name
  }

  /** `AuthPrompt::validate_reply`; every field of these prompts is required. */
  predicate ReplyOk(fields: seq<Field>, waited: Waited) {
    && waited.Replied? && waited.current
    && (waited.answers.Some? ==>
          && (forall name :: name in waited.answers.value ==> NameOf(fields, name))
          && forall k :: 0 <= k < |fields| ==>
                           && fields[k].name in waited.answers.value
                           && AnswerOk(fields[k], waited.answers.value[fields[k].name]))
  }

  predicate CString(value: string) {
    Utf8Length(value) <= 65536 && '\0' !in value
  }

  /** One call of `openconnect_set_option_value`; `saved` marks the saved password. */
  datatype Write = Write(option: nat, value: string, saved: bool)

  /** The value native code gets for an answer: the choice's own value, or the answer itself. */
  function NativeValue(f: Field, answer: string): Option<string>
    requires |f.native| == |f.choices|
  {
    if f.kind == Select then
      match Position(f.choices, answer)
      case None => None
      case Some(i) => Some(f.native[i])
    else Some(answer)
  }

  /** The answer a field ends up with: the automatic one, or else the user's. */
  function FinalAnswer(automatic: map<string, string>, waited: Waited, name: string): Option<string> {
    if name in automatic then Some(automatic[name])
    else if waited.Replied? && waited.answers.Some? && name in waited.answers.value
    then Some(waited.answers.value[name])
    else None
  }

  ghost predicate Carries(w: Write, f: Field, automatic: map<string, string>, waited: Waited)
    requires |f.native| == |f.choices|
  {
    var answer := FinalAnswer(automatic, waited, f.name);
    && w.option == f.option
    && w.saved == (f.kind == Password && f.name in automatic)
    && answer.Some? && NativeValue(f, answer.value) == Some(w.value)
  }

  function Merge(automatic: map<string, string>, waited: Waited): map<string, string> {
    if waited.Replied? && waited.answers.Some? then waited.answers.value + automatic else automatic
  }

  lemma AnswerCarries(w: Write, f: Field, automatic: map<string, string>, waited: Waited)
    requires |f.native| == |f.choices| && f.name in Merge(automatic, waited)
    requires NativeValue(f, Merge(automatic, waited)[f.name]) == Some(w.value)
    requires w.option == f.option && w.saved == (f.kind == Password && f.name in automatic)
    ensures Carries(w, f, automatic, waited)
    ensures FinalAnswer(automatic, waited, f.name) == Some(Merge(automatic, waited)[f.name])
    ensures f.name in automatic ==> Merge(automatic, waited)[f.name] == automatic[f.name]
  {
    hide NativeValue;
  }

  /** The fields left to the user: those without an automatic answer, in order. */
  function Open(fields: seq<Field>, automatic: map<string, string>): (open: seq<Field>)
    ensures forall k :: 0 <= k < |open| ==> open[k].name !in automatic && open[k] in fields
    ensures forall f :: f in fields && f.name !in automatic ==> f in open
  {
    if fields == [] then []
    else
      var init, last := fields[..|fields| - 1], fields[|fields| - 1];
      assert fields == init + [last];
      Open(init, automatic) + (if last.name in automatic then [] else [last])
  }

  method Unresolved(fields: seq<Field>, automatic: map<string, string>) returns (open: seq<Field>)
    ensures open == Open(fields, automatic)
  {
    open := [];
    for i := 0 to |fields|
      invariant open == Open(fields[..i], automatic)
    {
      assert fields[..i + 1][..i] == fields[..i];
      if fields[i].name !in automatic {
        open := open + [fields[i]];
      }
    }
    assert fields[..|fields|] == fields;
  }

  // ---------------------------------------------------------------- why a callback fails

  /** Why waiting for, or checking, a reply fails; `empty` counts the empty forms before this one. */
  predicate ReplyRefused(
    fields: seq<Field>, nothing: bool, empty: nat, shown: seq<Field>, automatic: map<string, string>, waited: Waited,
    code: ErrorCode)
  {
    if shown == [] then
      || (nothing && empty >= 2 && code.AuthenticationRequired?)
      || (!ReplyOk(fields, Replied(true, Some(automatic))) && code.InvalidInput?)
    else
      match waited
      case Interrupted(reason) => code == reason
      case Replied(current, answers) =>
        if !current then code.Conflict?
        else if !ReplyOk(shown, waited) then code.InvalidInput?
        else if answers.None? then code.Cancelled?
        else !ReplyOk(fields, Replied(true, Some(Merge(automatic, waited)))) && code.InvalidInput?
  }

  /** Why an answer cannot be handed to native code. */
  predicate FieldRefused(form: NativeForm, f: Field, answers: map<string, string>, refused: set<nat>, code: ErrorCode)
    requires |f.native| == |f.choices|
  {
    || (f.name !in answers && code.InvalidInput?)
    || (f.name in answers && NativeValue(f, answers[f.name]).None? && code.Conflict?)
    || (f.name in answers && NativeValue(f, answers[f.name]).Some? && !CString(NativeValue(f, answers[f.name]).value)
        && code.InvalidInput?)
    || (f.option in refused && code.RuntimeFailure?)
    || (GroupField(form, f) && f.kind != Select && code.Conflict?)
  }

  ghost predicate AnswerRefused(form: NativeForm, fields: seq<Field>, answers: map<string, string>,
                                refused: set<nat>, code: ErrorCode)
    requires WellFormed(fields, form)
  {
    exists k :: 0 <= k < |fields| && FieldRefused(form, fields[k], answers, refused, code)
  }

  ghost predicate ReplyOrAnswerRefused(
    p: Profile, v: View, form: NativeForm, fields: seq<Field>, shown: seq<Field>, waited: Waited, refused: set<nat>,
    automatic: map<string, string>, code: ErrorCode)
    requires WellFormed(fields, form)
  {
    && IsAutomatic(automatic, p, v, form, fields)
    && (|| ReplyRefused(fields, EmptyForm(form, p), v.empty, shown, automatic, waited, code)
        || AnswerRefused(form, fields, Merge(automatic, waited), refused, code))
  }

  /** Why a callback fails once its form was read and its group settled. */
  ghost predicate CompleteRefused(
    p: Profile, v: View, form: NativeForm, fields: seq<Field>, shown: seq<Field>, waited: Waited, refused: set<nat>,
    code: ErrorCode)
  {
    && WellFormed(fields, form)
    && (|| SelectionFails(p, v, form, fields, code)
        || exists automatic :: ReplyOrAnswerRefused(p, v, form, fields, shown, waited, refused, automatic, code))
  }

  /** Why selecting a saved group fails. */
  predicate GroupRefused(f: Field, desired: string, refused: set<nat>, code: ErrorCode)
    requires |f.native| == |f.choices|
  {
    || (f.kind != Select && code.RuntimeFailure?)
    || SavedChoice(f.choices, f.native, desired) == Err(code)
    || ((exists i :: 0 <= i < |f.native| && !CString(f.native[i])) && code.InvalidInput?)
    || (f.option in refused && code.RuntimeFailure?)
  }

  /** Why the callback fails at all. */
  ghost predicate Refused(
    p: Profile, v: View, form: NativeForm, cancelled: bool, fields: seq<Field>, shown: seq<Field>, waited: Waited,
    refused: set<nat>, code: ErrorCode)
  {
    || (cancelled && code.Cancelled?)
    || (!FormReadable(form, p) && (code.ProtocolViolation? || code.UnsupportedAuthentication?))
    || (v.group.None? && Desired(p).Some? && |fields| == 1 && GroupField(form, fields[0])
        && |fields[0].native| == |fields[0].choices| && GroupRefused(fields[0], Desired(p).value, refused, code))
    || CompleteRefused(p, v, form, fields, shown, waited, refused, code)
  }

  // ---------------------------------------------------------------- the promises of one callback

  const NEWGROUP: int := 2

  /** A form with nothing to set and nothing for native code to fill in. */
  predicate EmptyForm(form: NativeForm, p: Profile) {
    forall i :: 0 <= i < |form.options| ==> !Visible(form.options[i])
  }

  /** The group, or else the gateway, saved in the profile. */
  function Desired(p: Profile): Option<string> {
    if p.authGroup.Some? then p.authGroup else p.gateway
  }

  /** The group has to be settled before anything else: its option is asked for and none is chosen yet. */
  predicate AsksForGroup(p: Profile, v: View, form: NativeForm) {
    v.group.None? && form.group.Some? && form.group.value < |form.options| && Asked(p, form.options[form.group.value])
  }

  /** The saved group is sent without asking. */
  predicate SendsSavedGroup(p: Profile, v: View, form: NativeForm) {
    AsksForGroup(p, v, form) && Desired(p).Some?
  }

  /** The fields of a prompt: the group option alone while it has to be settled, and then all options to set. */
  ghost predicate PromptFields(p: Profile, v: View, form: NativeForm, fields: seq<Field>) {
    if AsksForGroup(p, v, form) then |fields| == 1 && Describes(fields[0], form) && GroupField(form, fields[0])
    else DescribeAll(fields, form, p, |form.options|)
  }

  /** The choice `id` is the one the profile saved, or if it saved none the user's valid answer to this prompt. */
  predicate GroupChosen(p: Profile, f: Field, waited: Waited, id: string)
    requires |f.native| == |f.choices|
  {
    match Desired(p)
    case Some(saved) => SavedChoice(f.choices, f.native, saved) == Ok(id)
    case None =>
      && ReplyOk([f], waited) && waited.answers.Some?
      && f.name in waited.answers.value && waited.answers.value[f.name] == id
  }

  /** The one write is to the group option, of the native value of the chosen group `id`. */
  ghost predicate SelectsGroup(p: Profile, form: NativeForm, fields: seq<Field>, waited: Waited, writes: seq<Write>,
                               id: string) {
    && |writes| == |fields| == 1
    && GroupField(form, fields[0]) && Describes(fields[0], form) && fields[0].kind == Select
    && writes[0].option == fields[0].option && !writes[0].saved
    && NativeValue(fields[0], id) == Some(writes[0].value)
    && GroupChosen(p, fields[0], waited, id)
  }

  /** Options are set in order, each with the answer that belongs to it. */
  ghost predicate AnswersInOrder(p: Profile, v: View, form: NativeForm, fields: seq<Field>, waited: Waited,
                                 writes: seq<Write>) {
    && WellFormed(fields, form)
    && |writes| <= |fields|
    && exists automatic ::
         && IsAutomatic(automatic, p, v, form, fields)
         && forall k :: 0 <= k < |writes| ==> Carries(writes[k], fields[k], automatic, waited)
  }

  /** What is written: the saved group, or answers. */
  ghost predicate WritesAnswers(p: Profile, v: View, form: NativeForm, fields: seq<Field>, waited: Waited,
                                writes: seq<Write>) {
    && PromptFields(p, v, form, fields)
    && (if SendsSavedGroup(p, v, form) then exists id :: SelectsGroup(p, form, fields, waited, writes, id)
        else AnswersInOrder(p, Entry(v, form), form, fields, waited, writes))
  }

  /** Where the saved password may go. */
  ghost predicate SavedOnlyWhereAllowed(p: Profile, v: View, form: NativeForm, fields: seq<Field>, writes: seq<Write>) {
    && (forall i :: 0 <= i < |writes| && writes[i].saved ==>
                      && !form.error
                      && v.password == Some(writes[i].value)
                      && exists k :: 0 <= k < |fields| && fields[k].option == writes[i].option
                                     && TakesSavedPassword(p, v, form, fields, k))
    && (forall i, j :: 0 <= i < j < |writes| ==> !(writes[i].saved && writes[j].saved))
  }

  predicate WritesPassword(fields: seq<Field>, writes: seq<Write>) {
    exists k :: 0 <= k < |writes| && k < |fields| && fields[k].kind == Password
  }

  /** A success spends the saved password exactly when it should; a failure may already have spent it. */
  predicate PasswordAfter(v: View, spent: bool, success: bool, n: View) {
    if success then n.passwordUsed == (v.passwordUsed || spent) && n.password == if spent then None else v.password
    else (v.passwordUsed ==> n.passwordUsed) && (n.password == v.password || (n.passwordUsed && n.password.None?))
  }

  function EmptyAfter(p: Profile, v: View, form: NativeForm): nat {
    if SendsSavedGroup(p, v, form) then v.empty else if EmptyForm(form, p) then v.empty + 1 else 0
  }

  /**
   The promises of one form callback: `v` and `n` are what the worker remembers before
   and after, `code` what native code sees.
   */
  ghost predicate Step(p: Profile, v: View, form: NativeForm, waited: Waited, code: int, fields: seq<Field>,
                       writes: seq<Write>, n: View) {
    && (v.failure ==> code == -1 && writes == [] && n == v)
    && (n.failure <==> code == -1)
    && (code != -1 ==> code == if AsksForGroup(p, v, form) then NEWGROUP else 0)
    // What is written.
    && (code != -1 || writes != [] ==> WritesAnswers(p, v, form, fields, waited, writes))
    && (code == 0 ==> |writes| == |fields|)
    && SavedOnlyWhereAllowed(p, v, form, fields, writes)
    // What is remembered.
    && (if code == NEWGROUP then n.group.Some? && SelectsGroup(p, form, fields, waited, writes, n.group.value)
        else n.group == v.group)
    && PasswordAfter(v, form.error || WritesPassword(fields, writes), code != -1, n)
    && (code != -1 ==> n.empty == EmptyAfter(p, v, form) && (EmptyForm(form, p) ==> n.empty <= 2))
  }

  /** A form that carries an error spends the saved password. */
  function Rejected(v: View): View {
    v.(passwordUsed := true, password := None)
  }

  function Entry(v: View, form: NativeForm): View {
    if form.error then Rejected(v) else v
  }

  /**
   What a call that writes or succeeds has passed: it was not cancelled, could read the
   form, showed exactly the fields left open and had a valid answer to them.
   */
  ghost predicate Served(p: Profile, v: View, form: NativeForm, cancelled: bool, waited: Waited, fields: seq<Field>,
                         shown: seq<Field>) {
    && !cancelled && FormReadable(form, p)
    && (if SendsSavedGroup(p, v, form) then shown == []
        else ShowsOpen(p, Entry(v, form), form, waited, fields, shown))
  }

  /** Exactly the fields without an automatic answer are shown, and if there are any the reply to them is valid. */
  ghost predicate ShowsOpen(p: Profile, v: View, form: NativeForm, waited: Waited, fields: seq<Field>,
                            shown: seq<Field>) {
    && WellFormed(fields, form)
    && (exists automatic :: IsAutomatic(automatic, p, v, form, fields) && shown == Open(fields, automatic))
    && (shown != [] ==> ReplyOk(shown, waited) && waited.answers.Some?)
  }

  ghost predicate AllCarried(fields: seq<Field>, automatic: map<string, string>, waited: Waited, writes: seq<Write>) {
    && |writes| <= |fields|
    && forall k :: 0 <= k < |writes| ==>
                     |fields[k].native| == |fields[k].choices| && Carries(writes[k], fields[k], automatic, waited)
  }

  /** How applying the answers ends: up to the first that fails or changes the group. */
  ghost predicate AnswersEnd(form: NativeForm, fields: seq<Field>, automatic: map<string, string>, waited: Waited,
                             writes: seq<Write>, r: Result<int>, before: Option<string>, after: Option<string>) {
    && AllCarried(fields, automatic, waited, writes)
    && (r.Ok? ==> r.value == 0 || r.value == NEWGROUP)
    && (r == Ok(0) ==>
          |writes| == |fields| && (after.None? ==> forall k :: 0 <= k < |fields| ==> !GroupField(form, fields[k])))
    && (if r == Ok(NEWGROUP) then
          && before.None? && after.Some? && |writes| > 0
          && var f := fields[|writes| - 1];
          f.kind == Select && GroupField(form, f) && NativeValue(f, after.value) == Some(writes[|writes| - 1].value)
          && FinalAnswer(automatic, waited, f.name) == after
        else after == before)
  }

  function Code(r: Result<int>): int {
    if r.Ok? then r.value else -1
  }

  /** Native code is given C strings only, and a callback fails at an option that native code refuses. */
  predicate Accepted(writes: seq<Write>, refused: set<nat>, success: bool) {
    forall k :: 0 <= k < |writes| ==>
                  CString(writes[k].value) && (success || k < |writes| - 1 ==> writes[k].option !in refused)
  }

  // ---------------------------------------------------------------- the worker

  class Worker {
    const profile: Profile
    var failure: bool
    var passwordUsed: bool
    var password: Option<string>
    var groupSelected: Option<string>
    var emptyForms: nat

    constructor (p: Profile, saved: Option<string>)
      ensures profile == p && Now() == View(false, false, saved, None, 0)
    {
      profile := p;
      failure, passwordUsed, password, groupSelected, emptyForms := false, false, saved, None, 0;
    }

    function Now(): View
      reads this
    {
      View(failure, passwordUsed, password, groupSelected, emptyForms)
    }

    /** First round of a group: the saved group or gateway is selected at once. */
    method SelectGroup(form: NativeForm, f: Field, desired: string, ghost waited: Waited, refused: set<nat>)
      returns (r: Result<int>, writes: seq<Write>)
      requires Describes(f, form) && GroupField(form, f) && groupSelected.None? && Desired(profile) == Some(desired)
      modifies this`groupSelected
      ensures r.Ok? ==> r.value == NEWGROUP && groupSelected.Some?
                        && SelectsGroup(profile, form, [f], waited, writes, groupSelected.value)
      ensures r.Err? ==> groupSelected.None? && |f.native| == |f.choices| && GroupRefused(f, desired, refused, r.code)
      ensures writes != [] ==> exists id :: SelectsGroup(profile, form, [f], waited, writes, id)
      ensures Accepted(writes, refused, r.Ok?)
    {
      writes := [];
      if f.kind != Select {
        return Err(RuntimeFailure), writes;
      }
      var id := SavedChoice(f.choices, f.native, desired);
      if id.Err? {
        return Err(id.code), writes;
      }
      SavedChoiceIsTheOnlyMatch(f.choices, f.native, desired);
      var value := NativeValue(f, id.value);
      if value.None? || !CString(value.value) {
        return Err(InvalidInput), writes;
      }
      writes := [Write(f.option, value.value, false)];
      assert [f][0] == f;
      assert SelectsGroup(profile, form, [f], waited, writes, id.value);
      if f.option in refused {
        return Err(RuntimeFailure), writes;
      }
      groupSelected := Some(id.value);
      return Ok(NEWGROUP), writes;
    }

    /** Applies the answers in order, up to the first that fails or changes the group. */
    method Answer(form: NativeForm, fields: seq<Field>, automatic: map<string, string>, waited: Waited,
                  refused: set<nat>)
      returns (r: Result<int>, writes: seq<Write>)
      requires WellFormed(fields, form)
      requires groupSelected.Some? ==>
                 forall k :: 0 <= k < |fields| && GroupField(form, fields[k]) && fields[k].kind == Select ==>
                               fields[k].name in automatic && automatic[fields[k].name] == groupSelected.value
      modifies this`passwordUsed, this`password, this`groupSelected
      ensures AnswersEnd(form, fields, automatic, waited, writes, r, old(groupSelected), groupSelected)
      ensures PasswordAfter(old(Now()), WritesPassword(fields, writes), r.Ok?, Now())
      ensures Accepted(writes, refused, r.Ok?)
      ensures r.Err? ==> AnswerRefused(form, fields, Merge(automatic, waited), refused, r.code)
    {
      hide Describes, Carries, NativeValue, CString, FinalAnswer, Merge, WritesPassword, Accepted, AllCarried;
      writes := [];
      NoneYet(fields, automatic, waited, refused);
      var merged := Merge(automatic, waited);
      for k := 0 to |fields|
        invariant |writes| == k
        invariant AllCarried(fields, automatic, waited, writes)
        invariant groupSelected == old(groupSelected)
        invariant groupSelected.None? ==> forall j :: 0 <= j < k ==> !GroupField(form, fields[j])
        invariant passwordUsed == (old(passwordUsed) || WritesPassword(fields, writes))
        invariant password == if WritesPassword(fields, writes) then None else old(password)
        invariant Accepted(writes, refused, true) && Accepted(writes, refused, false)
      {
        var f := fields[k];
        OptionInRange(f, form);
        if f.name !in merged {
          return Err(InvalidInput), writes;
        }
        var answer := merged[f.name];
        var value := NativeValue(f, answer);
        if value.None? {
          return Err(Conflict), writes;
        }
        if !CString(value.value) {
          return Err(InvalidInput), writes;
        }
        var written := Write(f.option, value.value, f.kind == Password && f.name in automatic);
        AnswerCarries(written, f, automatic, waited);
        OneMore(fields, automatic, waited, writes, written, refused);
        writes := writes + [written];
        if f.option in refused {
          return Err(RuntimeFailure), writes;
        }
        if GroupField(form, f) {
          if f.kind != Select {
            return Err(Conflict), writes;
          }
          if groupSelected != Some(answer) {
            groupSelected := Some(answer);
            return Ok(NEWGROUP), writes;
          }
        }
        if f.kind == Password {
          passwordUsed, password := true, None;
        }
      }
      return Ok(0), writes;
    }

    /** The automatic answers, or the user's for the fields left open. */
    method Reply(form: NativeForm, fields: seq<Field>, generated: bool, automatic: map<string, string>, waited: Waited)
      returns (r: Result<()>, shown: seq<Field>)
      modifies this`emptyForms
      ensures shown == Open(fields, automatic)
      ensures r.Ok? && fields == [] && !generated ==> emptyForms == old(emptyForms) + 1 <= 2
      ensures r.Ok? && !(fields == [] && !generated) ==> emptyForms == 0
      ensures r.Ok? && shown != [] ==> ReplyOk(shown, waited) && waited.answers.Some?
      ensures r.Err? ==>
                ReplyRefused(fields, fields == [] && !generated, old(emptyForms), shown, automatic, waited, r.code)
      ensures r.Ok? ==>
                var reply := if shown == [] then Replied(true, None) else waited;
                ReplyOk(fields, Replied(true, Some(Merge(automatic, reply))))
    {
      shown := Unresolved(fields, automatic);
      if shown == [] {
        if fields == [] && !generated {
          emptyForms := emptyForms + 1;
          if emptyForms > 2 {
            return Err(AuthenticationRequired), shown;
          }
        } else {
          emptyForms := 0;
        }
        if !ReplyOk(fields, Replied(true, Some(automatic))) {
          return Err(InvalidInput), shown;
        }
      } else {
        assert shown[0] in fields;
        emptyForms := 0;
        if waited.Interrupted? {
          return Err(waited.code), shown;
        }
        if !waited.current {
          return Err(Conflict), shown;
        }
        if !ReplyOk(shown, waited) {
          return Err(InvalidInput), shown;
        }
        if waited.answers.None? {
          return Err(Cancelled), shown;
        }
        if !ReplyOk(fields, Replied(true, Some(Merge(automatic, waited)))) {
          return Err(InvalidInput), shown;
        }
      }
      return Ok(()), shown;
    }

    /** Everything but a saved group: automatic answers, the user's reply, the options. */
    method Complete(form: NativeForm, fields: seq<Field>, generated: bool, waited: Waited, refused: set<nat>)
      returns (r: Result<int>, shown: seq<Field>, writes: seq<Write>)
      requires !failure && (form.error ==> passwordUsed && password.None?)
      requires WellFormed(fields, form) && PromptFields(profile, Now(), form, fields)
      requires !SendsSavedGroup(profile, Now(), form)
      requires fields == [] && !generated <==> EmptyForm(form, profile)
      modifies this
      ensures failure == old(failure)
      ensures Step(profile, old(Now()), form, waited, Code(r), fields, writes, Now().(failure := r.Err?))
      ensures NothingPrefilled(profile, old(Now()), form, fields, shown)
      ensures r.Ok? || writes != [] ==> ShowsOpen(profile, old(Now()), form, waited, fields, shown)
      ensures Accepted(writes, refused, r.Ok?)
      ensures r.Err? ==> CompleteRefused(profile, old(Now()), form, fields, shown, waited, refused, r.code)
    {
      hide Describes, DescribeAll, IsAutomatic, Filled, Carries, SelectsGroup, TakesSavedPassword, ReplyOk, Step,
        NothingPrefilled, ProfileAnswer, ReplyRefused, AnswerRefused, SelectionFails, PromptFields, EmptyForm, AnswerOk,
        Merge, NativeValue, WellFormed, Open, AnswersEnd, Accepted, SavedOnlyWhereAllowed, WritesPassword;
      writes := [];
      NothingWritten(refused);
      ghost var entry := Now();
      var automatic := Automatic(profile, Now(), form, fields);
      if automatic.Err? {
        NothingShown(profile, entry, form, fields);
        EarlyStep(profile, entry, form, waited, fields, Now());
        return Err(automatic.code), [], writes;
      }
      var replied;
      replied, shown := Reply(form, fields, generated, automatic.value, waited);
      ShownIsOpen(profile, entry, form, fields, automatic.value, shown);
      if replied.Err? {
        assert ReplyOrAnswerRefused(profile, entry, form, fields, shown, waited, refused, automatic.value,
                                    replied.code);
        EarlyStep(profile, entry, form, waited, fields, Now());
        return Err(replied.code), shown, writes;
      }
      RememberedGroupIsAutomatic(profile, entry, form, fields, automatic.value);
      r, writes := Answer(form, fields, automatic.value, waited, refused);
      assert r.Err? ==>
          ReplyOrAnswerRefused(profile, entry, form, fields, shown, waited, refused, automatic.value, r.code);
      AnsweredStep(profile, entry, form, fields, automatic.value, shown, waited, writes, r, Now());
    }

    /** `Worker::form` behind the failure check. `cancelled`: the flag at entry. */
    method Form(form: NativeForm, cancelled: bool, waited: Waited, refused: set<nat>)
      returns (r: Result<int>, fields: seq<Field>, shown: seq<Field>, writes: seq<Write>)
      requires !failure
      modifies this
      ensures failure == old(failure)
      ensures Step(profile, old(Now()), form, waited, Code(r), fields, writes, Now().(failure := r.Err?))
      ensures r.Ok? || writes != [] ==> Served(profile, old(Now()), form, cancelled, waited, fields, shown)
      ensures Accepted(writes, refused, r.Ok?)
      ensures shown != [] ==> NothingPrefilled(profile, Entry(old(Now()), form), form, fields, shown)
      ensures r.Err? ==>
                Refused(profile, Entry(old(Now()), form), form, cancelled, fields, shown, waited, refused, r.code)
    {
      hide Step, Describes, DescribeAll, SelectsGroup, PromptFields, NothingPrefilled, EmptyForm, FormReadable,
        GroupRefused, CompleteRefused, WellFormed, Accepted, PasswordAfter, AsksForGroup, ShowsOpen;
      fields, shown, writes := [], [], [];
      NothingWritten(refused);
      if cancelled {
        EarlyStep(profile, Now(), form, waited, [], Now());
        return Err(Cancelled), fields, shown, writes;
      }
      if form.error {
        passwordUsed, password := true, None;
      }
      var read, generated := ReadOptions(form, profile);
      if read.Err? {
        EarlyStep(profile, old(Now()), form, waited, [], Now());
        return Err(read.code), fields, shown, writes;
      }
      fields := read.value;
      EmptyMeansNothing(form, profile, fields, generated);
      var group := FindGroup(form, fields);
      if group.Some? && groupSelected.None? {
        GroupComesFirst(fields, group.value, form, profile, old(Now()));
        fields := [fields[group.value]];
        var desired := if profile.authGroup.Some? then profile.authGroup else profile.gateway;
        if desired.Some? {
          r, writes := SelectGroup(form, fields[0], desired.value, waited, refused);
          GroupStep(profile, old(Now()), form, waited, fields, writes, r, Now());
          return;
        }
      } else {
        WholeFormIsPrompt(profile, old(Now()), form, fields);
      }
      SameRound(profile, old(Now()), form, fields);
      r, shown, writes := Complete(form, fields, generated, waited, refused);
      StepFromEntry(profile, old(Now()), form, waited, Code(r), fields, writes, Now().(failure := r.Err?));
    }

    /** The C entry point: refuses after a failure, and remembers a new one. */
    method FormCallback(form: NativeForm, cancelled: bool, waited: Waited, refused: set<nat>)
      returns (code: int, error: Option<ErrorCode>, fields: seq<Field>, shown: seq<Field>, writes: seq<Write>)
      modifies this
      ensures Step(profile, old(Now()), form, waited, code, fields, writes, Now())
      ensures code != -1 || writes != [] ==> Served(profile, old(Now()), form, cancelled, waited, fields, shown)
      ensures Accepted(writes, refused, code != -1)
      ensures code == -1 <==> error.Some?
      ensures code == -1 ==>
                || (old(failure) && error == Some(AuthenticationRejected))
                || Refused(profile, Entry(old(Now()), form), form, cancelled, fields, shown, waited, refused,
                           error.value)
    {
      hide Step, Refused, Served;
      if failure {
        FailedStep(profile, Now(), form, waited);
        return -1, Some(AuthenticationRejected), [], [], [];
      }
      var r;
      r, fields, shown, writes := Form(form, cancelled, waited, refused);
      if r.Err? {
        failure := true;
        return -1, Some(r.code), fields, shown, writes;
      }
      code, error := r.value, None;
      assert code != -1 by { StepCode(profile, old(Now()), form, waited, code, fields, writes, Now()); }
    }
  }

  lemma NoWrites(p: Profile, v: View, form: NativeForm, fields: seq<Field>)
    ensures SavedOnlyWhereAllowed(p, v, form, fields, [])
  {
  }

  lemma FailedStep(p: Profile, v: View, form: NativeForm, waited: Waited)
    requires v.failure
    ensures Step(p, v, form, waited, -1, [], [], v)
  {
  }

  lemma StepCode(p: Profile, v: View, form: NativeForm, waited: Waited, code: int, fields: seq<Field>,
                 writes: seq<Write>, n: View)
    requires Step(p, v, form, waited, code, fields, writes, n)
    ensures n.failure <==> code == -1
  {
  }

  lemma NoneYet(fields: seq<Field>, automatic: map<string, string>, waited: Waited, refused: set<nat>)
    ensures AllCarried(fields, automatic, waited, [])
    ensures !WritesPassword(fields, []) && Accepted([], refused, true) && Accepted([], refused, false)
  {
  }

  lemma OneMore(fields: seq<Field>, automatic: map<string, string>, waited: Waited, writes: seq<Write>, w: Write,
                refused: set<nat>)
    requires AllCarried(fields, automatic, waited, writes) && |writes| < |fields|
    requires |fields[|writes|].native| == |fields[|writes|].choices| && Carries(w, fields[|writes|], automatic, waited)
    requires Accepted(writes, refused, true) && CString(w.value)
    ensures AllCarried(fields, automatic, waited, writes + [w])
    ensures WritesPassword(fields, writes + [w])
       <==> WritesPassword(fields, writes) || fields[|writes|].kind == Password
    ensures Accepted(writes + [w], refused, w.option !in refused) && Accepted(writes + [w], refused, false)
  {
    hide Carries, CString;
    var more := writes + [w];
    assert more[|writes|] == w;
    assert forall k :: 0 <= k < |writes| ==> more[k] == writes[k];
    if fields[|writes|].kind == Password {
      assert WritesPassword(fields, more);
    } else if WritesPassword(fields, more) {
      var k :| 0 <= k < |more| && k < |fields| && fields[k].kind == Password;
      assert k < |writes|;
    }
  }

  lemma NothingWritten(refused: set<nat>)
    ensures Accepted([], refused, false)
  {
  }

  lemma WholeFormIsPrompt(p: Profile, v: View, form: NativeForm, fields: seq<Field>)
    requires DescribeAll(fields, form, p, |form.options|)
    requires v.group.None? ==> forall k :: 0 <= k < |fields| ==> !GroupField(form, fields[k])
    ensures !AsksForGroup(p, v, form) && PromptFields(p, v, form, fields) && WellFormed(fields, form)
  {
    hide Describes;
  }

  /** While no group is chosen, a group option that is asked for is the whole prompt. */
  lemma GroupComesFirst(fields: seq<Field>, k: nat, form: NativeForm, p: Profile, v: View)
    requires DescribeAll(fields, form, p, |form.options|) && k < |fields| && GroupField(form, fields[k])
             && v.group.None?
    ensures Describes(fields[k], form) && WellFormed([fields[k]], form)
    ensures AsksForGroup(p, v, form) && PromptFields(p, v, form, [fields[k]])
    ensures !EmptyForm(form, p)
  {
    assert Visible(form.options[fields[k].option]);
  }

  /** Spending the password at entry does not change which round it is. */
  lemma SameRound(p: Profile, v: View, form: NativeForm, fields: seq<Field>)
    ensures PromptFields(p, Entry(v, form), form, fields) <==> PromptFields(p, v, form, fields)
    ensures SendsSavedGroup(p, Entry(v, form), form) == SendsSavedGroup(p, v, form)
    ensures Entry(Entry(v, form), form) == Entry(v, form)
  {
  }

  /** A callback that fails before it writes anything. */
  lemma EarlyStep(p: Profile, v: View, form: NativeForm, waited: Waited, fields: seq<Field>, n: View)
    requires !v.failure && (n == v.(empty := n.empty) || n == Entry(v, form))
    ensures Step(p, v, form, waited, -1, fields, [], n.(failure := true))
  {
    NoWrites(p, v, form, fields);
    hide SavedOnlyWhereAllowed, EmptyForm;
  }

  /** A callback whose first round selects a saved group. */
  lemma GroupStep(
    p: Profile, v: View, form: NativeForm, waited: Waited, fields: seq<Field>, writes: seq<Write>, r: Result<int>,
    n: View)
    requires !v.failure && SendsSavedGroup(p, v, form) && PromptFields(p, v, form, fields) && !EmptyForm(form, p)
    requires writes != [] ==> exists id :: SelectsGroup(p, form, fields, waited, writes, id)
    requires n == Entry(v, form).(group := n.group)
    requires r.Ok? ==>
               r.value == NEWGROUP && n.group.Some? && SelectsGroup(p, form, fields, waited, writes, n.group.value)
    requires r.Err? ==> n.group.None?
    ensures Step(p, v, form, waited, Code(r), fields, writes, n.(failure := r.Err?))
  {
    if writes != [] {
      GroupWriteIsPlain(p, v, form, fields, waited, writes);
    } else {
      NoWrites(p, v, form, fields);
    }
    hide PromptFields, SelectsGroup, EmptyForm, SavedOnlyWhereAllowed, WritesPassword;
  }

  lemma GroupWriteIsPlain(p: Profile, v: View, form: NativeForm, fields: seq<Field>, waited: Waited, writes: seq<Write>)
    requires exists id :: SelectsGroup(p, form, fields, waited, writes, id)
    ensures SavedOnlyWhereAllowed(p, v, form, fields, writes) && !WritesPassword(fields, writes)
  {
    hide Describes, GroupChosen, NativeValue, TakesSavedPassword;
  }

  /** A callback that came to apply answers. */
  lemma AnsweredStep(p: Profile, v: View, form: NativeForm, fields: seq<Field>, automatic: map<string, string>,
                     shown: seq<Field>, waited: Waited, writes: seq<Write>, r: Result<int>, n: View)
    requires !v.failure && (form.error ==> v.passwordUsed && v.password.None?)
    requires WellFormed(fields, form) && PromptFields(p, v, form, fields) && !SendsSavedGroup(p, v, form)
    requires IsAutomatic(automatic, p, v, form, fields) && shown == Open(fields, automatic)
    requires shown != [] ==> ReplyOk(shown, waited) && waited.answers.Some?
    requires AnswersEnd(form, fields, automatic, waited, writes, r, v.group, n.group)
    requires PasswordAfter(v, WritesPassword(fields, writes), r.Ok?, n)
    requires r.Ok? ==> n.empty == EmptyAfter(p, v, form) && (EmptyForm(form, p) ==> n.empty <= 2)
    ensures Step(p, v, form, waited, Code(r), fields, writes, n.(failure := r.Err?))
  {
    hide *;
    RoundMatches(p, v, form, fields, automatic, waited, writes, r, n.group);
    if r == Ok(NEWGROUP) {
      GroupIsAnswered(p, v, form, fields, automatic, shown, waited, writes, n.group);
    }
    AnswersAreWritten(p, v, form, fields, automatic, waited, writes, r, n.group);
    StepHolds(p, v, form, fields, waited, writes, r, n);
  }

  lemma AnswersAreWritten(p: Profile, v: View, form: NativeForm, fields: seq<Field>, automatic: map<string, string>,
                          waited: Waited, writes: seq<Write>, r: Result<int>, after: Option<string>)
    requires form.error ==> v.passwordUsed && v.password.None?
    requires WellFormed(fields, form) && PromptFields(p, v, form, fields) && !SendsSavedGroup(p, v, form)
    requires IsAutomatic(automatic, p, v, form, fields)
    requires AnswersEnd(form, fields, automatic, waited, writes, r, v.group, after)
    ensures WritesAnswers(p, v, form, fields, waited, writes) && SavedOnlyWhereAllowed(p, v, form, fields, writes)
    ensures (r == Ok(0) ==> |writes| == |fields|) && (r == Ok(NEWGROUP) ==> after.Some?)
    ensures r != Ok(NEWGROUP) ==> after == v.group
  {
    SavedWritesAreAllowed(p, v, form, fields, automatic, waited, writes);
    hide PromptFields, SelectsGroup, SavedOnlyWhereAllowed, IsAutomatic, Carries, WellFormed, AsksForGroup, NativeValue,
      GroupField;
    assert Entry(v, form) == v;
    assert AnswersInOrder(p, v, form, fields, waited, writes);
  }

  lemma StepHolds(p: Profile, v: View, form: NativeForm, fields: seq<Field>, waited: Waited, writes: seq<Write>,
                  r: Result<int>, n: View)
    requires !v.failure && (form.error ==> v.passwordUsed && v.password.None?)
    requires r.Ok? ==> r.value == if AsksForGroup(p, v, form) then NEWGROUP else 0
    requires WritesAnswers(p, v, form, fields, waited, writes) && SavedOnlyWhereAllowed(p, v, form, fields, writes)
    requires r == Ok(0) ==> |writes| == |fields|
    requires if r == Ok(NEWGROUP) then n.group.Some? && SelectsGroup(p, form, fields, waited, writes, n.group.value)
             else n.group == v.group
    requires PasswordAfter(v, WritesPassword(fields, writes), r.Ok?, n)
    requires r.Ok? ==> n.empty == EmptyAfter(p, v, form) && (EmptyForm(form, p) ==> n.empty <= 2)
    ensures Step(p, v, form, waited, Code(r), fields, writes, n.(failure := r.Err?))
  {
    hide WritesAnswers, SavedOnlyWhereAllowed, SelectsGroup, EmptyForm, WritesPassword, AsksForGroup;
  }

  lemma RoundMatches(p: Profile, v: View, form: NativeForm, fields: seq<Field>, automatic: map<string, string>,
                     waited: Waited, writes: seq<Write>, r: Result<int>, after: Option<string>)
    requires WellFormed(fields, form) && PromptFields(p, v, form, fields)
    requires AnswersEnd(form, fields, automatic, waited, writes, r, v.group, after)
    ensures r.Ok? ==> r.value == if AsksForGroup(p, v, form) then NEWGROUP else 0
    ensures r == Ok(NEWGROUP) ==> AsksForGroup(p, v, form)
  {
    hide Describes, Carries, NativeValue;
  }

  /** Without a saved group the user chooses it: the group field is the one shown, and its answer is the group. */
  lemma GroupIsAnswered(p: Profile, v: View, form: NativeForm, fields: seq<Field>, automatic: map<string, string>,
                        shown: seq<Field>, waited: Waited, writes: seq<Write>, after: Option<string>)
    requires WellFormed(fields, form) && PromptFields(p, v, form, fields)
    requires AsksForGroup(p, v, form) && !SendsSavedGroup(p, v, form)
    requires IsAutomatic(automatic, p, v, form, fields) && shown == Open(fields, automatic)
    requires shown != [] ==> ReplyOk(shown, waited) && waited.answers.Some?
    requires AnswersEnd(form, fields, automatic, waited, writes, Ok(NEWGROUP), v.group, after)
    ensures SelectsGroup(p, form, fields, waited, writes, after.value)
  {
    hide Describes, NativeValue, ReplyOk;
    var f := fields[0];
    OptionInRange(f, form);
    GroupIsOpen(p, v, form, fields, automatic);
    assert Open(fields, automatic) == [f] by {
      assert fields[..0] == [];
    }
    assert fields == [f];
    ReplyNames([f], waited);
  }

  lemma ReplyNames(fields: seq<Field>, waited: Waited)
    requires ReplyOk(fields, waited) && waited.answers.Some?
    ensures forall k :: 0 <= k < |fields| ==> fields[k].name in waited.answers.value
  {
  }

  lemma GroupIsOpen(p: Profile, v: View, form: NativeForm, fields: seq<Field>, automatic: map<string, string>)
    requires WellFormed(fields, form) && IsAutomatic(automatic, p, v, form, fields)
    requires |fields| > 0 && GroupField(form, fields[0]) && fields[0].kind == Select && v.group.None?
    ensures fields[0].name !in automatic
  {
  }

  lemma NothingShown(p: Profile, v: View, form: NativeForm, fields: seq<Field>)
    requires WellFormed(fields, form)
    ensures NothingPrefilled(p, v, form, fields, [])
  {
  }

  /** Spending the password at entry does not change what a callback may promise. */
  lemma StepFromEntry(
    p: Profile, v: View, form: NativeForm, waited: Waited, code: int, fields: seq<Field>, writes: seq<Write>, n: View)
    requires !v.failure && Step(p, Entry(v, form), form, waited, code, fields, writes, n)
    ensures Step(p, v, form, waited, code, fields, writes, n)
  {
    SameRound(p, v, form, fields);
    hide SelectsGroup, AnswersInOrder, EmptyForm, WritesPassword, Describes, DescribeAll, GroupField;
  }

  /** The user is never shown a field that was filled without asking. */
  ghost predicate NothingPrefilled(p: Profile, v: View, form: NativeForm, fields: seq<Field>, shown: seq<Field>) {
    WellFormed(fields, form) && forall k :: 0 <= k < |shown| ==> LeftOpen(p, v, form, fields, shown[k])
  }

  ghost predicate LeftOpen(p: Profile, v: View, form: NativeForm, fields: seq<Field>, f: Field)
    requires WellFormed(fields, form)
  {
    exists i :: 0 <= i < |fields| && fields[i] == f && Filled(p, v, form, fields, i).None?
  }

  method FindGroup(form: NativeForm, fields: seq<Field>) returns (g: Option<nat>)
    ensures g.Some? ==> g.value < |fields| && GroupField(form, fields[g.value])
    ensures g.None? ==> forall k :: 0 <= k < |fields| ==> !GroupField(form, fields[k])
  {
    for k := 0 to |fields|
      invariant forall j :: 0 <= j < k ==> !GroupField(form, fields[j])
    {
      if GroupField(form, fields[k]) {
        return Some(k);
      }
    }
    return None;
  }

  lemma EmptyMeansNothing(form: NativeForm, p: Profile, fields: seq<Field>, generated: bool)
    requires DescribeAll(fields, form, p, |form.options|)
    requires generated <==>
             exists i :: 0 <= i < |form.options| && Visible(form.options[i]) && Generated(p, form.options[i])
    ensures fields == [] && !generated <==> EmptyForm(form, p)
  {
    hide Describes;
    if fields != [] {
      assert Visible(form.options[fields[0].option]);
    }
    if !EmptyForm(form, p) && !generated {
      var i :| 0 <= i < |form.options| && Visible(form.options[i]);
      assert Asked(p, form.options[i]);
    }
  }

  lemma ShownIsOpen(p: Profile, v: View, form: NativeForm, fields: seq<Field>, automatic: map<string, string>,
                    shown: seq<Field>)
    requires WellFormed(fields, form) && IsAutomatic(automatic, p, v, form, fields)
    requires shown == Open(fields, automatic)
    ensures NothingPrefilled(p, v, form, fields, shown)
  {
    hide ProfileAnswer;
    forall k | 0 <= k < |shown|
      ensures LeftOpen(p, v, form, fields, shown[k])
    {
      var i :| 0 <= i < |fields| && fields[i] == shown[k];
      assert fields[i].name !in automatic;
      assert Filled(p, v, form, fields, i).None?;
    }
  }

  lemma RememberedGroupIsAutomatic(p: Profile, v: View, form: NativeForm, fields: seq<Field>,
                                   automatic: map<string, string>)
    requires WellFormed(fields, form) && IsAutomatic(automatic, p, v, form, fields)
    ensures v.group.Some? ==>
              forall k :: 0 <= k < |fields| && GroupField(form, fields[k]) && fields[k].kind == Select ==>
                            fields[k].name in automatic && automatic[fields[k].name] == v.group.value
  {
    hide Describes;
  }

  lemma SavedWritesAreAllowed(
    p: Profile, v: View, form: NativeForm, fields: seq<Field>, automatic: map<string, string>, waited: Waited,
    writes: seq<Write>)
    requires WellFormed(fields, form) && IsAutomatic(automatic, p, v, form, fields) && |writes| <= |fields|
    requires form.error ==> v.passwordUsed
    requires forall k :: 0 <= k < |writes| ==>
                           |fields[k].native| == |fields[k].choices| && Carries(writes[k], fields[k], automatic, waited)
    ensures SavedOnlyWhereAllowed(p, v, form, fields, writes)
  {
    hide Describes;
    forall i | 0 <= i < |writes| && writes[i].saved
      ensures TakesSavedPassword(p, v, form, fields, i) && v.password == Some(writes[i].value)
    {
    }
  }
}
