/**
 What native code is sent for each option of a form (`Worker::form` in
 `crates/engine/src/auth.rs`), read off the native form, the profile and the user's reply.
 */
module AuthFormAnswers {
  import opened Common
  import opened ChoiceIds
  import opened AuthForm
  import opened AuthFormRuns

  function NameIn(form: NativeForm, i: nat): string
    requires i < |form.options|
  {
    if form.options[i].name.Some? then form.options[i].name.value else ""
  }

  /** A text option that asks for the user's own name. */
  predicate UserNameOption(form: NativeForm, i: nat)
    requires i < |form.options|
  {
    && form.options[i].kind.TextOption? && !form.options[i].notUser
    && ("user" <= Lower(NameIn(form, i)) || "uname" <= Lower(NameIn(form, i)))
    && !Contains(Lower(NameIn(form, i)), "secondary")
  }

  /** The text option by which an Array server asks for the method, which is saved as the group. */
  predicate MethodOption(p: Profile, form: NativeForm, i: nat)
    requires i < |form.options|
  {
    form.options[i].kind.TextOption? && p.protocol == "array" && NameIn(form, i) == "method"
  }

  /** A selection of the gateway, other than the form's group. */
  predicate GatewayOption(p: Profile, form: NativeForm, i: nat)
    requires i < |form.options|
  {
    && form.options[i].kind.SelectOption? && form.group != Some(i)
    && (Contains(Lower(NameIn(form, i)), "gateway") || (p.protocol == "gp" && NameIn(form, i) == "_portal"))
  }

  /** A password option that takes the saved password: the names the profile's protocol gives it. */
  predicate InitialPassword(p: Profile, form: NativeForm, i: nat)
    requires i < |form.options|
  {
    && form.options[i].kind.PasswordOption?
    && (|| Lower(NameIn(form, i)) in {"password", "passwd"}
        || (p.protocol == "fortinet" && form.authId == "_login" && NameIn(form, i) == "credential")
        || (p.protocol == "array" && form.authId == "form" && NameIn(form, i) == "pwd"))
  }

  ghost predicate Chosen(choices: seq<Option<Choice>>, saved: string, value: string) {
    exists k: nat :: OnlyMatch(choices, saved, k) && choices[k].value.id == value
  }

  /** The user was shown the option and this is the valid answer: a choice by its public id, or the text itself. */
  ghost predicate AnsweredByUser(c: Call, i: nat, value: string)
    requires i < |c.form.options|
  {
    exists k :: 0 <= k < |c.shown| && c.shown[k].option == i && Answers(c, c.shown[k], value)
  }

  predicate Answers(c: Call, f: Field, value: string)
    requires f.option < |c.form.options|
  {
    && c.form.options[f.option].name == Some(f.name)
    && ReplyOk(c.shown, c.waited) && c.waited.answers.Some? && f.name in c.waited.answers.value
    && var answer := c.waited.answers.value[f.name];
    match c.form.options[f.option].kind
    case SelectOption(choices) =>
      && |f.choices| == |choices|
      && exists j :: 0 <= j < |choices| && f.choices[j].id == answer && choices[j].Some? && choices[j].value.id == value
    case _ => value == answer
  }

  /** Saved values go to the options that ask for them, and every other option gets the user's own answer. */
  ghost predicate RightAnswer(p: Profile, v: View, c: Call, w: Write)
    requires w.option < |c.form.options|
  {
    var (form, i) := (c.form, w.option);
    if w.saved then
      v.password == Some(w.value) && !v.passwordUsed && InitialPassword(p, form, i) && form.authId != "_challenge"
    else if form.group == Some(i) && form.options[i].kind.SelectOption? && v.group.Some? then
      GroupAnswer(c, w, v.group.value)
    else if UserNameOption(form, i) && p.username.Some? then w.value == p.username.value
    else if !UserNameOption(form, i) && MethodOption(p, form, i) && p.authGroup.Some? then w.value == p.authGroup.value
    else if GatewayOption(p, form, i) && p.gateway.Some? then
      Chosen(form.options[i].kind.choices, p.gateway.value, w.value)
    else AnsweredByUser(c, i, w.value)
  }

  /** The native value of the choice that was remembered as the group. */
  predicate GroupAnswer(c: Call, w: Write, group: string)
    requires w.option < |c.form.options| && c.form.options[w.option].kind.SelectOption?
  {
    var choices := c.form.options[w.option].kind.choices;
    exists k, j :: 0 <= k < |c.fields| && c.fields[k].option == w.option && 0 <= j < |choices| == |c.fields[k].choices|
                   && c.fields[k].choices[j].id == group && choices[j].Some? && choices[j].value.id == w.value
  }

  /**
   In every run, whatever is sent after the first round of a saved group, by failing calls too,
   is the right answer to its option: the user name, the method, the gateway, the group and the
   password where they are asked for and saved, and otherwise what the user answered when shown it.
   */
  lemma OptionsGetTheirAnswers(p: Profile, saved: Option<string>, views: seq<View>, calls: seq<Call>, i: nat, w: nat)
    requires IsRun(p, saved, views, calls) && i < |calls| && w < |calls[i].writes|
    requires !SendsSavedGroup(p, views[i], calls[i].form)
    ensures var (c, write) := (calls[i], calls[i].writes[w]);
            && write.option < |c.form.options| && Asked(p, c.form.options[write.option])
            && RightAnswer(p, Entry(views[i], c.form), c, write)
  {
    hide SavedOnlyWhereAllowed, EmptyForm, PasswordAfter, RightAnswer, Open, ReplyOk, IsAutomatic, WellFormed,
      FormReadable;
      var (v, c) := (Entry(views[i], calls[i].form), calls[i]);
    assert CallStep(p, views[i], c, views[i + 1]);
    assert AnswersInOrder(p, v, c.form, c.fields, c.waited, c.writes);
    assert ShowsOpen(p, v, c.form, c.waited, c.fields, c.shown);
    var automatic :| IsAutomatic(automatic, p, v, c.form, c.fields)
                     && forall k :: 0 <= k < |c.writes| ==> Carries(c.writes[k], c.fields[k], automatic, c.waited);
    AskedIsDescribed(p, views[i], c.form, c.fields, w);
    WriteIsRight(p, v, c, automatic, w);
  }

  lemma AskedIsDescribed(p: Profile, v: View, form: NativeForm, fields: seq<Field>, k: nat)
    requires PromptFields(p, v, form, fields) && k < |fields|
    ensures Describes(fields[k], form) && fields[k].option < |form.options| && Asked(p, form.options[fields[k].option])
  {
  }

  lemma WriteIsRight(p: Profile, v: View, c: Call, automatic: map<string, string>, w: nat)
    requires WellFormed(c.fields, c.form) && w < |c.fields| && w < |c.writes|
    requires Describes(c.fields[w], c.form)
    requires IsAutomatic(automatic, p, v, c.form, c.fields) && Carries(c.writes[w], c.fields[w], automatic, c.waited)
    requires ShowsOpen(p, v, c.form, c.waited, c.fields, c.shown)
    ensures RightAnswer(p, v, c, c.writes[w])
  {
    hide RightAnswer, Describes, WellFormed, IsAutomatic, ShowsOpen, ReplyOk, Carries;
    var f := c.fields[w];
    if f.name in automatic {
      AutomaticIsRight(p, v, c, automatic, w);
    } else {
      OpenIsShown(p, v, c, automatic, w);
      OpenIsRight(p, v, c, automatic, w);
    }
  }

  /** Whatever automatic answers there are, a field without one is shown. */
  lemma OpenIsShown(p: Profile, v: View, c: Call, automatic: map<string, string>, w: nat)
    requires WellFormed(c.fields, c.form) && w < |c.fields| && c.fields[w].name !in automatic
    requires IsAutomatic(automatic, p, v, c.form, c.fields)
    requires ShowsOpen(p, v, c.form, c.waited, c.fields, c.shown)
    ensures c.fields[w] in c.shown && ReplyOk(c.shown, c.waited) && c.waited.answers.Some?
  {
    hide Describes, Filled, AnswerOfProfile, ReplyOk;
    var other :| IsAutomatic(other, p, v, c.form, c.fields) && c.shown == Open(c.fields, other);
    assert c.fields[w].name !in other;
  }

  /** What the profile and the saved password leave open is none of the options they answer. */
  lemma OpenIsRight(p: Profile, v: View, c: Call, automatic: map<string, string>, w: nat)
    requires WellFormed(c.fields, c.form) && w < |c.fields| && w < |c.writes| && c.fields[w].name !in automatic
    requires IsAutomatic(automatic, p, v, c.form, c.fields) && Carries(c.writes[w], c.fields[w], automatic, c.waited)
    requires c.fields[w] in c.shown && ReplyOk(c.shown, c.waited) && c.waited.answers.Some?
    ensures c.writes[w].option < |c.form.options| && RightAnswer(p, v, c, c.writes[w])
  {
    var (f, write) := (c.fields[w], c.writes[w]);
    assert Describes(f, c.form);
    assert Filled(p, v, c.form, c.fields, w).None?;
    NothingSavedFor(p, v, c.form, c.fields, w);
    hide WellFormed, IsAutomatic, Filled, AnswerOfProfile, UserNameOption, MethodOption, GatewayOption, ReplyOk;
    ReplyNames(c.shown, c.waited);
    var k :| 0 <= k < |c.shown| && c.shown[k] == f;
    assert Answers(c, f, write.value) by {
      if f.kind == Select {
        hide Position;
        var j := Position(f.choices, c.waited.answers.value[f.name]).value;
        assert f.choices[j].id == c.waited.answers.value[f.name];
      }
    }
    assert AnsweredByUser(c, write.option, write.value);
  }

  lemma NothingSavedFor(p: Profile, v: View, form: NativeForm, fields: seq<Field>, k: nat)
    requires WellFormed(fields, form) && k < |fields| && Describes(fields[k], form)
    requires Filled(p, v, form, fields, k).None? && AnswerOfProfile(p, v, form, fields[k]).Ok?
    ensures var i := fields[k].option;
            && !(form.group == Some(i) && form.options[i].kind.SelectOption? && v.group.Some?)
            && !(UserNameOption(form, i) && p.username.Some?)
            && !(!UserNameOption(form, i) && MethodOption(p, form, i) && p.authGroup.Some?)
            && !(GatewayOption(p, form, i) && p.gateway.Some?)
  {
    hide WellFormed, PasswordName, SavedChoice, Position, Contains, Lower;
  }

  /** What is filled in without asking is what the profile or the saved password has for that option. */
  lemma AutomaticIsRight(p: Profile, v: View, c: Call, automatic: map<string, string>, w: nat)
    requires WellFormed(c.fields, c.form) && w < |c.fields| && w < |c.writes| && c.fields[w].name in automatic
    requires IsAutomatic(automatic, p, v, c.form, c.fields) && Carries(c.writes[w], c.fields[w], automatic, c.waited)
    ensures c.writes[w].option < |c.form.options| && RightAnswer(p, v, c, c.writes[w])
  {
    var (f, write) := (c.fields[w], c.writes[w]);
    assert Describes(f, c.form);
    assert Filled(p, v, c.form, c.fields, w) == Some(automatic[f.name]);
    hide WellFormed, IsAutomatic;
    FilledIsSaved(p, v, c.form, c.fields, w, automatic[f.name]);
    hide Filled, AnswerOfProfile, UserNameOption, MethodOption, GatewayOption, TakesSavedPassword, InitialPassword;
    if f.kind == Select {
      SelectedIsRight(p, v, c, w, automatic[f.name]);
    }
  }

  lemma FilledIsSaved(p: Profile, v: View, form: NativeForm, fields: seq<Field>, k: nat, value: string)
    requires WellFormed(fields, form) && k < |fields| && Describes(fields[k], form)
    requires Filled(p, v, form, fields, k) == Some(value) && AnswerOfProfile(p, v, form, fields[k]).Ok?
    ensures var (f, i) := (fields[k], fields[k].option);
            match f.kind
            case Password =>
              v.password == Some(value) && !v.passwordUsed && InitialPassword(p, form, i) && form.authId != "_challenge"
            case Text =>
              if UserNameOption(form, i) then p.username == Some(value)
              else MethodOption(p, form, i) && p.authGroup == Some(value)
            case Select =>
              if form.group == Some(i) then v.group == Some(value)
              else
                && GatewayOption(p, form, i) && p.gateway.Some?
                && SavedChoice(f.choices, f.native, p.gateway.value) == Ok(value)
            case Token => false
  {
    hide WellFormed, SavedChoice, Position, Contains, Lower;
  }

  lemma SelectedIsRight(p: Profile, v: View, c: Call, w: nat, answer: string)
    requires w < |c.fields| && w < |c.writes| && Describes(c.fields[w], c.form) && c.fields[w].kind == Select
    requires c.writes[w].option == c.fields[w].option && !c.writes[w].saved
    requires NativeValue(c.fields[w], answer) == Some(c.writes[w].value)
    requires var (f, i) := (c.fields[w], c.fields[w].option);
             if c.form.group == Some(i) then v.group == Some(answer)
             else
               && GatewayOption(p, c.form, i) && p.gateway.Some?
               && SavedChoice(f.choices, f.native, p.gateway.value) == Ok(answer)
    ensures RightAnswer(p, v, c, c.writes[w])
  {
    hide GatewayOption, UserNameOption, MethodOption, SavedChoice, ChoiceIds.Named;
      var (f, i) := (c.fields[w], c.fields[w].option);
    var choices := c.form.options[i].kind.choices;
    var j := Position(f.choices, answer).value;
    assert f.choices[j].id == answer && choices[j].Some? && choices[j].value.id == c.writes[w].value;
    if c.form.group == Some(i) {
      assert GroupAnswer(c, c.writes[w], answer);
    } else {
      OneMatch(f, choices, p.gateway.value, answer, j);
      assert Chosen(choices, p.gateway.value, c.writes[w].value);
      NoTextOption(p, c.form, i);
    }
  }

  lemma NoTextOption(p: Profile, form: NativeForm, i: nat)
    requires i < |form.options| && form.options[i].kind.SelectOption?
    ensures !UserNameOption(form, i) && !MethodOption(p, form, i)
  {
  }

  /** A saved choice that is found is the only one of the native choices with the saved value or caption. */
  lemma OneMatch(f: Field, choices: seq<Option<Choice>>, saved: string, answer: string, j: nat)
    requires |f.choices| == |f.native| == |choices| && Distinct(Ids(f.choices))
    requires forall k :: 0 <= k < |choices| ==>
                           choices[k].Some? && f.native[k] == choices[k].value.id
                           && f.choices[k].caption == choices[k].value.caption
    requires SavedChoice(f.choices, f.native, saved) == Ok(answer) && Position(f.choices, answer) == Some(j)
    ensures OnlyMatch(choices, saved, j)
  {
    hide SavedChoice, Position, Ids;
    SavedChoiceIsTheOnlyMatch(f.choices, f.native, saved);
    forall k | 0 <= k < |choices|
      ensures AuthFormRuns.Named(choices[k], saved) <==> k == j
    {
      assert Matches(f.choices, f.native, saved, k) <==> AuthFormRuns.Named(choices[k], saved);
    }
  }

  // ---------------------------------------------------------------- nothing is left out

  /** A complete answer sets every option that is asked for, in the order of the form and each once. */
  lemma EveryOptionIsSet(p: Profile, saved: Option<string>, views: seq<View>, calls: seq<Call>, i: nat, o: nat)
    requires IsRun(p, saved, views, calls) && i < |calls| && calls[i].code == 0
    requires o < |calls[i].form.options| && Asked(p, calls[i].form.options[o])
    ensures exists w :: 0 <= w < |calls[i].writes| && calls[i].writes[w].option == o
    ensures forall j, k :: 0 <= j < k < |calls[i].writes| ==> calls[i].writes[j].option < calls[i].writes[k].option
  {
    hide SavedOnlyWhereAllowed, EmptyForm, PasswordAfter, Served, IsAutomatic, Describes;
      var (v, c) := (Entry(views[i], calls[i].form), calls[i]);
    assert CallStep(p, views[i], c, views[i + 1]);
    assert AnswersInOrder(p, v, c.form, c.fields, c.waited, c.writes);
    assert DescribeAll(c.fields, c.form, p, |c.form.options|);
    assert forall k :: 0 <= k < |c.writes| ==> c.writes[k].option == c.fields[k].option;
    var k :| 0 <= k < |c.fields| && c.fields[k].option == o;
    assert c.writes[k].option == o;
  }

  /**
   The saved password is used where it can be: a form answered in full, without an error and no
   challenge, whose one password option has such a name, gets it while it has not been spent.
   */
  lemma SavedPasswordIsSent(p: Profile, saved: Option<string>, views: seq<View>, calls: seq<Call>, i: nat, o: nat)
    requires IsRun(p, saved, views, calls) && i < |calls| && calls[i].code == 0
    requires var form := calls[i].form;
             && o < |form.options| && Asked(p, form.options[o]) && InitialPassword(p, form, o)
             && OnlyPasswordOption(p, form, o)
             && !form.error && form.authId != "_challenge"
    requires !views[i].passwordUsed && views[i].password.Some?
    ensures Write(o, views[i].password.value, true) in calls[i].writes
  {
    hide SavedOnlyWhereAllowed, EmptyForm, PasswordAfter, Served, IsAutomatic;
      var (v, c) := (views[i], calls[i]);
    assert CallStep(p, v, c, views[i + 1]);
    assert AnswersInOrder(p, v, c.form, c.fields, c.waited, c.writes);
    assert DescribeAll(c.fields, c.form, p, |c.form.options|);
    var automatic :| IsAutomatic(automatic, p, v, c.form, c.fields)
                     && forall k :: 0 <= k < |c.writes| ==> Carries(c.writes[k], c.fields[k], automatic, c.waited);
    var k :| 0 <= k < |c.fields| && c.fields[k].option == o;
    TakesPassword(p, v, c.form, c.fields, k);
    hide TakesSavedPassword, Describes, WellFormed, DescribeAll, InitialPassword, OnlyPasswordOption;
    PasswordIsFilled(p, v, c.form, c.fields, automatic, k);
    assert c.writes[k] == Write(o, v.password.value, true);
  }

  lemma TakesPassword(p: Profile, v: View, form: NativeForm, fields: seq<Field>, k: nat)
    requires DescribeAll(fields, form, p, |form.options|) && k < |fields|
    requires InitialPassword(p, form, fields[k].option) && OnlyPasswordOption(p, form, fields[k].option)
    requires form.authId != "_challenge" && !v.passwordUsed && v.password.Some?
    ensures TakesSavedPassword(p, v, form, fields, k) && fields[k].kind == Password
  {
    hide Lower;
    assert Describes(fields[k], form);
    forall j | 0 <= j < |fields| && j != k
      ensures fields[j].kind != Password
    {
      assert Describes(fields[j], form) && fields[j].option != fields[k].option;
      assert Asked(p, form.options[fields[j].option]);
    }
  }

  lemma PasswordIsFilled(p: Profile, v: View, form: NativeForm, fields: seq<Field>, automatic: map<string, string>,
                         k: nat)
    requires WellFormed(fields, form) && k < |fields| && TakesSavedPassword(p, v, form, fields, k)
    requires IsAutomatic(automatic, p, v, form, fields) && v.password.Some?
    ensures fields[k].name in automatic && automatic[fields[k].name] == v.password.value
  {
    hide TakesSavedPassword, Describes;
    assert Filled(p, v, form, fields, k) == v.password;
  }

  /** A saved gateway names no choice, or several, of an option that asks for it. */
  ghost predicate GatewayUnclear(p: Profile, form: NativeForm, i: nat)
    requires i < |form.options|
  {
    GatewayOption(p, form, i) && p.gateway.Some?
    && forall k: nat :: !OnlyMatch(form.options[i].kind.choices, p.gateway.value, k)
  }

  /** The group that was chosen is not among the choices any more. */
  predicate GroupGone(v: View, form: NativeForm, f: Field)
    requires f.option < |form.options|
  {
    form.group == Some(f.option) && form.options[f.option].kind.SelectOption? && v.group.Some?
    && forall j :: 0 <= j < |f.choices| ==> f.choices[j].id != v.group.value
  }

  /** Filling in without asking fails exactly for such a gateway or such a group, and with its code. */
  lemma SelectionFailsExactlyWhen(p: Profile, v: View, form: NativeForm, fields: seq<Field>, code: ErrorCode)
    requires WellFormed(fields, form)
    ensures SelectionFails(p, v, form, fields, code) <==>
            exists k :: 0 <= k < |fields| && fields[k].option < |form.options|
                        && (|| (GatewayUnclear(p, form, fields[k].option) && code == AuthenticationRequired)
                            || (GroupGone(v, form, fields[k]) && code == Conflict))
  {
    hide WellFormed, AnswerOfProfile, GatewayUnclear, GroupGone;
    forall k | 0 <= k < |fields|
      ensures Describes(fields[k], form)
      ensures fields[k].option < |form.options|
      ensures SelectionFailsAt(p, v, form, fields, k, code) <==>
              || (GatewayUnclear(p, form, fields[k].option) && code == AuthenticationRequired)
              || (GroupGone(v, form, fields[k]) && code == Conflict)
    {
      Described(fields, form, k);
      OneSelectionFails(p, v, form, fields[k], code);
    }
  }

  lemma Described(fields: seq<Field>, form: NativeForm, k: nat)
    requires WellFormed(fields, form) && k < |fields|
    ensures Describes(fields[k], form) && fields[k].option < |form.options| && |fields[k].native| == |fields[k].choices|
  {
  }

  lemma OneSelectionFails(p: Profile, v: View, form: NativeForm, f: Field, code: ErrorCode)
    requires Describes(f, form)
    ensures AnswerOfProfile(p, v, form, f) == Err(code) <==>
            || (GatewayUnclear(p, form, f.option) && code == AuthenticationRequired)
            || (GroupGone(v, form, f) && code == Conflict)
  {
    hide SavedChoice, Position, Contains, Lower, ChoiceIds.Named;
    if GatewayOption(p, form, f.option) && p.gateway.Some? {
      UnclearFails(f, form.options[f.option].kind.choices, p.gateway.value);
    }
  }

  lemma UnclearFails(f: Field, choices: seq<Option<Choice>>, saved: string)
    requires |f.choices| == |f.native| == |choices| && Distinct(Ids(f.choices))
    requires forall k :: 0 <= k < |choices| ==>
                           choices[k].Some? && f.native[k] == choices[k].value.id
                           && f.choices[k].caption == choices[k].value.caption
    ensures var found := SavedChoice(f.choices, f.native, saved);
            && (found.Err? <==> forall k: nat :: !OnlyMatch(choices, saved, k))
            && (found.Err? ==> found.code == AuthenticationRequired)
  {
    hide Position, Ids, NextMatch;
    SavedChoiceIsTheOnlyMatch(f.choices, f.native, saved);
    forall k | 0 <= k < |choices|
      ensures AuthFormRuns.Named(choices[k], saved) <==> Matches(f.choices, f.native, saved, k)
    {
    }
    UnclearCode(f.choices, f.native, saved);
    hide AuthFormRuns.Named, Matches, SavedChoice;
    if found :| 0 <= found < |choices| && Matches(f.choices, f.native, saved, found)
                && forall j :: 0 <= j < |choices| && j != found ==> !Matches(f.choices, f.native, saved, j) {
      assert OnlyMatch(choices, saved, found);
    }
    if k: nat :| OnlyMatch(choices, saved, k) {
      assert Matches(f.choices, f.native, saved, k);
    }
  }

  lemma UnclearCode(choices: seq<Choice>, native: seq<string>, saved: string)
    requires |choices| == |native|
    ensures SavedChoice(choices, native, saved).Err? ==>
              SavedChoice(choices, native, saved).code == AuthenticationRequired
  {
    hide NextMatch;
  }

  // ---------------------------------------------------------------- which options are asked for

  /** Asked for are text, passwords, selections, tokens the profile does not provide, and kinds nobody knows. */
  lemma AskedMeaning(p: Profile, o: NativeOption)
    ensures Asked(p, o) <==>
            !o.ignored
            && (o.kind.TextOption? || o.kind.PasswordOption? || o.kind.SelectOption? || o.kind.UnknownOption?
                || (o.kind.TokenOption? && !p.token))
  {
  }

  /** What is wrong with an option that is asked for: its kind, its name, or its choices. */
  predicate BadOption(o: NativeOption) {
    || o.kind.UnknownOption?
    || o.name.None?
    || (o.kind.SelectOption?
        && (o.kind.choices == [] || |o.kind.choices| > 256 || None in o.kind.choices))
  }

  /** A form cannot be read exactly when it is too large, asks for a bad option, or asks twice under one name. */
  lemma UnreadableExactlyWhen(form: NativeForm, p: Profile)
    ensures !FormReadable(form, p) <==>
            || |form.options| > 256
            || (exists i :: 0 <= i < |form.options| && Asked(p, form.options[i]) && BadOption(form.options[i]))
            || (exists i, j :: 0 <= i < j < |form.options| && Asked(p, form.options[i]) && Asked(p, form.options[j])
                               && form.options[i].name == form.options[j].name)
  {
    hide Asked;
    forall i | 0 <= i < |form.options| && Asked(p, form.options[i])
      ensures BadOption(form.options[i]) <==> !OptionReadable(form.options[i])
    {
      BadMeaning(p, form.options[i]);
    }
    hide BadOption, OptionReadable;
  }

  lemma BadMeaning(p: Profile, o: NativeOption)
    requires Asked(p, o)
    ensures BadOption(o) <==> !OptionReadable(o)
  {
  }

  // ---------------------------------------------------------------- which replies are refused

  /**
   What is wrong with an answer: it is empty, too long, holds a NUL, or is no number or choice
   where one is asked for.
   */
  predicate BadAnswer(f: Field, value: string) {
    || value == "" || Utf8Length(value) > 65536 || '\0' in value
    || (f.numeric && exists i :: 0 <= i < |value| && !('0' <= value[i] <= '9'))
    || (f.kind == Select && forall j :: 0 <= j < |f.choices| ==> f.choices[j].id != value)
  }

  /**
   A reply is refused exactly when it did not come, is for another prompt, names a field that was
   not shown, or leaves one out or answers it badly; a reply that cancels has no answers to check.
   */
  lemma RepliesAreRefusedExactlyWhen(fields: seq<Field>, waited: Waited)
    ensures !ReplyOk(fields, waited) <==>
            || waited.Interrupted? || !waited.current
            || (waited.answers.Some?
                && (|| (exists name :: name in waited.answers.value
                                       && forall k :: 0 <= k < |fields| ==> fields[k].name != name)
                    || (exists k :: 0 <= k < |fields|
                                    && (fields[k].name !in waited.answers.value
                                        || BadAnswer(fields[k], waited.answers.value[fields[k].name])))))
  {
    hide Utf8Length, Position;
    if waited.Replied? && waited.answers.Some? {
      forall k | 0 <= k < |fields| && fields[k].name in waited.answers.value
        ensures BadAnswer(fields[k], waited.answers.value[fields[k].name])
           <==> !AnswerOk(fields[k], waited.answers.value[fields[k].name])
      {
      }
      hide BadAnswer, AnswerOk;
    }
  }

  /** Native code is never given a text that is not a C string of at most 65536 bytes. */
  lemma OnlyCStrings(writes: seq<Write>, refused: set<nat>, success: bool)
    requires Accepted(writes, refused, success)
    ensures forall w :: w in writes ==> '\0' !in w.value && Utf8Length(w.value) <= 65536
    ensures success ==> forall w :: w in writes ==> w.option !in refused
  {
  }
}
