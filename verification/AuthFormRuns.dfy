/** What the form callback promises over every sequence of calls in one worker. */
module AuthFormRuns {
  import opened Common
  import opened ChoiceIds
  import opened AuthForm

  datatype Call = Call(form: NativeForm, cancelled: bool, waited: Waited, code: int, fields: seq<Field>,
                       shown: seq<Field>, writes: seq<Write>)

  /** `views[i]` is what the worker remembers before call i. */
  ghost predicate IsRun(p: Profile, saved: Option<string>, views: seq<View>, calls: seq<Call>) {
    && |views| == |calls| + 1
    && views[0] == View(false, false, saved, None, 0)
    && forall i :: 0 <= i < |calls| ==> CallStep(p, views[i], calls[i], views[i + 1])
  }

  ghost predicate CallStep(p: Profile, v: View, c: Call, n: View) {
    && Step(p, v, c.form, c.waited, c.code, c.fields, c.writes, n)
    && (c.code != -1 || c.writes != [] ==> Served(p, v, c.form, c.cancelled, c.waited, c.fields, c.shown))
  }

  predicate SendsSaved(c: Call) {
    exists i :: 0 <= i < |c.writes| && c.writes[i].saved
  }

  /** Facts about the worker's memory that no later call undoes. */
  lemma {:induction false} MemoryStays(p: Profile, saved: Option<string>, views: seq<View>, calls: seq<Call>,
                                       i: nat, j: nat)
    requires IsRun(p, saved, views, calls) && i <= j < |views|
    ensures views[i].failure ==> views[j].failure
    ensures views[i].passwordUsed ==> views[j].passwordUsed
    ensures views[i].group.Some? ==> views[j].group == views[i].group
    decreases j - i
  {
    hide WritesAnswers, SavedOnlyWhereAllowed, SelectsGroup, Served, EmptyForm;
    if i < j {
      MemoryStays(p, saved, views, calls, i, j - 1);
      assert CallStep(p, views[j - 1], calls[j - 1], views[j]);
    }
  }

  /** After a failed call, every call fails without touching a native option. */
  lemma FailureIsFinal(p: Profile, saved: Option<string>, views: seq<View>, calls: seq<Call>, i: nat, j: nat)
    requires IsRun(p, saved, views, calls) && i < j < |calls| && calls[i].code == -1
    ensures calls[j].code == -1 && calls[j].writes == []
  {
    assert CallStep(p, views[i], calls[i], views[i + 1]) && CallStep(p, views[j], calls[j], views[j + 1]);
    MemoryStays(p, saved, views, calls, i + 1, j);
  }

  /**
   A cancelled call, or one whose form cannot be read or whose answer is not valid for what it
   shows, writes nothing.
   */
  lemma NothingUnchecked(p: Profile, saved: Option<string>, views: seq<View>, calls: seq<Call>, i: nat)
    requires IsRun(p, saved, views, calls) && i < |calls|
    requires var c := calls[i];
             c.cancelled || !FormReadable(c.form, p) || (c.shown != [] && !ReplyOk(c.shown, c.waited))
    ensures calls[i].code == -1 && calls[i].writes == []
  {
    hide Step, FormReadable, ReplyOk, WellFormed, IsAutomatic;
    assert CallStep(p, views[i], calls[i], views[i + 1]);
  }

  // ---------------------------------------------------------------- the group

  /** NEWGROUP is returned at most once. */
  lemma NewGroupAtMostOnce(p: Profile, saved: Option<string>, views: seq<View>, calls: seq<Call>, i: nat, j: nat)
    requires IsRun(p, saved, views, calls) && i < j < |calls| && calls[i].code == NEWGROUP
    ensures calls[j].code != NEWGROUP
  {
    hide WritesAnswers, SavedOnlyWhereAllowed, SelectsGroup, Served, EmptyForm;
    assert CallStep(p, views[i], calls[i], views[i + 1]) && CallStep(p, views[j], calls[j], views[j + 1]);
    MemoryStays(p, saved, views, calls, i + 1, j);
  }

  /** One choice of a native option, and no other, has the saved value or caption. */
  predicate OnlyMatch(choices: seq<Option<Choice>>, saved: string, k: nat) {
    && k < |choices| && Named(choices[k], saved)
    && forall j :: 0 <= j < |choices| && j != k ==> !Named(choices[j], saved)
  }

  predicate Named(choice: Option<Choice>, saved: string) {
    choice.Some? && (choice.value.id == saved || choice.value.caption == saved)
  }

  /**
   The group that is sent is the saved one: in every run, a change of group with a saved group,
   or else a saved gateway, sets the form's group option, alone, to the native value of the one
   choice that bears the saved value or caption.
   */
  lemma SavedGroupIsSent(p: Profile, saved: Option<string>, views: seq<View>, calls: seq<Call>, i: nat)
    requires IsRun(p, saved, views, calls) && i < |calls| && (p.authGroup.Some? || p.gateway.Some?)
    requires calls[i].code == NEWGROUP || (calls[i].writes != [] && AsksForGroup(p, views[i], calls[i].form))
    ensures var c := calls[i];
            && |c.writes| == 1 && c.form.group == Some(c.writes[0].option) && c.writes[0].option < |c.form.options|
            && c.form.options[c.writes[0].option].kind.SelectOption?
            && exists k: nat ::
                 var choices := c.form.options[c.writes[0].option].kind.choices;
                 var wanted := if p.authGroup.Some? then p.authGroup.value else p.gateway.value;
                 OnlyMatch(choices, wanted, k) && choices[k].value.id == c.writes[0].value
  {
    hide SelectsGroup, SavedOnlyWhereAllowed, Served, EmptyForm, PromptFields, AnswersInOrder;
    var c := calls[i];
    assert CallStep(p, views[i], c, views[i + 1]);
    var id :| SelectsGroup(p, c.form, c.fields, c.waited, c.writes, id);
    GroupMatches(p, c.form, c.fields, c.waited, c.writes, id);
  }

  lemma GroupMatches(p: Profile, form: NativeForm, fields: seq<Field>, waited: Waited, writes: seq<Write>, id: string)
    requires SelectsGroup(p, form, fields, waited, writes, id) && Desired(p).Some?
    ensures |writes| == 1 && writes[0].option < |form.options| && form.group == Some(writes[0].option)
    ensures form.options[writes[0].option].kind.SelectOption?
    ensures exists k: nat ::
              var choices := form.options[writes[0].option].kind.choices;
              OnlyMatch(choices, Desired(p).value, k) && choices[k].value.id == writes[0].value
  {
    hide SavedChoice, Position;
    var f := fields[0];
    var k := Position(f.choices, id).value;
    SavedChoiceIsTheOnlyMatch(f.choices, f.native, Desired(p).value);
    var choices := form.options[f.option].kind.choices;
    assert Matches(f.choices, f.native, Desired(p).value, k);
    forall j | 0 <= j < |choices|
      ensures Named(choices[j], Desired(p).value) <==> j == k
    {
      assert Matches(f.choices, f.native, Desired(p).value, j) <==> Named(choices[j], Desired(p).value);
    }
    assert OnlyMatch(choices, Desired(p).value, k);
  }

  /**
   Without a saved group it is the user's: what is sent is the native value of the choice whose
   public id the user answered, in a valid reply to the group field shown alone.
   */
  lemma AnsweredGroupIsSent(p: Profile, saved: Option<string>, views: seq<View>, calls: seq<Call>, i: nat)
    requires IsRun(p, saved, views, calls) && i < |calls| && Desired(p).None? && calls[i].code == NEWGROUP
    ensures var c := calls[i];
            && |c.writes| == |c.fields| == 1 && c.form.group == Some(c.writes[0].option)
            && c.writes[0].option == c.fields[0].option < |c.form.options|
            && c.form.options[c.writes[0].option].kind.SelectOption?
            && ReplyOk(c.fields, c.waited) && c.waited.answers.Some?
            && exists k :: 0 <= k < |c.fields[0].choices| == |c.form.options[c.writes[0].option].kind.choices|
                           && c.fields[0].name in c.waited.answers.value
                           && c.waited.answers.value[c.fields[0].name] == c.fields[0].choices[k].id
                           && c.form.options[c.writes[0].option].kind.choices[k].Some?
                           && c.form.options[c.writes[0].option].kind.choices[k].value.id == c.writes[0].value
  {
    hide SavedOnlyWhereAllowed, Served, EmptyForm, PromptFields, AnswersInOrder, ReplyOk, Position;
    var c := calls[i];
    assert CallStep(p, views[i], c, views[i + 1]);
    var id := views[i + 1].group.value;
    assert SelectsGroup(p, c.form, c.fields, c.waited, c.writes, id);
    assert c.fields == [c.fields[0]];
    var k := Position(c.fields[0].choices, id).value;
    assert c.fields[0].choices[k].id == id;
  }

  /** Every later form that asks for the group again gets the group that was chosen. */
  lemma ChosenGroupIsKept(p: Profile, saved: Option<string>, views: seq<View>, calls: seq<Call>, i: nat, j: nat, k: nat)
    requires IsRun(p, saved, views, calls) && i < j < |calls| && calls[i].code == NEWGROUP && k < |calls[j].writes|
    requires calls[j].form.group == Some(calls[j].writes[k].option)
    requires k < |calls[j].fields| ==> calls[j].fields[k].kind == Select
    ensures k < |calls[j].fields| && |calls[j].fields[k].native| == |calls[j].fields[k].choices|
    ensures views[i + 1].group.Some? && views[j].group == views[i + 1].group
    ensures NativeValue(calls[j].fields[k], views[i + 1].group.value) == Some(calls[j].writes[k].value)
  {
    MemoryStays(p, saved, views, calls, i + 1, j);
    hide SelectsGroup, SavedOnlyWhereAllowed, Served, EmptyForm, PromptFields, AnswersInOrder, NativeValue;
    assert CallStep(p, views[i], calls[i], views[i + 1]) && CallStep(p, views[j], calls[j], views[j + 1]);
    var (v, c) := (Entry(views[j], calls[j].form), calls[j]);
    assert AnswersInOrder(p, v, c.form, c.fields, c.waited, c.writes);
    RememberedGroupIsWritten(p, v, c.form, c.fields, c.waited, c.writes, k);
  }

  lemma RememberedGroupIsWritten(p: Profile, v: View, form: NativeForm, fields: seq<Field>, waited: Waited,
                                 writes: seq<Write>, k: nat)
    requires AnswersInOrder(p, v, form, fields, waited, writes) && v.group.Some? && k < |writes|
    requires form.group == Some(writes[k].option) && (k < |fields| ==> fields[k].kind == Select)
    ensures k < |fields| && |fields[k].native| == |fields[k].choices|
    ensures NativeValue(fields[k], v.group.value) == Some(writes[k].value)
  {
    hide IsAutomatic, NativeValue;
    var automatic :| IsAutomatic(automatic, p, v, form, fields)
                     && forall k :: 0 <= k < |writes| ==> Carries(writes[k], fields[k], automatic, waited);
    RememberedGroupIsAutomatic(p, v, form, fields, automatic);
    assert Carries(writes[k], fields[k], automatic, waited);
  }

  // ---------------------------------------------------------------- the saved password

  lemma SavedOnlyBeforeUse(p: Profile, saved: Option<string>, views: seq<View>, calls: seq<Call>, j: nat)
    requires IsRun(p, saved, views, calls) && j < |calls| && SendsSaved(calls[j])
    ensures !views[j].passwordUsed && !views[j].failure
    ensures !calls[j].form.error && calls[j].form.authId != "_challenge"
    ensures views[j + 1].passwordUsed || views[j + 1].failure
  {
    hide PromptFields, EmptyForm, Served, IsAutomatic, Describes, PasswordName;
    assert CallStep(p, views[j], calls[j], views[j + 1]);
    var c := calls[j];
    var k :| 0 <= k < |c.writes| && c.writes[k].saved;
    if c.code != -1 {
      SavedIsPassword(p, views[j], c.form, c.fields, c.waited, c.writes, k);
    }
  }

  lemma SavedIsPassword(p: Profile, v: View, form: NativeForm, fields: seq<Field>, waited: Waited, writes: seq<Write>,
                        k: nat)
    requires WritesAnswers(p, v, form, fields, waited, writes) && k < |writes| && writes[k].saved
    ensures WritesPassword(fields, writes)
  {
    hide PromptFields, IsAutomatic, Describes;
  }

  /** The saved password reaches a native option at most once. */
  lemma SavedPasswordAtMostOnce(p: Profile, saved: Option<string>, views: seq<View>, calls: seq<Call>, i: nat, j: nat)
    requires IsRun(p, saved, views, calls) && i <= j < |calls| && SendsSaved(calls[i])
    ensures i < j ==> !SendsSaved(calls[j])
    ensures forall a, b :: 0 <= a < b < |calls[i].writes| ==> !(calls[i].writes[a].saved && calls[i].writes[b].saved)
  {
    hide Step, Served;
    SavedOnlyBeforeUse(p, saved, views, calls, i);
    OneSavedWrite(p, saved, views, calls, i);
    if i < j && SendsSaved(calls[j]) {
      SavedOnlyBeforeUse(p, saved, views, calls, j);
      MemoryStays(p, saved, views, calls, i + 1, j);
    }
  }

  lemma OneSavedWrite(p: Profile, saved: Option<string>, views: seq<View>, calls: seq<Call>, i: nat)
    requires IsRun(p, saved, views, calls) && i < |calls|
    ensures forall a, b :: 0 <= a < b < |calls[i].writes| ==> !(calls[i].writes[a].saved && calls[i].writes[b].saved)
  {
    hide WritesAnswers, Served, EmptyForm, SelectsGroup;
    assert CallStep(p, views[i], calls[i], views[i + 1]);
  }

  /** Once any password was sent, typed or saved, the saved password is never sent again. */
  lemma SavedPasswordIsTheFirst(p: Profile, saved: Option<string>, views: seq<View>, calls: seq<Call>, i: nat, j: nat)
    requires IsRun(p, saved, views, calls) && i < j < |calls| && WritesPassword(calls[i].fields, calls[i].writes)
    ensures !SendsSaved(calls[j])
  {
    hide Step, Served, WritesPassword;
    if SendsSaved(calls[j]) {
      SavedOnlyBeforeUse(p, saved, views, calls, j);
      Spent(p, saved, views, calls, i);
      MemoryStays(p, saved, views, calls, i + 1, j);
    }
  }

  /** Once a form carried an error, the saved password is never sent again, that form included. */
  lemma NoSavedPasswordAfterError(p: Profile, saved: Option<string>, views: seq<View>, calls: seq<Call>, i: nat, j: nat)
    requires IsRun(p, saved, views, calls) && i <= j < |calls| && calls[i].form.error
    ensures !SendsSaved(calls[j])
  {
    hide Step, Served;
    if SendsSaved(calls[j]) {
      SavedOnlyBeforeUse(p, saved, views, calls, j);
      if i < j {
        Spent(p, saved, views, calls, i);
        MemoryStays(p, saved, views, calls, i + 1, j);
      }
    }
  }

  /** An error or a password that was sent spends the saved password. */
  lemma Spent(p: Profile, saved: Option<string>, views: seq<View>, calls: seq<Call>, i: nat)
    requires IsRun(p, saved, views, calls) && i < |calls|
    requires calls[i].form.error || WritesPassword(calls[i].fields, calls[i].writes)
    ensures views[i + 1].passwordUsed || views[i + 1].failure
  {
    hide WritesAnswers, Served, EmptyForm, SelectsGroup, WritesPassword, SavedOnlyWhereAllowed;
    assert CallStep(p, views[i], calls[i], views[i + 1]);
  }

  /**
   The saved password is written to a visible password option of the form that native code
   does not fill itself, and no other such option is one, unless it is the form's group option.
   */
  lemma SavedPasswordDestination(
    p: Profile, saved: Option<string>, views: seq<View>, calls: seq<Call>, i: nat, w: nat)
    requires IsRun(p, saved, views, calls) && i < |calls| && w < |calls[i].writes| && calls[i].writes[w].saved
    ensures views[i].password == Some(calls[i].writes[w].value)
    ensures var (form, o) := (calls[i].form, calls[i].writes[w].option);
            && o < |form.options| && Asked(p, form.options[o]) && form.options[o].kind.PasswordOption?
            && (form.group != Some(o) ==> OnlyPasswordOption(p, form, o))
  {
    hide AnswersInOrder, SelectsGroup, EmptyForm, PasswordName, Served, PromptFields, PasswordAfter;
    var c := calls[i];
    assert CallStep(p, views[i], c, views[i + 1]);
    var k :| 0 <= k < |c.fields| && c.fields[k].option == c.writes[w].option
             && TakesSavedPassword(p, views[i], c.form, c.fields, k);
    OnlyPassword(p, views[i], c.form, c.fields, k);
  }

  predicate OnlyPasswordOption(p: Profile, form: NativeForm, o: nat) {
    forall q :: 0 <= q < |form.options| && q != o && Asked(p, form.options[q]) ==> !form.options[q].kind.PasswordOption?
  }

  /** With a group option that is a selection, as native code declares it, there is no exception. */
  lemma SavedPasswordIsTheOnlyOne(
    p: Profile, saved: Option<string>, views: seq<View>, calls: seq<Call>, i: nat, w: nat)
    requires IsRun(p, saved, views, calls) && i < |calls| && w < |calls[i].writes| && calls[i].writes[w].saved
    requires var form := calls[i].form;
             form.group.Some? && form.group.value < |form.options| ==> form.options[form.group.value].kind.SelectOption?
    ensures calls[i].writes[w].option < |calls[i].form.options|
    ensures OnlyPasswordOption(p, calls[i].form, calls[i].writes[w].option)
  {
    hide CallStep, OnlyPasswordOption;
    SavedPasswordDestination(p, saved, views, calls, i, w);
  }

  lemma OnlyPassword(p: Profile, v: View, form: NativeForm, fields: seq<Field>, k: nat)
    requires PromptFields(p, v, form, fields) && k < |fields| && fields[k].kind == Password
    requires forall j :: 0 <= j < |fields| && j != k ==> fields[j].kind != Password
    ensures var o := fields[k].option;
            && o < |form.options| && Asked(p, form.options[o]) && form.options[o].kind.PasswordOption?
            && (form.group != Some(o) ==> OnlyPasswordOption(p, form, o))
  {
    if form.group != Some(fields[k].option) {
      forall q | 0 <= q < |form.options| && q != fields[k].option && Asked(p, form.options[q])
        ensures !form.options[q].kind.PasswordOption?
      {
        var j :| 0 <= j < |fields| && fields[j].option == q;
        assert Describes(fields[j], form);
      }
    }
  }

  /**
   The promises leave room for that exception: a group option that is a password option, which
   native code does not declare, may take the saved password beside another password option.
   */
  lemma PasswordGroupTakesPassword(profile: Profile, password: string)
    ensures var p := profile.(authGroup := None, gateway := None);
            var option := name => NativeOption(PasswordOption, Some(name), false, false, false);
            var form := NativeForm("", false, [option("password"), option("pin")], Some(0));
            var v := View(false, false, Some(password), None, 0);
            Step(p, v, form, Replied(true, None), -1, [Field(0, "password", Password, false, [], [])],
                 [Write(0, password, true)], v.(failure := true))
  {
    var p := profile.(authGroup := None, gateway := None);
    var option := name => NativeOption(PasswordOption, Some(name), false, false, false);
    var form := NativeForm("", false, [option("password"), option("pin")], Some(0));
    var v := View(false, false, Some(password), None, 0);
    var f := Field(0, "password", Password, false, [], []);
    var w := Write(0, password, true);
    PasswordGroupIsAnswered(p, v, form, f, password);
    hide AnswersInOrder, TakesSavedPassword;
    assert WritesAnswers(p, v, form, [f], Replied(true, None), [w]);
    assert SavedOnlyWhereAllowed(p, v, form, [f], [w]);
    assert WritesPassword([f], [w]);
  }

  lemma PasswordGroupIsAnswered(p: Profile, v: View, form: NativeForm, f: Field, password: string)
    requires f == Field(0, "password", Password, false, [], []) && Describes(f, form) && form.authId == ""
    requires v == View(false, false, Some(password), None, 0)
    ensures TakesSavedPassword(p, v, form, [f], 0)
    ensures AnswersInOrder(p, v, form, [f], Replied(true, None), [Write(0, password, true)])
  {
    assert PasswordName(p, "", "password") by {
      assert Lower("password") == "password";
    }
    hide PasswordName;
    assert TakesSavedPassword(p, v, form, [f], 0);
    hide TakesSavedPassword;
    var automatic := map["password" := password];
    assert Filled(p, v, form, [f], 0) == Some(password);
    assert IsAutomatic(automatic, p, v, form, [f]);
    assert Carries(Write(0, password, true), f, automatic, Replied(true, None));
  }

  // ---------------------------------------------------------------- empty forms

  /** Nothing is visible in the form. */
  predicate NothingVisible(form: NativeForm) {
    forall o :: o in form.options ==> o.ignored || o.kind.HiddenOption?
  }

  /**
   What is counted are empty forms in a row: each success on one adds to the count, any other
   success but the first round of a saved group starts it again.
   */
  lemma EmptyFormsAreCounted(p: Profile, saved: Option<string>, views: seq<View>, calls: seq<Call>, i: nat)
    requires IsRun(p, saved, views, calls) && i < |calls| && calls[i].code != -1
    ensures NothingVisible(calls[i].form) ==> calls[i].code == 0 && views[i + 1].empty == views[i].empty + 1 <= 2
    ensures !NothingVisible(calls[i].form) && calls[i].code == 0 ==> views[i + 1].empty == 0
    ensures calls[i].code == NEWGROUP ==>
              views[i + 1].empty == if p.authGroup.Some? || p.gateway.Some? then views[i].empty else 0
  {
    hide WritesAnswers, SelectsGroup, SavedOnlyWhereAllowed, Served, PasswordAfter;
    assert CallStep(p, views[i], calls[i], views[i + 1]);
    assert forall k :: 0 <= k < |calls[i].form.options| ==> calls[i].form.options[k] in calls[i].form.options;
  }

  /** Empty forms in a row are answered at most twice. */
  lemma AtMostTwoEmptyForms(p: Profile, saved: Option<string>, views: seq<View>, calls: seq<Call>, i: nat)
    requires IsRun(p, saved, views, calls) && i + 2 < |calls|
    requires forall k :: i <= k <= i + 2 ==> EmptyForm(calls[k].form, p)
    ensures calls[i].code == 0 && calls[i + 1].code == 0 ==> calls[i + 2].code == -1
  {
    hide WritesAnswers, SelectsGroup, SavedOnlyWhereAllowed, Served, PasswordAfter;
    assert CallStep(p, views[i], calls[i], views[i + 1]);
    assert CallStep(p, views[i + 1], calls[i + 1], views[i + 2]);
    assert CallStep(p, views[i + 2], calls[i + 2], views[i + 3]);
  }
}
