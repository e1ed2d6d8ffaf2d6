/** Public ids of the choices in an authentication form (`choice_ids`, `saved_choice`). */
module ChoiceIds {
  import opened Common

  datatype Choice = Choice(id: string, caption: string)

  function Ids(choices: seq<Choice>): (ids: seq<string>)
    ensures |ids| == |choices|
    ensures forall i :: 0 <= i < |choices| ==> ids[i] == choices[i].id
  {
    seq(|choices|, i requires 0 <= i < |choices| => choices[i].id)
  }

  predicate Distinct(ids: seq<string>) {
    forall i, j :: 0 <= i < j < |ids| ==> ids[i] != ids[j]
  }

  predicate Repeated(native: seq<string>, i: nat)
    requires i < |native|
  {
    multiset(native)[native[i]] != 1
  }

  /** The k-th id tried for a repeated value: the base itself, then numbered from 1. */
  function Candidate(base: string, k: nat): string {
    if k == 0 then base else base + "#" + Decimal(k)
  }

  function Base(native: string, caption: string): string {
    native + "#" + caption
  }

  /** Ids that are taken when choice `i` is named: every native value, and the new ids before it. */
  ghost function Taken(native: seq<string>, ids: seq<string>, i: nat): set<string>
    requires i <= |ids| == |native|
  {
    (set k | 0 <= k < |native| :: native[k]) + (set k | 0 <= k < i :: ids[k])
  }

  /** The first candidate that is not taken. */
  ghost predicate FirstFree(id: string, base: string, k: nat, taken: set<string>) {
    && id == Candidate(base, k)
    && id !in taken
    && (forall j :: 0 <= j < k ==> Candidate(base, j) in taken)
    && k <= |taken|
  }

  /** The public ids the source promises for the first `n` choices. */
  ghost predicate Named(native: seq<string>, labels: seq<string>, ids: seq<string>, n: nat)
    requires n <= |native| == |labels| == |ids|
  {
    forall i :: 0 <= i < n ==>
                  if Repeated(native, i) then
                    exists k :: FirstFree(ids[i], Base(native[i], labels[i]), k, Taken(native, ids, i))
                  else ids[i] == native[i]
  }

  lemma CandidateInjective(base: string, j: nat, k: nat)
    requires Candidate(base, j) == Candidate(base, k)
    ensures j == k
  {
    if j > 0 && k > 0 {
      var n := |base + "#"|;
      assert Candidate(base, j)[n..] == Decimal(j);
      assert Candidate(base, k)[n..] == Decimal(k);
      DecimalInjective(j, k);
    }
  }

  /** Candidates are all different, so at most as many can be taken as there are taken ids. */
  lemma {:induction false} TriesAreBounded(base: string, k: nat, taken: set<string>)
    requires forall j :: 0 <= j < k ==> Candidate(base, j) in taken
    ensures k <= |taken|
  {
    if k > 0 {
      var last := Candidate(base, k - 1);
      forall j | 0 <= j < k - 1 ensures Candidate(base, j) in taken - {last} {
        if Candidate(base, j) == last {
          CandidateInjective(base, j, k - 1);
        }
      }
      TriesAreBounded(base, k - 1, taken - {last});
    }
  }

  /** The inner search of `choice_ids`. */
  method FreeId(base: string, reserved: set<string>) returns (id: string)
    ensures exists k :: FirstFree(id, base, k, reserved)
  {
    id := base;
    var ordinal := 1;
    while id in reserved
      invariant ordinal >= 1 && id == Candidate(base, ordinal - 1)
      invariant forall j :: 0 <= j < ordinal - 1 ==> Candidate(base, j) in reserved
      decreases |reserved| + 1 - ordinal
    {
      TriesAreBounded(base, ordinal, reserved);
      id := base + "#" + Decimal(ordinal);
      ordinal := ordinal + 1;
    }
    TriesAreBounded(base, ordinal - 1, reserved);
    assert FirstFree(id, base, ordinal - 1, reserved);
  }

  method ChoiceIds(choices: array<Choice>) returns (native: seq<string>)
    modifies choices
    ensures native == old(Ids(choices[..]))
    ensures forall i :: 0 <= i < choices.Length ==> choices[i].caption == old(choices[i].caption)
    ensures Named(native, old(Labels(choices[..])), Ids(choices[..]), choices.Length)
  {
    hide FirstFree, Candidate, Ids, Labels;
    native := Ids(choices[..]);
    ghost var labels := Labels(choices[..]);
    ghost var ids := native;
    var reserved := set k | 0 <= k < |native| :: native[k];
    for index := 0 to choices.Length
      invariant |ids| == choices.Length
      invariant forall i :: 0 <= i < choices.Length ==> choices[i].caption == labels[i] && choices[i].id == ids[i]
      invariant forall i :: index <= i < choices.Length ==> ids[i] == native[i]
      invariant reserved == Taken(native, ids, index)
      invariant Named(native, labels, ids, index)
    {
      ghost var before := ids;
      if multiset(native)[native[index]] != 1 {
        var id := FreeId(Base(native[index], choices[index].caption), reserved);
        reserved := reserved + {id};
        choices[index] := Choice(id, choices[index].caption);
        ids := ids[index := id];
      }
      assert native[index] in Taken(native, before, index);
      NamedStep(native, labels, before, ids, index);
    }
    assert Ids(choices[..]) == ids;
  }

  function Labels(choices: seq<Choice>): (labels: seq<string>)
    ensures |labels| == |choices|
    ensures forall i :: 0 <= i < |choices| ==> labels[i] == choices[i].caption
  {
    seq(|choices|, i requires 0 <= i < |choices| => choices[i].caption)
  }

  lemma TakenFrame(native: seq<string>, a: seq<string>, b: seq<string>, i: nat)
    requires i <= |a| == |b| == |native| && a[..i] == b[..i]
    ensures Taken(native, a, i) == Taken(native, b, i)
  {
    assert forall k :: 0 <= k < i ==> a[k] == a[..i][k] == b[..i][k] == b[k];
  }

  lemma NamedStep(native: seq<string>, labels: seq<string>, before: seq<string>, after: seq<string>, n: nat)
    requires n < |native| == |labels| == |before| == |after|
    requires after == before[n := after[n]]
    requires Named(native, labels, before, n)
    requires if Repeated(native, n)
             then exists k :: FirstFree(after[n], Base(native[n], labels[n]), k, Taken(native, before, n))
             else after[n] == native[n]
    ensures Named(native, labels, after, n + 1)
    ensures Taken(native, after, n + 1) == Taken(native, before, n) + {after[n]}
  {
    forall i | 0 <= i <= n ensures Taken(native, after, i) == Taken(native, before, i) {
      TakenFrame(native, after, before, i);
    }
    assert forall k :: 0 <= k < n + 1 ==> after[k] == after[n] || k < n;
  }

  // ---------------------------------------------------------------- what the ids are good for

  lemma Occurrences(s: seq<string>, i: nat, j: nat)
    requires i < j < |s| && s[i] == s[j]
    ensures multiset(s)[s[i]] >= 2
  {
    assert s == s[..j] + [s[j]] + s[j + 1..];
    assert s[i] in s[..j];
    assert multiset(s) == multiset(s[..j]) + multiset{s[j]} + multiset(s[j + 1..]);
  }

  /** All public ids are pairwise different, and a value that occurs once keeps itself as its id. */
  lemma IdsAreDistinct(native: seq<string>, labels: seq<string>, ids: seq<string>)
    requires |native| == |labels| == |ids| && Named(native, labels, ids, |native|)
    ensures Distinct(ids)
    ensures forall i :: 0 <= i < |native| && !Repeated(native, i) ==> ids[i] == native[i]
  {
    forall i, j | 0 <= i < j < |ids| ensures ids[i] != ids[j] {
      assert native[i] in Taken(native, ids, j) && native[j] in Taken(native, ids, i);
      assert ids[i] in Taken(native, ids, j);
      if !Repeated(native, i) && !Repeated(native, j) && native[i] == native[j] {
        Occurrences(native, i, j);
      }
    }
  }

  lemma FirstFreeIsUnique(a: string, b: string, base: string, j: nat, k: nat, taken: set<string>)
    requires FirstFree(a, base, j, taken) && FirstFree(b, base, k, taken)
    ensures a == b
  {
    assert j == k;
  }

  /** The naming is a function of the native values and labels. */
  lemma {:induction false} NamingIsUnique(native: seq<string>, labels: seq<string>, a: seq<string>, b: seq<string>,
                                          n: nat)
    requires n <= |native| == |labels| == |a| == |b|
    requires Named(native, labels, a, n) && Named(native, labels, b, n)
    ensures a[..n] == b[..n]
  {
    hide FirstFree, Repeated;
    if n > 0 {
      NamingIsUnique(native, labels, a, b, n - 1);
      TakenFrame(native, a, b, n - 1);
      if Repeated(native, n - 1) {
        var taken := Taken(native, a, n - 1);
        var base := Base(native[n - 1], labels[n - 1]);
        var j :| FirstFree(a[n - 1], base, j, taken);
        var k :| FirstFree(b[n - 1], base, k, taken);
        FirstFreeIsUnique(a[n - 1], b[n - 1], base, j, k, taken);
      }
      assert a[..n] == a[..n - 1] + [a[n - 1]];
      assert b[..n] == b[..n - 1] + [b[n - 1]];
    }
  }

  /** Position of the first choice with the id, as an answer is looked up. */
  function Position(choices: seq<Choice>, id: string): (p: Option<nat>)
    ensures p.Some? ==> p.value < |choices| && choices[p.value].id == id
    ensures p.None? ==> forall i :: 0 <= i < |choices| ==> choices[i].id != id
  {
    if choices == [] then None
    else if choices[0].id == id then Some(0)
    else
      match Position(choices[1..], id)
      case None => None
      case Some(p) => Some(p + 1)
  }

  /** Answering with the id of choice i selects choice i, so native value i is the one sent. */
  lemma AnswerSelectsItsChoice(choices: seq<Choice>, i: nat)
    requires Distinct(Ids(choices)) && i < |choices|
    ensures Position(choices, choices[i].id) == Some(i)
  {
    hide Position, Ids, Distinct;
    var found := Position(choices, choices[i].id);
    IdIsFound(choices, i);
    SameId(choices, i, found.value);
  }

  lemma IdIsFound(choices: seq<Choice>, i: nat)
    requires i < |choices|
    ensures Position(choices, choices[i].id).Some?
  {
    hide Position;
  }

  lemma SameId(choices: seq<Choice>, i: nat, j: nat)
    requires Distinct(Ids(choices)) && i < |choices| && j < |choices| && choices[i].id == choices[j].id
    ensures i == j
  {
    hide Ids;
    assert Ids(choices)[i] == Ids(choices)[j];
  }

  // ---------------------------------------------------------------- a saved group or gateway

  predicate Matches(choices: seq<Choice>, native: seq<string>, saved: string, i: nat)
    requires i < |choices| == |native|
  {
    native[i] == saved || choices[i].caption == saved
  }

  /** Index of the first match at or after `from`. */
  function NextMatch(choices: seq<Choice>, native: seq<string>, saved: string, from: nat): (m: Option<nat>)
    requires from <= |choices| == |native|
    ensures m.Some? ==> from <= m.value < |choices| && Matches(choices, native, saved, m.value)
                        && forall i :: from <= i < m.value ==> !Matches(choices, native, saved, i)
    ensures m.None? ==> forall i :: from <= i < |choices| ==> !Matches(choices, native, saved, i)
    decreases |choices| - from
  {
    if from == |choices| then None
    else if Matches(choices, native, saved, from) then Some(from)
    else NextMatch(choices, native, saved, from + 1)
  }

  function SavedChoice(choices: seq<Choice>, native: seq<string>, saved: string): Result<string>
    requires |choices| == |native|
  {
    match NextMatch(choices, native, saved, 0)
    case None => Err(AuthenticationRequired)
    case Some(first) =>
      if NextMatch(choices, native, saved, first + 1).Some? then Err(AuthenticationRequired)
      else Ok(choices[first].id)
  }

  /** A saved choice is found exactly when one choice matches it, and then it selects that choice. */
  lemma SavedChoiceIsTheOnlyMatch(choices: seq<Choice>, native: seq<string>, saved: string)
    requires |choices| == |native| && Distinct(Ids(choices))
    ensures SavedChoice(choices, native, saved).Ok? <==>
            exists i :: 0 <= i < |choices| && Matches(choices, native, saved, i)
                        && forall j :: 0 <= j < |choices| && j != i ==> !Matches(choices, native, saved, j)
    ensures forall i :: 0 <= i < |choices| && SavedChoice(choices, native, saved).Ok? ==>
                          (Matches(choices, native, saved, i) <==>
                           Position(choices, SavedChoice(choices, native, saved).value) == Some(i))
  {
    hide Position, NextMatch, Ids;
    var first := NextMatch(choices, native, saved, 0);
    if first.Some? {
      AnswerSelectsItsChoice(choices, first.value);
    }
  }
}
