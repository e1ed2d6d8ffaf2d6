/**
 What each call of the metadata store (`crates/client/src/profiles.rs`) comes to: exactly
 when it is answered Ok, and what is stored then, read off the contents of the store.
 */
module ProfileEffects {
  import opened Common
  import opened ProfileStore
  import opened ProfileStoreRuns

  /** The stored profiles and pins, and the revisions of their documents; absent documents are empty. */
  function Stored(s: Store): seq<Profile> {
    if s.profiles.Decoded? then s.profiles.document.items else []
  }

  function Revision(s: Store): nat {
    if s.profiles.Decoded? then s.profiles.document.revision else 0
  }

  function StoredPins(s: Store): seq<Pin> {
    if s.pins.Decoded? then s.pins.document.items else []
  }

  function PinsRevision(s: Store): nat {
    if s.pins.Decoded? then s.pins.document.revision else 0
  }

  predicate Fresh(s: Store, id: nat, name: string) {
    forall q :: q in Stored(s) ==> q.id != id && q.name != name
  }

  /** The next document can be written, and its write succeeds. */
  predicate Writes(revision: nat, write: FileWrite) {
    revision < U64_MAX && write.FileWritten?
  }

  /** Only the profile document changes, to these profiles at its next revision. */
  predicate NowStored(s: Store, s': Store, items: seq<Profile>) {
    s'.profiles == Decoded(Document(Revision(s) + 1, items)) && s'.pins == s.pins
  }

  /** Why a document that could be written was not. */
  function WriteError(revision: nat, write: FileWrite): ErrorCode
    requires !Writes(revision, write)
  {
    if revision >= U64_MAX then Conflict else write.code
  }

  lemma ReadableStore(wellFormed: Check, normalize: Normalize, s: Store)
    requires Readable(wellFormed, normalize, s)
    ensures Profiles(wellFormed, s.profiles) == Ok(Document(Revision(s), Stored(s)))
    ensures Pins(normalize, s.pins) == Ok(Document(PinsRevision(s), StoredPins(s)))
    ensures Checked(wellFormed, Stored(s)).Ok? && AllValid(wellFormed, Stored(s)) && Distinct(Stored(s))
    ensures GoodPins(normalize, StoredPins(s))
  {
    CheckedMeaning(wellFormed, Stored(s));
  }

  // ---------------------------------------------------------------- create and duplicate

  lemma AppendChecked(wellFormed: Check, items: seq<Profile>, p: Profile)
    requires Checked(wellFormed, items).Ok?
    ensures Checked(wellFormed, items + [p]).Ok? <==>
            Valid(wellFormed, p) && forall q :: q in items ==> q.id != p.id && q.name != p.name
    ensures Checked(wellFormed, items + [p]).Err? ==>
              Checked(wellFormed, items + [p]).code == if Valid(wellFormed, p) then Conflict else InvalidInput
  {
    assert (items + [p])[..|items|] == items;
    assert forall i :: 0 <= i < |items| ==> items[i] in items;
  }

  /** A profile is created exactly when it is valid, its id and name are free, and the document can be written. */
  lemma CreatesExactlyWhen(wellFormed: Check, normalize: Normalize, s: Store, p: Profile, write: FileWrite)
    requires Readable(wellFormed, normalize, s)
    ensures var (s', r) := Performed(wellFormed, normalize, s, Create(p), write);
            && (r.Ok? <==>
                p.id != 0 && wellFormed(p.name, p.rest) && Fresh(s, p.id, p.name) && Writes(Revision(s), write))
            && (r.Ok? ==>
                  var stored := Profile(p.id, 1, p.name, p.rest);
                  NowStored(s, s', Stored(s) + [stored]) && s'.credentials == s.credentials && r.value == [stored])
            && (r.Err? ==>
                  r.code == if p.id == 0 || !wellFormed(p.name, p.rest) then InvalidInput
                  else if !Fresh(s, p.id, p.name) then Conflict
                  else WriteError(Revision(s), write))
  {
    hide Checked, GoodPins, Distinct, AllValid;
    ReadableStore(wellFormed, normalize, s);
    AppendChecked(wellFormed, Stored(s), p.(revision := 1));
  }

  /** A copy is made exactly when the selector names a profile and the drawn id and the name are good and free. */
  lemma DuplicatesExactlyWhen(wellFormed: Check, normalize: Normalize, s: Store, selector: Selector, drawn: nat,
                              name: string, write: FileWrite)
    requires Readable(wellFormed, normalize, s)
    ensures var (s', r) := Performed(wellFormed, normalize, s, Duplicate(selector, drawn, name), write);
            && (r.Ok? <==> exists p :: p in Stored(s) && Names(selector, p)
                                       && drawn != 0 && wellFormed(name, p.rest) && Fresh(s, drawn, name)
                                       && Writes(Revision(s), write))
            && (r.Ok? ==>
                  exists p :: p in Stored(s) && Names(selector, p)
                              && NowStored(s, s', Stored(s) + [Profile(drawn, 1, name, p.rest)])
                              && s'.credentials == s.credentials)
            && ((forall p :: p in Stored(s) ==> !Names(selector, p)) ==> r == Err(NotFound))
            && (forall p :: p in Stored(s) && Names(selector, p) && r.Err? ==>
                              r.code == if drawn == 0 || !wellFormed(name, p.rest) then InvalidInput
                              else if !Fresh(s, drawn, name) then Conflict
                              else WriteError(Revision(s), write))
  {
    hide Checked, GoodPins, AllValid, Select, Distinct;
    ReadableStore(wellFormed, normalize, s);
    SelectMeaning(Stored(s), selector);
    var chosen := Select(Stored(s), selector);
    if chosen.Ok? {
      AppendChecked(wellFormed, Stored(s), Profile(drawn, 1, name, chosen.value.rest));
    }
  }

  predicate Names(selector: Selector, p: Profile) {
    match selector
    case ById(id) => p.id == id
    case ByName(name) => p.name == name
  }

  lemma SelectMeaning(items: seq<Profile>, selector: Selector)
    requires Distinct(items)
    ensures var r := Select(items, selector);
            && (r.Ok? <==> exists p :: p in items && Names(selector, p))
            && (r.Err? ==> r.code == NotFound)
            && forall p :: p in items && Names(selector, p) ==> r == Ok(p)
  {
    if selector.ByName? {
      NamedMeaning(items, selector.name);
    }
    forall p | p in items && Names(selector, p)
      ensures Select(items, selector) == Ok(p)
    {
      var i: nat :| i < |items| && items[i] == p;
      var at := if selector.ById? then Position(items, selector.id) else NamedPosition(items, selector.name);
      assert at.Some? && Names(selector, items[at.value]);
      var k := at.value;
      if k != i {
        NoClash(items, k, i);
      }
    }
  }

  lemma NoClash(items: seq<Profile>, i: nat, j: nat)
    requires Distinct(items) && i < |items| && j < |items| && i != j
    ensures !Clash(items[i], items[j])
  {
    if j < i {
      assert !Clash(items[j], items[i]);
    }
  }

  lemma {:induction false} NamedMeaning(items: seq<Profile>, name: string)
    ensures NamedPosition(items, name).Some? <==> exists p :: p in items && p.name == name
  {
    if items != [] && items[0].name != name {
      NamedMeaning(items[1..], name);
      assert forall p :: p in items <==> p == items[0] || p in items[1..];
    } else if items != [] {
      assert items[0] in items;
    }
  }

  // ---------------------------------------------------------------- update

  lemma ReplaceChecked(wellFormed: Check, items: seq<Profile>, at: nat, next: Profile)
    requires Checked(wellFormed, items).Ok? && at < |items| && next.id == items[at].id
    ensures Checked(wellFormed, items[at := next]).Ok? <==>
            Valid(wellFormed, next) && forall q :: q in items && q.id != next.id ==> q.name != next.name
    ensures Valid(wellFormed, next) && Checked(wellFormed, items[at := next]).Err? ==>
              Checked(wellFormed, items[at := next]).code == Conflict
  {
    hide Checked, Valid;
    var updated := items[at := next];
    CheckedMeaning(wellFormed, items);
    CheckedMeaning(wellFormed, updated);
    CheckedCode(wellFormed, updated);
    if AllValid(wellFormed, updated) && Distinct(updated) {
      assert updated[at] == next;
      forall q | q in items && q.id != next.id
        ensures q.name != next.name
      {
        var i :| 0 <= i < |items| && items[i] == q;
        assert updated[i] == q;
        assert if i < at then !Clash(updated[i], updated[at]) else !Clash(updated[at], updated[i]);
      }
    }
    if Valid(wellFormed, next) && forall q :: q in items && q.id != next.id ==> q.name != next.name {
      forall i, j | 0 <= i < j < |updated|
        ensures !Clash(updated[i], updated[j])
      {
        assert !Clash(items[i], items[j]) && items[i] in items && items[j] in items;
      }
    }
  }

  lemma {:induction false} CheckedCode(wellFormed: Check, items: seq<Profile>)
    ensures AllValid(wellFormed, items) && Checked(wellFormed, items).Err? ==>
              Checked(wellFormed, items).code == Conflict
  {
    if items != [] {
      CheckedCode(wellFormed, items[..|items| - 1]);
    }
  }

  /** A profile is updated exactly over its own revision, when it is valid and its name is free of others. */
  lemma UpdatesExactlyWhen(wellFormed: Check, normalize: Normalize, s: Store, p: Profile, write: FileWrite)
    requires Readable(wellFormed, normalize, s)
    ensures var (s', r) := Performed(wellFormed, normalize, s, Update(p), write);
            && (r.Ok? <==>
                && p.id != 0 && p.revision != 0 && wellFormed(p.name, p.rest) && p.revision < U64_MAX
                && (exists q :: q in Stored(s) && q.id == p.id && q.revision == p.revision)
                && (forall q :: q in Stored(s) && q.id != p.id ==> q.name != p.name)
                && Writes(Revision(s), write))
            && (r.Ok? ==>
                  exists at :: 0 <= at < |Stored(s)| && Stored(s)[at].id == p.id
                               && NowStored(s, s', Stored(s)[at := p.(revision := p.revision + 1)])
                               && s'.credentials == s.credentials)
            && (r.Err? ==>
                  r.code == if p.id == 0 || p.revision == 0 || !wellFormed(p.name, p.rest) then InvalidInput
                  else if forall q :: q in Stored(s) ==> q.id != p.id then NotFound
                  else if (forall q :: q in Stored(s) && q.id == p.id ==> q.revision != p.revision)
                          || p.revision >= U64_MAX
                          || (exists q :: q in Stored(s) && q.id != p.id && q.name == p.name) then Conflict
                  else WriteError(Revision(s), write))
  {
    hide Checked, GoodPins, AllValid, Distinct;
    ReadableStore(wellFormed, normalize, s);
    var at := Position(Stored(s), p.id);
    if at.Some? {
      OnlyOne(Stored(s), at.value);
      ReplaceChecked(wellFormed, Stored(s), at.value, p.(revision := p.revision + 1));
    } else {
      assert forall q :: q in Stored(s) ==> q.id != p.id;
    }
  }

  lemma OnlyOne(items: seq<Profile>, at: nat)
    requires Distinct(items) && at < |items|
    ensures items[at] in items && forall q :: q in items && q.id == items[at].id ==> q == items[at]
  {
    forall q | q in items && q.id == items[at].id
      ensures q == items[at]
    {
      var i: nat :| i < |items| && items[i] == q;
      if i != at {
        NoClash(items, at, i);
      }
    }
  }

  // ---------------------------------------------------------------- remove

  /** The keyring deletes everything. */
  predicate DeletesAll(keyring: Keyring) {
    keyring.Deletions? && forall k :: 0 <= k < 5 && k < |keyring.each| ==> keyring.each[k].Erased?
  }

  /** The lock that could not be had, or the first deletion that failed. */
  predicate FailsWith(keyring: Keyring, code: ErrorCode) {
    match keyring
    case NoLock(reason) => reason == code
    case Deletions(each) =>
      exists k :: 0 <= k < 5 && k < |each| && each[k].NotErased? && each[k].code == code
                  && forall j :: 0 <= j < k ==> each[j].Erased?
  }

  lemma {:induction false} FailsAtFirst(credentials: set<Credential>, id: nat, keyring: Keyring, k: nat)
    requires keyring.Deletions? && k <= |PURPOSES| && DeleteFrom(credentials, id, keyring, k).1.Err?
    requires forall j :: 0 <= j < k && j < |keyring.each| ==> keyring.each[j].Erased?
    ensures FailsWith(keyring, DeleteFrom(credentials, id, keyring, k).1.code)
    decreases |PURPOSES| - k
  {
    if DeletionAt(keyring, k).Erased? {
      FailsAtFirst(credentials - {(id, PURPOSES[k])}, id, keyring, k + 1);
    }
  }

  lemma {:induction false} DeletedAll(credentials: set<Credential>, id: nat, keyring: Keyring, k: nat)
    requires keyring.Deletions? && k <= |PURPOSES|
    ensures var (left, r) := DeleteFrom(credentials, id, keyring, k);
            && (r.Ok? <==> forall j :: k <= j < 5 && j < |keyring.each| ==> keyring.each[j].Erased?)
            && (r.Ok? ==> forall c :: c in left <==> c in credentials && !(c.0 == id && c.1 in PURPOSES[k..]))
    decreases |PURPOSES| - k
  {
    if k < |PURPOSES| {
      DeletedAll(credentials - {(id, PURPOSES[k])}, id, keyring, k + 1);
      assert forall x :: x in PURPOSES[k..] <==> x == PURPOSES[k] || x in PURPOSES[k + 1..];
    }
  }

  lemma AllPurposes()
    ensures forall purpose: Purpose :: purpose in PURPOSES[0..]
  {
    assert PURPOSES[0..] == PURPOSES;
    assert PURPOSES[0] == Password && PURPOSES[1] == KeyPassphrase && PURPOSES[2] == SecondaryKeyPassphrase;
    assert PURPOSES[3] == TokenSeed && PURPOSES[4] == ProxyCredentials;
    forall purpose: Purpose
      ensures purpose in PURPOSES
    {
      match purpose
      case Password =>
      case KeyPassphrase =>
      case SecondaryKeyPassphrase =>
      case TokenSeed =>
      case ProxyCredentials =>
    }
  }

  lemma KeyringMeaning(credentials: set<Credential>, id: nat, keyring: Keyring)
    ensures var (left, r) := DeleteProfile(credentials, id, keyring);
            && (r.Ok? <==> DeletesAll(keyring))
            && (r.Ok? ==> forall c :: c in left <==> c in credentials && c.0 != id)
            && (r.Err? ==> FailsWith(keyring, r.code))
  {
    if keyring.Deletions? {
      if DeleteFrom(credentials, id, keyring, 0).1.Err? {
        FailsAtFirst(credentials, id, keyring, 0);
      }
      DeletedAll(credentials, id, keyring, 0);
      AllPurposes();
    }
  }

  /**
   A profile is removed exactly when it is not protected, stands at the expected revision, and
   its credentials and the document can be written; then it is gone with all its credentials, and
   no other profile or credential is.
   */
  lemma RemovesExactlyWhen(wellFormed: Check, normalize: Normalize, s: Store, id: nat, expected: nat,
                           protect: set<nat>, keyring: Keyring, write: FileWrite)
    requires Readable(wellFormed, normalize, s)
    ensures var (s', r) := Performed(wellFormed, normalize, s, Remove(id, expected, protect, keyring), write);
            && (r.Ok? <==>
                && id !in protect
                && (exists q :: q in Stored(s) && q.id == id && q.revision == expected)
                && DeletesAll(keyring) && Writes(Revision(s), write))
            && (r.Err? ==>
                  if id in protect then r.code == Busy
                  else if forall q :: q in Stored(s) ==> q.id != id then r.code == NotFound
                  else if forall q :: q in Stored(s) && q.id == id ==> q.revision != expected then r.code == Conflict
                  else if Revision(s) >= U64_MAX then r.code == Conflict
                  else if !DeletesAll(keyring) then FailsWith(keyring, r.code)
                  else r.code == write.code)
            && (r.Ok? ==>
                  && (exists at :: 0 <= at < |Stored(s)| && Stored(s)[at].id == id
                                   && NowStored(s, s', Stored(s)[..at] + Stored(s)[at + 1..]))
                  && forall c :: c in s'.credentials <==> c in s.credentials && c.0 != id)
  {
    hide Checked, GoodPins, AllValid, Distinct, DeleteProfile, DeletesAll;
    ReadableStore(wellFormed, normalize, s);
    KeyringMeaning(s.credentials, id, keyring);
    hide FailsWith;
    var at := Position(Stored(s), id);
    if at.Some? {
      OnlyOne(Stored(s), at.value);
      var q := Stored(s)[at.value];
      assert (exists p :: p in Stored(s) && p.id == id && p.revision == expected) <==> q.revision == expected;
      var (left, deleted) := DeleteProfile(s.credentials, id, keyring);
      assert deleted.Ok? <==> DeletesAll(keyring);
    } else {
      assert forall q :: q in Stored(s) ==> q.id != id;
    }
  }

  // ---------------------------------------------------------------- import

  /** An import of the current schema whose fields fit. */
  predicate Carries(bytes: Bytes, profiles: seq<Profile>) {
    && bytes.Object? && bytes.schema == Some(Whole(1)) && bytes.body == Some(profiles)
    && (bytes.revision.None? || (bytes.revision.value.Whole? && bytes.revision.value.n != 0))
  }

  lemma DecodeMeaning(bytes: Bytes, profiles: seq<Profile>)
    ensures Decode(bytes) == Ok(profiles) <==> Carries(bytes, profiles)
    ensures Decode(bytes).Err? ==>
              Decode(bytes).code == if bytes.Object? && bytes.schema.Some? && bytes.schema.value.Whole?
                                       && bytes.schema.value.n > 1 then NewerSchema else CorruptStorage
    ensures bytes.Object? && bytes.schema.Some? && bytes.schema.value.Whole? && bytes.schema.value.n > 1 ==>
              Decode(bytes) == Err(NewerSchema)
  {
  }

  /** Profiles as an import stores them. */
  predicate AtFirstRevision(stored: seq<Profile>, given: seq<Profile>) {
    |stored| == |given|
    && forall i :: 0 <= i < |given| ==> stored[i] == Profile(given[i].id, 1, given[i].name, given[i].rest)
  }

  predicate GivenValid(wellFormed: Check, given: seq<Profile>) {
    forall i :: 0 <= i < |given| ==> given[i].id != 0 && wellFormed(given[i].name, given[i].rest)
  }

  /** No id or name of the given profiles stands twice among them, or is stored already. */
  predicate GivenFree(s: Store, given: seq<Profile>) {
    && (forall i, j :: 0 <= i < j < |given| ==> given[i].id != given[j].id && given[i].name != given[j].name)
    && (forall i :: 0 <= i < |given| ==> Fresh(s, given[i].id, given[i].name))
  }

  /** Profiles are imported, all of them, exactly when each is valid and no id or name stands twice. */
  lemma ImportsExactlyWhen(wellFormed: Check, normalize: Normalize, s: Store, bytes: Bytes, given: seq<Profile>,
                           write: FileWrite)
    requires Readable(wellFormed, normalize, s) && Carries(bytes, given)
    ensures var (s', r) := Performed(wellFormed, normalize, s, Import(bytes), write);
            && (r.Ok? <==> GivenValid(wellFormed, given) && GivenFree(s, given) && Writes(Revision(s), write))
            && (r.Err? ==>
                  r.code == if !GivenValid(wellFormed, given) then InvalidInput
                  else if !GivenFree(s, given) then Conflict
                  else WriteError(Revision(s), write))
            && (r.Ok? ==>
                  exists stored :: AtFirstRevision(stored, given) && NowStored(s, s', Stored(s) + stored)
                                   && s'.credentials == s.credentials)
  {
    hide Checked, GoodPins, AllValid, Distinct, GivenValid, GivenFree;
    ReadableStore(wellFormed, normalize, s);
    DecodeMeaning(bytes, given);
    var stored := FirstRevision(given);
    assert AtFirstRevision(stored, given);
    ImportedValid(wellFormed, given);
    ImportedDistinct(s, given);
  }

  lemma ImportedValid(wellFormed: Check, given: seq<Profile>)
    ensures AllValid(wellFormed, FirstRevision(given)) <==> GivenValid(wellFormed, given)
  {
    var stored := FirstRevision(given);
    assert forall i :: 0 <= i < |given| ==>
                         (Valid(wellFormed, stored[i]) <==>
                          given[i].id != 0 && wellFormed(given[i].name, given[i].rest));
    if AllValid(wellFormed, stored) {
      forall i | 0 <= i < |given|
        ensures given[i].id != 0 && wellFormed(given[i].name, given[i].rest)
      {
        assert Valid(wellFormed, stored[i]);
      }
    }
  }

  lemma ImportedDistinct(s: Store, given: seq<Profile>)
    requires Distinct(Stored(s))
    ensures Distinct(Stored(s) + FirstRevision(given)) <==> GivenFree(s, given)
  {
    var items := Stored(s);
    DistinctSplits(items, FirstRevision(given));
    if Distinct(items + FirstRevision(given)) {
      forall i | 0 <= i < |given|
        ensures Fresh(s, given[i].id, given[i].name)
      {
        forall q | q in items
          ensures q.id != given[i].id && q.name != given[i].name
        {
          var k :| 0 <= k < |items| && items[k] == q;
          assert !Clash(items[k], FirstRevision(given)[i]);
        }
      }
    }
  }

  lemma DistinctSplits(items: seq<Profile>, more: seq<Profile>)
    ensures Distinct(items + more) <==>
            && Distinct(items)
            && (forall i, j :: 0 <= i < j < |more| ==> !Clash(more[i], more[j]))
            && (forall i, j :: 0 <= i < |items| && 0 <= j < |more| ==> !Clash(items[i], more[j]))
  {
    hide Clash;
    var (all, n) := (items + more, |items|);
    assert forall i :: 0 <= i < n ==> all[i] == items[i];
    assert forall i :: 0 <= i < |more| ==> all[n + i] == more[i];
    if Distinct(all) {
      forall i, j | 0 <= i < j < |more|
        ensures !Clash(more[i], more[j])
      {
        assert !Clash(all[n + i], all[n + j]);
      }
      forall i, j | 0 <= i < n && 0 <= j < |more|
        ensures !Clash(items[i], more[j])
      {
        assert !Clash(all[i], all[n + j]);
      }
    }
  }

  // ---------------------------------------------------------------- pins

  /** A pin is saved exactly when it is one, at the expected revision; it stands alone for its place then. */
  lemma SavesPinExactlyWhen(wellFormed: Check, normalize: Normalize, s: Store, pin: Pin, expected: nat,
                            write: FileWrite)
    requires Readable(wellFormed, normalize, s)
    ensures var (s', r) := Performed(wellFormed, normalize, s, SavePin(pin, expected), write);
            && (r.Ok? <==> normalize(pin).Some? && PinsRevision(s) == expected && Writes(PinsRevision(s), write))
            && (r.Err? ==>
                  r.code == if normalize(pin).None? then InvalidInput
                  else if PinsRevision(s) != expected then Conflict
                  else WriteError(PinsRevision(s), write))
            && (r.Ok? ==>
                  && s'.profiles == s.profiles && s'.credentials == s.credentials
                  && s'.pins.Decoded? && PinsRevision(s') == PinsRevision(s) + 1
                  && forall q :: q in StoredPins(s') <==>
                                 q == normalize(pin).value
                                 || (q in StoredPins(s) && Elsewhere(q, normalize(pin).value)))
  {
    hide Checked, AllValid, Distinct;
    ReadableStore(wellFormed, normalize, s);
    if normalize(pin).Some? {
      PinReplaced(normalize, StoredPins(s), normalize(pin).value);
    }
    hide GoodPins, WithPin;
  }

  predicate Elsewhere(p: Pin, q: Pin) {
    (p.host, p.port) != (q.host, q.port)
  }

  lemma PinReplaced(normalize: Normalize, pins: seq<Pin>, pin: Pin)
    requires GoodPins(normalize, pins)
    ensures forall q :: q in WithPin(pins, pin) <==> q == pin || (q in pins && !SamePlace(q, pin))
  {
    var after := WithPin(pins, pin);
    var place := PlaceOf(pins, pin);
    if place.Some? {
      var at := place.value;
      assert after[at] == pin;
      forall i | 0 <= i < |pins| && i != at
        ensures after[i] == pins[i] && !SamePlace(pins[i], pin)
      {
        assert if i < at then !SamePlace(pins[i], pins[at]) else !SamePlace(pins[at], pins[i]);
      }
    } else {
      assert after[|pins|] == pin;
      assert forall i :: 0 <= i < |pins| ==> after[i] == pins[i];
    }
  }

  // ---------------------------------------------------------------- a store that cannot be read

  /** Why the profile document cannot be used: it cannot be read, or what it holds is not what a store writes. */
  function Unusable(s: Store): ErrorCode
    requires s.profiles.Decoded? || s.profiles.Unreadable?
  {
    if s.profiles.Unreadable? then s.profiles.code else CorruptStorage
  }

  /** Nothing is stored over a profile document that cannot be read, or that holds invalid or clashing profiles. */
  lemma UnusableStoreStays(wellFormed: Check, normalize: Normalize, s: Store, call: Call, write: FileWrite)
    requires s.profiles.Unreadable?
             || (s.profiles.Decoded? && !(AllValid(wellFormed, Stored(s)) && Distinct(Stored(s))))
    requires !call.SavePin?
    ensures var (s', r) := Performed(wellFormed, normalize, s, call, write);
            && s' == s && r.Err?
            && (call.Create? || call.Update? || call.Duplicate? || (call.Remove? && call.id !in call.protect) ==>
                  r == Err(Unusable(s)))
  {
    hide Checked, AllValid, Distinct;
    if s.profiles.Decoded? {
      CheckedMeaning(wellFormed, Stored(s));
    }
  }

  /** Likewise for pins. */
  lemma UnusablePinsStay(wellFormed: Check, normalize: Normalize, s: Store, pin: Pin, expected: nat, write: FileWrite)
    requires s.pins.Unreadable? || (s.pins.Decoded? && !GoodPins(normalize, StoredPins(s)))
    ensures Performed(wellFormed, normalize, s, SavePin(pin, expected), write)
         == (s, Err(if normalize(pin).None? then InvalidInput
             else if s.pins.Unreadable? then s.pins.code
             else CorruptStorage))
  {
    hide GoodPins;
  }
}
