/** Runs of calls on one metadata store, by any number of interfaces under its lock. */
module ProfileStoreRuns {
  import opened Common
  import opened ProfileStore

  datatype Act = Act(call: Call, write: FileWrite)

  function After(wellFormed: Check, normalize: Normalize, s: Store, acts: seq<Act>): Store {
    if acts == [] then s
    else
      var last := acts[|acts| - 1];
      Performed(wellFormed, normalize, After(wellFormed, normalize, s, acts[..|acts| - 1]), last.call, last.write).0
  }

  function Answer(wellFormed: Check, normalize: Normalize, s: Store, acts: seq<Act>, k: nat): Result<seq<Profile>>
    requires k < |acts|
  {
    Performed(wellFormed, normalize, After(wellFormed, normalize, s, acts[..k]), acts[k].call, acts[k].write).1
  }

  /**
   Both files can be read: what is stored is valid, ids and names are unique, one pin stands for
   each host and port.
   */
  predicate Readable(wellFormed: Check, normalize: Normalize, s: Store) {
    && Profiles(wellFormed, s.profiles).Ok?
    && Pins(normalize, s.pins).Ok?
  }

  lemma ReadableMeaning(wellFormed: Check, normalize: Normalize, s: Store)
    requires Readable(wellFormed, normalize, s)
    ensures s.profiles.Decoded? ==>
              AllValid(wellFormed, s.profiles.document.items) && Distinct(s.profiles.document.items)
    ensures s.pins.Decoded? ==> GoodPins(normalize, s.pins.document.items)
  {
    if s.profiles.Decoded? {
      CheckedMeaning(wellFormed, s.profiles.document.items);
    }
  }

  predicate NormalizesOnce(normalize: Normalize, call: Call) {
    call.SavePin? && normalize(call.pin).Some? ==> normalize(normalize(call.pin).value) == normalize(call.pin)
  }

  lemma RemovalKeepsChecked(wellFormed: Check, items: seq<Profile>, at: nat)
    requires at < |items| && Checked(wellFormed, items).Ok?
    ensures Checked(wellFormed, items[..at] + items[at + 1..]).Ok?
  {
    hide Checked, Clash, Valid;
    CheckedMeaning(wellFormed, items);
    var rest := items[..at] + items[at + 1..];
    CheckedMeaning(wellFormed, rest);
    assert forall i :: 0 <= i < |rest| ==> rest[i] == items[if i < at then i else i + 1];
  }

  lemma ImportKeepsChecked(wellFormed: Check, items: seq<Profile>, incoming: seq<Profile>)
    requires Checked(wellFormed, items).Ok? && AllValid(wellFormed, incoming) && Distinct(items + incoming)
    ensures Checked(wellFormed, items + incoming).Ok?
  {
    CheckedMeaning(wellFormed, items);
    CheckedMeaning(wellFormed, items + incoming);
  }

  lemma PinKeepsGood(normalize: Normalize, pins: seq<Pin>, pin: Pin)
    requires GoodPins(normalize, pins) && normalize(pin) == Some(pin)
    ensures GoodPins(normalize, WithPin(pins, pin))
  {
  }

  /** No call, and no failing write, leaves a store that cannot be read again. */
  lemma CallKeepsReadable(wellFormed: Check, normalize: Normalize, s: Store, call: Call, write: FileWrite)
    requires Readable(wellFormed, normalize, s) && NormalizesOnce(normalize, call)
    ensures Readable(wellFormed, normalize, Performed(wellFormed, normalize, s, call, write).0)
  {
    hide Checked, Distinct, GoodPins, AllValid;
    var items := Profiles(wellFormed, s.profiles).value.items;
    assert Checked(wellFormed, items).Ok? by { EmptyChecked(wellFormed); }
    match call
    case Remove(id, expected, protect, keyring) =>
      var at := Position(items, id);
      if at.Some? {
        RemovalKeepsChecked(wellFormed, items, at.value);
      }
    case Import(bytes) =>
      var decoded := Decode(bytes);
      if decoded.Ok? && AllValid(wellFormed, FirstRevision(decoded.value))
         && Distinct(items + FirstRevision(decoded.value)) {
        ImportKeepsChecked(wellFormed, items, FirstRevision(decoded.value));
      }
    case SavePin(pin, expected) =>
      var pins := Pins(normalize, s.pins).value.items;
      assert GoodPins(normalize, pins) by { EmptyGood(normalize); }
      if normalize(pin).Some? {
        PinKeepsGood(normalize, pins, normalize(pin).value);
      }
    case _ =>
  }

  lemma EmptyChecked(wellFormed: Check)
    ensures Checked(wellFormed, []).Ok?
  {
  }

  lemma EmptyGood(normalize: Normalize)
    ensures GoodPins(normalize, [])
  {
  }

  lemma {:induction false} StoreStaysReadable(wellFormed: Check, normalize: Normalize, s: Store, acts: seq<Act>)
    requires Readable(wellFormed, normalize, s)
    requires forall k :: 0 <= k < |acts| ==> NormalizesOnce(normalize, acts[k].call)
    ensures Readable(wellFormed, normalize, After(wellFormed, normalize, s, acts))
  {
    hide Performed, Readable;
    if acts != [] {
      var init := acts[..|acts| - 1];
      StoreStaysReadable(wellFormed, normalize, s, init);
      CallKeepsReadable(wellFormed, normalize, After(wellFormed, normalize, s, init), acts[|acts| - 1].call,
                        acts[|acts| - 1].write);
    }
  }

  /** Deleting a profile's credentials reaches the k-th purpose and erases it there. */
  predicate ErasedAt(keyring: Keyring, k: nat) {
    && keyring.Deletions? && k < |PURPOSES|
    && (forall j :: 0 <= j < k ==> DeletionAt(keyring, j).Erased?)
    && (DeletionAt(keyring, k).Erased? || DeletionAt(keyring, k).effect)
  }

  predicate ErasesPurpose(keyring: Keyring, purpose: Purpose) {
    exists k :: 0 <= k < |PURPOSES| && PURPOSES[k] == purpose && ErasedAt(keyring, k)
  }

  lemma {:induction false} DeletedFrom(credentials: set<Credential>, id: nat, keyring: Keyring, k: nat)
    requires keyring.Deletions? && k <= |PURPOSES| && forall j :: 0 <= j < k ==> DeletionAt(keyring, j).Erased?
    ensures var left := DeleteFrom(credentials, id, keyring, k).0;
            && left <= credentials
            && forall c :: c in credentials ==>
                             (c !in left <==>
                              c.0 == id
                              && exists j :: k <= j < |PURPOSES| && PURPOSES[j] == c.1 && ErasedAt(keyring, j))
    decreases |PURPOSES| - k
  {
    if k < |PURPOSES| && DeletionAt(keyring, k).Erased? {
      var without := credentials - {(id, PURPOSES[k])};
      DeletedFrom(without, id, keyring, k + 1);
      assert ErasedAt(keyring, k);
    }
  }

  /**
   Exactly which credentials a call loses, refused or not: those of a profile whose removal
   passes every check, as far as their deletion came.
   */
  lemma CredentialsLost(wellFormed: Check, normalize: Normalize, s: Store, call: Call, write: FileWrite)
    ensures var s' := Performed(wellFormed, normalize, s, call, write).0;
            && s'.credentials <= s.credentials
            && forall c :: c in s.credentials ==>
                             (c !in s'.credentials <==>
                              && call.Remove? && c.0 == call.id
                              && RemovalPasses(wellFormed, s, call.id, call.expected, call.protect)
                              && ErasesPurpose(call.keyring, c.1))
  {
    hide Checked, Distinct, GoodPins, AllValid, FirstRevision, WithPin, Position, ErasedAt, DeleteFrom;
    if call.Remove? && call.keyring.Deletions? {
      DeletedFrom(s.credentials, call.id, call.keyring, 0);
    } else if call.Remove? {
      NoLockErasesNothing(call.keyring);
    }
  }

  lemma NoLockErasesNothing(keyring: Keyring)
    requires keyring.NoLock?
    ensures forall purpose :: !ErasesPurpose(keyring, purpose)
  {
  }

  /**
   A call that is refused changes no document, unless a failing write took effect; and it
   loses a credential exactly when it is a removal that passed every check and whose
   deletions erased one before they, or the write after them, failed.
   */
  lemma RefusalChangesNothing(wellFormed: Check, normalize: Normalize, s: Store, call: Call, write: FileWrite)
    requires Performed(wellFormed, normalize, s, call, write).1.Err?
    ensures var s' := Performed(wellFormed, normalize, s, call, write).0;
            && ((write.FileFails? && write.effect) || (s'.profiles == s.profiles && s'.pins == s.pins))
            && (s'.credentials != s.credentials <==>
                && call.Remove? && RemovalPasses(wellFormed, s, call.id, call.expected, call.protect)
                && exists purpose :: (call.id, purpose) in s.credentials && ErasesPurpose(call.keyring, purpose))
  {
    CredentialsLost(wellFormed, normalize, s, call, write);
    RefusalKeepsDocuments(wellFormed, normalize, s, call, write);
    hide Performed, RemovalPasses, ErasesPurpose;
    var s' := Performed(wellFormed, normalize, s, call, write).0;
    if s'.credentials != s.credentials {
      var c :| c in s.credentials && c !in s'.credentials;
      assert (call.id, c.1) == c;
    }
  }

  lemma RefusalKeepsDocuments(wellFormed: Check, normalize: Normalize, s: Store, call: Call, write: FileWrite)
    requires Performed(wellFormed, normalize, s, call, write).1.Err?
    ensures var s' := Performed(wellFormed, normalize, s, call, write).0;
            (write.FileFails? && write.effect) || (s'.profiles == s.profiles && s'.pins == s.pins)
  {
    hide Checked, Distinct, GoodPins, AllValid, FirstRevision, WithPin, DeleteProfile, Position;
  }

  /**
   Such a removal: the keyring locks after the first deletion, the password is gone, the profile
   and its seed stay.
   */
  lemma RefusedRemovalLosesPassword(wellFormed: Check, normalize: Normalize, p: Profile, write: FileWrite)
    requires Valid(wellFormed, p)
    ensures var s := Store(Decoded(Document(1, [p])), Missing, {(p.id, Password), (p.id, TokenSeed)});
            var keyring := Deletions([Erased, NotErased(KeyringUnavailable, false)]);
            Performed(wellFormed, normalize, s, Remove(p.id, p.revision, {}, keyring), write)
            == (s.(credentials := {(p.id, TokenSeed)}), Err(KeyringUnavailable))
  {
    var s := Store(Decoded(Document(1, [p])), Missing, {(p.id, Password), (p.id, TokenSeed)});
    assert Checked(wellFormed, [p]).Ok? by {
      CheckedMeaning(wellFormed, [p]);
    }
    assert s.credentials - {(p.id, Password)} == {(p.id, TokenSeed)};
  }

  // ---------------------------------------------------------------- optimistic revisions

  /** The stored profile of an id. */
  function Lookup(s: Store, id: nat): Option<Profile> {
    if !s.profiles.Decoded? then None
    else
      match Position(s.profiles.document.items, id)
      case None => None
      case Some(at) => Some(s.profiles.document.items[at])
  }

  lemma {:induction false} PositionIs(items: seq<Profile>, at: nat)
    requires at < |items| && forall k :: 0 <= k < at ==> items[k].id != items[at].id
    ensures Position(items, items[at].id) == Some(at)
  {
    if at > 0 {
      PositionIs(items[1..], at - 1);
    }
  }

  lemma UpdateLookup(items: seq<Profile>, at: nat, next: Profile, id: nat)
    requires at < |items| && Distinct(items) && next.id == items[at].id
    ensures var was, now := Position(items, id), Position(items[at := next], id);
            now == was && (now.Some? ==>
                             items[at := next][now.value] == if id == next.id then next else items[now.value])
  {
    var updated := items[at := next];
    var was := Position(items, id);
    assert forall k :: 0 <= k < |items| ==> updated[k].id == items[k].id;
    if was.Some? {
      PositionIs(updated, was.value);
    }
  }

  lemma AppendLookup(items: seq<Profile>, more: seq<Profile>, id: nat)
    requires Position(items, id).Some?
    ensures Position(items + more, id) == Position(items, id)
  {
    var at := Position(items, id).value;
    assert (items + more)[at] == items[at];
    PositionIs(items + more, at);
  }

  lemma RemoveLookup(items: seq<Profile>, at: nat, id: nat)
    requires at < |items| && Distinct(items) && id != items[at].id && Position(items, id).Some?
    ensures var rest := items[..at] + items[at + 1..];
            Position(rest, id).Some? && rest[Position(rest, id).value] == items[Position(items, id).value]
  {
    var rest := items[..at] + items[at + 1..];
    var was := Position(items, id).value;
    var now := if was < at then was else was - 1;
    assert rest[now] == items[was];
    forall k | 0 <= k < now
      ensures rest[k].id != id
    {
      assert rest[k] == items[if k < at then k else k + 1];
    }
    PositionIs(rest, now);
  }

  lemma RemovedGone(items: seq<Profile>, at: nat)
    requires at < |items| && Distinct(items)
    ensures Position(items[..at] + items[at + 1..], items[at].id).None?
  {
    var rest := items[..at] + items[at + 1..];
    forall k | 0 <= k < |rest|
      ensures rest[k].id != items[at].id
    {
      var j := if k < at then k else k + 1;
      assert rest[k] == items[j];
      assert if j < at then !Clash(items[j], items[at]) else !Clash(items[at], items[j]);
    }
  }

  /**
   One call moves the revision of a stored profile only upwards: an update that is
   answered Ok or takes effect by exactly one, any other call not at all, and only a
   removal of that very id makes the profile disappear.
   */
  lemma RevisionStep(wellFormed: Check, normalize: Normalize, s: Store, call: Call, write: FileWrite, id: nat)
    requires Readable(wellFormed, normalize, s) && Lookup(s, id).Some?
    ensures var (s', r) := Performed(wellFormed, normalize, s, call, write);
            match Lookup(s', id)
            case None => call.Remove? && call.id == id && s'.profiles != s.profiles
            case Some(p) =>
              && (s'.profiles == s.profiles || !(call.Update? && call.profile.id == id) ==> p == Lookup(s, id).value)
              && (s'.profiles != s.profiles && call.Update? && call.profile.id == id ==>
                    p == call.profile.(revision := call.profile.revision + 1)
                    && Lookup(s, id).value.revision == call.profile.revision)
  {
    hide Checked, GoodPins, AllValid, WithPin, Position, Distinct;
    ReadableMeaning(wellFormed, normalize, s);
    var items := s.profiles.document.items;
    match call
    case Create(p) =>
      AppendLookup(items, [p.(revision := 1)], id);
    case Update(p) =>
      var at := Position(items, p.id);
      if at.Some? {
        UpdateLookup(items, at.value, p.(revision := p.revision + 1), id);
      }
    case Duplicate(selector, drawn, name) =>
      var chosen := Select(items, selector);
      if chosen.Ok? {
        AppendLookup(items, [Profile(drawn, 1, name, chosen.value.rest)], id);
      }
    case Remove(target, expected, protect, keyring) =>
      var at := Position(items, target);
      if at.Some? {
        if target != id {
          RemoveLookup(items, at.value, id);
        } else {
          RemovedGone(items, at.value);
        }
      }
    case Import(bytes) =>
      if Decode(bytes).Ok? {
        AppendLookup(items, FirstRevision(Decode(bytes).value), id);
      }
    case SavePin(_, _) =>
  }

  /** An update is answered Ok only over exactly the revision it carries, and it takes effect. */
  lemma UpdateNeedsItsRevision(wellFormed: Check, normalize: Normalize, s: Store, p: Profile, write: FileWrite)
    requires Readable(wellFormed, normalize, s)
    requires Performed(wellFormed, normalize, s, Update(p), write).1.Ok?
    ensures Lookup(s, p.id).Some? && Lookup(s, p.id).value.revision == p.revision
    ensures Performed(wellFormed, normalize, s, Update(p), write).0.profiles != s.profiles
  {
    hide Checked, GoodPins;
    assert Position([], p.id).None?;
  }

  /** The id stays in the store through the calls from `i` to `j`. */
  predicate Kept(wellFormed: Check, normalize: Normalize, s: Store, acts: seq<Act>, id: nat, i: nat, j: nat)
    requires i <= j <= |acts|
  {
    forall k :: i <= k <= j ==> Lookup(After(wellFormed, normalize, s, acts[..k]), id).Some?
  }

  lemma {:induction false} RevisionGrows(wellFormed: Check, normalize: Normalize, s: Store, acts: seq<Act>,
                                         id: nat, i: nat, j: nat)
    requires i <= j <= |acts| && Readable(wellFormed, normalize, s)
    requires forall k :: 0 <= k < |acts| ==> NormalizesOnce(normalize, acts[k].call)
    requires Kept(wellFormed, normalize, s, acts, id, i, j)
    ensures Lookup(After(wellFormed, normalize, s, acts[..i]), id).value.revision
         <= Lookup(After(wellFormed, normalize, s, acts[..j]), id).value.revision
    decreases j
  {
    hide Performed, Readable, Lookup, NormalizesOnce;
    if i < j {
      RevisionGrows(wellFormed, normalize, s, acts, id, i, j - 1);
      assert acts[..j][..j - 1] == acts[..j - 1];
      StoreStaysReadable(wellFormed, normalize, s, acts[..j - 1]);
      RevisionStep(wellFormed, normalize, After(wellFormed, normalize, s, acts[..j - 1]), acts[j - 1].call,
                   acts[j - 1].write, id);
    }
  }

  /**
   Of two updates carrying the same revision of one profile at most one is answered Ok,
   as long as the profile is not removed in between.
   */
  lemma UpdatesExcludeEachOther(wellFormed: Check, normalize: Normalize, s: Store, acts: seq<Act>, i: nat, j: nat)
    requires i < j < |acts| && Readable(wellFormed, normalize, s)
    requires forall k :: 0 <= k < |acts| ==> NormalizesOnce(normalize, acts[k].call)
    requires acts[i].call.Update? && acts[j].call.Update?
    requires acts[i].call.profile.id == acts[j].call.profile.id
    requires acts[i].call.profile.revision == acts[j].call.profile.revision
    requires Kept(wellFormed, normalize, s, acts, acts[i].call.profile.id, i, j)
    ensures Answer(wellFormed, normalize, s, acts, i).Err? || Answer(wellFormed, normalize, s, acts, j).Err?
  {
    hide Performed, Readable, Lookup, NormalizesOnce;
    if Answer(wellFormed, normalize, s, acts, i).Ok? {
      var p := acts[i].call.profile;
      var before := After(wellFormed, normalize, s, acts[..i]);
      StoreStaysReadable(wellFormed, normalize, s, acts[..i]);
      StoreStaysReadable(wellFormed, normalize, s, acts[..j]);
      UpdateNeedsItsRevision(wellFormed, normalize, before, p, acts[i].write);
      RevisionStep(wellFormed, normalize, before, acts[i].call, acts[i].write, p.id);
      assert acts[..i + 1][..i] == acts[..i];
      RevisionGrows(wellFormed, normalize, s, acts, p.id, i + 1, j);
      if Answer(wellFormed, normalize, s, acts, j).Ok? {
        UpdateNeedsItsRevision(wellFormed, normalize, After(wellFormed, normalize, s, acts[..j]),
                               acts[j].call.profile, acts[j].write);
      }
    }
  }

  // ---------------------------------------------------------------- export and import

  lemma FirstRevisionValid(wellFormed: Check, profiles: seq<Profile>)
    requires AllValid(wellFormed, profiles)
    ensures AllValid(wellFormed, FirstRevision(profiles))
  {
  }

  lemma FirstRevisionDistinct(existing: seq<Profile>, profiles: seq<Profile>)
    ensures Distinct(existing + FirstRevision(profiles)) <==> Distinct(existing + profiles)
  {
    var (a, b) := (existing + FirstRevision(profiles), existing + profiles);
    assert forall i :: 0 <= i < |a| ==> a[i].id == b[i].id && a[i].name == b[i].name;
    assert forall i, j :: 0 <= i < j < |a| ==> (Clash(a[i], a[j]) <==> Clash(b[i], b[j]));
  }

  /**
   Importing an export adds the exported profiles at revision 1, all of them, exactly when
   no id or name is taken; otherwise it adds none.
   */
  lemma ImportRestoresExport(wellFormed: Check, normalize: Normalize, from: Store, to: Store, write: FileWrite)
    requires Readable(wellFormed, normalize, from) && Readable(wellFormed, normalize, to) && write.FileWritten?
    requires Profiles(wellFormed, to.profiles).value.revision < U64_MAX
    ensures var exported := Export(wellFormed, from, None);
            var given := Profiles(wellFormed, from.profiles).value.items;
            var document := Profiles(wellFormed, to.profiles).value;
            && exported.Ok?
            && var (after, r) := Performed(wellFormed, normalize, to, Import(exported.value), write);
            if Distinct(document.items + given)
            then r == Ok(FirstRevision(given))
                 && after == to.(profiles :=
                             Decoded(Document(document.revision + 1, document.items + FirstRevision(given))))
            else r == Err(Conflict) && after == to
  {
    hide Distinct, AllValid, Checked;
    var given := Profiles(wellFormed, from.profiles).value.items;
    assert AllValid(wellFormed, given) by {
      EmptyChecked(wellFormed);
      CheckedMeaning(wellFormed, given);
    }
    FirstRevisionValid(wellFormed, given);
    FirstRevisionDistinct(Profiles(wellFormed, to.profiles).value.items, given);
  }

  /** An export imported into an empty store restores the profiles up to their revision. */
  lemma ExportFillsEmptyStore(wellFormed: Check, normalize: Normalize, from: Store, pins: File<Pin>,
                              credentials: set<Credential>)
    requires Readable(wellFormed, normalize, from)
    ensures var exported := Export(wellFormed, from, None);
            && exported.Ok?
            && Imported(wellFormed, Store(Missing, pins, credentials), exported.value, FileWritten).0.profiles
               == Decoded(Document(1, FirstRevision(Profiles(wellFormed, from.profiles).value.items)))
  {
    hide Distinct, AllValid, Checked;
    var given := Profiles(wellFormed, from.profiles).value.items;
    assert AllValid(wellFormed, given) && Distinct(given) by {
      EmptyChecked(wellFormed);
      CheckedMeaning(wellFormed, given);
    }
    FirstRevisionValid(wellFormed, given);
    FirstRevisionDistinct([], given);
    assert [] + given == given && [] + FirstRevision(given) == FirstRevision(given);
  }
}
