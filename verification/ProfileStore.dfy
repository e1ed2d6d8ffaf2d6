/**
 The per-user metadata store (`crates/client/src/profiles.rs`): profiles and certificate
 pins with optimistic revisions, imports that happen whole or not at all.

 `wellFormed` stands for the checks of `Profile::validate` on a profile's name and its
 other fields, `normalize` for `CertificatePin::new`.
 */
module ProfileStore {
  import opened Common

  /** Id 0 is the nil identifier; `rest` stands for the remaining fields. */
  datatype Profile = Profile(id: nat, revision: nat, name: string, rest: nat)

  type Check = (string, nat) -> bool

  datatype Document<T> = Document(revision: nat, items: seq<T>)

  /** A metadata file: absent, unreadable for some reason, or decoded. */
  datatype File<T> = Missing | Unreadable(code: ErrorCode) | Decoded(document: Document<T>)

  datatype Pin = Pin(host: string, port: nat, fingerprint: string)

  type Normalize = Pin -> Option<Pin>

  /** What a profile may have saved in the keyring, in the order it is deleted. */
  datatype Purpose = Password | KeyPassphrase | SecondaryKeyPassphrase | TokenSeed | ProxyCredentials

  const PURPOSES: seq<Purpose> := [Password, KeyPassphrase, SecondaryKeyPassphrase, TokenSeed, ProxyCredentials]

  type Credential = (nat, Purpose)

  datatype Store = Store(profiles: File<Profile>, pins: File<Pin>, credentials: set<Credential>)

  /** One deletion from the keyring; an absent entry counts as erased, and a failure may have taken effect. */
  datatype Deletion = Erased | NotErased(code: ErrorCode, effect: bool)

  /** How deleting a profile's credentials goes: no lock, or one deletion after another. */
  datatype Keyring = NoLock(code: ErrorCode) | Deletions(each: seq<Deletion>)

  datatype Selector = ById(id: nat) | ByName(name: string)

  predicate Valid(wellFormed: Check, p: Profile) {
    p.id != 0 && p.revision != 0 && wellFormed(p.name, p.rest)
  }

  predicate Clash(p: Profile, q: Profile) {
    p.id == q.id || p.name == q.name
  }

  predicate Distinct(profiles: seq<Profile>) {
    forall i, j :: 0 <= i < j < |profiles| ==> !Clash(profiles[i], profiles[j])
  }

  predicate AllValid(wellFormed: Check, profiles: seq<Profile>) {
    forall i :: 0 <= i < |profiles| ==> Valid(wellFormed, profiles[i])
  }

  /** The first complaint about a list of profiles, in list order. */
  function Checked(wellFormed: Check, profiles: seq<Profile>): Result<()> {
    if profiles == [] then Ok(())
    else
      var (init, last) := (profiles[..|profiles| - 1], profiles[|profiles| - 1]);
      var earlier := Checked(wellFormed, init);
      if earlier.Err? then earlier
      else if !Valid(wellFormed, last) then Err(InvalidInput)
      else if exists i :: 0 <= i < |init| && Clash(init[i], last) then Err(Conflict)
      else Ok(())
  }

  lemma {:induction false} CheckedMeaning(wellFormed: Check, profiles: seq<Profile>)
    ensures Checked(wellFormed, profiles).Ok? <==> AllValid(wellFormed, profiles) && Distinct(profiles)
  {
    if profiles != [] {
      CheckedMeaning(wellFormed, profiles[..|profiles| - 1]);
    }
  }

  lemma {:induction false} CheckedPrefix(wellFormed: Check, profiles: seq<Profile>, k: nat)
    requires k <= |profiles| && Checked(wellFormed, profiles[..k]).Err?
    ensures Checked(wellFormed, profiles) == Checked(wellFormed, profiles[..k])
  {
    if k < |profiles| {
      var init := profiles[..|profiles| - 1];
      assert init[..k] == profiles[..k];
      CheckedPrefix(wellFormed, init, k);
    } else {
      assert profiles[..k] == profiles;
    }
  }

  lemma CheckedNone(wellFormed: Check, none: seq<Profile>)
    requires none == []
    ensures Checked(wellFormed, none) == Ok(())
  {
  }

  /** What one more profile does to the check of a list that is fine so far. */
  lemma CheckedNext(wellFormed: Check, profiles: seq<Profile>, k: nat)
    requires k < |profiles| && Checked(wellFormed, profiles[..k]).Ok?
    ensures Checked(wellFormed, profiles[..k + 1])
         == if !Valid(wellFormed, profiles[k]) then Err(InvalidInput)
            else if exists i :: 0 <= i < k && Clash(profiles[i], profiles[k]) then Err(Conflict)
            else Ok(())
  {
    hide Clash;
    var longer := profiles[..k + 1];
    assert longer[..k] == profiles[..k] && longer[k] == profiles[k];
    assert forall i :: 0 <= i < k ==> profiles[..k][i] == profiles[i];
  }

  lemma SetsClash(profiles: seq<Profile>, k: nat, ids: set<nat>, names: set<string>)
    requires k < |profiles|
    requires ids == set i | 0 <= i < k :: profiles[i].id
    requires names == set i | 0 <= i < k :: profiles[i].name
    ensures profiles[k].id in ids || profiles[k].name in names
       <==> exists i :: 0 <= i < k && Clash(profiles[i], profiles[k])
  {
  }

  /** `validate_profiles`: ids and names are collected in sets as the list is read. */
  method ValidateProfiles(wellFormed: Check, profiles: seq<Profile>) returns (r: Result<()>)
    ensures r == Checked(wellFormed, profiles)
    ensures r.Ok? <==> AllValid(wellFormed, profiles) && Distinct(profiles)
  {
    hide Checked, Distinct, AllValid, Clash;
    CheckedMeaning(wellFormed, profiles);
    CheckedNone(wellFormed, profiles[..0]);
    var ids, names := {}, {};
    var k := 0;
    while k < |profiles|
      invariant 0 <= k <= |profiles|
      invariant Checked(wellFormed, profiles[..k]) == Ok(())
      invariant ids == set i | 0 <= i < k :: profiles[i].id
      invariant names == set i | 0 <= i < k :: profiles[i].name
    {
      var p := profiles[k];
      CheckedNext(wellFormed, profiles, k);
      if !Valid(wellFormed, p) {
        CheckedPrefix(wellFormed, profiles, k + 1);
        return Err(InvalidInput);
      }
      SetsClash(profiles, k, ids, names);
      if p.id in ids || p.name in names {
        CheckedPrefix(wellFormed, profiles, k + 1);
        return Err(Conflict);
      }
      ids, names := ids + {p.id}, names + {p.name};
      k := k + 1;
    }
    assert profiles[..k] == profiles;
    return Ok(());
  }

  /** The profile document behind a file; a list that fails validation is corruption. */
  function Profiles(wellFormed: Check, file: File<Profile>): Result<Document<Profile>> {
    match file
    case Missing => Ok(Document(0, []))
    case Unreadable(code) => Err(code)
    case Decoded(document) =>
      if Checked(wellFormed, document.items).Err? then Err(CorruptStorage) else Ok(document)
  }

  function Position(profiles: seq<Profile>, id: nat): (i: Option<nat>)
    ensures i.Some? ==> i.value < |profiles| && profiles[i.value].id == id
                        && forall k :: 0 <= k < i.value ==> profiles[k].id != id
    ensures i.None? ==> forall k :: 0 <= k < |profiles| ==> profiles[k].id != id
  {
    if profiles == [] then None
    else if profiles[0].id == id then Some(0)
    else
      match Position(profiles[1..], id)
      case None => None
      case Some(i) => Some(i + 1)
  }

  function NamedPosition(profiles: seq<Profile>, name: string): (i: Option<nat>)
    ensures i.Some? ==> i.value < |profiles| && profiles[i.value].name == name
  {
    if profiles == [] then None
    else if profiles[0].name == name then Some(0)
    else
      match NamedPosition(profiles[1..], name)
      case None => None
      case Some(i) => Some(i + 1)
  }

  function Select(profiles: seq<Profile>, selector: Selector): (r: Result<Profile>)
    ensures r.Ok? ==> r.value in profiles
  {
    var at := match selector
      case ById(id) => Position(profiles, id)
      case ByName(name) => NamedPosition(profiles, name);
    if at.None? then Err(NotFound) else Ok(profiles[at.value])
  }

  /** Writes the next revision of a document. */
  function Commit<T>(file: File<T>, revision: nat, items: seq<T>, write: FileWrite): (File<T>, Result<()>) {
    if revision >= U64_MAX then (file, Err(Conflict))
    else
      var next := Decoded(Document(revision + 1, items));
      match write
      case FileWritten => (next, Ok(()))
      case FileFails(code, effect) => (if effect then next else file, Err(code))
  }

  function CommitProfiles(s: Store, revision: nat, items: seq<Profile>, write: FileWrite,
                          answer: seq<Profile>): (Store, Result<seq<Profile>>) {
    var (file, r) := Commit(s.profiles, revision, items, write);
    (s.(profiles := file), if r.Err? then Err(r.code) else Ok(answer))
  }

  function FirstRevision(profiles: seq<Profile>): (r: seq<Profile>)
    ensures |r| == |profiles|
    ensures forall i :: 0 <= i < |r| ==> r[i] == profiles[i].(revision := 1)
  {
    if profiles == [] then []
    else FirstRevision(profiles[..|profiles| - 1]) + [profiles[|profiles| - 1].(revision := 1)]
  }

  // ---------------------------------------------------------------- exported files

  /** A JSON number as `as_u64` sees it. */
  datatype Number = Whole(n: nat) | Otherwise

  /** The bytes of an import: too long, not JSON, or an object; `body` is None when its fields do not fit. */
  datatype Bytes = TooLong | NotJson
                 | Object(schema: Option<Number>, revision: Option<Number>, body: Option<seq<Profile>>)

  function Decode(bytes: Bytes): Result<seq<Profile>> {
    match bytes
    case TooLong => Err(CorruptStorage)
    case NotJson => Err(CorruptStorage)
    case Object(schema, revision, body) =>
      if schema.Some? && schema.value.Whole? && schema.value.n > 1 then Err(NewerSchema)
      else if schema != Some(Whole(1)) then Err(CorruptStorage)
      else if revision.Some? && (revision.value.Otherwise? || revision.value.n == 0) then Err(CorruptStorage)
      else if body.None? then Err(CorruptStorage)
      else Ok(body.value)
  }

  /** An export carries the schema version and the profiles, and no document revision. */
  function Encode(profiles: seq<Profile>): Bytes {
    Object(Some(Whole(1)), None, Some(profiles))
  }

  function Export(wellFormed: Check, s: Store, selector: Option<Selector>): Result<Bytes> {
    match Profiles(wellFormed, s.profiles)
    case Err(e) => Err(e)
    case Ok(document) =>
      match selector
      case None => Ok(Encode(document.items))
      case Some(chosen) =>
        match Select(document.items, chosen)
        case Err(e) => Err(e)
        case Ok(p) => Ok(Encode([p]))
  }

  // ---------------------------------------------------------------- calls

  datatype Call =
    | Create(profile: Profile)
    | Update(profile: Profile)
      // `drawn`: the id drawn for the copy.
    | Duplicate(selector: Selector, drawn: nat, name: string)
    | Remove(id: nat, expected: nat, protect: set<nat>, keyring: Keyring)
    | Import(bytes: Bytes)
    | SavePin(pin: Pin, pinsRevision: nat)

  function Created(wellFormed: Check, s: Store, p: Profile, write: FileWrite): (Store, Result<seq<Profile>>) {
    match Profiles(wellFormed, s.profiles)
    case Err(e) => (s, Err(e))
    case Ok(document) =>
      var first := p.(revision := 1);
      var items := document.items + [first];
      if !Valid(wellFormed, first) then (s, Err(InvalidInput))
      else if Checked(wellFormed, items).Err? then (s, Err(Checked(wellFormed, items).code))
      else CommitProfiles(s, document.revision, items, write, [first])
  }

  function Updated(wellFormed: Check, s: Store, p: Profile, write: FileWrite): (Store, Result<seq<Profile>>) {
    match Profiles(wellFormed, s.profiles)
    case Err(e) => (s, Err(e))
    case Ok(document) =>
      if !Valid(wellFormed, p) then (s, Err(InvalidInput))
      else
        match Position(document.items, p.id)
        case None => (s, Err(NotFound))
        case Some(at) =>
          if document.items[at].revision != p.revision then (s, Err(Conflict))
          else if p.revision >= U64_MAX then (s, Err(Conflict))
          else
            var next := p.(revision := p.revision + 1);
            var items := document.items[at := next];
            if Checked(wellFormed, items).Err? then (s, Err(Checked(wellFormed, items).code))
            else CommitProfiles(s, document.revision, items, write, [next])
  }

  function Duplicated(wellFormed: Check, s: Store, selector: Selector, drawn: nat, name: string,
                      write: FileWrite): (Store, Result<seq<Profile>>) {
    match Profiles(wellFormed, s.profiles)
    case Err(e) => (s, Err(e))
    case Ok(document) =>
      match Select(document.items, selector)
      case Err(e) => (s, Err(e))
      case Ok(p) =>
        var copy := Profile(drawn, 1, name, p.rest);
        var items := document.items + [copy];
        if Checked(wellFormed, items).Err? then (s, Err(Checked(wellFormed, items).code))
        else CommitProfiles(s, document.revision, items, write, [copy])
  }

  function DeletionAt(keyring: Keyring, k: nat): Deletion
    requires keyring.Deletions?
  {
    if k < |keyring.each| then keyring.each[k] else Erased
  }

  /** The credentials left and the outcome when the purposes from the k-th on are deleted. */
  function DeleteFrom(credentials: set<Credential>, id: nat, keyring: Keyring, k: nat): (set<Credential>, Result<()>)
    requires keyring.Deletions? && k <= |PURPOSES|
    decreases |PURPOSES| - k
  {
    if k == |PURPOSES| then (credentials, Ok(()))
    else
      var without := credentials - {(id, PURPOSES[k])};
      match DeletionAt(keyring, k)
      case Erased => DeleteFrom(without, id, keyring, k + 1)
      case NotErased(code, effect) => (if effect then without else credentials, Err(code))
  }

  function DeleteProfile(credentials: set<Credential>, id: nat, keyring: Keyring): (set<Credential>, Result<()>) {
    match keyring
    case NoLock(code) => (credentials, Err(code))
    case Deletions(_) => DeleteFrom(credentials, id, keyring, 0)
  }

  /** The checks a removal makes before it touches the keyring. */
  predicate RemovalPasses(wellFormed: Check, s: Store, id: nat, expected: nat, protect: set<nat>) {
    && id !in protect
    && Profiles(wellFormed, s.profiles).Ok?
    && var document := Profiles(wellFormed, s.profiles).value;
    && Position(document.items, id).Some?
    && document.items[Position(document.items, id).value].revision == expected
    && document.revision < U64_MAX
  }

  /** Credentials go before the profile does, and only after every check. */
  function Removed(wellFormed: Check, s: Store, id: nat, expected: nat, protect: set<nat>, keyring: Keyring,
                   write: FileWrite)
    : (Store, Result<seq<Profile>>)
  {
    if id in protect then (s, Err(Busy))
    else
      match Profiles(wellFormed, s.profiles)
      case Err(e) => (s, Err(e))
      case Ok(document) =>
        match Position(document.items, id)
        case None => (s, Err(NotFound))
        case Some(at) =>
          if document.items[at].revision != expected then (s, Err(Conflict))
          else if document.revision >= U64_MAX then (s, Err(Conflict))
          else
            var (left, deleted) := DeleteProfile(s.credentials, id, keyring);
            var touched := s.(credentials := left);
            if deleted.Err? then (touched, Err(deleted.code))
            else
              CommitProfiles(touched, document.revision, document.items[..at] + document.items[at + 1..], write, [])
  }

  function Imported(wellFormed: Check, s: Store, bytes: Bytes, write: FileWrite): (Store, Result<seq<Profile>>) {
    match Decode(bytes)
    case Err(e) => (s, Err(e))
    case Ok(decoded) =>
      var incoming := FirstRevision(decoded);
      if !AllValid(wellFormed, incoming) then (s, Err(InvalidInput))
      else
        match Profiles(wellFormed, s.profiles)
        case Err(e) => (s, Err(e))
        case Ok(document) =>
          if !Distinct(document.items + incoming) then (s, Err(Conflict))
          else CommitProfiles(s, document.revision, document.items + incoming, write, incoming)
  }

  // ---------------------------------------------------------------- pins

  predicate SamePlace(p: Pin, q: Pin) {
    p.host == q.host && p.port == q.port
  }

  predicate GoodPins(normalize: Normalize, pins: seq<Pin>) {
    && (forall i :: 0 <= i < |pins| ==> normalize(pins[i]) == Some(pins[i]))
    && (forall i, j :: 0 <= i < j < |pins| ==> !SamePlace(pins[i], pins[j]))
  }

  function Pins(normalize: Normalize, file: File<Pin>): Result<Document<Pin>> {
    match file
    case Missing => Ok(Document(0, []))
    case Unreadable(code) => Err(code)
    case Decoded(document) => if !GoodPins(normalize, document.items) then Err(CorruptStorage) else Ok(document)
  }

  function PlaceOf(pins: seq<Pin>, pin: Pin): (i: Option<nat>)
    ensures i.Some? ==> i.value < |pins| && SamePlace(pins[i.value], pin)
    ensures i.None? ==> forall k :: 0 <= k < |pins| ==> !SamePlace(pins[k], pin)
  {
    if pins == [] then None
    else if SamePlace(pins[0], pin) then Some(0)
    else
      match PlaceOf(pins[1..], pin)
      case None => None
      case Some(i) => Some(i + 1)
  }

  function WithPin(pins: seq<Pin>, pin: Pin): seq<Pin> {
    match PlaceOf(pins, pin)
    case None => pins + [pin]
    case Some(i) => pins[i := pin]
  }

  function PinSaved(normalize: Normalize, s: Store, pin: Pin, expected: nat, write: FileWrite): (Store,
    Result<seq<Profile>>) {
    match normalize(pin)
    case None => (s, Err(InvalidInput))
    case Some(normal) =>
      match Pins(normalize, s.pins)
      case Err(e) => (s, Err(e))
      case Ok(document) =>
        if document.revision != expected then (s, Err(Conflict))
        else
          var (file, r) := Commit(s.pins, document.revision, WithPin(document.items, normal), write);
          (s.(pins := file), if r.Err? then Err(r.code) else Ok([]))
  }

  function Performed(wellFormed: Check, normalize: Normalize, s: Store, call: Call, write: FileWrite): (Store,
    Result<seq<Profile>>) {
    match call
    case Create(p) => Created(wellFormed, s, p, write)
    case Update(p) => Updated(wellFormed, s, p, write)
    case Duplicate(selector, drawn, name) => Duplicated(wellFormed, s, selector, drawn, name, write)
    case Remove(id, expected, protect, keyring) => Removed(wellFormed, s, id, expected, protect, keyring, write)
    case Import(bytes) => Imported(wellFormed, s, bytes, write)
    case SavePin(pin, expected) => PinSaved(normalize, s, pin, expected, write)
  }

  // ---------------------------------------------------------------- the store itself

  datatype Finding = DuplicateId(id: nat) | DuplicateName(name: string)

  /** The finding names an id or name that stands twice in the list. */
  ghost predicate Confirmed(f: Finding, profiles: seq<Profile>) {
    match f
    case DuplicateId(id) => exists i, j :: 0 <= i < j < |profiles| && profiles[i].id == id == profiles[j].id
    case DuplicateName(name) => exists i, j :: 0 <= i < j < |profiles| && profiles[i].name == name == profiles[j].name
  }

  function IdsOf(profiles: seq<Profile>): set<nat> {
    set i | 0 <= i < |profiles| :: profiles[i].id
  }

  function NamesOf(profiles: seq<Profile>): set<string> {
    set i | 0 <= i < |profiles| :: profiles[i].name
  }

  lemma OneMore(profiles: seq<Profile>, n: nat)
    requires n < |profiles|
    ensures IdsOf(profiles[..n + 1]) == IdsOf(profiles[..n]) + {profiles[n].id}
    ensures NamesOf(profiles[..n + 1]) == NamesOf(profiles[..n]) + {profiles[n].name}
    ensures Distinct(profiles[..n + 1]) <==>
            && Distinct(profiles[..n])
            && profiles[n].id !in IdsOf(profiles[..n])
            && profiles[n].name !in NamesOf(profiles[..n])
  {
    var init := profiles[..n];
    assert profiles[..n + 1] == init + [profiles[n]];
    assert profiles[n].id in IdsOf(init) || profiles[n].name in NamesOf(init)
      <==> exists i :: 0 <= i < n && Clash(init[i], profiles[n]);
  }

  lemma DuplicatesConfirmed(profiles: seq<Profile>, n: nat)
    requires n < |profiles|
    ensures profiles[n].id in IdsOf(profiles[..n]) ==> Confirmed(DuplicateId(profiles[n].id), profiles)
    ensures profiles[n].name in NamesOf(profiles[..n]) ==> Confirmed(DuplicateName(profiles[n].name), profiles)
  {
    if profiles[n].id in IdsOf(profiles[..n]) {
      var i :| 0 <= i < n && profiles[..n][i].id == profiles[n].id;
      assert profiles[i].id == profiles[n].id;
    }
    if profiles[n].name in NamesOf(profiles[..n]) {
      var i :| 0 <= i < n && profiles[..n][i].name == profiles[n].name;
      assert profiles[i].name == profiles[n].name;
    }
  }

  /** The scan of an import: sets start from the stored profiles and grow with the imported ones. */
  method ImportConflicts(existing: seq<Profile>, imported: seq<Profile>) returns (findings: seq<Finding>)
    requires Distinct(existing)
    ensures findings == [] <==> Distinct(existing + imported)
    ensures forall f :: f in findings ==> Confirmed(f, existing + imported)
  {
    hide Distinct, Confirmed, IdsOf, NamesOf;
    ghost var all := existing + imported;
    assert all[..|existing|] == existing;
    var ids, names := IdsOf(existing), NamesOf(existing);
    findings := [];
    var k := 0;
    while k < |imported|
      invariant 0 <= k <= |imported|
      invariant ids == IdsOf(all[..|existing| + k]) && names == NamesOf(all[..|existing| + k])
      invariant findings == [] <==> Distinct(all[..|existing| + k])
      invariant forall f :: f in findings ==> Confirmed(f, all)
    {
      var p := imported[k];
      OneMore(all, |existing| + k);
      DuplicatesConfirmed(all, |existing| + k);
      if p.id in ids {
        findings := findings + [DuplicateId(p.id)];
      }
      ids := ids + {p.id};
      if p.name in names {
        findings := findings + [DuplicateName(p.name)];
      }
      names := names + {p.name};
      k := k + 1;
    }
    assert all[..|existing| + k] == all;
  }

  class MetadataStore {
    const wellFormed: Check
    const normalize: Normalize
    var profiles: File<Profile>
    var pins: File<Pin>
    var credentials: set<Credential>

    constructor (wellFormed: Check, normalize: Normalize, s: Store)
      ensures this.wellFormed == wellFormed && this.normalize == normalize && Now() == s
    {
      this.wellFormed, this.normalize := wellFormed, normalize;
      profiles, pins, credentials := s.profiles, s.pins, s.credentials;
    }

    function Now(): Store
      reads this
    {
      Store(profiles, pins, credentials)
    }

    method ReadProfiles() returns (r: Result<Document<Profile>>)
      ensures r == Profiles(wellFormed, profiles)
    {
      match profiles {
        case Missing => return Ok(Document(0, []));
        case Unreadable(code) => return Err(code);
        case Decoded(document) =>
          var checked := ValidateProfiles(wellFormed, document.items);
          return if checked.Err? then Err(CorruptStorage) else Ok(document);
      }
    }

    method CommitDocument(revision: nat, items: seq<Profile>, write: FileWrite) returns (r: Result<()>)
      modifies this`profiles
      ensures (profiles, r) == Commit(old(profiles), revision, items, write)
    {
      if revision >= U64_MAX {
        return Err(Conflict);
      }
      if write.FileWritten? || write.effect {
        profiles := Decoded(Document(revision + 1, items));
      }
      return if write.FileWritten? then Ok(()) else Err(write.code);
    }

    method Create(p: Profile, write: FileWrite) returns (r: Result<seq<Profile>>)
      modifies this
      ensures (Now(), r) == Performed(wellFormed, normalize, old(Now()), Call.Create(p), write)
    {
      var document :- ReadProfiles();
      var profile := p.(revision := 1);
      if !Valid(wellFormed, profile) {
        return Err(InvalidInput);
      }
      var items := document.items + [profile];
      var _ :- ValidateProfiles(wellFormed, items);
      var _ :- CommitDocument(document.revision, items, write);
      return Ok([profile]);
    }

    method Update(p: Profile, write: FileWrite) returns (r: Result<seq<Profile>>)
      modifies this
      ensures (Now(), r) == Performed(wellFormed, normalize, old(Now()), Call.Update(p), write)
    {
      var document :- ReadProfiles();
      if !Valid(wellFormed, p) {
        return Err(InvalidInput);
      }
      var at := Position(document.items, p.id);
      if at.None? {
        return Err(NotFound);
      }
      if document.items[at.value].revision != p.revision {
        return Err(Conflict);
      }
      if p.revision >= U64_MAX {
        return Err(Conflict);
      }
      var profile := p.(revision := p.revision + 1);
      var items := document.items[at.value := profile];
      var _ :- ValidateProfiles(wellFormed, items);
      var _ :- CommitDocument(document.revision, items, write);
      return Ok([profile]);
    }

    method Duplicate(selector: Selector, drawn: nat, name: string, write: FileWrite) returns (r: Result<seq<Profile>>)
      modifies this
      ensures (Now(), r) == Performed(wellFormed, normalize, old(Now()), Call.Duplicate(selector, drawn, name), write)
    {
      var document :- ReadProfiles();
      var profile :- Select(document.items, selector);
      profile := profile.(id := drawn, revision := 1, name := name);
      var items := document.items + [profile];
      var _ :- ValidateProfiles(wellFormed, items);
      var _ :- CommitDocument(document.revision, items, write);
      return Ok([profile]);
    }

    /** `delete_profile_blocking`: the keyring has no rollback, so a failure leaves what is already gone. */
    method DeleteCredentials(id: nat, keyring: Keyring) returns (r: Result<()>)
      modifies this`credentials
      ensures (credentials, r) == DeleteProfile(old(credentials), id, keyring)
    {
      if keyring.NoLock? {
        return Err(keyring.code);
      }
      for k := 0 to |PURPOSES|
        invariant DeleteFrom(credentials, id, keyring, k) == DeleteFrom(old(credentials), id, keyring, 0)
      {
        var deletion := DeletionAt(keyring, k);
        if deletion.Erased? || deletion.effect {
          credentials := credentials - {(id, PURPOSES[k])};
        }
        if deletion.NotErased? {
          return Err(deletion.code);
        }
      }
      return Ok(());
    }

    method Remove(id: nat, expected: nat, protect: set<nat>, keyring: Keyring, write: FileWrite)
      returns (r: Result<seq<Profile>>)
      modifies this
      ensures (Now(), r)
           == Performed(wellFormed, normalize, old(Now()), Call.Remove(id, expected, protect, keyring), write)
    {
      hide Checked, DeleteProfile;
      if id in protect {
        return Err(Busy);
      }
      var document :- ReadProfiles();
      var at := Position(document.items, id);
      if at.None? {
        return Err(NotFound);
      }
      if document.items[at.value].revision != expected {
        return Err(Conflict);
      }
      if document.revision >= U64_MAX {
        return Err(Conflict);
      }
      var _ :- DeleteCredentials(id, keyring);
      var items := document.items[..at.value] + document.items[at.value + 1..];
      var _ :- CommitDocument(document.revision, items, write);
      return Ok([]);
    }

    method Import(bytes: Bytes, write: FileWrite) returns (r: Result<seq<Profile>>)
      modifies this
      ensures (Now(), r) == Performed(wellFormed, normalize, old(Now()), Call.Import(bytes), write)
    {
      hide Checked, Distinct;
      var decoded :- Decode(bytes);
      var imported: seq<Profile> := [];
      var k := 0;
      while k < |decoded|
        invariant 0 <= k <= |decoded|
        invariant imported == FirstRevision(decoded)[..k]
        invariant AllValid(wellFormed, imported)
      {
        var profile := decoded[k].(revision := 1);
        if !Valid(wellFormed, profile) {
          assert !Valid(wellFormed, FirstRevision(decoded)[k]);
          return Err(InvalidInput);
        }
        imported := imported + [profile];
        k := k + 1;
      }
      assert imported == FirstRevision(decoded);
      var document :- ReadProfiles();
      CheckedMeaning(wellFormed, document.items);
      assert Distinct(document.items) by { EmptyDistinct(); }
      var findings := ImportConflicts(document.items, imported);
      if findings != [] {
        return Err(Conflict);
      }
      var _ :- CommitDocument(document.revision, document.items + imported, write);
      return Ok(imported);
    }

    method ExportProfiles(selector: Option<Selector>) returns (r: Result<Bytes>)
      ensures r == Export(wellFormed, Now(), selector)
    {
      var document :- ReadProfiles();
      if selector.None? {
        return Ok(Encode(document.items));
      }
      var profile :- Select(document.items, selector.value);
      return Ok(Encode([profile]));
    }

    method SavePin(pin: Pin, expected: nat, write: FileWrite) returns (r: Result<seq<Profile>>)
      modifies this
      ensures (Now(), r) == Performed(wellFormed, normalize, old(Now()), Call.SavePin(pin, expected), write)
    {
      var normal := normalize(pin);
      if normal.None? {
        return Err(InvalidInput);
      }
      var document :- Pins(normalize, pins);
      if document.revision != expected {
        return Err(Conflict);
      }
      var at := PlaceOf(document.items, normal.value);
      var items := if at.Some? then document.items[at.value := normal.value] else document.items + [normal.value];
      if document.revision >= U64_MAX {
        return Err(Conflict);
      }
      if write.FileWritten? || write.effect {
        pins := Decoded(Document(document.revision + 1, items));
      }
      return if write.FileWritten? then Ok([]) else Err(write.code);
    }
  }

  lemma EmptyDistinct()
    ensures Distinct([])
  {
  }
}
