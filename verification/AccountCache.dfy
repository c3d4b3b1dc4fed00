/**
 The account as a write-through cache over one PDDB dictionary (`src/account.rs`): reading it
 back, setting single values, and the sequence of writes that linking performs.
 */
module AccountCache {
  import opened Base
  import opened PddbModel
  import Decimal
  import Utf8

  datatype Key =
    | Aep | AciPrivate | AciPublic | AciServiceId | DeviceId | EncryptedName | HostName
    | IsMultiDevice | Number | Password | PinMasterKey | PniPrivate | PniPublic
    | PniRegistrationId | PniServiceId | ProfileKey | Registered | RegistrationId
    | Environment | StorageKey | LastReceive | ManifestVersion | Manifest

  /** The key's name in the dictionary. */
  function Name(k: Key): string {
    match k
    case Aep => "aep"
    case AciPrivate => "aci.identity.private"
    case AciPublic => "aci.identity.public"
    case AciServiceId => "aci.service_id"
    case DeviceId => "device_id"
    case EncryptedName => "encrypted_device_name"
    case HostName => "host"
    case IsMultiDevice => "is_multi_device"
    case Number => "number"
    case Password => "password"
    case PinMasterKey => "pin_master_key"
    case PniPrivate => "pni.identity.private"
    case PniPublic => "pni.identity.public"
    case PniRegistrationId => "pni.registration_id"
    case PniServiceId => "pni.service_id"
    case ProfileKey => "profile_key"
    case Registered => "registered"
    case RegistrationId => "registration_id"
    case Environment => "service_environment"
    case StorageKey => "storage_key"
    case LastReceive => "store_last_receive_timestamp"
    case ManifestVersion => "store_manifest_version"
    case Manifest => "store_manifest"
  }

  datatype ServiceEnvironment = Live | Staging

  /** The mirrored part of the `Account` struct. */
  datatype Fields = Fields(
    aciPrivate: Option<string>,
    aciPublic: Option<string>,
    aciServiceId: Option<string>,
    deviceId: u32,
    encryptedName: Option<string>,
    host: string,
    isMultiDevice: bool,
    number: Option<string>,
    password: Option<string>,
    pinMasterKey: Option<string>,
    pniPrivate: Option<string>,
    pniPublic: Option<string>,
    pniServiceId: Option<string>,
    profileKey: Option<string>,
    registered: bool,
    environment: ServiceEnvironment,
    storageKey: Option<string>,
    lastReceive: int,
    manifestVersion: int,
    manifest: Option<string>)
  {
    predicate IsRegistered() {
      registered || (deviceId != 0 && aciServiceId.Some? && password.Some?)
    }

    predicate IsPrimaryDevice() {
      IsRegistered() && deviceId == 1
    }
  }

  /** Where the account's dictionary keeps a key. */
  function At(dict: string, k: Key): Slot {
    Slot(dict, Name(k))
  }

  const READ_LIMIT := 256
  const I64_MIN: int := -0x8000_0000_0000_0000
  const I64_MAX: int := 0x7FFF_FFFF_FFFF_FFFF

  /** A byte string that is a Rust `String`. */
  predicate IsText(s: string) {
    && (forall i :: 0 <= i < |s| ==> s[i] < 256 as char)
    && Utf8.Valid(Octets(s))
  }

  function Octets(s: string): seq<byte> {
    seq(|s|, i requires 0 <= i < |s| => if s[i] < 256 as char then s[i] as int else 0)
  }

  lemma AsciiIsText(s: string)
    requires forall i :: 0 <= i < |s| ==> s[i] < 128 as char
    ensures IsText(s)
  {
    Utf8.AsciiIsValid(Octets(s));
  }

  lemma TextConcat(s: string, t: string)
    requires IsText(s) && IsText(t)
    ensures IsText(s + t)
  {
    Utf8.ConcatIsValid(Octets(s), Octets(t));
    assert Octets(s + t) == Octets(s) + Octets(t);
  }

  /** The free function `get`: one read into a 256-byte buffer, which has to be UTF-8. */
  function ReadKey(db: Db, dict: string, k: Key): Option<string> {
    if At(dict, k) in db then Shown(db[At(dict, k)]) else None
  }

  /** What one read of the buffer's size gets of a content. */
  function Front(content: string): string {
    content[..Min(|content|, READ_LIMIT)]
  }

  function Shown(content: string): Option<string> {
    if IsText(Front(content)) then Some(Front(content)) else None
  }

  function ParseBool(s: string): Option<bool> {
    if s == "true" then Some(true) else if s == "false" then Some(false) else None
  }

  function ParseEnvironment(s: string): Option<ServiceEnvironment> {
    if s == "Live" then Some(Live) else if s == "Staging" then Some(Staging) else None
  }

  function ParseI64(s: string): Option<int> {
    Decimal.ParseSigned(s, I64_MIN, I64_MAX)
  }

  function ParseDevice(s: string): Option<u32> {
    match Decimal.Parse(s, TWO_TO_THE_32 - 1)
    case Some(v) => if v < TWO_TO_THE_32 then Some(v) else None
    case None => None
  }

  /** `Account::read`: a required key may be missing, or hold something whose parse is unwrapped. */
  datatype ReadOutcome = Loaded(fields: Fields) | InvalidData | Panics

  function ReadAccount(db: Db, dict: string): ReadOutcome {
    if exists k :: k in REQUIRED && ReadKey(db, dict, k).None? then InvalidData
    else if exists k :: k in REQUIRED && !Parses(k, ReadKey(db, dict, k).value) then Panics
    else Loaded(Rebuild(db, dict))
  }

  const REQUIRED := {DeviceId, HostName, IsMultiDevice, Registered, Environment, ManifestVersion}

  /** `parse().unwrap()` on the value of a required key does not panic. */
  predicate Parses(k: Key, s: string) {
    match k
    case DeviceId => ParseDevice(s).Some?
    case IsMultiDevice => ParseBool(s).Some?
    case Registered => ParseBool(s).Some?
    case Environment => ParseEnvironment(s).Some?
    case ManifestVersion => ParseI64(s).Some?
    case _ => true
  }

  // What the parses yield; the zero values stand where `ReadAccount` has already failed, and in
  // `NumberOf` also where the optional timestamp is absent or no number.

  function DeviceOf(o: Option<string>): u32 {
    if o.Some? && ParseDevice(o.value).Some? then ParseDevice(o.value).value else 0
  }

  function FlagOf(o: Option<string>): bool {
    o == Some("true")
  }

  function EnvironmentOf(o: Option<string>): ServiceEnvironment {
    if o == Some("Staging") then Staging else Live
  }

  function TextOf(o: Option<string>): string {
    if o.Some? then o.value else ""
  }

  function NumberOf(o: Option<string>): int {
    if o.Some? && ParseI64(o.value).Some? then ParseI64(o.value).value else 0
  }

  /** The struct, field by field. */
  function Rebuild(db: Db, dict: string): Fields {
    Fields(
      ReadKey(db, dict, AciPrivate), ReadKey(db, dict, AciPublic), ReadKey(db, dict, AciServiceId),
      DeviceOf(ReadKey(db, dict, DeviceId)), ReadKey(db, dict, EncryptedName), TextOf(ReadKey(db, dict, HostName)),
      FlagOf(ReadKey(db, dict, IsMultiDevice)), ReadKey(db, dict, Number), ReadKey(db, dict, Password),
      ReadKey(db, dict, PinMasterKey), ReadKey(db, dict, PniPrivate), ReadKey(db, dict, PniPublic),
      ReadKey(db, dict, PniServiceId), ReadKey(db, dict, ProfileKey), FlagOf(ReadKey(db, dict, Registered)),
      EnvironmentOf(ReadKey(db, dict, Environment)), ReadKey(db, dict, StorageKey),
      NumberOf(ReadKey(db, dict, LastReceive)), NumberOf(ReadKey(db, dict, ManifestVersion)),
      ReadKey(db, dict, Manifest))
  }

  /** The free function `set`: delete, then create and write a given value. Its caller learns of no failure. */
  function SetKey(db: Db, dict: string, k: Key, value: Option<string>, io: Io): Db {
    match value
    case None => Delete(db, At(dict, k), io)
    case Some(v) => Write(db, At(dict, k), v, io)
  }

  /** Whether an unwrap on the value panics in `Account::set`. */
  predicate Unwraps(k: Key, value: Option<string>) {
    && (k.DeviceId? || k.IsMultiDevice? || k.Registered? || k.Environment?)
    && (value.None? || !Parses(k, value.value))
  }

  /** The struct half of `Account::set`. */
  function SetField(f: Fields, k: Key, value: Option<string>): Fields {
    match k
    case AciPrivate => f.(aciPrivate := value)
    case AciPublic => f.(aciPublic := value)
    case AciServiceId => f.(aciServiceId := value)
    case DeviceId => f.(deviceId := DeviceOf(value))
    case EncryptedName => f.(encryptedName := value)
    case IsMultiDevice => f.(isMultiDevice := FlagOf(value))
    case Number => f.(number := value)
    case Password => f.(password := value)
    case PinMasterKey => f.(pinMasterKey := value)
    case PniPrivate => f.(pniPrivate := value)
    case PniPublic => f.(pniPublic := value)
    case PniServiceId => f.(pniServiceId := value)
    case ProfileKey => f.(profileKey := value)
    case Registered => f.(registered := FlagOf(value))
    case Environment => f.(environment := EnvironmentOf(value))
    case StorageKey => f.(storageKey := value)
    case _ => f
  }

  /** The keys whose field `set` keeps up to date. */
  predicate Mirrored(k: Key) {
    !(k.Aep? || k.RegistrationId? || k.PniRegistrationId? || k.LastReceive? || k.ManifestVersion? || k.Manifest?
      || k.HostName?)
  }

  /** The mirrored keys that hold plain text. */
  predicate TextKey(k: Key) {
    Mirrored(k) && !(k.DeviceId? || k.IsMultiDevice? || k.Registered? || k.Environment?)
  }

  /** In-memory fields are what a fresh `Account::read` would rebuild. */
  ghost predicate Coherent(db: Db, dict: string, f: Fields) {
    ReadAccount(db, dict) == Loaded(f)
  }

  lemma NameInjective(k: Key, l: Key)
    requires Name(k) == Name(l)
    ensures k == l
  {
  }

  lemma ReadAfterSet(db: Db, dict: string, k: Key, value: Option<string>, other: Key)
    ensures ReadKey(SetKey(db, dict, k, value, HEALTHY), dict, other) ==
            if other != k then ReadKey(db, dict, other) else if value.Some? then Shown(value.value) else None
  {
    hide IsText, Name;
    if other != k {
      OtherKeysKept(db, dict, k, value, HEALTHY, other);
    } else if value.Some? {
      HealthyWrite(db, At(dict, k), value.value);
    }
  }

  /** Whatever the storage does to a `set`, it leaves the other keys as they were. */
  lemma OtherKeysKept(db: Db, dict: string, k: Key, value: Option<string>, io: Io, other: Key)
    requires other != k
    ensures ReadKey(SetKey(db, dict, k, value, io), dict, other) == ReadKey(db, dict, other)
  {
    hide IsText;
    if Name(other) == Name(k) {
      NameInjective(other, k);
    }
    assert At(dict, other) != At(dict, k);
    hide Name;
  }

  /** A value that is read back as it was written. */
  predicate Readable(value: Option<string>) {
    value.Some? ==> IsText(value.value) && |value.value| <= 256
  }

  lemma ReadableIsShown(v: string)
    ensures Readable(Some(v)) <==> Shown(v) == Some(v)
  {
    hide IsText;
    if |v| <= READ_LIMIT {
      assert v[..|v|] == v;
    }
  }

  ghost predicate OnlyChanged(db: Db, db': Db, dict: string, k: Key, value: Option<string>) {
    && (forall other: Key :: other != k ==> ReadKey(db', dict, other) == ReadKey(db, dict, other))
    && ReadKey(db', dict, k) == value
  }

  /** The keys of the two identities and their service ids. */
  predicate IdentityKey(k: Key) {
    k.AciPrivate? || k.AciPublic? || k.AciServiceId? || k.PniPrivate? || k.PniPublic? || k.PniServiceId?
  }

  lemma RebuildSetsAci(db: Db, db': Db, dict: string, k: Key, value: Option<string>)
    requires (k.AciPrivate? || k.AciPublic? || k.AciServiceId?) && OnlyChanged(db, db', dict, k, value)
    ensures Rebuild(db', dict) == SetField(Rebuild(db, dict), k, value)
  {
    hide ReadKey, DeviceOf, FlagOf, EnvironmentOf, TextOf, NumberOf;
    match k {
      case AciPrivate => assert Rebuild(db', dict) == Rebuild(db, dict).(aciPrivate := value);
      case AciPublic => assert Rebuild(db', dict) == Rebuild(db, dict).(aciPublic := value);
      case AciServiceId => assert Rebuild(db', dict) == Rebuild(db, dict).(aciServiceId := value);
    }
  }

  lemma RebuildSetsPni(db: Db, db': Db, dict: string, k: Key, value: Option<string>)
    requires (k.PniPrivate? || k.PniPublic? || k.PniServiceId?) && OnlyChanged(db, db', dict, k, value)
    ensures Rebuild(db', dict) == SetField(Rebuild(db, dict), k, value)
  {
    hide ReadKey, DeviceOf, FlagOf, EnvironmentOf, TextOf, NumberOf;
    match k {
      case PniPrivate => assert Rebuild(db', dict) == Rebuild(db, dict).(pniPrivate := value);
      case PniPublic => assert Rebuild(db', dict) == Rebuild(db, dict).(pniPublic := value);
      case PniServiceId => assert Rebuild(db', dict) == Rebuild(db, dict).(pniServiceId := value);
    }
  }

  lemma RebuildSetsOtherText(db: Db, db': Db, dict: string, k: Key, value: Option<string>)
    requires TextKey(k) && !IdentityKey(k) && OnlyChanged(db, db', dict, k, value)
    ensures Rebuild(db', dict) == SetField(Rebuild(db, dict), k, value)
  {
    hide ReadKey, DeviceOf, FlagOf, EnvironmentOf, TextOf, NumberOf;
    match k {
      case EncryptedName => assert Rebuild(db', dict) == Rebuild(db, dict).(encryptedName := value);
      case Number => assert Rebuild(db', dict) == Rebuild(db, dict).(number := value);
      case Password => assert Rebuild(db', dict) == Rebuild(db, dict).(password := value);
      case PinMasterKey => assert Rebuild(db', dict) == Rebuild(db, dict).(pinMasterKey := value);
      case ProfileKey => assert Rebuild(db', dict) == Rebuild(db, dict).(profileKey := value);
      case StorageKey => assert Rebuild(db', dict) == Rebuild(db, dict).(storageKey := value);
    }
  }

  lemma RebuildSetsTextField(db: Db, db': Db, dict: string, k: Key, value: Option<string>)
    requires TextKey(k) && OnlyChanged(db, db', dict, k, value)
    ensures Rebuild(db', dict) == SetField(Rebuild(db, dict), k, value)
  {
    hide Rebuild, OnlyChanged, SetField;
    if k.AciPrivate? || k.AciPublic? || k.AciServiceId? {
      RebuildSetsAci(db, db', dict, k, value);
    } else if k.PniPrivate? || k.PniPublic? || k.PniServiceId? {
      RebuildSetsPni(db, db', dict, k, value);
    } else {
      RebuildSetsOtherText(db, db', dict, k, value);
    }
  }

  lemma RebuildSetsParsedField(db: Db, db': Db, dict: string, k: Key, value: Option<string>)
    requires Mirrored(k) && !TextKey(k) && OnlyChanged(db, db', dict, k, value)
    ensures Rebuild(db', dict) == SetField(Rebuild(db, dict), k, value)
  {
    hide ReadKey, DeviceOf, FlagOf, EnvironmentOf, TextOf, NumberOf;
    match k {
      case DeviceId => assert Rebuild(db', dict) == Rebuild(db, dict).(deviceId := DeviceOf(value));
      case IsMultiDevice => assert Rebuild(db', dict) == Rebuild(db, dict).(isMultiDevice := FlagOf(value));
      case Registered => assert Rebuild(db', dict) == Rebuild(db, dict).(registered := FlagOf(value));
      case Environment => assert Rebuild(db', dict) == Rebuild(db, dict).(environment := EnvironmentOf(value));
    }
  }

  lemma RequiredParses(k: Key, value: Option<string>)
    requires k in REQUIRED && !k.HostName? && !Unwraps(k, value)
    requires k.ManifestVersion? ==> value.Some? && Parses(k, value.value)
    ensures value.Some? && Parses(k, value.value)
  {
    hide ParseDevice, ParseBool, ParseEnvironment, ParseI64;
  }

  lemma StillLoads(db: Db, db': Db, dict: string, k: Key, value: Option<string>)
    requires ReadAccount(db, dict).Loaded? && !k.HostName? && !Unwraps(k, value)
    requires k.ManifestVersion? ==> value.Some? && Parses(k, value.value)
    requires OnlyChanged(db, db', dict, k, value)
    ensures ReadAccount(db', dict) == Loaded(Rebuild(db', dict))
  {
    hide ReadKey, Parses, Rebuild, Unwraps;
    forall r | r in REQUIRED
      ensures ReadKey(db', dict, r).Some? && Parses(r, ReadKey(db', dict, r).value)
    {
      assert ReadKey(db, dict, r).Some? && Parses(r, ReadKey(db, dict, r).value);
      if r == k {
        RequiredParses(k, value);
      }
    }
    hide OnlyChanged;
  }

  lemma HealthySetChangesOne(db: Db, dict: string, k: Key, value: Option<string>)
    requires Readable(value)
    ensures OnlyChanged(db, SetKey(db, dict, k, value, HEALTHY), dict, k, value)
  {
    hide SetKey, ReadKey, IsText;
    forall other: Key
      ensures ReadKey(SetKey(db, dict, k, value, HEALTHY), dict, other) ==
              if other == k then value else ReadKey(db, dict, other)
    {
      ReadAfterSet(db, dict, k, value, other);
      if value.Some? {
        ReadableIsShown(value.value);
      }
    }
  }

  /** A successful write of a value that fits keeps cache and dictionary together, on each mirrored key. */
  lemma SetKeepsCoherent(db: Db, dict: string, f: Fields, k: Key, value: Option<string>)
    requires Coherent(db, dict, f) && Mirrored(k) && !Unwraps(k, value) && Readable(value)
    ensures Coherent(SetKey(db, dict, k, value, HEALTHY), dict, SetField(f, k, value))
  {
    var db' := SetKey(db, dict, k, value, HEALTHY);
    HealthySetChangesOne(db, dict, k, value);
    hide SetKey, SetField, Rebuild, ReadKey, OnlyChanged;
    if TextKey(k) {
      RebuildSetsTextField(db, db', dict, k, value);
    } else {
      RebuildSetsParsedField(db, db', dict, k, value);
    }
    StillLoads(db, db', dict, k, value);
  }

  /** One call of `Account::set`. */
  datatype Call = Call(key: Key, value: Option<string>)

  /** The dictionary after a sequence of calls, where `io` says what the storage does to each key's calls. */
  function SetAll(db: Db, dict: string, calls: seq<Call>, io: Key -> Io): Db {
    if calls == [] then db
    else
      var n := |calls| - 1;
      SetKey(SetAll(db, dict, calls[..n], io), dict, calls[n].key, calls[n].value, io(calls[n].key))
  }

  function Healthy(k: Key): Io {
    HEALTHY
  }

  function SetFields(f: Fields, calls: seq<Call>): Fields {
    if calls == [] then f
    else
      var n := |calls| - 1;
      SetField(SetFields(f, calls[..n]), calls[n].key, calls[n].value)
  }

  /** Over any sequence of successful sets of readable values, memory is what `Account::read` would rebuild. */
  lemma {:induction false} SetsKeepCoherent(db: Db, dict: string, f: Fields, calls: seq<Call>)
    requires Coherent(db, dict, f)
    requires forall c :: c in calls ==> Mirrored(c.key) && !Unwraps(c.key, c.value) && Readable(c.value)
    ensures Coherent(SetAll(db, dict, calls, Healthy), dict, SetFields(f, calls))
  {
    hide SetField, SetKey, Rebuild, ReadAccount;
    if calls != [] {
      var n := |calls| - 1;
      SetsKeepCoherent(db, dict, f, calls[..n]);
      var before, g := SetAll(db, dict, calls[..n], Healthy), SetFields(f, calls[..n]);
      SetKeepsCoherent(before, dict, g, calls[n].key, calls[n].value);
    }
  }

  /** A fresh read differs from memory at most in the three `store_*` fields. */
  ghost predicate CoherentUpToStore(db: Db, dict: string, f: Fields) {
    var r := ReadAccount(db, dict);
    r.Loaded? && r.fields == WithStoreOf(f, r.fields)
  }

  function WithStoreOf(f: Fields, g: Fields): Fields {
    f.(lastReceive := g.lastReceive, manifestVersion := g.manifestVersion, manifest := g.manifest)
  }

  /** A value of the key that `Account::read` can parse. */
  predicate Settable(k: Key, value: Option<string>) {
    && !k.HostName? && !Unwraps(k, value) && Readable(value)
    && (k.ManifestVersion? ==> value.Some? && Parses(k, value.value))
  }

  lemma SetIgnoresStore(f: Fields, g: Fields, k: Key, value: Option<string>)
    ensures SetField(WithStoreOf(f, g), k, value) == WithStoreOf(SetField(f, k, value), g)
  {
    hide DeviceOf, FlagOf, EnvironmentOf;
  }

  lemma UnmirroredSet(db: Db, db': Db, dict: string, k: Key, value: Option<string>)
    requires ReadAccount(db, dict).Loaded? && !Mirrored(k) && Settable(k, value) && OnlyChanged(db, db', dict, k, value)
    ensures ReadAccount(db', dict) == Loaded(Rebuild(db', dict))
    ensures Rebuild(db', dict) == WithStoreOf(Rebuild(db, dict), Rebuild(db', dict))
  {
    StillLoads(db, db', dict, k, value);
    hide Rebuild, ReadAccount, ReadKey, Settable;
    assert forall other: Key :: Mirrored(other) || other.HostName? ==> other != k;
    StoreApart(db, db', dict);
  }

  lemma StoreApart(db: Db, db': Db, dict: string)
    requires forall k: Key :: Mirrored(k) || k.HostName? ==> ReadKey(db', dict, k) == ReadKey(db, dict, k)
    ensures Rebuild(db', dict) == WithStoreOf(Rebuild(db, dict), Rebuild(db', dict))
  {
    hide ReadKey, DeviceOf, FlagOf, EnvironmentOf, TextOf, NumberOf;
  }

  lemma SetKeepsUpToStore(db: Db, dict: string, f: Fields, k: Key, value: Option<string>)
    requires CoherentUpToStore(db, dict, f) && Settable(k, value)
    ensures CoherentUpToStore(SetKey(db, dict, k, value, HEALTHY), dict, SetField(f, k, value))
  {
    hide Rebuild, SetKey, SetField, OnlyChanged, Readable, Unwraps, Parses, ReadKey;
    var g, db' := Rebuild(db, dict), SetKey(db, dict, k, value, HEALTHY);
    assert Coherent(db, dict, g);
    if Mirrored(k) {
      SetKeepsCoherent(db, dict, g, k, value);
      SetIgnoresStore(f, g, k, value);
    } else {
      HealthySetChangesOne(db, dict, k, value);
      UnmirroredSet(db, db', dict, k, value);
      UnmirroredField(f, k, value);
      hide ReadAccount;
    }
  }

  lemma UnmirroredField(f: Fields, k: Key, value: Option<string>)
    requires !Mirrored(k)
    ensures SetField(f, k, value) == f
  {
  }

  /**
   Over any sequence of successful sets of readable values, whichever the keys, memory and dictionary
   agree up to `store_*`.
   */
  lemma {:induction false} SetsKeepUpToStore(db: Db, dict: string, f: Fields, calls: seq<Call>)
    requires CoherentUpToStore(db, dict, f)
    requires forall c :: c in calls ==> Settable(c.key, c.value)
    ensures CoherentUpToStore(SetAll(db, dict, calls, Healthy), dict, SetFields(f, calls))
  {
    hide SetField, SetKey, CoherentUpToStore, Settable;
    if calls != [] {
      var n := |calls| - 1;
      SetsKeepUpToStore(db, dict, f, calls[..n]);
      var before, g := SetAll(db, dict, calls[..n], Healthy), SetFields(f, calls[..n]);
      SetKeepsUpToStore(before, dict, g, calls[n].key, calls[n].value);
    }
  }

  lemma {:induction false} SetsKeepStore(f: Fields, calls: seq<Call>)
    ensures SetFields(f, calls) == WithStoreOf(SetFields(f, calls), f)
  {
    hide DeviceOf, FlagOf, EnvironmentOf;
    if calls != [] {
      var n := |calls| - 1;
      SetsKeepStore(f, calls[..n]);
      SetIgnoresStore(SetFields(f, calls[..n]), f, calls[n].key, calls[n].value);
      hide SetField;
    }
  }
}
