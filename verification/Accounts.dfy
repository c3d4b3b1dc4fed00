/** The account as an object: its fields in memory beside the dictionary they mirror (`src/account.rs`). */
module Accounts {
  import opened Base
  import opened PddbModel
  import opened AccountCache
  import opened AccountCalls
  import AccountWrites
  import Decimal
  import Prekeys
  import Stores

  datatype SetOutcome = Stored | KeyNotFound | Panicked

  datatype LinkError = BadMessage | RequestFailed | SaveFailed(error: Stores.SignalError)

  /** What `Account::read` hands back. */
  datatype Reading = Opened(account: Account) | MissingKey | UnwrapPanic

  /** The free function `set`. */
  method PutKey(pddb: Pddb, dict: string, key: Key, value: Option<string>, io: Io)
    modifies pddb
    ensures pddb.db == SetKey(old(pddb.db), dict, key, value, io)
  {
    if value.Some? {
      var _ := pddb.WriteBinary(At(dict, key), value.value, io);
    } else {
      var _ := pddb.DeleteKey(At(dict, key), io);
    }
  }

  /** The free function `get`. */
  method GetKey(pddb: Pddb, dict: string, key: Key) returns (r: Option<string>)
    ensures r == ReadKey(pddb.db, dict, key)
  {
    var read := pddb.ReadBinary(At(dict, key), HEALTHY);
    if read.Found? {
      return Shown(read.bytes);
    }
    return None;
  }

  lemma UnwrapsOn(key: Key, value: Option<string>)
    ensures Unwraps(key, value) <==>
            || (key.DeviceId? && (value.None? || ParseDevice(value.value).None?))
            || ((key.IsMultiDevice? || key.Registered?) && value !in {Some("true"), Some("false")})
            || (key.Environment? && value !in {Some("Live"), Some("Staging")})
  {
    hide ParseDevice;
  }

  lemma OneMoreCall(db: Db, dict: string, f: Fields, calls: seq<Call>, c: Call, io: Key -> Io)
    ensures SetAll(db, dict, calls + [c], io) == SetKey(SetAll(db, dict, calls, io), dict, c.key, c.value, io(c.key))
    ensures SetFields(f, calls + [c]) == SetField(SetFields(f, calls), c.key, c.value)
  {
    assert (calls + [c])[..|calls|] == calls;
  }

  /** One step of a longer sequence of writes, `done` being those before it. */
  method PutNext(pddb: Pddb, dict: string, key: Key, value: Option<string>, io: Key -> Io, ghost was: Db,
    ghost done: seq<Call>)
    returns (ghost next: seq<Call>)
    requires pddb.db == SetAll(was, dict, done, io)
    modifies pddb
    ensures next == done + [Call(key, value)]
    ensures pddb.db == SetAll(was, dict, next, io)
  {
    hide SetKey;
    next := done + [Call(key, value)];
    assert next[..|done|] == done;
    PutKey(pddb, dict, key, value, io(key));
  }

  class Account {
    const pddb: Pddb
    const dict: string
    var aciPrivate: Option<string>
    var aciPublic: Option<string>
    var aciServiceId: Option<string>
    var deviceId: u32
    var encryptedName: Option<string>
    var host: string
    var isMultiDevice: bool
    var number: Option<string>
    var password: Option<string>
    var pinMasterKey: Option<string>
    var pniPrivate: Option<string>
    var pniPublic: Option<string>
    var pniServiceId: Option<string>
    var profileKey: Option<string>
    var registered: bool
    var environment: ServiceEnvironment
    var storageKey: Option<string>
    var lastReceive: int
    var manifestVersion: int
    var manifest: Option<string>

    function Contents(): Fields
      reads this
    {
      Fields(
        aciPrivate, aciPublic, aciServiceId, deviceId, encryptedName, host, isMultiDevice, number, password,
        pinMasterKey, pniPrivate, pniPublic, pniServiceId, profileKey, registered, environment, storageKey,
        lastReceive, manifestVersion, manifest)
    }

    constructor (pddb: Pddb, dict: string, f: Fields)
      ensures this.pddb == pddb && this.dict == dict && Contents() == f
    {
      this.pddb, this.dict := pddb, dict;
      this.aciPrivate := f.aciPrivate;
      this.aciPublic := f.aciPublic;
      this.aciServiceId := f.aciServiceId;
      this.deviceId := f.deviceId;
      this.encryptedName := f.encryptedName;
      this.host := f.host;
      this.isMultiDevice := f.isMultiDevice;
      this.number := f.number;
      this.password := f.password;
      this.pinMasterKey := f.pinMasterKey;
      this.pniPrivate := f.pniPrivate;
      this.pniPublic := f.pniPublic;
      this.pniServiceId := f.pniServiceId;
      this.profileKey := f.profileKey;
      this.registered := f.registered;
      this.environment := f.environment;
      this.storageKey := f.storageKey;
      this.lastReceive := f.lastReceive;
      this.manifestVersion := f.manifestVersion;
      this.manifest := f.manifest;
    }

    /** `Account::read`. */
    static method ReadFrom(pddb: Pddb, dict: string) returns (r: Reading)
      ensures r.Opened? ==> fresh(r.account) && r.account.pddb == pddb && r.account.dict == dict
      ensures ReadAccount(pddb.db, dict) ==
              match r
              case Opened(account) => Loaded(account.Contents())
              case MissingKey => InvalidData
              case UnwrapPanic => Panics
    {
      var read := ReadFields(pddb, dict);
      hide ReadAccount;
      match read
      case InvalidData => return MissingKey;
      case Panics => return UnwrapPanic;
      case Loaded(fields) =>
        var account := new Account(pddb, dict, fields);
        return Opened(account);
    }

    static method ReadFields(pddb: Pddb, dict: string) returns (r: ReadOutcome)
      ensures r == ReadAccount(pddb.db, dict)
    {
      var aciPrivate := GetKey(pddb, dict, AciPrivate);
      var aciPublic := GetKey(pddb, dict, AciPublic);
      var aciServiceId := GetKey(pddb, dict, AciServiceId);
      var deviceId := GetKey(pddb, dict, DeviceId);
      var encryptedName := GetKey(pddb, dict, EncryptedName);
      var host := GetKey(pddb, dict, HostName);
      var isMultiDevice := GetKey(pddb, dict, IsMultiDevice);
      var number := GetKey(pddb, dict, Number);
      var password := GetKey(pddb, dict, Password);
      var pinMasterKey := GetKey(pddb, dict, PinMasterKey);
      var pniPrivate := GetKey(pddb, dict, PniPrivate);
      var pniPublic := GetKey(pddb, dict, PniPublic);
      var pniServiceId := GetKey(pddb, dict, PniServiceId);
      var profileKey := GetKey(pddb, dict, ProfileKey);
      var registered := GetKey(pddb, dict, Registered);
      var environment := GetKey(pddb, dict, Environment);
      var storageKey := GetKey(pddb, dict, StorageKey);
      var lastReceive := GetKey(pddb, dict, LastReceive);
      var manifestVersion := GetKey(pddb, dict, ManifestVersion);
      var manifest := GetKey(pddb, dict, Manifest);
      ReadByKey(pddb.db, dict);
      hide ReadKey, ParseDevice, ParseBool, ParseEnvironment, ParseI64, ReadAccount;
      if deviceId.None? || host.None? || isMultiDevice.None? || registered.None? || environment.None?
        || manifestVersion.None? {
        return InvalidData;
      }
      if ParseDevice(deviceId.value).None? || ParseBool(isMultiDevice.value).None? || ParseBool(registered.value).None?
         || ParseEnvironment(environment.value).None? || ParseI64(manifestVersion.value).None? {
        return Panics;
      }
      var timestamp := 0;
      if lastReceive.Some? {
        var parsed := ParseI64(lastReceive.value);
        if parsed.Some? {
          timestamp := parsed.value;
        }
      }
      return Loaded(Fields(
        aciPrivate, aciPublic, aciServiceId, ParseDevice(deviceId.value).value, encryptedName, host.value,
        FlagOf(isMultiDevice), number, password, pinMasterKey, pniPrivate, pniPublic, pniServiceId, profileKey,
        FlagOf(registered), EnvironmentOf(environment), storageKey, timestamp,
        ParseI64(manifestVersion.value).value, manifest));
    }

    /** `Account::new`: the default values are written, and then read back. */
    static method New(pddb: Pddb, dict: string, host: string, environment: ServiceEnvironment, io: Key -> Io)
      returns (r: Reading)
      modifies pddb
      ensures pddb.db == SetAll(old(pddb.db), dict, NewCalls(host, environment), io)
      ensures r.Opened? ==> fresh(r.account) && r.account.pddb == pddb && r.account.dict == dict
      ensures ReadAccount(pddb.db, dict) ==
              match r
              case Opened(account) => Loaded(account.Contents())
              case MissingKey => InvalidData
              case UnwrapPanic => Panics
    {
      ghost var was := pddb.db;
      assert SetAll(was, dict, [], io) == was;
      hide SetAll, ReadAccount;
      ghost var done := PutFirstDefaults(pddb, dict, host, io, was);
      PutLastDefaults(pddb, dict, host, environment, io, was, done);
      r := ReadFrom(pddb, dict);
    }

    /** The first half of the default values. */
    static method PutFirstDefaults(pddb: Pddb, dict: string, host: string, io: Key -> Io, ghost was: Db)
      returns (ghost done: seq<Call>)
      requires pddb.db == SetAll(was, dict, [], io)
      modifies pddb
      ensures forall e :: done == NewCalls(host, e)[..10]
      ensures pddb.db == SetAll(was, dict, done, io)
    {
      hide SetAll;
      done := [];
      done := PutNext(pddb, dict, AciPrivate, None, io, was, done);
      done := PutNext(pddb, dict, AciPublic, None, io, was, done);
      done := PutNext(pddb, dict, AciServiceId, None, io, was, done);
      done := PutNext(pddb, dict, DeviceId, Some("0"), io, was, done);
      done := PutNext(pddb, dict, EncryptedName, None, io, was, done);
      done := PutNext(pddb, dict, HostName, Some(host), io, was, done);
      done := PutNext(pddb, dict, IsMultiDevice, Some("false"), io, was, done);
      done := PutNext(pddb, dict, Number, None, io, was, done);
      done := PutNext(pddb, dict, Password, None, io, was, done);
      done := PutNext(pddb, dict, PinMasterKey, None, io, was, done);
    }

    /** The second half of the default values. */
    static method PutLastDefaults(pddb: Pddb, dict: string, host: string, environment: ServiceEnvironment,
      io: Key -> Io, ghost was: Db, ghost first: seq<Call>)
      requires first == NewCalls(host, environment)[..10] && pddb.db == SetAll(was, dict, first, io)
      modifies pddb
      ensures pddb.db == SetAll(was, dict, NewCalls(host, environment), io)
    {
      hide SetAll;
      ghost var done := first;
      done := PutNext(pddb, dict, PniPrivate, None, io, was, done);
      done := PutNext(pddb, dict, PniPublic, None, io, was, done);
      done := PutNext(pddb, dict, PniServiceId, None, io, was, done);
      done := PutNext(pddb, dict, ProfileKey, None, io, was, done);
      done := PutNext(pddb, dict, Registered, Some("false"), io, was, done);
      done := PutNext(pddb, dict, Environment, Some(EnvironmentName(environment)), io, was, done);
      done := PutNext(pddb, dict, StorageKey, None, io, was, done);
      done := PutNext(pddb, dict, LastReceive, Some("0"), io, was, done);
      done := PutNext(pddb, dict, ManifestVersion, Some("-1"), io, was, done);
      done := PutNext(pddb, dict, Manifest, None, io, was, done);
      assert done == NewCalls(host, environment);
    }

    predicate IsRegistered()
      reads this
    {
      Contents().IsRegistered()
    }

    predicate IsPrimaryDevice()
      reads this
    {
      Contents().IsPrimaryDevice()
    }

    /** `Account::set`. */
    method SetValue(key: Key, value: Option<string>, io: Io) returns (r: SetOutcome)
      modifies this, pddb
      ensures r == if key.HostName? then KeyNotFound
                   else if (key.DeviceId? && (value.None? || ParseDevice(value.value).None?))
                        || ((key.IsMultiDevice? || key.Registered?) && value !in {Some("true"), Some("false")})
                        || (key.Environment? && value !in {Some("Live"), Some("Staging")}) then Panicked
                   else Stored
      ensures Contents() == if r.Stored? then SetField(old(Contents()), key, value) else old(Contents())
      ensures pddb.db == if key.HostName? then Delete(SetKey(old(pddb.db), dict, key, value, io), At(dict, key), io)
                         else SetKey(old(pddb.db), dict, key, value, io)
    {
      hide SetKey, ParseDevice, ParseBool, ParseEnvironment, Unwraps;
      UnwrapsOn(key, value);
      PutKey(pddb, dict, key, value, io);
      if Unwraps(key, value) {
        return Panicked;
      }
      if key.HostName? {
        var _ := pddb.DeleteKey(At(dict, key), io);
        return KeyNotFound;
      }
      if IdentityKey(key) {
        AssignIdentity(key, value);
      } else if key.DeviceId? || key.IsMultiDevice? || key.Registered? || key.Environment? {
        AssignParsed(key, value);
      } else {
        AssignOther(key, value);
      }
      return Stored;
    }

    /** The field assignment of `Account::set`, for the identity keys and service ids. */
    method AssignIdentity(key: Key, value: Option<string>)
      requires IdentityKey(key)
      modifies this
      ensures Contents() == SetField(old(Contents()), key, value)
    {
      ghost var was := Contents();
      match key
      case AciPrivate => aciPrivate := value; assert Contents() == was.(aciPrivate := value);
      case AciPublic => aciPublic := value; assert Contents() == was.(aciPublic := value);
      case AciServiceId => aciServiceId := value; assert Contents() == was.(aciServiceId := value);
      case PniPrivate => pniPrivate := value; assert Contents() == was.(pniPrivate := value);
      case PniPublic => pniPublic := value; assert Contents() == was.(pniPublic := value);
      case PniServiceId => pniServiceId := value; assert Contents() == was.(pniServiceId := value);
    }

    /** The field assignment of `Account::set`, for the values that are parsed. */
    method AssignParsed(key: Key, value: Option<string>)
      requires key.DeviceId? || key.IsMultiDevice? || key.Registered? || key.Environment?
      modifies this
      ensures Contents() == SetField(old(Contents()), key, value)
    {
      hide DeviceOf, FlagOf, EnvironmentOf;
      ghost var was := Contents();
      match key
      case DeviceId => deviceId := DeviceOf(value); assert Contents() == was.(deviceId := DeviceOf(value));
      case IsMultiDevice => isMultiDevice := FlagOf(value); assert Contents() == was.(isMultiDevice := FlagOf(value));
      case Registered => registered := FlagOf(value); assert Contents() == was.(registered := FlagOf(value));
      case Environment => environment := EnvironmentOf(value);
        assert Contents() == was.(environment := EnvironmentOf(value));
    }

    /** The field assignment of `Account::set`, for the rest. */
    method AssignOther(key: Key, value: Option<string>)
      requires !IdentityKey(key)
      requires !(key.HostName? || key.DeviceId? || key.IsMultiDevice? || key.Registered? || key.Environment?)
      modifies this
      ensures Contents() == SetField(old(Contents()), key, value)
    {
      ghost var was := Contents();
      match key
      case EncryptedName => encryptedName := value; assert Contents() == was.(encryptedName := value);
      case Number => number := value; assert Contents() == was.(number := value);
      case Password => password := value; assert Contents() == was.(password := value);
      case PinMasterKey => pinMasterKey := value; assert Contents() == was.(pinMasterKey := value);
      case ProfileKey => profileKey := value; assert Contents() == was.(profileKey := value);
      case StorageKey => storageKey := value; assert Contents() == was.(storageKey := value);
      case Aep =>
      case RegistrationId =>
      case PniRegistrationId =>
      case LastReceive =>
      case ManifestVersion =>
      case Manifest =>
    }

    /** The sets of `done` lead from the given database and fields to the present ones. */
    ghost predicate Applied(was: Db, f: Fields, done: seq<Call>, io: Key -> Io)
      reads this, pddb
    {
      pddb.db == SetAll(was, dict, done, io) && Contents() == SetFields(f, done)
    }

    /** One step of a longer sequence of sets, `done` being those before it. */
    method SetNext(key: Key, value: Option<string>, io: Key -> Io, ghost was: Db, ghost f: Fields,
      ghost done: seq<Call>)
      returns (ghost next: seq<Call>)
      requires !key.HostName? && !Unwraps(key, value)
      requires Applied(was, f, done, io)
      modifies this, pddb
      ensures next == done + [Call(key, value)]
      ensures Applied(was, f, next, io)
    {
      hide SetKey, SetField;
      next := done + [Call(key, value)];
      OneMoreCall(was, dict, f, done, Call(key, value), io);
      var _ := SetValue(key, value, io(key));
    }

    /**
     `Account::link`. What comes before the first write (decoding the message, generating keys,
     the request to the server) is `prepared`; `io` and `saveIo` are the fates of the writes.
     */
    method Link(prepared: Result<LinkData, LinkError>, codecs: Stores.Codecs, generated: Prekeys.Generated,
      io: Key -> Io, saveIo: seq<Io>)
      returns (r: Result<bool, LinkError>)
      requires |saveIo| == 4
      modifies this, pddb
      ensures old(deviceId == 1 && (registered || (aciServiceId.Some? && password.Some?))) ==>
        r == Ok(false) && pddb.db == old(pddb.db) && Contents() == old(Contents())
      ensures !old(deviceId == 1 && (registered || (aciServiceId.Some? && password.Some?))) && prepared.Err? ==>
        r == Err(prepared.error) && pddb.db == old(pddb.db) && Contents() == old(Contents())
      ensures !old(deviceId == 1 && (registered || (aciServiceId.Some? && password.Some?))) && prepared.Ok? ==>
        var linked := SetAll(old(pddb.db), dict, LinkCalls(prepared.value), io);
        var saved := Prekeys.UntilError(linked, codecs, Prekeys.SaveOps(generated), saveIo);
        && pddb.db == saved.0
        && Contents() == SetFields(old(Contents()), LinkCalls(prepared.value))
        && r == if saved.1.Ok? then Ok(true) else Err(SaveFailed(saved.1.error))
    {
      if IsPrimaryDevice() {
        return Ok(false);
      }
      if prepared.Err? {
        return Err(prepared.error);
      }
      var x := prepared.value;
      assert Applied(pddb.db, Contents(), [], io);
      SetEachLinked(x, io, pddb.db, Contents());
      var saved := Prekeys.SaveToPddb(pddb, codecs, generated, saveIo);
      return if saved.Ok? then Ok(true) else Err(SaveFailed(saved.error));
    }

    /** The sets of `Account::link`, in order. */
    method SetEachLinked(x: LinkData, io: Key -> Io, ghost was: Db, ghost f: Fields)
      requires Applied(was, f, [], io)
      modifies this, pddb
      ensures Applied(was, f, LinkCalls(x), io)
    {
      hide Applied, Decimal.Print;
      ghost var done := SetLinkedIdentity(x, io, was, f);
      done := SetLinkedIds(x, io, was, f, done);
      done := SetNext(StorageKey, None, io, was, f, done);
      done := SetNext(LastReceive, Some("0"), io, was, f, done);
      done := SetNext(ManifestVersion, Some("-1"), io, was, f, done);
      done := SetNext(Manifest, None, io, was, f, done);
      done := SetNext(Registered, Some("true"), io, was, f, done);
      assert done == LinkCalls(x);
    }

    method SetLinkedIds(x: LinkData, io: Key -> Io, ghost was: Db, ghost f: Fields, ghost first: seq<Call>)
      returns (ghost done: seq<Call>)
      requires first == LinkCalls(x)[..12]
      requires Applied(was, f, first, io)
      modifies this, pddb
      ensures done == LinkCalls(x)[..|LinkCalls(x)| - 5]
      ensures Applied(was, f, done, io)
    {
      hide Applied, Decimal.Print;
      done := first;
      if x.aep.Some? {
        done := SetNext(Aep, x.aep, io, was, f, done);
      }
      done := SetNext(RegistrationId, Some(Decimal.Print(x.registrationId)), io, was, f, done);
      done := SetNext(PniRegistrationId, Some(Decimal.Print(x.pniRegistrationId)), io, was, f, done);
    }

    method SetLinkedIdentity(x: LinkData, io: Key -> Io, ghost was: Db, ghost f: Fields) returns (ghost done: seq<Call>)
      requires Applied(was, f, [], io)
      modifies this, pddb
      ensures done == LinkCalls(x)[..12]
      ensures Applied(was, f, done, io)
    {
      hide Applied, ParseDevice, Decimal.Print;
      AccountWrites.NumberIsShown(x.deviceId);
      done := [];
      done := SetNext(Password, Some(x.password), io, was, f, done);
      done := SetNext(DeviceId, Some(Decimal.Print(x.deviceId)), io, was, f, done);
      done := SetNext(AciPrivate, Some(x.aciPrivate), io, was, f, done);
      done := SetNext(AciPublic, Some(x.aciPublic), io, was, f, done);
      done := SetNext(AciServiceId, Some(x.aciServiceId), io, was, f, done);
      done := SetLinkedProfile(x, io, was, f, done);
    }

    method SetLinkedProfile(x: LinkData, io: Key -> Io, ghost was: Db, ghost f: Fields, ghost first: seq<Call>)
      returns (ghost done: seq<Call>)
      requires first == LinkCalls(x)[..5]
      requires Applied(was, f, first, io)
      modifies this, pddb
      ensures done == LinkCalls(x)[..12]
      ensures Applied(was, f, done, io)
    {
      hide Applied, Decimal.Print;
      done := first;
      done := SetNext(PniPrivate, Some(x.pniPrivate), io, was, f, done);
      done := SetNext(PniPublic, Some(x.pniPublic), io, was, f, done);
      done := SetNext(PniServiceId, Some(x.pniServiceId), io, was, f, done);
      done := SetNext(EncryptedName, Some(x.encryptedName), io, was, f, done);
      done := SetNext(IsMultiDevice, Some("true"), io, was, f, done);
      done := SetNext(Number, Some(x.number), io, was, f, done);
      done := SetNext(ProfileKey, Some(x.profileKey), io, was, f, done);
    }
  }

  /** `ReadAccount` with its six required keys spelled out. */
  lemma ReadByKey(db: Db, dict: string)
    ensures ReadAccount(db, dict) ==
      if ReadKey(db, dict, DeviceId).None? || ReadKey(db, dict, HostName).None?
         || ReadKey(db, dict, IsMultiDevice).None? || ReadKey(db, dict, Registered).None?
         || ReadKey(db, dict, Environment).None? || ReadKey(db, dict, ManifestVersion).None?
      then InvalidData
      else if ParseDevice(ReadKey(db, dict, DeviceId).value).None?
         || ParseBool(ReadKey(db, dict, IsMultiDevice).value).None?
         || ParseBool(ReadKey(db, dict, Registered).value).None?
         || ParseEnvironment(ReadKey(db, dict, Environment).value).None?
         || ParseI64(ReadKey(db, dict, ManifestVersion).value).None?
      then Panics
      else Loaded(Rebuild(db, dict))
  {
    hide ReadKey, ParseDevice, ParseBool, ParseEnvironment, ParseI64, Rebuild;
  }
}
