/** Creating and linking an account: what a read finds afterwards, and after a crash on the way. */
module AccountLink {
  import opened Base
  import opened PddbModel
  import opened AccountCache
  import opened AccountCalls
  import opened AccountWrites
  import Decimal

  lemma NewIsSeen(db: Db, dict: string, host: string, environment: ServiceEnvironment, j: nat, k: Key,
    value: Option<string>)
    requires Readable(Some(host)) && j < 20 && NewCalls(host, environment)[j] == Call(k, value)
    ensures ReadKey(SetAll(db, dict, NewCalls(host, environment), Healthy), dict, k) == value
  {
    var calls := NewCalls(host, environment);
    NewSetsOnce(host, environment);
    LiteralsAreShown();
    ReadableIsShown(host);
    hide SetAll, Shown, ReadKey, IsText;
    assert calls[..20] == calls;
    SeenAfter(db, dict, calls, 20, j);
  }

  lemma NewIsSeenFirst(db: Db, dict: string, host: string, environment: ServiceEnvironment)
    requires Readable(Some(host))
    ensures var after := SetAll(db, dict, NewCalls(host, environment), Healthy);
      && ReadKey(after, dict, AciPrivate) == None
      && ReadKey(after, dict, AciPublic) == None
      && ReadKey(after, dict, AciServiceId) == None
      && ReadKey(after, dict, DeviceId) == Some("0")
      && ReadKey(after, dict, EncryptedName) == None
      && ReadKey(after, dict, HostName) == Some(host)
      && ReadKey(after, dict, IsMultiDevice) == Some("false")
  {
    hide SetAll, Shown, ReadKey, IsText, Readable;
    NewIsSeen(db, dict, host, environment, 0, AciPrivate, None);
    NewIsSeen(db, dict, host, environment, 1, AciPublic, None);
    NewIsSeen(db, dict, host, environment, 2, AciServiceId, None);
    NewIsSeen(db, dict, host, environment, 3, DeviceId, Some("0"));
    NewIsSeen(db, dict, host, environment, 4, EncryptedName, None);
    NewIsSeen(db, dict, host, environment, 5, HostName, Some(host));
    NewIsSeen(db, dict, host, environment, 6, IsMultiDevice, Some("false"));
  }

  lemma NewIsSeenNext(db: Db, dict: string, host: string, environment: ServiceEnvironment)
    requires Readable(Some(host))
    ensures var after := SetAll(db, dict, NewCalls(host, environment), Healthy);
      && ReadKey(after, dict, Number) == None
      && ReadKey(after, dict, Password) == None
      && ReadKey(after, dict, PinMasterKey) == None
      && ReadKey(after, dict, PniPrivate) == None
      && ReadKey(after, dict, PniPublic) == None
      && ReadKey(after, dict, PniServiceId) == None
      && ReadKey(after, dict, ProfileKey) == None
  {
    hide SetAll, Shown, ReadKey, IsText, Readable;
    NewIsSeen(db, dict, host, environment, 7, Number, None);
    NewIsSeen(db, dict, host, environment, 8, Password, None);
    NewIsSeen(db, dict, host, environment, 9, PinMasterKey, None);
    NewIsSeen(db, dict, host, environment, 10, PniPrivate, None);
    NewIsSeen(db, dict, host, environment, 11, PniPublic, None);
    NewIsSeen(db, dict, host, environment, 12, PniServiceId, None);
    NewIsSeen(db, dict, host, environment, 13, ProfileKey, None);
  }

  lemma NewIsSeenLast(db: Db, dict: string, host: string, environment: ServiceEnvironment)
    requires Readable(Some(host))
    ensures var after := SetAll(db, dict, NewCalls(host, environment), Healthy);
      && ReadKey(after, dict, Registered) == Some("false")
      && ReadKey(after, dict, Environment) == Some(EnvironmentName(environment))
      && ReadKey(after, dict, StorageKey) == None
      && ReadKey(after, dict, LastReceive) == Some("0")
      && ReadKey(after, dict, ManifestVersion) == Some("-1")
      && ReadKey(after, dict, Manifest) == None
  {
    hide SetAll, Shown, ReadKey, IsText, Readable;
    NewIsSeen(db, dict, host, environment, 14, Registered, Some("false"));
    NewIsSeen(db, dict, host, environment, 15, Environment, Some(EnvironmentName(environment)));
    NewIsSeen(db, dict, host, environment, 16, StorageKey, None);
    NewIsSeen(db, dict, host, environment, 17, LastReceive, Some("0"));
    NewIsSeen(db, dict, host, environment, 18, ManifestVersion, Some("-1"));
    NewIsSeen(db, dict, host, environment, 19, Manifest, None);
  }

  /** A new account reads as the default one, whatever the dictionary held before. */
  lemma NewAccountReads(db: Db, dict: string, host: string, environment: ServiceEnvironment)
    requires Readable(Some(host))
    ensures ReadAccount(SetAll(db, dict, NewCalls(host, environment), Healthy), dict) ==
            Loaded(NewFields(host, environment))
  {
    hide SetAll, Shown, ReadKey, IsText, Readable, NewCalls;
    NewIsSeenFirst(db, dict, host, environment);
    NewIsSeenNext(db, dict, host, environment);
    NewIsSeenLast(db, dict, host, environment);
    NewRebuilds(SetAll(db, dict, NewCalls(host, environment), Healthy), dict, host, environment);
  }

  lemma NewRebuilds(db: Db, dict: string, host: string, environment: ServiceEnvironment)
    requires ReadKey(db, dict, AciPrivate) == None
    requires ReadKey(db, dict, AciPublic) == None
    requires ReadKey(db, dict, AciServiceId) == None
    requires ReadKey(db, dict, DeviceId) == Some("0")
    requires ReadKey(db, dict, EncryptedName) == None
    requires ReadKey(db, dict, HostName) == Some(host)
    requires ReadKey(db, dict, IsMultiDevice) == Some("false")
    requires ReadKey(db, dict, Number) == None
    requires ReadKey(db, dict, Password) == None
    requires ReadKey(db, dict, PinMasterKey) == None
    requires ReadKey(db, dict, PniPrivate) == None
    requires ReadKey(db, dict, PniPublic) == None
    requires ReadKey(db, dict, PniServiceId) == None
    requires ReadKey(db, dict, ProfileKey) == None
    requires ReadKey(db, dict, Registered) == Some("false")
    requires ReadKey(db, dict, Environment) == Some(EnvironmentName(environment))
    requires ReadKey(db, dict, StorageKey) == None
    requires ReadKey(db, dict, LastReceive) == Some("0")
    requires ReadKey(db, dict, ManifestVersion) == Some("-1")
    requires ReadKey(db, dict, Manifest) == None
    ensures ReadAccount(db, dict) == Loaded(NewFields(host, environment))
  {
    LiteralsAreShown();
    hide Shown, ReadKey, ParseI64, ParseDevice;
  }

  // ---- Linking ----------------------------------------------------------------

  /** All values of a link are read back as they were written. */
  predicate Fits(x: LinkData) {
    && Readable(Some(x.password)) && Readable(Some(x.aciPrivate)) && Readable(Some(x.aciPublic))
    && Readable(Some(x.aciServiceId)) && Readable(Some(x.pniPrivate)) && Readable(Some(x.pniPublic))
    && Readable(Some(x.pniServiceId)) && Readable(Some(x.encryptedName)) && Readable(Some(x.number))
    && Readable(Some(x.profileKey)) && Readable(x.aep)
  }

  /** An account that counts as registered has what a session needs. */
  predicate Usable(f: Fields, x: LinkData) {
    && f.password == Some(x.password) && f.deviceId == x.deviceId
    && f.aciPrivate == Some(x.aciPrivate) && f.aciPublic == Some(x.aciPublic) && f.aciServiceId.Some?
  }

  predicate Valid(x: LinkData, p: CrashPoint) {
    p.completed < |LinkCalls(x)|
  }

  /** What a read finds after a crash. */
  function ReadAtCrash(db: Db, dict: string, x: LinkData, p: CrashPoint): ReadOutcome
    requires Valid(x, p)
  {
    ReadAccount(CrashDb(db, dict, LinkCalls(x), p), dict)
  }

  /** After a crash, an account that counts as registered is usable. */
  predicate SafeAtCrash(db: Db, dict: string, x: LinkData, p: CrashPoint)
    requires Valid(x, p)
  {
    var r := ReadAtCrash(db, dict, x, p);
    r.Loaded? && r.fields.IsRegistered() ==> Usable(r.fields, x)
  }

  lemma DecidingCalls(x: LinkData)
    ensures var calls := LinkCalls(x);
      && |calls| >= 19
      && calls[0] == Call(Password, Some(x.password)) && calls[1] == Call(DeviceId, Some(Decimal.Print(x.deviceId)))
      && calls[2] == Call(AciPrivate, Some(x.aciPrivate)) && calls[3] == Call(AciPublic, Some(x.aciPublic))
      && calls[4] == Call(AciServiceId, Some(x.aciServiceId)) && calls[|calls| - 1] == Call(Registered, Some("true"))
  {
    hide Decimal.Print;
  }

  /** The keys that decide whether an account counts as registered, at a crash on the way. */
  lemma SeenMidLink(db: Db, dict: string, x: LinkData, p: CrashPoint)
    requires Fits(x) && Valid(x, p)
    ensures var at := CrashDb(db, dict, LinkCalls(x), p);
      && (p.completed > 0 ==> ReadKey(at, dict, Password) == Some(x.password))
      && (p.completed > 1 ==> ReadKey(at, dict, DeviceId) == Some(Decimal.Print(x.deviceId)))
      && (p.completed > 2 ==> ReadKey(at, dict, AciPrivate) == Some(x.aciPrivate))
      && (p.completed > 3 ==> ReadKey(at, dict, AciPublic) == Some(x.aciPublic))
      && ReadKey(at, dict, AciServiceId) ==
         (if p.completed > 4 then Some(x.aciServiceId)
          else if p.completed < 4 then ReadKey(db, dict, AciServiceId)
          else PartlyWritten(ReadKey(db, dict, AciServiceId), Some(x.aciServiceId), p.phase))
      && ReadKey(at, dict, Registered) ==
         (if p.completed < |LinkCalls(x)| - 1 then ReadKey(db, dict, Registered)
          else PartlyWritten(ReadKey(db, dict, Registered), Some("true"), p.phase))
  {
    var calls := LinkCalls(x);
    LinkSetsOnce(x);
    ReadableIsShown(x.password); ReadableIsShown(x.aciPrivate); ReadableIsShown(x.aciPublic);
    ReadableIsShown(x.aciServiceId); NumberIsShown(x.deviceId);
    hide CrashDb, ReadKey, PartlyWritten, Shown, Readable, Decimal.Print;
    DecidingCalls(x);
    hide LinkCalls;
    SeenAtCrash(db, dict, calls, p, 0);
    SeenAtCrash(db, dict, calls, p, 1);
    SeenAtCrash(db, dict, calls, p, 2);
    SeenAtCrash(db, dict, calls, p, 3);
    SeenAtCrash(db, dict, calls, p, 4);
    SeenAtCrash(db, dict, calls, p, |calls| - 1);
  }

  /** From an unlinked account on, a crash leaves no account that counts as registered and lacks its credentials. */
  lemma CrashIsSafe(db: Db, dict: string, x: LinkData, p: CrashPoint)
    requires Fits(x) && Valid(x, p)
    requires ReadKey(db, dict, Registered) != Some("true") && ReadKey(db, dict, AciServiceId) == None
    ensures SafeAtCrash(db, dict, x, p)
    ensures var r := ReadAtCrash(db, dict, x, p);
      r.Loaded? && r.fields.IsRegistered() ==> p.completed > 4 || (p.completed == 4 && p.phase.Written?)
  {
    hide CrashDb, ReadKey, Readable, Fits, ParseDevice, Shown, Decimal.Print, LinkCalls, Rebuild;
    DecidingCalls(x);
    SeenMidLink(db, dict, x, p);
    NumberIsShown(x.deviceId);
    var at := CrashDb(db, dict, LinkCalls(x), p);
    KeyFields(at, dict);
    if ReadAccount(at, dict).Loaded? {
      LoadedParses(at, dict, Registered);
    }
    hide ReadAccount;
  }

  lemma LinkIsSeen(db: Db, dict: string, x: LinkData, j: nat, k: Key, value: Option<string>)
    requires Fits(x) && j < |LinkCalls(x)| && LinkCalls(x)[j] == Call(k, value)
    ensures ReadKey(SetAll(db, dict, LinkCalls(x), Healthy), dict, k) == value
  {
    var calls := LinkCalls(x);
    LinkSetsOnce(x);
    LinkValuesAreShown(x, j);
    hide SetAll, Shown, ReadKey, IsText, LinkCalls;
    assert calls[..|calls|] == calls;
    SeenAfter(db, dict, calls, |calls|, j);
  }

  lemma LinkValuesAreShown(x: LinkData, j: nat)
    requires Fits(x) && j < |LinkCalls(x)|
    ensures WrittenAs(LinkCalls(x)[j].value) == LinkCalls(x)[j].value
  {
    hide Shown, IsText, Decimal.Print, ParseDevice, ParseI64;
    var value := LinkCalls(x)[j].value;
    LiteralsAreShown();
    NumberIsShown(x.deviceId); NumberIsShown(x.registrationId); NumberIsShown(x.pniRegistrationId);
    if value.Some? {
      ReadableIsShown(value.value);
    }
  }

  lemma LinkIsSeenFirst(db: Db, dict: string, x: LinkData)
    requires Fits(x)
    ensures var after := SetAll(db, dict, LinkCalls(x), Healthy);
      && ReadKey(after, dict, Password) == Some(x.password)
      && ReadKey(after, dict, DeviceId) == Some(Decimal.Print(x.deviceId))
      && ReadKey(after, dict, AciPrivate) == Some(x.aciPrivate)
      && ReadKey(after, dict, AciPublic) == Some(x.aciPublic)
      && ReadKey(after, dict, AciServiceId) == Some(x.aciServiceId)
      && ReadKey(after, dict, PniPrivate) == Some(x.pniPrivate)
      && ReadKey(after, dict, PniPublic) == Some(x.pniPublic)
      && ReadKey(after, dict, PniServiceId) == Some(x.pniServiceId)
      && ReadKey(after, dict, EncryptedName) == Some(x.encryptedName)
      && ReadKey(after, dict, IsMultiDevice) == Some("true")
      && ReadKey(after, dict, Number) == Some(x.number)
      && ReadKey(after, dict, ProfileKey) == Some(x.profileKey)
  {
    hide SetAll, ReadKey, Fits, Decimal.Print;
    LinkIsSeen(db, dict, x, 0, Password, Some(x.password));
    LinkIsSeen(db, dict, x, 1, DeviceId, Some(Decimal.Print(x.deviceId)));
    LinkIsSeen(db, dict, x, 2, AciPrivate, Some(x.aciPrivate));
    LinkIsSeen(db, dict, x, 3, AciPublic, Some(x.aciPublic));
    LinkIsSeen(db, dict, x, 4, AciServiceId, Some(x.aciServiceId));
    LinkIsSeen(db, dict, x, 5, PniPrivate, Some(x.pniPrivate));
    LinkIsSeen(db, dict, x, 6, PniPublic, Some(x.pniPublic));
    LinkIsSeen(db, dict, x, 7, PniServiceId, Some(x.pniServiceId));
    LinkIsSeen(db, dict, x, 8, EncryptedName, Some(x.encryptedName));
    LinkIsSeen(db, dict, x, 9, IsMultiDevice, Some("true"));
    LinkIsSeen(db, dict, x, 10, Number, Some(x.number));
    LinkIsSeen(db, dict, x, 11, ProfileKey, Some(x.profileKey));
  }

  lemma LinkIsSeenLast(db: Db, dict: string, x: LinkData)
    requires Fits(x)
    ensures var after := SetAll(db, dict, LinkCalls(x), Healthy);
      && ReadKey(after, dict, RegistrationId) == Some(Decimal.Print(x.registrationId))
      && ReadKey(after, dict, PniRegistrationId) == Some(Decimal.Print(x.pniRegistrationId))
      && ReadKey(after, dict, StorageKey) == None
      && ReadKey(after, dict, LastReceive) == Some("0")
      && ReadKey(after, dict, ManifestVersion) == Some("-1")
      && ReadKey(after, dict, Manifest) == None
      && ReadKey(after, dict, Registered) == Some("true")
  {
    hide SetAll, ReadKey, Fits, Decimal.Print;
    var n := |LinkCalls(x)|;
    LinkIsSeen(db, dict, x, n - 7, RegistrationId, Some(Decimal.Print(x.registrationId)));
    LinkIsSeen(db, dict, x, n - 6, PniRegistrationId, Some(Decimal.Print(x.pniRegistrationId)));
    LinkIsSeen(db, dict, x, n - 5, StorageKey, None);
    LinkIsSeen(db, dict, x, n - 4, LastReceive, Some("0"));
    LinkIsSeen(db, dict, x, n - 3, ManifestVersion, Some("-1"));
    LinkIsSeen(db, dict, x, n - 2, Manifest, None);
    LinkIsSeen(db, dict, x, n - 1, Registered, Some("true"));
  }

  lemma LinkKeeps(db: Db, dict: string, x: LinkData, io: Key -> Io, k: Key)
    requires k.HostName? || k.PinMasterKey? || k.Environment?
    ensures ReadKey(SetAll(db, dict, LinkCalls(x), io), dict, k) == ReadKey(db, dict, k)
  {
    LinkRanks(x);
    hide LinkCalls;
    KeyKeptBySets(db, dict, LinkCalls(x), io, k);
  }

  /** The keys that no field mirrors: both registration ids, and the account entropy pool where one was provisioned. */
  lemma UnmirroredAreLinked(db: Db, dict: string, x: LinkData)
    requires Fits(x)
    ensures var after := SetAll(db, dict, LinkCalls(x), Healthy);
      && ReadKey(after, dict, RegistrationId) == Some(Decimal.Print(x.registrationId))
      && ReadKey(after, dict, PniRegistrationId) == Some(Decimal.Print(x.pniRegistrationId))
      && ReadKey(after, dict, Aep) == if x.aep.Some? then x.aep else ReadKey(db, dict, Aep)
  {
    hide SetAll, ReadKey, Fits, Decimal.Print, LinkCalls;
    LinkIsSeenLast(db, dict, x);
    if x.aep.Some? {
      AepIsSeen(db, dict, x);
    } else {
      AepIsKept(x);
      KeyKeptBySets(db, dict, LinkCalls(x), Healthy, Aep);
    }
  }

  lemma AepIsSeen(db: Db, dict: string, x: LinkData)
    requires Fits(x) && x.aep.Some?
    ensures ReadKey(SetAll(db, dict, LinkCalls(x), Healthy), dict, Aep) == x.aep
  {
    hide SetAll, ReadKey, Fits, Decimal.Print;
    LinkIsSeen(db, dict, x, 12, Aep, x.aep);
  }

  lemma AepIsKept(x: LinkData)
    requires x.aep.None?
    ensures forall c :: c in LinkCalls(x) ==> c.key != Aep
  {
    LinkRanks(x);
    hide LinkCalls;
  }

  /** What a linked account reads as: the three values that linking leaves alone are those of `f`. */
  function LinkedFields(f: Fields, x: LinkData): Fields {
    Fields(
      Some(x.aciPrivate), Some(x.aciPublic), Some(x.aciServiceId), x.deviceId, Some(x.encryptedName), f.host, true,
      Some(x.number), Some(x.password), f.pinMasterKey, Some(x.pniPrivate), Some(x.pniPublic), Some(x.pniServiceId),
      Some(x.profileKey), true, f.environment, None, 0, -1, None)
  }

  /** After a whole link on healthy storage a read finds exactly what was linked. */
  lemma LinkedAccountReads(db: Db, dict: string, f: Fields, x: LinkData)
    requires Coherent(db, dict, f) && Fits(x)
    ensures ReadAccount(SetAll(db, dict, LinkCalls(x), Healthy), dict) == Loaded(LinkedFields(f, x))
  {
    LinkIsSeenFirst(db, dict, x);
    LinkIsSeenLast(db, dict, x);
    LinkKeeps(db, dict, x, Healthy, HostName);
    LinkKeeps(db, dict, x, Healthy, PinMasterKey);
    LinkKeeps(db, dict, x, Healthy, Environment);
    hide SetAll, LinkCalls;
    LinkRebuilds(db, SetAll(db, dict, LinkCalls(x), Healthy), dict, f, x);
  }

  lemma LinkRebuilds(db: Db, after: Db, dict: string, f: Fields, x: LinkData)
    requires Coherent(db, dict, f)
    requires ReadKey(after, dict, Password) == Some(x.password)
    requires ReadKey(after, dict, DeviceId) == Some(Decimal.Print(x.deviceId))
    requires ReadKey(after, dict, AciPrivate) == Some(x.aciPrivate)
    requires ReadKey(after, dict, AciPublic) == Some(x.aciPublic)
    requires ReadKey(after, dict, AciServiceId) == Some(x.aciServiceId)
    requires ReadKey(after, dict, PniPrivate) == Some(x.pniPrivate)
    requires ReadKey(after, dict, PniPublic) == Some(x.pniPublic)
    requires ReadKey(after, dict, PniServiceId) == Some(x.pniServiceId)
    requires ReadKey(after, dict, EncryptedName) == Some(x.encryptedName)
    requires ReadKey(after, dict, IsMultiDevice) == Some("true")
    requires ReadKey(after, dict, Number) == Some(x.number)
    requires ReadKey(after, dict, ProfileKey) == Some(x.profileKey)
    requires ReadKey(after, dict, RegistrationId) == Some(Decimal.Print(x.registrationId))
    requires ReadKey(after, dict, PniRegistrationId) == Some(Decimal.Print(x.pniRegistrationId))
    requires ReadKey(after, dict, StorageKey) == None
    requires ReadKey(after, dict, LastReceive) == Some("0")
    requires ReadKey(after, dict, ManifestVersion) == Some("-1")
    requires ReadKey(after, dict, Manifest) == None
    requires ReadKey(after, dict, Registered) == Some("true")
    requires ReadKey(after, dict, HostName) == ReadKey(db, dict, HostName)
    requires ReadKey(after, dict, PinMasterKey) == ReadKey(db, dict, PinMasterKey)
    requires ReadKey(after, dict, Environment) == ReadKey(db, dict, Environment)
    ensures ReadAccount(after, dict) == Loaded(LinkedFields(f, x))
  {
    NumberIsShown(x.deviceId);
    LiteralsAreShown();
    hide Shown, ReadKey, ParseI64, ParseDevice, Decimal.Print;
  }

  /** Storage after a link in which every write succeeds; a primary device returns before the first. */
  function StorageAfterLink(db: Db, dict: string, f: Fields, x: LinkData): Db {
    if f.IsPrimaryDevice() then db else SetAll(db, dict, LinkCalls(x), Healthy)
  }

  function MemoryAfterLink(f: Fields, x: LinkData): Fields {
    if f.IsPrimaryDevice() then f else SetFields(f, LinkCalls(x))
  }

  /**
   Linking updates neither timestamp nor manifest in memory, so afterwards memory is what a read
   would find exactly if these three had their initial values before, or the account is a primary
   device, which linking leaves alone.
   */
  lemma LinkStaysCoherentIff(db: Db, dict: string, f: Fields, x: LinkData)
    requires Coherent(db, dict, f) && Fits(x)
    ensures Coherent(StorageAfterLink(db, dict, f, x), dict, MemoryAfterLink(f, x)) <==>
              || (f.deviceId == 1 && (f.registered || (f.aciServiceId.Some? && f.password.Some?)))
              || (f.lastReceive == 0 && f.manifestVersion == -1 && f.manifest == None)
  {
    LinkedAccountReads(db, dict, f, x);
    LinkInMemory(db, dict, f, x);
    hide SetAll, SetFields, ReadAccount, LinkCalls;
  }

  /**
   A link leaves alone exactly the registered accounts whose device id is 1, and of any other
   coherent account a read afterwards finds what was linked.
   */
  lemma LinkLeavesPrimaryAlone(db: Db, dict: string, f: Fields, x: LinkData)
    requires Coherent(db, dict, f) && Fits(x)
    ensures if f.deviceId == 1 && (f.registered || (f.aciServiceId.Some? && f.password.Some?))
            then StorageAfterLink(db, dict, f, x) == db && MemoryAfterLink(f, x) == f
            else ReadAccount(StorageAfterLink(db, dict, f, x), dict) == Loaded(LinkedFields(f, x))
  {
    hide SetAll, SetFields, ReadAccount, LinkCalls, Fits, LinkedFields;
    LinkedAccountReads(db, dict, f, x);
  }

  lemma LinkInMemory(db: Db, dict: string, f: Fields, x: LinkData)
    requires Coherent(db, dict, f) && Fits(x)
    ensures SetFields(f, LinkCalls(x)) == WithStoreOf(LinkedFields(f, x), f)
  {
    var calls := LinkCalls(x);
    forall j: nat | j < |calls| ensures Settable(calls[j].key, calls[j].value) {
      LinkCallIsSettable(x, j);
    }
    hide LinkCalls, Settable;
    SetsKeepUpToStore(db, dict, f, calls);
    SetsKeepStore(f, calls);
    LinkedAccountReads(db, dict, f, x);
    hide SetAll, SetFields, ReadAccount, LinkCalls, Fits;
  }

  lemma LinkCallIsSettable(x: LinkData, j: nat)
    requires Fits(x) && j < |LinkCalls(x)|
    ensures Settable(LinkCalls(x)[j].key, LinkCalls(x)[j].value)
  {
    var c := LinkCalls(x)[j];
    LinkParsedKeys(x, j);
    LinkValuesAreShown(x, j);
    LiteralsAreShown();
    NumberIsShown(x.deviceId);
    hide Shown, Decimal.Print, ParseDevice, ParseI64, IsText, Fits, LinkCalls;
    if c.value.Some? {
      ReadableIsShown(c.value.value);
    }
  }

  lemma LinkParsedKeys(x: LinkData, j: nat)
    requires j < |LinkCalls(x)|
    ensures var c := LinkCalls(x)[j];
      && !c.key.HostName? && !c.key.Environment?
      && (c.key.DeviceId? ==> c.value == Some(Decimal.Print(x.deviceId)))
      && (c.key.IsMultiDevice? || c.key.Registered? ==> c.value == Some("true"))
      && (c.key.ManifestVersion? ==> c.value == Some("-1"))
  {
    hide Decimal.Print;
  }

  /** The fields that decide about registration, by key. */
  lemma KeyFields(db: Db, dict: string)
    ensures var f := Rebuild(db, dict);
      && f.password == ReadKey(db, dict, Password) && f.deviceId == DeviceOf(ReadKey(db, dict, DeviceId))
      && f.aciPrivate == ReadKey(db, dict, AciPrivate) && f.aciPublic == ReadKey(db, dict, AciPublic)
      && f.aciServiceId == ReadKey(db, dict, AciServiceId) && f.registered == FlagOf(ReadKey(db, dict, Registered))
  {
    hide ReadKey, DeviceOf, FlagOf;
  }

  lemma ParsesByKey(db: Db, dict: string)
    requires forall k :: k in REQUIRED ==> ReadKey(db, dict, k).Some? && Parses(k, ReadKey(db, dict, k).value)
    ensures ReadAccount(db, dict) == Loaded(Rebuild(db, dict))
  {
    hide Rebuild, ReadKey, Parses;
  }

  lemma LoadedParses(db: Db, dict: string, k: Key)
    requires ReadAccount(db, dict).Loaded? && k in REQUIRED
    ensures ReadAccount(db, dict) == Loaded(Rebuild(db, dict))
    ensures ReadKey(db, dict, k).Some? && Parses(k, ReadKey(db, dict, k).value)
  {
    hide Rebuild, ReadKey, Parses;
  }

  // ---- When a crash is safe ---------------------------------------------------

  lemma CrashAtFirstDelete(db: Db, dict: string, x: LinkData)
    ensures Valid(x, CrashPoint(0, Deleted))
    ensures CrashDb(db, dict, LinkCalls(x), CrashPoint(0, Deleted)) == SetKey(db, dict, Password, None, HEALTHY)
  {
    DecidingCalls(x);
    hide LinkCalls, SetKey;
    assert LinkCalls(x)[..0] == [];
  }

  lemma RelinkIsUnsafe(db: Db, dict: string, f: Fields, x: LinkData)
    requires Coherent(db, dict, f) && f.registered
    ensures Valid(x, CrashPoint(0, Deleted)) && !SafeAtCrash(db, dict, x, CrashPoint(0, Deleted))
  {
    hide Rebuild, SetKey, LinkCalls, CrashDb, ReadAccount, Valid, ReadKey;
    CrashAtFirstDelete(db, dict, x);
    SetKeepsCoherent(db, dict, f, Password, None);
  }

  lemma HalfLinkedIsUnsafe(db: Db, dict: string, f: Fields, x: LinkData)
    requires Coherent(db, dict, f) && f.aciServiceId.Some? && Fits(x) && x.deviceId != 0
    ensures Valid(x, CrashPoint(2, Deleted)) && !SafeAtCrash(db, dict, x, CrashPoint(2, Deleted))
  {
    hide CrashDb, ReadKey, Rebuild, Fits, ParseDevice, Shown, Decimal.Print, LinkCalls, IsText, Once, SetField;
    assert ReadAccount(db, dict) == Loaded(Rebuild(db, dict));
    hide ReadAccount;
    DecidingCalls(x);
    var p := CrashPoint(2, Deleted);
    var at := CrashDb(db, dict, LinkCalls(x), p);
    KeyFields(db, dict);
    SeenMidLink(db, dict, x, p);
    NumberIsShown(x.deviceId);
    LinkSetsOnce(x);
    SeenAtCrash(db, dict, LinkCalls(x), p, 2);
    hide Once;
    EarlyCrashLoads(db, dict, x, p);
    KeyFields(at, dict);
  }

  /** Once the device id is written and up to the service id, a read finds all it requires. */
  lemma EarlyCrashLoads(db: Db, dict: string, x: LinkData, p: CrashPoint)
    requires ReadAccount(db, dict).Loaded? && Fits(x) && 2 <= p.completed <= 4
    ensures Valid(x, p)
    ensures ReadAccount(CrashDb(db, dict, LinkCalls(x), p), dict) ==
            Loaded(Rebuild(CrashDb(db, dict, LinkCalls(x), p), dict))
  {
    hide CrashDb, ReadKey, ReadAccount, Rebuild, Fits, ParseDevice, Shown, Decimal.Print, LinkCalls, IsText;
    LinkRanks(x);
    var at := CrashDb(db, dict, LinkCalls(x), p);
    forall k | k in REQUIRED ensures ReadKey(at, dict, k).Some? && Parses(k, ReadKey(at, dict, k).value) {
      if k.DeviceId? {
        SeenMidLink(db, dict, x, p);
        NumberIsShown(x.deviceId);
      } else {
        LoadedParses(db, dict, k);
        LaterKeysUntouched(db, dict, x, p, k);
      }
    }
    ParsesByKey(at, dict);
  }

  /**
   Whether every crash point of a link is safe: exactly if the account is a primary device, for
   which linking writes nothing, or was not linked before, in that neither its flag was set nor it
   had a service id.
   */
  lemma CrashesAreSafeIff(db: Db, dict: string, f: Fields, x: LinkData)
    requires Coherent(db, dict, f) && Fits(x) && x.deviceId != 0
    ensures (forall p | !f.IsPrimaryDevice() && Valid(x, p) :: SafeAtCrash(db, dict, x, p)) <==>
            || (f.deviceId == 1 && (f.registered || (f.aciServiceId.Some? && f.password.Some?)))
            || (!f.registered && f.aciServiceId.None?)
  {
    assert f.aciServiceId == ReadKey(db, dict, AciServiceId) && f.registered == FlagOf(ReadKey(db, dict, Registered));
    hide ReadAccount, Rebuild, CrashDb, SafeAtCrash, Valid, LinkCalls, Fits, ReadKey;
    if f.registered {
      RelinkIsUnsafe(db, dict, f, x);
    } else if f.aciServiceId.Some? {
      HalfLinkedIsUnsafe(db, dict, f, x);
    } else {
      forall p | Valid(x, p) ensures SafeAtCrash(db, dict, x, p) {
        CrashIsSafe(db, dict, x, p);
      }
    }
  }

  /** The crash left a service id that ends inside a character. */
  predicate CutInCharacter(x: LinkData, p: CrashPoint) {
    p.completed == 4 && p.phase.Written? && !IsText(x.aciServiceId[..Min(p.phase.n, |x.aciServiceId|)])
  }

  predicate NotBefore(q: CrashPoint, p: CrashPoint) {
    || q.completed > p.completed
    || (q.completed == p.completed && (p.phase.Written? ==> q.phase.Written? && q.phase.n >= p.phase.n))
  }

  /**
   Once a read during a link finds an account that counts as registered, a later successful read,
   between two steps or in the middle of a write, loses it exactly if the write of the service id
   was cut inside a character.
   */
  lemma RegisteredStays(db: Db, dict: string, x: LinkData, p: CrashPoint, q: CrashPoint)
    requires Fits(x) && Valid(x, p) && Valid(x, q) && NotBefore(q, p) && x.deviceId != 0
    requires ReadKey(db, dict, Registered) != Some("true") && ReadKey(db, dict, AciServiceId) == None
    requires var r := ReadAtCrash(db, dict, x, p); r.Loaded? && r.fields.IsRegistered()
    ensures var r := ReadAtCrash(db, dict, x, q); r.Loaded? ==> (r.fields.IsRegistered() <==> !CutInCharacter(x, q))
  {
    hide CrashDb, ReadKey, Fits, ParseDevice, Decimal.Print, IsText, LinkCalls, Rebuild, ReadAccount, Valid,
      CutInCharacter;
    CrashIsSafe(db, dict, x, p);
    ServiceIdKeepsRegistered(db, dict, x, q);
  }

  /** From the creation of the service id on, an account that loads counts as registered if it has one that reads. */
  lemma ServiceIdKeepsRegistered(db: Db, dict: string, x: LinkData, q: CrashPoint)
    requires Fits(x) && Valid(x, q) && x.deviceId != 0
    requires ReadKey(db, dict, Registered) != Some("true")
    requires q.completed > 4 || (q.completed == 4 && q.phase.Written?)
    ensures var r := ReadAtCrash(db, dict, x, q); r.Loaded? ==> (r.fields.IsRegistered() <==> !CutInCharacter(x, q))
  {
    hide CrashDb, ReadKey, Fits, ParseDevice, Decimal.Print, IsText, LinkCalls, Rebuild;
    DecidingCalls(x);
    SeenMidLink(db, dict, x, q);
    NumberIsShown(x.deviceId);
    assert Readable(Some(x.aciServiceId)) by { FitsReadable(x); }
    if q.completed == 4 {
      PrefixIsShown(x.aciServiceId, Min(q.phase.n, |x.aciServiceId|));
    }
    hide Shown;
    var at := CrashDb(db, dict, LinkCalls(x), q);
    KeyFields(at, dict);
    if ReadAccount(at, dict).Loaded? {
      LoadedParses(at, dict, DeviceId);
    }
    hide ReadAccount;
  }

  /** A prefix of a value that fits reads back exactly if it does not end inside a character. */
  lemma PrefixIsShown(v: string, n: nat)
    requires Readable(Some(v)) && n <= |v|
    ensures Shown(v[..n]).Some? <==> IsText(v[..n])
    ensures IsText(v[..n]) ==> Shown(v[..n]) == Some(v[..n])
  {
    hide IsText;
    assert v[..n][..n] == v[..n];
  }

  lemma FitsReadable(x: LinkData)
    requires Fits(x)
    ensures Readable(Some(x.aciServiceId)) && Readable(Some(x.password))
    ensures Readable(Some(x.aciPrivate)) && Readable(Some(x.aciPublic))
  {
    hide Readable;
  }

  /**
   A new account that is being linked: every crash point is safe, and a link that completes leaves
   memory equal to storage.
   */
  lemma FreshLinkIsSafe(db: Db, dict: string, host: string, environment: ServiceEnvironment, x: LinkData, p: CrashPoint)
    requires Readable(Some(host)) && Fits(x) && Valid(x, p)
    ensures var begun := SetAll(db, dict, NewCalls(host, environment), Healthy);
      var f := SetFields(NewFields(host, environment), LinkCalls(x));
      && SafeAtCrash(begun, dict, x, p)
      && Coherent(SetAll(begun, dict, LinkCalls(x), Healthy), dict, f)
  {
    hide SetAll, NewCalls, LinkCalls, ReadKey, Rebuild, ReadAccount, SafeAtCrash, Fits, Valid, SetFields, Readable;
    var begun := SetAll(db, dict, NewCalls(host, environment), Healthy);
    NewAccountReads(db, dict, host, environment);
    LoadedParses(begun, dict, Registered);
    KeyFields(begun, dict);
    CrashIsSafe(begun, dict, x, p);
    LinkStaysCoherentIff(begun, dict, NewFields(host, environment), x);
  }

  /** The service id is created before it is written: in between, the account counts as registered with an empty one. */
  lemma EmptyServiceIdCounts(db: Db, dict: string, f: Fields, x: LinkData)
    requires Coherent(db, dict, f) && Fits(x) && x.deviceId != 0
    requires !f.registered && f.aciServiceId.None?
    ensures var r := ReadAccount(CrashDb(db, dict, LinkCalls(x), CrashPoint(4, Written(0))), dict);
      r.Loaded? && r.fields.IsRegistered() && r.fields.aciServiceId == Some("")
  {
    hide CrashDb, ReadKey, Rebuild, Fits, ParseDevice, Decimal.Print, LinkCalls, IsText;
    var p := CrashPoint(4, Written(0));
    DecidingCalls(x);
    var at := CrashDb(db, dict, LinkCalls(x), p);
    assert ReadAccount(db, dict).Loaded?;
    hide ReadAccount;
    KeyFields(db, dict);
    SeenMidLink(db, dict, x, p);
    ShortIsShown("");
    assert x.aciServiceId[..0] == "";
    NumberIsShown(x.deviceId);
    EarlyCrashLoads(db, dict, x, p);
    KeyFields(at, dict);
  }

  lemma LaterKeysUntouched(db: Db, dict: string, x: LinkData, p: CrashPoint, k: Key)
    requires p.completed <= 4 && p.completed < Rank(k)
    ensures Valid(x, p)
    ensures ReadKey(CrashDb(db, dict, LinkCalls(x), p), dict, k) == ReadKey(db, dict, k)
  {
    var calls := LinkCalls(x);
    LinkRanks(x);
    hide LinkCalls, ReadKey, SetKey;
    KeyKeptBySets(db, dict, calls[..p.completed], Healthy, k);
    var before, c := SetAll(db, dict, calls[..p.completed], Healthy), calls[p.completed];
    OtherKeysKept(before, dict, c.key, None, HEALTHY, k);
    if p.phase.Written? {
      OtherKeysKept(before, dict, c.key, c.value, Io(false, false, Torn(p.phase.n)), k);
    }
  }

  predicate WroteAll(fate: WriteFate, value: string) {
    fate.Complete? || (fate.Torn? && fate.n >= |value|)
  }

  /** What a failing write leaves is the whole value exactly if all of it was written. */
  lemma FatedIff(value: string, fate: WriteFate)
    requires Readable(Some(value))
    ensures Fated(Some(value), fate) == Some(value) <==> WroteAll(fate, value)
  {
    ReadableIsShown(value);
    if fate.Torn? {
      var part := value[..Min(fate.n, |value|)];
      if fate.n >= |value| {
        assert part == value;
      } else {
        hide IsText;
      }
    }
  }

  /** Some of the value was written. */
  predicate WroteSome(fate: WriteFate) {
    fate.Complete? || (fate.Torn? && fate.n > 0)
  }

  /** The key exists and its content ends on a character boundary. */
  predicate LeavesText(fate: WriteFate, value: string) {
    fate.Complete? || (fate.Torn? && IsText(value[..Min(fate.n, |value|)]))
  }

  lemma FatedTextIff(value: string, fate: WriteFate)
    requires Readable(Some(value))
    ensures Fated(Some(value), fate).Some? <==> LeavesText(fate, value)
  {
    ReadableIsShown(value);
    if fate.Torn? {
      PrefixIsShown(value, Min(fate.n, |value|));
    }
  }

  /** A `true` of which not all was written does not parse. */
  lemma FatedFlag(fate: WriteFate)
    ensures var v := Fated(Some("true"), fate);
      && (v.Some? && ParseBool(v.value).Some? <==> WroteAll(fate, "true"))
      && (WroteAll(fate, "true") ==> FlagOf(v))
  {
    hide Shown;
    LiteralsAreShown();
    if fate.Torn? {
      ShortIsShown("true"[..Min(fate.n, 4)]);
      assert fate.n < 4 ==> |"true"[..fate.n]| < 4;
    }
    hide ParseI64, ParseDevice;
  }

  lemma CutVersionParsesToNone()
    ensures ParseI64("") == None && ParseI64("-") == None
  {
  }

  /** Nor does a `-1`. */
  lemma FatedVersion(fate: WriteFate)
    ensures var v := Fated(Some("-1"), fate);
      v.Some? && ParseI64(v.value).Some? <==> WroteAll(fate, "-1")
  {
    hide Shown, ParseI64;
    LiteralsAreShown();
    CutVersionParsesToNone();
    ShortIsShown("");
    ShortIsShown("-");
    assert "-1"[..0] == "" && "-1"[..1] == "-" && "-1"[..2] == "-1";
    hide ParseDevice;
  }

  /** A device number of which some digits were written parses, and as itself exactly if all were. */
  lemma FatedDevice(device: u32, fate: WriteFate)
    ensures var v := Fated(Some(Decimal.Print(device)), fate);
      && (v.Some? && ParseDevice(v.value).Some? <==> WroteSome(fate))
      && (WroteSome(fate) ==> (DeviceOf(v) == device <==> WroteAll(fate, Decimal.Print(device))))
  {
    var digits := Decimal.Print(device);
    NumberIsShown(device);
    PrintIsShort(device, 10);
    if fate.Torn? {
      var k := Min(fate.n, |digits|);
      ShortIsShown(digits[..k]);
      if k > 0 {
        Decimal.PrefixIsTruncated(device, k);
        NumberIsShown(Decimal.Truncated(device, k));
        assert k == |digits| ==> Decimal.Truncated(device, k) == device;
      }
    }
    hide Shown, Decimal.Print, Decimal.Truncated;
  }

  /**
   `set` reports no failed write, so linking goes on after one. Whatever the writes do, a read then
   succeeds exactly if flags and version were written in full and the device id in part. The
   account it finds counts as registered, and it is usable exactly if password, device id and both
   identity keys were written in full and the service id up to a character boundary.
   */
  lemma LinkedUsableIff(db: Db, dict: string, f: Fields, x: LinkData, io: Key -> Io)
    requires Coherent(db, dict, f) && Fits(x) && forall k: Key :: !io(k).deleteFails
    ensures var r := ReadAccount(SetAll(db, dict, LinkCalls(x), io), dict);
      && (r.Loaded? <==>
            && WroteAll(io(IsMultiDevice).write, "true") && WroteAll(io(Registered).write, "true")
            && WroteAll(io(ManifestVersion).write, "-1") && WroteSome(io(DeviceId).write))
      && (r.Loaded? ==>
            && r.fields.IsRegistered()
            && (Usable(r.fields, x) <==>
                  && WroteAll(io(Password).write, x.password)
                  && WroteAll(io(DeviceId).write, Decimal.Print(x.deviceId))
                  && WroteAll(io(AciPrivate).write, x.aciPrivate) && WroteAll(io(AciPublic).write, x.aciPublic)
                  && LeavesText(io(AciServiceId).write, x.aciServiceId)))
  {
    hide Fits, Shown, Fated, Decimal.Print, SetAll, LinkCalls, ReadKey, WroteAll, WroteSome, LeavesText;
    hide ParseI64, ParseDevice, ParseBool, Rebuild, Readable;
    var after := SetAll(db, dict, LinkCalls(x), io);
    assert ReadAccount(db, dict).Loaded?;
    hide ReadAccount;
    FatedLink(db, dict, x, io);
    FitsReadable(x);
    FatedIff(x.password, io(Password).write);
    FatedIff(x.aciPrivate, io(AciPrivate).write);
    FatedIff(x.aciPublic, io(AciPublic).write);
    FatedTextIff(x.aciServiceId, io(AciServiceId).write);
    FatedDevice(x.deviceId, io(DeviceId).write);
    FatedFlag(io(Registered).write);
    KeyFields(after, dict);
    FatedLinkLoadsIff(db, dict, x, io);
  }

  lemma FatedLinkLoadsIff(db: Db, dict: string, x: LinkData, io: Key -> Io)
    requires ReadAccount(db, dict).Loaded? && Fits(x) && forall k: Key :: !io(k).deleteFails
    ensures var r := ReadAccount(SetAll(db, dict, LinkCalls(x), io), dict);
      && (r.Loaded? ==> r.fields == Rebuild(SetAll(db, dict, LinkCalls(x), io), dict))
      && (r.Loaded? <==>
            && WroteAll(io(IsMultiDevice).write, "true") && WroteAll(io(Registered).write, "true")
            && WroteAll(io(ManifestVersion).write, "-1") && WroteSome(io(DeviceId).write))
  {
    hide Fits, Shown, Fated, Decimal.Print, SetAll, LinkCalls, ReadKey, WroteAll, WroteSome, Rebuild, ReadAccount;
    hide ParseI64, ParseDevice, ParseBool;
    var after := SetAll(db, dict, LinkCalls(x), io);
    FatedLink(db, dict, x, io);
    FatedFlag(io(IsMultiDevice).write);
    FatedFlag(io(Registered).write);
    FatedVersion(io(ManifestVersion).write);
    FatedDevice(x.deviceId, io(DeviceId).write);
    LinkKeeps(db, dict, x, io, HostName);
    LinkKeeps(db, dict, x, io, Environment);
    LoadedParses(db, dict, HostName);
    LoadedParses(db, dict, Environment);
    LoadsIff(after, dict);
  }

  /** A read succeeds exactly if the six required keys are there and parse. */
  lemma LoadsIff(db: Db, dict: string)
    ensures ReadAccount(db, dict).Loaded? <==>
      && Present(db, dict, DeviceId) && Present(db, dict, HostName) && Present(db, dict, IsMultiDevice)
      && Present(db, dict, Registered) && Present(db, dict, Environment) && Present(db, dict, ManifestVersion)
    ensures ReadAccount(db, dict).Loaded? ==> ReadAccount(db, dict).fields == Rebuild(db, dict)
  {
    hide ReadKey, Parses, Rebuild;
  }

  predicate Present(db: Db, dict: string, k: Key) {
    ReadKey(db, dict, k).Some? && Parses(k, ReadKey(db, dict, k).value)
  }

  lemma RequiredCalls(x: LinkData)
    ensures var calls, n := LinkCalls(x), |LinkCalls(x)|;
      && n >= 19 && calls[9] == Call(IsMultiDevice, Some("true")) && calls[n - 3] == Call(ManifestVersion, Some("-1"))
  {
    hide Decimal.Print;
  }

  lemma FatedLink(db: Db, dict: string, x: LinkData, io: Key -> Io)
    requires forall k: Key :: !io(k).deleteFails
    ensures var after := SetAll(db, dict, LinkCalls(x), io);
      && ReadKey(after, dict, Password) == Fated(Some(x.password), io(Password).write)
      && ReadKey(after, dict, DeviceId) == Fated(Some(Decimal.Print(x.deviceId)), io(DeviceId).write)
      && ReadKey(after, dict, AciPrivate) == Fated(Some(x.aciPrivate), io(AciPrivate).write)
      && ReadKey(after, dict, AciPublic) == Fated(Some(x.aciPublic), io(AciPublic).write)
      && ReadKey(after, dict, AciServiceId) == Fated(Some(x.aciServiceId), io(AciServiceId).write)
      && ReadKey(after, dict, IsMultiDevice) == Fated(Some("true"), io(IsMultiDevice).write)
      && ReadKey(after, dict, ManifestVersion) == Fated(Some("-1"), io(ManifestVersion).write)
      && ReadKey(after, dict, Registered) == Fated(Some("true"), io(Registered).write)
  {
    hide Fated, SetAll, ReadKey, Decimal.Print, LinkCalls;
    var calls, n := LinkCalls(x), |LinkCalls(x)|;
    LinkSetsOnce(x);
    DecidingCalls(x);
    RequiredCalls(x);
    FatedAfter(db, dict, calls, io, 0);
    FatedAfter(db, dict, calls, io, 1);
    FatedAfter(db, dict, calls, io, 2);
    FatedAfter(db, dict, calls, io, 3);
    FatedAfter(db, dict, calls, io, 4);
    FatedAfter(db, dict, calls, io, 9);
    FatedAfter(db, dict, calls, io, n - 3);
    FatedAfter(db, dict, calls, io, n - 1);
  }

  // ---- Links during which deletes fail too ------------------------------------

  /** What a key reads as after a link that set it to `v`. */
  function SeenAfterLink(db: Db, dict: string, k: Key, v: string, io: Key -> Io): Option<string> {
    SeenAfterSet(Stored(db, dict, k), Some(v), io(k))
  }

  predicate ReadsAs(k: Key, seen: Option<string>) {
    seen.Some? && Parses(k, seen.value)
  }

  lemma LinkLeaves(db: Db, dict: string, x: LinkData, io: Key -> Io)
    ensures var after := SetAll(db, dict, LinkCalls(x), io);
      && ReadKey(after, dict, Password) == SeenAfterLink(db, dict, Password, x.password, io)
      && ReadKey(after, dict, DeviceId) == SeenAfterLink(db, dict, DeviceId, Decimal.Print(x.deviceId), io)
      && ReadKey(after, dict, AciPrivate) == SeenAfterLink(db, dict, AciPrivate, x.aciPrivate, io)
      && ReadKey(after, dict, AciPublic) == SeenAfterLink(db, dict, AciPublic, x.aciPublic, io)
      && ReadKey(after, dict, AciServiceId) == SeenAfterLink(db, dict, AciServiceId, x.aciServiceId, io)
      && ReadKey(after, dict, IsMultiDevice) == SeenAfterLink(db, dict, IsMultiDevice, "true", io)
      && ReadKey(after, dict, ManifestVersion) == SeenAfterLink(db, dict, ManifestVersion, "-1", io)
      && ReadKey(after, dict, Registered) == SeenAfterLink(db, dict, Registered, "true", io)
  {
    hide SeenAfterSet, SetAll, ReadKey, Decimal.Print, LinkCalls, Stored;
    var calls, n := LinkCalls(x), |LinkCalls(x)|;
    LinkSetsOnce(x);
    DecidingCalls(x);
    RequiredCalls(x);
    LeftAfter(db, dict, calls, io, 0);
    LeftAfter(db, dict, calls, io, 1);
    LeftAfter(db, dict, calls, io, 2);
    LeftAfter(db, dict, calls, io, 3);
    LeftAfter(db, dict, calls, io, 4);
    LeftAfter(db, dict, calls, io, 9);
    LeftAfter(db, dict, calls, io, n - 3);
    LeftAfter(db, dict, calls, io, n - 1);
  }

  lemma LoadsAfterLinkIff(db: Db, dict: string, x: LinkData, io: Key -> Io)
    requires ReadAccount(db, dict).Loaded?
    ensures var r := ReadAccount(SetAll(db, dict, LinkCalls(x), io), dict);
      && (r.Loaded? ==> r.fields == Rebuild(SetAll(db, dict, LinkCalls(x), io), dict))
      && (r.Loaded? <==>
            && ReadsAs(DeviceId, SeenAfterLink(db, dict, DeviceId, Decimal.Print(x.deviceId), io))
            && ReadsAs(IsMultiDevice, SeenAfterLink(db, dict, IsMultiDevice, "true", io))
            && ReadsAs(ManifestVersion, SeenAfterLink(db, dict, ManifestVersion, "-1", io))
            && ReadsAs(Registered, SeenAfterLink(db, dict, Registered, "true", io)))
  {
    hide Decimal.Print, SetAll, LinkCalls, ReadKey, Rebuild, ReadAccount, SeenAfterLink, Parses;
    LinkLeaves(db, dict, x, io);
    LinkKeeps(db, dict, x, io, HostName);
    LinkKeeps(db, dict, x, io, Environment);
    LoadedParses(db, dict, HostName);
    LoadedParses(db, dict, Environment);
    LoadsIff(SetAll(db, dict, LinkCalls(x), io), dict);
  }

  /**
   Whatever storage does to the deletes and writes of a link: a read then succeeds exactly if what
   is left of device id, flags and version parses; the account counts as registered exactly if what
   is left of the flag is true, or of device id, service id and password is there; and it is usable
   exactly if password and identity keys landed, the device id is the assigned one, and there is a
   service id.
   */
  lemma AnyLinkUsableIff(db: Db, dict: string, f: Fields, x: LinkData, io: Key -> Io)
    requires Coherent(db, dict, f) && Fits(x)
    ensures var r := ReadAccount(SetAll(db, dict, LinkCalls(x), io), dict);
      var device := SeenAfterLink(db, dict, DeviceId, Decimal.Print(x.deviceId), io);
      var service := SeenAfterLink(db, dict, AciServiceId, x.aciServiceId, io);
      var flag := SeenAfterLink(db, dict, Registered, "true", io);
      && (r.Loaded? <==>
            && ReadsAs(DeviceId, device) && ReadsAs(Registered, flag)
            && ReadsAs(IsMultiDevice, SeenAfterLink(db, dict, IsMultiDevice, "true", io))
            && ReadsAs(ManifestVersion, SeenAfterLink(db, dict, ManifestVersion, "-1", io)))
      && (r.Loaded? ==>
            && (r.fields.IsRegistered() <==>
                  || flag == Some("true")
                  || (DeviceOf(device) != 0 && service.Some?
                      && SeenAfterLink(db, dict, Password, x.password, io).Some?))
            && (Usable(r.fields, x) <==>
                  && Lands(Stored(db, dict, Password), x.password, io(Password))
                  && Lands(Stored(db, dict, AciPrivate), x.aciPrivate, io(AciPrivate))
                  && Lands(Stored(db, dict, AciPublic), x.aciPublic, io(AciPublic))
                  && DeviceOf(device) == x.deviceId && service.Some?))
  {
    FitsReadable(x);
    hide Fits, Decimal.Print, SetAll, LinkCalls, ReadKey, Rebuild, Stored, SeenAfterSet, Lands, DeviceOf, Parses,
      IsText;
    assert ReadAccount(db, dict).Loaded?;
    hide ReadAccount;
    LoadsAfterLinkIff(db, dict, x, io);
    LinkLeaves(db, dict, x, io);
    KeyFields(SetAll(db, dict, LinkCalls(x), io), dict);
    LandsIff(Stored(db, dict, Password), x.password, io(Password));
    LandsIff(Stored(db, dict, AciPrivate), x.aciPrivate, io(AciPrivate));
    LandsIff(Stored(db, dict, AciPublic), x.aciPublic, io(AciPublic));
  }
}
