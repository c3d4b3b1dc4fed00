/**
 What is stored after some of a sequence of `Account::set` calls, and the calls of `Account::new` and
 `Account::link`.
 */
module AccountCalls {
  import opened Base
  import opened PddbModel
  import opened AccountCache
  import Decimal

  /** No key is set twice. */
  ghost predicate Once(calls: seq<Call>) {
    forall i, j :: 0 <= i < j < |calls| ==> calls[i].key != calls[j].key
  }

  function WrittenAs(value: Option<string>): Option<string> {
    if value.Some? then Shown(value.value) else None
  }

  lemma {:induction false} KeyKeptBySets(db: Db, dict: string, calls: seq<Call>, io: Key -> Io, k: Key)
    requires forall c :: c in calls ==> c.key != k
    ensures ReadKey(SetAll(db, dict, calls, io), dict, k) == ReadKey(db, dict, k)
  {
    hide SetKey, ReadKey;
    if calls != [] {
      var n := |calls| - 1;
      KeyKeptBySets(db, dict, calls[..n], io, k);
      OtherKeysKept(SetAll(db, dict, calls[..n], io), dict, calls[n].key, calls[n].value, io(calls[n].key), k);
    }
  }

  /** After the first `i` calls the keys of these have their new values and the others their old ones. */
  lemma {:induction false} SeenAfter(db: Db, dict: string, calls: seq<Call>, i: nat, j: nat)
    requires Once(calls) && i <= |calls| && j < |calls|
    ensures ReadKey(SetAll(db, dict, calls[..i], Healthy), dict, calls[j].key) ==
            if j < i then WrittenAs(calls[j].value) else ReadKey(db, dict, calls[j].key)
  {
    hide SetKey, ReadKey;
    if j >= i {
      KeyKeptBySets(db, dict, calls[..i], Healthy, calls[j].key);
    } else {
      assert calls[..i][..i - 1] == calls[..i - 1];
      var before := SetAll(db, dict, calls[..i - 1], Healthy);
      ReadAfterSet(before, dict, calls[i - 1].key, calls[i - 1].value, calls[j].key);
      if j < i - 1 {
        SeenAfter(db, dict, calls, i - 1, j);
      }
    }
  }

  /** What a value reads as after a write that went like this, the old value having been deleted. */
  function Fated(value: Option<string>, fate: WriteFate): Option<string> {
    if value.None? then None
    else match fate
      case NotCreated => None
      case Torn(n) => Shown(value.value[..Min(n, |value.value|)])
      case Complete => Shown(value.value)
  }

  lemma FatedSet(db: Db, dict: string, k: Key, value: Option<string>, io: Io)
    requires !io.deleteFails
    ensures ReadKey(SetKey(db, dict, k, value, io), dict, k) == Fated(value, io.write)
  {
    hide Shown, Name;
    if value.Some? {
      assert Overwrite("", value.value) == value.value;
      if io.write.Torn? {
        var part := value.value[..Min(io.write.n, |value.value|)];
        assert Overwrite("", part) == part;
      }
    }
  }

  /** With failing writes, the keys have what their own write left of them. */
  lemma {:induction false} FatedAfter(db: Db, dict: string, calls: seq<Call>, io: Key -> Io, j: nat)
    requires Once(calls) && j < |calls| && !io(calls[j].key).deleteFails
    ensures ReadKey(SetAll(db, dict, calls, io), dict, calls[j].key) == Fated(calls[j].value, io(calls[j].key).write)
  {
    hide SetKey, ReadKey, Fated;
    var n := |calls| - 1;
    var before := SetAll(db, dict, calls[..n], io);
    if j < n {
      FatedAfter(db, dict, calls[..n], io, j);
      OtherKeysKept(before, dict, calls[n].key, calls[n].value, io(calls[n].key), calls[j].key);
    } else {
      FatedSet(before, dict, calls[n].key, calls[n].value, io(calls[n].key));
    }
  }

  // ---- Crashes ----------------------------------------------------------------

  /** How far a single `set` came: nothing, the delete, or the delete and `n` bytes of the value. */
  datatype Phase = Untouched | Deleted | Written(n: nat)

  datatype CrashPoint = CrashPoint(completed: nat, phase: Phase)

  function CrashDb(db: Db, dict: string, calls: seq<Call>, p: CrashPoint): Db
    requires p.completed < |calls|
  {
    var before, c := SetAll(db, dict, calls[..p.completed], Healthy), calls[p.completed];
    match p.phase
    case Untouched => before
    case Deleted => SetKey(before, dict, c.key, None, HEALTHY)
    case Written(n) => SetKey(before, dict, c.key, c.value, Io(false, false, Torn(n)))
  }

  /** What the key being set reads as at the crash. */
  function PartlyWritten(was: Option<string>, value: Option<string>, phase: Phase): Option<string> {
    match phase
    case Untouched => was
    case Deleted => None
    case Written(n) => if value.Some? then Shown(value.value[..Min(n, |value.value|)]) else None
  }

  lemma SeenAtCrash(db: Db, dict: string, calls: seq<Call>, p: CrashPoint, j: nat)
    requires Once(calls) && p.completed < |calls| && j < |calls|
    ensures ReadKey(CrashDb(db, dict, calls, p), dict, calls[j].key) ==
            if j < p.completed then WrittenAs(calls[j].value)
            else if j > p.completed then ReadKey(db, dict, calls[j].key)
            else PartlyWritten(ReadKey(db, dict, calls[j].key), calls[j].value, p.phase)
  {
    hide Shown;
    SeenAfter(db, dict, calls, p.completed, j);
    var before, c := SetAll(db, dict, calls[..p.completed], Healthy), calls[p.completed];
    if j == p.completed {
      if p.phase.Written? && c.value.Some? {
        var part := c.value.value[..Min(p.phase.n, |c.value.value|)];
        assert Overwrite("", part) == part;
      }
    } else if !p.phase.Untouched? {
      hide SetKey, ReadKey;
      OtherKeysKept(before, dict, c.key, None, HEALTHY, calls[j].key);
      if p.phase.Written? {
        OtherKeysKept(before, dict, c.key, c.value, Io(false, false, Torn(p.phase.n)), calls[j].key);
      }
    }
  }

  // ---- Creation ---------------------------------------------------------------

  function EnvironmentName(e: ServiceEnvironment): string {
    match e case Live => "Live" case Staging => "Staging"
  }

  function NewCalls(host: string, environment: ServiceEnvironment): seq<Call> {
    [Call(AciPrivate, None), Call(AciPublic, None), Call(AciServiceId, None), Call(DeviceId, Some("0")),
     Call(EncryptedName, None), Call(HostName, Some(host)), Call(IsMultiDevice, Some("false")), Call(Number, None),
     Call(Password, None), Call(PinMasterKey, None), Call(PniPrivate, None), Call(PniPublic, None),
     Call(PniServiceId, None), Call(ProfileKey, None), Call(Registered, Some("false")),
     Call(Environment, Some(EnvironmentName(environment))), Call(StorageKey, None), Call(LastReceive, Some("0")),
     Call(ManifestVersion, Some("-1")), Call(Manifest, None)]
  }

  function NewFields(host: string, environment: ServiceEnvironment): Fields {
    Fields(None, None, None, 0, None, host, false, None, None, None, None, None, None, None, false, environment, None,
      0, -1, None)
  }

  // ---- Linking ----------------------------------------------------------------

  /** What a link stores: from the provisioning message, the server's answer and the random generator. */
  datatype LinkData = LinkData(
    password: string, deviceId: u32,
    aciPrivate: string, aciPublic: string, aciServiceId: string,
    pniPrivate: string, pniPublic: string, pniServiceId: string,
    encryptedName: string, number: string, profileKey: string, aep: Option<string>,
    registrationId: u32, pniRegistrationId: u32)

  function LinkCalls(x: LinkData): seq<Call> {
    [Call(Password, Some(x.password)), Call(DeviceId, Some(Decimal.Print(x.deviceId))),
     Call(AciPrivate, Some(x.aciPrivate)), Call(AciPublic, Some(x.aciPublic)), Call(AciServiceId, Some(x.aciServiceId)),
     Call(PniPrivate, Some(x.pniPrivate)), Call(PniPublic, Some(x.pniPublic)), Call(PniServiceId, Some(x.pniServiceId)),
     Call(EncryptedName, Some(x.encryptedName)), Call(IsMultiDevice, Some("true")), Call(Number, Some(x.number)),
     Call(ProfileKey, Some(x.profileKey))]
    + (if x.aep.Some? then [Call(Aep, x.aep)] else [])
    + [Call(RegistrationId, Some(Decimal.Print(x.registrationId))),
       Call(PniRegistrationId, Some(Decimal.Print(x.pniRegistrationId))), Call(StorageKey, None),
       Call(LastReceive, Some("0")), Call(ManifestVersion, Some("-1")), Call(Manifest, None),
       Call(Registered, Some("true"))]
  }

  /** The place of a key in the order of linking. */
  function Rank(k: Key): int {
    match k
    case Password => 0 case DeviceId => 1 case AciPrivate => 2 case AciPublic => 3 case AciServiceId => 4
    case PniPrivate => 5 case PniPublic => 6 case PniServiceId => 7 case EncryptedName => 8 case IsMultiDevice => 9
    case Number => 10 case ProfileKey => 11 case Aep => 12 case RegistrationId => 13 case PniRegistrationId => 14
    case StorageKey => 15 case LastReceive => 16 case ManifestVersion => 17 case Manifest => 18 case Registered => 19
    case _ => 20
  }

  /** The rank of the `i`-th call: that of the optional account entropy pool may be left out. */
  function RankAt(x: LinkData, i: int): int {
    if x.aep.Some? || i < 12 then i else i + 1
  }

  lemma LinkRanks(x: LinkData)
    ensures forall i :: 0 <= i < |LinkCalls(x)| ==> Rank(LinkCalls(x)[i].key) == RankAt(x, i)
    ensures |LinkCalls(x)| == if x.aep.Some? then 20 else 19
  {
    hide Decimal.Print;
  }

  lemma LinkSetsOnce(x: LinkData)
    ensures Once(LinkCalls(x))
  {
    LinkRanks(x);
    hide LinkCalls, Rank;
  }

  lemma NewSetsOnce(host: string, environment: ServiceEnvironment)
    ensures Once(NewCalls(host, environment))
  {
    var calls := NewCalls(host, environment);
    assert forall i :: 0 <= i < 20 ==> NewRank(calls[i].key) == i;
    hide NewCalls;
  }

  /** The place of a key in the order of creation. */
  function NewRank(k: Key): int {
    match k
    case AciPrivate => 0 case AciPublic => 1 case AciServiceId => 2 case DeviceId => 3 case EncryptedName => 4
    case HostName => 5 case IsMultiDevice => 6 case Number => 7 case Password => 8 case PinMasterKey => 9
    case PniPrivate => 10 case PniPublic => 11 case PniServiceId => 12 case ProfileKey => 13 case Registered => 14
    case Environment => 15 case StorageKey => 16 case LastReceive => 17 case ManifestVersion => 18 case Manifest => 19
    case _ => 20
  }
}
