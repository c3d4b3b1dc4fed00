/**
 What a single `Account::set` leaves in storage when its delete or its write fails, and when memory
 is then still what `Account::read` would rebuild.
 */
module AccountWrites {
  import opened Base
  import opened PddbModel
  import opened AccountCache
  import opened AccountCalls
  import Decimal

  /** A number, a flag and the name of an environment read back as they were written. */
  lemma ShortIsShown(s: string)
    requires |s| <= READ_LIMIT && forall i :: 0 <= i < |s| ==> s[i] < 128 as char
    ensures Shown(s) == Some(s)
  {
    AsciiIsText(s);
    ReadableIsShown(s);
    hide IsText;
  }

  lemma {:induction false} PrintIsShort(n: nat, digits: nat)
    requires n < Power10(digits) && digits > 0
    ensures |Decimal.Print(n)| <= digits
  {
    if n >= 10 {
      PrintIsShort(n / 10, digits - 1);
    }
  }

  function Power10(e: nat): nat {
    if e == 0 then 1 else 10 * Power10(e - 1)
  }

  lemma NumberIsShown(n: u32)
    ensures Shown(Decimal.Print(n)) == Some(Decimal.Print(n))
    ensures DeviceOf(Some(Decimal.Print(n))) == n && ParseDevice(Decimal.Print(n)) == Some(n)
  {
    PrintIsShort(n, 10);
    ShortIsShown(Decimal.Print(n));
    Decimal.ParseOfPrint(n, TWO_TO_THE_32 - 1);
  }

  lemma LiteralsAreShown()
    ensures Shown("0") == Some("0") && Shown("true") == Some("true") && Shown("false") == Some("false")
    ensures Shown("-1") == Some("-1") && Shown("Live") == Some("Live") && Shown("Staging") == Some("Staging")
    ensures ParseI64("0") == Some(0) && ParseI64("-1") == Some(-1) && ParseDevice("0") == Some(0)
  {
    hide Shown;
    ShortIsShown("0"); ShortIsShown("true"); ShortIsShown("false");
    ShortIsShown("-1"); ShortIsShown("Live"); ShortIsShown("Staging");
    assert "0" == Decimal.Print(0);
    Decimal.ParseOfPrint(0, TWO_TO_THE_32 - 1);
    Decimal.DigitsOfPrint(0);
    Decimal.DigitsOfPrint(1);
    assert "-1"[1..] == "1" == Decimal.Print(1);
  }

  // ---- What is left in storage ------------------------------------------------

  function Stored(db: Db, dict: string, k: Key): Option<string> {
    if At(dict, k) in db then Some(db[At(dict, k)]) else None
  }

  /** How many bytes of a value a write puts down. */
  function BytesWritten(fate: WriteFate, v: string): nat {
    match fate
    case NotCreated => 0
    case Torn(n) => Min(n, |v|)
    case Complete => |v|
  }

  /** The content of a key after a set that storage treats like this. */
  function LeftBehind(was: Option<string>, value: Option<string>, io: Io): Option<string> {
    var left := if io.deleteFails then was else None;
    if value.None? || io.write.NotCreated? then left
    else Some(Overwrite(if left.Some? then left.value else "", value.value[..BytesWritten(io.write, value.value)]))
  }

  lemma SetLeaves(db: Db, dict: string, k: Key, value: Option<string>, io: Io)
    ensures Stored(SetKey(db, dict, k, value, io), dict, k) == LeftBehind(Stored(db, dict, k), value, io)
    ensures ReadKey(db, dict, k) == WrittenAs(Stored(db, dict, k))
  {
    hide Shown, Name;
    if value.Some? {
      assert value.value[..|value.value|] == value.value;
    }
  }

  /** What the key reads as after the set. */
  function SeenAfterSet(was: Option<string>, value: Option<string>, io: Io): Option<string> {
    WrittenAs(LeftBehind(was, value, io))
  }

  /**
   Over an old value that a failed delete left behind: what was not written of the new value stood
   there already, and nothing of the old one shows beyond it.
   */
  predicate CoversOld(was: string, v: string, written: nat)
    requires written <= |v|
  {
    && (written == |v| || (|was| >= |v| && was[written..|v|] == v[written..]))
    && (|was| <= |v| || |v| == 256)
  }

  /**
   The value is no longer than the buffer it is read into and, the old value being gone, all of it
   was written, or else what was written covers the old value.
   */
  predicate Lands(was: Option<string>, v: string, io: Io) {
    && |v| <= 256
    && if io.deleteFails && was.Some? then CoversOld(was.value, v, BytesWritten(io.write, v))
       else !io.write.NotCreated? && BytesWritten(io.write, v) == |v|
  }

  /** A value reads back as itself exactly if it landed. */
  lemma LandsIff(was: Option<string>, v: string, io: Io)
    requires IsText(v)
    ensures SeenAfterSet(was, Some(v), io) == Some(v) <==> Lands(was, v, io)
  {
    hide IsText;
    var m := BytesWritten(io.write, v);
    assert v[..|v|] == v;
    if io.deleteFails && was.Some? {
      assert io.write.NotCreated? ==> Overwrite(was.value, v[..0]) == was.value;
      ShownAsIff(Overwrite(was.value, v[..m]), v);
      OverwriteShowsIff(was.value, v, m);
    } else if !io.write.NotCreated? {
      assert Overwrite("", v[..m]) == v[..m];
      ShownAsIff(v[..m], v);
      FrontOf(v[..m], v);
    }
  }

  lemma ShownAsIff(content: string, v: string)
    requires IsText(v)
    ensures Shown(content) == Some(v) <==> Front(content) == v
  {
    hide IsText;
  }

  lemma FrontOf(part: string, v: string)
    requires |part| <= |v|
    ensures Front(part) == v <==> part == v && |v| <= READ_LIMIT
  {
    if Front(part) == v {
      assert part == Front(part);
    } else if |part| <= READ_LIMIT {
      assert Front(part) == part;
    }
  }

  lemma OverwriteShowsIff(was: string, v: string, m: nat)
    requires m <= |v|
    ensures Front(Overwrite(was, v[..m])) == v <==> |v| <= READ_LIMIT && CoversOld(was, v, m)
  {
    var content := Overwrite(was, v[..m]);
    assert content == v[..m] + if |was| > m then was[m..] else "";
    if |v| <= READ_LIMIT && CoversOld(was, v, m) {
      if m < |v| {
        assert forall i :: m <= i < |v| ==> was[i] == was[m..|v|][i - m] == v[m..][i - m];
      }
      assert Front(content) == v;
    }
    if Front(content) == v && m < |v| {
      assert forall i :: 0 <= i < |v| ==> v[i] == content[i];
      assert forall i :: m <= i < |v| ==> content[i] == was[i];
      assert was[m..|v|] == v[m..];
    }
  }

  lemma OtherStoredKept(db: Db, dict: string, k: Key, value: Option<string>, io: Io, other: Key)
    requires other != k
    ensures Stored(SetKey(db, dict, k, value, io), dict, other) == Stored(db, dict, other)
  {
    if Name(other) == Name(k) {
      NameInjective(other, k);
    }
    assert At(dict, other) != At(dict, k);
    hide Name;
  }

  lemma {:induction false} StoredKeptBySets(db: Db, dict: string, calls: seq<Call>, io: Key -> Io, k: Key)
    requires forall c :: c in calls ==> c.key != k
    ensures Stored(SetAll(db, dict, calls, io), dict, k) == Stored(db, dict, k)
  {
    hide SetKey, Stored;
    if calls != [] {
      var n := |calls| - 1;
      StoredKeptBySets(db, dict, calls[..n], io, k);
      OtherStoredKept(SetAll(db, dict, calls[..n], io), dict, calls[n].key, calls[n].value, io(calls[n].key), k);
    }
  }

  /** After sets of distinct keys, each holds what its own set left of its old content. */
  lemma {:induction false} LeftAfter(db: Db, dict: string, calls: seq<Call>, io: Key -> Io, j: nat)
    requires Once(calls) && j < |calls|
    ensures var k, after := calls[j].key, SetAll(db, dict, calls, io);
      && Stored(after, dict, k) == LeftBehind(Stored(db, dict, k), calls[j].value, io(k))
      && ReadKey(after, dict, k) == SeenAfterSet(Stored(db, dict, k), calls[j].value, io(k))
  {
    hide SetKey, Stored, LeftBehind, ReadKey;
    var n := |calls| - 1;
    var before, last := SetAll(db, dict, calls[..n], io), calls[n];
    SetLeaves(before, dict, last.key, last.value, io(last.key));
    if j < n {
      LeftAfter(db, dict, calls[..n], io, j);
      OtherStoredKept(before, dict, last.key, last.value, io(last.key), calls[j].key);
    } else {
      StoredKeptBySets(db, dict, calls[..n], io, last.key);
    }
    SetLeaves(SetAll(db, dict, calls, io), dict, calls[j].key, None, HEALTHY);
  }

  // ---- When memory and storage agree ------------------------------------------

  /** A read takes both texts of the key for one value; for a parsed key the stored one has to parse. */
  predicate SameValue(k: Key, seen: Option<string>, value: Option<string>) {
    match k
    case DeviceId => seen.Some? && Parses(k, seen.value) && DeviceOf(seen) == DeviceOf(value)
    case IsMultiDevice => seen.Some? && Parses(k, seen.value) && FlagOf(seen) == FlagOf(value)
    case Registered => seen.Some? && Parses(k, seen.value) && FlagOf(seen) == FlagOf(value)
    case Environment => seen.Some? && Parses(k, seen.value) && EnvironmentOf(seen) == EnvironmentOf(value)
    case _ => seen == value
  }

  lemma TextFieldsSameIff(f: Fields, k: Key, v: Option<string>, w: Option<string>)
    requires TextKey(k)
    ensures SetField(f, k, v) == SetField(f, k, w) <==> v == w
  {
    match k {
      case AciPrivate => assert SetField(f, k, v).aciPrivate == v && SetField(f, k, w).aciPrivate == w;
      case AciPublic => assert SetField(f, k, v).aciPublic == v && SetField(f, k, w).aciPublic == w;
      case AciServiceId => assert SetField(f, k, v).aciServiceId == v && SetField(f, k, w).aciServiceId == w;
      case EncryptedName => assert SetField(f, k, v).encryptedName == v && SetField(f, k, w).encryptedName == w;
      case Number => assert SetField(f, k, v).number == v && SetField(f, k, w).number == w;
      case Password => assert SetField(f, k, v).password == v && SetField(f, k, w).password == w;
      case PinMasterKey => assert SetField(f, k, v).pinMasterKey == v && SetField(f, k, w).pinMasterKey == w;
      case PniPrivate => assert SetField(f, k, v).pniPrivate == v && SetField(f, k, w).pniPrivate == w;
      case PniPublic => assert SetField(f, k, v).pniPublic == v && SetField(f, k, w).pniPublic == w;
      case PniServiceId => assert SetField(f, k, v).pniServiceId == v && SetField(f, k, w).pniServiceId == w;
      case ProfileKey => assert SetField(f, k, v).profileKey == v && SetField(f, k, w).profileKey == w;
      case StorageKey => assert SetField(f, k, v).storageKey == v && SetField(f, k, w).storageKey == w;
    }
  }

  lemma ParsedFieldsSameIff(f: Fields, k: Key, v: Option<string>, w: Option<string>)
    requires Mirrored(k) && !TextKey(k)
    requires v.Some? && Parses(k, v.value)
    ensures SetField(f, k, v) == SetField(f, k, w) <==> SameValue(k, v, w)
  {
    hide DeviceOf, FlagOf, EnvironmentOf;
    match k {
      case DeviceId => assert SetField(f, k, v).deviceId == DeviceOf(v) && SetField(f, k, w).deviceId == DeviceOf(w);
      case IsMultiDevice =>
        assert SetField(f, k, v).isMultiDevice == FlagOf(v) && SetField(f, k, w).isMultiDevice == FlagOf(w);
      case Registered => assert SetField(f, k, v).registered == FlagOf(v) && SetField(f, k, w).registered == FlagOf(w);
      case Environment =>
        assert SetField(f, k, v).environment == EnvironmentOf(v) && SetField(f, k, w).environment == EnvironmentOf(w);
    }
  }

  lemma SetChangesOne(db: Db, dict: string, k: Key, value: Option<string>, io: Io)
    ensures var db' := SetKey(db, dict, k, value, io); OnlyChanged(db, db', dict, k, ReadKey(db', dict, k))
  {
    hide SetKey, ReadKey;
    forall other: Key | other != k
      ensures ReadKey(SetKey(db, dict, k, value, io), dict, other) == ReadKey(db, dict, other)
    {
      OtherKeysKept(db, dict, k, value, io, other);
    }
  }

  lemma Unreadable(db: Db, dict: string, k: Key)
    requires k in REQUIRED && (ReadKey(db, dict, k).None? || !Parses(k, ReadKey(db, dict, k).value))
    ensures !ReadAccount(db, dict).Loaded?
  {
    hide ReadKey, Parses, Rebuild;
  }

  /** What the key reads as after a `set` decides whether memory is still what `Account::read` would rebuild. */
  lemma CoherentIffSeen(db: Db, dict: string, f: Fields, k: Key, value: Option<string>, io: Io)
    requires Coherent(db, dict, f) && Mirrored(k)
    ensures var db' := SetKey(db, dict, k, value, io);
      Coherent(db', dict, SetField(f, k, value)) <==> SameValue(k, ReadKey(db', dict, k), value)
  {
    hide SetKey, ReadKey, SetField, Rebuild, Parses, OnlyChanged, FlagOf, DeviceOf, EnvironmentOf;
    var db' := SetKey(db, dict, k, value, io);
    var seen := ReadKey(db', dict, k);
    assert f == Rebuild(db, dict) && ReadAccount(db, dict).Loaded?;
    hide ReadAccount;
    SetChangesOne(db, dict, k, value, io);
    if TextKey(k) {
      RebuildSetsTextField(db, db', dict, k, seen);
      StillLoads(db, db', dict, k, seen);
      TextFieldsSameIff(f, k, seen, value);
    } else if seen.Some? && Parses(k, seen.value) {
      RebuildSetsParsedField(db, db', dict, k, seen);
      StillLoads(db, db', dict, k, seen);
      ParsedFieldsSameIff(f, k, seen, value);
    } else {
      Unreadable(db', dict, k);
    }
  }

  /**
   `Account::set` reports success whatever storage does. On every mirrored key but the device id,
   memory is what `Account::read` would rebuild exactly if the value landed.
   */
  lemma TextStaysCoherentIff(db: Db, dict: string, f: Fields, k: Key, v: string, io: Io)
    requires Coherent(db, dict, f) && Mirrored(k) && !k.DeviceId? && !Unwraps(k, Some(v)) && IsText(v)
    ensures Coherent(SetKey(db, dict, k, Some(v), io), dict, SetField(f, k, Some(v))) <==>
            Lands(Stored(db, dict, k), v, io)
  {
    hide Coherent, SetField, SetKey, ReadKey, Stored, IsText, Lands, LeftBehind, Shown, SameValue, Unwraps;
    var db' := SetKey(db, dict, k, Some(v), io);
    CoherentIffSeen(db, dict, f, k, Some(v), io);
    SetLeaves(db, dict, k, Some(v), io);
    SetLeaves(db', dict, k, Some(v), io);
    LandsIff(Stored(db, dict, k), v, io);
    SameTextIff(k, ReadKey(db', dict, k), v);
  }

  /** Flags and environments have one text for each value. */
  lemma SameTextIff(k: Key, seen: Option<string>, v: string)
    requires Mirrored(k) && !k.DeviceId? && !Unwraps(k, Some(v))
    ensures SameValue(k, seen, Some(v)) <==> seen == Some(v)
  {
  }

  /**
   For the device id, which is written as a number is printed: exactly if all digits were written
   or, after a failed delete, what then stands there is the same number.
   */
  lemma DeviceStaysCoherentIff(db: Db, dict: string, f: Fields, n: u32, io: Io)
    requires Coherent(db, dict, f)
    ensures var v, was := Decimal.Print(n), Stored(db, dict, DeviceId);
      Coherent(SetKey(db, dict, DeviceId, Some(v), io), dict, SetField(f, DeviceId, Some(v))) <==>
        if io.deleteFails && was.Some? then
          ParsesAs(if io.write.NotCreated? then was.value else Overwrite(was.value, v[..BytesWritten(io.write, v)]), n)
        else !io.write.NotCreated? && BytesWritten(io.write, v) == |v|
  {
    hide Coherent, SetField, SetKey, ReadKey, Stored, IsText, Shown, ParseDevice, Decimal.Print;
    var v, was := Decimal.Print(n), Stored(db, dict, DeviceId);
    var db' := SetKey(db, dict, DeviceId, Some(v), io);
    CoherentIffSeen(db, dict, f, DeviceId, Some(v), io);
    SetLeaves(db, dict, DeviceId, Some(v), io);
    SetLeaves(db', dict, DeviceId, Some(v), io);
    NumberIsShown(n);
    if !(io.deleteFails && was.Some?) && !io.write.NotCreated? {
      var m := BytesWritten(io.write, v);
      assert Overwrite("", v[..m]) == v[..m];
      CutDeviceParses(n, m);
    }
  }

  /** The content is read as that device id. */
  predicate ParsesAs(content: string, n: u32) {
    Shown(content).Some? && ParseDevice(Shown(content).value) == Some(n)
  }

  /** A device number cut after `m` digits parses if any are left, and as itself exactly if all are. */
  lemma CutDeviceParses(n: u32, m: nat)
    requires m <= |Decimal.Print(n)|
    ensures var part := Decimal.Print(n)[..m];
      && Shown(part) == Some(part)
      && (ParseDevice(part).Some? <==> m > 0)
      && (ParseDevice(part) == Some(n) <==> m == |Decimal.Print(n)|)
  {
    var digits := Decimal.Print(n);
    PrintIsShort(n, 10);
    ShortIsShown(digits[..m]);
    NumberIsShown(n);
    if m > 0 {
      Decimal.PrefixIsTruncated(n, m);
      NumberIsShown(Decimal.Truncated(n, m));
      assert m == |digits| ==> digits[..m] == digits;
    }
    hide Shown, Decimal.Print, Decimal.Truncated;
  }

  /**
   A flag whose delete fails while its write succeeds: `true` over `false` leaves `truee`, and the
   next `Account::read` panics.
   */
  lemma TrueOverFalsePanics(db: Db, dict: string, f: Fields, k: Key, io: Io)
    requires Coherent(db, dict, f) && (k.IsMultiDevice? || k.Registered?) && Stored(db, dict, k) == Some("false")
    requires io.deleteFails && io.write.Complete?
    ensures ReadAccount(SetKey(db, dict, k, Some("true"), io), dict) == Panics
  {
    hide ReadKey, SetKey, Rebuild, Shown, Stored, IsText;
    var db' := SetKey(db, dict, k, Some("true"), io);
    SetLeaves(db, dict, k, Some("true"), io);
    SetLeaves(db', dict, k, Some("true"), io);
    assert "true"[..4] == "true" && Overwrite("false", "true") == "truee";
    ShortIsShown("truee");
    assert ReadKey(db', dict, k) == Some("truee") && !Parses(k, "truee");
    forall r | r in REQUIRED ensures ReadKey(db', dict, r).Some? {
      assert ReadKey(db, dict, r).Some?;
      if r != k {
        OtherKeysKept(db, dict, k, Some("true"), io, r);
      }
    }
    hide Parses, LeftBehind;
    PanicsIfUnparsable(db', dict, k);
  }

  lemma PanicsIfUnparsable(db: Db, dict: string, k: Key)
    requires forall r :: r in REQUIRED ==> ReadKey(db, dict, r).Some?
    requires k in REQUIRED && !Parses(k, ReadKey(db, dict, k).value)
    ensures ReadAccount(db, dict) == Panics
  {
    hide ReadKey, Parses, Rebuild;
  }

  /** Setting the host, a key that `Account::set` does not know, deletes it, and the account no longer loads. */
  lemma SettingHostBreaksAccount(db: Db, dict: string, value: Option<string>)
    ensures var now := Delete(SetKey(db, dict, HostName, value, HEALTHY), At(dict, HostName), HEALTHY);
      ReadAccount(now, dict) == InvalidData
  {
    hide Rebuild, Parses;
    var after := Delete(SetKey(db, dict, HostName, value, HEALTHY), At(dict, HostName), HEALTHY);
    assert HostName in REQUIRED && ReadKey(after, dict, HostName).None?;
  }

  /** Clearing a text stays coherent exactly if the delete succeeded or there was nothing to read. */
  lemma ClearStaysCoherentIff(db: Db, dict: string, f: Fields, k: Key, io: Io)
    requires Coherent(db, dict, f) && TextKey(k)
    ensures Coherent(SetKey(db, dict, k, None, io), dict, SetField(f, k, None)) <==>
              !io.deleteFails || ReadKey(db, dict, k) == None
  {
    CoherentIffSeen(db, dict, f, k, None, io);
  }
}
