/**
 The stored reply address and the local address (`src/manager/outgoing.rs`): the address of the
 last sender is printed as a small JSON text and read back by searching for its fields.
 */
module Peer {
  import opened Base
  import opened PddbModel
  import opened Stores
  import AccountCache
  import Decimal

  const DIALOGUE_DICT := "sigchat.dialogue"
  const DEFAULT_PEER_KEY := "default.peer"
  const PEER_SLOT := Slot(DIALOGUE_DICT, DEFAULT_PEER_KEY)

  datatype OutgoingError =
    | StorageFailed | UuidMissing | DeviceMissing | DeviceUnparsable
    | NoRecipient | NoLocalAccount | BadDeviceId(device: u32)
    | SessionLoadFailed | NoSession | RegistrationIdFailed | EncryptFailed | UnsupportedType

  /** `str::find`: the first position from `i` on at which `needle` occurs. */
  function Find(s: string, needle: string, i: nat): (r: Option<nat>)
    requires i <= |s|
    ensures r.Some? ==> i <= r.value && OccursAt(s, needle, r.value)
    ensures r.Some? ==> forall j :: i <= j < r.value ==> !OccursAt(s, needle, j)
    ensures r.None? ==> forall j: nat :: i <= j ==> !OccursAt(s, needle, j)
    decreases |s| - i
  {
    if OccursAt(s, needle, i) then Some(i)
    else if i == |s| then None
    else Find(s, needle, i + 1)
  }

  predicate OccursAt(s: string, needle: string, i: nat) {
    i + |needle| <= |s| && s[i..i + |needle|] == needle
  }

  const UUID_NEEDLE := "\"uuid\":\""
  const DEVICE_NEEDLE := "\"device_id\":"
  const QUOTE := "\""

  /** `extract_string_field`. */
  function ExtractString(s: string, needle: string): Option<string> {
    match Find(s, needle, 0)
    case None => None
    case Some(at) =>
      var rest := s[at + |needle|..];
      match Find(rest, QUOTE, 0)
      case None => None
      case Some(end) => Some(rest[..end])
  }

  /** The leading ASCII digits. */
  function LeadingDigits(s: string): (d: string)
    ensures |d| <= |s| && d == s[..|d|] && Decimal.AllDigits(d)
    ensures |d| < |s| ==> !Decimal.IsDigit(s[|d|])
  {
    if s == [] || !Decimal.IsDigit(s[0]) then [] else [s[0]] + LeadingDigits(s[1..])
  }

  /** `extract_number_field`. */
  function ExtractNumber(s: string, needle: string): Option<string> {
    match Find(s, needle, 0)
    case None => None
    case Some(at) => Some(LeadingDigits(s[at + |needle|..]))
  }

  function CheckDevice(digits: string, unparsable: OutgoingError): Result<u32, OutgoingError> {
    match Decimal.Parse(digits, 0xFFFF_FFFF)
    case None => Err(unparsable)
    case Some(n) =>
      if n == 0 || 127 < n < TWO_TO_THE_32 then Err(BadDeviceId(n))
      else if n < TWO_TO_THE_32 then Ok(n)
      else Err(unparsable)
  }

  /** `parse_peer_json`. */
  function ParsePeer(s: string): Result<Address, OutgoingError> {
    match ExtractString(s, UUID_NEEDLE)
    case None => Err(UuidMissing)
    case Some(name) =>
      match ExtractNumber(s, DEVICE_NEEDLE)
      case None => Err(DeviceMissing)
      case Some(digits) =>
        match CheckDevice(digits, DeviceUnparsable)
        case Err(e) => Err(e)
        case Ok(device) => Ok(Address(name, device))
  }

  function Head(name: string): string {
    "{\"uuid\":\"" + name + "\",\"device_id\":"
  }

  /** The payload of `set_current_recipient`. */
  function PrintPeer(a: Address): string {
    Head(a.name) + Decimal.Print(a.device) + "}"
  }

  predicate Quoted(name: string) {
    '"' in name
  }

  /** A position is the result of a search if the needle occurs there and nowhere before. */
  lemma FirstIsFound(s: string, needle: string, at: nat)
    requires OccursAt(s, needle, at) && forall j: nat :: j < at ==> !OccursAt(s, needle, j)
    ensures Find(s, needle, 0) == Some(at)
  {
    assert Find(s, needle, 0).Some?;
  }

  /** A name up to its first double quote. */
  function UpToQuote(name: string): (r: string)
    ensures !Quoted(r) && |r| <= |name| && r == name[..|r|]
    ensures |r| < |name| ==> name[|r|] == '"'
    ensures !Quoted(name) ==> r == name
  {
    if name == [] || name[0] == '"' then [] else [name[0]] + UpToQuote(name[1..])
  }

  /** What comes back of a name is what stands before its first quote. */
  lemma NameIsCut(name: string, rest: string)
    ensures ExtractString(Head(name) + rest, UUID_NEEDLE) == Some(UpToQuote(name))
  {
    var s, cut := Head(name) + rest, UpToQuote(name);
    var n := |UUID_NEEDLE|;
    assert s[0] == '{' && s[1..1 + n] == UUID_NEEDLE;
    Mismatch(s, UUID_NEEDLE, 0, 0);
    FirstIsFound(s, UUID_NEEDLE, 1);
    var tail := s[1 + n..];
    assert tail == name + "\",\"device_id\":" + rest;
    assert tail[|cut|] == '"' && tail[|cut|..|cut| + 1] == QUOTE;
    forall j: nat | j < |cut| ensures !OccursAt(tail, QUOTE, j) {
      assert tail[j] == cut[j] && cut[j] in cut;
      Mismatch(tail, QUOTE, j, 0);
    }
    FirstIsFound(tail, QUOTE, |cut|);
    assert tail[..|cut|] == cut;
  }

  /** No `"device_id":` begins before the one that is printed after the name. */
  ghost predicate NamesNoDevice(name: string) {
    forall j: nat :: j < 11 + |name| ==> !OccursAt(Head(name), DEVICE_NEEDLE, j)
  }

  lemma Mismatch(s: string, needle: string, j: nat, i: nat)
    requires i < |needle| && j + |needle| <= |s| ==> s[j + i] != needle[i]
    requires i < |needle|
    ensures !OccursAt(s, needle, j)
  {
  }

  /** In an unquoted name no quote but the one before the field's own name is followed by `device_id":`. */
  lemma UnquotedNamesNoDevice(name: string)
    requires !Quoted(name)
    ensures NamesNoDevice(name)
  {
    forall j: nat | j < 11 + |name| ensures !OccursAt(Head(name), DEVICE_NEEDLE, j) {
      NoEarlierDevice(name, j);
    }
  }

  lemma HeadParts(name: string)
    ensures var s, m := Head(name), |name|;
      && |s| == 23 + m
      && s[..9] == "{\"uuid\":\"" && s[9..9 + m] == name
      && s[9 + m..23 + m] == "\",\"device_id\":" && s[9 + m] == '"' && s[10 + m] == ','
  {
  }

  lemma NoEarlierDevice(name: string, j: nat)
    requires !Quoted(name) && j < 11 + |name|
    ensures !OccursAt(Head(name), DEVICE_NEEDLE, j)
  {
    hide Head, OccursAt;
    var s, m := Head(name), |name|;
    HeadParts(name);
    assert forall i :: 0 <= i < 9 ==> s[i] == s[..9][i];
    assert forall i :: 0 <= i < m ==> s[9 + i] == name[i] != '"' by {
      forall i | 0 <= i < m ensures s[9 + i] == name[i] != '"' {
        assert s[9..9 + m][i] == s[9 + i];
        assert name[i] in name;
      }
    }
    var differs :=
      if j in {1, 6, 9 + m} then 1
      else if j != 8 then 0
      else if m < 9 then 1 + m
      else if m == 9 then 11
      else 10;
    if j > 8 && j < 9 + m {
      assert s[j] == s[9 + (j - 9)];
    }
    if j == 8 && m > 9 {
      assert s[18] == s[9 + 9];
    }
    Mismatch(s, DEVICE_NEEDLE, j, differs);
  }

  lemma DeviceIsFound(name: string, digits: string, rest: string)
    requires NamesNoDevice(name) && Decimal.AllDigits(digits) && (rest != [] ==> !Decimal.IsDigit(rest[0]))
    ensures ExtractNumber(Head(name) + (digits + rest), DEVICE_NEEDLE) == Some(digits)
  {
    var s := Head(name) + (digits + rest);
    var at, n := 11 + |name|, |DEVICE_NEEDLE|;
    assert s[at..at + n] == DEVICE_NEEDLE;
    forall j: nat | j < at ensures !OccursAt(s, DEVICE_NEEDLE, j) {
      assert j + n <= |Head(name)|;
      assert s[j..j + n] == Head(name)[j..j + n];
      assert !OccursAt(Head(name), DEVICE_NEEDLE, j);
    }
    FirstIsFound(s, DEVICE_NEEDLE, at);
    assert s[at + n..] == digits + rest;
    LeadingDigitsOf(digits, rest);
  }

  function Parsed(name: string, digits: string): Result<Address, OutgoingError> {
    match CheckDevice(digits, DeviceUnparsable) case Err(e) => Err(e) case Ok(device) => Ok(Address(name, device))
  }

  /** Parsing finds the name up to its quote and all the digits, whatever follows these. */
  lemma ParseOfText(name: string, digits: string, rest: string)
    requires NamesNoDevice(name) && Decimal.AllDigits(digits) && (rest != [] ==> !Decimal.IsDigit(rest[0]))
    ensures ParsePeer(Head(name) + (digits + rest)) == Parsed(UpToQuote(name), digits)
  {
    NameIsCut(name, digits + rest);
    DeviceIsFound(name, digits, rest);
    hide ExtractString, ExtractNumber;
  }

  lemma {:induction false} LeadingDigitsOf(digits: string, rest: string)
    requires Decimal.AllDigits(digits) && (rest != [] ==> !Decimal.IsDigit(rest[0]))
    ensures LeadingDigits(digits + rest) == digits
  {
    var d, s := LeadingDigits(digits + rest), digits + rest;
    assert forall i :: 0 <= i < |digits| ==> s[i] == digits[i];
    assert s[..|digits|] == digits;
  }

  /** A name read back never holds a quote. */
  lemma ParsedNameIsUnquoted(s: string)
    requires ParsePeer(s).Ok?
    ensures !Quoted(ParsePeer(s).value.name)
  {
    var at := Find(s, UUID_NEEDLE, 0).value;
    var rest := s[at + |UUID_NEEDLE|..];
    var end := Find(rest, QUOTE, 0).value;
    forall i | 0 <= i < end ensures rest[i] != '"' {
      assert !OccursAt(rest, QUOTE, i);
      assert rest[i..i + 1] == [rest[i]];
    }
  }

  /**
   Parsing undoes printing exactly for names without a double quote and devices 1 to 127,
   whatever else the name holds, also one that reads `device_id`.
   */
  lemma ParseUndoesPrintIff(a: Address)
    ensures ParsePeer(PrintPeer(a)) == Ok(a) <==> !Quoted(a.name) && 1 <= a.device <= 127
  {
    if !Quoted(a.name) {
      UnquotedNamesNoDevice(a.name);
      ParseOfText(a.name, Decimal.Print(a.device), "}");
      assert PrintPeer(a) == Head(a.name) + (Decimal.Print(a.device) + "}");
      hide ParsePeer, PrintPeer;
      Decimal.ParseOfPrint(a.device, 0xFFFF_FFFF);
    } else if ParsePeer(PrintPeer(a)) == Ok(a) {
      ParsedNameIsUnquoted(PrintPeer(a));
    }
  }

  // ---- Storage ----------------------------------------------------------------

  /** `pddb_get_string`: the whole value, if it is UTF-8. */
  function GetString(db: Db, slot: Slot, io: Io): Option<string> {
    var read := Get(db, slot, io);
    if read.Found? && AccountCache.IsText(read.bytes) then Some(read.bytes) else None
  }

  /** `set_current_recipient`. */
  method SetCurrentRecipient(pddb: Pddb, a: Address, io: Io) returns (r: Result<(), OutgoingError>)
    modifies pddb
    ensures pddb.db == Write(old(pddb.db), PEER_SLOT, PrintPeer(a), io)
    ensures r == if io.write.Complete? then Ok(()) else Err(StorageFailed)
  {
    var ok := pddb.WriteBinary(PEER_SLOT, PrintPeer(a), io);
    return if ok then Ok(()) else Err(StorageFailed);
  }

  /** `current_recipient`. */
  function CurrentRecipient(db: Db, io: Io): Result<Address, OutgoingError> {
    match GetString(db, PEER_SLOT, io)
    case None => Err(NoRecipient)
    case Some(raw) => ParsePeer(raw)
  }

  /** `local_protocol_address`. */
  function LocalAddress(db: Db, io: Io): Result<Address, OutgoingError> {
    match GetString(db, Slot("sigchat.account", "aci.service_id"), io)
    case None => Err(NoLocalAccount)
    case Some(aci) =>
      match GetString(db, Slot("sigchat.account", "device_id"), io)
      case None => Err(NoLocalAccount)
      case Some(digits) =>
        match CheckDevice(digits, NoLocalAccount)
        case Err(e) => Err(e)
        case Ok(device) => Ok(Address(aci, device))
  }

  /** The local address exists exactly if both values are text and the device a number from 1 to 127. */
  lemma LocalAddressIff(db: Db, io: Io, a: Address, n: u32)
    ensures var name := GetString(db, Slot("sigchat.account", "aci.service_id"), io);
      var digits := GetString(db, Slot("sigchat.account", "device_id"), io);
      var number := if name.Some? && digits.Some? then Decimal.Parse(digits.value, 0xFFFF_FFFF) else None;
      var r := LocalAddress(db, io);
      && (r == Ok(a) <==> name == Some(a.name) && number == Some(a.device) && 1 <= a.device <= 127)
      && (r == Err(NoLocalAccount) <==> number.None?)
      && (r == Err(BadDeviceId(n)) <==> number == Some(n) && !(1 <= n <= 127))
  {
    hide AccountCache.IsText, GetString, Decimal.Digits;
    var digits := GetString(db, Slot("sigchat.account", "device_id"), io);
    var number := if digits.Some? then Decimal.Parse(digits.value, 0xFFFF_FFFF) else None;
    assert number.Some? ==> number.value < 0x1_0000_0000;
    hide Decimal.Parse;
  }

  lemma HeadIsText(name: string)
    requires AccountCache.IsText(name)
    ensures AccountCache.IsText(Head(name))
  {
    hide AccountCache.IsText;
    AccountCache.AsciiIsText("{\"uuid\":\"");
    AccountCache.AsciiIsText("\",\"device_id\":");
    AccountCache.TextConcat("{\"uuid\":\"", name);
    AccountCache.TextConcat("{\"uuid\":\"" + name, "\",\"device_id\":");
  }

  lemma PrintIsText(a: Address)
    requires AccountCache.IsText(a.name)
    ensures AccountCache.IsText(PrintPeer(a))
  {
    hide AccountCache.IsText, Head;
    var number := Decimal.Print(a.device);
    HeadIsText(a.name);
    AccountCache.AsciiIsText(number);
    AccountCache.AsciiIsText("}");
    AccountCache.TextConcat(Head(a.name), number);
    AccountCache.TextConcat(Head(a.name) + number, "}");
  }

  /** What was set as the recipient is the current one, exactly for addresses that survive printing. */
  lemma RecipientIsTheOneSetIff(db: Db, a: Address)
    requires AccountCache.IsText(a.name)
    ensures CurrentRecipient(Write(db, PEER_SLOT, PrintPeer(a), HEALTHY), HEALTHY) == Ok(a) <==>
              !Quoted(a.name) && 1 <= a.device <= 127
  {
    HealthyWrite(db, PEER_SLOT, PrintPeer(a));
    PrintIsText(a);
    ParseUndoesPrintIff(a);
    hide PrintPeer, ParsePeer, AccountCache.IsText;
  }

  /** A failed attempt to set the recipient can leave none. */
  lemma FailedSetLeavesNoRecipient(db: Db, a: Address, io: Io)
    requires io.write.NotCreated? && !io.deleteFails
    ensures CurrentRecipient(Write(db, PEER_SLOT, PrintPeer(a), io), HEALTHY) == Err(NoRecipient)
  {
    FailedWriteForgets(db, PEER_SLOT, PrintPeer(a), io);
  }

  /** The digits of the device that come back: those after the first `"device_id":`, which may stand in the name. */
  function DeviceDigits(a: Address): string {
    var at := Find(Head(a.name), DEVICE_NEEDLE, 0);
    if at.None? then ""
    else if at.value + |DEVICE_NEEDLE| == |Head(a.name)| then Decimal.Print(a.device)
    else LeadingDigits(Head(a.name)[at.value + |DEVICE_NEEDLE|..])
  }

  /** What an address comes back as: its name up to the first quote, and that device. */
  function ReadBack(a: Address): Result<Address, OutgoingError> {
    Parsed(UpToQuote(a.name), DeviceDigits(a))
  }

  lemma {:induction false} DigitsStop(t: string, rest: string)
    requires |LeadingDigits(t)| < |t|
    ensures LeadingDigits(t + rest) == LeadingDigits(t)
  {
    assert (t + rest)[0] == t[0];
    if Decimal.IsDigit(t[0]) {
      assert (t + rest)[1..] == t[1..] + rest;
      DigitsStop(t[1..], rest);
    }
  }

  /** A needle found in the front of a text is found there in the whole. */
  lemma FoundInFront(front: string, rest: string, needle: string)
    requires Find(front, needle, 0).Some?
    ensures Find(front + rest, needle, 0) == Find(front, needle, 0)
  {
    var at, n, s := Find(front, needle, 0).value, |needle|, front + rest;
    assert s[at..at + n] == front[at..at + n];
    forall j: nat | j < at ensures !OccursAt(s, needle, j) {
      assert s[j..j + n] == front[j..j + n];
      assert !OccursAt(front, needle, j);
    }
    FirstIsFound(s, needle, at);
  }

  lemma HeadEndsWithField(name: string)
    ensures var head, n := Head(name), |DEVICE_NEEDLE|;
      && |head| == 11 + |name| + n && OccursAt(head, DEVICE_NEEDLE, 11 + |name|)
      && head[|head| - 1] == ':'
      && Find(head, DEVICE_NEEDLE, 0).Some? && Find(head, DEVICE_NEEDLE, 0).value <= 11 + |name|
  {
    var head := Head(name);
    assert head[11 + |name|..11 + |name| + 12] == DEVICE_NEEDLE;
    assert OccursAt(head, DEVICE_NEEDLE, 11 + |name|);
    assert |head| == 23 + |name|;
    hide Head, OccursAt;
  }

  lemma NumberAfterHead(a: Address)
    ensures ExtractNumber(PrintPeer(a), DEVICE_NEEDLE) == Some(DeviceDigits(a))
  {
    var head, tail := Head(a.name), Decimal.Print(a.device) + "}";
    var s, n := head + tail, |DEVICE_NEEDLE|;
    assert PrintPeer(a) == s;
    HeadEndsWithField(a.name);
    hide Head, PrintPeer, LeadingDigits, Decimal.Print;
    FoundInFront(head, tail, DEVICE_NEEDLE);
    hide Find;
    var at := Find(head, DEVICE_NEEDLE, 0).value;
    if at + n == |head| {
      assert s[at + n..] == tail;
      LeadingDigitsOf(Decimal.Print(a.device), "}");
    } else {
      var rest := head[at + n..];
      assert s[at + n..] == rest + tail;
      assert rest[|rest| - 1] == ':';
      NotAllDigits(rest);
      DigitsStop(rest, tail);
    }
  }

  lemma NotAllDigits(t: string)
    requires t != [] && !Decimal.IsDigit(t[|t| - 1])
    ensures |LeadingDigits(t)| < |t|
  {
    var d := LeadingDigits(t);
    assert t[..|t|] == t;
  }

  /** Reading back is parsing what was printed, for every address. */
  lemma ParseOfPrint(a: Address)
    ensures ParsePeer(PrintPeer(a)) == ReadBack(a)
  {
    NumberAfterHead(a);
    NameIsCut(a.name, Decimal.Print(a.device) + "}");
    assert PrintPeer(a) == Head(a.name) + (Decimal.Print(a.device) + "}");
    hide PrintPeer, ExtractString, ExtractNumber, DeviceDigits, Head;
  }

  /**
   The recipient after setting any address: the name comes back up to its first quote, with the
   device of the first device field, which is the address's own unless the name holds one.
   */
  lemma RecipientIsCutAtQuote(db: Db, a: Address)
    requires AccountCache.IsText(a.name)
    ensures var now := CurrentRecipient(Write(db, PEER_SLOT, PrintPeer(a), HEALTHY), HEALTHY);
      && now == ReadBack(a)
      && (NamesNoDevice(a.name) && 1 <= a.device <= 127 ==> now == Ok(Address(UpToQuote(a.name), a.device)))
  {
    hide AccountCache.IsText, PrintPeer, ParsePeer, NamesNoDevice, CheckDevice, DeviceDigits;
    HealthyWrite(db, PEER_SLOT, PrintPeer(a));
    PrintIsText(a);
    ParseOfPrint(a);
    if NamesNoDevice(a.name) && 1 <= a.device <= 127 {
      DeviceIsOwn(a);
      PrintedDevice(a.device);
    }
  }

  lemma DeviceIsOwn(a: Address)
    requires NamesNoDevice(a.name)
    ensures DeviceDigits(a) == Decimal.Print(a.device)
  {
    HeadEndsWithField(a.name);
    hide Head, LeadingDigits;
    FirstIsFound(Head(a.name), DEVICE_NEEDLE, 11 + |a.name|);
  }

  lemma PrintedDevice(device: u32)
    requires 1 <= device <= 127
    ensures CheckDevice(Decimal.Print(device), DeviceUnparsable) == Ok(device)
  {
    Decimal.ParseOfPrint(device, 0xFFFF_FFFF);
  }

  // ---- Writes cut short -------------------------------------------------------

  /** A text cut inside the head has no device field to find. */
  lemma CutHeadParsesToError(name: string, n: nat)
    requires !Quoted(name) && n < |Head(name)|
    ensures ParsePeer(Head(name)[..n]).Err?
  {
    var s := Head(name)[..n];
    forall j: nat ensures !OccursAt(s, DEVICE_NEEDLE, j) {
      if OccursAt(s, DEVICE_NEEDLE, j) {
        assert s[j..j + 12] == Head(name)[j..j + 12];
        NoEarlierDevice(name, j);
      }
    }
    assert Find(s, DEVICE_NEEDLE, 0).None?;
  }

  /** What the device of a number cut after `k` digits is read as. */
  lemma CutNumber(device: u32, k: nat)
    requires 1 <= device <= 127 && k <= |Decimal.Print(device)|
    ensures var r := CheckDevice(Decimal.Print(device)[..k], DeviceUnparsable);
      if k == 0 then r.Err?
      else r == Ok(Decimal.Truncated(device, k)) && 1 <= r.value <= 127
  {
    if k > 0 {
      Decimal.PrefixIsTruncated(device, k);
      if k == |Decimal.Print(device)| {
        assert Decimal.Truncated(device, k) == device;
      }
      Decimal.ParseOfPrint(Decimal.Truncated(device, k), 0xFFFF_FFFF);
    }
  }

  /** What is left of the address after a write of `n` bytes of it. */
  function AfterTear(a: Address, n: nat): Option<u32>
    requires 1 <= a.device <= 127
  {
    var digits, k := Decimal.Print(a.device), n - |Head(a.name)|;
    if k <= 0 then None
    else if k >= |digits| then Some(a.device)
    else CutNumber(a.device, k); Some(Decimal.Truncated(a.device, k))
  }

  /**
   The recipient after a write of only `n` bytes: none or an error as long as no digit was
   written, another device of the same name as long as not all were, and from then on the address
   itself, although the write failed.
   */
  lemma TornSetReads(db: Db, a: Address, io: Io, n: nat)
    requires AccountCache.IsText(a.name) && !Quoted(a.name) && 1 <= a.device <= 127
    requires !io.deleteFails && io.write == Torn(n)
    ensures var now := CurrentRecipient(Write(db, PEER_SLOT, PrintPeer(a), io), HEALTHY);
      && (now.Ok? <==> AfterTear(a, n).Some?)
      && (now.Ok? ==> now.value == Address(a.name, AfterTear(a, n).value))
  {
    hide AccountCache.IsText, ParsePeer, Head, Parsed;
    var head, digits := Head(a.name), Decimal.Print(a.device);
    var part := PrintPeer(a)[..Min(n, |PrintPeer(a)|)];
    assert Overwrite("", part) == part;
    UnquotedNamesNoDevice(a.name);
    if n < |head| {
      assert part == head[..n];
      CutHeadParsesToError(a.name, n);
    } else {
      var k := Min(n - |head|, |digits|);
      var rest := if n > |head| + |digits| then "}" else "";
      assert part == head + (digits[..k] + rest);
      ParseOfText(a.name, digits[..k], rest);
      CutNumber(a.device, k);
      PartIsText(a.name, digits[..k], rest);
      hide PrintPeer, Write;
      ParsedDigits(a.name, digits[..k]);
      if k == |digits| {
        assert digits[..k] == digits;
        assert Decimal.Truncated(a.device, k) == a.device;
      }
    }
  }

  lemma ParsedDigits(name: string, digits: string)
    ensures var device, r := CheckDevice(digits, DeviceUnparsable), Parsed(name, digits);
      && (r.Ok? <==> device.Ok?)
      && (r.Ok? ==> r.value == Address(name, device.value))
  {
  }

  lemma PartIsText(name: string, digits: string, rest: string)
    requires AccountCache.IsText(name) && Decimal.AllDigits(digits) && rest in {"", "}"}
    ensures AccountCache.IsText(Head(name) + (digits + rest))
  {
    hide AccountCache.IsText, Head;
    HeadIsText(name);
    AccountCache.AsciiIsText(digits + rest);
    AccountCache.TextConcat(Head(name), digits + rest);
  }

  /** A write cut short makes the next reply go to another device exactly if it ends between two digits. */
  lemma TornSetMisdirectsIff(db: Db, a: Address, io: Io, n: nat)
    requires AccountCache.IsText(a.name) && !Quoted(a.name) && 1 <= a.device <= 127
    requires !io.deleteFails && io.write == Torn(n)
    ensures var now := CurrentRecipient(Write(db, PEER_SLOT, PrintPeer(a), io), HEALTHY);
      var head, whole := |Head(a.name)|, |Head(a.name)| + |Decimal.Print(a.device)|;
      && (now.Err? <==> n <= head)
      && (now.Ok? && now.value != a <==> head < n < whole)
      && (now == Ok(a) <==> whole <= n)
  {
    TornSetReads(db, a, io, n);
    hide CurrentRecipient, Write, PrintPeer, Head, AccountCache.IsText;
    var k := n - |Head(a.name)|;
    if 0 < k < |Decimal.Print(a.device)| {
      Decimal.PrefixIsTruncated(a.device, k);
    }
  }

  /** For one: device 12 cut after its first digit is device 1. */
  lemma TornSetMisdirects(db: Db, name: string, io: Io)
    requires AccountCache.IsText(name) && !Quoted(name)
    requires !io.deleteFails && io.write == Torn(24 + |name|)
    ensures CurrentRecipient(Write(db, PEER_SLOT, PrintPeer(Address(name, 12)), io), HEALTHY) == Ok(Address(name, 1))
  {
    hide CurrentRecipient, Write, PrintPeer, AccountCache.IsText;
    assert |Head(name)| == 23 + |name|;
    TwelveCutToOne();
    hide Decimal.Truncated, Decimal.Print, Head;
    TornSetReads(db, Address(name, 12), io, 24 + |name|);
  }

  lemma TwelveCutToOne()
    ensures |Decimal.Print(12)| == 2 && Decimal.Truncated(12, 1) == 1
  {
    assert Decimal.Print(12) == "12";
    assert Decimal.Print(1) == "1";
  }
}
