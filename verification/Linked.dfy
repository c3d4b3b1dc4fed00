/**
 What the rest of the client finds in storage once a link has succeeded: the identity store
 (`src/manager/stores.rs`), the sender's own address (`src/manager/outgoing.rs`) and the prekey
 stores read what `Account::link` (`src/account.rs`) and `save_to_pddb` (`src/manager/prekeys.rs`) wrote.
 */
module Linked {
  import opened Base
  import opened PddbModel
  import opened AccountCache
  import opened AccountCalls
  import AccountLink
  import AccountWrites
  import opened Crypto
  import Decimal
  import Peer
  import Prekeys
  import Stores

  datatype KeyPair = KeyPair(identity: Public, secret: Private)

  predicate IsSpace(c: char) {
    c == ' ' || 9 as char <= c <= 13 as char
  }

  /** `str::trim` on ASCII white space. */
  function Trim(s: string): string
    decreases |s|
  {
    if s != [] && IsSpace(s[0]) then Trim(s[1..])
    else if s != [] && IsSpace(s[|s| - 1]) then Trim(s[..|s| - 1])
    else s
  }

  /** The base64 alphabet has no white space. */
  ghost predicate Unspaced(b64: Base64) {
    forall b: seq<byte>, i :: 0 <= i < |b64.encode(b)| ==> !IsSpace(b64.encode(b)[i])
  }

  /** `read_account_string`, which names the account's dictionary and keys on its own. */
  function ReadAccountString(db: Db, key: string): Option<string> {
    var slot := Slot("sigchat.account", key);
    if slot in db then Shown(db[slot]) else None
  }

  lemma ReadsTheAccount(db: Db)
    ensures ReadAccountString(db, "aci.identity.private") == ReadKey(db, Stores.ACCOUNT_DICT, AciPrivate)
    ensures ReadAccountString(db, "aci.identity.public") == ReadKey(db, Stores.ACCOUNT_DICT, AciPublic)
    ensures ReadAccountString(db, "registration_id") == ReadKey(db, Stores.ACCOUNT_DICT, RegistrationId)
  {
    hide Shown;
  }

  /** `get_identity_key_pair`. */
  function IdentityKeyPair(db: Db, s: Suite, b64: Base64): Result<KeyPair, Stores.SignalError> {
    var priv, pub := ReadAccountString(db, "aci.identity.private"), ReadAccountString(db, "aci.identity.public");
    if priv.None? || pub.None? then Err(Stores.InvalidState)
    else
      var privBytes, pubBytes := b64.decode(Trim(priv.value)), b64.decode(Trim(pub.value));
      if privBytes.None? || pubBytes.None? then Err(Stores.InvalidState)
      else
        var secret, identity := s.parsePrivate(privBytes.value), s.parsePublic(pubBytes.value);
        if secret.None? || identity.None? then Err(Stores.BadRecord)
        else Ok(KeyPair(identity.value, secret.value))
  }

  /** `get_local_registration_id`. */
  function LocalRegistrationId(db: Db): Result<u32, Stores.SignalError> {
    match ReadAccountString(db, "registration_id")
    case None => Err(Stores.InvalidState)
    case Some(text) => (match ParseDevice(Trim(text)) case None => Err(Stores.InvalidState) case Some(n) => Ok(n))
  }

  predicate AllSpace(s: string) {
    forall i :: 0 <= i < |s| ==> s[i] in {' ', '\t', '\n', '\r', 11 as char, 12 as char}
  }

  lemma {:induction false} TrimFront(a: string, t: string)
    requires AllSpace(a)
    ensures Trim(a + t) == Trim(t)
  {
    if a == [] {
      assert a + t == t;
    } else {
      assert (a + t)[1..] == a[1..] + t;
      TrimFront(a[1..], t);
    }
  }

  lemma {:induction false} TrimBack(s: string, b: string)
    requires AllSpace(b) && s != [] && !IsSpace(s[0]) && !IsSpace(s[|s| - 1])
    ensures Trim(s + b) == s
  {
    if b == [] {
      assert s + b == s;
      TrimKeeps(s);
    } else {
      var t := s + b;
      assert t[0] == s[0] && t[|t| - 1] == b[|b| - 1] && t[..|t| - 1] == s + b[..|b| - 1];
      TrimBack(s, b[..|b| - 1]);
    }
  }

  /** White space before and after a text is cut off, and nothing else. */
  lemma TrimCutsSpace(a: string, s: string, b: string)
    requires AllSpace(a) && AllSpace(b) && (s != [] ==> !AllSpace(s[..1]) && !AllSpace(s[|s| - 1..]))
    ensures Trim(a + s + b) == s
  {
    if s == [] {
      assert a + s + b == a + (b + []);
      TrimFront(a, b + []);
      TrimFront(b, []);
    } else {
      assert a + s + b == a + (s + b);
      assert s[0] == s[..1][0] && s[|s| - 1] == s[|s| - 1..][0];
      hide Trim;
      TrimFront(a, s + b);
      TrimBack(s, b);
    }
  }

  lemma TrimKeeps(s: string)
    requires s != [] ==> !IsSpace(s[0]) && !IsSpace(s[|s| - 1])
    ensures Trim(s) == s
  {
  }

  /** White space around the stored texts does no harm: key pair and registration id are read without it. */
  lemma SpacedTextsAreRead(db: Db, s: Suite, b64: Base64, a: string, b: string, priv: string, pub: string, id: string)
    requires AllSpace(a) && AllSpace(b)
    requires ReadAccountString(db, "aci.identity.private") == Some(a + priv + b)
    requires ReadAccountString(db, "aci.identity.public") == Some(a + pub + b)
    requires ReadAccountString(db, "registration_id") == Some(a + id + b)
    requires forall t :: t in {priv, pub, id} && t != [] ==> !AllSpace(t[..1]) && !AllSpace(t[|t| - 1..])
    ensures LocalRegistrationId(db) == if ParseDevice(id).Some? then Ok(ParseDevice(id).value)
                                       else Err(Stores.InvalidState)
    ensures var privBytes, pubBytes := b64.decode(priv), b64.decode(pub);
      IdentityKeyPair(db, s, b64) ==
      if privBytes.None? || pubBytes.None? then Err(Stores.InvalidState)
      else if s.parsePrivate(privBytes.value).None? || s.parsePublic(pubBytes.value).None? then Err(Stores.BadRecord)
      else Ok(KeyPair(s.parsePublic(pubBytes.value).value, s.parsePrivate(privBytes.value).value))
  {
    hide ReadAccountString, Trim, ParseDevice, AllSpace;
    TrimCutsSpace(a, priv, b);
    TrimCutsSpace(a, pub, b);
    TrimCutsSpace(a, id, b);
  }

  /** Storage after a link in which all writes succeeded. */
  function AfterLink(db: Db, x: LinkData, c: Stores.Codecs, g: Prekeys.Generated)
    : (Db, Result<(), Stores.SignalError>)
  {
    Prekeys.UntilError(SetAll(db, Stores.ACCOUNT_DICT, LinkCalls(x), Healthy), c, Prekeys.SaveOps(g), Prekeys.HEALTHY4)
  }

  /** Saving prekeys leaves the account's dictionary alone. */
  lemma AccountSurvivesSave(db: Db, x: LinkData, c: Stores.Codecs, g: Prekeys.Generated, k: Key)
    ensures var linked, after := SetAll(db, Stores.ACCOUNT_DICT, LinkCalls(x), Healthy), AfterLink(db, x, c, g).0;
      var at := At(Stores.ACCOUNT_DICT, k);
      && Get(after, at, HEALTHY) == Get(linked, at, HEALTHY)
      && ReadKey(after, Stores.ACCOUNT_DICT, k) == ReadKey(linked, Stores.ACCOUNT_DICT, k)
  {
    var linked := SetAll(db, Stores.ACCOUNT_DICT, LinkCalls(x), Healthy);
    Prekeys.SaveKeepsOthers(linked, c, Prekeys.SaveOps(g), Prekeys.HEALTHY4, At(Stores.ACCOUNT_DICT, k));
    hide SetAll, LinkCalls, Prekeys.UntilError, Shown;
  }

  /** A value of the account that was read within 256 bytes is the whole value. */
  lemma StoredWhole(db: Db, x: LinkData, j: nat, k: Key, v: string)
    requires AccountLink.Fits(x) && j < |LinkCalls(x)| && LinkCalls(x)[j] == Call(k, Some(v))
    ensures var linked := SetAll(db, Stores.ACCOUNT_DICT, LinkCalls(x), Healthy);
      Get(linked, At(Stores.ACCOUNT_DICT, k), HEALTHY) == Found(v) && IsText(v)
  {
    var calls := LinkCalls(x);
    AccountLink.LinkValuesAreShown(x, j);
    LinkSetsOnce(x);
    hide LinkCalls, IsText;
    assert calls[..|calls|] == calls;
    ContentAfter(db, Stores.ACCOUNT_DICT, calls, j);
    ReadableIsShown(v);
  }

  lemma {:induction false} ContentAfter(db: Db, dict: string, calls: seq<Call>, j: nat)
    requires Once(calls) && j < |calls| && calls[j].value.Some?
    ensures Get(SetAll(db, dict, calls, Healthy), At(dict, calls[j].key), HEALTHY) == Found(calls[j].value.value)
  {
    hide SetKey, At;
    var n := |calls| - 1;
    var before := SetAll(db, dict, calls[..n], Healthy);
    SetOne(before, dict, calls[n].key, calls[n].value, calls[j].key);
    if j < n {
      ContentAfter(db, dict, calls[..n], j);
    }
  }

  lemma SetOne(db: Db, dict: string, k: Key, value: Option<string>, other: Key)
    ensures Get(SetKey(db, dict, k, value, HEALTHY), At(dict, other), HEALTHY) ==
            if other != k then Get(db, At(dict, other), HEALTHY)
            else if value.Some? then Found(value.value)
            else NotFound
  {
    if Name(other) == Name(k) {
      NameInjective(other, k);
    }
    assert other != k ==> At(dict, other) != At(dict, k);
    hide Name;
    if value.Some? {
      HealthyWrite(db, At(dict, k), value.value);
    }
  }

  /** The identity store hands out the provisioned key pair. */
  lemma KeyPairIsProvisioned(db: Db, x: LinkData, c: Stores.Codecs, g: Prekeys.Generated, s: Suite, b64: Base64,
    priv: seq<byte>, pub: seq<byte>)
    requires AccountLink.Fits(x) && Decodes(b64) && Unspaced(b64)
    requires x.aciPrivate == b64.encode(priv) && x.aciPublic == b64.encode(pub)
    ensures s.parsePrivate(priv).Some? && s.parsePublic(pub).Some? ==>
      var pair := KeyPair(s.parsePublic(pub).value, s.parsePrivate(priv).value);
      IdentityKeyPair(AfterLink(db, x, c, g).0, s, b64) == Ok(pair)
  {
    hide SetAll, LinkCalls, AfterLink, ReadKey, AccountLink.Fits, Trim, ReadAccountString;
    ReadsTheAccount(AfterLink(db, x, c, g).0);
    AccountLink.LinkIsSeenFirst(db, Stores.ACCOUNT_DICT, x);
    AccountSurvivesSave(db, x, c, g, AciPrivate);
    AccountSurvivesSave(db, x, c, g, AciPublic);
    TrimKeeps(b64.encode(priv));
    TrimKeeps(b64.encode(pub));
  }

  /** It hands out the registration id that was uploaded. */
  lemma RegistrationIdIsStored(db: Db, x: LinkData, c: Stores.Codecs, g: Prekeys.Generated)
    requires AccountLink.Fits(x)
    ensures LocalRegistrationId(AfterLink(db, x, c, g).0) == Ok(x.registrationId)
  {
    hide SetAll, LinkCalls, AfterLink, ReadKey, AccountLink.Fits, Trim, ParseDevice, ReadAccountString;
    ReadsTheAccount(AfterLink(db, x, c, g).0);
    AccountLink.LinkIsSeenLast(db, Stores.ACCOUNT_DICT, x);
    AccountSurvivesSave(db, x, c, g, RegistrationId);
    var id := Decimal.Print(x.registrationId);
    assert Decimal.IsDigit(id[0]) && Decimal.IsDigit(id[|id| - 1]);
    TrimKeeps(id);
    AccountWrites.NumberIsShown(x.registrationId);
  }

  /** The sender's own address is the linked service id and device, exactly for devices 1 to 127. */
  lemma LocalAddressIsLinked(db: Db, x: LinkData, c: Stores.Codecs, g: Prekeys.Generated)
    requires AccountLink.Fits(x)
    ensures Peer.LocalAddress(AfterLink(db, x, c, g).0, HEALTHY) ==
            if 1 <= x.deviceId <= 127 then Ok(Stores.Address(x.aciServiceId, x.deviceId))
            else Err(Peer.BadDeviceId(x.deviceId))
  {
    hide SetAll, LinkCalls, AfterLink, ReadKey, IsText, AccountLink.Fits, Decimal.Print;
    assert At(Stores.ACCOUNT_DICT, AciServiceId) == Slot("sigchat.account", "aci.service_id");
    assert At(Stores.ACCOUNT_DICT, DeviceId) == Slot("sigchat.account", "device_id");
    hide Name;
    AccountLink.DecidingCalls(x);
    StoredWhole(db, x, 4, AciServiceId, x.aciServiceId);
    StoredWhole(db, x, 1, DeviceId, Decimal.Print(x.deviceId));
    AccountSurvivesSave(db, x, c, g, AciServiceId);
    AccountSurvivesSave(db, x, c, g, DeviceId);
    Decimal.ParseOfPrint(x.deviceId, 0xFFFF_FFFF);
  }

  /** A read of the account finds what was linked, and every uploaded prekey id its record. */
  lemma AccountAndPrekeysAreLinked(db: Db, f: Fields, x: LinkData, c: Stores.Codecs, g: Prekeys.Generated)
    requires Coherent(db, Stores.ACCOUNT_DICT, f) && AccountLink.Fits(x)
    requires Stores.Lawful(c) && Prekeys.Consistent(g) && AfterLink(db, x, c, g).1.Ok?
    requires g.aciSigned != g.pniSigned && g.aciKyber != g.pniKyber
    ensures var after := AfterLink(db, x, c, g).0;
      && ReadAccount(after, Stores.ACCOUNT_DICT) == Loaded(AccountLink.LinkedFields(f, x))
      && Stores.Exec(after, c, Stores.DoGetSigned(g.aciSigned), HEALTHY).1 == Stores.Signed(Ok(g.aciSignedRecord))
      && Stores.Exec(after, c, Stores.DoGetSigned(g.pniSigned), HEALTHY).1 == Stores.Signed(Ok(g.pniSignedRecord))
      && Stores.Exec(after, c, Stores.DoGetKyber(g.aciKyber), HEALTHY).1 == Stores.Kyber(Ok(g.aciKyberRecord))
      && Stores.Exec(after, c, Stores.DoGetKyber(g.pniKyber), HEALTHY).1 == Stores.Kyber(Ok(g.pniKyberRecord))
  {
    var linked, after := SetAll(db, Stores.ACCOUNT_DICT, LinkCalls(x), Healthy), AfterLink(db, x, c, g).0;
    Prekeys.UploadedIdsLoad(linked, c, g);
    AccountLink.LinkedAccountReads(db, Stores.ACCOUNT_DICT, f, x);
    forall k: Key ensures ReadKey(after, Stores.ACCOUNT_DICT, k) == ReadKey(linked, Stores.ACCOUNT_DICT, k) {
      AccountSurvivesSave(db, x, c, g, k);
    }
    hide SetAll, LinkCalls, Stores.Exec, Stores.Lawful, Prekeys.UntilError, Prekeys.Consistent;
    SameKeysSameRead(linked, after, Stores.ACCOUNT_DICT);
  }

  lemma SameKeysSameRead(db: Db, db': Db, dict: string)
    requires forall k: Key :: ReadKey(db', dict, k) == ReadKey(db, dict, k)
    ensures ReadAccount(db', dict) == ReadAccount(db, dict)
  {
    hide ReadKey, Parses, DeviceOf, FlagOf, EnvironmentOf, TextOf, NumberOf;
    assert Rebuild(db', dict) == Rebuild(db, dict);
    hide Rebuild;
  }
}
