/** The five libsignal stores over the PDDB (`src/manager/stores.rs`). */
module Stores {
  import opened Base
  import opened PddbModel
  import Decimal

  const ACCOUNT_DICT := "sigchat.account"
  const IDENTITY_DICT := "sigchat.identity"
  const PREKEY_DICT := "sigchat.prekey"
  const SIGNED_PREKEY_DICT := "sigchat.signed_prekey"
  const KYBER_PREKEY_DICT := "sigchat.kyber_prekey"
  const SESSION_DICT := "sigchat.session"

  datatype Address = Address(name: string, device: u32)

  datatype IdentityKey = IdentityKey(point: string)
  datatype PreKeyRecord = PreKeyRecord(id: u32, material: string)
  datatype SignedPreKeyRecord = SignedPreKeyRecord(id: u32, material: string)
  datatype KyberPreKeyRecord = KyberPreKeyRecord(id: u32, material: string)
  datatype SessionRecord = SessionRecord(material: string)

  datatype SignalError =
    | InvalidState | BadRecord
    | InvalidPreKeyId | InvalidSignedPreKeyId | InvalidKyberPreKeyId

  datatype IdentityChange = NewOrUnchanged | ReplacedExisting

  /** libsignal's serialisation of one record type; writing may fail. */
  datatype Codec<!R> = Codec(write: R -> Option<string>, read: string -> Option<R>)

  ghost predicate Lossless<R(!new)>(c: Codec<R>) {
    forall r: R :: c.write(r).Some? ==> c.read(c.write(r).value) == Some(r)
  }

  /** The serialisations in use, and the base64 of a serialised public key. */
  datatype Codecs = Codecs(
    identity: Codec<IdentityKey>,
    preKey: Codec<PreKeyRecord>,
    signed: Codec<SignedPreKeyRecord>,
    kyber: Codec<KyberPreKeyRecord>,
    session: Codec<SessionRecord>,
    publicBase64: IdentityKey -> string)

  /** Records survive serialisation, identity keys always serialise, and base64 keeps keys apart. */
  ghost predicate Lawful(c: Codecs) {
    && Lossless(c.identity) && Lossless(c.preKey) && Lossless(c.signed) && Lossless(c.kyber) && Lossless(c.session)
    && (forall k: IdentityKey :: c.identity.write(k).Some?)
    && (forall k: IdentityKey, l: IdentityKey :: c.publicBase64(k) == c.publicBase64(l) ==> k == l)
  }

  // ---- Keys -------------------------------------------------------------------

  /** `format!("{}", u32::from(id))`. */
  function IdKey(id: u32): string {
    Decimal.Print(id)
  }

  /** `format!("{}.{}", name, device_id)`. */
  function AddressKey(a: Address): string {
    a.name + "." + Decimal.Print(a.device)
  }

  datatype Mark = Mark(kyberId: u32, ecId: u32, baseKey: IdentityKey)

  /** `format!("used:{}:{}:{}", kyber, ec, base64)`. */
  function MarkKey(c: Codecs, m: Mark): string {
    "used:" + Decimal.Print(m.kyberId) + ":" + Decimal.Print(m.ecId) + ":" + c.publicBase64(m.baseKey)
  }

  /** A name may contain dots and digits: the device is what follows the last dot. */
  lemma AddressKeyInjective(a: Address, b: Address)
    requires AddressKey(a) == AddressKey(b)
    ensures a == b
  {
    var s, p, q := AddressKey(a), Decimal.Print(a.device), Decimal.Print(b.device);
    assert s[|a.name|] == '.' && s[|a.name| + 1..] == p;
    assert s[|b.name|] == '.' && s[|b.name| + 1..] == q;
    assert forall i :: |a.name| < i < |s| ==> s[i] == p[i - |a.name| - 1];
    assert forall i :: |b.name| < i < |s| ==> s[i] == q[i - |b.name| - 1];
    assert s[..|a.name|] == a.name && s[..|b.name|] == b.name;
    Decimal.PrintInjective(a.device, b.device);
  }

  /** Two digit strings cut off by the same separator from one text are the same, and so are the rests. */
  lemma CutAtSeparator(p: string, x: string, q: string, y: string)
    requires Decimal.AllDigits(p) && Decimal.AllDigits(q)
    requires p + ":" + x == q + ":" + y
    ensures p == q && x == y
  {
    var s := p + ":" + x;
    assert s[|p|] == ':' && s[|q|] == ':';
    assert forall i :: 0 <= i < |p| ==> s[i] == p[i];
    assert forall i :: 0 <= i < |q| ==> s[i] == q[i];
    assert s[..|p|] == p && s[..|q|] == q;
    assert s[|p| + 1..] == x && s[|q| + 1..] == y;
  }

  lemma MarkTail(c: Codecs, m: Mark)
    ensures |MarkKey(c, m)| >= 5
    ensures MarkKey(c, m)[5..] ==
            Decimal.Print(m.kyberId) + ":" + (Decimal.Print(m.ecId) + ":" + c.publicBase64(m.baseKey))
  {
  }

  lemma MarkKeyInjective(c: Codecs, m: Mark, n: Mark)
    requires Lawful(c) && MarkKey(c, m) == MarkKey(c, n)
    ensures m == n
  {
    var p, x := Decimal.Print(m.kyberId), Decimal.Print(m.ecId) + ":" + c.publicBase64(m.baseKey);
    var q, y := Decimal.Print(n.kyberId), Decimal.Print(n.ecId) + ":" + c.publicBase64(n.baseKey);
    MarkTail(c, m);
    MarkTail(c, n);
    hide MarkKey, Lawful;
    CutAtSeparator(p, x, q, y);
    CutAtSeparator(Decimal.Print(m.ecId), c.publicBase64(m.baseKey), Decimal.Print(n.ecId), c.publicBase64(n.baseKey));
    Decimal.PrintInjective(m.kyberId, n.kyberId);
    Decimal.PrintInjective(m.ecId, n.ecId);
  }

  /** Key records and replay marks share a dictionary and never a key. */
  lemma MarkIsNoId(c: Codecs, m: Mark, id: u32)
    ensures MarkKey(c, m) != IdKey(id)
  {
    assert MarkKey(c, m)[0] == 'u';
    assert Decimal.IsDigit(IdKey(id)[0]);
  }

  // ---- Operations on the database ---------------------------------------------

  /** The read path of the id stores. */
  function Load<R>(db: Db, slot: Slot, codec: Codec<R>, missing: SignalError, io: Io): Result<R, SignalError> {
    match Get(db, slot, io)
    case Found(bytes) => (match codec.read(bytes) case Some(r) => Ok(r) case None => Err(BadRecord))
    case NotFound => Err(missing)
    case Failed => Err(InvalidState)
  }

  /** The read path of the address stores: a missing key is an answer. */
  function Find<R>(db: Db, slot: Slot, codec: Codec<R>, io: Io): Result<Option<R>, SignalError> {
    match Get(db, slot, io)
    case Found(bytes) => (match codec.read(bytes) case Some(r) => Ok(Some(r)) case None => Err(BadRecord))
    case NotFound => Ok(None)
    case Failed => Err(InvalidState)
  }

  /** The write path: serialise, then delete-create-write. */
  function Save<R>(db: Db, slot: Slot, codec: Codec<R>, r: R, io: Io): (Db, Result<(), SignalError>) {
    match codec.write(r)
    case None => (db, Err(InvalidState))
    case Some(bytes) => (Write(db, slot, bytes, io), if io.write.Complete? then Ok(()) else Err(InvalidState))
  }

  function IdentitySlot(a: Address): Slot { Slot(IDENTITY_DICT, AddressKey(a)) }
  function SessionSlot(a: Address): Slot { Slot(SESSION_DICT, AddressKey(a)) }
  function PreKeySlot(id: u32): Slot { Slot(PREKEY_DICT, IdKey(id)) }
  function SignedSlot(id: u32): Slot { Slot(SIGNED_PREKEY_DICT, IdKey(id)) }
  function KyberSlot(id: u32): Slot { Slot(KYBER_PREKEY_DICT, IdKey(id)) }
  function MarkSlot(c: Codecs, m: Mark): Slot { Slot(KYBER_PREKEY_DICT, MarkKey(c, m)) }

  /** `save_identity`: an unreadable old key counts as a different one. */
  function SaveIdentity(db: Db, c: Codecs, a: Address, key: IdentityKey, io: Io)
    : (Db, Result<IdentityChange, SignalError>)
  {
    match Get(db, IdentitySlot(a), io)
    case Failed => (db, Err(InvalidState))
    case Found(bytes) =>
      if c.identity.read(bytes) == Some(key) then (db, Ok(NewOrUnchanged))
      else
        var (db', r) := Save(db, IdentitySlot(a), c.identity, key, io);
        (db', if r.Ok? then Ok(ReplacedExisting) else Err(InvalidState))
    case NotFound =>
      var (db', r) := Save(db, IdentitySlot(a), c.identity, key, io);
      (db', if r.Ok? then Ok(NewOrUnchanged) else Err(InvalidState))
  }

  /** `is_trusted_identity`: trust on first use. */
  function IsTrusted(db: Db, c: Codecs, a: Address, key: IdentityKey, io: Io): Result<bool, SignalError> {
    match Find(db, IdentitySlot(a), c.identity, io)
    case Err(e) => Err(e)
    case Ok(None) => Ok(true)
    case Ok(Some(existing)) => Ok(existing == key)
  }

  const USED: string := [1 as char]

  /** `mark_kyber_pre_key_used`. */
  function MarkUsed(db: Db, c: Codecs, m: Mark, io: Io): (Db, Result<(), SignalError>) {
    match Get(db, MarkSlot(c, m), io)
    case Found(_) => (db, Err(InvalidKyberPreKeyId))
    case Failed => (db, Err(InvalidState))
    case NotFound =>
      (Write(db, MarkSlot(c, m), USED, io), if io.write.Complete? then Ok(()) else Err(InvalidState))
  }

  // ---- Refinement -------------------------------------------------------------

  datatype Op =
    | DoSaveIdentity(address: Address, key: IdentityKey)
    | DoIsTrusted(address: Address, key: IdentityKey)
    | DoGetIdentity(address: Address)
    | DoGetPreKey(id: u32)
    | DoSavePreKey(id: u32, preKey: PreKeyRecord)
    | DoRemovePreKey(id: u32)
    | DoGetSigned(id: u32)
    | DoSaveSigned(id: u32, signed: SignedPreKeyRecord)
    | DoGetKyber(id: u32)
    | DoSaveKyber(id: u32, kyber: KyberPreKeyRecord)
    | DoMarkUsed(mark: Mark)
    | DoLoadSession(address: Address)
    | DoStoreSession(address: Address, session: SessionRecord)

  datatype Answer =
    | Changed(change: Result<IdentityChange, SignalError>)
    | Trusted(trusted: Result<bool, SignalError>)
    | Identity(identity: Result<Option<IdentityKey>, SignalError>)
    | PreKey(preKey: Result<PreKeyRecord, SignalError>)
    | Signed(signed: Result<SignedPreKeyRecord, SignalError>)
    | Kyber(kyber: Result<KyberPreKeyRecord, SignalError>)
    | Session(session: Result<Option<SessionRecord>, SignalError>)
    | Done(done: Result<(), SignalError>)

  /** One store call on the shared database. */
  function Exec(db: Db, c: Codecs, op: Op, io: Io): (Db, Answer) {
    match op
    case DoSaveIdentity(a, key) => var (db', r) := SaveIdentity(db, c, a, key, io); (db', Changed(r))
    case DoIsTrusted(a, key) => (db, Trusted(IsTrusted(db, c, a, key, io)))
    case DoGetIdentity(a) => (db, Identity(Find(db, IdentitySlot(a), c.identity, io)))
    case DoGetPreKey(id) => (db, PreKey(Load(db, PreKeySlot(id), c.preKey, InvalidPreKeyId, io)))
    case DoSavePreKey(id, r) => var (db', d) := Save(db, PreKeySlot(id), c.preKey, r, io); (db', Done(d))
    case DoRemovePreKey(id) =>
      (Delete(db, PreKeySlot(id), io), Done(if io.deleteFails then Err(InvalidState) else Ok(())))
    case DoGetSigned(id) => (db, Signed(Load(db, SignedSlot(id), c.signed, InvalidSignedPreKeyId, io)))
    case DoSaveSigned(id, r) => var (db', d) := Save(db, SignedSlot(id), c.signed, r, io); (db', Done(d))
    case DoGetKyber(id) => (db, Kyber(Load(db, KyberSlot(id), c.kyber, InvalidKyberPreKeyId, io)))
    case DoSaveKyber(id, r) => var (db', d) := Save(db, KyberSlot(id), c.kyber, r, io); (db', Done(d))
    case DoMarkUsed(m) => var (db', d) := MarkUsed(db, c, m, io); (db', Done(d))
    case DoLoadSession(a) => (db, Session(Find(db, SessionSlot(a), c.session, io)))
    case DoStoreSession(a, r) => var (db', d) := Save(db, SessionSlot(a), c.session, r, io); (db', Done(d))
  }

  /** The five stores as five independent maps, and the replay marks as a set. */
  datatype Model = Model(
    identities: map<Address, IdentityKey>,
    preKeys: map<u32, PreKeyRecord>,
    signed: map<u32, SignedPreKeyRecord>,
    kyber: map<u32, KyberPreKeyRecord>,
    sessions: map<Address, SessionRecord>,
    used: set<Mark>)

  const EMPTY := Model(map[], map[], map[], map[], map[], {})

  function Lookup<K, R>(m: map<K, R>, k: K): Option<R> {
    if k in m then Some(m[k]) else None
  }

  function Required<K, R>(m: map<K, R>, k: K, missing: SignalError): Result<R, SignalError> {
    if k in m then Ok(m[k]) else Err(missing)
  }

  function Saved<K, R>(m: map<K, R>, k: K, r: R, codec: Codec<R>): map<K, R> {
    if codec.write(r).Some? then m[k := r] else m
  }

  function SaveAnswer<R>(r: R, codec: Codec<R>): Answer {
    Done(if codec.write(r).Some? then Ok(()) else Err(InvalidState))
  }

  /** The abstract behaviour: plain map reads and updates, last saved identity, marks rejected the second time. */
  function Apply(m: Model, c: Codecs, op: Op): (Model, Answer) {
    match op
    case DoSaveIdentity(a, key) =>
      (m.(identities := m.identities[a := key]),
       Changed(Ok(if a in m.identities && m.identities[a] != key then ReplacedExisting else NewOrUnchanged)))
    case DoIsTrusted(a, key) => (m, Trusted(Ok(a in m.identities ==> m.identities[a] == key)))
    case DoGetIdentity(a) => (m, Identity(Ok(Lookup(m.identities, a))))
    case DoGetPreKey(id) => (m, PreKey(Required(m.preKeys, id, InvalidPreKeyId)))
    case DoSavePreKey(id, r) => (m.(preKeys := Saved(m.preKeys, id, r, c.preKey)), SaveAnswer(r, c.preKey))
    case DoRemovePreKey(id) => (m.(preKeys := m.preKeys - {id}), Done(Ok(())))
    case DoGetSigned(id) => (m, Signed(Required(m.signed, id, InvalidSignedPreKeyId)))
    case DoSaveSigned(id, r) => (m.(signed := Saved(m.signed, id, r, c.signed)), SaveAnswer(r, c.signed))
    case DoGetKyber(id) => (m, Kyber(Required(m.kyber, id, InvalidKyberPreKeyId)))
    case DoSaveKyber(id, r) => (m.(kyber := Saved(m.kyber, id, r, c.kyber)), SaveAnswer(r, c.kyber))
    case DoMarkUsed(mark) =>
      if mark in m.used then (m, Done(Err(InvalidKyberPreKeyId)))
      else (m.(used := m.used + {mark}), Done(Ok(())))
    case DoLoadSession(a) => (m, Session(Ok(Lookup(m.sessions, a))))
    case DoStoreSession(a, r) => (m.(sessions := Saved(m.sessions, a, r, c.session)), SaveAnswer(r, c.session))
  }

  /** `slot` places the keys of a map in the database, each on its own. */
  ghost predicate Apart<K(!new)>(slot: K -> Slot) {
    forall k: K, l: K :: slot(k) == slot(l) ==> k == l
  }

  /** The database holds exactly the map `m`, serialised, under the slots of its keys. */
  ghost predicate Holds<K(!new), R>(db: Db, slot: K -> Slot, codec: Codec<R>, m: map<K, R>) {
    forall k: K :: (k in m <==> slot(k) in db) && (k in m ==> codec.write(m[k]) == Some(db[slot(k)]))
  }

  ghost predicate HoldsMarks(db: Db, c: Codecs, used: set<Mark>) {
    forall k: Mark :: k in used <==> MarkSlot(c, k) in db
  }

  ghost predicate Represents(db: Db, c: Codecs, m: Model) {
    && Holds(db, IdentitySlot, c.identity, m.identities)
    && Holds(db, PreKeySlot, c.preKey, m.preKeys)
    && Holds(db, SignedSlot, c.signed, m.signed)
    && Holds(db, KyberSlot, c.kyber, m.kyber)
    && Holds(db, SessionSlot, c.session, m.sessions)
    && HoldsMarks(db, c, m.used)
  }

  lemma SlotsApart(c: Codecs)
    requires Lawful(c)
    ensures Apart(IdentitySlot) && Apart(SessionSlot) && Apart(PreKeySlot) && Apart(SignedSlot) && Apart(KyberSlot)
    ensures forall k: Mark, l: Mark :: MarkSlot(c, k) == MarkSlot(c, l) ==> k == l
    ensures forall k: Mark, id: u32 :: MarkSlot(c, k) != KyberSlot(id)
  {
    forall a: Address, b: Address | AddressKey(a) == AddressKey(b) ensures a == b {
      AddressKeyInjective(a, b);
    }
    forall i: u32, j: u32 | IdKey(i) == IdKey(j) ensures i == j {
      Decimal.PrintInjective(i, j);
    }
    forall k: Mark, l: Mark | MarkKey(c, k) == MarkKey(c, l) ensures k == l {
      MarkKeyInjective(c, k, l);
    }
    forall k: Mark, id: u32 ensures MarkSlot(c, k) != KyberSlot(id) {
      MarkIsNoId(c, k, id);
    }
  }

  /** A write under one key of a store updates that key of its map. */
  lemma HoldsAfterSave<K(!new), R>(db: Db, slot: K -> Slot, codec: Codec<R>, m: map<K, R>, k: K, r: R)
    requires Holds(db, slot, codec, m) && Apart(slot) && codec.write(r).Some?
    ensures Holds(db[slot(k) := codec.write(r).value], slot, codec, m[k := r])
  {
  }

  /** A write elsewhere changes nothing of a store. */
  lemma HoldsAfterOther<K(!new), R>(db: Db, slot: K -> Slot, codec: Codec<R>, m: map<K, R>, at: Slot, data: string)
    requires Holds(db, slot, codec, m) && (forall k: K :: slot(k) != at)
    ensures Holds(db[at := data], slot, codec, m)
  {
  }

  /** A slot in another dictionary, or a mark against a key record, is never one of the store's. */
  lemma KeepsOthers(db: Db, c: Codecs, m: Model, at: Slot, data: string)
    requires Represents(db, c, m)
    ensures at.dict != IDENTITY_DICT ==> Holds(db[at := data], IdentitySlot, c.identity, m.identities)
    ensures at.dict != PREKEY_DICT ==> Holds(db[at := data], PreKeySlot, c.preKey, m.preKeys)
    ensures at.dict != SIGNED_PREKEY_DICT ==> Holds(db[at := data], SignedSlot, c.signed, m.signed)
    ensures at.dict != SESSION_DICT ==> Holds(db[at := data], SessionSlot, c.session, m.sessions)
    ensures (forall id: u32 :: KyberSlot(id) != at) ==> Holds(db[at := data], KyberSlot, c.kyber, m.kyber)
    ensures (forall k: Mark :: MarkSlot(c, k) != at) ==> HoldsMarks(db[at := data], c, m.used)
  {
    if at.dict != IDENTITY_DICT { HoldsAfterOther(db, IdentitySlot, c.identity, m.identities, at, data); }
    if at.dict != PREKEY_DICT { HoldsAfterOther(db, PreKeySlot, c.preKey, m.preKeys, at, data); }
    if at.dict != SIGNED_PREKEY_DICT { HoldsAfterOther(db, SignedSlot, c.signed, m.signed, at, data); }
    if at.dict != SESSION_DICT { HoldsAfterOther(db, SessionSlot, c.session, m.sessions, at, data); }
  }

  /** A healthy save at `at` is an insertion there, or nothing when the record does not serialise. */
  lemma HealthySave<R>(db: Db, at: Slot, codec: Codec<R>, r: R)
    ensures Save(db, at, codec, r, HEALTHY) ==
      if codec.write(r).Some? then (db[at := codec.write(r).value], Ok(())) else (db, Err(InvalidState))
  {
    if codec.write(r).Some? {
      HealthyWrite(db, at, codec.write(r).value);
    }
  }

  lemma SaveIdentityRefines(db: Db, c: Codecs, m: Model, a: Address, key: IdentityKey)
    requires Lawful(c) && Represents(db, c, m)
    ensures var op := DoSaveIdentity(a, key);
      && Represents(Exec(db, c, op, HEALTHY).0, c, Apply(m, c, op).0)
      && Exec(db, c, op, HEALTHY).1 == Apply(m, c, op).1
  {
    SlotsApart(c);
    HealthySave(db, IdentitySlot(a), c.identity, key);
    KeepsOthers(db, c, m, IdentitySlot(a), c.identity.write(key).value);
    HoldsAfterSave(db, IdentitySlot, c.identity, m.identities, a, key);
    if a in m.identities && m.identities[a] == key {
      assert m.identities[a := key] == m.identities;
    }
  }

  lemma SavePreKeyRefines(db: Db, c: Codecs, m: Model, id: u32, r: PreKeyRecord)
    requires Lawful(c) && Represents(db, c, m)
    ensures var op := DoSavePreKey(id, r);
      && Represents(Exec(db, c, op, HEALTHY).0, c, Apply(m, c, op).0)
      && Exec(db, c, op, HEALTHY).1 == Apply(m, c, op).1
  {
    SlotsApart(c);
    hide Holds, HoldsMarks, Lawful, Save, AddressKey, IdKey, MarkKey;
    HealthySave(db, PreKeySlot(id), c.preKey, r);
    if c.preKey.write(r).Some? {
      KeepsOthers(db, c, m, PreKeySlot(id), c.preKey.write(r).value);
      HoldsAfterSave(db, PreKeySlot, c.preKey, m.preKeys, id, r);
    }
  }

  lemma SaveSignedRefines(db: Db, c: Codecs, m: Model, id: u32, r: SignedPreKeyRecord)
    requires Lawful(c) && Represents(db, c, m)
    ensures var op := DoSaveSigned(id, r);
      && Represents(Exec(db, c, op, HEALTHY).0, c, Apply(m, c, op).0)
      && Exec(db, c, op, HEALTHY).1 == Apply(m, c, op).1
  {
    SlotsApart(c);
    hide Holds, HoldsMarks, Lawful, Save, AddressKey, IdKey, MarkKey;
    HealthySave(db, SignedSlot(id), c.signed, r);
    if c.signed.write(r).Some? {
      KeepsOthers(db, c, m, SignedSlot(id), c.signed.write(r).value);
      HoldsAfterSave(db, SignedSlot, c.signed, m.signed, id, r);
    }
  }

  lemma SaveKyberRefines(db: Db, c: Codecs, m: Model, id: u32, r: KyberPreKeyRecord)
    requires Lawful(c) && Represents(db, c, m)
    ensures var op := DoSaveKyber(id, r);
      && Represents(Exec(db, c, op, HEALTHY).0, c, Apply(m, c, op).0)
      && Exec(db, c, op, HEALTHY).1 == Apply(m, c, op).1
  {
    SlotsApart(c);
    hide Holds, HoldsMarks, Lawful, Save, AddressKey, IdKey, MarkKey;
    HealthySave(db, KyberSlot(id), c.kyber, r);
    if c.kyber.write(r).Some? {
      KeepsOthers(db, c, m, KyberSlot(id), c.kyber.write(r).value);
      HoldsAfterSave(db, KyberSlot, c.kyber, m.kyber, id, r);
    }
  }

  lemma StoreSessionRefines(db: Db, c: Codecs, m: Model, a: Address, r: SessionRecord)
    requires Lawful(c) && Represents(db, c, m)
    ensures var op := DoStoreSession(a, r);
      && Represents(Exec(db, c, op, HEALTHY).0, c, Apply(m, c, op).0)
      && Exec(db, c, op, HEALTHY).1 == Apply(m, c, op).1
  {
    SlotsApart(c);
    hide Holds, HoldsMarks, Lawful, Save, AddressKey, IdKey, MarkKey;
    HealthySave(db, SessionSlot(a), c.session, r);
    if c.session.write(r).Some? {
      KeepsOthers(db, c, m, SessionSlot(a), c.session.write(r).value);
      HoldsAfterSave(db, SessionSlot, c.session, m.sessions, a, r);
    }
  }

  lemma MarkRefines(db: Db, c: Codecs, m: Model, mark: Mark)
    requires Lawful(c) && Represents(db, c, m)
    ensures Represents(Exec(db, c, DoMarkUsed(mark), HEALTHY).0, c, Apply(m, c, DoMarkUsed(mark)).0)
    ensures Exec(db, c, DoMarkUsed(mark), HEALTHY).1 == Apply(m, c, DoMarkUsed(mark)).1
  {
    SlotsApart(c);
    var at := MarkSlot(c, mark);
    HealthyWrite(db, at, USED);
    KeepsOthers(db, c, m, at, USED);
    assert mark in m.used <==> at in db;
  }

  /** Removing a key of a store removes it from its map, and from no other. */
  lemma HoldsAfterRemove<K(!new), R>(db: Db, slot: K -> Slot, codec: Codec<R>, m: map<K, R>, k: K)
    requires Holds(db, slot, codec, m) && Apart(slot)
    ensures Holds(db - {slot(k)}, slot, codec, m - {k})
  {
  }

  lemma HoldsAfterOtherRemoved<K(!new), R>(db: Db, slot: K -> Slot, codec: Codec<R>, m: map<K, R>, at: Slot)
    requires Holds(db, slot, codec, m) && (forall k: K :: slot(k) != at)
    ensures Holds(db - {at}, slot, codec, m)
  {
  }

  lemma RemoveRefines(db: Db, c: Codecs, m: Model, id: u32)
    requires Lawful(c) && Represents(db, c, m)
    ensures Represents(Exec(db, c, DoRemovePreKey(id), HEALTHY).0, c, Apply(m, c, DoRemovePreKey(id)).0)
    ensures Exec(db, c, DoRemovePreKey(id), HEALTHY).1 == Apply(m, c, DoRemovePreKey(id)).1
  {
    SlotsApart(c);
    hide AddressKey, IdKey, MarkKey, Holds, Lawful;
    var at := PreKeySlot(id);
    HoldsAfterRemove(db, PreKeySlot, c.preKey, m.preKeys, id);
    HoldsAfterOtherRemoved(db, IdentitySlot, c.identity, m.identities, at);
    HoldsAfterOtherRemoved(db, SignedSlot, c.signed, m.signed, at);
    HoldsAfterOtherRemoved(db, KyberSlot, c.kyber, m.kyber, at);
    HoldsAfterOtherRemoved(db, SessionSlot, c.session, m.sessions, at);
  }

  lemma ReadsRefine(db: Db, c: Codecs, m: Model, op: Op)
    requires Lawful(c) && Represents(db, c, m)
    requires op.DoIsTrusted? || op.DoGetIdentity? || op.DoGetPreKey? || op.DoGetSigned? || op.DoGetKyber?
      || op.DoLoadSession?
    ensures Exec(db, c, op, HEALTHY).0 == db && Apply(m, c, op).0 == m
    ensures Exec(db, c, op, HEALTHY).1 == Apply(m, c, op).1
  {
    hide AddressKey, IdKey;
  }

  /** One call, on healthy storage, answers as the abstract maps do and keeps the correspondence. */
  lemma StepRefines(db: Db, c: Codecs, m: Model, op: Op)
    requires Lawful(c) && Represents(db, c, m)
    ensures Represents(Exec(db, c, op, HEALTHY).0, c, Apply(m, c, op).0)
    ensures Exec(db, c, op, HEALTHY).1 == Apply(m, c, op).1
  {
    hide Exec, Apply, Represents, Lawful;
    match op
    case DoSaveIdentity(a, key) => SaveIdentityRefines(db, c, m, a, key);
    case DoRemovePreKey(id) => RemoveRefines(db, c, m, id);
    case DoMarkUsed(mark) => MarkRefines(db, c, m, mark);
    case DoSavePreKey(id, r) => SavePreKeyRefines(db, c, m, id, r);
    case DoSaveSigned(id, r) => SaveSignedRefines(db, c, m, id, r);
    case DoSaveKyber(id, r) => SaveKyberRefines(db, c, m, id, r);
    case DoStoreSession(a, r) => StoreSessionRefines(db, c, m, a, r);
    case _ => ReadsRefine(db, c, m, op);
  }

  function ExecAll(db: Db, c: Codecs, ops: seq<Op>): (Db, seq<Answer>) {
    if ops == [] then (db, [])
    else
      var (db', answers) := ExecAll(db, c, ops[..|ops| - 1]);
      var (db'', a) := Exec(db', c, ops[|ops| - 1], HEALTHY);
      (db'', answers + [a])
  }

  function ApplyAll(m: Model, c: Codecs, ops: seq<Op>): (Model, seq<Answer>) {
    if ops == [] then (m, [])
    else
      var (m', answers) := ApplyAll(m, c, ops[..|ops| - 1]);
      var (m'', a) := Apply(m', c, ops[|ops| - 1]);
      (m'', answers + [a])
  }

  /** Every sequence of calls on the five stores, in any mixture, answers as five independent maps and a set. */
  lemma {:induction false} StoresRefineMaps(db: Db, c: Codecs, m: Model, ops: seq<Op>)
    requires Lawful(c) && Represents(db, c, m)
    ensures Represents(ExecAll(db, c, ops).0, c, ApplyAll(m, c, ops).0)
    ensures ExecAll(db, c, ops).1 == ApplyAll(m, c, ops).1
  {
    if ops != [] {
      var n := |ops| - 1;
      StoresRefineMaps(db, c, m, ops[..n]);
      StepRefines(ExecAll(db, c, ops[..n]).0, c, ApplyAll(m, c, ops[..n]).0, ops[n]);
    }
  }

  /** A store directory with no key in it represents the empty maps. */
  lemma EmptyRepresentsEmpty(c: Codecs)
    ensures Represents(map[], c, EMPTY)
  {
  }

  // ---- Over whole runs --------------------------------------------------------

  predicate Marks(op: Op, mark: Mark) {
    op == DoMarkUsed(mark)
  }

  lemma {:induction false} UsedAreTheMarked(m: Model, c: Codecs, ops: seq<Op>, mark: Mark)
    ensures mark in ApplyAll(m, c, ops).0.used <==>
              mark in m.used || exists j :: 0 <= j < |ops| && Marks(ops[j], mark)
  {
    if ops != [] {
      var n := |ops| - 1;
      UsedAreTheMarked(m, c, ops[..n], mark);
      assert forall j :: 0 <= j < n ==> ops[..n][j] == ops[j];
      assert Marks(ops[n], mark) || (mark in ApplyAll(m, c, ops).0.used <==> mark in ApplyAll(m, c, ops[..n]).0.used);
    }
  }

  lemma {:induction false} AnswersOfPrefix(db: Db, c: Codecs, ops: seq<Op>, i: nat)
    requires i < |ops|
    ensures |ExecAll(db, c, ops).1| == |ops|
    ensures ExecAll(db, c, ops).1[i] == Exec(ExecAll(db, c, ops[..i]).0, c, ops[i], HEALTHY).1
  {
    hide Exec;
    var n := |ops| - 1;
    if n > 0 {
      AnswersOfPrefix(db, c, ops[..n], if i < n then i else 0);
    }
    if i < n {
      assert ops[..n][..i] == ops[..i];
    }
  }

  /**
   Over any run of store calls on empty stores, marking a (kyber id, ec id, base key) tuple
   succeeds exactly if no earlier call marked the same tuple, whatever key records were saved.
   */
  lemma MarkSucceedsOnce(c: Codecs, ops: seq<Op>, i: nat)
    requires Lawful(c) && i < |ops| && ops[i].DoMarkUsed?
    ensures |ExecAll(map[], c, ops).1| == |ops|
    ensures ExecAll(map[], c, ops).1[i] ==
      Done(if exists j :: 0 <= j < i && Marks(ops[j], ops[i].mark) then Err(InvalidKyberPreKeyId) else Ok(()))
  {
    hide ExecAll, ApplyAll, Represents, Lawful;
    var mark := ops[i].mark;
    AnswersOfPrefix(map[], c, ops, i);
    EmptyRepresentsEmpty(c);
    StoresRefineMaps(map[], c, EMPTY, ops[..i]);
    MarkRefines(ExecAll(map[], c, ops[..i]).0, c, ApplyAll(EMPTY, c, ops[..i]).0, mark);
    UsedAreTheMarked(EMPTY, c, ops[..i], mark);
    assert forall j :: 0 <= j < i ==> ops[..i][j] == ops[j];
  }

  /** The key of the last `save_identity` for an address. */
  function LastSaved(ops: seq<Op>, a: Address): Option<IdentityKey> {
    if ops == [] then None
    else
      var op := ops[|ops| - 1];
      if op.DoSaveIdentity? && op.address == a then Some(op.key) else LastSaved(ops[..|ops| - 1], a)
  }

  lemma {:induction false} IdentitiesAreLastSaved(c: Codecs, ops: seq<Op>, a: Address)
    ensures Lookup(ApplyAll(EMPTY, c, ops).0.identities, a) == LastSaved(ops, a)
  {
    if ops != [] {
      IdentitiesAreLastSaved(c, ops[..|ops| - 1], a);
    }
  }

  /** `get_identity` returns the last saved key; a key is trusted if it is that one or none was saved. */
  lemma IdentityIsLastSaved(c: Codecs, ops: seq<Op>, a: Address, key: IdentityKey)
    requires Lawful(c)
    ensures var db := ExecAll(map[], c, ops).0;
      && Exec(db, c, DoGetIdentity(a), HEALTHY).1 == Identity(Ok(LastSaved(ops, a)))
      && Exec(db, c, DoIsTrusted(a, key), HEALTHY).1 == Trusted(Ok(LastSaved(ops, a) in {None, Some(key)}))
  {
    EmptyRepresentsEmpty(c);
    StoresRefineMaps(map[], c, EMPTY, ops);
    StepRefines(ExecAll(map[], c, ops).0, c, ApplyAll(EMPTY, c, ops).0, DoGetIdentity(a));
    StepRefines(ExecAll(map[], c, ops).0, c, ApplyAll(EMPTY, c, ops).0, DoIsTrusted(a, key));
    IdentitiesAreLastSaved(c, ops, a);
  }

  // ---- Storage that fails -------------------------------------------------------

  /** The one key a call reads or writes. */
  function SlotOf(c: Codecs, op: Op): Slot {
    match op
    case DoSaveIdentity(a, _) => Slot("sigchat.identity", a.name + "." + Decimal.Print(a.device))
    case DoIsTrusted(a, _) => Slot("sigchat.identity", a.name + "." + Decimal.Print(a.device))
    case DoGetIdentity(a) => Slot("sigchat.identity", a.name + "." + Decimal.Print(a.device))
    case DoGetPreKey(id) => Slot("sigchat.prekey", Decimal.Print(id))
    case DoSavePreKey(id, _) => Slot("sigchat.prekey", Decimal.Print(id))
    case DoRemovePreKey(id) => Slot("sigchat.prekey", Decimal.Print(id))
    case DoGetSigned(id) => Slot("sigchat.signed_prekey", Decimal.Print(id))
    case DoSaveSigned(id, _) => Slot("sigchat.signed_prekey", Decimal.Print(id))
    case DoGetKyber(id) => Slot("sigchat.kyber_prekey", Decimal.Print(id))
    case DoSaveKyber(id, _) => Slot("sigchat.kyber_prekey", Decimal.Print(id))
    case DoMarkUsed(m) =>
      Slot("sigchat.kyber_prekey",
        "used:" + Decimal.Print(m.kyberId) + ":" + Decimal.Print(m.ecId) + ":" + c.publicBase64(m.baseKey))
    case DoLoadSession(a) => Slot("sigchat.session", a.name + "." + Decimal.Print(a.device))
    case DoStoreSession(a, _) => Slot("sigchat.session", a.name + "." + Decimal.Print(a.device))
  }

  predicate Agree(was: Db, now: Db, slot: Slot) {
    (slot in now <==> slot in was) && (slot in was ==> now[slot] == was[slot])
  }

  /** Whatever storage does, a call leaves every key but its own as it was. */
  lemma OnlyOwnSlotChanges(db: Db, c: Codecs, op: Op, io: Io, other: Slot)
    requires other != SlotOf(c, op)
    ensures Agree(db, Exec(db, c, op, io).0, other)
  {
    hide Decimal.Print, Overwrite;
  }

  predicate ReadsFirst(op: Op) {
    !(op.DoSavePreKey? || op.DoRemovePreKey? || op.DoSaveSigned? || op.DoSaveKyber? || op.DoStoreSession?)
  }

  predicate Fails(a: Answer, e: SignalError) {
    match a
    case Changed(r) => r == Err(e)
    case Trusted(r) => r == Err(e)
    case Identity(r) => r == Err(e)
    case PreKey(r) => r == Err(e)
    case Signed(r) => r == Err(e)
    case Kyber(r) => r == Err(e)
    case Session(r) => r == Err(e)
    case Done(r) => r == Err(e)
  }

  /**
   A call whose read fails reports that and changes nothing: it neither trusts an identity, nor takes
   a key to be missing, nor overwrites one.
   */
  lemma FailedReadIsReported(db: Db, c: Codecs, op: Op, io: Io)
    requires io.readFails && ReadsFirst(op)
    ensures Exec(db, c, op, io).0 == db && Fails(Exec(db, c, op, io).1, InvalidState)
  {
    hide AddressKey, IdKey, MarkKey;
  }

  /** The bytes a call would write, if the record serialises. */
  function Serialised(c: Codecs, op: Op): Option<string> {
    match op
    case DoSaveIdentity(_, key) => c.identity.write(key)
    case DoSavePreKey(_, r) => c.preKey.write(r)
    case DoSaveSigned(_, r) => c.signed.write(r)
    case DoSaveKyber(_, r) => c.kyber.write(r)
    case DoStoreSession(_, r) => c.session.write(r)
    case DoMarkUsed(_) => Some([1 as char])
    case _ => None
  }

  /** The call finds what makes a write unnecessary or forbidden: the same identity, or an earlier mark. */
  predicate Settled(db: Db, c: Codecs, op: Op) {
    var slot := SlotOf(c, op);
    match op
    case DoSaveIdentity(_, key) => slot in db && c.identity.read(db[slot]) == Some(key)
    case DoMarkUsed(_) => slot in db
    case _ => false
  }

  /**
   A call that writes stores its record in full exactly if its read succeeds, nothing settles it, the
   record serialises and the write completes; otherwise it reports the error.
   */
  lemma WriteIsReportedIff(db: Db, c: Codecs, op: Op, io: Io)
    requires op.DoSaveIdentity? || op.DoMarkUsed? || !(ReadsFirst(op) || op.DoRemovePreKey?)
    requires !(ReadsFirst(op) && io.readFails) && !Settled(db, c, op)
    ensures var now, a, data := Exec(db, c, op, io).0, Exec(db, c, op, io).1, Serialised(c, op);
      && (Fails(a, InvalidState) <==> data.None? || !io.write.Complete?)
      && (data.None? ==> now == db)
      && (data.Some? ==> now == Write(db, SlotOf(c, op), data.value, io))
  {
    hide Decimal.Print, Write;
    if op.DoSaveIdentity? {
      assert SlotOf(c, op) == IdentitySlot(op.address);
    } else if op.DoMarkUsed? {
      assert SlotOf(c, op) == MarkSlot(c, op.mark);
    }
  }

  /** A prekey is gone exactly if its removal reports success; one that was not there counts as removed. */
  lemma RemoveIsReportedIff(db: Db, c: Codecs, id: u32, io: Io)
    ensures var now, a := Exec(db, c, DoRemovePreKey(id), io).0, Exec(db, c, DoRemovePreKey(id), io).1;
      && (a == Done(Ok(())) <==> !io.deleteFails) && (Fails(a, InvalidState) <==> io.deleteFails)
      && (io.deleteFails ==> now == db)
      && (!io.deleteFails ==> Slot("sigchat.prekey", Decimal.Print(id)) !in now)
  {
    hide Decimal.Print;
  }

  // ---- The stores as objects --------------------------------------------------

  class PddbIdentityStore {
    const pddb: Pddb
    const codecs: Codecs

    constructor (pddb: Pddb, codecs: Codecs)
      ensures this.pddb == pddb && this.codecs == codecs
    {
      this.pddb, this.codecs := pddb, codecs;
    }

    method SaveIdentityKey(address: Address, identity: IdentityKey, io: Io)
      returns (r: Result<IdentityChange, SignalError>)
      modifies pddb
      ensures (pddb.db, Changed(r)) == Exec(old(pddb.db), codecs, DoSaveIdentity(address, identity), io)
    {
      var existing := pddb.ReadBinary(IdentitySlot(address), io);
      var change := NewOrUnchanged;
      match existing {
        case Failed => return Err(InvalidState);
        case Found(bytes) =>
          if codecs.identity.read(bytes) == Some(identity) {
            return Ok(NewOrUnchanged);
          }
          change := ReplacedExisting;
        case NotFound =>
      }
      var data := codecs.identity.write(identity);
      if data.None? {
        return Err(InvalidState);
      }
      var ok := pddb.WriteBinary(IdentitySlot(address), data.value, io);
      return if ok then Ok(change) else Err(InvalidState);
    }

    method IsTrustedIdentity(address: Address, identity: IdentityKey, io: Io) returns (r: Result<bool, SignalError>)
      ensures (pddb.db, Trusted(r)) == Exec(pddb.db, codecs, DoIsTrusted(address, identity), io)
    {
      var existing := pddb.ReadBinary(IdentitySlot(address), io);
      match existing
      case Found(bytes) =>
        var key := codecs.identity.read(bytes);
        return if key.None? then Err(BadRecord) else Ok(key.value == identity);
      case NotFound => return Ok(true);
      case Failed => return Err(InvalidState);
    }

    method GetIdentityKey(address: Address, io: Io) returns (r: Result<Option<IdentityKey>, SignalError>)
      ensures (pddb.db, Identity(r)) == Exec(pddb.db, codecs, DoGetIdentity(address), io)
    {
      var existing := pddb.ReadBinary(IdentitySlot(address), io);
      match existing
      case Found(bytes) =>
        var key := codecs.identity.read(bytes);
        return if key.None? then Err(BadRecord) else Ok(key);
      case NotFound => return Ok(None);
      case Failed => return Err(InvalidState);
    }
  }

  class PddbPreKeyStore {
    const pddb: Pddb
    const codecs: Codecs

    constructor (pddb: Pddb, codecs: Codecs)
      ensures this.pddb == pddb && this.codecs == codecs
    {
      this.pddb, this.codecs := pddb, codecs;
    }

    method GetPreKey(id: u32, io: Io) returns (r: Result<PreKeyRecord, SignalError>)
      ensures (pddb.db, PreKey(r)) == Exec(pddb.db, codecs, DoGetPreKey(id), io)
    {
      var read := pddb.ReadBinary(PreKeySlot(id), io);
      match read
      case Found(bytes) =>
        var record := codecs.preKey.read(bytes);
        return if record.None? then Err(BadRecord) else Ok(record.value);
      case NotFound => return Err(InvalidPreKeyId);
      case Failed => return Err(InvalidState);
    }

    method SavePreKey(id: u32, record: PreKeyRecord, io: Io) returns (r: Result<(), SignalError>)
      modifies pddb
      ensures (pddb.db, Done(r)) == Exec(old(pddb.db), codecs, DoSavePreKey(id, record), io)
    {
      var data := codecs.preKey.write(record);
      if data.None? {
        return Err(InvalidState);
      }
      var ok := pddb.WriteBinary(PreKeySlot(id), data.value, io);
      return if ok then Ok(()) else Err(InvalidState);
    }

    method RemovePreKey(id: u32, io: Io) returns (r: Result<(), SignalError>)
      modifies pddb
      ensures (pddb.db, Done(r)) == Exec(old(pddb.db), codecs, DoRemovePreKey(id), io)
    {
      var removed := pddb.DeleteKey(PreKeySlot(id), io);
      return if removed.Failed? then Err(InvalidState) else Ok(());
    }
  }

  class PddbSignedPreKeyStore {
    const pddb: Pddb
    const codecs: Codecs

    constructor (pddb: Pddb, codecs: Codecs)
      ensures this.pddb == pddb && this.codecs == codecs
    {
      this.pddb, this.codecs := pddb, codecs;
    }

    method GetSignedPreKey(id: u32, io: Io) returns (r: Result<SignedPreKeyRecord, SignalError>)
      ensures (pddb.db, Signed(r)) == Exec(pddb.db, codecs, DoGetSigned(id), io)
    {
      var read := pddb.ReadBinary(SignedSlot(id), io);
      match read
      case Found(bytes) =>
        var record := codecs.signed.read(bytes);
        return if record.None? then Err(BadRecord) else Ok(record.value);
      case NotFound => return Err(InvalidSignedPreKeyId);
      case Failed => return Err(InvalidState);
    }

    method SaveSignedPreKey(id: u32, record: SignedPreKeyRecord, io: Io) returns (r: Result<(), SignalError>)
      modifies pddb
      ensures (pddb.db, Done(r)) == Exec(old(pddb.db), codecs, DoSaveSigned(id, record), io)
    {
      var data := codecs.signed.write(record);
      if data.None? {
        return Err(InvalidState);
      }
      var ok := pddb.WriteBinary(SignedSlot(id), data.value, io);
      return if ok then Ok(()) else Err(InvalidState);
    }
  }

  class PddbKyberPreKeyStore {
    const pddb: Pddb
    const codecs: Codecs

    constructor (pddb: Pddb, codecs: Codecs)
      ensures this.pddb == pddb && this.codecs == codecs
    {
      this.pddb, this.codecs := pddb, codecs;
    }

    method GetKyberPreKey(id: u32, io: Io) returns (r: Result<KyberPreKeyRecord, SignalError>)
      ensures (pddb.db, Kyber(r)) == Exec(pddb.db, codecs, DoGetKyber(id), io)
    {
      var read := pddb.ReadBinary(KyberSlot(id), io);
      match read
      case Found(bytes) =>
        var record := codecs.kyber.read(bytes);
        return if record.None? then Err(BadRecord) else Ok(record.value);
      case NotFound => return Err(InvalidKyberPreKeyId);
      case Failed => return Err(InvalidState);
    }

    method SaveKyberPreKey(id: u32, record: KyberPreKeyRecord, io: Io) returns (r: Result<(), SignalError>)
      modifies pddb
      ensures (pddb.db, Done(r)) == Exec(old(pddb.db), codecs, DoSaveKyber(id, record), io)
    {
      var data := codecs.kyber.write(record);
      if data.None? {
        return Err(InvalidState);
      }
      var ok := pddb.WriteBinary(KyberSlot(id), data.value, io);
      return if ok then Ok(()) else Err(InvalidState);
    }

    method MarkKyberPreKeyUsed(mark: Mark, io: Io) returns (r: Result<(), SignalError>)
      modifies pddb
      ensures (pddb.db, Done(r)) == Exec(old(pddb.db), codecs, DoMarkUsed(mark), io)
    {
      var seen := pddb.ReadBinary(MarkSlot(codecs, mark), io);
      match seen
      case Found(_) => return Err(InvalidKyberPreKeyId);
      case Failed => return Err(InvalidState);
      case NotFound =>
        var ok := pddb.WriteBinary(MarkSlot(codecs, mark), USED, io);
        return if ok then Ok(()) else Err(InvalidState);
    }
  }

  class PddbSessionStore {
    const pddb: Pddb
    const codecs: Codecs

    constructor (pddb: Pddb, codecs: Codecs)
      ensures this.pddb == pddb && this.codecs == codecs
    {
      this.pddb, this.codecs := pddb, codecs;
    }

    method LoadSession(address: Address, io: Io) returns (r: Result<Option<SessionRecord>, SignalError>)
      ensures (pddb.db, Session(r)) == Exec(pddb.db, codecs, DoLoadSession(address), io)
    {
      var read := pddb.ReadBinary(SessionSlot(address), io);
      match read
      case Found(bytes) =>
        var record := codecs.session.read(bytes);
        return if record.None? then Err(BadRecord) else Ok(record);
      case NotFound => return Ok(None);
      case Failed => return Err(InvalidState);
    }

    method StoreSession(address: Address, record: SessionRecord, io: Io) returns (r: Result<(), SignalError>)
      modifies pddb
      ensures (pddb.db, Done(r)) == Exec(old(pddb.db), codecs, DoStoreSession(address, record), io)
    {
      var data := codecs.session.write(record);
      if data.None? {
        return Err(InvalidState);
      }
      var ok := pddb.WriteBinary(SessionSlot(address), data.value, io);
      return if ok then Ok(()) else Err(InvalidState);
    }
  }
}
