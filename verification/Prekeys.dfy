/** The prekeys of a link: their ids and records, and saving them (`src/manager/prekeys.rs`). */
module Prekeys {
  import opened Base
  import opened PddbModel
  import opened Stores

  const MEDIUM_MAX := 0x00FF_FFFF

  /** What is uploaded under an id, and the private record kept for it. */
  datatype Generated = Generated(
    aciSigned: u32, pniSigned: u32, aciKyber: u32, pniKyber: u32,
    aciSignedRecord: SignedPreKeyRecord, pniSignedRecord: SignedPreKeyRecord,
    aciKyberRecord: KyberPreKeyRecord, pniKyberRecord: KyberPreKeyRecord)

  function RandomPrekeyId(random: u32): u32 {
    random % 0x00FF_FFFF + 1
  }

  /** `generate_prekeys`, given four draws of the generator and the key material. */
  function Generate(draws: seq<u32>, material: seq<string>): (g: Generated)
    requires |draws| == |material| == 4
    ensures Consistent(g)
    ensures 1 <= g.aciSigned <= MEDIUM_MAX && 1 <= g.pniSigned <= MEDIUM_MAX
    ensures 1 <= g.aciKyber <= MEDIUM_MAX && 1 <= g.pniKyber <= MEDIUM_MAX
  {
    var a, p := RandomPrekeyId(draws[0]), RandomPrekeyId(draws[1]);
    var k, q := RandomPrekeyId(draws[2]), RandomPrekeyId(draws[3]);
    Generated(a, p, k, q,
              SignedPreKeyRecord(a, material[0]), SignedPreKeyRecord(p, material[1]),
              KyberPreKeyRecord(k, material[2]), KyberPreKeyRecord(q, material[3]))
  }

  /** Every uploaded id is the id of the record kept for it. */
  predicate Consistent(g: Generated) {
    && g.aciSignedRecord.id == g.aciSigned && g.pniSignedRecord.id == g.pniSigned
    && g.aciKyberRecord.id == g.aciKyber && g.pniKyberRecord.id == g.pniKyber
  }

  /** The store calls of `save_to_pddb`, by the ids in the records. */
  function SaveOps(g: Generated): seq<Op> {
    [DoSaveSigned(g.aciSignedRecord.id, g.aciSignedRecord), DoSaveSigned(g.pniSignedRecord.id, g.pniSignedRecord),
     DoSaveKyber(g.aciKyberRecord.id, g.aciKyberRecord), DoSaveKyber(g.pniKyberRecord.id, g.pniKyberRecord)]
  }

  /** A sequence of saving calls that stops at the first error. */
  function UntilError(db: Db, c: Codecs, ops: seq<Op>, io: seq<Io>): (Db, Result<(), SignalError>)
    requires |ops| == |io|
    decreases |ops|
  {
    if ops == [] then (db, Ok(()))
    else
      var (db', a) := Exec(db, c, ops[0], io[0]);
      if Succeeds(a) then UntilError(db', c, ops[1..], io[1..])
      else (db', if a.Done? then a.done else Err(InvalidState))
  }

  method SaveToPddb(pddb: Pddb, c: Codecs, g: Generated, io: seq<Io>) returns (r: Result<(), SignalError>)
    requires |io| == 4
    modifies pddb
    ensures (pddb.db, r) == UntilError(old(pddb.db), c, SaveOps(g), io)
  {
    var spk := new PddbSignedPreKeyStore(pddb, c);
    var kpk := new PddbKyberPreKeyStore(pddb, c);
    Stepwise(pddb.db, c, SaveOps(g), io);
    r := spk.SaveSignedPreKey(g.aciSignedRecord.id, g.aciSignedRecord, io[0]);
    if r.Err? {
      return;
    }
    r := spk.SaveSignedPreKey(g.pniSignedRecord.id, g.pniSignedRecord, io[1]);
    if r.Err? {
      return;
    }
    r := kpk.SaveKyberPreKey(g.aciKyberRecord.id, g.aciKyberRecord, io[2]);
    if r.Err? {
      return;
    }
    r := kpk.SaveKyberPreKey(g.pniKyberRecord.id, g.pniKyberRecord, io[3]);
  }

  const HEALTHY4 := [HEALTHY, HEALTHY, HEALTHY, HEALTHY]

  /** Nothing outside the two prekey dictionaries changes, however the save goes. */
  lemma {:induction false} SaveKeepsOthers(db: Db, c: Codecs, ops: seq<Op>, io: seq<Io>, slot: Slot)
    requires |ops| == |io| && forall op :: op in ops ==> op.DoSaveSigned? || op.DoSaveKyber?
    requires slot.dict != SIGNED_PREKEY_DICT && slot.dict != KYBER_PREKEY_DICT
    ensures var after := UntilError(db, c, ops, io).0; Get(after, slot, HEALTHY) == Get(db, slot, HEALTHY)
    decreases |ops|
  {
    if ops != [] {
      assert ops[0] in ops;
      FirstOp(db, c, ops, io);
      var step := Exec(db, c, ops[0], io[0]);
      assert Get(step.0, slot, HEALTHY) == Get(db, slot, HEALTHY);
      hide Exec;
      if Succeeds(step.1) {
        SaveKeepsOthers(step.0, c, ops[1..], io[1..], slot);
      }
    }
  }

  /** On healthy storage a save that reports success has written all four records, in order. */
  lemma SavedAll(db: Db, c: Codecs, g: Generated)
    requires UntilError(db, c, SaveOps(g), HEALTHY4).1.Ok?
    ensures c.signed.write(g.aciSignedRecord).Some? && c.signed.write(g.pniSignedRecord).Some?
    ensures c.kyber.write(g.aciKyberRecord).Some? && c.kyber.write(g.pniKyberRecord).Some?
    ensures UntilError(db, c, SaveOps(g), HEALTHY4).0 ==
      db[SignedSlot(g.aciSignedRecord.id) := c.signed.write(g.aciSignedRecord).value]
        [SignedSlot(g.pniSignedRecord.id) := c.signed.write(g.pniSignedRecord).value]
        [KyberSlot(g.aciKyberRecord.id) := c.kyber.write(g.aciKyberRecord).value]
        [KyberSlot(g.pniKyberRecord.id) := c.kyber.write(g.pniKyberRecord).value]
  {
    Stepwise(db, c, SaveOps(g), HEALTHY4);
    hide UntilError;
    var ops := SaveOps(g);
    var s1 := Exec(db, c, ops[0], HEALTHY);
    var s2 := Exec(s1.0, c, ops[1], HEALTHY);
    var s3 := Exec(s2.0, c, ops[2], HEALTHY);
    HealthySave(db, SignedSlot(g.aciSignedRecord.id), c.signed, g.aciSignedRecord);
    HealthySave(s1.0, SignedSlot(g.pniSignedRecord.id), c.signed, g.pniSignedRecord);
    HealthySave(s2.0, KyberSlot(g.aciKyberRecord.id), c.kyber, g.aciKyberRecord);
    HealthySave(s3.0, KyberSlot(g.pniKyberRecord.id), c.kyber, g.pniKyberRecord);
  }

  predicate Succeeds(a: Answer) {
    a.Done? && a.done.Ok?
  }

  /** Four calls, one after the other. */
  lemma Stepwise(db: Db, c: Codecs, ops: seq<Op>, io: seq<Io>)
    requires |ops| == |io| == 4 && forall op :: op in ops ==> op.DoSaveSigned? || op.DoSaveKyber?
    ensures var s1 := Exec(db, c, ops[0], io[0]);
      var s2 := Exec(s1.0, c, ops[1], io[1]);
      var s3 := Exec(s2.0, c, ops[2], io[2]);
      var s4 := Exec(s3.0, c, ops[3], io[3]);
      && s1.1.Done? && s2.1.Done? && s3.1.Done? && s4.1.Done?
      && UntilError(db, c, ops, io) ==
        if !Succeeds(s1.1) then (s1.0, s1.1.done)
        else if !Succeeds(s2.1) then (s2.0, s2.1.done)
        else if !Succeeds(s3.1) then (s3.0, s3.1.done)
        else if !Succeeds(s4.1) then (s4.0, s4.1.done)
        else (s4.0, Ok(()))
  {
    var s1 := Exec(db, c, ops[0], io[0]);
    var s2 := Exec(s1.0, c, ops[1], io[1]);
    var s3 := Exec(s2.0, c, ops[2], io[2]);
    var s4 := Exec(s3.0, c, ops[3], io[3]);
    var o1, o2, o3 := ops[1..], ops[2..], ops[3..];
    var i1, i2, i3 := io[1..], io[2..], io[3..];
    assert o1[1..] == o2 && o2[1..] == o3 && o3[1..] == [] == ops[4..];
    assert i1[1..] == i2 && i2[1..] == i3 && i3[1..] == [];
    assert forall op :: op in o1 + o2 + o3 ==> op in ops;
    assert UntilError(s4.0, c, [], []) == (s4.0, Ok(()));
    FirstOp(db, c, ops, io);
    FirstOp(s1.0, c, o1, i1);
    FirstOp(s2.0, c, o2, i2);
    FirstOp(s3.0, c, o3, i3);
    hide Exec, UntilError;
  }

  lemma FirstOp(db: Db, c: Codecs, ops: seq<Op>, io: seq<Io>)
    requires |ops| == |io| && ops != [] && (ops[0].DoSaveSigned? || ops[0].DoSaveKyber?)
    ensures var s := Exec(db, c, ops[0], io[0]);
      && s.1.Done?
      && UntilError(db, c, ops, io) == if Succeeds(s.1) then UntilError(s.0, c, ops[1..], io[1..]) else (s.0, s.1.done)
  {
  }

  /**
   After a successful save each uploaded id loads its record: the pni ids always, the aci ids
   exactly if the id drawn for the pni key is another one or the two records are the same.
   */
  lemma UploadedIdsLoad(db: Db, c: Codecs, g: Generated)
    requires Lawful(c) && Consistent(g) && UntilError(db, c, SaveOps(g), HEALTHY4).1.Ok?
    ensures var after := UntilError(db, c, SaveOps(g), HEALTHY4).0;
      && Exec(after, c, DoGetSigned(g.pniSigned), HEALTHY).1 == Signed(Ok(g.pniSignedRecord))
      && Exec(after, c, DoGetKyber(g.pniKyber), HEALTHY).1 == Kyber(Ok(g.pniKyberRecord))
      && (Exec(after, c, DoGetSigned(g.aciSigned), HEALTHY).1 == Signed(Ok(g.aciSignedRecord)) <==>
            g.aciSigned != g.pniSigned || g.aciSignedRecord == g.pniSignedRecord)
      && (Exec(after, c, DoGetKyber(g.aciKyber), HEALTHY).1 == Kyber(Ok(g.aciKyberRecord)) <==>
            g.aciKyber != g.pniKyber || g.aciKyberRecord == g.pniKyberRecord)
  {
    hide UntilError, SaveOps, IdKey, AddressKey, MarkKey;
    SavedAll(db, c, g);
    SlotsApart(c);
  }

  /**
   Generating and saving: each uploaded id loads the record made for it, the aci ids exactly if the
   generator drew another number for the pni key, modulo the range of ids, or the same key.
   */
  lemma GeneratedIdsLoad(db: Db, c: Codecs, draws: seq<u32>, material: seq<string>)
    requires |draws| == |material| == 4 && Lawful(c)
    requires UntilError(db, c, SaveOps(Generate(draws, material)), HEALTHY4).1.Ok?
    ensures var after := UntilError(db, c, SaveOps(Generate(draws, material)), HEALTHY4).0;
      var a, p := draws[0] % 0xFF_FFFF + 1, draws[1] % 0xFF_FFFF + 1;
      var k, q := draws[2] % 0xFF_FFFF + 1, draws[3] % 0xFF_FFFF + 1;
      && Exec(after, c, DoGetSigned(p), HEALTHY).1 == Signed(Ok(SignedPreKeyRecord(p, material[1])))
      && Exec(after, c, DoGetKyber(q), HEALTHY).1 == Kyber(Ok(KyberPreKeyRecord(q, material[3])))
      && (Exec(after, c, DoGetSigned(a), HEALTHY).1 == Signed(Ok(SignedPreKeyRecord(a, material[0]))) <==>
            a != p || material[0] == material[1])
      && (Exec(after, c, DoGetKyber(k), HEALTHY).1 == Kyber(Ok(KyberPreKeyRecord(k, material[2]))) <==>
            k != q || material[2] == material[3])
  {
    UploadedIdsLoad(db, c, Generate(draws, material));
    hide Exec, UntilError, SaveOps, Lawful;
  }
}
