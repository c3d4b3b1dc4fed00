/**
 The PDDB as sigchat uses it: a key of a dictionary holds a byte string, written by deleting the
 key, creating it anew and writing. A `string` is a byte string here, one character per byte.
 */
module PddbModel {
  import opened Base

  datatype Slot = Slot(dict: string, key: string)

  type Db = map<Slot, string>

  /** How the write half of a delete-create-write goes: in full, not at all, or only `n` bytes of it. */
  datatype WriteFate = Complete | NotCreated | Torn(n: nat)

  /** What the environment does to one store operation. */
  datatype Io = Io(readFails: bool, deleteFails: bool, write: WriteFate)

  const HEALTHY := Io(false, false, Complete)

  datatype Read = Found(bytes: string) | NotFound | Failed

  function Get(db: Db, slot: Slot, io: Io): Read {
    if io.readFails then Failed
    else if slot in db then Found(db[slot])
    else NotFound
  }

  function Delete(db: Db, slot: Slot, io: Io): Db {
    if io.deleteFails then db else db - {slot}
  }

  /** Writing at offset 0 keeps what the old content has beyond the new. */
  function Overwrite(was: string, data: string): string {
    data + if |was| > |data| then was[|data|..] else ""
  }

  function CreateAndWrite(db: Db, slot: Slot, data: string, io: Io): Db {
    var was := if slot in db then db[slot] else "";
    match io.write
    case NotCreated => db
    case Torn(n) => db[slot := Overwrite(was, data[..Min(n, |data|)])]
    case Complete => db[slot := Overwrite(was, data)]
  }

  /** `pddb_write_binary`: a failing delete is ignored. */
  function Write(db: Db, slot: Slot, data: string, io: Io): Db {
    CreateAndWrite(Delete(db, slot, io), slot, data, io)
  }

  class Pddb {
    var db: Db

    constructor ()
      ensures db == map[]
    {
      db := map[];
    }

    /** `delete_key`. */
    method DeleteKey(slot: Slot, io: Io) returns (r: Read)
      modifies this
      ensures db == Delete(old(db), slot, io)
      ensures r == if io.deleteFails then Failed else if slot in old(db) then Found(old(db)[slot]) else NotFound
    {
      if io.deleteFails {
        return Failed;
      }
      r := if slot in db then Found(db[slot]) else NotFound;
      db := db - {slot};
    }

    /** `pddb_read_binary`. */
    method ReadBinary(slot: Slot, io: Io) returns (r: Read)
      ensures r == Get(db, slot, io)
    {
      if io.readFails {
        return Failed;
      }
      r := if slot in db then Found(db[slot]) else NotFound;
    }

    /** `pddb_write_binary`. */
    method WriteBinary(slot: Slot, data: string, io: Io) returns (ok: bool)
      modifies this
      ensures db == Write(old(db), slot, data, io)
      ensures ok == io.write.Complete?
    {
      var _ := DeleteKey(slot, io);
      var was := if slot in db then db[slot] else "";
      match io.write
      case NotCreated => return false;
      case Torn(n) =>
        db := db[slot := Overwrite(was, data[..Min(n, |data|)])];
        return false;
      case Complete =>
        db := db[slot := Overwrite(was, data)];
        return true;
    }
  }

  /** A healthy write is visible under its own key and leaves every other key as it was. */
  lemma HealthyWrite(db: Db, slot: Slot, data: string)
    ensures Write(db, slot, data, HEALTHY) == db[slot := data]
  {
    assert Overwrite("", data) == data;
  }

  /**
   After a write that reported success the key reads as the new data exactly when the old value
   was gone or no longer than it: a delete that failed leaves the tail of a longer value behind.
   */
  lemma WriteThenRead(db: Db, slot: Slot, data: string, io: Io)
    requires io.write.Complete?
    ensures Write(db, slot, data, io)[slot] == data <==> !io.deleteFails || slot !in db || |db[slot]| <= |data|
    ensures io.deleteFails && slot in db && |db[slot]| > |data| ==>
      Write(db, slot, data, io)[slot] == data + db[slot][|data|..]
  {
    var left := Delete(db, slot, io);
    if slot in left && |left[slot]| > |data| {
      assert |Overwrite(left[slot], data)| > |data|;
    } else {
      assert Overwrite(if slot in left then left[slot] else "", data) == data;
    }
  }

  /** A write that could not create the key again has already lost the old value. */
  lemma FailedWriteForgets(db: Db, slot: Slot, data: string, io: Io)
    requires io.write.NotCreated? && !io.deleteFails
    ensures Get(Write(db, slot, data, io), slot, HEALTHY) == NotFound
  {
  }
}
