/** The spill manager: which objects are spilled, and the byte-level files behind them. */
module ObjectManager {
  import opened Bytes
  import opened SpillFormat

  datatype Outcome = NotSpilled | Recovered(obj: Restored) | Unrecoverable | Transient

  /** What a restore of `id` would return: its entry leads to a file that decodes. */
  function Held(directory: map<Id, string>, files: map<string, seq<byte>>, id: Id): Option<Restored> {
    if id in directory && directory[id] in files && Decode(files[directory[id]]).Ok?
    then Some(Decode(files[directory[id]]).obj) else None
  }

  lemma HeldElsewhere(directory: map<Id, string>, files: map<string, seq<byte>>, id: Id, bytes: seq<byte>, other: Id)
    requires other != id && (other in directory ==> directory[other] == FinalName(other))
    ensures Held(directory[id := FinalName(id)], files[FinalName(id) := bytes], other) == Held(directory, files, other)
    ensures Held(directory - {id}, files - {FinalName(id)}, other) == Held(directory, files, other)
    ensures Held(directory - {id}, files, other) == Held(directory, files, other)
  {
    NamesDistinct(id, 0, other, 0);
  }

  lemma HeldAfterSpill(directory: map<Id, string>, files: map<string, seq<byte>>, id: Id, obj: Restored)
    requires Encodable(obj)
    ensures Held(directory[id := FinalName(id)], files[FinalName(id) := Encode(obj)], id) == Some(obj)
  {
    DecodeInvertsEncode(obj, []);
    assert Encode(obj) + [] == Encode(obj);
  }

  class LocalObjectManager {
    var directory: map<Id, string>
    var files: map<string, seq<byte>>

    ghost predicate Valid()
      reads this
    {
      forall id :: id in directory ==> directory[id] == FinalName(id)
    }

    constructor (files: map<string, seq<byte>>)
      ensures Valid() && directory == map[] && this.files == files
    {
      directory := map[];
      this.files := files;
    }

    ghost function Holds(id: Id): Option<Restored>
      reads this
    {
      Held(directory, files, id)
    }

    /** Write the file, then record it; a failure leaves both as they were. */
    method Spill(id: Id, obj: Restored, writeFails: bool) returns (ok: bool)
      requires Valid()
      modifies this
      ensures Valid()
      ensures ok <==> !writeFails && |obj.metadata| < METADATA_LIMIT
      ensures ok && |obj.data| < DATA_LIMIT ==> Holds(id) == Some(obj)
      ensures forall other :: other != id ==> Holds(other) == old(Holds(other))
      ensures !ok ==> directory == old(directory) && files == old(files)
    {
      if writeFails || |obj.metadata| >= METADATA_LIMIT { return false; }
      var path := PathFor(id);
      files := files[path := Encode(obj)];
      directory := directory[id := path];
      if |obj.data| < DATA_LIMIT { HeldAfterSpill(old(directory), old(files), id, obj); }
      forall other: Id | other != id ensures Holds(other) == old(Holds(other)) {
        HeldElsewhere(old(directory), old(files), id, Encode(obj), other);
      }
      return true;
    }

    /** A file that is gone or does not decode takes its entry with it; an error on opening does not. */
    method Recover(id: Id, openFails: bool) returns (r: Outcome)
      requires Valid()
      modifies this`directory
      ensures Valid()
      ensures r == if id !in old(directory) then NotSpilled
                   else if openFails && old(directory)[id] in files then Transient
                   else if old(Holds(id)).Some? then Recovered(old(Holds(id)).value)
                   else Unrecoverable
      ensures directory == if r == Unrecoverable then old(directory) - {id} else old(directory)
    {
      if id !in directory { return NotSpilled; }
      var path := directory[id];
      if path !in files {
        directory := directory - {id};
        return Unrecoverable;
      }
      if openFails { return Transient; }
      var decoded := Restore(files[path]);
      if decoded.Corrupt? {
        directory := directory - {id};
        return Unrecoverable;
      }
      return Recovered(decoded.obj);
    }

    /** Drop the entry, then the file; the entry is gone even when removing the file fails. */
    method Forget(id: Id, removeFails: bool) returns (ok: bool)
      requires Valid()
      modifies this
      ensures Valid() && id !in directory
      ensures ok <==> id !in old(directory) || !removeFails
      ensures directory == old(directory) - {id}
      ensures files == if id in old(directory) && !removeFails then old(files) - {FinalName(id)} else old(files)
      ensures forall other :: other != id ==> Holds(other) == old(Holds(other))
    {
      if id !in directory { return true; }
      var path := directory[id];
      directory := directory - {id};
      if removeFails { return false; }
      files := files - {path};
      forall other: Id | other != id ensures Holds(other) == old(Holds(other)) {
        HeldElsewhere(old(directory), old(files), id, [], other);
      }
      return true;
    }
  }
}
