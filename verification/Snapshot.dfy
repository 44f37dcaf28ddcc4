/**
 Snapshots: what a restart, or a replica, would load from the file a store produces
 (`src/main.rs:148-230`, `1321-1333`; `src/rdb.rs:175-239`).
 */
module Snapshot {
  import opened Types
  import opened Orders
  import opened RespCodec
  import opened RdbCodec
  import opened StoreModel

  /** The part of a store that a snapshot keeps: strings, with their absolute expiry. */
  function StringEntries(data: map<Key, Value>): map<Key, Value> {
    map k | k in data && data[k].value.Str? :: data[k]
  }

  ghost predicate FitsLengths(data: map<Key, Value>) {
    forall k :: k in StringEntries(data) ==> |k| < U32_LIMIT && |data[k].value.s| < U32_LIMIT
  }

  /** What `from_rdb` makes of the file. */
  function Restore(file: Bytes): Option<map<Key, Value>> {
    if Deserialize(file).Some? then Some(FromRdb(Deserialize(file).value)) else None
  }

  /** A loaded store holds exactly the strings of the file. Deadlines in the file may be in milliseconds or in seconds, a
      thousand milliseconds each. */
  lemma LoadedEntries(r: Rdb)
    ensures FromRdb(r).Keys == r.data.Keys
    ensures forall k :: k in r.data ==>
      FromRdb(r)[k] == Value(Str(r.data[k].value),
                             if r.data[k].expire.NoExpiry? then None
                             else if r.data[k].expire.Seconds? then Some(1000 * r.data[k].expire.secs)
                             else Some(r.data[k].expire.ms))
  {
  }

  lemma FromRdbOfToRdb(data: map<Key, Value>)
    ensures FromRdb(ToRdb(data)) == StringEntries(data)
  {
    forall k | k in StringEntries(data) ensures FromRdb(ToRdb(data))[k] == data[k] {
      assert k in ToRdb(data).data;
    }
  }

  lemma StorableIffFits(data: map<Key, Value>)
    ensures Storable(ToRdb(data)) <==> FitsLengths(data)
  {
    forall k | k in StringEntries(data) ensures k in ToRdb(data).data && ToRdb(data).data[k].value == data[k].value.s {
    }
  }

  /** A loaded store has only what the four-byte lengths can express. */
  lemma RestoredFits(file: Bytes)
    ensures Restore(file).Some? ==> FitsLengths(Restore(file).value)
  {
    hide Deserialize;
    LoadedIsStorable(file);
  }

  lemma SameEntriesFit(data: map<Key, Value>)
    requires FitsLengths(StringEntries(data))
    ensures FitsLengths(data)
  {
    forall k | k in StringEntries(data) ensures |k| < U32_LIMIT && |data[k].value.s| < U32_LIMIT {
      assert k in StringEntries(StringEntries(data));
    }
  }

  /** Saving and restoring, in whatever order the entries are written, gives exactly the strings back, each
      with its value and deadline, if and only if every key and value has a length below 2^32. */
  lemma SnapshotRestoresIff(data: map<Key, Value>, order: seq<Key>)
    requires IsOrder(order, ToRdb(data).data.Keys)
    ensures Restore(SerializeIn(ToRdb(data), [], order)) == Some(StringEntries(data)) <==> FitsLengths(data)
  {
    hide SerializeIn, Deserialize, FromRdb, Storable, FitsLengths;
    var file := SerializeIn(ToRdb(data), [], order);
    StorableIffFits(data);
    FromRdbOfToRdb(data);
    if FitsLengths(data) {
      RdbRoundTripIff(ToRdb(data), [], order);
    } else {
      RestoredFits(file);
      if Restore(file) == Some(StringEntries(data)) {
        SameEntriesFit(data);
      }
    }
  }

  /** The snapshot a joining replica is sent holds exactly the strings of the store at that moment. */
  lemma ReplicaReceivesSnapshot(s: State, c: ClientId, channel: Channel, t: State) returns (file: Bytes)
    requires Step(s, AddReplica(c, channel), t) && FitsLengths(s.data)
    ensures t.out == s.out + [Reply(channel, File(file))] && Restore(file) == Some(StringEntries(s.data))
    ensures t.data == s.data
  {
    hide SerializeIn, Restore, ToRdb, FitsLengths, StringEntries;
    var order :| IsOrder(order, ToRdb(s.data).data.Keys) && t == JoinReplica(s, c, channel, order);
    file := SerializeIn(ToRdb(s.data), [], order);
    SnapshotRestoresIff(s.data, order);
  }
}
