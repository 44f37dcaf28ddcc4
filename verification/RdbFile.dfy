/**
 The `Rdb` object: two maps updated in place, written and read by loops
 (`src/rdb.rs:24-48` and `162-244`).
 */
module RdbFiles {
  import opened Types
  import opened Parser
  import opened Orders
  import opened RdbCodec

  /** `RdbString::serialize`. */
  method SerializeEntry(key: Key, v: RdbString) returns (out: Bytes)
    ensures out == EntryBytes(key, v)
  {
    match v.expire {
      case NoExpiry =>
        out := [];
      case Milliseconds(ms) =>
        out := [EXPIRE_MS];
        out := out + ToLe(ms, 8);
      case Seconds(secs) =>
        out := [EXPIRE_SECS];
        out := out + ToLe(secs, 4);
    }
    out := out + [v.encoding];
    var size := EncodeSize(|key|);
    out := out + size + key;
    var valueSize := EncodeSize(|v.value|);
    out := out + valueSize + v.value;
  }

  class RdbFile {
    var metadata: map<Text, Text>
    var data: map<Key, RdbString>

    function Contents(): Rdb
      reads this
    {
      Rdb(metadata, data)
    }

    constructor (metadata: map<Text, Text>, data: map<Key, RdbString>)
      ensures Contents() == Rdb(metadata, data)
    {
      this.metadata := metadata;
      this.data := data;
    }

    /** Inserts or replaces, and returns what was there before. */
    method Set(key: Key, value: RdbString) returns (previous: Option<RdbString>)
      modifies this
      ensures Contents() == old(Contents()).(data := old(data)[key := value])
      ensures previous == if key in old(data) then Some(old(data)[key]) else None
    {
      previous := if key in data then Some(data[key]) else None;
      data := data[key := value];
    }

    /** `Rdb::serialize`: both maps are written in whatever order they iterate. */
    method Serialize() returns (out: Bytes)
      ensures exists metadataOrder, dataOrder ::
        && IsOrder(metadataOrder, metadata.Keys) && IsOrder(dataOrder, data.Keys)
        && out == SerializeIn(Contents(), metadataOrder, dataOrder)
    {
      var r := Contents();
      out := MAGIC + VERSION;
      var metadataOrder := Iterate(metadata.Keys);
      var section := SerializeMetadata(r, metadataOrder);
      out := out + section;
      var dataOrder := Iterate(data.Keys);
      var database := SerializeDatabase(r, dataOrder);
      out := out + database;
      out := out + [END_OF_FILE];
      out := out + NO_CRC;
      Assemble(MAGIC + VERSION, section, database);
    }

    /** `Rdb::deserialize`. */
    static method Load(input: Bytes) returns (file: RdbFile?)
      ensures file == null <==> Deserialize(input) == None
      ensures file != null ==> fresh(file) && Deserialize(input) == Some(file.Contents())
    {
      var magic := Tag(MAGIC, input);
      if magic.IsFailure() { return null; }
      var version := Take(4, magic.rest);
      if version.IsFailure() { return null; }
      ParseMetadataShrinks();
      var sections := Many0Loop(ParseMetadata, version.rest);
      if sections.IsFailure() { return null; }
      ParseDatabaseShrinks();
      var databases := Many0Loop(ParseDatabase, sections.rest);
      if databases.IsFailure() { return null; }
      var eof := ReadByte(END_OF_FILE, databases.rest);
      if eof.IsFailure() { return null; }
      var crc := Take(8, eof.rest);
      if crc.IsFailure() { return null; }
      var parts: seq<Entry> := [];
      for i := 0 to |databases.value|
        invariant parts == Flatten(databases.value[..i])
      {
        assert databases.value[..i + 1][..i] == databases.value[..i];
        parts := parts + databases.value[i];
      }
      assert databases.value[..|databases.value|] == databases.value;
      file := new RdbFile(FromPairs(sections.value), FromPairs(parts));
    }
  }

  method SerializeMetadata(r: Rdb, order: seq<Text>) returns (out: Bytes)
    requires KeysOf(order, r.metadata)
    ensures out == MetadataBytes(r, order)
  {
    hide Sized;
    out := [];
    for i := 0 to |order|
      invariant out + MetadataBytes(r, order[i..]) == MetadataBytes(r, order)
    {
      assert order[i..][0] == order[i] && order[i..][1..] == order[i + 1..];
      var pair := [METADATA];
      pair := pair + Sized(order[i]);
      pair := pair + Sized(r.metadata[order[i]]);
      out := out + pair;
    }
  }

  method SerializeEntries(r: Rdb, order: seq<Key>) returns (out: Bytes)
    requires KeysOf(order, r.data)
    ensures out == EntriesBytes(r, order)
  {
    hide EntryBytes;
    out := [];
    for i := 0 to |order|
      invariant out + EntriesBytes(r, order[i..]) == EntriesBytes(r, order)
    {
      assert order[i..][0] == order[i] && order[i..][1..] == order[i + 1..];
      var bytes := SerializeEntry(order[i], r.data[order[i]]);
      out := out + bytes;
    }
  }

  method SerializeDatabase(r: Rdb, order: seq<Key>) returns (out: Bytes)
    requires KeysOf(order, r.data)
    ensures out == DatabaseBytes(r, order)
  {
    out := [];
    if |r.data| != 0 {
      out := [DATABASE, 0];
      out := out + [HASH_SIZES];
      var size := EncodeSize(|r.data|);
      var expiring := EncodeSize(|Expiring(r)|);
      out := out + size;
      out := out + expiring;
      assert out == DatabaseHeaderBytes(r);
      var entries := SerializeEntries(r, order);
      out := out + entries;
    }
  }

  lemma Assemble(head: Bytes, section: Bytes, database: Bytes)
    ensures head + section + database + [END_OF_FILE] + NO_CRC == head + (section + (database + TRAILER))
  {
  }
}
