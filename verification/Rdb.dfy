/**
 The RDB file format: three length encodings, optional expiry prefixes, unordered maps
 (`src/rdb.rs` and the `le_*` parsers of `src/parser.rs`).
 */
module RdbCodec {
  import opened Types
  import opened Parser
  import opened Orders

  datatype Expiration = NoExpiry | Seconds(secs: u32) | Milliseconds(ms: u64)

  datatype RdbString = RdbString(encoding: byte, value: Bytes, expire: Expiration)

  datatype Rdb = Rdb(metadata: map<Text, Text>, data: map<Key, RdbString>)

  type Entry = (Key, RdbString)

  // ------------------------------------------------------------- fixed-width numbers

  function ToLe(n: nat, width: nat): (s: Bytes)
    ensures |s| == width
  {
    if width == 0 then [] else [(n % 256) as byte] + ToLe(n / 256, width - 1)
  }

  function FromLe(s: Bytes): nat {
    if s == [] then 0 else s[0] as int + 256 * FromLe(s[1..])
  }

  function Pow256(width: nat): (p: nat)
    ensures p > 0
  {
    if width == 0 then 1 else 256 * Pow256(width - 1)
  }

  lemma {:induction false} LeRoundTrip(n: nat, width: nat)
    requires n < Pow256(width)
    ensures FromLe(ToLe(n, width)) == n
  {
    if width > 0 {
      LeRoundTrip(n / 256, width - 1);
      assert ToLe(n, width)[1..] == ToLe(n / 256, width - 1);
    }
  }

  lemma {:induction false} FromLeBound(s: Bytes)
    ensures FromLe(s) < Pow256(|s|)
  {
    if s != [] {
      FromLeBound(s[1..]);
    }
  }

  // -------------------------------------------------------------------- length prefix

  /** `le_encode_size`: 6 bits, 14 bits, or 32 bits to which a longer length is truncated. */
  function EncodeSize(n: nat): Bytes {
    if n <= 63 then [n as byte]
    else if n <= 16383 then [(64 + n / 256) as byte, (n % 256) as byte]
    else
      var m := n % U32_LIMIT;
      [128,
       (m / 0x100_0000) as byte, (m / 0x1_0000 % 256) as byte, (m / 256 % 256) as byte, (m % 256) as byte]
  }

  datatype Prefix = Plain(n: nat) | Embedded(width: nat)

  /** The two top bits of the first byte select the length encoding. Reading past the end panics. */
  function LengthPrefix(input: Bytes): ParseResult<Prefix> {
    if |input| == 0 then Panic
    else
      var first := input[0] as int;
      if first / 64 == 0 then Ok(Plain(first), input[1..])
      else if first / 64 == 1 then
        if |input| < 2 then Panic else Ok(Plain(first % 64 * 256 + input[1] as int), input[2..])
      else if first / 64 == 2 then
        if |input| < 5 then Panic
        else
          Ok(Plain(input[1] as int * 0x100_0000 + input[2] as int * 0x1_0000
                   + input[3] as int * 256 + input[4] as int), input[5..])
      else if first == 0xC0 then Ok(Embedded(1), input[1..])
      else if first == 0xC1 then Ok(Embedded(2), input[1..])
      else if first == 0xC2 then Ok(Embedded(4), input[1..])
      else Err
  }

  function LeInteger(input: Bytes): ParseResult<nat> {
    var (prefix, rest) :- LengthPrefix(input);
    if prefix.Plain? then Ok(prefix.n, rest) else Err
  }

  function Reverse(s: Bytes): Bytes {
    if s == [] then [] else Reverse(s[1..]) + [s[0]]
  }

  /** `le_bytes`: that many bytes, or a small integer stored in place of the string. */
  function LeBytes(input: Bytes): ParseResult<Bytes> {
    var (prefix, rest) :- LengthPrefix(input);
    var size := if prefix.Plain? then prefix.n else prefix.width;
    if |rest| < size then Panic
    else if prefix.Plain? then Ok(rest[..size], rest[size..])
    else Ok(Reverse(rest[..size]), rest[size..])
  }

  /** `le_string`: bytes that are not UTF-8 panic. */
  function LeString(input: Bytes): ParseResult<Text> {
    var (s, rest) :- LeBytes(input);
    if ValidUtf8(s) then Ok(s, rest) else Panic
  }

  lemma BigEndianParts(m: nat)
    requires m < U32_LIMIT
    ensures m / 0x100_0000 * 0x100_0000 + m / 0x1_0000 % 256 * 0x1_0000 + m / 256 % 256 * 256 + m % 256 == m
  {
    assert m / 0x1_0000 == m / 256 / 256;
    assert m / 0x100_0000 == m / 256 / 256 / 256;
  }

  lemma SizeRoundTrip(n: nat, rest: Bytes)
    ensures LengthPrefix(EncodeSize(n) + rest) == Ok(Plain(if n <= 16383 then n else n % U32_LIMIT), rest)
  {
    var input := EncodeSize(n) + rest;
    if n <= 63 {
      assert input[1..] == rest;
    } else if n <= 16383 {
      assert input[2..] == rest;
    } else {
      assert input[5..] == rest;
      BigEndianParts(n % U32_LIMIT);
    }
  }

  lemma LeBytesRoundTrip(s: Bytes, rest: Bytes)
    requires |s| < U32_LIMIT
    ensures LeBytes(EncodeSize(|s|) + s + rest) == Ok(s, rest)
  {
    SizeRoundTrip(|s|, s + rest);
    assert EncodeSize(|s|) + s + rest == EncodeSize(|s|) + (s + rest);
    assert (s + rest)[..|s|] == s && (s + rest)[|s|..] == rest;
  }

  lemma {:induction false} ReverseLength(s: Bytes)
    ensures |Reverse(s)| == |s|
  {
    if s != [] {
      ReverseLength(s[1..]);
    }
  }

  lemma LeBytesShrinks(input: Bytes)
    ensures LeBytes(input).Ok? ==>
      StrictSuffix(LeBytes(input).rest, input) && |LeBytes(input).value| < U32_LIMIT
  {
    var prefix := LengthPrefix(input);
    if prefix.Ok? {
      var size := if prefix.value.Plain? then prefix.value.n else prefix.value.width;
      if size <= |prefix.rest| {
        SuffixOfSuffix(prefix.rest[size..], prefix.rest, input);
        ReverseLength(prefix.rest[..size]);
      }
    }
  }

  // -------------------------------------------------------------------------- entries

  const EXPIRE_MS: byte := 0xFC
  const EXPIRE_SECS: byte := 0xFD
  const METADATA: byte := 0xFA
  const DATABASE: byte := 0xFE
  const HASH_SIZES: byte := 0xFB
  const END_OF_FILE: byte := 0xFF

  function ExpireBytes(e: Expiration): Bytes {
    match e
    case NoExpiry => []
    case Milliseconds(ms) => [EXPIRE_MS] + ToLe(ms, 8)
    case Seconds(secs) => [EXPIRE_SECS] + ToLe(secs, 4)
  }

  function Sized(s: Bytes): Bytes {
    EncodeSize(|s|) + s
  }

  /** `RdbString::serialize`. */
  function EntryBytes(key: Key, v: RdbString): Bytes {
    ExpireBytes(v.expire) + [v.encoding] + Sized(key) + Sized(v.value)
  }

  /** A zero type byte, a key and a value. */
  function EntryBody(input: Bytes): ParseResult<(Key, Bytes)> {
    var (_, rest) :- ReadByte(0, input);
    var (key, rest) :- LeBytes(rest);
    var (value, rest) :- LeBytes(rest);
    Ok((key, value), rest)
  }

  function ExpiringEntry(marker: byte, width: nat, input: Bytes): ParseResult<(Bytes, Key, Bytes)> {
    var (_, rest) :- ReadByte(marker, input);
    var (expire, rest) :- Take(width, rest);
    var (body, rest) :- EntryBody(rest);
    Ok((expire, body.0, body.1), rest)
  }

  /** `parse_rdb_entry`: no expiry, milliseconds, seconds, tried in that order. */
  function ParseEntry(input: Bytes): ParseResult<Entry> {
    match EntryBody(input)
    case Ok(e, rest) => Ok((e.0, RdbString(0, e.1, NoExpiry)), rest)
    case Panic => Panic
    case Err =>
      match ExpiringEntry(EXPIRE_MS, 8, input)
      case Ok(e, rest) => Ok((e.1, RdbString(0, e.2, Milliseconds(FromLe(e.0) % U64_LIMIT))), rest)
      case Panic => Panic
      case Err =>
        match ExpiringEntry(EXPIRE_SECS, 4, input)
        case Ok(e, rest) => Ok((e.1, RdbString(0, e.2, Seconds(FromLe(e.0) % U32_LIMIT))), rest)
        case Panic => Panic
        case Err => Err
  }

  lemma EntryBodyShrinks(input: Bytes)
    ensures EntryBody(input).Ok? ==>
      && StrictSuffix(EntryBody(input).rest, input)
      && |EntryBody(input).value.0| < U32_LIMIT && |EntryBody(input).value.1| < U32_LIMIT
  {
    if ReadByte(0, input).Ok? {
      LeBytesShrinks(input[1..]);
      var key := LeBytes(input[1..]);
      if key.Ok? {
        SuffixOfSuffix(key.rest, input[1..], input);
        LeBytesShrinks(key.rest);
        if LeBytes(key.rest).Ok? {
          SuffixOfSuffix(LeBytes(key.rest).rest, key.rest, input);
        }
      }
    }
  }

  lemma ExpiringEntryShrinks(marker: byte, width: nat, input: Bytes)
    ensures
      var r := ExpiringEntry(marker, width, input);
      r.Ok? ==>
        && StrictSuffix(r.rest, input)
        && |r.value.1| < U32_LIMIT && |r.value.2| < U32_LIMIT && |r.value.0| == width
  {
    if ReadByte(marker, input).Ok? && width <= |input[1..]| {
      var body := input[1..][width..];
      SuffixOfSuffix(body, input[1..], input);
      EntryBodyShrinks(body);
      if EntryBody(body).Ok? {
        SuffixOfSuffix(EntryBody(body).rest, body, input);
      }
    }
  }

  /** What a file can hold: type byte 0 and lengths below 2^32. */
  predicate StorableEntry(e: Entry) {
    e.1.encoding == 0 && |e.0| < U32_LIMIT && |e.1.value| < U32_LIMIT
  }

  /** Every entry read takes at least one byte and is storable again. */
  lemma EntryShrinks(input: Bytes)
    ensures ParseEntry(input).Ok? ==>
      StrictSuffix(ParseEntry(input).rest, input) && StorableEntry(ParseEntry(input).value)
  {
    EntryBodyShrinks(input);
    ExpiringEntryShrinks(EXPIRE_MS, 8, input);
    ExpiringEntryShrinks(EXPIRE_SECS, 4, input);
  }

  lemma ParseEntryShrinks()
    ensures Shrinks(ParseEntry)
  {
    forall input ensures ParseEntry(input).Ok? ==> StrictSuffix(ParseEntry(input).rest, input) {
      EntryShrinks(input);
    }
  }

  lemma EntryBodyRoundTrip(key: Key, value: Bytes, rest: Bytes)
    requires |key| < U32_LIMIT && |value| < U32_LIMIT
    ensures EntryBody([0] + Sized(key) + Sized(value) + rest) == Ok((key, value), rest)
  {
    var tail := Sized(value) + rest;
    assert ([0 as byte] + Sized(key) + Sized(value) + rest)[1..] == EncodeSize(|key|) + key + tail;
    LeBytesRoundTrip(key, tail);
    LeBytesRoundTrip(value, rest);
  }

  lemma ExpiringEntryRoundTrip(marker: byte, expire: Bytes, key: Key, value: Bytes, rest: Bytes)
    requires |key| < U32_LIMIT && |value| < U32_LIMIT
    ensures ExpiringEntry(marker, |expire|, [marker] + expire + ([0] + Sized(key) + Sized(value) + rest))
         == Ok((expire, key, value), rest)
  {
    var body := [0] + Sized(key) + Sized(value) + rest;
    assert ([marker] + expire + body)[1..] == expire + body;
    TakeReads(expire, body);
    EntryBodyRoundTrip(key, value, rest);
    hide EntryBody, Sized;
  }

  /** Each of the three expiry forms is read back as itself. */
  lemma EntryRoundTrip(key: Key, v: RdbString, rest: Bytes)
    requires StorableEntry((key, v))
    ensures ParseEntry(EntryBytes(key, v) + rest) == Ok((key, v), rest)
  {
    hide ParseEntry, Sized;
    var tail := [0] + Sized(key) + Sized(v.value) + rest;
    assert EntryBytes(key, v) + rest == ExpireBytes(v.expire) + tail;
    match v.expire {
      case NoExpiry =>
        assert [] + tail == tail;
        PlainEntry(key, v.value, rest);
      case Milliseconds(ms) =>
        LeRoundTrip(ms, 8);
        MillisecondsEntry(ToLe(ms, 8), key, v.value, rest);
      case Seconds(secs) =>
        LeRoundTrip(secs, 4);
        SecondsEntry(ToLe(secs, 4), key, v.value, rest);
    }
  }

  lemma PlainEntry(key: Key, value: Bytes, rest: Bytes)
    requires |key| < U32_LIMIT && |value| < U32_LIMIT
    ensures ParseEntry([0] + Sized(key) + Sized(value) + rest) == Ok((key, RdbString(0, value, NoExpiry)), rest)
  {
    EntryBodyRoundTrip(key, value, rest);
  }

  lemma MillisecondsEntry(expire: Bytes, key: Key, value: Bytes, rest: Bytes)
    requires |expire| == 8 && |key| < U32_LIMIT && |value| < U32_LIMIT
    ensures ParseEntry([EXPIRE_MS] + expire + ([0] + Sized(key) + Sized(value) + rest))
         == Ok((key, RdbString(0, value, Milliseconds(FromLe(expire) % U64_LIMIT))), rest)
  {
    var input := [EXPIRE_MS] + expire + ([0] + Sized(key) + Sized(value) + rest);
    assert EntryBody(input).Err?;
    ExpiringEntryRoundTrip(EXPIRE_MS, expire, key, value, rest);
    hide ExpiringEntry, EntryBody;
  }

  lemma SecondsEntry(expire: Bytes, key: Key, value: Bytes, rest: Bytes)
    requires |expire| == 4 && |key| < U32_LIMIT && |value| < U32_LIMIT
    ensures ParseEntry([EXPIRE_SECS] + expire + ([0] + Sized(key) + Sized(value) + rest))
         == Ok((key, RdbString(0, value, Seconds(FromLe(expire) % U32_LIMIT))), rest)
  {
    var input := [EXPIRE_SECS] + expire + ([0] + Sized(key) + Sized(value) + rest);
    assert EntryBody(input).Err? && ExpiringEntry(EXPIRE_MS, 8, input).Err?;
    ExpiringEntryRoundTrip(EXPIRE_SECS, expire, key, value, rest);
    hide ExpiringEntry, EntryBody;
  }

  // ------------------------------------------------------------------------- sections

  function ParseMetadata(input: Bytes): ParseResult<(Text, Text)> {
    var (_, rest) :- ReadByte(METADATA, input);
    var (k, rest) :- LeString(rest);
    var (v, rest) :- LeString(rest);
    Ok((k, v), rest)
  }

  lemma MetadataShrinks(input: Bytes)
    ensures ParseMetadata(input).Ok? ==>
      && StrictSuffix(ParseMetadata(input).rest, input)
      && |ParseMetadata(input).value.0| < U32_LIMIT && |ParseMetadata(input).value.1| < U32_LIMIT
  {
    if ReadByte(METADATA, input).Ok? {
      LeBytesShrinks(input[1..]);
      var key := LeString(input[1..]);
      if key.Ok? {
        SuffixOfSuffix(key.rest, input[1..], input);
        LeBytesShrinks(key.rest);
        if LeString(key.rest).Ok? {
          SuffixOfSuffix(LeString(key.rest).rest, key.rest, input);
        }
      }
    }
  }

  lemma ParseMetadataShrinks()
    ensures Shrinks(ParseMetadata)
  {
    forall input ensures ParseMetadata(input).Ok? ==> StrictSuffix(ParseMetadata(input).rest, input) {
      MetadataShrinks(input);
    }
  }

  lemma MetadataRoundTrip(k: Text, v: Text, rest: Bytes)
    requires |k| < U32_LIMIT && |v| < U32_LIMIT
    ensures ParseMetadata([METADATA] + Sized(k) + Sized(v) + rest) == Ok((k, v), rest)
  {
    var tail := Sized(v) + rest;
    assert ([METADATA] + Sized(k) + Sized(v) + rest)[1..] == EncodeSize(|k|) + k + tail;
    LeBytesRoundTrip(k, tail);
    LeBytesRoundTrip(v, rest);
  }

  function DatabaseHeader(input: Bytes): ParseResult<()> {
    var (_, rest) :- ReadByte(DATABASE, input);
    var (_, rest) :- LeInteger(rest);
    var (_, rest) :- ReadByte(HASH_SIZES, rest);
    var (_, rest) :- LeInteger(rest);
    var (_, rest) :- LeInteger(rest);
    Ok((), rest)
  }

  function ParseEntries(input: Bytes): ParseResult<seq<Entry>> {
    ParseEntryShrinks();
    Many0(ParseEntry, input)
  }

  function ParseDatabase(input: Bytes): ParseResult<seq<Entry>> {
    var (_, rest) :- DatabaseHeader(input);
    ParseEntries(rest)
  }

  // ----------------------------------------------------------------------- whole file

  const MAGIC: Bytes := Ascii("REDIS")
  const VERSION: Bytes := Ascii("0011")
  const NO_CRC: Bytes := [0, 0, 0, 0, 0, 0, 0, 0]
  const TRAILER: Bytes := [END_OF_FILE] + NO_CRC

  predicate KeysOf<K(==), V>(order: seq<K>, m: map<K, V>) {
    forall i :: 0 <= i < |order| ==> order[i] in m
  }

  function MetadataBytes(r: Rdb, order: seq<Text>): Bytes
    requires KeysOf(order, r.metadata)
  {
    if order == [] then []
    else [METADATA] + Sized(order[0]) + Sized(r.metadata[order[0]]) + MetadataBytes(r, order[1..])
  }

  function EntriesBytes(r: Rdb, order: seq<Key>): Bytes
    requires KeysOf(order, r.data)
  {
    if order == [] then [] else EntryBytes(order[0], r.data[order[0]]) + EntriesBytes(r, order[1..])
  }

  function Expiring(r: Rdb): set<Key> {
    set k | k in r.data && !r.data[k].expire.NoExpiry?
  }

  function DatabaseHeaderBytes(r: Rdb): Bytes {
    [DATABASE, 0, HASH_SIZES] + EncodeSize(|r.data|) + EncodeSize(|Expiring(r)|)
  }

  function DatabaseBytes(r: Rdb, order: seq<Key>): Bytes
    requires KeysOf(order, r.data)
  {
    if |r.data| == 0 then [] else DatabaseHeaderBytes(r) + EntriesBytes(r, order)
  }

  /** The file written when the two maps happen to be iterated in these orders. */
  function SerializeIn(r: Rdb, metadataOrder: seq<Text>, dataOrder: seq<Key>): Bytes
    requires KeysOf(metadataOrder, r.metadata)
    requires KeysOf(dataOrder, r.data)
  {
    MAGIC + VERSION + (MetadataBytes(r, metadataOrder) + (DatabaseBytes(r, dataOrder) + TRAILER))
  }

  /** `collect` into a map: a later pair replaces an earlier one with the same key. */
  function FromPairs<K, V>(pairs: seq<(K, V)>): map<K, V> {
    if pairs == [] then map[] else FromPairs(pairs[..|pairs| - 1])[pairs[|pairs| - 1].0 := pairs[|pairs| - 1].1]
  }

  function Flatten<T>(parts: seq<seq<T>>): seq<T> {
    if parts == [] then [] else Flatten(parts[..|parts| - 1]) + parts[|parts| - 1]
  }

  function ParseMetadataSections(input: Bytes): ParseResult<seq<(Text, Text)>> {
    ParseMetadataShrinks();
    Many0(ParseMetadata, input)
  }

  function ParseDatabases(input: Bytes): ParseResult<seq<seq<Entry>>> {
    ParseDatabaseShrinks();
    Many0(ParseDatabase, input)
  }

  function ParseFile(input: Bytes): ParseResult<Rdb> {
    var (_, rest) :- Tag(MAGIC, input);
    var (_, rest) :- Take(4, rest);
    var (metadata, rest) :- ParseMetadataSections(rest);
    var (databases, rest) :- ParseDatabases(rest);
    var (_, rest) :- ReadByte(END_OF_FILE, rest);
    var (_, rest) :- Take(8, rest);
    Ok(Rdb(FromPairs(metadata), FromPairs(Flatten(databases))), rest)
  }

  /** `Rdb::deserialize`: every failure is unwrapped into a panic. */
  function Deserialize(input: Bytes): Option<Rdb> {
    match ParseFile(input)
    case Ok(r, _) => Some(r)
    case _ => None
  }

  lemma {:induction false} Many0Suffix<T(!new)>(p: Bytes -> ParseResult<T>, input: Bytes)
    requires Shrinks(p)
    ensures Many0(p, input).Ok? ==> Suffix(Many0(p, input).rest, input)
    decreases |input|
  {
    var first := p(input);
    if first.Ok? {
      Many0Suffix(p, first.rest);
      if Many0(p, first.rest).Ok? {
        SuffixOfSuffix(Many0(p, first.rest).rest, first.rest, input);
      }
    }
  }

  lemma {:induction false} Many0All<T(!new)>(p: Bytes -> ParseResult<T>, good: T -> bool, input: Bytes)
    requires Shrinks(p)
    requires forall i :: p(i).Ok? ==> good(p(i).value)
    ensures Many0(p, input).Ok? ==> forall v :: v in Many0(p, input).value ==> good(v)
    decreases |input|
  {
    var first := p(input);
    if first.Ok? {
      Many0All(p, good, first.rest);
    }
  }

  lemma DatabaseHeaderShrinks(input: Bytes)
    ensures DatabaseHeader(input).Ok? ==> StrictSuffix(DatabaseHeader(input).rest, input)
  {
    hide LeInteger;
    if ReadByte(DATABASE, input).Ok? {
      LeIntegerShrinks(input[1..], input);
      var index := LeInteger(input[1..]);
      if index.Ok? && ReadByte(HASH_SIZES, index.rest).Ok? {
        SuffixOfSuffix(index.rest[1..], index.rest, input);
        LeIntegerShrinks(index.rest[1..], input);
        var size := LeInteger(index.rest[1..]);
        if size.Ok? {
          LeIntegerShrinks(size.rest, input);
        }
      }
    }
  }

  lemma LeIntegerShrinks(rest: Bytes, input: Bytes)
    requires StrictSuffix(rest, input)
    ensures LeInteger(rest).Ok? ==> StrictSuffix(LeInteger(rest).rest, input)
  {
    if LeInteger(rest).Ok? {
      SuffixOfSuffix(LeInteger(rest).rest, rest, input);
    }
  }

  lemma ParseDatabaseShrinks()
    ensures Shrinks(ParseDatabase)
  {
    ParseEntryShrinks();
    forall input ensures ParseDatabase(input).Ok? ==> StrictSuffix(ParseDatabase(input).rest, input) {
      DatabaseHeaderShrinks(input);
      var header := DatabaseHeader(input);
      if header.Ok? {
        Many0Suffix(ParseEntry, header.rest);
        if Many0(ParseEntry, header.rest).Ok? {
          SuffixOfSuffix(Many0(ParseEntry, header.rest).rest, header.rest, input);
        }
      }
    }
  }

  // ----------------------------------------------------------------------- round trip

  /** What the format can represent: text metadata and entries whose lengths fit in 32 bits and
      whose type byte is 0. */
  ghost predicate Storable(r: Rdb) {
    && (forall k :: k in r.metadata ==> |k| < U32_LIMIT && |r.metadata[k]| < U32_LIMIT)
    && (forall k :: k in r.data ==> StorableEntry((k, r.data[k])))
  }

  function MetadataPairs(r: Rdb, order: seq<Text>): (pairs: seq<(Text, Text)>)
    requires KeysOf(order, r.metadata)
  {
    seq(|order|, i requires 0 <= i < |order| => (order[i], r.metadata[order[i]]))
  }

  function EntryPairs(r: Rdb, order: seq<Key>): (pairs: seq<Entry>)
    requires KeysOf(order, r.data)
  {
    seq(|order|, i requires 0 <= i < |order| => (order[i], r.data[order[i]]))
  }

  lemma {:induction false} MetadataSection(r: Rdb, order: seq<Text>, rest: Bytes)
    requires Shrinks(ParseMetadata)
    requires forall k :: k in order ==> k in r.metadata && |k| < U32_LIMIT && |r.metadata[k]| < U32_LIMIT
    requires rest != [] && rest[0] != METADATA
    ensures Many0(ParseMetadata, MetadataBytes(r, order) + rest) == Ok(MetadataPairs(r, order), rest)
  {
    hide ParseMetadata, Many0, Sized;
    if order == [] {
      assert MetadataBytes(r, order) + rest == rest;
      MetadataStops(rest);
      Many0Stop(ParseMetadata, rest);
    } else {
      var tail := MetadataBytes(r, order[1..]) + rest;
      var first := (order[0], r.metadata[order[0]]);
      assert MetadataBytes(r, order) + rest == [METADATA] + Sized(first.0) + Sized(first.1) + tail;
      MetadataRoundTrip(first.0, first.1, tail);
      MetadataSection(r, order[1..], rest);
      assert MetadataPairs(r, order) == [first] + MetadataPairs(r, order[1..]);
      Many0Step(ParseMetadata, MetadataBytes(r, order) + rest, first, tail, MetadataPairs(r, order[1..]), rest);
    }
  }

  lemma MetadataStops(rest: Bytes)
    requires rest != [] && rest[0] != METADATA
    ensures ParseMetadata(rest).Err?
  {
  }

  lemma EntryStops(rest: Bytes)
    requires rest != [] && rest[0] == END_OF_FILE
    ensures ParseEntry(rest).Err?
  {
  }

  lemma {:induction false} EntriesSection(r: Rdb, order: seq<Key>, rest: Bytes)
    requires Shrinks(ParseEntry)
    requires forall k :: k in order ==> k in r.data && StorableEntry((k, r.data[k]))
    requires rest != [] && rest[0] == END_OF_FILE
    ensures Many0(ParseEntry, EntriesBytes(r, order) + rest) == Ok(EntryPairs(r, order), rest)
  {
    hide ParseEntry, EntryBytes, Many0;
    if order == [] {
      assert EntriesBytes(r, order) + rest == rest;
      EntryStops(rest);
      Many0Stop(ParseEntry, rest);
    } else {
      var tail := EntriesBytes(r, order[1..]) + rest;
      var first := (order[0], r.data[order[0]]);
      assert EntriesBytes(r, order) + rest == EntryBytes(first.0, first.1) + tail;
      EntryRoundTrip(first.0, first.1, tail);
      EntriesSection(r, order[1..], rest);
      assert EntryPairs(r, order) == [first] + EntryPairs(r, order[1..]);
      Many0Step(ParseEntry, EntriesBytes(r, order) + rest, first, tail, EntryPairs(r, order[1..]), rest);
    }
  }

  lemma DatabaseHeaderRoundTrip(r: Rdb, rest: Bytes)
    ensures DatabaseHeader(DatabaseHeaderBytes(r) + rest) == Ok((), rest)
  {
    hide EncodeSize, LengthPrefix;
    var a := EncodeSize(|r.data|);
    var b := EncodeSize(|Expiring(r)|);
    var input := DatabaseHeaderBytes(r) + rest;
    assert input == [DATABASE, 0, HASH_SIZES] + (a + (b + rest));
    assert input[1..] == [0, HASH_SIZES] + (a + (b + rest));
    SmallSize([HASH_SIZES] + (a + (b + rest)));
    assert input[1..] == [0] + ([HASH_SIZES] + (a + (b + rest)));
    assert ([HASH_SIZES] + (a + (b + rest)))[1..] == a + (b + rest);
    SizeRoundTrip(|r.data|, b + rest);
    SizeRoundTrip(|Expiring(r)|, rest);
  }

  lemma SmallSize(rest: Bytes)
    ensures LengthPrefix([0] + rest) == Ok(Plain(0), rest)
  {
    assert ([0 as byte] + rest)[1..] == rest;
  }

  lemma {:induction false} DatabaseSection(r: Rdb, order: seq<Key>)
    requires Shrinks(ParseDatabase)
    requires IsOrder(order, r.data.Keys) && Storable(r)
    ensures Many0(ParseDatabase, DatabaseBytes(r, order) + TRAILER)
         == Ok(if |r.data| == 0 then [] else [EntryPairs(r, order)], TRAILER)
  {
    TrailerIsNoDatabase();
    hide ParseDatabase, Many0;
    Many0Stop(ParseDatabase, TRAILER);
    if |r.data| == 0 {
      assert DatabaseBytes(r, order) + TRAILER == TRAILER;
    } else {
      DatabaseRoundTrip(r, order);
      Many0Step(ParseDatabase, DatabaseBytes(r, order) + TRAILER, EntryPairs(r, order), TRAILER, [], TRAILER);
      assert [EntryPairs(r, order)] + [] == [EntryPairs(r, order)];
    }
  }

  lemma DatabaseRoundTrip(r: Rdb, order: seq<Key>)
    requires IsOrder(order, r.data.Keys) && Storable(r) && |r.data| != 0
    ensures ParseDatabase(DatabaseBytes(r, order) + TRAILER) == Ok(EntryPairs(r, order), TRAILER)
  {
    hide DatabaseHeader, ParseEntry, EntriesBytes, DatabaseHeaderBytes;
    var body := EntriesBytes(r, order) + TRAILER;
    assert DatabaseBytes(r, order) + TRAILER == DatabaseHeaderBytes(r) + body;
    DatabaseHeaderRoundTrip(r, body);
    ParseEntryShrinks();
    EntriesSection(r, order, TRAILER);
  }

  lemma TrailerIsNoDatabase()
    ensures ParseDatabase(TRAILER).Err?
  {
  }

  lemma {:induction false} FromPairsOf<K, V>(pairs: seq<(K, V)>, m: map<K, V>)
    requires forall i, j :: 0 <= i < j < |pairs| ==> pairs[i].0 != pairs[j].0
    requires forall i :: 0 <= i < |pairs| ==> pairs[i].0 in m && m[pairs[i].0] == pairs[i].1
    ensures FromPairs(pairs).Keys == set i | 0 <= i < |pairs| :: pairs[i].0
    ensures forall k :: k in FromPairs(pairs) ==> k in m && FromPairs(pairs)[k] == m[k]
  {
    if pairs != [] {
      FromPairsOf(pairs[..|pairs| - 1], m);
    }
  }

  lemma PairsGiveMap<K(!new), V(!new)>(order: seq<K>, pairs: seq<(K, V)>, m: map<K, V>)
    requires IsOrder(order, m.Keys) && |pairs| == |order|
    requires forall i :: 0 <= i < |order| ==> order[i] in m && pairs[i] == (order[i], m[order[i]])
    ensures FromPairs(pairs) == m
  {
    FromPairsOf(pairs, m);
    forall k | k in m ensures k in FromPairs(pairs) {
      var i :| 0 <= i < |order| && order[i] == k;
      assert pairs[i].0 == k;
    }
  }

  lemma FileParts(body: Bytes, db: Bytes, metadata: seq<(Text, Text)>, databases: seq<seq<Entry>>)
    requires ParseMetadataSections(body) == Ok(metadata, db)
    requires ParseDatabases(db) == Ok(databases, TRAILER)
    ensures Deserialize(MAGIC + VERSION + body) == Some(Rdb(FromPairs(metadata), FromPairs(Flatten(databases))))
  {
    hide ParseMetadataSections, ParseDatabases, FromPairs, Flatten;
    TagReads(MAGIC, VERSION + body);
    TakeReads(VERSION, body);
    assert MAGIC + VERSION + body == MAGIC + (VERSION + body);
    assert TRAILER[1..] == NO_CRC;
  }

  /** Reading back a file gives both maps, whatever the two iteration orders were. */
  lemma FileRoundTrip(r: Rdb, metadataOrder: seq<Text>, dataOrder: seq<Key>)
    requires IsOrder(metadataOrder, r.metadata.Keys) && IsOrder(dataOrder, r.data.Keys)
    requires Storable(r)
    ensures Deserialize(SerializeIn(r, metadataOrder, dataOrder)) == Some(r)
  {
    hide ParseMetadata, ParseDatabase, MetadataBytes, FromPairs, Flatten, Many0, Deserialize, EntryPairs, MetadataPairs;
    var db := DatabaseBytes(r, dataOrder) + TRAILER;
    var body := MetadataBytes(r, metadataOrder) + db;
    ParseMetadataShrinks();
    ParseDatabaseShrinks();
    MetadataSection(r, metadataOrder, db);
    DatabaseSection(r, dataOrder);
    var databases := if |r.data| == 0 then [] else [EntryPairs(r, dataOrder)];
    FileParts(body, db, MetadataPairs(r, metadataOrder), databases);
    MetadataMap(r, metadataOrder);
    OneDatabase(r, dataOrder);
  }

  lemma MetadataMap(r: Rdb, order: seq<Text>)
    requires IsOrder(order, r.metadata.Keys)
    ensures FromPairs(MetadataPairs(r, order)) == r.metadata
  {
    PairsGiveMap(order, MetadataPairs(r, order), r.metadata);
  }

  lemma OneDatabase(r: Rdb, order: seq<Key>)
    requires IsOrder(order, r.data.Keys)
    ensures FromPairs(Flatten(if |r.data| == 0 then [] else [EntryPairs(r, order)])) == r.data
  {
    var pairs := EntryPairs(r, order);
    PairsGiveMap(order, pairs, r.data);
    if |r.data| == 0 {
      assert r.data == map[];
    } else {
      assert [pairs][..0] == [];
      assert [] + pairs == pairs;
      assert Flatten([pairs]) == pairs;
    }
  }

  lemma {:induction false} FromPairsAll<K, V>(pairs: seq<(K, V)>)
    ensures forall k :: k in FromPairs(pairs) ==> (k, FromPairs(pairs)[k]) in pairs
  {
    if pairs != [] {
      FromPairsAll(pairs[..|pairs| - 1]);
    }
  }

  lemma {:induction false} FlattenAll<T>(parts: seq<seq<T>>, v: T)
    requires v in Flatten(parts)
    ensures exists part :: part in parts && v in part
  {
    var last := parts[|parts| - 1];
    if v in last {
      assert last in parts;
    } else {
      FlattenAll(parts[..|parts| - 1], v);
    }
  }

  /** Whatever the bytes, a file that loads holds only storable entries. */
  lemma LoadedIsStorable(input: Bytes)
    ensures Deserialize(input).Some? ==> Storable(Deserialize(input).value)
  {
    if Deserialize(input).Some? {
      hide ParseMetadata, ParseDatabase;
      ParseMetadataShrinks();
      ParseDatabaseShrinks();
      var rest := Take(4, Tag(MAGIC, input).rest).rest;
      var metadata := Many0(ParseMetadata, rest);
      MetadataIsStorable(rest);
      FromPairsAll(metadata.value);
      var databases := Many0(ParseDatabase, metadata.rest);
      DatabasesAreStorable(metadata.rest);
      FromPairsAll(Flatten(databases.value));
      forall k | k in FromPairs(Flatten(databases.value))
        ensures StorableEntry((k, FromPairs(Flatten(databases.value))[k]))
      {
        FlattenAll(databases.value, (k, FromPairs(Flatten(databases.value))[k]));
      }
    }
  }

  lemma MetadataIsStorable(input: Bytes)
    requires Shrinks(ParseMetadata)
    ensures Many0(ParseMetadata, input).Ok? ==>
      forall kv :: kv in Many0(ParseMetadata, input).value ==> |kv.0| < U32_LIMIT && |kv.1| < U32_LIMIT
  {
    forall i ensures ParseMetadata(i).Ok? ==>
        |ParseMetadata(i).value.0| < U32_LIMIT && |ParseMetadata(i).value.1| < U32_LIMIT
    {
      MetadataShrinks(i);
    }
    Many0All(ParseMetadata, (kv: (Text, Text)) => |kv.0| < U32_LIMIT && |kv.1| < U32_LIMIT, input);
  }

  ghost predicate AllStorable(es: seq<Entry>) {
    forall e :: e in es ==> StorableEntry(e)
  }

  lemma DatabasesAreStorable(input: Bytes)
    requires Shrinks(ParseDatabase)
    ensures Many0(ParseDatabase, input).Ok? ==>
      forall es :: es in Many0(ParseDatabase, input).value ==> AllStorable(es)
  {
    ParseEntryShrinks();
    forall i ensures ParseEntry(i).Ok? ==> StorableEntry(ParseEntry(i).value) {
      EntryShrinks(i);
    }
    forall i ensures ParseDatabase(i).Ok? ==> AllStorable(ParseDatabase(i).value) {
      if DatabaseHeader(i).Ok? {
        Many0All(ParseEntry, StorableEntry, DatabaseHeader(i).rest);
      }
    }
    Many0All(ParseDatabase, AllStorable, input);
  }

  /** The round trip holds exactly for storable contents. */
  lemma RdbRoundTripIff(r: Rdb, metadataOrder: seq<Text>, dataOrder: seq<Key>)
    requires IsOrder(metadataOrder, r.metadata.Keys) && IsOrder(dataOrder, r.data.Keys)
    ensures Deserialize(SerializeIn(r, metadataOrder, dataOrder)) == Some(r) <==> Storable(r)
  {
    if Storable(r) {
      FileRoundTrip(r, metadataOrder, dataOrder);
    } else {
      LoadedIsStorable(SerializeIn(r, metadataOrder, dataOrder));
    }
  }
}
