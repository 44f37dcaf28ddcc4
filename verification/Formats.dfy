/**
 The formats as they are written down elsewhere: RESP2 frames and commands as text, the byte layout of an RDB file, and
 XREAD requests. The round trips say that the two directions agree; this says with what
 (`src/resp.rs:109-280`, `src/command.rs:33-45`, `433-468`, `650-710`, `src/rdb.rs:25-48`, `130-239`,
 `src/parser.rs:446-504`).
 */
module Formats {
  import opened Types
  import opened Decimal
  import opened Parser
  import opened RespCodec
  import opened RdbCodec
  import opened Streams
  import opened Commands

  // ---------------------------------------------------------------------------- RESP

  /** Numbers are written in decimal, without leading zeros. */
  lemma {:induction false} DecimalText(n: nat)
    ensures AllDigits(NatText(n)) && DigitsValue(NatText(n)) == n
    ensures |NatText(n)| > 1 ==> NatText(n)[0] != 48
    ensures n < 10 ==> NatText(n) == [(48 + n) as byte]
  {
    NatTextValue(n);
    if n >= 10 {
      DecimalText(n / 10);
      assert NatText(n)[0] == NatText(n / 10)[0];
    }
  }

  /** With a minus sign if they are negative. */
  lemma SignedText(n: int)
    ensures IntText(n) == if n < 0 then Ascii("-") + NatText(-n) else NatText(n)
  {
    Characters();
  }

  lemma Characters()
    ensures Ascii("+") == [43] && Ascii("-") == [45] && Ascii(":") == [58] && Ascii("$") == [36] && Ascii("*") == [42]
    ensures Ascii("\r\n") == CRLF
  {
  }

  /** Every kind of frame starts with its own character, and lines end with CR LF. */
  lemma LineFrames(s: Bytes, n: i64)
    ensures Encode(SimpleString(s)) == Ascii("+") + s + Ascii("\r\n")
    ensures Encode(SimpleError(s)) == Ascii("-") + s + Ascii("\r\n")
    ensures Encode(RespCodec.Integer(n)) == Ascii(":") + IntText(n) + Ascii("\r\n")
  {
    Characters();
    hide IntText, Ascii;
  }

  /** Strings and arrays are preceded by their length. A file is a bulk string without the last line end. */
  lemma SizedFrames(s: Bytes, els: seq<Resp>)
    ensures Encode(BulkString(s)) == Ascii("$") + NatText(|s|) + Ascii("\r\n") + s + Ascii("\r\n")
    ensures Encode(File(s)) == Ascii("$") + NatText(|s|) + Ascii("\r\n") + s
    ensures Encode(Array(els)) == Ascii("*") + NatText(|els|) + Ascii("\r\n") + EncodeAll(els)
  {
    Characters();
    hide NatText, Ascii;
  }

  lemma NullFrames()
    ensures Encode(NullBulkString) == Ascii("$-1\r\n") && Encode(NullArray) == Ascii("*-1\r\n")
  {
    assert Ascii("$-1\r\n") == [36, 45, 49, 13, 10];
    assert Ascii("*-1\r\n") == [42, 45, 49, 13, 10];
  }

  lemma IntegerFrame(sign: Bytes, digits: Bytes, rest: Bytes)
    requires sign == [] || sign == [MINUS] || sign == [PLUS]
    requires AllDigits(digits) && digits != [] && -I64_LIMIT <= SignedValue(sign, digits) < I64_LIMIT
    ensures ParseInteger([58] + sign + digits + CRLF + rest) == Ok(SignedValue(sign, digits), rest)
  {
    hide Parser.Integer, SignedValue;
    var tail := CRLF + rest;
    var input := [58] + sign + digits + CRLF + rest;
    assert input == [58] + (sign + digits + tail) && input[1..] == sign + digits + tail;
    NumberInAnyForm(sign, digits, tail, -I64_LIMIT, I64_LIMIT);
    TagReads(CRLF, rest);
  }

  /** Integers are read in any form: with either sign or none, and with leading zeros. */
  lemma IntegersInAnyForm(sign: Bytes, digits: Bytes, rest: Bytes)
    requires sign == [] || sign == [MINUS] || sign == [PLUS]
    requires AllDigits(digits) && digits != [] && -I64_LIMIT <= SignedValue(sign, digits) < I64_LIMIT
    ensures ParseSingle([58] + sign + digits + CRLF + rest)
         == Ok(Some(RespCodec.Integer(SignedValue(sign, digits))), rest)
  {
    hide ParseInteger, SignedValue;
    IntegerFrame(sign, digits, rest);
    var input := [58] + sign + digits + CRLF + rest;
    assert input[0] == 58;
    assert ParseScalar(input) == Ok(Some(RespCodec.Integer(SignedValue(sign, digits))), rest);
  }

  lemma HeaderInAnyForm(lead: byte, sign: Bytes, digits: Bytes, rest: Bytes)
    requires sign == [] || sign == [PLUS]
    requires AllDigits(digits) && digits != [] && DigitsValue(digits) < U64_LIMIT
    ensures ParseHeader(lead, [lead] + sign + digits + CRLF + rest) == Ok(DigitsValue(digits), rest)
  {
    hide Parser.Integer, DigitsValue;
    var tail := CRLF + rest;
    var input := [lead] + sign + digits + CRLF + rest;
    assert input == [lead] + (sign + digits + tail) && input[1..] == sign + digits + tail;
    NumberInAnyForm(sign, digits, tail, 0, U64_LIMIT);
    TagReads(CRLF, rest);
  }

  lemma NoNullFrame(lead: byte, sign: Bytes, digits: Bytes, rest: Bytes)
    requires sign == [] || sign == [PLUS]
    requires AllDigits(digits) && digits != []
    ensures
      var input := [lead] + sign + digits + CRLF + rest;
      !(NULL_BULK <= input) && !(NULL_ARRAY <= input)
  {
    var input := [lead] + sign + digits + CRLF + rest;
    assert input[1] == if sign == [] then digits[0] else PLUS;
    assert NULL_BULK[1] == 45 && NULL_ARRAY[1] == 45;
  }

  /** So are lengths, of strings and of arrays: with a plus sign or none, and with leading zeros. */
  lemma LengthsInAnyForm(sign: Bytes, digits: Bytes, s: Bytes, rest: Bytes)
    requires sign == [] || sign == [PLUS]
    requires AllDigits(digits) && digits != [] && DigitsValue(digits) == |s| < U64_LIMIT
    ensures ParseSingle([36] + sign + digits + CRLF + (s + CRLF + rest)) == Ok(Some(BulkString(s)), rest)
  {
    hide ParseHeader, DigitsValue, Parser.Integer;
    HeaderInAnyForm(36, sign, digits, s + CRLF + rest);
    NoNullFrame(36, sign, digits, s + CRLF + rest);
    assert s + CRLF + rest == s + (CRLF + rest);
    TakeReads(s, CRLF + rest);
    TagReads(CRLF, rest);
  }

  lemma ArraysInAnyForm(sign: Bytes, digits: Bytes, rest: Bytes)
    requires sign == [] || sign == [PLUS]
    requires AllDigits(digits) && digits != [] && DigitsValue(digits) < U64_LIMIT
    ensures
      ParseSingle([42] + sign + digits + CRLF + rest) ==
      match ParseElements(DigitsValue(digits), rest)
      case Ok(els, last) => Ok(Some(Array(els)), last)
      case Err => Err
      case Panic => Panic
  {
    hide ParseHeader, DigitsValue, Parser.Integer, ParseElements;
    HeaderInAnyForm(42, sign, digits, rest);
    NoNullFrame(42, sign, digits, rest);
  }

  /** No frame starts with any other byte. */
  lemma OtherBytesFail(input: Bytes)
    requires input != [] && input[0] !in [36, 42, 43, 45, 58]
    ensures ParseSingle(input) == Err
  {
  }

  // ------------------------------------------------------------------------- commands

  function Words(parts: seq<Bytes>): Resp {
    Array(seq(|parts|, i requires 0 <= i < |parts| => BulkString(parts[i])))
  }

  lemma WordsAre(a: Bytes, b: Bytes, c: Bytes, d: Bytes, e: Bytes)
    ensures Words([a]) == Array([BulkString(a)])
    ensures Words([a, b]) == Array([BulkString(a), BulkString(b)])
    ensures Words([a, b, c]) == Array([BulkString(a), BulkString(b), BulkString(c)])
    ensures Words([a, b, c, d, e])
         == Array([BulkString(a), BulkString(b), BulkString(c), BulkString(d), BulkString(e)])
  {
  }

  /** What is written to the log and to other servers, in words. */
  lemma SetAsWords(key: Key, value: Bytes, n: u64)
    requires ValidUtf8(key)
    ensures ToResp(Set(key, value, None, None)) == Some(Words([Ascii("SET"), key, value]))
    ensures ToResp(Set(key, value, Some(n), None)) == Some(Words([Ascii("SET"), key, value, Ascii("EX"), NatText(n)]))
    ensures ToResp(Set(key, value, None, Some(n))) == Some(Words([Ascii("SET"), key, value, Ascii("PX"), NatText(n)]))
  {
    hide Ascii, NatText;
    var plain := [Word("SET"), BulkString(key), BulkString(value)];
    assert plain + [] + [] == plain;
    assert plain + [Word("EX"), Number(n)] + []
        == [Word("SET"), BulkString(key), BulkString(value), Word("EX"), Number(n)];
    assert plain + [] + [Word("PX"), Number(n)]
        == [Word("SET"), BulkString(key), BulkString(value), Word("PX"), Number(n)];
    WordsAre(Ascii("SET"), key, value, Ascii("EX"), NatText(n));
    WordsAre(Ascii("SET"), key, value, Ascii("PX"), NatText(n));
  }

  lemma GetAckAsWords()
    ensures ToResp(GetAck) == Some(Words([Ascii("REPLCONF"), Ascii("GETACK"), Ascii("*")]))
  {
    hide Ascii;
    WordsAre(Ascii("REPLCONF"), Ascii("GETACK"), Ascii("*"), [], []);
  }

  lemma HandshakeAsWords(id: Text, offset: i64, port: u16)
    ensures ToResp(ListeningPort(port)) == Some(Words([Ascii("REPLCONF"), Ascii("listening-port"), NatText(port)]))
    ensures ToResp(Psync(id, offset)) == Some(Words([Ascii("PSYNC"), id, IntText(offset)]))
  {
    hide Ascii, NatText;
    WordsAre(Ascii("REPLCONF"), Ascii("listening-port"), NatText(port), [], []);
    WordsAre(Ascii("PSYNC"), id, IntText(offset), [], []);
  }

  lemma PingAsWords(value: Bytes)
    ensures ToResp(Ping(None)) == Some(Words([Ascii("PING")]))
    ensures ToResp(Ping(Some(value))) == Some(Words([Ascii("PING"), value]))
  {
    hide Ascii;
    WordsAre(Ascii("PING"), value, [], [], []);
    assert [Word("PING")] + [] == [Word("PING")];
    assert [Word("PING")] + [BulkString(value)] == [Word("PING"), BulkString(value)];
  }

  lemma CapaAsWords(capabilities: seq<Bytes>)
    ensures ToResp(Capa(capabilities)) == Some(Words([Ascii("REPLCONF"), Ascii("capa")] + capabilities))
  {
    hide Ascii;
    assert ToResp(Capa(capabilities)).value.els == Words([Ascii("REPLCONF"), Ascii("capa")] + capabilities).els;
  }

  lemma OnlyTheseAreWritten(cmd: Command)
    requires !ToRespPanics(cmd)
    ensures ToResp(cmd).Some? <==> cmd.Set? || cmd.GetAck? || cmd.ListeningPort? || cmd.Capa? || cmd.Psync? || cmd.Ping?
  {
    hide Ascii, IntText;
  }

  lemma IdAsText(id: StreamId)
    ensures IdText(id) == NatText(id.ms) + Ascii("-") + NatText(id.seqNo)
  {
    hide NatText;
    assert Ascii("-") == [45];
  }

  // ---------------------------------------------------------------------- XREAD requests

  /** How a client writes the id to read from. */
  function XreadIdText(id: XreadId): Bytes {
    match id
    case After(id) => IdText(id)
    case Latest => Ascii("$")
  }

  /** XREAD as a client writes it: BLOCK and a time or not, STREAMS, all the keys, then all the ids. */
  function XreadWords(milliseconds: Option<u64>, keys: seq<Key>, ids: seq<XreadId>): seq<Bytes> {
    [Ascii("XREAD")] + (if milliseconds.Some? then [Ascii("BLOCK"), NatText(milliseconds.value)] else [])
    + [Ascii("STREAMS")] + keys + seq(|ids|, i requires 0 <= i < |ids| => XreadIdText(ids[i]))
  }

  lemma XreadIdReads(id: XreadId)
    ensures ParseXreadId(XreadIdText(id)) == Some(id)
  {
    match id {
      case After(id) => IdTextRoundTrip(id);
      case Latest =>
        assert Ascii("$") == [36] && [36][0..] == [36];
        IntegerReads(0, U64_LIMIT, [36]);
    }
  }

  lemma XreadUpper()
    ensures Upper(Ascii("XREAD")) == Ascii("XREAD") && Upper(Ascii("STREAMS")) == Ascii("STREAMS")
    ensures Upper(Ascii("BLOCK")) == Ascii("BLOCK") && Ascii("BLOCK") != Ascii("STREAMS")
  {
    hide Upper, Ascii;
    AlreadyUpper("XREAD");
    AlreadyUpper("STREAMS");
    AlreadyUpper("BLOCK");
    assert |Ascii("BLOCK")| == 5 && |Ascii("STREAMS")| == 7 by { Lengths(); }
  }

  lemma Lengths()
    ensures |Ascii("BLOCK")| == 5 && |Ascii("STREAMS")| == 7
  {
  }

  lemma DecodeStreamsReads(milliseconds: Option<u64>, keys: seq<Key>, ids: seq<XreadId>, rest: seq<Resp>)
    requires |keys| == |ids| && |rest| == 2 * |keys|
    requires forall i :: 0 <= i < |keys| ==> rest[i] == BulkString(keys[i])
    requires forall i :: 0 <= i < |ids| ==> rest[|keys| + i] == BulkString(XreadIdText(ids[i]))
    ensures DecodeStreams(milliseconds, rest) == Decoded(Xread(keys, milliseconds, ids))
  {
    hide XreadIdText, ParseXreadId;
    var half := |rest| / 2;
    forall i | 0 <= i < half ensures GetBytes(rest[i + half]) == Some(XreadIdText(ids[i])) {
      assert rest[|keys| + i] == BulkString(XreadIdText(ids[i]));
    }
    forall i | half <= i < |rest|
      ensures GetBytes(rest[i]).Some? && ParseXreadId(GetBytes(rest[i]).value) == Some(ids[i - half])
    {
      assert rest[(i - half) + half] == rest[i];
      XreadIdReads(ids[i - half]);
    }
    var r := DecodeStreams(milliseconds, rest);
    assert r.Decoded?;
    assert r.command.keys == keys;
    assert r.command.ids == ids;
  }

  /** What a client writes is what is executed: the keys, the time and the ids, each in its place. */
  lemma XreadDecodes(milliseconds: Option<u64>, keys: seq<Key>, ids: seq<XreadId>)
    requires |keys| == |ids|
    ensures FromResp(Words(XreadWords(milliseconds, keys, ids))) == Decoded(Xread(keys, milliseconds, ids))
  {
    hide Upper, NatText, Ascii, XreadIdText, DecodeSet, DecodeReplconf, DecodePsync, DecodeXread;
    var els := Words(XreadWords(milliseconds, keys, ids)).els;
    XreadUpper();
    XreadIsItself();
    AsciiWord("XREAD");
    XreadBody(milliseconds, keys, ids, els);
  }

  lemma XreadBody(milliseconds: Option<u64>, keys: seq<Key>, ids: seq<XreadId>, els: seq<Resp>)
    requires |keys| == |ids| && els == Words(XreadWords(milliseconds, keys, ids)).els
    ensures DecodeXread(els) == Decoded(Xread(keys, milliseconds, ids))
  {
    hide Upper, NatText, DecodeStreams, XreadIdText, Ascii, XreadWords, Words, ParseInt;
    XreadUpper();
    AsciiWord("STREAMS");
    AsciiWord("BLOCK");
    XreadParts(milliseconds, keys, ids);
    if milliseconds.Some? {
      NumberReads(els, 2, milliseconds.value, 0, U64_LIMIT);
      DecodeStreamsReads(milliseconds, keys, ids, els[4..]);
    } else {
      DecodeStreamsReads(milliseconds, keys, ids, els[2..]);
    }
  }

  lemma XreadParts(milliseconds: Option<u64>, keys: seq<Key>, ids: seq<XreadId>)
    requires |keys| == |ids|
    ensures
      var els := Words(XreadWords(milliseconds, keys, ids)).els;
      var n := if milliseconds.Some? then 4 else 2;
      && |els| == n + 2 * |keys| && els[n - 1] == Word("STREAMS")
      && (milliseconds.Some? ==> els[1] == Word("BLOCK") && els[2] == Number(milliseconds.value))
      && (forall i :: 0 <= i < |keys| ==> els[n..][i] == BulkString(keys[i]))
      && (forall i :: 0 <= i < |keys| ==> els[n..][|keys| + i] == BulkString(XreadIdText(ids[i])))
  {
    hide NatText, XreadIdText, Ascii;
  }

  lemma XreadIsItself()
    ensures Ascii("XREAD") != Ascii("SET") && Ascii("XREAD") != Ascii("PING")
    ensures Ascii("XREAD") != Ascii("REPLCONF") && Ascii("XREAD") != Ascii("PSYNC")
  {
    assert Ascii("XREAD")[0] == 88 && Ascii("SET")[0] == 83 && Ascii("PING")[0] == 80;
    assert Ascii("REPLCONF")[0] == 82 && Ascii("PSYNC")[0] == 80;
  }

  // ------------------------------------------------------------------------------ RDB

  /** Numbers of fixed width start with the lowest byte. */
  lemma {:induction false} LittleEndian(n: nat, width: nat, i: nat)
    requires i < width
    ensures ToLe(n, width)[i] as int == n / Pow256(i) % 256
  {
    if i > 0 {
      LittleEndian(n / 256, width - 1, i - 1);
      Quotients(n, i);
    }
  }

  lemma Quotients(n: nat, i: nat)
    requires i > 0
    ensures n / Pow256(i) == n / 256 / Pow256(i - 1)
  {
    DivideTwice(n, 256, Pow256(i - 1));
  }

  lemma DivideTwice(n: nat, a: nat, b: nat)
    requires a > 0 && b > 0
    ensures a * b > 0 && n / (a * b) == n / a / b
  {
    var q := n / a / b;
    var r := n / a % b * a + n % a;
    assert n / a == q * b + n / a % b;
    assert n == n / a * a + n % a;
    assert n == q * b * a + r;
    assert q * b * a == q * (a * b);
    assert 0 <= n / a % b <= b - 1 && 0 <= n % a <= a - 1;
    assert n / a % b * a <= (b - 1) * a;
    assert (b - 1) * a == a * b - a;
    assert 0 <= r < a * b;
    UniqueQuotient(n, a * b, q, r);
  }

  lemma UniqueQuotient(n: int, d: int, q: int, r: int)
    requires d > 0 && n == q * d + r && 0 <= r < d
    ensures n / d == q && n % d == r
  {
    var p := n / d;
    assert n == p * d + n % d;
    assert (q - p) * d == q * d - p * d;
    assert (p - q) * d == p * d - q * d;
    if p < q {
      Multiple(q - p, d);
    } else if q < p {
      Multiple(p - q, d);
    }
  }

  lemma Multiple(k: int, d: int)
    requires k >= 1 && d > 0
    ensures k * d >= d
  {
    assert k * d == d + (k - 1) * d;
  }

  /** The sizes of the format description: six bits, fourteen, or four bytes, highest first, the first byte saying which. */
  lemma SizesAsBytes(a: byte, b: byte, c: byte, d: byte)
    ensures a < 0x40 ==> EncodeSize(a as int) == [a]
    ensures 0 < a < 0x40 ==> EncodeSize(a as int * 0x100 + b as int) == [0x40 + a, b]
    ensures var n := a as int * 0x100_0000 + b as int * 0x1_0000 + c as int * 0x100 + d as int;
            0x4000 <= n ==> EncodeSize(n) == [0x80, a, b, c, d]
  {
    if 0 < a < 0x40 {
      TwoByteSize(a, b);
    }
    FourByteSize(a, b, c, d);
  }

  lemma TwoByteSize(a: byte, b: byte)
    requires 0 < a < 0x40
    ensures EncodeSize(a as int * 0x100 + b as int) == [0x40 + a, b]
  {
    var n := a as int * 0x100 + b as int;
    assert n / 256 == a as int && n % 256 == b as int;
  }

  lemma FourByteSize(a: byte, b: byte, c: byte, d: byte)
    ensures var n := a as int * 0x100_0000 + b as int * 0x1_0000 + c as int * 0x100 + d as int;
            0x4000 <= n ==> EncodeSize(n) == [0x80, a, b, c, d]
  {
    var n := a as int * 0x100_0000 + b as int * 0x1_0000 + c as int * 0x100 + d as int;
    UniqueQuotient(n, 0x100, a as int * 0x1_0000 + b as int * 0x100 + c as int, d as int);
    UniqueQuotient(n, 0x1_0000, a as int * 0x100 + b as int, c as int * 0x100 + d as int);
    UniqueQuotient(n, 0x100_0000, a as int, b as int * 0x1_0000 + c as int * 0x100 + d as int);
    UniqueQuotient(a as int * 0x1_0000 + b as int * 0x100 + c as int, 0x100, a as int * 0x100 + b as int, c as int);
    UniqueQuotient(a as int * 0x100 + b as int, 0x100, a as int, b as int);
    FourBytes(n, a, b, c, d);
  }

  lemma FourBytes(n: nat, a: byte, b: byte, c: byte, d: byte)
    requires n < U32_LIMIT && n / 0x100_0000 == a as int && n / 0x1_0000 % 256 == b as int
    requires n / 256 % 256 == c as int && n % 256 == d as int
    ensures 0x4000 <= n ==> EncodeSize(n) == [0x80, a, b, c, d]
  {
    assert n % U32_LIMIT == n;
  }

  lemma Reversals(a: byte, b: byte, c: byte, d: byte)
    ensures Reverse([a]) == [a] && Reverse([a, b]) == [b, a] && Reverse([a, b, c, d]) == [d, c, b, a]
  {
    assert [a][1..] == [] && [b][1..] == [] && [d][1..] == [];
    assert [a, b][1..] == [b] && [c, d][1..] == [d] && [b, c, d][1..] == [c, d] && [a, b, c, d][1..] == [b, c, d];
    assert Reverse([b]) == [b] && Reverse([d]) == [d] && Reverse([c, d]) == [d, c] && Reverse([b, c, d]) == [d, c, b];
  }

  lemma EmbeddedPrefix(prefix: byte, tail: Bytes)
    requires prefix in [0xC0, 0xC1, 0xC2]
    ensures LengthPrefix([prefix] + tail)
         == Ok(Embedded(if prefix == 0xC0 then 1 else if prefix == 0xC1 then 2 else 4), tail)
  {
    assert ([prefix] + tail)[1..] == tail;
  }

  lemma EmbeddedIn(prefix: byte, number: Bytes, rest: Bytes)
    requires prefix == 0xC0 ==> |number| == 1
    requires prefix == 0xC1 ==> |number| == 2
    requires prefix == 0xC2 ==> |number| == 4
    requires prefix in [0xC0, 0xC1, 0xC2]
    ensures LeBytes([prefix] + number + rest) == Ok(Reverse(number), rest)
  {
    hide LengthPrefix, Reverse;
    assert [prefix] + number + rest == [prefix] + (number + rest);
    EmbeddedPrefix(prefix, number + rest);
    assert (number + rest)[..|number|] == number && (number + rest)[|number|..] == rest;
  }

  /** Strings that stand for small integers: one, two or four bytes, lowest first, given back highest first. */
  lemma IntegersAsBytes(a: byte, b: byte, c: byte, d: byte, rest: Bytes)
    ensures LeBytes([0xC0] + [a] + rest) == Ok([a], rest)
    ensures LeBytes([0xC1] + [a, b] + rest) == Ok([b, a], rest)
    ensures LeBytes([0xC2] + [a, b, c, d] + rest) == Ok([d, c, b, a], rest)
  {
    hide Reverse, LeBytes;
    Reversals(a, b, c, d);
    EmbeddedIn(0xC0, [a], rest);
    EmbeddedIn(0xC1, [a, b], rest);
    EmbeddedIn(0xC2, [a, b, c, d], rest);
  }

  /** An entry: a marker and the deadline in little-endian if it has one, the type, the key and the value. */
  lemma EntriesAsBytes(key: Key, value: Bytes, ms: u64, secs: u32)
    ensures EntryBytes(key, RdbString(0, value, NoExpiry))
         == [0] + EncodeSize(|key|) + key + EncodeSize(|value|) + value
    ensures EntryBytes(key, RdbString(0, value, Milliseconds(ms)))
         == [0xFC] + ToLe(ms, 8) + [0] + EncodeSize(|key|) + key + EncodeSize(|value|) + value
    ensures EntryBytes(key, RdbString(0, value, Seconds(secs)))
         == [0xFD] + ToLe(secs, 4) + [0] + EncodeSize(|key|) + key + EncodeSize(|value|) + value
  {
    hide EncodeSize, ToLe;
  }

  /** A file: the header with its version, the metadata, and unless there are no keys the one database with its two sizes,
      then the end and no checksum. */
  lemma FileAsBytes(r: Rdb, metadataOrder: seq<Text>, dataOrder: seq<Key>)
    requires KeysOf(metadataOrder, r.metadata) && KeysOf(dataOrder, r.data)
    ensures
      SerializeIn(r, metadataOrder, dataOrder) ==
      Ascii("REDIS0011") + MetadataBytes(r, metadataOrder)
      + (if r.data == map[] then []
         else [0xFE, 0x00, 0xFB] + EncodeSize(|r.data|) + EncodeSize(|set k | k in r.data && r.data[k].expire != NoExpiry|)
              + EntriesBytes(r, dataOrder))
      + [0xFF, 0, 0, 0, 0, 0, 0, 0, 0]
    ensures metadataOrder != [] ==>
      var k, v := metadataOrder[0], r.metadata[metadataOrder[0]];
      MetadataBytes(r, metadataOrder)
      == [0xFA] + EncodeSize(|k|) + k + EncodeSize(|v|) + v + MetadataBytes(r, metadataOrder[1..])
  {
    hide EncodeSize, MetadataBytes, EntriesBytes;
    assert Ascii("REDIS0011") == Ascii("REDIS") + Ascii("0011") by { Header(); }
    assert (set k | k in r.data && r.data[k].expire != NoExpiry) == Expiring(r);
    if metadataOrder != [] {
      FirstMetadata(r, metadataOrder);
    }
  }

  lemma Header()
    ensures Ascii("REDIS0011") == Ascii("REDIS") + Ascii("0011")
  {
  }

  lemma FirstMetadata(r: Rdb, order: seq<Text>)
    requires KeysOf(order, r.metadata) && order != []
    ensures
      var k, v := order[0], r.metadata[order[0]];
      MetadataBytes(r, order) == [0xFA] + EncodeSize(|k|) + k + EncodeSize(|v|) + v + MetadataBytes(r, order[1..])
  {
    hide EncodeSize;
  }
}
