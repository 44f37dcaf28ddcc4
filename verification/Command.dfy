/**
 Commands and their encodings (`src/command.rs`).

 `Query` stands for every command whose answer comes from state this model does not
 hold or that only looks values up (GET, LRANGE, XRANGE, INFO, the sorted-set, geo and
 ACL commands and so on).
 */
module Commands {
  import opened Types
  import opened Decimal
  import opened RespCodec
  import opened Streams

  datatype Command =
    | Echo(message: Bytes)
    | Ping(payload: Option<Bytes>)
    | Set(key: Key, value: Bytes, ex: Option<u64>, px: Option<u64>)
    | Rpush(key: Key, elements: seq<Bytes>)
    | Lpush(key: Key, elements: seq<Bytes>)
    | Lpop(key: Key, count: Option<u32>)
    | Blpop(keys: seq<Key>, seconds: real)
    | Xadd(key: Key, id: XaddId, fieldValues: seq<Bytes>)
    | Xread(keys: seq<Key>, milliseconds: Option<u64>, ids: seq<XreadId>)
    | Incr(key: Key)
    | Multi
    | Exec
    | Discard
    | Watch(keys: seq<Key>)
    | Unwatch
    | ExecuteTx(commands: seq<Command>)
    | ListeningPort(port: u16)
    | Capa(capabilities: seq<Bytes>)
    | Psync(replicationId: Text, offset: i64)
    | GetAck
    | Ack(ackBytes: u64)
    | Wait(numReplicas: u64, timeout: u64)
    | Subscribe(channels: seq<Text>)
    | Publish(channel: Text, payloadText: Text)
    | Unsubscribe(channels: seq<Text>)
    | Auth(username: Text, password: Text)
    | Query(name: string)

  function Word(text: string): Resp {
    BulkString(Ascii(text))
  }

  function Number(n: int): Resp {
    BulkString(IntText(n))
  }

  /** `key.to_str()` panics on a key that is not UTF-8. */
  predicate ToRespPanics(c: Command) {
    c.Set? && !ValidUtf8(c.key)
  }

  /** `to_resp`: only these commands can be logged or sent to another server. */
  function ToResp(c: Command): Option<Resp>
    requires !ToRespPanics(c)
  {
    match c
    case Set(key, value, ex, px) =>
      Some(Array([Word("SET"), BulkString(key), BulkString(value)]
                 + (if ex.Some? then [Word("EX"), Number(ex.value)] else [])
                 + (if px.Some? then [Word("PX"), Number(px.value)] else [])))
    case GetAck => Some(Array([Word("REPLCONF"), Word("GETACK"), Word("*")]))
    case ListeningPort(port) => Some(Array([Word("REPLCONF"), Word("listening-port"), Number(port)]))
    case Capa(capabilities) =>
      Some(Array([Word("REPLCONF"), Word("capa")]
                 + seq(|capabilities|, i requires 0 <= i < |capabilities| => BulkString(capabilities[i]))))
    case Psync(id, offset) => Some(Array([Word("PSYNC"), BulkString(id), Number(offset)]))
    case Ping(payload) => Some(Array([Word("PING")] + if payload.Some? then [BulkString(payload.value)] else []))
    case _ => None
  }

  /** `to_resp` as written: the parts are pushed onto a vector. */
  method BuildResp(c: Command) returns (r: Option<Resp>)
    requires !ToRespPanics(c)
    ensures r == ToResp(c)
  {
    hide Word, Number;
    var resp: seq<Resp> := [];
    match c {
      case Set(_, _, _, _) =>
        resp := BuildSet(c);
      case GetAck =>
        resp := [Word("REPLCONF")];
        resp := resp + [Word("GETACK")];
        resp := resp + [Word("*")];
        assert resp == [Word("REPLCONF"), Word("GETACK"), Word("*")];
      case ListeningPort(port) =>
        resp := [Word("REPLCONF")];
        resp := resp + [Word("listening-port")];
        resp := resp + [Number(port)];
        assert resp == [Word("REPLCONF"), Word("listening-port"), Number(port)];
      case Capa(capabilities) =>
        resp := BuildCapa(c);
      case Psync(id, offset) =>
        resp := [Word("PSYNC")];
        resp := resp + [BulkString(id)];
        resp := resp + [Number(offset)];
        assert resp == [Word("PSYNC"), BulkString(id), Number(offset)];
      case Ping(payload) =>
        resp := [Word("PING")];
        if payload.Some? {
          resp := resp + [BulkString(payload.value)];
        }
        assert resp == [Word("PING")] + if payload.Some? then [BulkString(payload.value)] else [];
      case _ =>
        return None;
    }
    r := Some(Array(resp));
  }

  method BuildSet(c: Command) returns (resp: seq<Resp>)
    requires c.Set? && !ToRespPanics(c)
    ensures Array(resp) == ToResp(c).value
  {
    hide Word, Number;
    resp := [Word("SET")];
    resp := resp + [BulkString(c.key)];
    resp := resp + [BulkString(c.value)];
    if c.ex.Some? {
      resp := resp + [Word("EX")];
      resp := resp + [Number(c.ex.value)];
    }
    if c.px.Some? {
      resp := resp + [Word("PX")];
      resp := resp + [Number(c.px.value)];
    }
    assert resp == ToResp(c).value.els;
  }

  method BuildCapa(c: Command) returns (resp: seq<Resp>)
    requires c.Capa?
    ensures Array(resp) == ToResp(c).value
  {
    hide Word, Number;
    resp := [Word("REPLCONF")];
    resp := resp + [Word("capa")];
    for i := 0 to |c.capabilities|
      invariant |resp| == i + 2 && resp[0] == Word("REPLCONF") && resp[1] == Word("capa")
      invariant forall j :: 0 <= j < i ==> resp[j + 2] == BulkString(c.capabilities[j])
    {
      resp := resp + [BulkString(c.capabilities[i])];
    }
    assert resp == ToResp(c).value.els;
  }

  /** `modified_keys`. */
  function ModifiedKeys(c: Command): seq<Key> {
    match c
    case Set(key, _, _, _) => [key]
    case Lpush(key, _) => [key]
    case Rpush(key, _) => [key]
    case Incr(key) => [key]
    case Xadd(key, _, _) => [key]
    case _ => []
  }

  /** `as u64` on a float saturates. */
  function SaturatingU64(x: real): u64 {
    if x <= 0.0 then 0 else if x.Floor >= U64_LIMIT then MAX_U64 else x.Floor
  }

  /** `block_timeout`, in milliseconds; zero means forever. */
  function BlockTimeout(c: Command): Option<u64> {
    match c
    case Blpop(_, seconds) => if seconds == 0.0 then Some(MAX_U64) else Some(SaturatingU64(seconds * 1000.0))
    case Xread(_, Some(ms), _) => if ms == 0 then Some(MAX_U64) else Some(ms)
    case _ => None
  }

  /** `is_replicatable`. */
  predicate IsReplicatable(c: Command) {
    c.Set? || c.GetAck?
  }

  // ------------------------------------------------------------------------- decoding

  /** Outcome of `from_resp`: a command, no such command, a panic, or a command name whose branch
      this model does not open. */
  datatype Decoded = Decoded(command: Command) | Unknown | Crash | Unmodelled {
    predicate IsFailure() {
      !Decoded?
    }
  }

  /** `get_bytes`. */
  function GetBytes(r: Resp): Option<Bytes> {
    match r
    case File(f) => Some(f)
    case SimpleString(s) => Some(s)
    case BulkString(s) => Some(s)
    case SimpleError(e) => Some(e)
    case _ => None
  }

  /** `get_str`. */
  function GetStr(r: Resp): Option<Text> {
    match r
    case SimpleString(s) => if ValidUtf8(s) then Some(s) else None
    case BulkString(s) => if ValidUtf8(s) then Some(s) else None
    case SimpleError(e) => if ValidUtf8(e) then Some(e) else None
    case _ => None
  }

  function BytesAt(els: seq<Resp>, i: nat): Option<Bytes> {
    if i < |els| then GetBytes(els[i]) else None
  }

  function StrAt(els: seq<Resp>, i: nat): Option<Text> {
    if i < |els| then GetStr(els[i]) else None
  }

  function NumberAt(els: seq<Resp>, i: nat, lo: int, hi: int): Option<int> {
    match StrAt(els, i)
    case Some(s) => ParseInt(s, lo, hi)
    case None => None
  }

  function Upper(s: Bytes): Bytes {
    seq(|s|, i requires 0 <= i < |s| => if 97 <= s[i] <= 122 then s[i] - 32 else s[i])
  }

  function FromResp(r: Resp): Decoded {
    if !r.Array? then Unknown
    else if r.els == [] || GetStr(r.els[0]) == None then Crash
    else
      var els := r.els;
      var name := Upper(GetStr(els[0]).value);
      if name == Ascii("SET") then DecodeSet(els)
      else if name == Ascii("PING") then Decoded(Ping(BytesAt(els, 1)))
      else if name == Ascii("REPLCONF") then DecodeReplconf(els)
      else if name == Ascii("PSYNC") then DecodePsync(els)
      else if name == Ascii("XREAD") then DecodeXread(els)
      else Unmodelled
  }

  function DecodeSet(els: seq<Resp>): Decoded {
    if |els| != 3 && |els| != 5 then Unknown
    else
      match (BytesAt(els, 1), BytesAt(els, 2))
      case (Some(key), Some(value)) =>
        if |els| == 3 then Decoded(Set(key, value, None, None))
        else
          (match (NumberAt(els, 4, 0, U64_LIMIT), StrAt(els, 3))
           case (Some(ttl), Some(unit)) =>
             if !(0 <= ttl < U64_LIMIT) then Crash
             else if Upper(unit) == Ascii("EX") then Decoded(Set(key, value, Some(ttl), None))
             else if Upper(unit) == Ascii("PX") then Decoded(Set(key, value, None, Some(ttl)))
             else Decoded(Set(key, value, None, None))
           case _ => Crash)
      case _ => Crash
  }

  function DecodeCapa(rest: seq<Resp>): Decoded {
    if forall i :: 0 <= i < |rest| ==> GetBytes(rest[i]).Some?
    then Decoded(Capa(seq(|rest|, i requires 0 <= i < |rest| => GetBytes(rest[i]).value)))
    else Crash
  }

  function DecodeReplconf(els: seq<Resp>): Decoded {
    if StrAt(els, 1) == None then Crash
    else
      var sub := StrAt(els, 1).value;
      if Upper(sub) == Ascii("LISTENING-PORT") then
        (match NumberAt(els, 2, 0, U16_LIMIT)
         case Some(port) => if 0 <= port < U16_LIMIT then Decoded(ListeningPort(port)) else Crash
         case None => Crash)
      else if Upper(sub) == Ascii("CAPA") then
        DecodeCapa(els[2..])
      else if Upper(sub) == Ascii("GETACK") then Decoded(GetAck)
      else if Upper(sub) == Ascii("ACK") then
        (match NumberAt(els, 2, 0, U64_LIMIT)
         case Some(n) => if 0 <= n < U64_LIMIT then Decoded(Ack(n)) else Crash
         case None => Crash)
      else Crash
  }

  function DecodePsync(els: seq<Resp>): Decoded {
    match (StrAt(els, 1), NumberAt(els, 2, -I64_LIMIT, I64_LIMIT))
    case (Some(id), Some(offset)) =>
      if -I64_LIMIT <= offset < I64_LIMIT then Decoded(Psync(id, offset)) else Crash
    case _ => Crash
  }

  /** The keys and ids after STREAMS: as many of one as of the other. */
  function DecodeStreams(milliseconds: Option<u64>, rest: seq<Resp>): Decoded {
    if |rest| % 2 != 0 then Crash
    else
      var half := |rest| / 2;
      if (forall i :: 0 <= i < half ==> GetBytes(rest[i]).Some?)
         && (forall i :: half <= i < |rest| ==> GetBytes(rest[i]).Some? && ParseXreadId(GetBytes(rest[i]).value).Some?)
      then
        Decoded(Xread(seq(half, i requires 0 <= i < half => GetBytes(rest[i]).value),
                      milliseconds,
                      seq(half, i requires 0 <= i < half => ParseXreadId(GetBytes(rest[i + half]).value).value)))
      else Crash
  }

  function DecodeXread(els: seq<Resp>): Decoded {
    match StrAt(els, 1)
    case None => Crash
    case Some(word) =>
      if Upper(word) == Ascii("BLOCK") then
        (match (NumberAt(els, 2, 0, U64_LIMIT), StrAt(els, 3))
         case (Some(ms), Some(streams)) =>
           if 0 <= ms < U64_LIMIT && Upper(streams) == Ascii("STREAMS") then DecodeStreams(Some(ms), els[4..]) else Crash
         case _ => Crash)
      else if Upper(word) == Ascii("STREAMS") then DecodeStreams(None, els[2..])
      else Crash
  }

  /** The XREAD branch as written: an index steps over BLOCK, the time and STREAMS. */
  method DecodeXreadRun(els: seq<Resp>) returns (r: Decoded)
    ensures r == DecodeXread(els)
  {
    var i := 1;
    var milliseconds: Option<u64> := None;
    var word := StrAt(els, i);
    if word == None {
      return Crash;
    }
    if Upper(word.value) == Ascii("BLOCK") {
      i := i + 1;
      var ms := NumberAt(els, i, 0, U64_LIMIT);
      if ms == None || !(0 <= ms.value < U64_LIMIT) {
        return Crash;
      }
      i := i + 1;
      milliseconds := Some(ms.value);
    }
    var streams := StrAt(els, i);
    if streams == None || Upper(streams.value) != Ascii("STREAMS") {
      return Crash;
    }
    i := i + 1;
    r := DecodeStreams(milliseconds, els[i..]);
  }

  /** A decoded XREAD names one id per key, and asks to block only if a time was given. */
  lemma DecodedXreadPairs(r: Resp)
    ensures FromResp(r).Decoded? && FromResp(r).command.Xread? ==>
      |FromResp(r).command.keys| == |FromResp(r).command.ids|
  {
  }

  // ----------------------------------------------------------------------- round trip

  lemma AsciiWord(text: string)
    requires forall i :: 0 <= i < |text| ==> text[i] as int < 0x80
    ensures GetStr(Word(text)) == Some(Ascii(text))
  {
    AsciiIsUtf8(Ascii(text));
  }

  lemma NumberReads(els: seq<Resp>, i: nat, n: int, lo: int, hi: int)
    requires i < |els| && els[i] == Number(n) && lo <= n < hi && lo <= 0
    ensures NumberAt(els, i, lo, hi) == Some(n)
  {
    TextIsAscii(n);
    ParseIntText(n, lo, hi);
  }

  lemma Distinguish()
    ensures Ascii("PING") != Ascii("SET")
    ensures Ascii("REPLCONF") != Ascii("SET") && Ascii("REPLCONF") != Ascii("PING")
    ensures Ascii("PSYNC") != Ascii("SET") && Ascii("PSYNC") != Ascii("PING") && Ascii("PSYNC") != Ascii("REPLCONF")
    ensures Ascii("PX") != Ascii("EX")
    ensures Ascii("CAPA") != Ascii("LISTENING-PORT")
    ensures Ascii("GETACK") != Ascii("LISTENING-PORT") && Ascii("GETACK") != Ascii("CAPA")
  {
    assert |Ascii("PING")| == 4 && |Ascii("SET")| == 3 && |Ascii("REPLCONF")| == 8 && |Ascii("PSYNC")| == 5;
    assert Ascii("PX")[0] != Ascii("EX")[0];
    assert |Ascii("CAPA")| == 4 && |Ascii("LISTENING-PORT")| == 14 && |Ascii("GETACK")| == 6;
  }

  /** A word without lower-case letters is its own upper case. */
  lemma AlreadyUpper(text: string)
    requires forall i :: 0 <= i < |text| ==> text[i] < 'a'
    ensures Upper(Ascii(text)) == Ascii(text)
  {
  }

  lemma CapaUpper()
    ensures Upper(Ascii("capa")) == Ascii("CAPA")
  {
    assert |Upper(Ascii("capa"))| == 4;
  }

  lemma ListeningPortUpper()
    ensures Upper(Ascii("listening-port")) == Ascii("LISTENING-PORT")
  {
    assert |Upper(Ascii("listening-port"))| == 14;
  }

  lemma UpperWords()
    ensures Upper(Ascii("SET")) == Ascii("SET") && Upper(Ascii("PING")) == Ascii("PING")
    ensures Upper(Ascii("REPLCONF")) == Ascii("REPLCONF") && Upper(Ascii("PSYNC")) == Ascii("PSYNC")
    ensures Upper(Ascii("EX")) == Ascii("EX") && Upper(Ascii("PX")) == Ascii("PX")
    ensures Upper(Ascii("GETACK")) == Ascii("GETACK")
    ensures Upper(Ascii("capa")) == Ascii("CAPA")
    ensures Upper(Ascii("listening-port")) == Ascii("LISTENING-PORT")
  {
    hide Upper, Ascii;
    AlreadyUpper("SET");
    AlreadyUpper("PING");
    AlreadyUpper("REPLCONF");
    AlreadyUpper("PSYNC");
    AlreadyUpper("EX");
    AlreadyUpper("PX");
    AlreadyUpper("GETACK");
    CapaUpper();
    ListeningPortUpper();
  }

  lemma NameReads(els: seq<Resp>, text: string)
    requires els != [] && els[0] == Word(text)
    requires forall i :: 0 <= i < |text| ==> text[i] as int < 0x80
    requires Upper(Ascii(text)) == Ascii(text)
    ensures
      FromResp(Array(els)) ==
      if Ascii(text) == Ascii("SET") then DecodeSet(els)
      else if Ascii(text) == Ascii("PING") then Decoded(Ping(BytesAt(els, 1)))
      else if Ascii(text) == Ascii("REPLCONF") then DecodeReplconf(els)
      else if Ascii(text) == Ascii("PSYNC") then DecodePsync(els)
      else if Ascii(text) == Ascii("XREAD") then DecodeXread(els)
      else Unmodelled
  {
    AsciiWord(text);
  }

  lemma SetReads(c: Command)
    requires c.Set? && ValidUtf8(c.key)
    ensures FromResp(ToResp(c).value) == if c.ex.Some? && c.px.Some? then Unknown else Decoded(c)
  {
    hide FromResp, Ascii, Upper, NumberAt, ParseInt, NatText;
    var els := ToResp(c).value.els;
    assert els[0] == Word("SET") && els[1] == BulkString(c.key) && els[2] == BulkString(c.value);
    UpperWords();
    NameReads(els, "SET");
    Distinguish();
    if c.ex.Some? && c.px.None? {
      AsciiWord("EX");
      assert els[3] == Word("EX") && els[4] == Number(c.ex.value);
      NumberReads(els, 4, c.ex.value, 0, U64_LIMIT);
    } else if c.px.Some? && c.ex.None? {
      AsciiWord("PX");
      assert els[3] == Word("PX") && els[4] == Number(c.px.value);
      NumberReads(els, 4, c.px.value, 0, U64_LIMIT);
    }
  }

  lemma ReplconfDispatch(els: seq<Resp>)
    requires els != [] && els[0] == Word("REPLCONF")
    ensures FromResp(Array(els)) == DecodeReplconf(els)
  {
    hide FromResp, Ascii, Upper, DecodeSet, DecodeReplconf, DecodePsync, DecodeXread;
    UpperWords();
    NameReads(els, "REPLCONF");
    Distinguish();
  }

  lemma GetAckReads()
    ensures FromResp(ToResp(GetAck).value) == Decoded(GetAck)
  {
    hide FromResp, Ascii, Upper, DecodeCapa, NumberAt;
    var els := [Word("REPLCONF"), Word("GETACK"), Word("*")];
    ReplconfDispatch(els);
    AsciiWord("GETACK");
    UpperWords();
    Distinguish();
  }

  lemma ListeningPortReads(c: Command)
    requires c.ListeningPort?
    ensures FromResp(ToResp(c).value) == Decoded(c)
  {
    hide FromResp, Ascii, Upper, DecodeCapa, NumberAt;
    var els := [Word("REPLCONF"), Word("listening-port"), Number(c.port)];
    ReplconfDispatch(els);
    AsciiWord("listening-port");
    UpperWords();
    NumberReads(els, 2, c.port, 0, U16_LIMIT);
  }

  lemma CapaReads(c: Command)
    requires c.Capa?
    ensures FromResp(ToResp(c).value) == Decoded(c)
  {
    hide FromResp, Ascii, Upper, DecodeCapa, NumberAt;
    var caps := c.capabilities;
    var rest := seq(|caps|, i requires 0 <= i < |caps| => BulkString(caps[i]));
    var els := [Word("REPLCONF"), Word("capa")] + rest;
    ReplconfDispatch(els);
    AsciiWord("capa");
    UpperWords();
    Distinguish();
    assert els[2..] == rest;
    CapabilitiesRead(caps, rest);
  }

  lemma CapabilitiesRead(caps: seq<Bytes>, rest: seq<Resp>)
    requires |rest| == |caps| && forall i :: 0 <= i < |caps| ==> rest[i] == BulkString(caps[i])
    ensures DecodeCapa(rest) == Decoded(Capa(caps))
  {
    assert forall i :: 0 <= i < |rest| ==> GetBytes(rest[i]) == Some(caps[i]);
    assert seq(|rest|, i requires 0 <= i < |rest| => GetBytes(rest[i]).value) == caps;
  }

  lemma PsyncReads(c: Command)
    requires c.Psync? || c.Ping?
    ensures FromResp(ToResp(c).value) == Decoded(c)
  {
    hide FromResp, Ascii, Upper, NumberAt, ParseInt, NatText;
    var els := ToResp(c).value.els;
    UpperWords();
    Distinguish();
    if c.Psync? {
      NameReads(els, "PSYNC");
      NumberReads(els, 2, c.offset, -I64_LIMIT, I64_LIMIT);
    } else {
      NameReads(els, "PING");
    }
  }

  /** A command written to the log or sent to a replica decodes to itself, except a SET that carries
      both expiry options, which no decoded command does. */
  lemma LoggedRoundTripIff(c: Command)
    requires !ToRespPanics(c) && ToResp(c).Some?
    ensures FromResp(ToResp(c).value) == Decoded(c) <==> !(c.Set? && c.ex.Some? && c.px.Some?)
  {
    match c {
      case Set(_, _, _, _) => SetReads(c);
      case GetAck => GetAckReads();
      case ListeningPort(_) => ListeningPortReads(c);
      case Capa(_) => CapaReads(c);
      case Psync(_, _) => PsyncReads(c);
      case Ping(_) => PsyncReads(c);
    }
  }

  /** No decoded SET carries both expiry options. */
  lemma DecodedSetHasOneExpiry(r: Resp)
    ensures FromResp(r).Decoded? && FromResp(r).command.Set? ==>
      FromResp(r).command.ex == None || FromResp(r).command.px == None
  {
  }

  lemma LenOfThree(a: Resp, b: Resp, c: Resp)
    ensures LenSum([a, b, c]) == Len(a) + Len(b) + Len(c)
  {
    hide Len;
    assert [a, b, c][1..] == [b, c] && [b, c][1..] == [c] && [c][1..] == [];
    assert LenSum([c]) == Len(c);
    assert LenSum([b, c]) == Len(b) + LenSum([c]);
  }

  lemma WordLength(text: string)
    requires 0 < |text| < 10
    ensures Len(Word(text)) == 6 + |text|
  {
    assert |NatText(|text|)| == 1;
  }

  /** A GETACK takes 37 bytes on the wire. */
  lemma GetAckLength()
    ensures Len(ToResp(GetAck).value) == 37
  {
    hide Word;
    LenOfThree(Word("REPLCONF"), Word("GETACK"), Word("*"));
    WordLength("REPLCONF");
    WordLength("GETACK");
    WordLength("*");
    assert |NatText(3)| == 1;
  }

  /** Everything the log or a replica connection carries is a well-formed frame. */
  lemma SentIsWellFormed(c: Command)
    requires !ToRespPanics(c) && ToResp(c).Some?
    requires c.Set? ==> |c.key| < U64_LIMIT && |c.value| < U64_LIMIT
    requires c.Ping? && c.payload.Some? ==> |c.payload.value| < U64_LIMIT
    requires c.Psync? ==> |c.replicationId| < U64_LIMIT
    requires c.Capa? ==> |c.capabilities| < U64_LIMIT - 2
    requires c.Capa? ==> forall i :: 0 <= i < |c.capabilities| ==> |c.capabilities[i]| < U64_LIMIT
    ensures WellFormed(ToResp(c).value)
  {
    match c {
      case Set(_, _, ex, px) =>
        if ex.Some? { ShortNumber(ex.value); }
        if px.Some? { ShortNumber(px.value); }
      case ListeningPort(port) => ShortNumber(port);
      case Psync(_, offset) => ShortNumber(offset);
      case _ =>
    }
  }

  lemma ShortNumber(n: int)
    requires -I64_LIMIT <= n < U64_LIMIT
    ensures |IntText(n)| < U64_LIMIT
  {
    DigitsBound(if n < 0 then -n else n);
  }

  lemma {:induction false} DigitsBound(n: nat)
    ensures |NatText(n)| <= if n == 0 then 1 else n
  {
    if n >= 10 {
      DigitsBound(n / 10);
    }
  }
}
