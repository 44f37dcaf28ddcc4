/**
 RESP2 frames: encoder, length and parser (`src/resp.rs`), after the Redis
 serialization protocol specification. A `File` frame is a bulk string without the
 closing CRLF; the parser only tells the two apart by what follows.
 */
module RespCodec {
  import opened Types
  import opened Decimal
  import opened Parser

  datatype Resp =
    | NullBulkString
    | NullArray
    | SimpleString(text: Bytes)
    | BulkString(bytes: Bytes)
    | SimpleError(message: Bytes)
    | Integer(n: i64)
    | File(content: Bytes)
    | Array(els: seq<Resp>)

  const PLUS_BYTE: byte := 43
  const MINUS_BYTE: byte := 45
  const COLON: byte := 58
  const DOLLAR: byte := 36
  const STAR: byte := 42

  const NULL_BULK: Bytes := [DOLLAR, 45, 49, CR, LF]
  const NULL_ARRAY: Bytes := [STAR, 45, 49, CR, LF]

  // --------------------------------------------------------------------- encoding

  /** The bytes `encode_resp` produces. */
  function Encode(r: Resp): Bytes
    decreases r, 1
  {
    match r
    case NullBulkString => NULL_BULK
    case NullArray => NULL_ARRAY
    case SimpleString(s) => [PLUS_BYTE] + s + CRLF
    case SimpleError(e) => [MINUS_BYTE] + e + CRLF
    case Integer(n) => [COLON] + IntText(n) + CRLF
    case BulkString(s) => [DOLLAR] + IntText(|s|) + CRLF + s + CRLF
    case File(f) => [DOLLAR] + IntText(|f|) + CRLF + f
    case Array(els) => [STAR] + IntText(|els|) + CRLF + EncodeAll(els)
  }

  function EncodeAll(rs: seq<Resp>): Bytes
    decreases rs, 0
  {
    if rs == [] then [] else Encode(rs[0]) + EncodeAll(rs[1..])
  }

  /** `encode_resp`: a buffer grown piece by piece, one element after the other in an array. */
  method EncodeResp(r: Resp) returns (out: Bytes)
    ensures out == Encode(r)
    decreases r, 1
  {
    match r {
      case NullBulkString => out := NULL_BULK;
      case NullArray => out := NULL_ARRAY;
      case SimpleString(s) =>
        out := [PLUS_BYTE];
        out := out + s;
        out := out + CRLF;
      case BulkString(s) =>
        out := [DOLLAR];
        out := out + IntText(|s|);
        out := out + CRLF;
        out := out + s;
        out := out + CRLF;
      case SimpleError(e) =>
        out := [MINUS_BYTE];
        out := out + e;
        out := out + CRLF;
      case Integer(n) =>
        out := [COLON];
        out := out + IntText(n);
        out := out + CRLF;
      case Array(els) =>
        out := [STAR];
        out := out + IntText(|els|);
        out := out + CRLF;
        var body := EncodeElements(els);
        out := out + body;
      case File(f) =>
        out := [DOLLAR];
        out := out + IntText(|f|);
        out := out + CRLF;
        out := out + f;
    }
  }

  method EncodeElements(els: seq<Resp>) returns (out: Bytes)
    ensures out == EncodeAll(els)
    decreases els, 0
  {
    out := [];
    for i := 0 to |els|
      invariant out == EncodeAll(els[..i])
    {
      var bytes := EncodeResp(els[i]);
      EncodeAllConcat(els[..i], [els[i]]);
      assert els[..i + 1] == els[..i] + [els[i]];
      assert EncodeAll([els[i]]) == bytes + [];
      out := out + bytes;
    }
    assert els[..|els|] == els;
  }

  /** `Resp::len`. */
  function Len(r: Resp): nat
    decreases r, 1
  {
    match r
    case NullBulkString => 5
    case NullArray => 5
    case File(f) => |IntText(|f|)| + |f| + 3
    case Integer(n) => 3 + |IntText(n)|
    case SimpleString(s) => 3 + |s|
    case BulkString(s) => 5 + |IntText(|s|)| + |s|
    case SimpleError(e) => 3 + |e|
    case Array(els) => |IntText(|els|)| + LenSum(els) + 3
  }

  function LenSum(rs: seq<Resp>): nat
    decreases rs, 0
  {
    if rs == [] then 0 else Len(rs[0]) + LenSum(rs[1..])
  }

  /** `Resp::len` is the number of bytes the encoder writes, at every depth. */
  lemma {:induction false} LenIsEncodedLength(r: Resp)
    ensures Len(r) == |Encode(r)|
    decreases r, 1
  {
    if r.Array? {
      LenSumIsEncodedLength(r.els);
    }
  }

  lemma {:induction false} LenSumIsEncodedLength(rs: seq<Resp>)
    ensures LenSum(rs) == |EncodeAll(rs)|
    decreases rs, 0
  {
    if rs != [] {
      LenIsEncodedLength(rs[0]);
      LenSumIsEncodedLength(rs[1..]);
    }
  }

  lemma {:induction false} EncodeAllConcat(a: seq<Resp>, b: seq<Resp>)
    ensures EncodeAll(a + b) == EncodeAll(a) + EncodeAll(b)
  {
    if a == [] {
      assert a + b == b;
    } else {
      assert (a + b)[1..] == a[1..] + b;
      EncodeAllConcat(a[1..], b);
    }
  }

  // ---------------------------------------------------------------------- parsing

  function ParseSimple(lead: byte, input: Bytes): ParseResult<Bytes> {
    var (_, rest) :- ReadByte(lead, input);
    var (s, rest) :- TakeUntil(CRLF, rest);
    var (_, rest) :- Tag(CRLF, rest);
    Ok(s, rest)
  }

  function ParseInteger(input: Bytes): ParseResult<i64> {
    var (_, rest) :- ReadByte(COLON, input);
    var (n, rest) :- Parser.Integer(-I64_LIMIT, I64_LIMIT, rest);
    var (_, rest) :- Tag(CRLF, rest);
    if -I64_LIMIT <= n < I64_LIMIT then Ok(n, rest) else Err
  }

  /** A lead byte, a `usize` and a CRLF: what bulk strings, files and arrays begin with. */
  function ParseHeader(lead: byte, input: Bytes): ParseResult<int> {
    var (_, rest) :- ReadByte(lead, input);
    var (n, rest) :- Parser.Integer(0, U64_LIMIT, rest);
    var (_, rest) :- Tag(CRLF, rest);
    Ok(n, rest)
  }

  function ParseBulkString(input: Bytes): ParseResult<Bytes> {
    var (n, rest) :- ParseHeader(DOLLAR, input);
    if n < 0 then Err
    else
      var (s, rest) :- Take(n, rest);
      var (_, rest) :- Tag(CRLF, rest);
      Ok(s, rest)
  }

  function ParseRdbFile(input: Bytes): ParseResult<Bytes> {
    var (n, rest) :- ParseHeader(DOLLAR, input);
    if n < 0 then Err else Take(n, rest)
  }

  function Frame<T>(r: ParseResult<T>, make: T -> Resp): ParseResult<Option<Resp>> {
    match r
    case Ok(v, rest) => Ok(Some(make(v)), rest)
    case Err => Err
    case Panic => Panic
  }

  /** The frames without nested frames. A bulk string is tried first; a file is the fallback. */
  function ParseScalar(input: Bytes): ParseResult<Option<Resp>> {
    if input == [] then Err
    else if input[0] == DOLLAR then
      var bulk := ParseBulkString(input);
      if bulk.Err? then Frame(ParseRdbFile(input), f => File(f)) else Frame(bulk, s => BulkString(s))
    else if input[0] == PLUS_BYTE then Frame(ParseSimple(PLUS_BYTE, input), s => SimpleString(s))
    else if input[0] == MINUS_BYTE then Frame(ParseSimple(MINUS_BYTE, input), e => SimpleError(e))
    else if input[0] == COLON then Frame(ParseInteger(input), n => Integer(n))
    else Err
  }

  /** One frame, or nothing at the end of the input. A frame takes at least one byte, nested
      frames included, which is what makes the mutual recursion and the loops below terminate. */
  function ParseSingle(input: Bytes): (r: ParseResult<Option<Resp>>)
    ensures r.Ok? ==> Suffix(r.rest, input)
    ensures r.Ok? ==> (r.value.Some? <==> |r.rest| < |input|) && (r.value == None <==> input == [])
    decreases |input|, 1
  {
    if input == [] then Ok(None, input)
    else if NULL_BULK <= input then Ok(Some(NullBulkString), input[5..])
    else if NULL_ARRAY <= input then Ok(Some(NullArray), input[5..])
    else if input[0] == STAR then ParseArray(input)
    else
      ScalarShrinks(input);
      ParseScalar(input)
  }

  function ParseArray(input: Bytes): (r: ParseResult<Option<Resp>>)
    ensures r.Ok? ==> r.value.Some? && StrictSuffix(r.rest, input)
    decreases |input|, 0
  {
    HeaderShrinks(STAR, input);
    var (n, body) :- ParseHeader(STAR, input);
    if n < 0 then Err
    else
      var (els, rest) :- ParseElements(n, body);
      SuffixOfSuffix(rest, body, input);
      Ok(Some(Array(els)), rest)
  }

  /** `count` frames in a row; the end of the input before that is an error. */
  function ParseElements(count: nat, input: Bytes): (r: ParseResult<seq<Resp>>)
    ensures r.Ok? ==> Suffix(r.rest, input) && |r.value| == count
    decreases |input|, 2, count
  {
    if count == 0 then Ok([], input)
    else
      var (el, tail) :- ParseSingle(input);
      if el == None then Err
      else
        var (els, rest) :- ParseElements(count - 1, tail);
        SuffixOfSuffix(rest, tail, input);
        Ok([el.value] + els, rest)
  }

  /** `parse_resp`: frames up to the end of the input. A malformed frame panics. */
  function ParseResp(input: Bytes): ParseResult<seq<Resp>>
    decreases |input|
  {
    match ParseSingle(input)
    case Ok(Some(r), rest) =>
      (match ParseResp(rest)
       case Ok(rs, last) => Ok([r] + rs, last)
       case failure => failure)
    case Ok(None, rest) => Ok([], rest)
    case _ => Panic
  }

  /** `parse_single_resp` and `parse_array` as written: the array loop keeps the rest and the
      elements in mutable variables and calls back for each element. */
  method ParseSingleRun(input: Bytes) returns (r: ParseResult<Option<Resp>>)
    ensures r == ParseSingle(input)
    decreases |input|, 1
  {
    if input != [] && !(NULL_BULK <= input) && !(NULL_ARRAY <= input) && input[0] == STAR {
      r := ParseArrayRun(input);
    } else {
      r := ParseSingle(input);
    }
  }

  method ParseArrayRun(input: Bytes) returns (r: ParseResult<Option<Resp>>)
    ensures r == ParseArray(input)
    decreases |input|, 0
  {
    HeaderShrinks(STAR, input);
    var header := ParseHeader(STAR, input);
    if header.IsFailure() {
      return header.PropagateFailure();
    }
    var n := header.value;
    if n < 0 {
      return Err;
    }
    var els := ParseElementsRun(n, header.rest);
    if els.IsFailure() {
      return els.PropagateFailure();
    }
    r := Ok(Some(Array(els.value)), els.rest);
  }

  method ParseElementsRun(count: nat, input: Bytes) returns (r: ParseResult<seq<Resp>>)
    ensures r == ParseElements(count, input)
    decreases |input|, 2
  {
    hide ParseSingle;
    var elements: seq<Resp> := [];
    var newRest := input;
    PrependNothing(ParseElements(count, input));
    for i := 0 to count
      invariant |newRest| <= |input|
      invariant ParseElements(count, input) == Prepend(elements, ParseElements(count - i, newRest))
    {
      var single := ParseSingleRun(newRest);
      if single.IsFailure() {
        return single.PropagateFailure();
      }
      if single.value == None {
        return Err;
      }
      PrependTwice(elements, single.value.value, ParseElements(count - i - 1, single.rest));
      elements := elements + [single.value.value];
      newRest := single.rest;
    }
    assert elements + [] == elements;
    r := Ok(elements, newRest);
  }

  method ParseRespRun(input: Bytes) returns (r: ParseResult<seq<Resp>>)
    ensures r == ParseResp(input)
  {
    var resp: seq<Resp> := [];
    var nextInput := input;
    PrependNothing(ParseResp(input));
    while true
      invariant ParseResp(input) == Prepend(resp, ParseResp(nextInput))
      decreases |nextInput|
    {
      var single := ParseSingleRun(nextInput);
      match single {
        case Ok(Some(newResp), newInput) =>
          PrependTwice(resp, newResp, ParseResp(newInput));
          resp := resp + [newResp];
          nextInput := newInput;
        case Ok(None, newInput) =>
          nextInput := newInput;
          assert resp + [] == resp;
          break;
        case _ =>
          return Panic;
      }
    }
    r := Ok(resp, nextInput);
  }

  // --------------------------------------------------------------------- progress

  lemma NumberLineShrinks(lo: int, hi: int, input: Bytes)
    requires |input| > 0
    ensures
      var number := Parser.Integer(lo, hi, input[1..]);
      number.Ok? ==>
        && lo <= number.value < hi
        && StrictSuffix(number.rest, input)
        && (CRLF <= number.rest ==> StrictSuffix(number.rest[2..], input))
  {
    IntegerReads(lo, hi, input[1..]);
    var number := Parser.Integer(lo, hi, input[1..]);
    if number.Ok? {
      SuffixOfSuffix(number.rest, input[1..], input);
      if CRLF <= number.rest {
        SuffixOfSuffix(number.rest[2..], number.rest, input);
      }
    }
  }

  lemma HeaderShrinks(lead: byte, input: Bytes)
    ensures ParseHeader(lead, input).Ok? ==>
      StrictSuffix(ParseHeader(lead, input).rest, input) && 0 <= ParseHeader(lead, input).value < U64_LIMIT
  {
    if |input| > 0 {
      NumberLineShrinks(0, U64_LIMIT, input);
    }
  }

  lemma IntegerFrameShrinks(input: Bytes)
    ensures ParseInteger(input).Ok? ==> StrictSuffix(ParseInteger(input).rest, input)
  {
    if |input| > 0 {
      NumberLineShrinks(-I64_LIMIT, I64_LIMIT, input);
    }
  }

  lemma SimpleShrinks(lead: byte, input: Bytes)
    ensures ParseSimple(lead, input).Ok? ==> StrictSuffix(ParseSimple(lead, input).rest, input)
  {
    if |input| > 2 {
      FirstFrom(CRLF, input[1..], 0);
    }
  }

  lemma ScalarShrinks(input: Bytes)
    ensures ParseScalar(input).Ok? ==> ParseScalar(input).value.Some? && StrictSuffix(ParseScalar(input).rest, input)
  {
    if input == [] {
    } else if input[0] == DOLLAR {
      BulkShrinks(input);
    } else if input[0] == PLUS_BYTE {
      SimpleShrinks(PLUS_BYTE, input);
    } else if input[0] == MINUS_BYTE {
      SimpleShrinks(MINUS_BYTE, input);
    } else if input[0] == COLON {
      IntegerFrameShrinks(input);
    }
  }

  lemma BulkShrinks(input: Bytes)
    ensures ParseBulkString(input).Ok? ==> StrictSuffix(ParseBulkString(input).rest, input)
    ensures ParseRdbFile(input).Ok? ==> StrictSuffix(ParseRdbFile(input).rest, input)
  {
    HeaderShrinks(DOLLAR, input);
    var header := ParseHeader(DOLLAR, input);
    if header.Ok? && 0 <= header.value <= |header.rest| {
      var rest := header.rest[header.value..];
      SuffixOfSuffix(rest, header.rest, input);
      if CRLF <= rest {
        SuffixOfSuffix(rest[2..], rest, input);
      }
    }
  }

  // -------------------------------------------------------------------- round trip

  ghost predicate NoCrlf(s: Bytes) {
    forall i :: 0 <= i < |s| - 1 ==> !(s[i] == CR && s[i + 1] == LF)
  }

  /** A frame that can be sent: no CRLF inside a simple string or error, and lengths a `usize` holds. */
  ghost predicate WellFormed(r: Resp) {
    match r
    case SimpleString(s) => NoCrlf(s)
    case SimpleError(e) => NoCrlf(e)
    case BulkString(s) => |s| < U64_LIMIT
    case File(f) => |f| < U64_LIMIT
    case Array(els) => |els| < U64_LIMIT && forall i :: 0 <= i < |els| ==> WellFormed(els[i])
    case _ => true
  }

  ghost predicate AllWellFormed(rs: seq<Resp>) {
    forall i :: 0 <= i < |rs| ==> WellFormed(rs[i])
  }

  lemma EncodeHead(r: Resp)
    ensures |Encode(r)| > 0 && Encode(r)[0] != CR
  {
  }

  lemma {:induction false} EncodeAllHead(rs: seq<Resp>, rest: Bytes)
    requires !(CRLF <= rest)
    ensures !(CRLF <= EncodeAll(rs) + rest)
  {
    if rs == [] {
      assert EncodeAll(rs) + rest == rest;
    } else {
      EncodeHead(rs[0]);
      assert (EncodeAll(rs) + rest)[0] == Encode(rs[0])[0];
    }
  }

  lemma HeaderRoundTrip(lead: byte, n: nat, rest: Bytes)
    requires n < U64_LIMIT
    ensures ParseHeader(lead, [lead] + IntText(n) + CRLF + rest) == Ok(n, rest)
  {
    var input := [lead] + IntText(n) + CRLF + rest;
    assert input[1..] == IntText(n) + (CRLF + rest);
    IntegerRoundTrip(n, 0, U64_LIMIT, CRLF + rest);
    TagReads(CRLF, rest);
  }

  lemma TakeUntilCrlf(s: Bytes, rest: Bytes)
    requires NoCrlf(s)
    ensures TakeUntil(CRLF, s + (CRLF + rest)) == Ok(s, CRLF + rest)
  {
    var body := s + (CRLF + rest);
    FirstFrom(CRLF, body, 0);
    var taken := TakeUntil(CRLF, body);
    assert body[..|s|] == s && body[|s|..] == CRLF + rest;
    assert StartsAt(body, |s|, CRLF);
    forall j | 0 <= j < |s| ensures !StartsAt(body, j, CRLF) {
      assert body[j..][0] == body[j] && body[j..][1] == body[j + 1];
    }
    if taken.Ok? {
      assert StartsAt(body, |taken.value|, CRLF);
    }
  }

  lemma SimpleRoundTrip(lead: byte, s: Bytes, rest: Bytes)
    requires NoCrlf(s)
    ensures ParseSimple(lead, [lead] + s + CRLF + rest) == Ok(s, rest)
  {
    var input := [lead] + s + CRLF + rest;
    assert input[1..] == s + (CRLF + rest);
    TakeUntilCrlf(s, rest);
    TagReads(CRLF, rest);
  }

  lemma IntegerFrameRoundTrip(n: i64, rest: Bytes)
    ensures ParseInteger([COLON] + IntText(n) + CRLF + rest) == Ok(n, rest)
  {
    hide IntText, Parser.Integer;
    var input := [COLON] + IntText(n) + CRLF + rest;
    assert input[1..] == IntText(n) + (CRLF + rest);
    IntegerRoundTrip(n, -I64_LIMIT, I64_LIMIT, CRLF + rest);
    TagReads(CRLF, rest);
  }

  lemma BulkRoundTrip(s: Bytes, rest: Bytes)
    requires |s| < U64_LIMIT
    ensures ParseBulkString([DOLLAR] + IntText(|s|) + CRLF + s + CRLF + rest) == Ok(s, rest)
  {
    assert [DOLLAR] + IntText(|s|) + CRLF + s + CRLF + rest == [DOLLAR] + IntText(|s|) + CRLF + (s + (CRLF + rest));
    HeaderRoundTrip(DOLLAR, |s|, s + (CRLF + rest));
    TakeReads(s, CRLF + rest);
    TagReads(CRLF, rest);
  }

  /** A file is recognised exactly because what follows it does not begin with CRLF. */
  lemma FileRoundTrip(f: Bytes, rest: Bytes)
    requires |f| < U64_LIMIT
    ensures ParseRdbFile([DOLLAR] + IntText(|f|) + CRLF + f + rest) == Ok(f, rest)
    ensures ParseBulkString([DOLLAR] + IntText(|f|) + CRLF + f + rest).Err? <==> !(CRLF <= rest)
  {
    assert [DOLLAR] + IntText(|f|) + CRLF + f + rest == [DOLLAR] + IntText(|f|) + CRLF + (f + rest);
    HeaderRoundTrip(DOLLAR, |f|, f + rest);
    TakeReads(f, rest);
  }

  lemma NotNullFrame(lead: byte, n: nat, rest: Bytes)
    ensures
      var input := [lead] + IntText(n) + CRLF + rest;
      !(NULL_BULK <= input) && !(NULL_ARRAY <= input)
  {
    var input := [lead] + IntText(n) + CRLF + rest;
    assert input[1] == IntText(n)[0];
    assert IsDigit(input[1]);
    assert NULL_BULK[1] == MINUS && NULL_ARRAY[1] == MINUS;
  }

  lemma NullFrames(rest: Bytes)
    ensures ParseSingle(NULL_BULK + rest) == Ok(Some(NullBulkString), rest)
    ensures ParseSingle(NULL_ARRAY + rest) == Ok(Some(NullArray), rest)
  {
    assert (NULL_BULK + rest)[5..] == rest;
    assert (NULL_ARRAY + rest)[5..] == rest;
    assert (NULL_ARRAY + rest)[0] != NULL_BULK[0];
  }

  lemma IntegerFrame(n: i64, rest: Bytes)
    ensures ParseSingle([COLON] + IntText(n) + CRLF + rest) == Ok(Some(Integer(n)), rest)
  {
    var input := [COLON] + IntText(n) + CRLF + rest;
    assert input[0] == COLON;
    assert ParseSingle(input) == ParseScalar(input);
    IntegerFrameRoundTrip(n, rest);
  }

  lemma SimpleFrame(lead: byte, s: Bytes, rest: Bytes)
    requires NoCrlf(s) && (lead == PLUS_BYTE || lead == MINUS_BYTE)
    ensures ParseSingle([lead] + s + CRLF + rest) ==
            Ok(Some(if lead == PLUS_BYTE then SimpleString(s) else SimpleError(s)), rest)
  {
    SimpleRoundTrip(lead, s, rest);
  }

  lemma BulkFrame(s: Bytes, rest: Bytes)
    requires |s| < U64_LIMIT
    ensures ParseSingle([DOLLAR] + IntText(|s|) + CRLF + s + CRLF + rest) == Ok(Some(BulkString(s)), rest)
  {
    var input := [DOLLAR] + IntText(|s|) + CRLF + s + CRLF + rest;
    assert input == [DOLLAR] + IntText(|s|) + CRLF + (s + CRLF + rest);
    NotNullFrame(DOLLAR, |s|, s + CRLF + rest);
    assert ParseSingle(input) == ParseScalar(input);
    BulkRoundTrip(s, rest);
  }

  lemma FileFrame(f: Bytes, rest: Bytes)
    requires |f| < U64_LIMIT && !(CRLF <= rest)
    ensures ParseSingle([DOLLAR] + IntText(|f|) + CRLF + f + rest) == Ok(Some(File(f)), rest)
  {
    var input := [DOLLAR] + IntText(|f|) + CRLF + f + rest;
    assert input == [DOLLAR] + IntText(|f|) + CRLF + (f + rest);
    NotNullFrame(DOLLAR, |f|, f + rest);
    assert ParseSingle(input) == ParseScalar(input);
    FileRoundTrip(f, rest);
  }

  lemma ScalarRoundTrip(r: Resp, rest: Bytes)
    requires WellFormed(r) && !r.Array? && !(CRLF <= rest)
    ensures ParseSingle(Encode(r) + rest) == Ok(Some(r), rest)
  {
    match r {
      case NullBulkString => NullFrames(rest);
      case NullArray => NullFrames(rest);
      case SimpleString(s) => SimpleFrame(PLUS_BYTE, s, rest);
      case SimpleError(e) => SimpleFrame(MINUS_BYTE, e, rest);
      case Integer(n) => IntegerFrame(n, rest);
      case BulkString(s) => BulkFrame(s, rest);
      case File(f) => FileFrame(f, rest);
    }
  }

  /** One encoded frame followed by anything but CRLF is read back exactly, nested or not. */
  lemma {:induction false} SingleRoundTrip(r: Resp, rest: Bytes)
    requires WellFormed(r) && !(CRLF <= rest)
    ensures ParseSingle(Encode(r) + rest) == Ok(Some(r), rest)
    decreases r, 1
  {
    if r.Array? {
      ElementsRoundTrip(r.els, rest);
      ArrayFrame(r.els, rest);
      assert Encode(r) + rest == [STAR] + IntText(|r.els|) + CRLF + (EncodeAll(r.els) + rest);
    } else {
      ScalarRoundTrip(r, rest);
    }
  }

  lemma ArrayFrame(els: seq<Resp>, rest: Bytes)
    requires |els| < U64_LIMIT
    requires ParseElements(|els|, EncodeAll(els) + rest) == Ok(els, rest)
    ensures ParseSingle([STAR] + IntText(|els|) + CRLF + (EncodeAll(els) + rest)) == Ok(Some(Array(els)), rest)
  {
    var body := EncodeAll(els) + rest;
    var input := [STAR] + IntText(|els|) + CRLF + body;
    NotNullFrame(STAR, |els|, body);
    assert ParseSingle(input) == ParseArray(input);
    HeaderRoundTrip(STAR, |els|, body);
  }

  lemma {:induction false} ElementsRoundTrip(els: seq<Resp>, rest: Bytes)
    requires AllWellFormed(els) && !(CRLF <= rest)
    ensures ParseElements(|els|, EncodeAll(els) + rest) == Ok(els, rest)
    decreases els, 0
  {
    hide ParseSingle, Encode, WellFormed;
    if els == [] {
      assert EncodeAll(els) + rest == rest;
    } else {
      var tail := EncodeAll(els[1..]) + rest;
      assert EncodeAll(els) + rest == Encode(els[0]) + tail;
      EncodeAllHead(els[1..], rest);
      SingleRoundTrip(els[0], tail);
      ElementsRoundTrip(els[1..], rest);
      assert [els[0]] + els[1..] == els;
    }
  }

  /** A stream of well-formed frames, files anywhere among them, parses back to itself. */
  lemma {:induction false} StreamRoundTrip(rs: seq<Resp>)
    requires AllWellFormed(rs)
    ensures ParseResp(EncodeAll(rs)) == Ok(rs, [])
  {
    if rs != [] {
      hide ParseSingle;
      var tail := EncodeAll(rs[1..]);
      EncodeAllHead(rs[1..], []);
      assert tail + [] == tail;
      SingleRoundTrip(rs[0], tail);
      StreamRoundTrip(rs[1..]);
      assert [rs[0]] + rs[1..] == rs;
    }
  }

  // ----------------------------------------------------------------- normalisation

  lemma ParsedSimpleIsWellFormed(lead: byte, input: Bytes)
    ensures ParseSimple(lead, input).Ok? ==> NoCrlf(ParseSimple(lead, input).value)
  {
    if |input| > 2 {
      var body := input[1..];
      FirstFrom(CRLF, body, 0);
      var taken := TakeUntil(CRLF, body);
      if taken.Ok? {
        forall i | 0 <= i < |taken.value| - 1
          ensures !(taken.value[i] == CR && taken.value[i + 1] == LF)
        {
          assert !StartsAt(body, i, CRLF);
        }
      }
    }
  }

  /** Whatever the bytes, a frame the parser accepts is well formed. */
  lemma {:induction false} ParsedIsWellFormed(input: Bytes)
    ensures ParseSingle(input).Ok? && ParseSingle(input).value.Some? ==> WellFormed(ParseSingle(input).value.value)
    decreases |input|, 1
  {
    if input != [] && input[0] == STAR {
      HeaderShrinks(STAR, input);
      var header := ParseHeader(STAR, input);
      if header.Ok? && 0 <= header.value {
        ParsedElementsAreWellFormed(header.value, header.rest);
      }
    } else {
      ParsedScalarIsWellFormed(input);
    }
  }

  lemma ParsedScalarIsWellFormed(input: Bytes)
    ensures ParseScalar(input).Ok? ==> ParseScalar(input).value.Some? && WellFormed(ParseScalar(input).value.value)
  {
    HeaderShrinks(DOLLAR, input);
    ParsedSimpleIsWellFormed(PLUS_BYTE, input);
    ParsedSimpleIsWellFormed(MINUS_BYTE, input);
  }

  lemma {:induction false} ParsedElementsAreWellFormed(count: nat, input: Bytes)
    ensures ParseElements(count, input).Ok? ==> AllWellFormed(ParseElements(count, input).value)
    decreases |input|, 2, count
  {
    hide ParseSingle, WellFormed;
    if count > 0 {
      ParsedIsWellFormed(input);
      var single := ParseSingle(input);
      if single.Ok? && single.value.Some? {
        ParsedElementsAreWellFormed(count - 1, single.rest);
      }
    }
  }

  lemma {:induction false} ParsedStreamIsWellFormed(input: Bytes)
    ensures ParseResp(input).Ok? ==> ParseResp(input).rest == [] && AllWellFormed(ParseResp(input).value)
    decreases |input|
  {
    hide ParseSingle, WellFormed;
    ParsedIsWellFormed(input);
    var single := ParseSingle(input);
    if single.Ok? && single.value.Some? {
      ParsedStreamIsWellFormed(single.rest);
    }
  }

  /** Parsing normalises: re-encoding what was parsed and parsing again changes nothing, even if
      the input used signs or leading zeros. */
  lemma ParsingNormalises(input: Bytes)
    requires ParseResp(input).Ok?
    ensures ParseResp(EncodeAll(ParseResp(input).value)) == Ok(ParseResp(input).value, [])
  {
    ParsedStreamIsWellFormed(input);
    StreamRoundTrip(ParseResp(input).value);
  }

  /** The round trip holds exactly for the streams of well-formed frames. */
  lemma RoundTripIff(rs: seq<Resp>)
    ensures ParseResp(EncodeAll(rs)) == Ok(rs, []) <==> AllWellFormed(rs)
  {
    if AllWellFormed(rs) {
      StreamRoundTrip(rs);
    } else {
      ParsedStreamIsWellFormed(EncodeAll(rs));
    }
  }
}
