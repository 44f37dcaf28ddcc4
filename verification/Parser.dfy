/**
 The parser combinators of `src/parser.rs`.

 A parser has three outcomes: a value with the rest of the input, an error that the
 caller may recover from, or a panic, which nothing recovers from: `opt`, `or!` and
 `many0` turn an error into an alternative but let a panic through. The macro `and!`
 is `?` in sequence, here `:-`.
 */
module Parser {
  import opened Types
  import opened Decimal

  datatype ParseResult<+T> = Ok(value: T, rest: Bytes) | Err | Panic {
    predicate IsFailure() {
      !Ok?
    }

    function PropagateFailure<U>(): ParseResult<U>
      requires IsFailure()
    {
      if Err? then Err else Panic
    }

    function Extract(): (T, Bytes)
      requires !IsFailure()
    {
      (value, rest)
    }
  }

  /** `short` is what remains of `input` after consuming at least one byte. */
  predicate StrictSuffix(short: Bytes, input: Bytes) {
    |short| < |input| && short == input[|input| - |short|..]
  }

  predicate Suffix(s: Bytes, input: Bytes) {
    |s| <= |input| && s == input[|input| - |s|..]
  }

  lemma SuffixOfSuffix(s: Bytes, middle: Bytes, input: Bytes)
    requires Suffix(s, middle) && StrictSuffix(middle, input)
    ensures StrictSuffix(s, input) && Suffix(s, input)
  {
  }

  /** Every success of `p` consumes input; without this `many0` would not terminate. */
  ghost predicate Shrinks<T(!new)>(p: Bytes -> ParseResult<T>) {
    forall input :: p(input).Ok? ==> StrictSuffix(p(input).rest, input)
  }

  function ReadByte(b: byte, input: Bytes): (r: ParseResult<byte>) {
    if |input| > 0 && input[0] == b then Ok(b, input[1..]) else Err
  }

  function Tag(expected: Bytes, input: Bytes): ParseResult<Bytes> {
    if expected <= input then Ok(expected, input[|expected|..]) else Err
  }

  function Take(n: nat, input: Bytes): ParseResult<Bytes> {
    if |input| < n then Err else Ok(input[..n], input[n..])
  }

  /** Number of leading bytes that satisfy `pred`. */
  function RunLength(pred: byte -> bool, input: Bytes): (n: nat)
    ensures n <= |input|
    ensures forall i :: 0 <= i < n ==> pred(input[i])
    ensures n < |input| ==> !pred(input[n])
  {
    if |input| == 0 || !pred(input[0]) then 0 else 1 + RunLength(pred, input[1..])
  }

  function TakeWhile(pred: byte -> bool, input: Bytes): ParseResult<Bytes> {
    var n := RunLength(pred, input);
    if n == 0 then Err else Ok(input[..n], input[n..])
  }

  predicate StartsAt(input: Bytes, i: nat, delimiter: Bytes) {
    i <= |input| && delimiter <= input[i..]
  }

  /** Everything before the first `delimiter`. The loop bound `input.len() - delimiter.len()`
      underflows on an input shorter than the delimiter and the slice index then panics. */
  function TakeUntil(delimiter: Bytes, input: Bytes): ParseResult<Bytes> {
    if |input| < |delimiter| then Panic else TakeUntilFrom(delimiter, input, 0)
  }

  function TakeUntilFrom(delimiter: Bytes, input: Bytes, i: nat): ParseResult<Bytes>
    requires |delimiter| <= |input|
    decreases |input| - i
  {
    if i > |input| - |delimiter| then Err
    else if StartsAt(input, i, delimiter) then Ok(input[..i], input[i..])
    else TakeUntilFrom(delimiter, input, i + 1)
  }

  method TakeUntilLoop(delimiter: Bytes, input: Bytes) returns (r: ParseResult<Bytes>)
    ensures r == TakeUntil(delimiter, input)
  {
    if |input| < |delimiter| {
      return Panic;
    }
    var i := 0;
    while i <= |input| - |delimiter|
      invariant TakeUntilFrom(delimiter, input, i) == TakeUntil(delimiter, input)
    {
      if delimiter <= input[i..] {
        return Ok(input[..i], input[i..]);
      }
      i := i + 1;
    }
    return Err;
  }

  function Or<T>(p1: Bytes -> ParseResult<T>, p2: Bytes -> ParseResult<T>, input: Bytes): ParseResult<T> {
    match p1(input)
    case Err => p2(input)
    case result => result
  }

  function Opt<T>(p: Bytes -> ParseResult<T>, input: Bytes): ParseResult<Option<T>> {
    match p(input)
    case Ok(v, rest) => Ok(Some(v), rest)
    case Err => Ok(None, input)
    case Panic => Panic
  }

  /** The bytes that `p` consumed, where a success of `p` leaves a suffix of the input. */
  function Recognize<T>(p: Bytes -> ParseResult<T>, input: Bytes): ParseResult<Bytes> {
    var (_, rest) :- p(input);
    if |rest| <= |input| then Ok(input[..|input| - |rest|], rest) else Panic
  }

  function Many0<T(!new)>(p: Bytes -> ParseResult<T>, input: Bytes): ParseResult<seq<T>>
    requires Shrinks(p)
    decreases |input|
  {
    match p(input)
    case Ok(v, rest) =>
      (match Many0(p, rest)
       case Ok(vs, last) => Ok([v] + vs, last)
       case failure => failure)
    case Err => Ok([], input)
    case Panic => Panic
  }

  lemma Many0Stop<T(!new)>(p: Bytes -> ParseResult<T>, input: Bytes)
    requires Shrinks(p) && p(input).Err?
    ensures Many0(p, input) == Ok([], input)
  {
  }

  lemma Many0Step<T(!new)>(p: Bytes -> ParseResult<T>, input: Bytes, v: T, rest: Bytes, vs: seq<T>, last: Bytes)
    requires Shrinks(p) && p(input) == Ok(v, rest) && Many0(p, rest) == Ok(vs, last)
    ensures Many0(p, input) == Ok([v] + vs, last)
  {
  }

  /** `many0` as written: collect matches until the first error. */
  method Many0Loop<T(!new)>(p: Bytes -> ParseResult<T>, input: Bytes) returns (r: ParseResult<seq<T>>)
    requires Shrinks(p)
    ensures r == Many0(p, input)
  {
    var matches: seq<T> := [];
    var rest := input;
    PrependNothing(Many0(p, input));
    while true
      invariant Many0(p, input) == Prepend(matches, Many0(p, rest))
      decreases |rest|
    {
      match p(rest) {
        case Ok(v, newRest) =>
          PrependTwice(matches, v, Many0(p, newRest));
          matches := matches + [v];
          rest := newRest;
        case Err =>
          assert matches + [] == matches;
          return Ok(matches, rest);
        case Panic =>
          return Panic;
      }
    }
  }

  function Prepend<T>(vs: seq<T>, r: ParseResult<seq<T>>): ParseResult<seq<T>> {
    if r.Ok? then Ok(vs + r.value, r.rest) else r
  }

  lemma PrependNothing<T>(r: ParseResult<seq<T>>)
    ensures Prepend([], r) == r
  {
    if r.Ok? {
      assert [] + r.value == r.value;
    }
  }

  lemma PrependTwice<T>(vs: seq<T>, v: T, r: ParseResult<seq<T>>)
    ensures Prepend(vs, Prepend([v], r)) == Prepend(vs + [v], r)
  {
    if r.Ok? {
      assert vs + ([v] + r.value) == vs + [v] + r.value;
    }
  }

  function Sign(input: Bytes): ParseResult<byte> {
    Or((i: Bytes) => ReadByte(MINUS, i), (i: Bytes) => ReadByte(PLUS, i), input)
  }

  function Digits(input: Bytes): ParseResult<Bytes> {
    TakeWhile(IsDigit, input)
  }

  function SignedDigits(input: Bytes): ParseResult<Bytes> {
    var (_, rest) :- Opt((i: Bytes) => Recognize(Sign, i), input);
    Recognize(Digits, rest)
  }

  /** `integer::<T>()` for an integer type holding `lo..hi`. */
  function Integer(lo: int, hi: int, input: Bytes): ParseResult<int> {
    var (bytes, rest) :- Recognize(SignedDigits, input);
    match ParseInt(bytes, lo, hi)
    case Some(n) => Ok(n, rest)
    case None => Err
  }

  function SignLength(input: Bytes): nat {
    if |input| > 0 && (input[0] == MINUS || input[0] == PLUS) then 1 else 0
  }

  /** How far `integer` reads: an optional sign and the digits after it. */
  function NumberLength(input: Bytes): (n: nat)
    ensures n <= |input|
  {
    SignLength(input) + RunLength(IsDigit, input[SignLength(input)..])
  }

  lemma SignedDigitsReads(input: Bytes)
    ensures SignedDigits(input) ==
            if NumberLength(input) > SignLength(input)
            then Ok(input[SignLength(input)..NumberLength(input)], input[NumberLength(input)..])
            else Err
  {
    var body := input[SignLength(input)..];
    var n := RunLength(IsDigit, body);
    assert body[n..] == input[NumberLength(input)..];
    assert body[..n] == input[SignLength(input)..NumberLength(input)];
    if |input| > 0 {
      assert input[..1] == [input[0]];
    }
    assert Digits(body) == if n == 0 then Err else Ok(body[..n], body[n..]);
    assert Recognize(Digits, body) == Digits(body);
    assert Opt((i: Bytes) => Recognize(Sign, i), input) ==
           if SignLength(input) == 0 then Ok(None, input) else Ok(Some(input[..1]), input[1..]);
  }

  /** `integer` reads the longest signed digit string at the head of the input and never panics. */
  lemma IntegerReads(lo: int, hi: int, input: Bytes)
    ensures
      var n := NumberLength(input);
      var number := ParseInt(input[..n], lo, hi);
      Integer(lo, hi, input) ==
      if n == SignLength(input) || number == None then Err else Ok(number.value, input[n..])
    ensures Integer(lo, hi, input).Ok? ==>
      StrictSuffix(Integer(lo, hi, input).rest, input) && lo <= Integer(lo, hi, input).value < hi
  {
    SignedDigitsReads(input);
  }

  function SignedValue(sign: Bytes, digits: Bytes): int
    requires AllDigits(digits)
  {
    var magnitude: int := DigitsValue(digits);
    if sign == [MINUS] then -magnitude else magnitude
  }

  lemma FirstByte(a: Bytes, b: Bytes)
    ensures a != [] ==> (a + b)[0] == a[0]
    ensures a == [] ==> a + b == b
  {
  }

  lemma NumberLengthIs(sign: Bytes, digits: Bytes, rest: Bytes)
    requires (sign == [] && digits != []) || sign == [MINUS] || sign == [PLUS]
    requires AllDigits(digits) && (rest == [] || !IsDigit(rest[0]))
    ensures
      var text := sign + digits + rest;
      SignLength(text) == |sign| && NumberLength(text) == |sign| + |digits|
  {
    var text := sign + digits + rest;
    assert text == sign + (digits + rest);
    FirstByte(sign, digits + rest);
    FirstByte(digits, rest);
    assert text[|sign|..] == digits + rest;
    RunStops(IsDigit, digits, rest);
  }

  lemma NumberText(sign: Bytes, digits: Bytes, lo: int, hi: int)
    requires sign == [] || sign == [MINUS] || sign == [PLUS]
    requires AllDigits(digits) && digits != [] && lo <= 0
    ensures
      var n := SignedValue(sign, digits);
      ParseInt(sign + digits, lo, hi) ==
      if lo <= n < hi && (sign == [MINUS] ==> lo < 0) then Some(n) else None
  {
    hide DigitsValue;
    var text := sign + digits;
    if sign == [] {
      assert text == digits && IsDigit(digits[0]);
    } else {
      assert text[0] == sign[0] && text[1..] == digits;
    }
  }

  /** What `integer` takes for a number, whatever follows: a sign or none, then digits, leading zeros included; it is
      refused if it does not fit the type, or has a minus sign and the type has none. */
  lemma NumberInAnyForm(sign: Bytes, digits: Bytes, rest: Bytes, lo: int, hi: int)
    requires (sign == [] && digits != []) || sign == [MINUS] || sign == [PLUS]
    requires AllDigits(digits) && (rest == [] || !IsDigit(rest[0])) && lo <= 0
    ensures
      var n := SignedValue(sign, digits);
      Integer(lo, hi, sign + digits + rest) ==
      if digits != [] && lo <= n < hi && (sign == [MINUS] ==> lo < 0) then Ok(n, rest) else Err
  {
    hide DigitsValue, ParseInt, Integer, NumberLength;
    var text := sign + digits + rest;
    var number := sign + digits;
    NumberLengthIs(sign, digits, rest);
    assert text == number + rest && text[..|number|] == number && text[|number|..] == rest;
    IntegerReads(lo, hi, text);
    if digits != [] {
      NumberText(sign, digits, lo, hi);
    }
  }

  /** A printed number followed by a non-digit is read back whole. */
  lemma IntegerRoundTrip(n: int, lo: int, hi: int, rest: Bytes)
    requires lo <= n < hi && lo <= 0
    requires rest == [] || !IsDigit(rest[0])
    ensures Integer(lo, hi, IntText(n) + rest) == Ok(n, rest)
  {
    var text := IntText(n);
    var input := text + rest;
    var sign := if n < 0 then 1 else 0;
    assert text[sign..] == NatText(if n < 0 then -n else n);
    assert SignLength(input) == sign by {
      if n >= 0 { assert IsDigit(input[0]); }
    }
    assert input[sign..] == text[sign..] + rest;
    RunStops(IsDigit, text[sign..], rest);
    assert NumberLength(input) == |text|;
    assert input[..|text|] == text && input[|text|..] == rest;
    IntegerReads(lo, hi, input);
    ParseIntText(n, lo, hi);
  }

  lemma {:induction false} RunStops(pred: byte -> bool, run: Bytes, rest: Bytes)
    requires forall i :: 0 <= i < |run| ==> pred(run[i])
    requires rest == [] || !pred(rest[0])
    ensures RunLength(pred, run + rest) == |run|
  {
    if |run| == 0 {
      assert run + rest == rest;
    } else {
      assert (run + rest)[1..] == run[1..] + rest;
      RunStops(pred, run[1..], rest);
    }
  }

  lemma TagReads(expected: Bytes, rest: Bytes)
    ensures Tag(expected, expected + rest) == Ok(expected, rest)
  {
    assert (expected + rest)[|expected|..] == rest;
  }

  lemma TakeReads(s: Bytes, rest: Bytes)
    ensures Take(|s|, s + rest) == Ok(s, rest)
  {
    assert (s + rest)[..|s|] == s && (s + rest)[|s|..] == rest;
  }

  /** From position `i` on, the search stops exactly at the first occurrence of the delimiter. */
  lemma {:induction false} FirstFrom(delimiter: Bytes, input: Bytes, i: nat)
    requires |delimiter| <= |input| && i <= |input| - |delimiter| + 1
    ensures
      match TakeUntilFrom(delimiter, input, i)
      case Ok(taken, rest) =>
        && i <= |taken| <= |input| - |delimiter|
        && taken == input[..|taken|] && rest == input[|taken|..]
        && delimiter <= rest
        && forall j :: i <= j < |taken| ==> !StartsAt(input, j, delimiter)
      case Err => forall j :: i <= j <= |input| - |delimiter| ==> !StartsAt(input, j, delimiter)
      case Panic => false
    decreases |input| - i
  {
    if i <= |input| - |delimiter| && !StartsAt(input, i, delimiter) {
      FirstFrom(delimiter, input, i + 1);
    }
  }

  /** `take_until` panics exactly on an input shorter than the delimiter, and otherwise stops exactly at the first
      occurrence of it, or fails exactly if there is none. */
  lemma TakeUntilIsFirst(delimiter: Bytes, input: Bytes)
    ensures TakeUntil(delimiter, input).Panic? <==> |input| < |delimiter|
    ensures TakeUntil(delimiter, input).Ok? ==>
      var taken := TakeUntil(delimiter, input).value;
      && |taken| <= |input| && taken == input[..|taken|] && TakeUntil(delimiter, input).rest == input[|taken|..]
      && StartsAt(input, |taken|, delimiter) && forall j :: 0 <= j < |taken| ==> !StartsAt(input, j, delimiter)
    ensures TakeUntil(delimiter, input).Err? <==>
      |delimiter| <= |input| && forall j :: 0 <= j <= |input| - |delimiter| ==> !StartsAt(input, j, delimiter)
  {
    if |delimiter| <= |input| {
      FirstFrom(delimiter, input, 0);
      if TakeUntil(delimiter, input).Ok? {
        assert StartsAt(input, |TakeUntil(delimiter, input).value|, delimiter);
      }
    }
  }
}
