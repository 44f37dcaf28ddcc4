/**
 INCR as a counter (`src/main.rs:757-783`).
 */
module Counters {
  import opened Types
  import opened Decimal
  import opened RespCodec
  import opened Commands
  import opened StoreModel
  import opened StoreFrames
  import opened Replay

  /** A key that holds a number in decimal is counted up by one, wrapping around at 64 bits. */
  lemma IncrOfNumber(s: State, key: Key, n: i64)
    requires ValueIs(s, key, IntText(n))
    ensures IncrResult(s, key) == Some(WrapI64(n + 1))
  {
    hide Parser.Integer, IntText;
    Parser.IntegerRoundTrip(n, -I64_LIMIT, I64_LIMIT, []);
    assert IntText(n) + [] == IntText(n);
  }

  /** One INCR of a key that is missing, or holds a number: the value and the reply are the next number. */
  lemma IncrStep(s: State, c: ClientId, key: Key, n: i64, r: Result, t: State)
    requires Executes(s, c, Incr(key), r, t) && n + 1 < I64_LIMIT
    requires ValueIs(s, key, IntText(n)) || (key !in s.data && n == 0)
    ensures ValueIs(t, key, IntText(n + 1)) && r == Done(Integer(n + 1))
  {
    hide Touch, Allowed, IntText, IncrResult;
    var marked := Touch(s, c, [key]);
    TouchFrame(s, c, [key]);
    var ch :| Allowed(marked, c, Incr(key), ch) && Prim(marked, c, Incr(key), ch) == Outcome(t, r);
    if key in s.data {
      IncrOfNumber(marked, key, n);
    } else {
      MissingCountsFromZero(marked, key);
    }
  }

  lemma MissingCountsFromZero(s: State, key: Key)
    requires key !in s.data
    ensures IncrResult(s, key) == Some(1)
  {
  }

  /** Counting up from a missing key: the replies are 1, 2, 3 and so on, and the key holds the last of them. */
  lemma {:induction false} CountsUp(s: State, c: ClientId, key: Key, cmds: seq<Command>, replies: seq<Resp>, t: State)
    requires ExecutesAll(s, c, cmds, replies, t) && key !in s.data
    requires 0 < |cmds| < I64_LIMIT && forall i :: 0 <= i < |cmds| ==> cmds[i] == Incr(key)
    ensures ValueIs(t, key, IntText(|cmds|))
    ensures |replies| == |cmds| && forall i :: 0 <= i < |cmds| ==> replies[i] == Integer(i + 1)
  {
    hide Executes, IntText, ValueIs;
    var n := |cmds| - 1;
    var mid, r :| ExecutesAll(s, c, cmds[..n], replies[..n], mid) && Executes(mid, c, cmds[n], r, t)
               && replies[n] == TxReply(r);
    if n == 0 {
      assert mid == s;
    } else {
      CountsUp(s, c, key, cmds[..n], replies[..n], mid);
    }
    IncrStep(mid, c, key, n, r, t);
    forall i | 0 <= i < |cmds| ensures replies[i] == Integer(i + 1) {
      if i < n {
        assert replies[..n][i] == replies[i];
      }
    }
  }
}
