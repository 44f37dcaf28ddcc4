/**
 Sorted sets (`src/sorted_sets.rs`). A `BTreeSet` of pairs is the sequence of its pairs in
 order. Scores are compared by `total_cmp`, a total order of all bit patterns, so a score
 is its place in that order, an integer.
 */
module SortedSets {
  import opened Types

  type Score = i64

  datatype Scored = Scored(score: Score, member: Text)

  type SortedSet = seq<Scored>

  const I32_LIMIT: int := 0x8000_0000

  type i32 = n: int | -I32_LIMIT <= n < I32_LIMIT

  /** `as i32`, and 32-bit arithmetic in the release build. */
  function WrapI32(n: int): i32 {
    (n + I32_LIMIT) % U32_LIMIT - I32_LIMIT
  }

  // ---------------------------------------------------------------------------- order

  /** Strings compare byte by byte. */
  predicate TextLess(a: Bytes, b: Bytes) {
    b != [] && (a == [] || a[0] < b[0] || (a[0] == b[0] && TextLess(a[1..], b[1..])))
  }

  predicate Less(p: Scored, q: Scored) {
    p.score < q.score || (p.score == q.score && TextLess(p.member, q.member))
  }

  /** `b` continues `a`, or the first byte in which they differ is larger in `b`. */
  ghost predicate ComesBefore(a: Bytes, b: Bytes) {
    (a <= b && a != b) || exists i :: 0 <= i < |a| && i < |b| && a[..i] == b[..i] && a[i] < b[i]
  }

  lemma {:induction false} TextOrderIs(a: Bytes, b: Bytes)
    ensures TextLess(a, b) <==> ComesBefore(a, b)
  {
    if a != [] && b != [] && a[0] == b[0] {
      TextOrderIs(a[1..], b[1..]);
      SameFirst(a, b);
    } else if a != [] && b != [] && a[0] < b[0] {
      assert a[..0] == b[..0];
    }
  }

  lemma SameFirst(a: Bytes, b: Bytes)
    requires a != [] && b != [] && a[0] == b[0]
    ensures ComesBefore(a[1..], b[1..]) <==> ComesBefore(a, b)
  {
    assert a == [a[0]] + a[1..] && b == [b[0]] + b[1..];
    if i :| 0 <= i < |a| && i < |b| && a[..i] == b[..i] && a[i] < b[i] {
      assert i > 0;
      assert a[1..][..i - 1] == a[..i][1..] && b[1..][..i - 1] == b[..i][1..];
      assert a[1..][i - 1] < b[1..][i - 1];
    }
    if i :| 0 <= i < |a[1..]| && i < |b[1..]| && a[1..][..i] == b[1..][..i] && a[1..][i] < b[1..][i] {
      assert a[..i + 1] == [a[0]] + a[1..][..i] && b[..i + 1] == [b[0]] + b[1..][..i];
      assert a[i + 1] < b[i + 1];
    }
  }

  /** Lower scores come first, and equal scores in the order of the members. */
  lemma OrderIs(p: Scored, q: Scored)
    ensures Less(p, q) <==> p.score < q.score || (p.score == q.score && ComesBefore(p.member, q.member))
  {
    TextOrderIs(p.member, q.member);
  }

  lemma {:induction false} TextOrderIsTotal(a: Bytes, b: Bytes)
    ensures (if TextLess(a, b) then 1 else 0) + (if TextLess(b, a) then 1 else 0) + (if a == b then 1 else 0) == 1
  {
    if a != [] && b != [] {
      TextOrderIsTotal(a[1..], b[1..]);
      assert a == [a[0]] + a[1..] && b == [b[0]] + b[1..];
    }
  }

  lemma {:induction false} TextOrderIsTransitive(a: Bytes, b: Bytes, c: Bytes)
    requires TextLess(a, b) && TextLess(b, c)
    ensures TextLess(a, c)
  {
    if a != [] && a[0] == b[0] == c[0] {
      TextOrderIsTransitive(a[1..], b[1..], c[1..]);
    }
  }

  /** Exactly one of smaller, greater and equal. */
  lemma OrderIsTotal(p: Scored, q: Scored)
    ensures (if Less(p, q) then 1 else 0) + (if Less(q, p) then 1 else 0) + (if p == q then 1 else 0) == 1
  {
    TextOrderIsTotal(p.member, q.member);
  }

  lemma OrderIsTransitive(p: Scored, q: Scored, r: Scored)
    requires Less(p, q) && Less(q, r)
    ensures Less(p, r)
  {
    if p.score == q.score == r.score {
      TextOrderIsTransitive(p.member, q.member, r.member);
    }
  }

  ghost predicate Ordered(s: SortedSet) {
    forall i, j :: 0 <= i < j < |s| ==> Less(s[i], s[j])
  }

  ghost predicate MembersOnce(s: SortedSet) {
    forall i, j :: 0 <= i < j < |s| ==> s[i].member != s[j].member
  }

  // ------------------------------------------------------------------- the ordered set

  /** `BTreeSet::insert`. */
  function InsertPair(s: SortedSet, p: Scored): SortedSet {
    if s == [] then [p]
    else if s[0] == p then s
    else if Less(p, s[0]) then [p] + s
    else [s[0]] + InsertPair(s[1..], p)
  }

  /** `BTreeSet::remove`. */
  function RemovePair(s: SortedSet, p: Scored): SortedSet {
    if s == [] then [] else if s[0] == p then s[1..] else [s[0]] + RemovePair(s[1..], p)
  }

  lemma OrderedCons(p: Scored, s: SortedSet)
    requires Ordered(s) && forall q :: q in s ==> Less(p, q)
    ensures Ordered([p] + s)
  {
    hide Less;
    var t := [p] + s;
    forall i, j | 0 <= i < j < |t| ensures Less(t[i], t[j]) {
      assert t[j] == s[j - 1] && s[j - 1] in s;
    }
  }

  lemma OrderedTail(s: SortedSet)
    requires Ordered(s) && s != []
    ensures Ordered(s[1..]) && forall q :: q in s[1..] ==> Less(s[0], q)
  {
    hide Less;
    forall q | q in s[1..] ensures Less(s[0], q) {
      var j :| 0 <= j < |s[1..]| && s[1..][j] == q;
      assert s[j + 1] == q;
    }
  }

  lemma {:induction false} InsertPairMeans(s: SortedSet, p: Scored)
    requires Ordered(s)
    ensures Ordered(InsertPair(s, p))
    ensures forall q :: q in InsertPair(s, p) <==> q in s || q == p
    ensures |InsertPair(s, p)| == |s| + if p in s then 0 else 1
  {
    hide Less, Ordered;
    if s == [] {
      OrderedNone(p);
    } else {
      OrderedTail(s);
      OrderIsTotal(p, s[0]);
      assert s == [s[0]] + s[1..];
      if Less(p, s[0]) {
        forall q | q in s ensures Less(p, q) && q != p {
          if q != s[0] {
            OrderIsTransitive(p, s[0], q);
          }
          OrderIsTotal(p, q);
        }
        OrderedCons(p, s);
      } else if s[0] != p {
        InsertPairMeans(s[1..], p);
        OrderedCons(s[0], InsertPair(s[1..], p));
      }
    }
  }

  lemma OrderedNone(p: Scored)
    ensures Ordered([p])
  {
  }

  lemma {:induction false} RemovePairMeans(s: SortedSet, p: Scored)
    requires Ordered(s)
    ensures Ordered(RemovePair(s, p))
    ensures forall q :: q in RemovePair(s, p) <==> q in s && q != p
    ensures |RemovePair(s, p)| == |s| - if p in s then 1 else 0
  {
    hide Less, Ordered;
    if s != [] {
      OrderedTail(s);
      assert s == [s[0]] + s[1..];
      forall q | q in s[1..] ensures q != s[0] {
        OrderIsTotal(s[0], q);
      }
      if s[0] != p {
        RemovePairMeans(s[1..], p);
        OrderedCons(s[0], RemovePair(s[1..], p));
      }
    }
  }

  // ----------------------------------------------------------------------- operations

  type Sets = map<Text, SortedSet>

  function SetAt(sets: Sets, key: Text): SortedSet {
    if key in sets then sets[key] else []
  }

  /** The position of the first pair with this member. */
  function Find(s: SortedSet, member: Text): (r: Option<nat>)
    ensures r.Some? ==> r.value < |s| && s[r.value].member == member
    ensures r.Some? ==> forall i :: 0 <= i < r.value ==> s[i].member != member
    ensures r.None? ==> forall i :: 0 <= i < |s| ==> s[i].member != member
  {
    if s == [] then None
    else if s[0].member == member then Some(0)
    else
      match Find(s[1..], member)
      case Some(i) =>
        assert forall j :: 0 < j < |s| ==> s[j] == s[1..][j - 1];
        Some(i + 1)
      case None =>
        assert forall j :: 0 < j < |s| ==> s[j] == s[1..][j - 1];
        None
  }

  function Dropped(s: SortedSet, member: Text): SortedSet {
    match Find(s, member)
    case Some(i) => RemovePair(s, s[i])
    case None => s
  }

  datatype Operation = InsertOp(key: Text, score: Score, member: Text) | RemOp(key: Text, member: Text)

  function Apply(sets: Sets, op: Operation): Sets {
    match op
    case InsertOp(key, score, member) =>
      sets[key := InsertPair(Dropped(SetAt(sets, key), member), Scored(score, member))]
    case RemOp(key, member) =>
      if key in sets then sets[key := Dropped(sets[key], member)] else sets
  }

  /** The result of an operation: 1 if a member was added or removed. */
  function ResultOf(sets: Sets, op: Operation): nat {
    if op.InsertOp? == Find(SetAt(sets, op.key), op.member).None? then 1 else 0
  }

  /** The members at the positions `a` to `b`, compared as 32-bit integers. */
  function Picked(s: SortedSet, a: i32, b: i32): seq<Text> {
    if s == [] then []
    else
      var n := |s| - 1;
      Picked(s[..n], a, b) + if a <= WrapI32(n) <= b then [s[n].member] else []
  }

  function Larger(a: int, b: int): int {
    if a > b then a else b
  }

  function Smaller(a: int, b: int): int {
    if a < b then a else b
  }

  function FromEnd(i: i32, len: i32): i32 {
    if i < 0 then WrapI32(i + len) else i
  }

  function RangeOf(s: SortedSet, start: i32, stop: i32): seq<Text> {
    var len := WrapI32(|s|);
    var a := Larger(0, FromEnd(start, len));
    var b := Smaller(WrapI32(len - 1), FromEnd(stop, len));
    if a > b then [] else Picked(s, a, b)
  }

  class Index {
    var data: Sets

    constructor ()
      ensures data == map[]
    {
      data := map[];
    }

    /** Only the first pair with the member is replaced; the set is created first if it is missing. */
    method Insert(key: Text, score: Score, member: Text) returns (added: nat)
      modifies this
      ensures data == Apply(old(data), InsertOp(key, score, member))
      ensures added == ResultOf(old(data), InsertOp(key, score, member))
    {
      if key !in data {
        data := data[key := []];
      }
      var previous: Option<Score> := None;
      var s := data[key];
      var i := 0;
      while i < |s| && previous == None
        invariant i <= |s|
        invariant previous == None ==> forall j :: 0 <= j < i ==> s[j].member != member
        invariant previous.Some? ==> Find(s, member).Some? && s[Find(s, member).value] == Scored(previous.value, member)
        decreases |s| - i, previous == None
      {
        if s[i].member == member {
          previous := Some(s[i].score);
        } else {
          i := i + 1;
        }
      }
      if previous.Some? {
        data := data[key := RemovePair(data[key], Scored(previous.value, member))];
      }
      data := data[key := InsertPair(data[key], Scored(score, member))];
      added := if previous.Some? then 0 else 1;
    }

    method Rank(key: Text, member: Text) returns (r: Option<nat>)
      ensures r == Find(SetAt(data, key), member)
    {
      if key in data {
        var n := 0;
        while n < |data[key]|
          invariant n <= |data[key]|
          invariant forall j :: 0 <= j < n ==> data[key][j].member != member
        {
          if data[key][n].member == member {
            return Some(n);
          }
          n := n + 1;
        }
      }
      return None;
    }

    method Range(key: Text, start: i32, stop: i32) returns (members: seq<Text>)
      ensures members == RangeOf(SetAt(data, key), start, stop)
    {
      hide WrapI32;
      members := [];
      var s := if key in data then data[key] else [];
      var len: int := WrapI32(|s|);
      var a := Larger(0, if start < 0 then WrapI32(start + len) else start);
      var b := Smaller(WrapI32(len - 1), if stop < 0 then WrapI32(stop + len) else stop);
      if a > b {
        return;
      }
      for i := 0 to |s|
        invariant members == Picked(s[..i], a, b)
      {
        assert s[..i + 1][..i] == s[..i];
        if a <= WrapI32(i) && WrapI32(i) <= b {
          members := members + [s[i].member];
        }
      }
      assert s[..|s|] == s;
    }

    method Card(key: Text) returns (n: nat)
      ensures n == |SetAt(data, key)|
    {
      n := if key in data then |data[key]| else 0;
    }

    method GetScore(key: Text, member: Text) returns (r: Option<Score>)
      ensures r == ScoreOf(SetAt(data, key), member)
    {
      if key in data {
        for i := 0 to |data[key]|
          invariant forall j :: 0 <= j < i ==> data[key][j].member != member
        {
          if data[key][i].member == member {
            return Some(data[key][i].score);
          }
        }
      }
      return None;
    }

    method Rem(key: Text, member: Text) returns (removed: nat)
      modifies this
      ensures data == Apply(old(data), RemOp(key, member))
      ensures removed == ResultOf(old(data), RemOp(key, member))
    {
      var score := GetScore(key, member);
      match score {
        case Some(score) =>
          data := data[key := RemovePair(data[key], Scored(score, member))];
          removed := 1;
        case None =>
          assert key in data ==> data[key := data[key]] == data;
          removed := 0;
      }
    }
  }

  function ScoreOf(s: SortedSet, member: Text): Option<Score> {
    match Find(s, member)
    case Some(i) => Some(s[i].score)
    case None => None
  }

  // ------------------------------------------------------------------------ refinement

  /** The plain view: one score for each key and member. */
  type Plain = map<(Text, Text), Score>

  function ApplyPlain(plain: Plain, op: Operation): Plain {
    match op
    case InsertOp(key, score, member) => plain[(key, member) := score]
    case RemOp(key, member) => plain - {(key, member)}
  }

  /** The pairs of every set are exactly the scores of the plain map, in order, each member once. */
  ghost predicate Agrees(sets: Sets, plain: Plain) {
    && (forall k :: k in sets ==> Ordered(sets[k]) && MembersOnce(sets[k]))
    && (forall k, m, sc :: Scored(sc, m) in SetAt(sets, k) <==> (k, m) in plain && plain[(k, m)] == sc)
  }

  /** With each member once, all pairs but one are those of the other members. */
  lemma OnceMeans(s: SortedSet)
    requires MembersOnce(s)
    ensures forall p, q :: p in s && q in s && p.member == q.member ==> p == q
  {
  }

  lemma OnceFromPairs(s: SortedSet)
    requires Ordered(s)
    requires forall p, q :: p in s && q in s && p.member == q.member ==> p == q
    ensures MembersOnce(s)
  {
    hide Less;
    forall i, j | 0 <= i < j < |s| ensures s[i].member != s[j].member {
      assert s[i] in s && s[j] in s && Less(s[i], s[j]);
      OrderIsTotal(s[i], s[j]);
    }
  }

  lemma DroppedMeans(s: SortedSet, member: Text)
    requires Ordered(s) && MembersOnce(s)
    ensures Ordered(Dropped(s, member)) && MembersOnce(Dropped(s, member))
    ensures forall p :: p in Dropped(s, member) <==> p in s && p.member != member
    ensures |Dropped(s, member)| == |s| - if Find(s, member).Some? then 1 else 0
  {
    hide Less, Ordered, MembersOnce, RemovePair;
    OnceMeans(s);
    match Find(s, member) {
      case Some(i) =>
        assert s[i] in s;
        RemovePairMeans(s, s[i]);
      case None =>
    }
    OnceFromPairs(Dropped(s, member));
  }

  lemma PutMeans(s: SortedSet, score: Score, member: Text)
    requires Ordered(s) && MembersOnce(s)
    ensures
      var t := InsertPair(Dropped(s, member), Scored(score, member));
      && Ordered(t) && MembersOnce(t)
      && (forall p :: p in t <==> p == Scored(score, member) || (p in s && p.member != member))
      && |t| == |s| + if Find(s, member).Some? then 0 else 1
  {
    hide Less, Ordered, MembersOnce, InsertPair, Dropped;
    DroppedMeans(s, member);
    var dropped := Dropped(s, member);
    InsertPairMeans(dropped, Scored(score, member));
    OnceMeans(dropped);
    OnceFromPairs(InsertPair(dropped, Scored(score, member)));
  }

  /** Every operation acts on the plain map as a map update or removal, and its result says which. */
  lemma OperationRefines(sets: Sets, plain: Plain, op: Operation)
    requires Agrees(sets, plain)
    ensures Agrees(Apply(sets, op), ApplyPlain(plain, op))
    ensures ResultOf(sets, op) == if op.InsertOp? == ((op.key, op.member) !in plain) then 1 else 0
  {
    hide Less, Ordered, MembersOnce, InsertPair, Dropped, Find;
    var s := SetAt(sets, op.key);
    SetIsOrdered(sets, plain, op.key);
    FoundIffPlain(sets, plain, op.key, op.member);
    var after := Apply(sets, op);
    if op.InsertOp? {
      PutMeans(s, op.score, op.member);
    } else {
      DroppedMeans(s, op.member);
    }
    forall k, m, sc
      ensures Scored(sc, m) in SetAt(after, k) <==>
              (k, m) in ApplyPlain(plain, op) && ApplyPlain(plain, op)[(k, m)] == sc
    {
      assert Scored(sc, m) in SetAt(sets, k) <==> (k, m) in plain && plain[(k, m)] == sc;
      assert k != op.key ==> SetAt(after, k) == SetAt(sets, k);
    }
  }

  lemma FoundIffPlain(sets: Sets, plain: Plain, key: Text, member: Text)
    requires Agrees(sets, plain)
    ensures ScoreOf(SetAt(sets, key), member) == if (key, member) in plain then Some(plain[(key, member)]) else None
    ensures Find(SetAt(sets, key), member).Some? <==> (key, member) in plain
  {
    var s := SetAt(sets, key);
    assert (key, member) in plain ==> Scored(plain[(key, member)], member) in s;
    if Find(s, member).Some? {
      var i := Find(s, member).value;
      assert s[i] == Scored(s[i].score, member) && s[i] in s;
    }
  }

  // ------------------------------------------------------------------- runs of operations

  function RunOf(ops: seq<Operation>): Sets {
    if ops == [] then map[] else Apply(RunOf(ops[..|ops| - 1]), ops[|ops| - 1])
  }

  function PlainRunOf(ops: seq<Operation>): Plain {
    if ops == [] then map[] else ApplyPlain(PlainRunOf(ops[..|ops| - 1]), ops[|ops| - 1])
  }

  /** Results for one key: what was added minus what was removed. */
  function Balance(ops: seq<Operation>, key: Text): int {
    if ops == [] then 0
    else
      var last := ops[|ops| - 1];
      var result: int := ResultOf(RunOf(ops[..|ops| - 1]), last);
      Balance(ops[..|ops| - 1], key) + if last.key != key then 0 else if last.InsertOp? then result else -result
  }

  /** After any operations, every set agrees with the plain map. */
  lemma {:induction false} RunRefines(ops: seq<Operation>)
    ensures Agrees(RunOf(ops), PlainRunOf(ops))
  {
    hide Apply, ApplyPlain, Agrees;
    if ops == [] {
      NothingAgrees();
    } else {
      RunRefines(ops[..|ops| - 1]);
      OperationRefines(RunOf(ops[..|ops| - 1]), PlainRunOf(ops[..|ops| - 1]), ops[|ops| - 1]);
    }
  }

  lemma NothingAgrees()
    ensures Agrees(map[], map[])
  {
  }

  /** After any operations, the size of a set is the sum of the results of the operations on it. */
  lemma {:induction false} ResultsSumToCardinality(ops: seq<Operation>, key: Text)
    ensures |SetAt(RunOf(ops), key)| == Balance(ops, key)
  {
    hide Agrees, Ordered, MembersOnce, InsertPair, Dropped, Find;
    if ops != [] {
      var before := ops[..|ops| - 1];
      var last := ops[|ops| - 1];
      ResultsSumToCardinality(before, key);
      RunRefines(before);
      SetIsOrdered(RunOf(before), PlainRunOf(before), last.key);
      var s := SetAt(RunOf(before), last.key);
      if last.InsertOp? {
        PutMeans(s, last.score, last.member);
      } else {
        DroppedMeans(s, last.member);
      }
    }
  }

  lemma SetIsOrdered(sets: Sets, plain: Plain, key: Text)
    requires Agrees(sets, plain)
    ensures Ordered(SetAt(sets, key)) && MembersOnce(SetAt(sets, key))
  {
  }

  // -------------------------------------------------------------------- rank and range

  /** The members of `key` whose pair comes before that of `member`, by the plain map alone. */
  ghost function SmallerMembers(plain: Plain, key: Text, member: Text): set<Text>
    requires (key, member) in plain
  {
    set e | e in plain && e.0 == key && Less(Scored(plain[e], e.1), Scored(plain[(key, member)], member)) :: e.1
  }

  function MembersOf(s: SortedSet): seq<Text> {
    seq(|s|, i requires 0 <= i < |s| => s[i].member)
  }

  lemma {:induction false} DistinctCount(xs: seq<Text>, ys: set<Text>)
    requires forall i, j :: 0 <= i < j < |xs| ==> xs[i] != xs[j]
    requires forall x :: x in ys <==> x in xs
    ensures |ys| == |xs|
  {
    if xs == [] {
      assert ys == {};
    } else {
      var n := |xs| - 1;
      DistinctCount(xs[..n], ys - {xs[n]});
    }
  }

  /** The rank of a member is the number of smaller pairs, and a member has a rank if it has a score. */
  lemma RankCountsSmaller(sets: Sets, plain: Plain, key: Text, member: Text)
    requires Agrees(sets, plain)
    ensures (key, member) !in plain ==> Find(SetAt(sets, key), member) == None
    ensures (key, member) in plain ==> Find(SetAt(sets, key), member) == Some(|SmallerMembers(plain, key, member)|)
  {
    hide Less, Ordered, MembersOnce;
    FoundIffPlain(sets, plain, key, member);
    if (key, member) in plain {
      var s := SetAt(sets, key);
      var r := Find(s, member).value;
      SetIsOrdered(sets, plain, key);
      SmallerComeFirst(s, r);
      assert s[r] == Scored(plain[(key, member)], member) by {
        assert s[r] in s && s[r] == Scored(s[r].score, member);
      }
      SmallerAreInFront(sets, plain, key, member, r);
      DistinctCount(MembersOf(s[..r]), SmallerMembers(plain, key, member));
    }
  }

  lemma SmallerAreInFront(sets: Sets, plain: Plain, key: Text, member: Text, r: nat)
    requires Agrees(sets, plain) && (key, member) in plain
    requires r < |SetAt(sets, key)| && SetAt(sets, key)[r] == Scored(plain[(key, member)], member)
    requires forall p :: p in SetAt(sets, key) && Less(p, SetAt(sets, key)[r]) <==> p in SetAt(sets, key)[..r]
    ensures forall m :: m in SmallerMembers(plain, key, member) <==> m in MembersOf(SetAt(sets, key)[..r])
  {
    hide Less, Ordered, MembersOnce;
    var s := SetAt(sets, key);
    var smaller := SmallerMembers(plain, key, member);
    forall m | m in MembersOf(s[..r]) ensures m in smaller {
      var i :| 0 <= i < r && s[i].member == m;
      assert s[i] in s && s[i] == Scored(s[i].score, m) && s[i] in s[..r];
      assert (key, m) in plain;
    }
    forall m | m in smaller ensures m in MembersOf(s[..r]) {
      var p := Scored(plain[(key, m)], m);
      assert p in s[..r];
      var i :| 0 <= i < r && s[..r][i] == p;
      assert MembersOf(s[..r])[i] == m;
    }
  }

  lemma SmallerComeFirst(s: SortedSet, r: nat)
    requires Ordered(s) && r < |s|
    ensures forall p :: p in s && Less(p, s[r]) <==> p in s[..r]
  {
    hide Less;
    forall p | p in s && Less(p, s[r]) ensures p in s[..r] {
      var i :| 0 <= i < |s| && s[i] == p;
      OrderIsTotal(p, s[r]);
      assert i < r;
    }
    forall p | p in s[..r] ensures p in s && Less(p, s[r]) {
      var i :| 0 <= i < r && s[..r][i] == p;
      assert s[i] == p;
    }
  }

  /** The slice a range stands for: positions from the end count back, and both ends are clamped. */
  function Slice(s: SortedSet, start: i32, stop: i32): seq<Text> {
    var lo := Larger(0, if start < 0 then start + |s| else start);
    var hi := Smaller(|s| - 1, if stop < 0 then stop + |s| else stop);
    if lo > hi then [] else MembersOf(s)[lo..hi + 1]
  }

  lemma SmallWrap(n: int)
    requires -I32_LIMIT <= n < I32_LIMIT
    ensures WrapI32(n) == n
  {
  }

  lemma {:induction false} PickedIsSlice(s: SortedSet, a: nat, b: nat)
    requires |s| <= I32_LIMIT && a <= b < I32_LIMIT
    ensures Picked(s, a, b) == MembersOf(s)[Smaller(a, |s|)..Smaller(b + 1, |s|)]
  {
    hide WrapI32;
    if s != [] {
      var n := |s| - 1;
      SmallWrap(n);
      PickedIsSlice(s[..n], a, b);
      assert MembersOf(s) == MembersOf(s[..n]) + [s[n].member];
      SliceGrows(MembersOf(s[..n]), s[n].member, a, b);
    }
  }

  lemma SliceGrows(front: seq<Text>, last: Text, a: nat, b: nat)
    requires a <= b
    ensures
      var n := |front|;
      (front + [last])[Smaller(a, n + 1)..Smaller(b + 1, n + 1)]
      == front[Smaller(a, n)..Smaller(b + 1, n)] + if a <= n <= b then [last] else []
  {
  }

  /** Counting a position from the end comes out right even where the length wraps around to a negative number. */
  lemma FromEndWraps(i: i32, n: nat)
    requires 0 < n <= I32_LIMIT
    ensures WrapI32(WrapI32(n) - 1) == n - 1
    ensures FromEnd(i, WrapI32(n)) == if i < 0 then i + n else i
  {
  }

  /** The bounds a range comes to are those of the slice, clamped and counted without wrapping around. */
  lemma RangeBounds(s: SortedSet, start: i32, stop: i32)
    requires 0 < |s| <= I32_LIMIT
    ensures
      var a := Larger(0, if start < 0 then start + |s| else start);
      var b := Smaller(|s| - 1, if stop < 0 then stop + |s| else stop);
      RangeOf(s, start, stop) == if a > b then [] else Picked(s, a, b)
  {
    hide WrapI32, Picked, FromEnd;
    FromEndWraps(start, |s|);
    FromEndWraps(stop, |s|);
  }

  /** As long as there are at most 2^31 members, a range is the clamped slice of the ranks. */
  lemma RangeIsSlice(s: SortedSet, start: i32, stop: i32)
    requires |s| <= I32_LIMIT
    ensures RangeOf(s, start, stop) == Slice(s, start, stop)
  {
    hide Picked, RangeOf;
    if s == [] {
      EmptyRange(start, stop);
    } else {
      RangeBounds(s, start, stop);
      var a := Larger(0, if start < 0 then start + |s| else start);
      var b := Smaller(|s| - 1, if stop < 0 then stop + |s| else stop);
      if a <= b {
        PickedIsSlice(s, a, b);
      }
    }
  }

  lemma EmptyRange(start: i32, stop: i32)
    ensures RangeOf([], start, stop) == []
  {
  }

  /** The member at position 2^31 is never picked, because the position wraps around to a negative number. */
  lemma {:induction false} PickedMissesOne(s: SortedSet, a: nat, b: i32)
    requires a < I32_LIMIT
    ensures |Picked(s, a, b)| <= |s|
    ensures |s| > I32_LIMIT ==> |Picked(s, a, b)| < |s|
  {
    if s != [] {
      PickedMissesOne(s[..|s| - 1], a, b);
    }
  }

  /** So 2^31 members are exactly as many as a range can serve. */
  lemma RangeIsSliceIff(s: SortedSet)
    ensures (forall start: i32, stop: i32 :: RangeOf(s, start, stop) == Slice(s, start, stop)) <==> |s| <= I32_LIMIT
  {
    hide WrapI32, Picked;
    if |s| <= I32_LIMIT {
      forall start: i32, stop: i32 ensures RangeOf(s, start, stop) == Slice(s, start, stop) {
        RangeIsSlice(s, start, stop);
      }
    } else {
      var len: int := WrapI32(|s|);
      PickedMissesOne(s, 0, Smaller(WrapI32(len - 1), FromEnd(-1, len)));
      assert |Slice(s, 0, -1)| == |s|;
      assert RangeOf(s, 0, -1) != Slice(s, 0, -1);
    }
  }

  /** Range and rank agree: the range from `r` to `r` is the member whose rank is `r`. */
  lemma RangeAtRank(s: SortedSet, member: Text)
    requires Ordered(s) && MembersOnce(s) && |s| <= I32_LIMIT
    requires Find(s, member).Some?
    ensures RangeOf(s, Find(s, member).value, Find(s, member).value) == [member]
  {
    RangeIsSlice(s, Find(s, member).value, Find(s, member).value);
  }

  /** The whole range lists every member once, by growing pair. */
  lemma WholeRange(sets: Sets, plain: Plain, key: Text)
    requires Agrees(sets, plain) && |SetAt(sets, key)| <= I32_LIMIT
    ensures
      var all := RangeOf(SetAt(sets, key), 0, -1);
      && (forall m :: m in all <==> (key, m) in plain)
      && (forall i, j :: 0 <= i < j < |all| ==>
            Less(Scored(plain[(key, all[i])], all[i]), Scored(plain[(key, all[j])], all[j])))
  {
    hide Less;
    var s := SetAt(sets, key);
    RangeIsSlice(s, 0, -1);
    assert Slice(s, 0, -1) == MembersOf(s);
    SetIsOrdered(sets, plain, key);
    forall i | 0 <= i < |s| ensures (key, s[i].member) in plain && plain[(key, s[i].member)] == s[i].score {
      assert s[i] in s && s[i] == Scored(s[i].score, s[i].member);
    }
    forall m | (key, m) in plain ensures m in MembersOf(s) {
      var p := Scored(plain[(key, m)], m);
      assert p in s;
      var i :| 0 <= i < |s| && s[i] == p;
      assert MembersOf(s)[i] == m;
    }
  }
}
