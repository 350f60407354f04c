/** The TTL+LRU cache as a recency sequence: what each operation does to it, and what holds over whole runs. */
module CacheSpec {
  import opened Types

  type Key = string

  datatype Entry = Entry(key: Key, data: ChartData, expiresAt: int)

  /** The position of k's entry, or -1. */
  function Find(s: seq<Entry>, k: Key): (i: int)
    ensures -1 <= i < |s|
    ensures i >= 0 ==> s[i].key == k && forall j :: 0 <= j < i ==> s[j].key != k
    ensures i < 0 ==> forall j :: 0 <= j < |s| ==> s[j].key != k
  {
    if s == [] then -1
    else if s[0].key == k then 0
    else
      var i := Find(s[1..], k);
      assert forall j :: 1 <= j < |s| ==> s[j] == s[1..][j - 1];
      if i < 0 then -1 else i + 1
  }

  function Without(s: seq<Entry>, k: Key): seq<Entry> {
    if s == [] then [] else (if s[0].key == k then [] else [s[0]]) + Without(s[1..], k)
  }

  /** e at the front, in place of any older entry of its key. */
  function Front(s: seq<Entry>, e: Entry): seq<Entry> {
    [e] + Without(s, e.key)
  }

  /** What is left when the back is evicted until at most max entries remain. */
  function Trim(s: seq<Entry>, max: int): seq<Entry> {
    if |s| <= max then s else if max <= 0 then [] else s[..max]
  }

  /** A lookup: an expired entry is removed, a live one moves to the front. The answer is a copy marked as cached. */
  function Get(s: seq<Entry>, k: Key, now: int): (seq<Entry>, Option<ChartData>) {
    var i := Find(s, k);
    if i < 0 then (s, None)
    else if now > s[i].expiresAt then (Without(s, k), None)
    else (Front(s, s[i]), Some(s[i].data.(cached := true)))
  }

  /** A store: ignored without data or lifetime; otherwise k's entry is replaced or added at the front. */
  function Put(s: seq<Entry>, max: int, k: Key, data: Option<ChartData>, ttl: int, now: int): seq<Entry> {
    if ttl <= 0 || data.None? then s
    else if Find(s, k) >= 0 then Front(s, Entry(k, data.value, now + ttl))
    else Trim([Entry(k, data.value, now + ttl)] + s, max)
  }

  ghost predicate DistinctKeys(s: seq<Entry>) {
    forall i, j :: 0 <= i < j < |s| ==> s[i].key != s[j].key
  }

  // ---------- runs ----------

  datatype Op =
    | GetOp(key: Key, now: int)
    | PutOp(key: Key, data: Option<ChartData>, ttl: int, now: int)

  predicate Effective(op: Op) {
    op.PutOp? && op.ttl > 0 && op.data.Some?
  }

  function Step(s: seq<Entry>, max: int, op: Op): (seq<Entry>, Option<ChartData>) {
    match op
    case GetOp(k, now) => Get(s, k, now)
    case PutOp(k, data, ttl, now) => (Put(s, max, k, data, ttl, now), None)
  }

  /** The content of a cache of size max after the operations ops. */
  function Content(max: int, ops: seq<Op>): seq<Entry> {
    if ops == [] then [] else Step(Content(max, ops[..|ops| - 1]), max, ops[|ops| - 1]).0
  }

  /** What that cache then answers to op. */
  function Answer(max: int, ops: seq<Op>, op: Op): Option<ChartData> {
    Step(Content(max, ops), max, op).1
  }

  /** The last effective put of k. */
  function LatestPut(ops: seq<Op>, k: Key): (p: Option<Op>)
    ensures p.Some? ==> Effective(p.value) && p.value.key == k
  {
    if ops == [] then None
    else
      var op := ops[|ops| - 1];
      if Effective(op) && op.key == k then Some(op) else LatestPut(ops[..|ops| - 1], k)
  }

  /** The keys used, in order: every effective put and every hit. */
  function Uses(max: int, ops: seq<Op>): seq<Key> {
    if ops == [] then []
    else
      var before, op := ops[..|ops| - 1], ops[|ops| - 1];
      Uses(max, before) + if Effective(op) || Answer(max, before, op).Some? then [op.key] else []
  }

  /** The distinct other keys used after the last use of k. */
  function SinceLast(uses: seq<Key>, k: Key): set<Key> {
    if uses == [] || uses[|uses| - 1] == k then {}
    else SinceLast(uses[..|uses| - 1], k) + {uses[|uses| - 1]}
  }

  ghost predicate Monotone(ops: seq<Op>) {
    forall i, j :: 0 <= i < j < |ops| ==> ops[i].now <= ops[j].now
  }

  // ---------- the shape of the sequence ----------

  lemma {:induction false} WithoutMembers(s: seq<Entry>, k: Key)
    ensures forall e :: e in Without(s, k) <==> e in s && e.key != k
    ensures |Without(s, k)| <= |s|
  {
    if s != [] {
      WithoutMembers(s[1..], k);
      assert s == [s[0]] + s[1..];
    }
  }

  lemma WithoutKeys(s: seq<Entry>, k: Key)
    ensures forall e :: e in Without(s, k) <==> e in s && e.key != k
    ensures |Without(s, k)| <= |s|
    ensures DistinctKeys(s) ==> DistinctKeys(Without(s, k)) && |Without(s, k)| == |s| - if Find(s, k) >= 0 then 1 else 0
  {
    WithoutMembers(s, k);
    if DistinctKeys(s) {
      var i := Find(s, k);
      if i >= 0 {
        WithoutAt(s, i);
      } else {
        WithoutAbsent(s, k);
      }
    }
  }

  lemma {:induction false} WithoutAt(s: seq<Entry>, i: int)
    requires DistinctKeys(s) && 0 <= i < |s|
    ensures Without(s, s[i].key) == s[..i] + s[i + 1..]
    decreases i
  {
    if i == 0 {
      WithoutAbsent(s[1..], s[0].key);
    } else {
      assert s[1..][i - 1] == s[i];
      WithoutAt(s[1..], i - 1);
    }
  }

  lemma {:induction false} WithoutAbsent(s: seq<Entry>, k: Key)
    requires Find(s, k) < 0
    ensures Without(s, k) == s
  {
    if s != [] {
      WithoutAbsent(s[1..], k);
    }
  }

  lemma FindUnique(s: seq<Entry>, e: Entry)
    requires DistinctKeys(s) && e in s
    ensures Find(s, e.key) >= 0 && s[Find(s, e.key)] == e
  {
    var j :| 0 <= j < |s| && s[j] == e;
  }

  function Cap(max: int): nat {
    if max < 0 then 0 else max
  }

  function EntryOf(op: Op): Entry
    requires Effective(op)
  {
    Entry(op.key, op.data.value, op.now + op.ttl)
  }

  lemma FrontFacts(s: seq<Entry>, e: Entry)
    ensures forall x :: x in Front(s, e) <==> x == e || (x in s && x.key != e.key)
    ensures DistinctKeys(s) ==> DistinctKeys(Front(s, e)) && |Front(s, e)| == |s| + if Find(s, e.key) >= 0 then 0 else 1
  {
    WithoutKeys(s, e.key);
    var t := Without(s, e.key);
    if DistinctKeys(s) {
      forall i, j | 0 <= i < j < |Front(s, e)|
        ensures Front(s, e)[i].key != Front(s, e)[j].key
      {
        assert t[j - 1] in t;
      }
    }
  }

  /** An effective put moves its entry to the front and then trims, whether or not the key was present. */
  lemma PutIsFrontThenTrim(s: seq<Entry>, max: int, op: Op)
    requires DistinctKeys(s) && |s| <= Cap(max) && Effective(op)
    ensures Step(s, max, op).0 == Trim(Front(s, EntryOf(op)), max)
    ensures |Front(s, EntryOf(op))| <= Cap(max) + 1
  {
    FrontFacts(s, EntryOf(op));
    if Find(s, op.key) < 0 {
      WithoutAbsent(s, op.key);
    }
  }

  /** Where the entries after a step come from. */
  lemma StepMembers(s: seq<Entry>, max: int, op: Op)
    ensures forall e :: e in Step(s, max, op).0 ==>
              if Effective(op) && e.key == op.key then e == EntryOf(op) else e in s
  {
    hide Find, Without, DistinctKeys;
    if Effective(op) {
      FrontFacts(s, EntryOf(op));
      if Find(s, op.key) < 0 {
        WithoutAbsent(s, op.key);
      }
    } else if op.GetOp? {
      WithoutKeys(s, op.key);
    }
  }

  lemma StepKeepsShape(s: seq<Entry>, max: int, op: Op)
    requires DistinctKeys(s) && |s| <= Cap(max)
    ensures var t := Step(s, max, op).0; DistinctKeys(t) && |t| <= Cap(max)
  {
    WithoutKeys(s, op.key);
    if Effective(op) {
      PutIsFrontThenTrim(s, max, op);
      FrontFacts(s, EntryOf(op));
    } else if op.GetOp? && Find(s, op.key) >= 0 {
      FrontFacts(s, s[Find(s, op.key)]);
    }
  }

  /** Keys stay distinct and the size bound holds after any run. */
  lemma {:induction false} ContentShape(max: int, ops: seq<Op>)
    ensures DistinctKeys(Content(max, ops)) && |Content(max, ops)| <= Cap(max)
  {
    if ops != [] {
      ContentShape(max, ops[..|ops| - 1]);
      StepKeepsShape(Content(max, ops[..|ops| - 1]), max, ops[|ops| - 1]);
    }
  }

  // ---------- a bigger cache never hits less ----------

  ghost predicate Subsequence(a: seq<Entry>, b: seq<Entry>) {
    a == [] || (b != [] && if a[0] == b[0] then Subsequence(a[1..], b[1..]) else Subsequence(a, b[1..]))
  }

  lemma {:induction false} SubsequenceTail(a: seq<Entry>, b: seq<Entry>)
    requires Subsequence(a, b) && a != []
    ensures Subsequence(a[1..], b)
    decreases |b|, 0
  {
    if a[0] == b[0] {
      SubsequenceGrow(a[1..], b[1..], b[0]);
      assert b == [b[0]] + b[1..];
    } else {
      SubsequenceTail(a, b[1..]);
      SubsequenceGrow(a[1..], b[1..], b[0]);
      assert b == [b[0]] + b[1..];
    }
  }

  lemma {:induction false} SubsequenceGrow(a: seq<Entry>, b: seq<Entry>, x: Entry)
    requires Subsequence(a, b)
    ensures Subsequence(a, [x] + b)
    decreases |b|, 1
  {
    assert ([x] + b)[1..] == b;
    if a != [] && a[0] == x {
      SubsequenceTail(a, b);
    }
  }

  lemma {:induction false} SubsequenceWithout(a: seq<Entry>, b: seq<Entry>, k: Key)
    requires Subsequence(a, b)
    ensures Subsequence(Without(a, k), Without(b, k))
    decreases |b|
  {
    if a != [] {
      var x, y := Without(a[1..], k), Without(b[1..], k);
      if a[0] == b[0] {
        SubsequenceWithout(a[1..], b[1..], k);
        if b[0].key != k {
          SubsequencePush(x, y, b[0]);
        } else {
          assert [] + x == x && [] + y == y;
        }
      } else {
        SubsequenceWithout(a, b[1..], k);
        SubsequenceGrow(Without(a, k), y, b[0]);
        assert [] + y == y;
      }
    }
  }

  lemma SubsequencePush(a: seq<Entry>, b: seq<Entry>, x: Entry)
    requires Subsequence(a, b)
    ensures Subsequence([x] + a, [x] + b)
  {
    assert ([x] + a)[1..] == a && ([x] + b)[1..] == b;
  }

  lemma {:induction false} SubsequenceDropLast(a: seq<Entry>, b: seq<Entry>)
    requires Subsequence(a, b) && a != []
    ensures Subsequence(a[..|a| - 1], b[..|b| - 1]) && Subsequence(a[..|a| - 1], b)
    decreases |b|
  {
    if a[0] == b[0] {
      if |a| > 1 {
        SubsequenceDropLast(a[1..], b[1..]);
        assert a[1..][..|a| - 2] == a[..|a| - 1][1..];
        assert b[1..][..|b| - 2] == b[..|b| - 1][1..];
      }
    } else {
      SubsequenceDropLast(a, b[1..]);
      assert |b| >= 2;
      assert b[1..][..|b| - 2] == b[..|b| - 1][1..];
    }
  }

  lemma {:induction false} SubsequenceMembers(a: seq<Entry>, b: seq<Entry>)
    requires Subsequence(a, b)
    ensures |a| <= |b| && forall e :: e in a ==> e in b
    decreases |b|
  {
    if a != [] {
      SubsequenceMembers(if a[0] == b[0] then a[1..] else a, b[1..]);
      assert b == [b[0]] + b[1..] && a == [a[0]] + a[1..];
    }
  }

  /** The relation between the contents of a smaller and a larger cache fed the same operations. */
  ghost predicate Included(small: seq<Entry>, large: seq<Entry>, k1: int, k2: int) {
    && DistinctKeys(small) && DistinctKeys(large)
    && |small| <= Cap(k1) && |large| <= Cap(k2)
    && Subsequence(small, large)
    && |large| - |small| <= Cap(k2) - Cap(k1)
  }

  lemma IncludedFront(small: seq<Entry>, large: seq<Entry>, e: Entry)
    requires DistinctKeys(small) && DistinctKeys(large) && Subsequence(small, large)
    ensures Subsequence(Front(small, e), Front(large, e))
    ensures Find(small, e.key) >= 0 ==> Find(large, e.key) >= 0
  {
    SubsequenceWithout(small, large, e.key);
    SubsequencePush(Without(small, e.key), Without(large, e.key), e);
    SubsequenceMembers(small, large);
    var i := Find(small, e.key);
    if i >= 0 {
      FindUnique(large, small[i]);
    }
  }

  lemma IncludedGet(small: seq<Entry>, large: seq<Entry>, k1: int, k2: int, k: Key, now: int)
    requires k1 <= k2 && Included(small, large, k1, k2)
    ensures Included(Get(small, k, now).0, Get(large, k, now).0, k1, k2)
    ensures Get(small, k, now).1.Some? ==> Get(large, k, now).1 == Get(small, k, now).1
  {
    var i, j := Find(small, k), Find(large, k);
    StepKeepsShape(small, k1, GetOp(k, now));
    StepKeepsShape(large, k2, GetOp(k, now));
    if i >= 0 {
      SubsequenceMembers(small, large);
      FindUnique(large, small[i]);
      WithoutKeys(small, k);
      WithoutKeys(large, k);
      SubsequenceWithout(small, large, k);
      IncludedFront(small, large, small[i]);
    } else if j >= 0 {
      WithoutAbsent(small, k);
      WithoutKeys(large, k);
      SubsequenceWithout(small, large, k);
      SubsequenceGrow(small, Without(large, k), large[j]);
      FrontFacts(large, large[j]);
    }
  }

  lemma IncludedPut(small: seq<Entry>, large: seq<Entry>, k1: int, k2: int, op: Op)
    requires k1 <= k2 && Included(small, large, k1, k2) && Effective(op)
    ensures Included(Step(small, k1, op).0, Step(large, k2, op).0, k1, k2)
  {
    var e := EntryOf(op);
    StepKeepsShape(small, k1, op);
    StepKeepsShape(large, k2, op);
    PutIsFrontThenTrim(small, k1, op);
    PutIsFrontThenTrim(large, k2, op);
    FrontFacts(small, e);
    FrontFacts(large, e);
    IncludedFront(small, large, e);
    IncludedTrim(Front(small, e), Front(large, e), k1, k2);
  }

  /** When the larger cache evicts, so does the smaller. */
  lemma IncludedTrim(a: seq<Entry>, b: seq<Entry>, k1: int, k2: int)
    requires k1 <= k2 && Subsequence(a, b) && a != []
    requires |a| <= Cap(k1) + 1 && |b| <= Cap(k2) + 1 && |b| - |a| <= Cap(k2) - Cap(k1)
    ensures Subsequence(Trim(a, k1), Trim(b, k2))
    ensures |Trim(b, k2)| - |Trim(a, k1)| <= Cap(k2) - Cap(k1)
  {
    SubsequenceDropLast(a, b);
    TrimDropsLast(a, k1);
    TrimDropsLast(b, k2);
  }

  lemma TrimDropsLast(t: seq<Entry>, max: int)
    requires t != [] && |t| <= Cap(max) + 1
    ensures Trim(t, max) == if |t| > Cap(max) then t[..|t| - 1] else t
  {
  }

  /** The larger cache's content includes the smaller's, in the same order and with identical entries, and it answers at
      least as much. */
  lemma {:induction false} BiggerCacheNeverHitsLess(k1: int, k2: int, ops: seq<Op>, op: Op)
    requires k1 <= k2
    ensures Included(Content(k1, ops), Content(k2, ops), k1, k2)
    ensures Answer(k1, ops, op).Some? ==> Answer(k2, ops, op) == Answer(k1, ops, op)
    decreases |ops|
  {
    if ops != [] {
      var before, last := ops[..|ops| - 1], ops[|ops| - 1];
      BiggerCacheNeverHitsLess(k1, k2, before, last);
      if last.GetOp? {
        IncludedGet(Content(k1, before), Content(k2, before), k1, k2, last.key, last.now);
      } else if Effective(last) {
        IncludedPut(Content(k1, before), Content(k2, before), k1, k2, last);
      }
    }
    if op.GetOp? {
      IncludedGet(Content(k1, ops), Content(k2, ops), k1, k2, op.key, op.now);
    }
  }

  // ---------- hits against the history ----------

  /** Every entry is the latest effective put of its key. */
  lemma {:induction false} EntriesAreLatestPuts(max: int, ops: seq<Op>)
    ensures forall e :: e in Content(max, ops) ==>
              LatestPut(ops, e.key).Some? && e == EntryOf(LatestPut(ops, e.key).value)
  {
    if ops != [] {
      var before, op := ops[..|ops| - 1], ops[|ops| - 1];
      EntriesAreLatestPuts(max, before);
      StepMembers(Content(max, before), max, op);
    }
  }

  /** A hit returns the value of the latest effective put of the key, no later than its expiry. */
  lemma HitIsLatestPut(max: int, ops: seq<Op>, k: Key, now: int)
    requires Answer(max, ops, GetOp(k, now)).Some?
    ensures var p := LatestPut(ops, k);
            p.Some? && now <= p.value.now + p.value.ttl
            && Answer(max, ops, GetOp(k, now)).value == p.value.data.value.(cached := true)
  {
    EntriesAreLatestPuts(max, ops);
    var s := Content(max, ops);
    assert s[Find(s, k)] in s;
  }

  /** A lookup that misses leaves no entry of the key behind, so an expired one is gone. */
  lemma MissLeavesNoEntry(max: int, ops: seq<Op>, k: Key, now: int)
    requires Answer(max, ops, GetOp(k, now)).None?
    ensures Find(Content(max, ops + [GetOp(k, now)]), k) < 0
  {
    assert (ops + [GetOp(k, now)])[..|ops|] == ops;
    var s, t := Content(max, ops), Content(max, ops + [GetOp(k, now)]);
    WithoutMembers(s, k);
    if Find(s, k) >= 0 {
      assert forall i :: 0 <= i < |t| ==> t[i] in t;
    }
  }

  /** The entries ahead of an entry were all used after it. */
  ghost predicate OrderedByUse(s: seq<Entry>, uses: seq<Key>) {
    forall i, j :: 0 <= i < j < |s| ==> s[i].key in SinceLast(uses, s[j].key)
  }

  lemma UseKey(s: seq<Entry>, uses: seq<Key>, e: Entry)
    requires DistinctKeys(s) && OrderedByUse(s, uses)
    ensures OrderedByUse(Front(s, e), uses + [e.key])
  {
    var t, u := Without(s, e.key), uses + [e.key];
    WithoutKeys(s, e.key);
    assert u[..|uses|] == uses;
    WithoutOrdered(s, uses, e.key);
    forall i, j | 0 <= i < j < |Front(s, e)|
      ensures Front(s, e)[i].key in SinceLast(u, Front(s, e)[j].key)
    {
      assert t[j - 1] in t;
    }
  }

  lemma WithoutOrdered(s: seq<Entry>, uses: seq<Key>, k: Key)
    requires DistinctKeys(s) && OrderedByUse(s, uses)
    ensures OrderedByUse(Without(s, k), uses)
  {
    var i := Find(s, k);
    if i < 0 {
      WithoutAbsent(s, k);
    } else {
      WithoutAt(s, i);
    }
  }

  lemma StepOrdered(s: seq<Entry>, uses: seq<Key>, max: int, op: Op)
    requires DistinctKeys(s) && |s| <= Cap(max) && OrderedByUse(s, uses)
    ensures var (t, answer) := Step(s, max, op);
            OrderedByUse(t, uses + if Effective(op) || answer.Some? then [op.key] else [])
  {
    assert uses + [] == uses;
    if Effective(op) {
      PutIsFrontThenTrim(s, max, op);
      UseKey(s, uses, EntryOf(op));
    } else if op.GetOp? {
      var i := Find(s, op.key);
      WithoutOrdered(s, uses, op.key);
      if i >= 0 {
        UseKey(s, uses, s[i]);
      }
    }
  }

  /** Recency order agrees with the order of last use, over any run. */
  lemma {:induction false} ContentOrderedByUse(max: int, ops: seq<Op>)
    ensures OrderedByUse(Content(max, ops), Uses(max, ops))
  {
    if ops != [] {
      var before, op := ops[..|ops| - 1], ops[|ops| - 1];
      ContentOrderedByUse(max, before);
      ContentShape(max, before);
      StepOrdered(Content(max, before), Uses(max, before), max, op);
    }
  }

  lemma {:induction false} KeysAhead(s: seq<Entry>, n: nat, others: set<Key>)
    requires DistinctKeys(s) && n <= |s| && forall i :: 0 <= i < n ==> s[i].key in others
    ensures n <= |others|
    decreases n
  {
    if n > 0 {
      KeysAhead(s, n - 1, others - {s[n - 1].key});
    }
  }

  /** A key leaves on a put only after at least max distinct other keys were used since its own last use. */
  lemma EvictedOnlyAfterMaxOthers(max: int, ops: seq<Op>, op: Op, k: Key)
    requires op.PutOp? && Find(Content(max, ops), k) >= 0 && Find(Content(max, ops + [op]), k) < 0
    ensures |SinceLast(Uses(max, ops + [op]), k)| >= max
  {
    assert (ops + [op])[..|ops|] == ops;
    var s, uses := Content(max, ops), Uses(max, ops);
    ContentShape(max, ops);
    ContentOrderedByUse(max, ops);
    var e := EntryOf(op);
    var t := Front(s, e);
    PutIsFrontThenTrim(s, max, op);
    FrontFacts(s, e);
    UseKey(s, uses, e);
    if max > 0 {
      if k != op.key {
        assert s[Find(s, k)] in t;
      }
      if Find(t, k) < max {
        TrimKeepsFront(t, max, k);
      }
      KeysAhead(t, max, SinceLast(uses + [op.key], k));
    }
  }

  lemma TrimKeepsFront(t: seq<Entry>, max: int, k: Key)
    requires 0 <= Find(t, k) < max
    ensures Find(Trim(t, max), k) >= 0
  {
    assert Trim(t, max)[Find(t, k)].key == k;
  }

  lemma PutIsThere(s: seq<Entry>, max: int, op: Op)
    requires DistinctKeys(s) && |s| <= Cap(max) && Effective(op) && max > 0
    ensures Find(Step(s, max, op).0, op.key) >= 0
  {
    PutIsFrontThenTrim(s, max, op);
    assert Trim(Front(s, EntryOf(op)), max)[0].key == op.key;
  }

  /** With a monotone clock, a key used among the last max distinct keys and not yet expired is there. */
  lemma {:induction false} RecentlyUsedIsKept(max: int, ops: seq<Op>, k: Key)
    requires Monotone(ops) && LatestPut(ops, k).Some?
    ensures var p := LatestPut(ops, k).value;
            || Find(Content(max, ops), k) >= 0
            || p.now + p.ttl < ops[|ops| - 1].now
            || |SinceLast(Uses(max, ops), k)| >= max
    decreases |ops|
  {
    hide Find, Without, Front, Trim, SinceLast, DistinctKeys;
    var before, op := ops[..|ops| - 1], ops[|ops| - 1];
    assert ops == before + [op];
    ContentShape(max, before);
    if Effective(op) && op.key == k {
      if max > 0 {
        PutIsThere(Content(max, before), max, op);
      }
    } else {
      RecentlyUsedIsKept(max, before, k);
      if Find(Content(max, before), k) >= 0 {
        hide Uses, Content;
        PresentIsKept(max, before, op, k);
      } else {
        AbsentKeepsWindow(max, before, op, k);
      }
    }
  }

  /** A key that is present stays, unless a lookup finds it expired or a put evicts it. */
  lemma PresentIsKept(max: int, before: seq<Op>, op: Op, k: Key)
    requires Find(Content(max, before), k) >= 0 && !(Effective(op) && op.key == k)
    ensures LatestPut(before, k).Some?
    ensures || Find(Content(max, before + [op]), k) >= 0
            || LatestPut(before, k).value.now + LatestPut(before, k).value.ttl < op.now
            || |SinceLast(Uses(max, before + [op]), k)| >= max
  {
    assert (before + [op])[..|before|] == before;
    EntriesAreLatestPuts(max, before);
    hide Find, Without, Front, Trim, SinceLast, DistinctKeys, Uses;
    var s := Content(max, before);
    assert s[Find(s, k)] in s;
    if op.PutOp? && Find(Content(max, before + [op]), k) < 0 {
      EvictedOnlyAfterMaxOthers(max, before, op, k);
    } else if op.GetOp? {
      LookupKeepsUnlessExpired(s, max, op, k);
    }
  }

  /** While a key is absent, its window only grows. */
  lemma AbsentKeepsWindow(max: int, before: seq<Op>, op: Op, k: Key)
    requires Find(Content(max, before), k) < 0 && !(Effective(op) && op.key == k)
    ensures |SinceLast(Uses(max, before), k)| <= |SinceLast(Uses(max, before + [op]), k)|
  {
    assert (before + [op])[..|before|] == before;
    var uses := Uses(max, before);
    assert uses + [] == uses;
    hide Find, Without, Front, Trim, SinceLast, DistinctKeys, Content;
    if op.key != k {
      SinceLastGrows(uses, op.key, k);
    }
  }

  lemma LookupKeepsUnlessExpired(s: seq<Entry>, max: int, op: Op, k: Key)
    requires op.GetOp? && Find(s, k) >= 0
    ensures Find(Step(s, max, op).0, k) >= 0 || (op.key == k && op.now > s[Find(s, k)].expiresAt)
    ensures s[Find(s, k)] in s
  {
    var i := Find(s, op.key);
    WithoutKeys(s, op.key);
    if i >= 0 {
      FrontFacts(s, s[i]);
    }
    assert s[Find(s, k)] in s;
  }

  lemma SinceLastGrows(uses: seq<Key>, j: Key, k: Key)
    requires j != k
    ensures |SinceLast(uses, k)| <= |SinceLast(uses + [j], k)|
  {
    assert (uses + [j])[..|uses|] == uses;
    var a := SinceLast(uses, k);
    if j !in a {
      assert |a + {j}| == |a| + 1;
    } else {
      assert a + {j} == a;
    }
  }

  /** Within that window the cache is exactly a map of latest puts with expiry. */
  lemma ExactWithinWindow(max: int, ops: seq<Op>, k: Key, now: int)
    requires Monotone(ops + [GetOp(k, now)])
    requires |SinceLast(Uses(max, ops), k)| < max
    ensures Answer(max, ops, GetOp(k, now))
         == match LatestPut(ops, k)
            case Some(p) => if now <= p.now + p.ttl then Some(p.data.value.(cached := true)) else None
            case None => None
  {
    EntriesAreLatestPuts(max, ops);
    var s, all := Content(max, ops), ops + [GetOp(k, now)];
    if Find(s, k) >= 0 {
      assert s[Find(s, k)] in s;
    } else if LatestPut(ops, k).Some? {
      assert forall i :: 0 <= i < |ops| ==> all[i] == ops[i];
      assert all[|ops|].now == now;
      assert Monotone(ops);
      RecentlyUsedIsKept(max, ops, k);
    }
  }

  // ---------- runs in which nothing expires ----------

  ghost predicate NothingExpires(ops: seq<Op>) {
    forall i, j :: 0 <= i < j < |ops| && Effective(ops[i]) ==> ops[j].now <= ops[i].now + ops[i].ttl
  }

  /** The keys used since an entry's last use are all ahead of it. */
  ghost predicate UsedAreAhead(s: seq<Entry>, uses: seq<Key>) {
    forall j, k :: 0 <= j < |s| && k in SinceLast(uses, s[j].key) ==> 0 <= Find(s, k) < j
  }

  lemma FindAt(s: seq<Entry>, p: int)
    requires DistinctKeys(s) && 0 <= p < |s|
    ensures Find(s, s[p].key) == p
  {
  }

  lemma SinceLastAppend(uses: seq<Key>, j: Key, k: Key)
    ensures SinceLast(uses + [j], k) == if j == k then {} else SinceLast(uses, k) + {j}
  {
    assert (uses + [j])[..|uses|] == uses;
  }

  lemma FrontUsedAreAhead(s: seq<Entry>, uses: seq<Key>, e: Entry)
    requires DistinctKeys(s) && UsedAreAhead(s, uses)
    ensures UsedAreAhead(Front(s, e), uses + [e.key])
  {
    var t, u := Front(s, e), uses + [e.key];
    forall j, k | 0 <= j < |t| && k in SinceLast(u, t[j].key)
      ensures 0 <= Find(t, k) < j
    {
      FrontUsedAt(s, uses, e, j, k);
    }
  }

  lemma FrontUsedAt(s: seq<Entry>, uses: seq<Key>, e: Entry, j: int, k: Key)
    requires DistinctKeys(s) && UsedAreAhead(s, uses)
    requires 0 <= j < |Front(s, e)| && k in SinceLast(uses + [e.key], Front(s, e)[j].key)
    ensures 0 <= Find(Front(s, e), k) < j
  {
    var t, i := Front(s, e), Find(s, e.key);
    SinceLastAppend(uses, e.key, t[j].key);
    FrontPositions(s, e);
    assert DistinctKeys(t) by { FrontFacts(s, e); }
    if k == e.key {
      FindAt(t, 0);
    } else {
      var f := Find(s, k);
      var j' := if i < 0 || j <= i then j - 1 else j;
      assert t[j] == s[j'] && 0 <= f < j';
      FindAt(t, if i < 0 || f < i then f + 1 else f);
    }
  }

  /** Moving e to the front shifts what was ahead of it back by one. */
  lemma FrontPositions(s: seq<Entry>, e: Entry)
    requires DistinctKeys(s)
    ensures var t, i := Front(s, e), Find(s, e.key);
            && |t| == |s| + (if i >= 0 then 0 else 1) && t[0] == e
            && (forall f :: 0 <= f < |s| && (i < 0 || f < i) ==> t[f + 1] == s[f])
            && (forall f :: 0 <= i < f < |s| ==> t[f] == s[f])
  {
    var i := Find(s, e.key);
    if i < 0 {
      WithoutAbsent(s, e.key);
    } else {
      WithoutAt(s, i);
    }
  }

  lemma {:induction false} ContentUsedAreAhead(max: int, ops: seq<Op>)
    requires NothingExpires(ops)
    ensures UsedAreAhead(Content(max, ops), Uses(max, ops))
  {
    if ops != [] {
      var before, op := ops[..|ops| - 1], ops[|ops| - 1];
      var s, uses := Content(max, before), Uses(max, before);
      ContentUsedAreAhead(max, before);
      ContentShape(max, before);
      if Effective(op) {
        PutIsFrontThenTrim(s, max, op);
        FrontUsedAreAhead(s, uses, EntryOf(op));
        TrimUsedAreAhead(Front(s, EntryOf(op)), uses + [op.key], max);
      } else if op.GetOp? && Find(s, op.key) >= 0 {
        NotExpiredYet(max, ops);
        FrontUsedAreAhead(s, uses, s[Find(s, op.key)]);
      } else {
        assert uses + [] == uses;
      }
    }
  }

  lemma TrimUsedAreAhead(t: seq<Entry>, uses: seq<Key>, max: int)
    requires UsedAreAhead(t, uses)
    ensures UsedAreAhead(Trim(t, max), uses)
  {
    var r := Trim(t, max);
    forall j, k | 0 <= j < |r| && k in SinceLast(uses, r[j].key)
      ensures 0 <= Find(r, k) < j
    {
      assert r[j] == t[j];
      assert r[Find(t, k)] == t[Find(t, k)];
    }
  }

  lemma {:induction false} LatestPutIsInRun(ops: seq<Op>, k: Key) returns (i: int)
    requires LatestPut(ops, k).Some?
    ensures 0 <= i < |ops| && ops[i] == LatestPut(ops, k).value
  {
    var op := ops[|ops| - 1];
    if Effective(op) && op.key == k {
      i := |ops| - 1;
    } else {
      i := LatestPutIsInRun(ops[..|ops| - 1], k);
    }
  }

  lemma NotExpiredYet(max: int, ops: seq<Op>)
    requires NothingExpires(ops) && ops != []
    ensures forall e :: e in Content(max, ops[..|ops| - 1]) ==> ops[|ops| - 1].now <= e.expiresAt
  {
    var before := ops[..|ops| - 1];
    EntriesAreLatestPuts(max, before);
    forall e | e in Content(max, before)
      ensures ops[|ops| - 1].now <= e.expiresAt
    {
      var i := LatestPutIsInRun(before, e.key);
    }
  }

  /** LRU stack distance: without expiry, a lookup hits exactly when fewer than max other keys were used since. */
  lemma HitIffWithinWindow(max: int, ops: seq<Op>, k: Key, now: int)
    requires Monotone(ops + [GetOp(k, now)]) && NothingExpires(ops + [GetOp(k, now)])
    ensures Answer(max, ops, GetOp(k, now)).Some? <==> LatestPut(ops, k).Some? && |SinceLast(Uses(max, ops), k)| < max
  {
    var all := ops + [GetOp(k, now)];
    assert all[..|ops|] == ops;
    assert forall i :: 0 <= i < |ops| ==> all[i] == ops[i];
    assert all[|ops|].now == now;
    if LatestPut(ops, k).Some? && |SinceLast(Uses(max, ops), k)| < max {
      ExactWithinWindow(max, ops, k, now);
      var i := LatestPutIsInRun(ops, k);
    } else if Answer(max, ops, GetOp(k, now)).Some? {
      HitIsLatestPut(max, ops, k, now);
      ContentUsedAreAhead(max, ops);
      ContentShape(max, ops);
      var s := Content(max, ops);
      AheadBound(s, Find(s, k), SinceLast(Uses(max, ops), k));
    }
  }

  lemma {:induction false} AheadBound(s: seq<Entry>, n: nat, others: set<Key>)
    requires n <= |s| && forall k :: k in others ==> 0 <= Find(s, k) < n
    ensures |others| <= n
    decreases n
  {
    if n > 0 {
      AheadBound(s, n - 1, others - {s[n - 1].key});
    } else {
      forall k ensures k !in others {
      }
    }
  }
}
