/** The state-tree path cache: a JavaScript Map used in insertion order as a least-recently-used cache. */
module PathCache {
  import opened Wrappers
  import opened Paths
  import opened Sequences

  type Key = string

  /** path -> changelist number. */
  type StateMap = map<Path, int>

  const PATH_CACHE_MAX := 256

  /** A Map as the sequence of its entries in insertion order. */
  type Entries = seq<(Key, StateMap)>

  function Keys(entries: Entries): seq<Key> {
    seq(|entries|, i requires 0 <= i < |entries| => entries[i].0)
  }

  function Lookup(entries: Entries, key: Key): Option<StateMap> {
    if entries == [] then None
    else if entries[0].0 == key then Some(entries[0].1)
    else Lookup(entries[1..], key)
  }

  /** `Map.delete`. */
  function Deleted(entries: Entries, key: Key): Entries {
    if entries == [] then []
    else if entries[0].0 == key then Deleted(entries[1..], key)
    else [entries[0]] + Deleted(entries[1..], key)
  }

  function Without(keys: seq<Key>, key: Key): (r: seq<Key>)
    ensures |r| <= |keys|
  {
    if keys == [] then []
    else if keys[0] == key then Without(keys[1..], key)
    else [keys[0]] + Without(keys[1..], key)
  }

  /** The last n elements, or all of them. */
  function LastN<T>(s: seq<T>, n: nat): seq<T> {
    if |s| <= n then s else s[|s| - n..]
  }

  // ---- Runs of operations ----

  datatype Op = GetOp(key: Key) | SetOp(key: Key, value: StateMap)

  function Touched(entries: Entries, key: Key, value: StateMap): Entries {
    LastN(Deleted(entries, key) + [(key, value)], PATH_CACHE_MAX)
  }

  /** A hit moves the entry to the end; a set puts it there and drops the oldest beyond the maximum. */
  function Next(entries: Entries, op: Op): Entries {
    match op
    case GetOp(key) =>
      var hit := Lookup(entries, key);
      if hit.None? then entries else Deleted(entries, key) + [(key, hit.value)]
    case SetOp(key, value) => Touched(entries, key, value)
  }

  function Run(ops: seq<Op>): Entries {
    if ops == [] then [] else Next(Run(ops[..|ops| - 1]), ops[|ops| - 1])
  }

  /** The keys touched by a run: those set, and those got while present. */
  function Touches(ops: seq<Op>): seq<Key> {
    if ops == [] then []
    else
      var before := Touches(ops[..|ops| - 1]);
      match ops[|ops| - 1]
      case GetOp(key) => if Lookup(Run(ops[..|ops| - 1]), key).Some? then before + [key] else before
      case SetOp(key, _) => before + [key]
  }

  /** The value last set for the key. */
  function LatestSet(ops: seq<Op>, key: Key): Option<StateMap> {
    if ops == [] then None
    else
      var op := ops[|ops| - 1];
      if op.SetOp? && op.key == key then Some(op.value) else LatestSet(ops[..|ops| - 1], key)
  }

  // ---- Recency ----

  /** The distinct touched keys, in order of their last touch. */
  function Recency(touches: seq<Key>): seq<Key> {
    if touches == [] then []
    else Without(Recency(touches[..|touches| - 1]), touches[|touches| - 1]) + [touches[|touches| - 1]]
  }

  /** i is the last touch of the key. */
  ghost predicate IsLastTouch(touches: seq<Key>, key: Key, i: nat) {
    i < |touches| && touches[i] == key && forall j :: i < j < |touches| ==> touches[j] != key
  }

  lemma {:induction false} WithoutIs(keys: seq<Key>, key: Key)
    requires Distinct(keys)
    ensures var r := Without(keys, key);
            && Distinct(r) && (forall k :: k in r <==> k in keys && k != key)
            && (key !in keys ==> r == keys)
            && |r| == |keys| - if key in keys then 1 else 0
    decreases |keys|
  {
    if keys != [] {
      var rest := keys[1..];
      assert forall i :: 0 <= i < |rest| ==> rest[i] == keys[i + 1];
      WithoutIs(rest, key);
      assert forall k :: k in keys <==> k == keys[0] || k in rest;
      assert keys[0] !in rest;
      if keys[0] != key {
        DistinctFront(keys[0], Without(rest, key));
      }
    }
  }

  lemma DistinctFront(key: Key, keys: seq<Key>)
    requires Distinct(keys) && key !in keys
    ensures Distinct([key] + keys)
  {
  }

  lemma {:induction false} WithoutAppend(a: seq<Key>, b: seq<Key>, key: Key)
    ensures Without(a + b, key) == Without(a, key) + Without(b, key)
    decreases |a|
  {
    if a == [] {
      assert a + b == b;
    } else {
      WithoutAppend(a[1..], b, key);
      assert (a + b)[1..] == a[1..] + b;
    }
  }

  /** Every two keys appear in the order of the given measure, which no key removed disturbs. */
  lemma {:induction false} WithoutKeepsOrder(keys: seq<Key>, key: Key, touches: seq<Key>)
    requires Distinct(keys) && InTouchOrder(keys, touches)
    ensures InTouchOrder(Without(keys, key), touches)
    decreases |keys|
  {
    if keys != [] {
      var rest := keys[1..];
      assert forall i :: 0 <= i < |rest| ==> rest[i] == keys[i + 1];
      WithoutKeepsOrder(rest, key, touches);
      WithoutIs(rest, key);
      if keys[0] != key {
        var r := Without(rest, key);
        forall i, j, x: nat, y: nat | 0 <= i < j < |[keys[0]] + r| && IsLastTouch(touches, ([keys[0]] + r)[i], x) && IsLastTouch(touches, ([keys[0]] + r)[j], y)
          ensures x < y
        {
          if i == 0 {
            assert r[j - 1] in r;
            var m :| 0 <= m < |rest| && rest[m] == r[j - 1];
            assert keys[m + 1] == r[j - 1];
          }
        }
      }
    }
  }

  ghost predicate InTouchOrder(keys: seq<Key>, touches: seq<Key>) {
    forall i, j, x: nat, y: nat :: 0 <= i < j < |keys| && IsLastTouch(touches, keys[i], x) && IsLastTouch(touches, keys[j], y) ==> x < y
  }

  /** Recency lists every touched key once, ordered by last touch. */
  lemma {:induction false} RecencyMeans(touches: seq<Key>)
    ensures Distinct(Recency(touches))
    ensures forall k :: k in Recency(touches) <==> k in touches
    ensures InTouchOrder(Recency(touches), touches)
    decreases |touches|
  {
    if touches != [] {
      var init, key := touches[..|touches| - 1], touches[|touches| - 1];
      RecencyMeans(init);
      var before := Recency(init);
      WithoutIs(before, key);
      WithoutKeepsOrder(before, key, init);
      var kept := Without(before, key);
      assert touches == init + [key];
      forall i, j, x: nat, y: nat | 0 <= i < j < |kept + [key]| && IsLastTouch(touches, (kept + [key])[i], x) && IsLastTouch(touches, (kept + [key])[j], y)
        ensures x < y
      {
        assert kept[i] in kept;
        assert x < |init| && IsLastTouch(init, kept[i], x);
        if j < |kept| {
          assert kept[j] in kept;
          assert y < |init| && IsLastTouch(init, kept[j], y);
        } else {
          assert touches[|init|] == key;
        }
      }
    }
  }

  // ---- The cache keeps the most recently touched keys ----

  lemma {:induction false} DeletedKeys(entries: Entries, key: Key)
    ensures Keys(Deleted(entries, key)) == Without(Keys(entries), key)
    decreases |entries|
  {
    if entries != [] {
      DeletedKeys(entries[1..], key);
      assert Keys(entries)[1..] == Keys(entries[1..]);
    }
  }

  lemma {:induction false} LookupIs(entries: Entries, key: Key)
    ensures Lookup(entries, key).Some? <==> key in Keys(entries)
    decreases |entries|
  {
    if entries != [] {
      LookupIs(entries[1..], key);
      assert Keys(entries)[1..] == Keys(entries[1..]);
      assert forall k :: k in Keys(entries) <==> k == Keys(entries)[0] || k in Keys(entries)[1..];
    }
  }

  /** Cutting to the last n before or after a touch comes to the same. */
  lemma TouchLastN(keys: seq<Key>, key: Key, n: nat)
    requires Distinct(keys) && n >= 1
    ensures LastN(Without(keys, key) + [key], n) == LastN(Without(LastN(keys, n), key) + [key], n)
    ensures key in LastN(keys, n) ==> |Without(LastN(keys, n), key) + [key]| <= n
  {
    var b := LastN(keys, n);
    var a := keys[..|keys| - |b|];
    assert keys == a + b;
    DistinctParts(a, b);
    WithoutIs(b, key);
    if |keys| > n {
      TouchTail(a, b, key, n);
    }
  }

  lemma TouchTail(a: seq<Key>, b: seq<Key>, key: Key, n: nat)
    requires Distinct(a) && Distinct(b) && (key in b ==> key !in a) && |b| == n
    ensures LastN(Without(a + b, key) + [key], n) == LastN(Without(b, key) + [key], n)
  {
    var front, back := Without(a, key), Without(b, key) + [key];
    WithoutAppend(a, b, key);
    WithoutIs(b, key);
    assert front + Without(b, key) + [key] == front + back;
    LastOfTwo(front, back, n);
  }

  lemma DistinctParts(a: seq<Key>, b: seq<Key>)
    requires Distinct(a + b)
    ensures Distinct(a) && Distinct(b) && forall k :: k in b ==> k !in a
  {
    var ab := a + b;
    assert forall i :: 0 <= i < |a| ==> ab[i] == a[i];
    assert forall i :: 0 <= i < |b| ==> ab[|a| + i] == b[i];
  }

  lemma LastOfTwo<T>(a: seq<T>, b: seq<T>, n: nat)
    requires |b| >= n
    ensures LastN(a + b, n) == LastN(b, n)
  {
  }

  /** After any run of gets and sets the cache holds exactly the most recently touched keys, at most 256, oldest first. */
  lemma {:induction false} RunKeepsMostRecent(ops: seq<Op>)
    ensures Keys(Run(ops)) == LastN(Recency(Touches(ops)), PATH_CACHE_MAX)
    decreases |ops|
  {
    if ops == [] {
      assert Keys([]) == [];
    } else {
      var init, op := ops[..|ops| - 1], ops[|ops| - 1];
      var entries, touches := Run(init), Touches(init);
      RunKeepsMostRecent(init);
      RecencyMeans(touches);
      DeletedKeys(entries, op.key);
      LookupIs(entries, op.key);
      TouchLastN(Recency(touches), op.key, PATH_CACHE_MAX);
      TouchRecency(touches, op.key);
      match op
      case GetOp(key) =>
        if Lookup(entries, key).Some? {
          KeysAppend(Deleted(entries, key), (key, Lookup(entries, key).value));
        }
      case SetOp(key, value) =>
        KeysAppend(Deleted(entries, key), (key, value));
        KeysLastN(Deleted(entries, key) + [(key, value)], PATH_CACHE_MAX);
    }
  }

  /** At most 256 keys are held, and 256 distinct keys are enough to drop the oldest. */
  lemma HoldsAtMost256(ops: seq<Op>)
    ensures |Run(ops)| == if |Recency(Touches(ops))| <= 256 then |Recency(Touches(ops))| else 256
    ensures |Recency(Touches(ops))| <= 256 ==> Keys(Run(ops)) == Recency(Touches(ops))
    ensures |Recency(Touches(ops))| > 256 ==> Keys(Run(ops)) == Recency(Touches(ops))[|Recency(Touches(ops))| - 256..]
  {
    RunKeepsMostRecent(ops);
  }

  lemma TouchRecency(touches: seq<Key>, key: Key)
    ensures Recency(touches + [key]) == Without(Recency(touches), key) + [key]
  {
    assert (touches + [key])[..|touches|] == touches;
  }

  lemma KeysAppend(entries: Entries, e: (Key, StateMap))
    ensures Keys(entries + [e]) == Keys(entries) + [e.0]
  {
  }

  lemma KeysLastN(entries: Entries, n: nat)
    ensures Keys(LastN(entries, n)) == LastN(Keys(entries), n)
  {
  }

  lemma {:induction false} LookupAppend(a: Entries, b: Entries, key: Key)
    ensures Lookup(a + b, key) == if Lookup(a, key).Some? then Lookup(a, key) else Lookup(b, key)
    decreases |a|
  {
    if a == [] {
      assert a + b == b;
    } else {
      LookupAppend(a[1..], b, key);
      assert (a + b)[1..] == a[1..] + b;
    }
  }

  lemma {:induction false} LookupDeleted(entries: Entries, key: Key, k: Key)
    ensures Lookup(Deleted(entries, key), k) == if k == key then None else Lookup(entries, k)
    decreases |entries|
  {
    if entries != [] {
      LookupDeleted(entries[1..], key, k);
      if entries[0].0 != key {
        LookupAppend([entries[0]], Deleted(entries[1..], key), k);
      }
    }
  }

  lemma {:induction false} LookupLastN(entries: Entries, n: nat, k: Key)
    requires Distinct(Keys(entries))
    ensures Lookup(LastN(entries, n), k).Some? ==> Lookup(LastN(entries, n), k) == Lookup(entries, k)
  {
    if |entries| > n {
      var a, b := entries[..|entries| - n], entries[|entries| - n..];
      assert entries == a + b;
      LookupAppend(a, b, k);
      LookupIs(a, k);
      LookupIs(b, k);
      assert forall i :: 0 <= i < |a| ==> Keys(entries)[i] == Keys(a)[i];
      assert forall i :: 0 <= i < |b| ==> Keys(entries)[|a| + i] == Keys(b)[i];
    }
  }

  /** What the cache holds for a key is the value last set for it. */
  lemma {:induction false} RunHoldsLatest(ops: seq<Op>, k: Key)
    ensures Lookup(Run(ops), k).Some? ==> Lookup(Run(ops), k) == LatestSet(ops, k)
    decreases |ops|
  {
    if ops != [] {
      var init, op := ops[..|ops| - 1], ops[|ops| - 1];
      var entries := Run(init);
      RunHoldsLatest(init, k);
      match op
      case GetOp(key) =>
        if Lookup(entries, key).Some? {
          LookupMoved(entries, key, Lookup(entries, key).value, k);
        }
      case SetOp(key, value) =>
        RunKeysDistinct(init);
        LookupMoved(entries, key, value, k);
        MovedDistinct(entries, key, value);
        LookupLastN(Deleted(entries, key) + [(key, value)], PATH_CACHE_MAX, k);
    }
  }

  /** Putting a key at the end changes only its own value. */
  lemma LookupMoved(entries: Entries, key: Key, value: StateMap, k: Key)
    ensures Lookup(Deleted(entries, key) + [(key, value)], k) == if k == key then Some(value) else Lookup(entries, k)
  {
    LookupDeleted(entries, key, k);
    LookupAppend(Deleted(entries, key), [(key, value)], k);
  }

  lemma RunKeysDistinct(ops: seq<Op>)
    ensures Distinct(Keys(Run(ops)))
  {
    RunKeepsMostRecent(ops);
    RecencyMeans(Touches(ops));
  }

  lemma MovedDistinct(entries: Entries, key: Key, value: StateMap)
    requires Distinct(Keys(entries))
    ensures Distinct(Keys(Deleted(entries, key) + [(key, value)]))
  {
    DeletedKeys(entries, key);
    WithoutIs(Keys(entries), key);
    KeysAppend(Deleted(entries, key), (key, value));
  }

  // ---- One operation, entry by entry ----

  lemma {:induction false} DeletedAbsent(entries: Entries, key: Key)
    requires forall i :: 0 <= i < |entries| ==> entries[i].0 != key
    ensures Deleted(entries, key) == entries
    decreases |entries|
  {
    if entries != [] {
      DeletedAbsent(entries[1..], key);
    }
  }

  lemma {:induction false} DeletedAt(entries: Entries, key: Key, i: nat)
    requires i < |entries| && entries[i].0 == key && forall j :: 0 <= j < |entries| && j != i ==> entries[j].0 != key
    ensures Deleted(entries, key) == entries[..i] + entries[i + 1..]
    decreases |entries|
  {
    if i == 0 {
      DeletedAbsent(entries[1..], key);
      assert entries[..0] + entries[1..] == entries[1..];
    } else {
      DeletedAt(entries[1..], key, i - 1);
      assert entries[1..][..i - 1] == entries[1..i] && entries[1..][i..] == entries[i + 1..];
      assert [entries[0]] + (entries[1..i] + entries[i + 1..]) == entries[..i] + entries[i + 1..];
    }
  }

  lemma {:induction false} LookupAt(entries: Entries, key: Key, i: nat)
    requires i < |entries| && entries[i].0 == key && forall j :: 0 <= j < i ==> entries[j].0 != key
    ensures Lookup(entries, key) == Some(entries[i].1)
    decreases i
  {
    if i > 0 {
      LookupAt(entries[1..], key, i - 1);
    }
  }

  /** The cache after a get: the entry of the key, if there is one, has moved to the end. */
  ghost predicate GetLaw(before: Entries, key: Key, after: Entries) {
    && (forall i :: 0 <= i < |before| && before[i].0 == key ==> after == before[..i] + before[i + 1..] + [before[i]])
    && ((forall i :: 0 <= i < |before| ==> before[i].0 != key) ==> after == before)
  }

  /** The cache after a set: the entry stands at the end, an older one of its key is gone, and of 257 the oldest is. */
  ghost predicate SetLaw(before: Entries, key: Key, value: StateMap, after: Entries) {
    && (forall i :: 0 <= i < |before| && before[i].0 == key ==> after == before[..i] + before[i + 1..] + [(key, value)])
    && ((forall i :: 0 <= i < |before| ==> before[i].0 != key) ==>
          after == if |before| < 256 then before + [(key, value)] else before[1..] + [(key, value)])
  }

  lemma KeysApart(entries: Entries, key: Key, i: nat)
    requires Distinct(Keys(entries)) && i < |entries| && entries[i].0 == key
    ensures forall j :: 0 <= j < |entries| && j != i ==> entries[j].0 != key
  {
    var keys := Keys(entries);
    forall j | 0 <= j < |entries| && j != i
      ensures entries[j].0 != key
    {
      assert keys[j] != keys[i];
    }
  }

  lemma GetFollowsLaw(ops: seq<Op>, key: Key)
    ensures GetLaw(Run(ops), key, Run(ops + [GetOp(key)]))
  {
    var before := Run(ops);
    assert (ops + [GetOp(key)])[..|ops|] == ops;
    RunKeysDistinct(ops);
    LookupIs(before, key);
    forall i | 0 <= i < |before| && before[i].0 == key
      ensures Run(ops + [GetOp(key)]) == before[..i] + before[i + 1..] + [before[i]]
    {
      KeysApart(before, key, i);
      DeletedAt(before, key, i);
      LookupAt(before, key, i);
    }
  }

  lemma SetFollowsLaw(ops: seq<Op>, key: Key, value: StateMap)
    ensures SetLaw(Run(ops), key, value, Run(ops + [SetOp(key, value)]))
  {
    var before := Run(ops);
    assert (ops + [SetOp(key, value)])[..|ops|] == ops;
    RunKeysDistinct(ops);
    RunKeepsMostRecent(ops);
    assert |Keys(before)| <= 256;
    forall i | 0 <= i < |before| && before[i].0 == key
      ensures Run(ops + [SetOp(key, value)]) == before[..i] + before[i + 1..] + [(key, value)]
    {
      KeysApart(before, key, i);
      DeletedAt(before, key, i);
    }
    if forall i :: 0 <= i < |before| ==> before[i].0 != key {
      DeletedAbsent(before, key);
      assert (before + [(key, value)])[1..] == if before == [] then [] else before[1..] + [(key, value)];
    }
  }

  // ---- Keys ----

  function PathKey(repoId: string, rootHash: string): Key {
    repoId + ":" + rootHash
  }

  lemma FirstColon(r: string, h: string)
    requires ':' !in r
    ensures PathKey(r, h)[|r|] == ':' && forall i :: 0 <= i < |r| ==> PathKey(r, h)[i] != ':'
    ensures PathKey(r, h)[..|r|] == r && PathKey(r, h)[|r| + 1..] == h
  {
    assert forall i :: 0 <= i < |r| ==> r[i] in r;
  }

  /** With no colon in repository ids, a key names one repository and one root. */
  lemma PathKeyInjective(r: string, h: string, r': string, h': string)
    requires ':' !in r && ':' !in r' && PathKey(r, h) == PathKey(r', h')
    ensures r == r' && h == h'
  {
    FirstColon(r, h);
    FirstColon(r', h');
  }

  /** Two repositories can share a key exactly when one id with its colon is a prefix of the other with its colon. */
  lemma PathKeysCollideIff(r: string, s: string)
    requires r != s
    ensures (exists h, k :: PathKey(r, h) == PathKey(s, k)) <==> r + ":" <= s + ":" || s + ":" <= r + ":"
  {
    if r + ":" <= s + ":" {
      KeyExtends(r, s);
    } else if s + ":" <= r + ":" {
      KeyExtends(s, r);
    } else if h, k :| PathKey(r, h) == PathKey(s, k) {
      OneIsPrefix(r + ":", h, s + ":", k);
    }
  }

  lemma KeyExtends(r: string, s: string)
    requires r + ":" <= s + ":"
    ensures exists h :: PathKey(r, h) == PathKey(s, "")
  {
    assert PathKey(r, (s + ":")[|r| + 1..]) == PathKey(s, "");
  }

  lemma OneIsPrefix(a: string, h: string, b: string, k: string)
    requires a + h == b + k
    ensures a <= b || b <= a
  {
    assert |a| <= |b| ==> a == (a + h)[..|a|] == (b + k)[..|a|] == b[..|a|];
    assert |b| <= |a| ==> b == (b + k)[..|b|] == (a + h)[..|b|] == a[..|b|];
  }

  // ---- The module's state ----

  /** Every set under a key of a colon-free repository id stored what materialising that root returns. */
  ghost predicate Faithful(ops: seq<Op>, materialize: (string, string) -> StateMap) {
    forall i, r, h :: 0 <= i < |ops| && ops[i].SetOp? && ':' !in r && ops[i].key == PathKey(r, h) ==> ops[i].value == materialize(r, h)
  }

  lemma GetStaysFaithful(ops: seq<Op>, key: Key, materialize: (string, string) -> StateMap)
    requires Faithful(ops, materialize)
    ensures Faithful(ops + [GetOp(key)], materialize)
  {
  }

  lemma SetStaysFaithful(ops: seq<Op>, r: string, h: string, materialize: (string, string) -> StateMap)
    requires Faithful(ops, materialize) && ':' !in r
    ensures Faithful(ops + [SetOp(PathKey(r, h), materialize(r, h))], materialize)
  {
    var more := ops + [SetOp(PathKey(r, h), materialize(r, h))];
    forall i, r', h' | 0 <= i < |more| && more[i].SetOp? && ':' !in r' && more[i].key == PathKey(r', h')
      ensures more[i].value == materialize(r', h')
    {
      if i == |ops| {
        PathKeyInjective(r, h, r', h');
      }
    }
  }

  lemma {:induction false} LatestIsSet(ops: seq<Op>, key: Key)
    ensures LatestSet(ops, key).Some? ==> exists i :: 0 <= i < |ops| && ops[i] == SetOp(key, LatestSet(ops, key).value)
    decreases |ops|
  {
    if ops != [] {
      var op := ops[|ops| - 1];
      if !(op.SetOp? && op.key == key) {
        LatestIsSet(ops[..|ops| - 1], key);
      }
    }
  }

  /** So what the cache holds for a root is what materialising it returns. */
  lemma HitIsMaterialized(ops: seq<Op>, r: string, h: string, materialize: (string, string) -> StateMap)
    requires Faithful(ops, materialize) && ':' !in r
    ensures Lookup(Run(ops), PathKey(r, h)).Some? ==> Lookup(Run(ops), PathKey(r, h)).value == materialize(r, h)
  {
    RunHoldsLatest(ops, PathKey(r, h));
    LatestIsSet(ops, PathKey(r, h));
  }

  class Cache {
    var pathTreeCache: Entries
    ghost var ops: seq<Op>
    /** What materialising a root returns: roots are immutable content addresses. */
    const materialize: (string, string) -> StateMap

    ghost predicate Valid()
      reads this
    {
      pathTreeCache == Run(ops) && Faithful(ops, materialize)
    }

    constructor (materialize: (string, string) -> StateMap)
      ensures Valid() && ops == [] && this.materialize == materialize
    {
      this.materialize := materialize;
      pathTreeCache, ops := [], [];
    }

    method PathCacheGet(key: Key) returns (hit: Option<StateMap>)
      requires pathTreeCache == Run(ops)
      modifies this
      ensures ops == old(ops) + [GetOp(key)] && pathTreeCache == Run(ops)
      ensures hit == Lookup(old(pathTreeCache), key)
    {
      ops := ops + [GetOp(key)];
      assert ops[..|ops| - 1] == old(ops);
      hit := Lookup(pathTreeCache, key);
      if hit.None? {
        return;
      }
      pathTreeCache := Deleted(pathTreeCache, key);
      pathTreeCache := pathTreeCache + [(key, hit.value)];
    }

    method PathCacheSet(key: Key, value: StateMap)
      requires pathTreeCache == Run(ops)
      modifies this
      ensures ops == old(ops) + [SetOp(key, value)] && pathTreeCache == Run(ops)
    {
      ops := ops + [SetOp(key, value)];
      assert ops[..|ops| - 1] == old(ops);
      pathTreeCache := Deleted(pathTreeCache, key);
      pathTreeCache := pathTreeCache + [(key, value)];
      ghost var all := pathTreeCache;
      while |pathTreeCache| > PATH_CACHE_MAX
        invariant |pathTreeCache| <= |all| && pathTreeCache == all[|all| - |pathTreeCache|..]
        invariant |all| >= PATH_CACHE_MAX ==> |pathTreeCache| >= PATH_CACHE_MAX
        invariant |all| < PATH_CACHE_MAX ==> pathTreeCache == all
        invariant ops == old(ops) + [SetOp(key, value)]
      {
        pathTreeCache := pathTreeCache[1..];
      }
    }

    /** Whatever was cached, primed or evicted before, the result is what materialising the root returns. */
    method GetStateTreePaths(repoId: string, stateRootHash: Option<string>) returns (paths: StateMap)
      requires Valid() && ':' !in repoId
      modifies this
      ensures Valid()
      ensures paths == if stateRootHash.None? || stateRootHash.value == "" then map[] else materialize(repoId, stateRootHash.value)
    {
      if stateRootHash.None? || stateRootHash.value == "" {
        return map[];
      }
      var key := PathKey(repoId, stateRootHash.value);
      HitIsMaterialized(ops, repoId, stateRootHash.value, materialize);
      GetStaysFaithful(ops, key, materialize);
      var hit := PathCacheGet(key);
      if hit.Some? {
        return hit.value;
      }
      paths := materialize(repoId, stateRootHash.value);
      SetStaysFaithful(ops, repoId, stateRootHash.value, materialize);
      PathCacheSet(key, paths);
    }

    /** Seeds the cache with a tree just built. */
    method PrimeStateTreePaths(repoId: string, rootHash: string, tree: StateMap)
      requires Valid() && ':' !in repoId && tree == materialize(repoId, rootHash)
      modifies this
      ensures Valid() && ops == old(ops) + [SetOp(PathKey(repoId, rootHash), tree)]
    {
      SetStaysFaithful(ops, repoId, rootHash, materialize);
      PathCacheSet(PathKey(repoId, rootHash), tree);
    }
  }
}
