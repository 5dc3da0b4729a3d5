/** The chained hash table of the performance tool: bucket heads, append-only entries, next links. */
module LookupTable {
  import opened Wrappers

  const TWO_64 := 0x1_0000_0000_0000_0000
  const SENTINEL: Word := 0xffff_ffff_ffff_ffff
  const ENOMEM := 12

  /** uint64_t. */
  type Word = x: int | 0 <= x < TWO_64

  type Entry = (Word, Word)

  // ---- The mask ----

  /** `a & b` on non-negative integers. */
  function And(a: nat, b: nat): nat
    decreases a
  {
    if a == 0 || b == 0 then 0 else (if a % 2 == 1 && b % 2 == 1 then 1 else 0) + 2 * And(a / 2, b / 2)
  }

  ghost predicate IsPowerOfTwo(n: nat)
    decreases n
  {
    n == 1 || (n > 1 && n % 2 == 0 && IsPowerOfTwo(n / 2))
  }

  /** For a power of two, masking with n - 1 is taking the remainder. */
  lemma {:induction false} MaskIsRemainder(a: nat, n: nat)
    requires IsPowerOfTwo(n)
    ensures And(a, n - 1) == a % n
    decreases n
  {
    if n > 1 {
      var h := n / 2;
      MaskStep(a, h);
      MaskIsRemainder(a / 2, h);
      HalfRemainder(a, h);
    }
  }

  lemma MaskStep(a: nat, h: nat)
    requires h >= 1
    ensures And(a, 2 * h - 1) == a % 2 + 2 * And(a / 2, h - 1)
  {
    assert (2 * h - 1) / 2 == h - 1 && (2 * h - 1) % 2 == 1;
  }

  lemma HalfRemainder(a: nat, h: nat)
    requires h >= 1
    ensures a % 2 + 2 * (a / 2 % h) == a % (2 * h)
  {
    var x := a / 2;
    var q, r := x / h, x % h;
    Doubled(q, h);
    RemainderUnique(a, 2 * h, q, 2 * r + a % 2);
  }

  lemma Doubled(q: nat, h: nat)
    ensures 2 * (q * h) == q * (2 * h)
  {
  }

  lemma RemainderUnique(a: nat, n: nat, q: nat, r: nat)
    requires n >= 1 && r < n && a == q * n + r
    ensures a % n == r
  {
    QuotientsEqual(n, q, r, a / n, a % n);
  }

  lemma QuotientsEqual(n: nat, q: nat, r: nat, p: nat, s: nat)
    requires r < n && s < n && q * n + r == p * n + s
    ensures r == s
  {
    Spread(q, p, n);
    Spread(p, q, n);
  }

  /** Multiples of n with different factors are at least n apart. */
  lemma {:induction false} Spread(q: nat, p: nat, n: nat)
    ensures q < p ==> q * n + n <= p * n
    decreases p
  {
    if q < p {
      assert p * n == (p - 1) * n + n;
      Spread(q, p - 1, n);
    }
  }

  /** The bucket of a key in a table with n buckets. */
  function Bucket(key: Word, n: nat): (b: nat)
    requires n >= 1
  {
    And(key, n - 1)
  }

  lemma BucketInRange(key: Word, n: nat)
    requires IsPowerOfTwo(n)
    ensures Bucket(key, n) < n
  {
    MaskIsRemainder(key, n);
  }

  // ---- The map a table stands for ----

  /** The earliest value written for the key. */
  function Find(log: seq<Entry>, key: Word): Option<Word> {
    if log == [] then None
    else if log[0].0 == key then Some(log[0].1)
    else Find(log[1..], key)
  }

  /** What a lookup answers: the earliest value, else the sentinel. */
  function FirstWrite(log: seq<Entry>, key: Word): Word {
    match Find(log, key) case None => SENTINEL case Some(v) => v
  }

  /** The value of the first entry of the key, and all ones when no entry has it. */
  ghost predicate Answers(log: seq<Entry>, key: Word, value: Word) {
    || (value == 0xffff_ffff_ffff_ffff && forall i :: 0 <= i < |log| ==> log[i].0 != key)
    || exists i :: 0 <= i < |log| && log[i] == (key, value) && forall j :: 0 <= j < i ==> log[j].0 != key
  }

  lemma {:induction false} FirstWriteAnswers(log: seq<Entry>, key: Word)
    ensures Answers(log, key, FirstWrite(log, key))
    decreases |log|
  {
    if log != [] && log[0].0 != key {
      var rest, value := log[1..], FirstWrite(log, key);
      FirstWriteAnswers(rest, key);
      assert forall j :: 0 < j < |log| ==> log[j] == rest[j - 1];
      if i :| 0 <= i < |rest| && rest[i] == (key, value) && forall j :: 0 <= j < i ==> rest[j].0 != key {
        assert log[i + 1] == (key, value);
      }
    } else if log != [] {
      assert log[0] == (key, FirstWrite(log, key));
    }
  }

  lemma {:induction false} FindAppend(a: seq<Entry>, b: seq<Entry>, key: Word)
    ensures Find(a + b, key) == if Find(a, key).Some? then Find(a, key) else Find(b, key)
    decreases |a|
  {
    if a == [] {
      assert a + b == b;
    } else {
      FindAppend(a[1..], b, key);
      assert (a + b)[1..] == a[1..] + b;
    }
  }

  lemma {:induction false} FindAt(log: seq<Entry>, key: Word, i: nat)
    requires i < |log| && log[i].0 == key && forall j :: 0 <= j < i ==> log[j].0 != key
    ensures Find(log, key) == Some(log[i].1)
    decreases i
  {
    if i > 0 {
      FindAt(log[1..], key, i - 1);
    }
  }

  lemma {:induction false} FindNone(log: seq<Entry>, key: Word)
    requires forall j :: 0 <= j < |log| ==> log[j].0 != key
    ensures Find(log, key) == None
    decreases |log|
  {
    if log != [] {
      FindNone(log[1..], key);
    }
  }

  // ---- Chains ----

  /** The first entry of bucket b at or after index `from`, else the sentinel. */
  function NextIn(keys: seq<Word>, n: nat, b: nat, from: nat): Word
    requires n >= 1 && |keys| < TWO_64
    decreases |keys| - from
  {
    if from >= |keys| then SENTINEL
    else if Bucket(keys[from], n) == b then from
    else NextIn(keys, n, b, from + 1)
  }

  lemma {:induction false} NextInIs(keys: seq<Word>, n: nat, b: nat, from: nat)
    requires n >= 1 && |keys| < TWO_64
    ensures var i := NextIn(keys, n, b, from);
            if i == SENTINEL then forall j :: from <= j < |keys| ==> Bucket(keys[j], n) != b
            else from <= i < |keys| && Bucket(keys[i], n) == b && forall j :: from <= j < i ==> Bucket(keys[j], n) != b
    decreases |keys| - from
  {
    if from < |keys| && Bucket(keys[from], n) != b {
      NextInIs(keys, n, b, from + 1);
    }
  }

  /** Appending a key extends only the end of its bucket's chain. */
  lemma {:induction false} NextInAppend(keys: seq<Word>, key: Word, n: nat, b: nat, from: nat)
    requires n >= 1 && |keys| + 1 < TWO_64
    ensures NextIn(keys + [key], n, b, from) ==
            if NextIn(keys, n, b, from) != SENTINEL then NextIn(keys, n, b, from)
            else if Bucket(key, n) == b && from <= |keys| then |keys| else SENTINEL
    decreases |keys| - from
  {
    if from < |keys| {
      assert (keys + [key])[from] == keys[from];
      if Bucket(keys[from], n) != b {
        NextInAppend(keys, key, n, b, from + 1);
      }
    } else if from == |keys| {
      assert (keys + [key])[from] == key;
      assert NextIn(keys + [key], n, b, from + 1) == SENTINEL;
    }
  }

  /** The indices a walk from the first entry of bucket b at or after `from` visits. */
  ghost function Chain(keys: seq<Word>, n: nat, b: nat, from: nat): (chain: seq<nat>)
    requires n >= 1 && |keys| < TWO_64
    ensures forall k :: 0 <= k < |chain| ==> chain[k] < |keys|
    decreases |keys| - from
  {
    var i := NextIn(keys, n, b, from);
    NextInIs(keys, n, b, from);
    if i == SENTINEL then [] else [i] + Chain(keys, n, b, i + 1)
  }

  /** Next links strictly increase, and a chain visits exactly the entries of its bucket: so every entry lies on
      exactly one chain, that of its own key. */
  lemma {:induction false} ChainVisits(keys: seq<Word>, n: nat, b: nat, from: nat)
    requires n >= 1 && |keys| < TWO_64
    ensures var chain := Chain(keys, n, b, from);
            && (forall i, j :: 0 <= i < j < |chain| ==> chain[i] < chain[j])
            && (forall i: nat :: i in chain <==> from <= i < |keys| && Bucket(keys[i], n) == b)
    decreases |keys| - from
  {
    var i := NextIn(keys, n, b, from);
    NextInIs(keys, n, b, from);
    if i != SENTINEL {
      ChainVisits(keys, n, b, i + 1);
      var rest := Chain(keys, n, b, i + 1);
      forall k | 0 <= k < |rest|
        ensures i < rest[k]
      {
        assert rest[k] in rest;
      }
    }
  }

  /** The walk for a key stands at an entry of its bucket or at the end, and no entry before has the key. */
  ghost predicate Searched(keys: seq<Word>, key: Word, n: nat, index: Word)
    requires n >= 1
  {
    && (index != SENTINEL ==> index < |keys| && Bucket(keys[index], n) == Bucket(key, n))
    && forall j :: 0 <= j < |keys| && (index == SENTINEL || j < index) ==> keys[j] != key
  }

  lemma SearchedFirst(keys: seq<Word>, key: Word, n: nat)
    requires n >= 1 && |keys| < TWO_64
    ensures Searched(keys, key, n, NextIn(keys, n, Bucket(key, n), 0))
  {
    NextInIs(keys, n, Bucket(key, n), 0);
  }

  lemma SearchedNext(keys: seq<Word>, key: Word, n: nat, index: Word)
    requires n >= 1 && |keys| < TWO_64 && Searched(keys, key, n, index) && index != SENTINEL && keys[index] != key
    ensures var next := NextIn(keys, n, Bucket(key, n), index + 1);
            Searched(keys, key, n, next) && (next != SENTINEL ==> index < next)
  {
    NextInIs(keys, n, Bucket(key, n), index + 1);
  }

  // ---- Bucket-by-bucket order, as copying visits a source table ----

  function Selected(log: seq<Entry>, n: nat, b: nat): seq<Entry>
    requires n >= 1
  {
    if log == [] then []
    else Selected(log[..|log| - 1], n, b) + if Bucket(log[|log| - 1].0, n) == b then [log[|log| - 1]] else []
  }

  function BucketOrder(log: seq<Entry>, n: nat, buckets: nat): seq<Entry>
    requires n >= 1
    decreases buckets
  {
    if buckets == 0 then [] else BucketOrder(log, n, buckets - 1) + Selected(log, n, buckets - 1)
  }

  lemma {:induction false} FindSelected(log: seq<Entry>, n: nat, b: nat, key: Word)
    requires n >= 1
    ensures Find(Selected(log, n, b), key) == if Bucket(key, n) == b then Find(log, key) else None
    decreases |log|
  {
    if log != [] {
      var init, last := log[..|log| - 1], log[|log| - 1];
      FindSelected(init, n, b, key);
      assert log == init + [last];
      FindAppend(init, [last], key);
      if Bucket(last.0, n) == b {
        FindAppend(Selected(init, n, b), [last], key);
      } else {
        assert Selected(log, n, b) == Selected(init, n, b);
      }
    }
  }

  lemma {:induction false} FindInOrder(log: seq<Entry>, n: nat, buckets: nat, key: Word)
    requires n >= 1
    ensures Find(BucketOrder(log, n, buckets), key) == if Bucket(key, n) < buckets then Find(log, key) else None
    decreases buckets
  {
    if buckets > 0 {
      FindInOrder(log, n, buckets - 1, key);
      FindSelected(log, n, buckets - 1, key);
      FindAppend(BucketOrder(log, n, buckets - 1), Selected(log, n, buckets - 1), key);
    }
  }

  ghost function CountBelow(log: seq<Entry>, n: nat, buckets: nat): nat
    requires n >= 1
  {
    if log == [] then 0
    else CountBelow(log[..|log| - 1], n, buckets) + if Bucket(log[|log| - 1].0, n) < buckets then 1 else 0
  }

  lemma {:induction false} CountSelected(log: seq<Entry>, n: nat, b: nat)
    requires n >= 1
    ensures CountBelow(log, n, b + 1) == CountBelow(log, n, b) + |Selected(log, n, b)|
    decreases |log|
  {
    if log != [] {
      CountSelected(log[..|log| - 1], n, b);
    }
  }

  lemma {:induction false} CountNone(log: seq<Entry>, n: nat)
    requires n >= 1
    ensures CountBelow(log, n, 0) == 0
    decreases |log|
  {
    if log != [] {
      CountNone(log[..|log| - 1], n);
    }
  }

  lemma {:induction false} CountAll(log: seq<Entry>, n: nat, b: nat)
    requires n >= 1 && forall i :: 0 <= i < |log| ==> Bucket(log[i].0, n) < b
    ensures CountBelow(log, n, b) == |log|
    decreases |log|
  {
    if log != [] {
      CountAll(log[..|log| - 1], n, b);
    }
  }

  lemma OrderNext(log: seq<Entry>, n: nat, b: nat)
    requires n >= 1
    ensures |BucketOrder(log, n, b + 1)| == |BucketOrder(log, n, b)| + |Selected(log, n, b)|
  {
  }

  /** The order up to bucket b has as many entries as have a bucket below b. */
  ghost predicate LengthIs(log: seq<Entry>, n: nat, b: nat)
    requires n >= 1
  {
    |BucketOrder(log, n, b)| == CountBelow(log, n, b)
  }

  lemma LengthNext(log: seq<Entry>, n: nat, b: nat)
    requires n >= 1 && LengthIs(log, n, b)
    ensures LengthIs(log, n, b + 1)
  {
    CountSelected(log, n, b);
    OrderNext(log, n, b);
  }

  lemma {:induction false} OrderLength(log: seq<Entry>, n: nat, buckets: nat)
    requires n >= 1
    ensures LengthIs(log, n, buckets)
    decreases buckets
  {
    if buckets == 0 {
      CountNone(log, n);
    } else {
      OrderLength(log, n, buckets - 1);
      LengthNext(log, n, buckets - 1);
    }
  }

  /** Copying bucket by bucket visits every entry once and keeps the earliest value of every key. */
  lemma CopyOrderKeepsAnswers(log: seq<Entry>, n: nat)
    requires IsPowerOfTwo(n)
    ensures |BucketOrder(log, n, n)| == |log|
    ensures forall key :: Find(BucketOrder(log, n, n), key) == Find(log, key)
  {
    forall i | 0 <= i < |log|
      ensures Bucket(log[i].0, n) < n
    {
      BucketInRange(log[i].0, n);
    }
    OrderLength(log, n, n);
    CountAll(log, n, n);
    forall key: Word
      ensures Find(BucketOrder(log, n, n), key) == Find(log, key)
    {
      BucketInRange(key, n);
      FindInOrder(log, n, n, key);
    }
  }

  function KeysOf(log: seq<Entry>): (keys: seq<Word>)
    ensures |keys| == |log| && forall i :: 0 <= i < |log| ==> keys[i] == log[i].0
  {
    seq(|log|, i requires 0 <= i < |log| => log[i].0)
  }

  /** Following a chain collects the entries of its bucket in log order. */
  lemma {:induction false} ChainCollects(log: seq<Entry>, n: nat, b: nat, i: nat)
    requires n >= 1 && |log| < TWO_64 && i <= |log|
    ensures var next := NextIn(KeysOf(log), n, b, i);
            if next == SENTINEL then Selected(log, n, b) == Selected(log[..i], n, b)
            else next < |log| && Selected(log[..next + 1], n, b) == Selected(log[..i], n, b) + [log[next]]
    decreases |log| - i
  {
    if i == |log| {
      assert log[..i] == log;
    } else {
      assert log[..i + 1][..i] == log[..i];
      if Bucket(log[i].0, n) != b {
        ChainCollects(log, n, b, i + 1);
        assert Selected(log[..i + 1], n, b) == Selected(log[..i], n, b);
      }
    }
  }

  /** The k-th index of a chain, or the sentinel behind its end. */
  function At(chain: seq<nat>, k: nat): int {
    if k < |chain| then chain[k] else SENTINEL
  }

  /** Starting from `first`, the links lead along the chain. */
  ghost predicate Walks(chain: seq<nat>, first: Word, links: seq<Word>, count: nat) {
    && first == At(chain, 0) && count <= |links| && (forall k :: 0 <= k < |chain| ==> chain[k] < count)
    && (forall j, k :: 0 <= j && k == j + 1 < |chain| ==> links[chain[j]] == chain[k])
    && (chain != [] ==> links[chain[|chain| - 1]] == SENTINEL)
  }

  /** In a linked table the links of bucket b lead along its chain. */
  lemma {:induction false} BucketWalks(keys: seq<Word>, n: nat, b: nat, from: nat, heads: seq<Word>, links: seq<Word>)
    requires n >= 1 && |keys| < TWO_64 && Links(keys, n, heads, links)
    ensures Walks(Chain(keys, n, b, from), NextIn(keys, n, b, from), links, |keys|)
    decreases |keys| - from
  {
    var i := NextIn(keys, n, b, from);
    NextInIs(keys, n, b, from);
    if i != SENTINEL {
      BucketWalks(keys, n, b, i + 1, heads, links);
    }
  }

  function EntriesAt(log: seq<Entry>, chain: seq<nat>): (entries: seq<Entry>)
    requires forall k :: 0 <= k < |chain| ==> chain[k] < |log|
    ensures |entries| == |chain| && forall k :: 0 <= k < |chain| ==> entries[k] == log[chain[k]]
  {
    seq(|chain|, k requires 0 <= k < |chain| => log[chain[k]])
  }

  lemma EntriesNext(log: seq<Entry>, chain: seq<nat>, k: nat)
    requires k < |chain| && forall j :: 0 <= j < |chain| ==> chain[j] < |log|
    ensures EntriesAt(log, chain[..k + 1]) == EntriesAt(log, chain[..k]) + [log[chain[k]]]
  {
  }

  lemma EntriesFirst(log: seq<Entry>, i: nat, rest: seq<nat>)
    requires i < |log| && forall k :: 0 <= k < |rest| ==> rest[k] < |log|
    ensures EntriesAt(log, [i] + rest) == [log[i]] + EntriesAt(log, rest)
  {
  }

  /** The entries along the chain of bucket b, behind those selected before, are all entries of the bucket. */
  lemma {:induction false} ChainSelects(log: seq<Entry>, n: nat, b: nat, from: nat)
    requires n >= 1 && |log| < TWO_64 && from <= |log|
    ensures Selected(log, n, b) == Selected(log[..from], n, b) + EntriesAt(log, Chain(KeysOf(log), n, b, from))
    decreases |log| - from
  {
    var keys := KeysOf(log);
    var chain, i := Chain(keys, n, b, from), NextIn(keys, n, b, from);
    NextInIs(keys, n, b, from);
    ChainCollects(log, n, b, from);
    if i == SENTINEL {
      assert EntriesAt(log, chain) == [];
    } else {
      ChainSelects(log, n, b, i + 1);
      EntriesFirst(log, i, Chain(keys, n, b, i + 1));
      Associate(Selected(log[..from], n, b), log[i], EntriesAt(log, Chain(keys, n, b, i + 1)));
    }
  }

  lemma Associate(a: seq<Entry>, e: Entry, b: seq<Entry>)
    ensures (a + [e]) + b == a + ([e] + b)
  {
  }

  /** Copying the chain of one more bucket completes its part of the order. */
  lemma BucketCopied(log: seq<Entry>, n: nat, b: nat)
    requires n >= 1 && |log| < TWO_64
    ensures BucketOrder(log, n, b) + EntriesAt(log, Chain(KeysOf(log), n, b, 0)) == BucketOrder(log, n, b + 1)
  {
    ChainSelects(log, n, b, 0);
    assert log[..0] == [];
  }

  function Zip(keys: seq<Word>, values: seq<Word>): (log: seq<Entry>)
    requires |keys| == |values|
    ensures |log| == |keys| && forall i :: 0 <= i < |keys| ==> log[i] == (keys[i], values[i])
  {
    seq(|keys|, i requires 0 <= i < |keys| => (keys[i], values[i]))
  }

  // ---- The table ----

  /** What a table of the given capacity keeps of a sequence of puts. */
  function Kept(capacity: nat, puts: seq<Entry>): seq<Entry> {
    if capacity < |puts| then puts[..capacity] else puts
  }

  lemma KeptNext(capacity: nat, puts: seq<Entry>, e: Entry)
    ensures Kept(capacity, puts + [e]) ==
            if |Kept(capacity, puts)| == capacity then Kept(capacity, puts) else Kept(capacity, puts) + [e]
  {
  }

  /** A table with room for the whole source answers as the source does. */
  lemma KeptAnswers(log: seq<Entry>, n: nat, capacity: nat)
    requires IsPowerOfTwo(n)
    ensures |log| <= capacity ==>
              forall key :: FirstWrite(Kept(capacity, BucketOrder(log, n, n)), key) == FirstWrite(log, key)
  {
    CopyOrderKeepsAnswers(log, n);
  }

  /** Bucket heads and next links name the next entry of their bucket; unused links hold the sentinel. */
  ghost predicate Links(keys: seq<Word>, n: nat, heads: seq<Word>, next: seq<Word>)
    requires n >= 1 && |keys| < TWO_64
  {
    && |heads| == n && |keys| <= |next|
    && (forall b :: 0 <= b < n ==> heads[b] == NextIn(keys, n, b, 0))
    && (forall i :: 0 <= i < |keys| ==> next[i] == NextIn(keys, n, Bucket(keys[i], n), i + 1))
    && (forall i :: |keys| <= i < |next| ==> next[i] == SENTINEL)
  }

  /** Appending a key to an empty bucket: its head is set. */
  lemma LinkHead(keys: seq<Word>, key: Word, n: nat, heads: seq<Word>, next: seq<Word>)
    requires n >= 1 && |keys| + 1 < TWO_64 && Links(keys, n, heads, next) && |keys| < |next|
    requires var b := Bucket(key, n); b < n && heads[b] == SENTINEL
    ensures Links(keys + [key], n, heads[Bucket(key, n) := |keys|], next)
  {
    var b := Bucket(key, n);
    var after := keys + [key];
    NextInIs(keys, n, b, 0);
    forall c | 0 <= c < n
      ensures heads[b := |keys|][c] == NextIn(after, n, c, 0)
    {
      NextInAppend(keys, key, n, c, 0);
    }
    forall i | 0 <= i < |after|
      ensures next[i] == NextIn(after, n, Bucket(after[i], n), i + 1)
    {
      if i < |keys| {
        assert after[i] == keys[i];
        NextInAppend(keys, key, n, Bucket(keys[i], n), i + 1);
      }
    }
  }

  /** Appending a key behind the last entry of its bucket leaves every head as it is. */
  lemma HeadKept(keys: seq<Word>, key: Word, n: nat, last: nat, c: nat)
    requires n >= 1 && |keys| + 1 < TWO_64
    requires last < |keys| && Bucket(keys[last], n) == Bucket(key, n)
    ensures NextIn(keys + [key], n, c, 0) == NextIn(keys, n, c, 0)
  {
    NextInIs(keys, n, c, 0);
    NextInAppend(keys, key, n, c, 0);
  }

  /** Before the last entry of a bucket every entry of it has a successor. */
  lemma HasSuccessor(keys: seq<Word>, n: nat, last: nat, i: nat)
    requires n >= 1 && |keys| < TWO_64 && i < last < |keys| && Bucket(keys[last], n) == Bucket(keys[i], n)
    ensures NextIn(keys, n, Bucket(keys[i], n), i + 1) != SENTINEL
  {
    NextInIs(keys, n, Bucket(keys[i], n), i + 1);
  }

  lemma NoneBehind(keys: seq<Word>, n: nat, last: nat, i: nat)
    requires n >= 1 && |keys| < TWO_64 && last < i < |keys|
    requires NextIn(keys, n, Bucket(keys[last], n), last + 1) == SENTINEL
    ensures Bucket(keys[i], n) != Bucket(keys[last], n)
  {
    NextInIs(keys, n, Bucket(keys[last], n), last + 1);
  }

  /** And changes only the link of that last entry. */
  lemma LinkOf(keys: seq<Word>, key: Word, n: nat, last: nat, i: nat)
    requires n >= 1 && |keys| + 1 < TWO_64 && i < |keys|
    requires last < |keys| && Bucket(keys[last], n) == Bucket(key, n) && NextIn(keys, n, Bucket(key, n), last + 1) == SENTINEL
    ensures NextIn(keys + [key], n, Bucket(keys[i], n), i + 1) == if i == last then |keys| else NextIn(keys, n, Bucket(keys[i], n), i + 1)
  {
    NextInAppend(keys, key, n, Bucket(keys[i], n), i + 1);
    if last < i {
      NoneBehind(keys, n, last, i);
    } else if i < last && Bucket(keys[i], n) == Bucket(key, n) {
      HasSuccessor(keys, n, last, i);
    }
  }

  /** Appending a key behind the last entry of its bucket: that entry's link is set. */
  lemma LinkLast(keys: seq<Word>, key: Word, n: nat, heads: seq<Word>, next: seq<Word>, last: nat)
    requires n >= 1 && |keys| + 1 < TWO_64 && Links(keys, n, heads, next) && |keys| < |next|
    requires last < |keys| && Bucket(keys[last], n) == Bucket(key, n) < n && next[last] == SENTINEL
    ensures Links(keys + [key], n, heads, next[last := |keys|])
  {
    var after := keys + [key];
    forall c | 0 <= c < n
      ensures heads[c] == NextIn(after, n, c, 0)
    {
      HeadKept(keys, key, n, last, c);
    }
    forall i | 0 <= i < |after|
      ensures next[last := |keys|][i] == NextIn(after, n, Bucket(after[i], n), i + 1)
    {
      if i < |keys| {
        assert after[i] == keys[i];
        LinkOf(keys, key, n, last, i);
      }
    }
  }

  /** The bucket count of a table: the least power of two that is at least half the capacity. */
  method TableSize(capacity: nat) returns (tableSize: nat)
    ensures IsPowerOfTwo(tableSize) && tableSize >= capacity / 2
    ensures tableSize == 1 || tableSize / 2 < capacity / 2
  {
    tableSize := 1;
    while tableSize < capacity / 2
      invariant IsPowerOfTwo(tableSize) && (tableSize == 1 || tableSize / 2 < capacity / 2)
      decreases capacity - tableSize
    {
      tableSize := tableSize * 2;
    }
  }

  class Table {
    var bucketCount: nat
    var nextFreeIndex: nat
    var capacity: nat
    var count: nat
    var buckets: array<Word>
    var keys: array<Word>
    var values: array<Word>
    var nextIndex: array<Word>

    ghost predicate Shape()
      reads this
    {
      && IsPowerOfTwo(bucketCount) && buckets.Length == bucketCount
      && keys.Length == values.Length == nextIndex.Length == capacity < TWO_64
      && count == nextFreeIndex <= capacity
      && buckets != keys && buckets != values && buckets != nextIndex
      && keys != values && keys != nextIndex && values != nextIndex
    }

    /** Bucket heads and next links name the next entry of their bucket. */
    ghost predicate Linked()
      requires Shape()
      reads this, buckets, keys, nextIndex
    {
      Links(keys[..count], bucketCount, buckets[..], nextIndex[..])
    }

    ghost predicate Valid()
      reads this, buckets, keys, nextIndex
    {
      Shape() && Linked()
    }

    /** The successful puts, in order. */
    ghost function Log(): (log: seq<Entry>)
      requires Shape()
      reads this, keys, values
      ensures |log| == count
    {
      Zip(keys[..count], values[..count])
    }

    /** The walk to the last entry of a chain. */
    method LastOfChain(ghost before: seq<Word>, ghost n: nat, ghost links: seq<Word>, bucketIndex: nat, first: Word) returns (index: Word)
      requires nextIndex[..] == links && n >= 1 && |before| < TWO_64 && |before| <= |links|
      requires forall i :: 0 <= i < |before| ==> links[i] == NextIn(before, n, Bucket(before[i], n), i + 1)
      requires first < |before| && Bucket(before[first], n) == bucketIndex
      ensures index < |before| && Bucket(before[index], n) == bucketIndex && links[index] == SENTINEL
    {
      index := first;
      var next := nextIndex[index];
      while next != SENTINEL
        invariant index < |before| && Bucket(before[index], n) == bucketIndex && next == links[index]
        decreases |before| - index
      {
        NextInIs(before, n, bucketIndex, index + 1);
        index := next;
        next := nextIndex[index];
      }
    }

    /** Makes the last appended entry reachable: as the head of its bucket, or behind the last of its chain. */
    method LinkEntry(ghost before: seq<Word>, key: Word, bucketIndex: nat, entryIndex: Word)
      requires Shape() && count == |before| + 1 && keys[..count] == before + [key] && entryIndex == |before|
      requires Links(before, bucketCount, buckets[..], nextIndex[..])
      requires bucketIndex == Bucket(key, bucketCount) < bucketCount
      modifies buckets, nextIndex
      ensures Links(before + [key], bucketCount, buckets[..], nextIndex[..])
    {
      ghost var heads, links := buckets[..], nextIndex[..];
      var index := buckets[bucketIndex];
      if index == SENTINEL {
        buckets[bucketIndex] := entryIndex;
        LinkHead(before, key, bucketCount, heads, links);
        assert buckets[..] == heads[bucketIndex := entryIndex];
        return;
      }
      NextInIs(before, bucketCount, bucketIndex, 0);
      index := LastOfChain(before, bucketCount, links, bucketIndex, index);
      nextIndex[index] := entryIndex;
      LinkLast(before, key, bucketCount, heads, links, index);
      assert nextIndex[..] == links[index := entryIndex];
    }

    method Put(key: Word, value: Word) returns (err: int)
      requires Valid()
      modifies this`nextFreeIndex, this`count, buckets, keys, values, nextIndex
      ensures Valid() && capacity == old(capacity) && bucketCount == old(bucketCount)
      ensures err == if old(count) == capacity then 12 else 0
      ensures Log() == if old(count) == capacity then old(Log()) else old(Log()) + [(key, value)]
    {
      if nextFreeIndex == capacity {
        return ENOMEM;
      }
      ghost var before := keys[..count];
      ghost var log := Log();
      var entryIndex := nextFreeIndex;
      nextFreeIndex := nextFreeIndex + 1;
      keys[entryIndex] := key;
      values[entryIndex] := value;
      count := count + 1;
      assert keys[..count] == before + [key];
      assert Log() == log + [(key, value)];
      var bucketIndex := Bucket(key, bucketCount);
      BucketInRange(key, bucketCount);
      LinkEntry(before, key, bucketIndex, entryIndex);
      return 0;
    }

    /** The walk along the key's chain: it stops at the earliest entry of the key. */
    method Search(key: Word) returns (index: Word)
      requires Valid()
      ensures if index == SENTINEL then forall j :: 0 <= j < count ==> keys[j] != key
              else index < count && keys[index] == key && forall j :: 0 <= j < index ==> keys[j] != key
    {
      ghost var ks := keys[..count];
      var bucketIndex := Bucket(key, bucketCount);
      BucketInRange(key, bucketCount);
      index := buckets[bucketIndex];
      SearchedFirst(ks, key, bucketCount);
      while index != SENTINEL && keys[index] != key
        invariant Searched(ks, key, bucketCount, index)
        decreases if index == SENTINEL then 0 else |ks| - index + 1
      {
        SearchedNext(ks, key, bucketCount, index);
        index := nextIndex[index];
      }
      assert forall j :: 0 <= j < count ==> ks[j] == keys[j];
    }

    method Get(key: Word) returns (value: Word)
      requires Valid()
      ensures value == FirstWrite(Log(), key)
      ensures Answers(Log(), key, value)
    {
      FirstWriteAnswers(Log(), key);
      var index := Search(key);
      if index == SENTINEL {
        FindNone(Log(), key);
        return SENTINEL;
      }
      FindAt(Log(), key, index);
      value := values[index];
    }

    /** An empty table: every link and bucket holds the sentinel. */
    constructor (capacity: nat)
      requires capacity < TWO_64
      ensures Valid() && Log() == [] && this.capacity == capacity
      ensures fresh(buckets) && fresh(keys) && fresh(values) && fresh(nextIndex)
    {
      var tableSize := TableSize(capacity);
      this.bucketCount := tableSize;
      this.nextFreeIndex, this.capacity, this.count := 0, capacity, 0;
      this.buckets := new Word[tableSize](_ => SENTINEL);
      this.keys := new Word[capacity](_ => SENTINEL);
      this.values := new Word[capacity](_ => SENTINEL);
      this.nextIndex := new Word[capacity](_ => SENTINEL);
    }

    /** Creates a table, copying the entries of an optional source bucket by bucket until it is full. */
    static method Create(capacity: nat, source: Table?) returns (lut: Table)
      requires capacity < TWO_64
      requires source != null ==> source.Valid()
      ensures fresh(lut) && fresh(lut.buckets) && fresh(lut.keys) && fresh(lut.values) && fresh(lut.nextIndex)
      ensures lut.Valid() && lut.capacity == capacity
      ensures source == null ==> lut.Log() == []
      ensures source != null ==> lut.Holds(BucketOrder(source.Log(), source.bucketCount, source.bucketCount))
      ensures source != null && source.count <= capacity ==>
                forall key :: FirstWrite(lut.Log(), key) == FirstWrite(source.Log(), key)
    {
      lut := new Table(capacity);
      if source != null {
        lut.CopyFrom(source);
        KeptAnswers(source.Log(), source.bucketCount, capacity);
      }
    }

    /** The log of a well-formed table. */
    ghost function Contents(): Option<seq<Entry>>
      reads this, buckets, keys, values, nextIndex
    {
      if Valid() then Some(Log()) else None
    }

    /** The table holds what its capacity allows of the given puts. */
    ghost predicate Holds(puts: seq<Entry>)
      reads this, buckets, keys, values, nextIndex
    {
      Contents() == Some(Kept(capacity, puts))
    }

    /** No array of the source is an array of this table. */
    ghost predicate ApartFrom(source: Table)
      reads this, source
    {
      source != this && {source.buckets, source.keys, source.values, source.nextIndex} !! {buckets, keys, values, nextIndex}
    }

    /** The source, apart from this table, holds the given log and links. */
    ghost predicate Reads(source: Table, log: seq<Entry>, links: seq<Word>)
      reads this, source, source.buckets, source.keys, source.values, source.nextIndex
    {
      ApartFrom(source) && source.Contents() == Some(log) && source.nextIndex[..] == links
    }

    /** Copies one entry of the source. */
    method CopyEntry(source: Table, index: nat, ghost log: seq<Entry>, ghost links: seq<Word>, ghost puts: seq<Entry>)
      requires Holds(puts) && Reads(source, log, links) && index < |log|
      modifies this`nextFreeIndex, this`count, buckets, keys, values, nextIndex
      ensures Reads(source, log, links) && Holds(puts + [log[index]])
    {
      KeptNext(capacity, puts, log[index]);
      var _ := Put(source.keys[index], source.values[index]);
    }

    /** Copies the entries along a chain of the source. */
    method CopyChain(source: Table, first: Word, ghost chain: seq<nat>, ghost log: seq<Entry>, ghost links: seq<Word>, ghost puts: seq<Entry>)
      requires Reads(source, log, links) && Walks(chain, first, links, |log|) && Holds(puts)
      modifies this`nextFreeIndex, this`count, buckets, keys, values, nextIndex
      ensures Reads(source, log, links) && Holds(puts + EntriesAt(log, chain))
    {
      var index := first;
      ghost var k := 0;
      ghost var copied := puts;
      while index != SENTINEL
        invariant Reads(source, log, links) && k <= |chain| && index == At(chain, k)
        invariant Holds(copied) && copied == puts + EntriesAt(log, chain[..k])
        decreases |chain| - k
      {
        EntriesNext(log, chain, k);
        CopyEntry(source, index, log, links, copied);
        copied := copied + [log[index]];
        index := source.nextIndex[index];
        k := k + 1;
      }
      assert chain[..k] == chain;
    }

    method CopyBucket(source: Table, i: nat, ghost log: seq<Entry>, ghost links: seq<Word>)
      requires Reads(source, log, links) && i < source.bucketCount && Holds(BucketOrder(log, source.bucketCount, i))
      modifies this`nextFreeIndex, this`count, buckets, keys, values, nextIndex
      ensures Reads(source, log, links) && Holds(BucketOrder(log, source.bucketCount, i + 1))
    {
      ghost var chain := Chain(KeysOf(log), source.bucketCount, i, 0);
      assert KeysOf(log) == source.keys[..source.count];
      BucketWalks(KeysOf(log), source.bucketCount, i, 0, source.buckets[..], links);
      CopyChain(source, source.buckets[i], chain, log, links, BucketOrder(log, source.bucketCount, i));
      BucketCopied(log, source.bucketCount, i);
    }

    method CopyFrom(source: Table)
      requires Holds([]) && source.Valid() && ApartFrom(source)
      modifies this`nextFreeIndex, this`count, buckets, keys, values, nextIndex
      ensures Holds(BucketOrder(source.Log(), source.bucketCount, source.bucketCount))
    {
      ghost var log, links := source.Log(), source.nextIndex[..];
      for i := 0 to source.bucketCount
        invariant Reads(source, log, links) && Holds(BucketOrder(log, source.bucketCount, i))
      {
        CopyBucket(source, i, log, links);
      }
    }
  }
}
