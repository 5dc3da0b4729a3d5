/** The argument parser's typo suggestion: edit distance by dynamic programming, and the most similar string. */
module Levenshtein {

  // ---- The distance as a recurrence ----

  function Min(a: nat, b: nat): nat {
    if a <= b then a else b
  }

  function Min3(a: nat, b: nat, c: nat): nat {
    Min(a, Min(b, c))
  }

  function Init(s: string): string
    requires s != ""
  {
    s[..|s| - 1]
  }

  function Last(s: string): char
    requires s != ""
  {
    s[|s| - 1]
  }

  function Mismatch(a: char, b: char): nat {
    if a == b then 0 else 1
  }

  /** The textbook distance: the best of deleting, inserting, and substituting or keeping the last character. */
  function Distance(s: string, t: string): nat
    decreases |s| + |t|
  {
    if s == "" then |t|
    else if t == "" then |s|
    else Min3(Distance(Init(s), t) + 1, Distance(s, Init(t)) + 1,
              Distance(Init(s), Init(t)) + Mismatch(Last(s), Last(t)))
  }

  /** Neighbouring cells differ by at most one. */
  lemma {:induction false} Neighbours(s: string, t: string)
    ensures s != "" ==> Distance(s, t) <= Distance(Init(s), t) + 1 && Distance(Init(s), t) <= Distance(s, t) + 1
    ensures t != "" ==> Distance(s, t) <= Distance(s, Init(t)) + 1 && Distance(s, Init(t)) <= Distance(s, t) + 1
    decreases |s| + |t|
  {
    if s != "" && t != "" {
      Neighbours(Init(s), t);
      Neighbours(s, Init(t));
      Neighbours(Init(s), Init(t));
    }
  }

  /** Equal last characters make the diagonal the minimum, so no minimum has to be taken. */
  lemma EqualLast(s: string, t: string)
    requires s != "" && t != "" && Last(s) == Last(t)
    ensures Distance(s, t) == Distance(Init(s), Init(t))
  {
    Neighbours(Init(s), t);
    Neighbours(s, Init(t));
  }

  // ---- Metric laws ----

  lemma {:induction false} ZeroIffEqual(s: string, t: string)
    ensures Distance(s, t) == 0 <==> s == t
    decreases |s| + |t|
  {
    if s != "" && t != "" {
      ZeroIffEqual(Init(s), Init(t));
      assert s == Init(s) + [Last(s)] && t == Init(t) + [Last(t)];
    }
  }

  lemma {:induction false} Symmetric(s: string, t: string)
    ensures Distance(s, t) == Distance(t, s)
    decreases |s| + |t|
  {
    if s != "" && t != "" {
      Symmetric(Init(s), t);
      Symmetric(s, Init(t));
      Symmetric(Init(s), Init(t));
    }
  }

  lemma {:induction false} Triangle(a: string, b: string, c: string)
    ensures Distance(a, c) <= Distance(a, b) + Distance(b, c)
    decreases |a| + |b| + |c|
  {
    if a == "" || b == "" || c == "" {
      LengthBound(a, b);
      LengthBound(b, c);
      SumBound(a, c);
    } else {
      Neighbours(a, c);
      if Distance(a, b) == Distance(Init(a), b) + 1 {
        Triangle(Init(a), b, c);
      } else if Distance(b, c) == Distance(b, Init(c)) + 1 {
        Triangle(a, b, Init(c));
      } else if Distance(a, b) == Distance(a, Init(b)) + 1 {
        if Distance(b, c) == Distance(Init(b), c) + 1 {
          Triangle(a, Init(b), c);
        } else {
          Triangle(a, Init(b), Init(c));
        }
      } else if Distance(b, c) == Distance(Init(b), c) + 1 {
        Triangle(Init(a), Init(b), c);
      } else {
        Triangle(Init(a), Init(b), Init(c));
      }
    }
  }

  lemma {:induction false} LengthBound(s: string, t: string)
    ensures |s| <= |t| + Distance(s, t) && |t| <= |s| + Distance(s, t)
    decreases |s| + |t|
  {
    if s != "" && t != "" {
      LengthBound(Init(s), t);
      LengthBound(s, Init(t));
      LengthBound(Init(s), Init(t));
    }
  }

  lemma {:induction false} SumBound(s: string, t: string)
    ensures Distance(s, t) <= |s| + |t|
    decreases |s| + |t|
  {
    if s != "" && t != "" {
      SumBound(Init(s), t);
    }
  }

  // ---- The distance as a number of edits ----

  datatype Edit = Insert(at: nat, c: char) | Delete(at: nat) | Substitute(at: nat, c: char)

  predicate Applies(e: Edit, s: string) {
    match e
    case Insert(at, _) => at <= |s|
    case Delete(at) => at < |s|
    case Substitute(at, _) => at < |s|
  }

  function Apply(e: Edit, s: string): string
    requires Applies(e, s)
  {
    match e
    case Insert(at, c) => s[..at] + [c] + s[at..]
    case Delete(at) => s[..at] + s[at + 1..]
    case Substitute(at, c) => s[..at] + [c] + s[at + 1..]
  }

  /** The edits, applied in order, turn s into t. */
  predicate Turns(edits: seq<Edit>, s: string, t: string)
    decreases |edits|
  {
    if edits == [] then s == t
    else Applies(edits[0], s) && Turns(edits[1..], Apply(edits[0], s), t)
  }

  /** A common suffix does not add to the distance. */
  lemma {:induction false} CommonSuffix(u: string, v: string, w: string)
    ensures Distance(u + w, v + w) <= Distance(u, v)
    decreases |w|
  {
    if w == "" {
      assert u + w == u && v + w == v;
    } else {
      CommonSuffix(u, v, Init(w));
      assert Init(u + w) == u + Init(w) && Init(v + w) == v + Init(w);
    }
  }

  /** One edit moves a string by at most one. */
  lemma OneEdit(e: Edit, s: string)
    requires Applies(e, s)
    ensures Distance(s, Apply(e, s)) <= 1
  {
    match e
    case Insert(at, c) =>
      var u := s[..at];
      assert s == u + s[at..] && Apply(e, s) == (u + [c]) + s[at..];
      AddLast(u, c);
      CommonSuffix(u, u + [c], s[at..]);
    case Delete(at) =>
      var u := s[..at];
      assert s == (u + [s[at]]) + s[at + 1..] && Apply(e, s) == u + s[at + 1..];
      AddLast(u, s[at]);
      Symmetric(u, u + [s[at]]);
      CommonSuffix(u + [s[at]], u, s[at + 1..]);
    case Substitute(at, c) =>
      var u := s[..at];
      assert s == (u + [s[at]]) + s[at + 1..] && Apply(e, s) == (u + [c]) + s[at + 1..];
      ChangeLast(u, s[at], c);
      CommonSuffix(u + [s[at]], u + [c], s[at + 1..]);
  }

  lemma AddLast(u: string, c: char)
    ensures Distance(u, u + [c]) <= 1
  {
    ZeroIffEqual(u, u);
    Neighbours(u, u + [c]);
    assert Init(u + [c]) == u;
  }

  lemma ChangeLast(u: string, b: char, c: char)
    ensures Distance(u + [b], u + [c]) <= 1
  {
    ZeroIffEqual(u, u);
    assert Init(u + [b]) == u && Init(u + [c]) == u;
  }

  /** No sequence of edits from s to t is shorter than the distance. */
  lemma {:induction false} NoShorterEdits(edits: seq<Edit>, s: string, t: string)
    requires Turns(edits, s, t)
    ensures Distance(s, t) <= |edits|
    decreases |edits|
  {
    if edits == [] {
      ZeroIffEqual(s, t);
    } else {
      var next := Apply(edits[0], s);
      OneEdit(edits[0], s);
      NoShorterEdits(edits[1..], next, t);
      Triangle(s, next, t);
    }
  }

  lemma {:induction false} TurnsThen(first: seq<Edit>, second: seq<Edit>, s: string, m: string, t: string)
    requires Turns(first, s, m) && Turns(second, m, t)
    ensures Turns(first + second, s, t)
    decreases |first|
  {
    if first == [] {
      assert first + second == second;
    } else {
      var next := Apply(first[0], s);
      TurnsThen(first[1..], second, next, m, t);
      TurnsFirst(first[0], first[1..] + second, s, t);
      FirstApart(first, second);
    }
  }

  lemma FirstApart(first: seq<Edit>, second: seq<Edit>)
    requires first != []
    ensures [first[0]] + (first[1..] + second) == first + second
  {
  }

  lemma TurnsFirst(e: Edit, edits: seq<Edit>, s: string, t: string)
    requires Applies(e, s) && Turns(edits, Apply(e, s), t)
    ensures Turns([e] + edits, s, t)
  {
    assert ([e] + edits)[1..] == edits;
  }

  /** Edits that fit a prefix leave what follows it alone. */
  lemma {:induction false} TurnsWithSuffix(edits: seq<Edit>, s: string, t: string, w: string)
    requires Turns(edits, s, t)
    ensures Turns(edits, s + w, t + w)
    decreases |edits|
  {
    if edits != [] {
      ApplyWithSuffix(edits[0], s, w);
      TurnsWithSuffix(edits[1..], Apply(edits[0], s), t, w);
    }
  }

  lemma ApplyWithSuffix(e: Edit, s: string, w: string)
    requires Applies(e, s)
    ensures Applies(e, s + w) && Apply(e, s + w) == Apply(e, s) + w
  {
    SlicesWithSuffix(s, w, e.at);
    match e
    case Insert(at, c) => Reassociate(s[..at], [c], s[at..], w);
    case Delete(at) =>
      SlicesWithSuffix(s, w, at + 1);
      Reassociate(s[..at], [], s[at + 1..], w);
      assert s[..at] + [] == s[..at];
    case Substitute(at, c) =>
      SlicesWithSuffix(s, w, at + 1);
      Reassociate(s[..at], [c], s[at + 1..], w);
  }

  lemma SlicesWithSuffix(s: string, w: string, at: nat)
    requires at <= |s|
    ensures (s + w)[..at] == s[..at] && (s + w)[at..] == s[at..] + w
  {
  }

  lemma Reassociate(a: string, b: string, c: string, d: string)
    ensures a + b + (c + d) == (a + b + c) + d
  {
  }

  /** Some sequence of edits from s to t is as short as the distance. */
  lemma {:induction false} ShortestEdits(s: string, t: string) returns (edits: seq<Edit>)
    ensures Turns(edits, s, t) && |edits| == Distance(s, t)
    decreases |s| + |t|
  {
    if s == "" && t == "" {
      edits := [];
    } else if t == "" || (s != "" && Distance(s, t) == Distance(Init(s), t) + 1) {
      edits := EditsByDelete(s, t);
    } else if s == "" || Distance(s, t) == Distance(s, Init(t)) + 1 {
      edits := EditsByInsert(s, t);
    } else {
      edits := EditsByDiagonal(s, t);
    }
  }

  lemma InsertLast(u: string, c: char)
    ensures Turns([Insert(|u|, c)], u, u + [c])
  {
  }

  lemma SubstituteLast(u: string, b: char, c: char)
    ensures Turns([Substitute(|u|, c)], u + [b], u + [c])
  {
  }

  lemma DeleteLast(s: string)
    requires s != ""
    ensures Turns([Delete(|s| - 1)], s, Init(s))
  {
  }

  lemma SplitLast(s: string)
    requires s != ""
    ensures Init(s) + [Last(s)] == s
  {
  }

  lemma EditsByInsert(s: string, t: string) returns (edits: seq<Edit>)
    requires t != "" && Distance(s, t) == Distance(s, Init(t)) + 1
    ensures Turns(edits, s, t) && |edits| == Distance(s, t)
    decreases |s| + |t|, 0
  {
    var rest := ShortestEdits(s, Init(t));
    var last := [Insert(|Init(t)|, Last(t))];
    SplitLast(t);
    InsertLast(Init(t), Last(t));
    TurnsThen(rest, last, s, Init(t), t);
    edits := rest + last;
  }

  lemma EditsByDiagonal(s: string, t: string) returns (edits: seq<Edit>)
    requires s != "" && t != "" && Distance(s, t) == Distance(Init(s), Init(t)) + Mismatch(Last(s), Last(t))
    ensures Turns(edits, s, t) && |edits| == Distance(s, t)
    decreases |s| + |t|, 0
  {
    edits := ShortestEdits(Init(s), Init(t));
    SplitLast(s);
    SplitLast(t);
    TurnsWithSuffix(edits, Init(s), Init(t), [Last(s)]);
    if Last(s) != Last(t) {
      var last := [Substitute(|Init(t)|, Last(t))];
      SubstituteLast(Init(t), Last(s), Last(t));
      TurnsThen(edits, last, s, Init(t) + [Last(s)], t);
      edits := edits + last;
    }
  }

  lemma EditsByDelete(s: string, t: string) returns (edits: seq<Edit>)
    requires s != "" && Distance(s, t) == Distance(Init(s), t) + 1
    ensures Turns(edits, s, t) && |edits| == Distance(s, t)
    decreases |s| + |t|, 0
  {
    var first := [Delete(|s| - 1)];
    DeleteLast(s);
    var rest := ShortestEdits(Init(s), t);
    TurnsThen(first, rest, s, Init(s), t);
    edits := first + rest;
  }

  /** The distance is the least number of single-character edits. */
  lemma DistanceIsLeastEdits(s: string, t: string, n: nat)
    ensures (exists edits :: Turns(edits, s, t) && |edits| == n) ==> Distance(s, t) <= n
    ensures exists edits :: Turns(edits, s, t) && |edits| == Distance(s, t)
  {
    forall edits | Turns(edits, s, t)
      ensures Distance(s, t) <= |edits|
    {
      NoShorterEdits(edits, s, t);
    }
    var edits := ShortestEdits(s, t);
  }

  // ---- The table ----

  /** The rows and cells filled so far hold the distances of the prefixes they stand for. */
  ghost predicate Filled(dp: array2<nat>, s: string, t: string, rows: nat, cells: nat)
    reads dp
  {
    && dp.Length0 == |s| + 1 && dp.Length1 == |t| + 1
    && forall i, j :: 0 <= i < dp.Length0 && 0 <= j < dp.Length1 && (i < rows || (i == rows && j < cells)) ==>
         dp[i, j] == Distance(s[..i], t[..j])
  }

  /** One cell from its three neighbours, taking the diagonal without a minimum on equal characters. */
  lemma CellValue(s: string, t: string, i: nat, j: nat)
    requires 0 < i <= |s| && 0 < j <= |t|
    ensures Distance(s[..i], t[..j]) ==
            if s[i - 1] == t[j - 1] then Distance(s[..i - 1], t[..j - 1])
            else 1 + Min3(Distance(s[..i - 1], t[..j]), Distance(s[..i], t[..j - 1]), Distance(s[..i - 1], t[..j - 1]))
  {
    assert Init(s[..i]) == s[..i - 1] && Init(t[..j]) == t[..j - 1];
    if s[i - 1] == t[j - 1] {
      EqualLast(s[..i], t[..j]);
    }
  }

  method FillCell(dp: array2<nat>, s1: string, s2: string, i: nat, j: nat)
    requires Filled(dp, s1, s2, i, j) && i <= |s1| && j <= |s2|
    modifies dp
    ensures Filled(dp, s1, s2, i, j + 1)
  {
    if i == 0 {
      dp[i, j] := j;
    } else if j == 0 {
      dp[i, j] := i;
    } else {
      CellValue(s1, s2, i, j);
      if s1[i - 1] == s2[j - 1] {
        dp[i, j] := dp[i - 1, j - 1];
      } else {
        dp[i, j] := 1 + Min3(dp[i - 1, j], dp[i, j - 1], dp[i - 1, j - 1]);
      }
    }
  }

  method GetLevenshteinDistance(s1: string, s2: string) returns (distance: nat)
    ensures distance == Distance(s1, s2)
  {
    var dp := new nat[|s1| + 1, |s2| + 1]((_, _) => 0);
    for i := 0 to |s1| + 1
      invariant Filled(dp, s1, s2, i, 0)
    {
      for j := 0 to |s2| + 1
        invariant Filled(dp, s1, s2, i, j)
      {
        FillCell(dp, s1, s2, i, j);
      }
    }
    assert s1[..|s1|] == s1 && s2[..|s2|] == s2;
    distance := dp[|s1|, |s2|];
  }

  /** i is the first key, in the map's order, at the least distance from the input. */
  ghost predicate FirstNearest(keys: seq<string>, input: string, i: nat) {
    && i < |keys|
    && (forall j :: 0 <= j < |keys| ==> Distance(keys[i], input) <= Distance(keys[j], input))
    && (forall j :: 0 <= j < i ==> Distance(keys[i], input) < Distance(keys[j], input))
  }

  lemma FirstNearestUnique(keys: seq<string>, input: string, i: nat, j: nat)
    requires FirstNearest(keys, input, i) && FirstNearest(keys, input, j)
    ensures i == j
  {
    assert Distance(keys[i], input) == Distance(keys[j], input);
  }

  /** The first of the first n indices at the least value among them. */
  ghost function LeastIndex(values: seq<nat>, n: nat): (i: nat)
    requires 0 < n <= |values|
    ensures i < n && (forall j :: 0 <= j < n ==> values[i] <= values[j]) && (forall j :: 0 <= j < i ==> values[i] < values[j])
  {
    if n == 1 then 0
    else
      var best := LeastIndex(values, n - 1);
      if values[n - 1] < values[best] then n - 1 else best
  }

  ghost function Distances(keys: seq<string>, input: string): (distances: seq<nat>)
    ensures |distances| == |keys| && forall k :: 0 <= k < |keys| ==> distances[k] == Distance(keys[k], input)
  {
    seq(|keys|, k requires 0 <= k < |keys| => Distance(keys[k], input))
  }

  ghost function Nearest(keys: seq<string>, input: string): (i: nat)
    requires keys != []
    ensures FirstNearest(keys, input, i)
  {
    var distances := Distances(keys, input);
    assert forall k :: 0 <= k < |keys| ==> Distance(keys[k], input) == distances[k];
    LeastIndex(distances, |keys|)
  }

  const SIZE_MAX := 0xffff_ffff_ffff_ffff

  /** The state of the search after n keys. */
  ghost predicate Best(keys: seq<string>, n: nat, input: string, index: nat, mostSimilar: string, minDistance: nat) {
    && n <= |keys|
    && if n == 0 then mostSimilar == "" && minDistance == SIZE_MAX
       else FirstNearest(keys[..n], input, index) && mostSimilar == keys[index] && minDistance == Distance(keys[index], input)
  }

  lemma BestNext(keys: seq<string>, n: nat, input: string, index: nat, mostSimilar: string, minDistance: nat)
    requires n < |keys| && Best(keys, n, input, index, mostSimilar, minDistance)
    requires Distance(keys[n], input) < SIZE_MAX
    ensures if Distance(keys[n], input) < minDistance then Best(keys, n + 1, input, n, keys[n], Distance(keys[n], input))
            else Best(keys, n + 1, input, index, mostSimilar, minDistance)
  {
    var more := keys[..n + 1];
    assert forall k :: 0 <= k < n ==> more[k] == keys[..n][k];
    assert more[n] == keys[n];
  }

  /** The keys of the map in its iteration order; no distance reaches the initial maximum. */
  method GetMostSimilarString(keys: seq<string>, input: string) returns (mostSimilar: string, ghost index: nat)
    requires forall k :: k in keys ==> |k| + |input| < SIZE_MAX
    ensures keys == [] ==> mostSimilar == ""
    ensures keys != [] ==> FirstNearest(keys, input, index)
    ensures keys != [] ==> index < |keys| && mostSimilar == keys[index]
    ensures forall k :: 0 <= k < |keys| ==> Distance(mostSimilar, input) <= Distance(keys[k], input)
    ensures forall k :: 0 <= k < |keys| && k < index ==> Distance(mostSimilar, input) < Distance(keys[k], input)
  {
    mostSimilar, index := "", 0;
    var minDistance: nat := SIZE_MAX;
    for n := 0 to |keys|
      invariant Best(keys, n, input, index, mostSimilar, minDistance)
    {
      var distance := GetLevenshteinDistance(keys[n], input);
      SumBound(keys[n], input);
      BestNext(keys, n, input, index, mostSimilar, minDistance);
      if distance < minDistance {
        minDistance := distance;
        mostSimilar := keys[n];
        index := n;
      }
    }
    assert keys[..|keys|] == keys;
  }
}
