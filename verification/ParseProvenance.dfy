/** Where a parse puts every token: which argument stores it, and why. */
module ParseProvenance {
  import opened Wrappers
  import opened DecimalLiteral
  import opened Levenshtein
  import opened ArgumentParser

  // ---- What one call of `consume` takes ----

  ghost predicate StoresSlice(values: seq<Value>, tokens: seq<string>, start: nat, next: nat)
    requires start <= next <= |tokens|
  {
    |values| == next - start && forall i :: 0 <= i < |values| ==> values[i] == Token(tokens[start + i])
  }

  /** Without choices: the default, or from the minimum to the maximum of tokens, none option-like unless allowed. */
  ghost predicate TookAny(s: Settings, tokens: seq<string>, start: nat, end: nat, next: nat, values: seq<Value>)
    requires start <= next <= end <= |tokens|
  {
    if s.maxArgs == 0 then next == start && values == [Implicit]
    else if end - start < s.minArgs then s.hasDefault && next == start && values == []
    else
      && s.minArgs <= next - start <= s.maxArgs && StoresSlice(values, tokens, start, next)
      && (s.acceptsOptionalLike || forall i :: start <= i < next ==> !OptionLike(tokens[i], s.prefixChars))
      && (next == end || next - start == s.maxArgs || (!s.acceptsOptionalLike && OptionLike(tokens[next], s.prefixChars)))
  }

  /** run tokens from start are choices, and no more. */
  ghost predicate ChoiceRun(choices: seq<string>, tokens: seq<string>, start: nat, end: nat, run: nat)
    requires start <= end <= |tokens|
  {
    && start + run <= end && (forall i :: start <= i < start + run ==> tokens[i] in choices)
    && (start + run < end ==> tokens[start + run] !in choices)
  }

  /** With choices: the leading run of choices, or its part before an option-like token unless those are allowed. */
  ghost predicate TookChoices(s: Settings, tokens: seq<string>, start: nat, end: nat, next: nat, values: seq<Value>, run: nat)
    requires start <= next <= end <= |tokens| && s.choices.Some? && ChoiceRun(s.choices.value, tokens, start, end, run)
  {
    && (start + run < end ==> s.minArgs <= run <= s.maxArgs)
    && if run == 0 then next == start && values == [Implicit]
       else if end - start < s.minArgs then s.hasDefault && next == start && values == []
       else
         && s.minArgs <= next - start <= run && StoresSlice(values, tokens, start, next)
         && (s.acceptsOptionalLike || forall i :: start <= i < next ==> !OptionLike(tokens[i], s.prefixChars))
         && (next == start + run || (!s.acceptsOptionalLike && OptionLike(tokens[next], s.prefixChars)))
  }

  ghost predicate Took(s: Settings, tokens: seq<string>, start: nat, end: nat, next: nat, values: seq<Value>) {
    && start <= next <= end <= |tokens|
    && (s.choices.None? ==> TookAny(s, tokens, start, end, next, values))
    && (s.choices.Some? ==>
          exists run: nat :: ChoiceRun(s.choices.value, tokens, start, end, run) && TookChoices(s, tokens, start, end, next, values, run))
  }

  lemma ConsumeTook(s: Settings, used: bool, tokens: seq<string>, start: nat, end: nat)
    requires start <= end <= |tokens| && s.minArgs <= s.maxArgs && ConsumeResult(s, used, tokens, start, end).Success?
    ensures var (next, values) := ConsumeResult(s, used, tokens, start, end).result;
            !(used && !s.repeatable) && Took(s, tokens, start, end, next, values)
  {
    var (next, values) := ConsumeResult(s, used, tokens, start, end).result;
    if s.choices.Some? {
      var run := Passed(s.choices.value, tokens, start, end);
      assert ChoiceRun(s.choices.value, tokens, start, end, run);
      assert TookChoices(s, tokens, start, end, next, values, run);
    }
  }

  // ---- Takes ----

  /** Why an argument took tokens: its name stands at an index, it is letter j of a compound at an index, it is the
      positional number pos, or it is the last positional, for which the last token is kept back. */
  datatype Why = Name(at: nat) | Letter(at: nat, j: nat) | Place(pos: nat) | Reserved

  /** Argument arg took the tokens from start to next, none from bound on, and stored the values. */
  datatype Take = Take(arg: nat, start: nat, next: nat, bound: nat, values: seq<Value>, why: Why)

  /** A token that is looked up as an option, and one that is split into letters when the lookup fails. */
  ghost predicate IsName(lay: Layout, token: string) {
    OptionLike(token, lay.prefixChars) && token in lay.argumentMap
  }

  ghost predicate IsLetters(lay: Layout, token: string) {
    && OptionLike(token, lay.prefixChars) && token !in lay.argumentMap
    && |token| > 1 && token[0] in lay.prefixChars && token[1] !in lay.prefixChars
  }

  /** The reason holds of the layout and the tokens. */
  ghost predicate Holds(lay: Layout, tokens: seq<string>, t: Take) {
    match t.why
    case Name(at) => at < |tokens| && t.start == at + 1 && IsName(lay, tokens[at]) && lay.argumentMap[tokens[at]] == t.arg
    case Letter(at, j) =>
      && at < |tokens| && at < t.start && IsLetters(lay, tokens[at]) && 1 <= j < |tokens[at]|
      && ['-', tokens[at][j]] in lay.argumentMap && lay.argumentMap[['-', tokens[at][j]]] == t.arg
    case Place(pos) =>
      && pos < |lay.positionals| && lay.positionals[pos] == t.arg
      && t.start < |tokens| && !OptionLike(tokens[t.start], lay.prefixChars)
    case Reserved => lay.positionals != [] && t.arg == lay.positionals[|lay.positionals| - 1]
  }

  /** The takes in which an argument has taken what it takes at that place. */
  ghost function ProperTakes(lay: Layout, tokens: seq<string>): iset<Take> {
    iset t: Take | t.arg < |lay.settings| && Took(lay.settings[t.arg], tokens, t.start, t.bound, t.next, t.values)
  }

  /** It is one of those, and its reason holds. */
  ghost predicate Justified(lay: Layout, tokens: seq<string>, t: Take) {
    t in ProperTakes(lay, tokens) && t.start <= t.next <= t.bound <= |tokens| && t.arg < |lay.settings| && Holds(lay, tokens, t)
  }

  /** Where the reading of a take begins: at its name, or where its tokens begin. */
  function Head(t: Take): nat {
    match t.why
    case Name(at) => at
    case Letter(at, j) => if j == 1 then at else t.start
    case _ => t.start
  }

  /** What argument k gains, in order. */
  function Gains(takes: seq<Take>, k: nat): seq<Value> {
    if takes == [] then []
    else Gains(takes[..|takes| - 1], k) + if takes[|takes| - 1].arg == k then takes[|takes| - 1].values else []
  }

  lemma {:induction false} GainsJoin(a: seq<Take>, b: seq<Take>, k: nat)
    ensures Gains(a + b, k) == Gains(a, k) + Gains(b, k)
    decreases |b|
  {
    if b == [] {
      assert a + b == a;
    } else {
      GainsJoin(a, b[..|b| - 1], k);
      assert (a + b)[..|a + b| - 1] == a + b[..|b| - 1];
    }
  }

  /** The positionals that took a token, in order. */
  function Places(takes: seq<Take>): seq<nat> {
    if takes == [] then []
    else Places(takes[..|takes| - 1]) + if takes[|takes| - 1].why.Place? then [takes[|takes| - 1].why.pos] else []
  }

  lemma {:induction false} PlacesJoin(a: seq<Take>, b: seq<Take>)
    ensures Places(a + b) == Places(a) + Places(b)
    decreases |b|
  {
    if b == [] {
      assert a + b == a;
    } else {
      PlacesJoin(a, b[..|b| - 1]);
      assert (a + b)[..|a + b| - 1] == a + b[..|b| - 1];
    }
  }

  // ---- What explains a parse ----

  /** One to any number of tokens for the positional pos, and exactly one for the last behind it. */
  ghost predicate KeepsOneBack(lay: Layout, pos: nat) {
    && pos + 2 == |lay.positionals|
    && lay.positionals[pos] < |lay.settings| && lay.positionals[pos + 1] < |lay.settings|
    && lay.settings[lay.positionals[pos]].minArgs == 1 && lay.settings[lay.positionals[pos]].maxArgs == 0xffff_ffff_ffff_ffff
    && lay.settings[lay.positionals[pos + 1]].minArgs == 1 && lay.settings[lay.positionals[pos + 1]].maxArgs == 1
  }

  ghost predicate StoredAt(takes: seq<Take>, i: nat) {
    exists k :: 0 <= k < |takes| && takes[k].start <= i < takes[k].next
  }

  ghost predicate TakenFor(takes: seq<Take>, why: Why) {
    exists k :: 0 <= k < |takes| && takes[k].why == why
  }

  /** The token at i is a name that took its turn, or a compound all of whose letters did. */
  ghost predicate ReadAt(lay: Layout, tokens: seq<string>, takes: seq<Take>, i: nat)
    requires i < |tokens|
  {
    || (IsName(lay, tokens[i]) && TakenFor(takes, Name(i)))
    || (IsLetters(lay, tokens[i]) && forall j :: 1 <= j < |tokens[i]| ==> TakenFor(takes, Letter(i, j)))
  }

  /** Takes in order, each justified, one behind the other from `it` on and within `end`. */
  ghost predicate InOrder(lay: Layout, tokens: seq<string>, takes: seq<Take>, it: nat, stop: nat, last: nat, end: nat) {
    && it <= stop <= last <= end <= |tokens|
    && (forall k :: 0 <= k < |takes| ==> Justified(lay, tokens, takes[k]))
    && (forall k :: 0 <= k < |takes| && !takes[k].why.Reserved? ==> it <= Head(takes[k]) && takes[k].next <= stop)
    && (forall k, m :: 0 <= k < m < |takes| && !takes[k].why.Reserved? && !takes[m].why.Reserved? ==> takes[k].next <= Head(takes[m]))
  }

  /** The reserved token is the one between last and end, if there is one, and limits what is taken after it. */
  ghost predicate ReservedLast(takes: seq<Take>, last: nat, end: nat) {
    && (last == end || last + 1 == end)
    && (forall k :: 0 <= k < |takes| && takes[k].why.Reserved? ==> last < end && takes[k].start == last && takes[k].next == end)
    && (last < end ==> TakenFor(takes, Reserved))
    && (forall k :: 0 <= k < |takes| ==>
          takes[k].bound == if exists r :: 0 <= r < k && takes[r].why.Reserved? then last else end)
  }

  /** Every index from `it` to stop is stored or read as a name. */
  ghost predicate Covered(lay: Layout, tokens: seq<string>, takes: seq<Take>, it: nat, stop: nat) {
    stop <= |tokens| && forall i: nat :: it <= i < stop ==> StoredAt(takes, i) || ReadAt(lay, tokens, takes, i)
  }

  /** Positionals take their turns in order from pos on, and one token is kept back exactly at the turn that asks for it. */
  ghost predicate PlacesFollow(lay: Layout, takes: seq<Take>, pos: nat) {
    && pos + |Places(takes)| <= |lay.positionals|
    && (forall n :: 0 <= n < |Places(takes)| ==> Places(takes)[n] == pos + n)
    && (TakenFor(takes, Reserved) <==> exists p :: p in Places(takes) && KeepsOneBack(lay, p))
  }

  /** The takes tell how the tokens from `it` to stop were read, starting at positional pos, with the last one kept back
      or not. */
  ghost predicate Explains(lay: Layout, tokens: seq<string>, takes: seq<Take>, pos: nat, it: nat, stop: nat, last: nat, end: nat) {
    && InOrder(lay, tokens, takes, it, stop, last, end) && ReservedLast(takes, last, end)
    && Covered(lay, tokens, takes, it, stop) && PlacesFollow(lay, takes, pos)
  }

  /** The arguments after the takes, one after the other. */
  function After(cells: seq<Cell>, takes: seq<Take>): (after: seq<Cell>)
    ensures |after| == |cells|
  {
    if takes == [] then cells
    else
      var before, t := After(cells, takes[..|takes| - 1]), takes[|takes| - 1];
      if t.arg < |before| then before[t.arg := Cell(true, before[t.arg].values + t.values)] else before
  }

  /** Argument k is among those that took something. */
  ghost predicate Takes(takes: seq<Take>, k: nat) {
    exists m :: 0 <= m < |takes| && takes[m].arg == k
  }

  lemma TakesLast(takes: seq<Take>, k: nat)
    requires takes != []
    ensures Takes(takes, k) <==> Takes(takes[..|takes| - 1], k) || takes[|takes| - 1].arg == k
  {
    var init := takes[..|takes| - 1];
    if m :| 0 <= m < |takes| && takes[m].arg == k {
      assert m < |init| ==> init[m].arg == k;
    }
    if m :| 0 <= m < |init| && init[m].arg == k {
      assert takes[m].arg == k;
    }
  }

  /** Every argument holds what it held and what it took, and is used when it took something or was used before. */
  ghost predicate Gained(before: seq<Cell>, after: seq<Cell>, takes: seq<Take>) {
    && |after| == |before|
    && (forall k :: 0 <= k < |after| ==> after[k].values == before[k].values + Gains(takes, k))
    && (forall k :: 0 <= k < |after| ==> (after[k].isUsed <==> before[k].isUsed || Takes(takes, k)))
  }

  // ---- Putting takes together ----

  lemma JoinInOrder(lay: Layout, tokens: seq<string>, a: seq<Take>, b: seq<Take>, it: nat, mid: nat, stop: nat, last: nat, e: nat, end: nat)
    requires InOrder(lay, tokens, a, it, mid, e, end) && InOrder(lay, tokens, b, mid, stop, last, e)
    ensures InOrder(lay, tokens, a + b, it, stop, last, end)
  {
    var ab := a + b;
    assert forall k :: 0 <= k < |ab| ==> ab[k] == if k < |a| then a[k] else b[k - |a|];
  }

  lemma JoinReserved(a: seq<Take>, b: seq<Take>, last: nat, e: nat, end: nat)
    requires ReservedLast(a, e, end) && ReservedLast(b, last, e) && (e < end ==> last == e)
    ensures ReservedLast(a + b, last, end)
  {
    var ab := a + b;
    assert forall k :: 0 <= k < |a| ==> ab[k] == a[k];
    assert forall k :: 0 <= k < |b| ==> ab[|a| + k] == b[k];
    TakenJoin(a, b, Reserved);
    forall k | 0 <= k < |ab|
      ensures ab[k].bound == if exists r :: 0 <= r < k && ab[r].why.Reserved? then last else end
      ensures ab[k].why.Reserved? ==> last < end && ab[k].start == last && ab[k].next == end
    {
      if k < |a| {
        assert (exists r :: 0 <= r < k && ab[r].why.Reserved?) <==> (exists r :: 0 <= r < k && a[r].why.Reserved?);
      } else {
        var m := k - |a|;
        assert ab[k] == b[m];
        if r :| 0 <= r < m && b[r].why.Reserved? {
          assert ab[|a| + r].why.Reserved?;
        }
        if r :| 0 <= r < |a| && a[r].why.Reserved? {
          assert ab[r].why.Reserved?;
        }
        if r :| 0 <= r < k && ab[r].why.Reserved? {
          assert r < |a| ==> a[r].why.Reserved?;
          assert r >= |a| ==> b[r - |a|].why.Reserved?;
        }
        assert e < end ==> exists r :: 0 <= r < |a| && a[r].why.Reserved?;
      }
    }
  }

  lemma TakenJoin(a: seq<Take>, b: seq<Take>, why: Why)
    ensures TakenFor(a + b, why) <==> TakenFor(a, why) || TakenFor(b, why)
  {
    var ab := a + b;
    assert forall k :: 0 <= k < |a| ==> ab[k] == a[k];
    assert forall k :: 0 <= k < |b| ==> ab[|a| + k] == b[k];
    if k :| 0 <= k < |ab| && ab[k].why == why {
      assert k < |a| ==> a[k].why == why;
      assert k >= |a| ==> b[k - |a|].why == why;
    }
  }

  lemma StoredJoin(a: seq<Take>, b: seq<Take>, i: nat)
    ensures StoredAt(a, i) || StoredAt(b, i) ==> StoredAt(a + b, i)
  {
    var ab := a + b;
    if k :| 0 <= k < |a| && a[k].start <= i < a[k].next {
      assert ab[k].start <= i < ab[k].next;
    }
    if k :| 0 <= k < |b| && b[k].start <= i < b[k].next {
      assert ab[|a| + k].start <= i < ab[|a| + k].next;
    }
  }

  lemma ReadJoin(lay: Layout, tokens: seq<string>, a: seq<Take>, b: seq<Take>, i: nat)
    requires i < |tokens|
    ensures ReadAt(lay, tokens, a, i) || ReadAt(lay, tokens, b, i) ==> ReadAt(lay, tokens, a + b, i)
  {
    TakenJoin(a, b, Name(i));
    forall j | 1 <= j < |tokens[i]|
      ensures TakenFor(a, Letter(i, j)) || TakenFor(b, Letter(i, j)) ==> TakenFor(a + b, Letter(i, j))
    {
      TakenJoin(a, b, Letter(i, j));
    }
  }

  lemma JoinCovered(lay: Layout, tokens: seq<string>, a: seq<Take>, b: seq<Take>, it: nat, mid: nat, stop: nat)
    requires it <= mid <= stop <= |tokens| && Covered(lay, tokens, a, it, mid) && Covered(lay, tokens, b, mid, stop)
    ensures Covered(lay, tokens, a + b, it, stop)
  {
    forall i: nat | it <= i < stop
      ensures StoredAt(a + b, i) || ReadAt(lay, tokens, a + b, i)
    {
      StoredJoin(a, b, i);
      ReadJoin(lay, tokens, a, b, i);
    }
  }

  lemma JoinPlaces(lay: Layout, a: seq<Take>, b: seq<Take>, pos: nat)
    requires PlacesFollow(lay, a, pos) && PlacesFollow(lay, b, pos + |Places(a)|)
    ensures PlacesFollow(lay, a + b, pos)
    ensures TakenFor(a, Reserved) ==> !TakenFor(b, Reserved)
  {
    PlacesJoin(a, b);
    TakenJoin(a, b, Reserved);
    if TakenFor(a, Reserved) {
      var p :| p in Places(a) && KeepsOneBack(lay, p);
      forall q | q in Places(b)
        ensures !KeepsOneBack(lay, q)
      {
        var n :| 0 <= n < |Places(b)| && Places(b)[n] == q;
      }
    }
  }

  lemma JoinExplains(lay: Layout, tokens: seq<string>, a: seq<Take>, b: seq<Take>, pos: nat, it: nat, mid: nat, e: nat, stop: nat, last: nat, end: nat)
    requires Explains(lay, tokens, a, pos, it, mid, e, end)
    requires Explains(lay, tokens, b, pos + |Places(a)|, mid, stop, last, e)
    ensures Explains(lay, tokens, a + b, pos, it, stop, last, end)
  {
    JoinPlaces(lay, a, b, pos);
    JoinInOrder(lay, tokens, a, b, it, mid, stop, last, e, end);
    JoinReserved(a, b, last, e, end);
    JoinCovered(lay, tokens, a, b, it, mid, stop);
  }

  lemma {:induction false} AfterJoin(cells: seq<Cell>, a: seq<Take>, b: seq<Take>)
    ensures After(cells, a + b) == After(After(cells, a), b)
    decreases |b|
  {
    if b == [] {
      assert a + b == a;
    } else {
      AfterJoin(cells, a, b[..|b| - 1]);
      assert (a + b)[..|a + b| - 1] == a + b[..|b| - 1];
    }
  }

  lemma {:induction false} AfterGains(cells: seq<Cell>, takes: seq<Take>, k: nat)
    requires k < |cells| && forall m :: 0 <= m < |takes| ==> takes[m].arg < |cells|
    ensures After(cells, takes)[k].values == cells[k].values + Gains(takes, k)
    ensures After(cells, takes)[k].isUsed <==> cells[k].isUsed || Takes(takes, k)
    decreases |takes|
  {
    if takes != [] {
      AfterGains(cells, takes[..|takes| - 1], k);
      TakesLast(takes, k);
    }
  }

  lemma AfterGained(cells: seq<Cell>, takes: seq<Take>)
    requires forall m :: 0 <= m < |takes| ==> takes[m].arg < |cells|
    ensures Gained(cells, After(cells, takes), takes)
  {
    forall k | 0 <= k < |cells|
      ensures After(cells, takes)[k].values == cells[k].values + Gains(takes, k)
      ensures After(cells, takes)[k].isUsed <==> cells[k].isUsed || Takes(takes, k)
    {
      AfterGains(cells, takes, k);
    }
  }

  // ---- One take ----

  ghost predicate Sized(lay: Layout) {
    forall k :: 0 <= k < |lay.settings| ==> lay.settings[k].minArgs <= lay.settings[k].maxArgs
  }

  lemma AfterOne(cells: seq<Cell>, t: Take)
    requires t.arg < |cells|
    ensures After(cells, [t]) == cells[t.arg := Cell(true, cells[t.arg].values + t.values)]
  {
    assert [t][..0] == [];
  }

  /** A call of `consume` that does not fail is one take. */
  lemma OneTake(lay: Layout, cells: seq<Cell>, k: nat, tokens: seq<string>, start: nat, bound: nat, why: Why) returns (t: Take)
    requires k < |lay.settings| == |cells| && start <= bound <= |tokens| && Sized(lay)
    requires ConsumeAt(lay, cells, k, tokens, start, bound).0.Success?
    ensures t.arg == k && t.start == start && t.bound == bound && t.why == why && t.next == ConsumeAt(lay, cells, k, tokens, start, bound).0.result
    ensures t in ProperTakes(lay, tokens) && start <= t.next <= bound
    ensures ConsumeAt(lay, cells, k, tokens, start, bound).1 == After(cells, [t])
  {
    ConsumeTook(lay.settings[k], cells[k].isUsed, tokens, start, bound);
    var (next, values) := ConsumeResult(lay.settings[k], cells[k].isUsed, tokens, start, bound).result;
    t := Take(k, start, next, bound, values, why);
    AfterOne(cells, t);
  }

  /** One take outside the kept-back token, as an explanation of its own. */
  lemma OneExplains(lay: Layout, tokens: seq<string>, t: Take, pos: nat, it: nat, end: nat)
    requires Justified(lay, tokens, t) && t.bound == end && it <= Head(t) && !t.why.Reserved?
    requires t.why.Place? ==> t.why.pos == pos < |lay.positionals| && !KeepsOneBack(lay, pos)
    requires !t.why.Place? ==> pos <= |lay.positionals|
    requires Covered(lay, tokens, [t], it, t.next) && it <= t.next <= end <= |tokens|
    ensures Explains(lay, tokens, [t], pos, it, t.next, end, end)
    ensures |Places([t])| == if t.why.Place? then 1 else 0
  {
    assert [t][..0] == [];
    assert Places([t]) == if t.why.Place? then [t.why.pos] else [];
    assert !TakenFor([t], Reserved);
  }

  // ---- One turn ----

  /** The letters of the compound at index `at` from number j on, one behind the other. */
  ghost predicate LettersRead(lay: Layout, tokens: seq<string>, takes: seq<Take>, at: nat, j: nat, from: nat, stop: nat, end: nat) {
    && at < |tokens| && j <= |tokens[at]| && |takes| == |tokens[at]| - j && from <= stop <= end <= |tokens|
    && (forall k :: 0 <= k < |takes| ==>
          Justified(lay, tokens, takes[k]) && takes[k].why == Letter(at, j + k) && takes[k].bound == end
          && from <= takes[k].start && takes[k].next <= stop)
    && (forall k, m :: 0 <= k < m < |takes| ==> takes[k].next <= takes[m].start)
    && (forall i: nat :: from <= i < stop ==> StoredAt(takes, i))
  }

  ghost function LetterReadings(lay: Layout, tokens: seq<string>, at: nat, j: nat, from: nat, stop: nat, end: nat): iset<seq<Take>> {
    iset takes | LettersRead(lay, tokens, takes, at, j, from, stop, end)
  }

  lemma LettersFirst(lay: Layout, tokens: seq<string>, t: Take, rest: seq<Take>, at: nat, j: nat, from: nat, stop: nat, end: nat)
    requires at < |tokens| && j < |tokens[at]| && from <= t.next && rest in LetterReadings(lay, tokens, at, j + 1, t.next, stop, end)
    requires Justified(lay, tokens, t) && t.why == Letter(at, j) && t.bound == end && t.start == from
    ensures [t] + rest in LetterReadings(lay, tokens, at, j, from, stop, end)
  {
    var takes := [t] + rest;
    assert takes[0] == t && forall k :: 0 < k < |takes| ==> takes[k] == rest[k - 1];
    forall i: nat | from <= i < stop
      ensures StoredAt(takes, i)
    {
      if i < t.next {
        assert takes[0].start <= i < takes[0].next;
      } else {
        StoredJoin([t], rest, i);
      }
    }
  }

  lemma {:induction false} CompoundTakes(lay: Layout, cells: seq<Cell>, tokens: seq<string>, at: nat, j: nat, from: nat, end: nat)
    returns (takes: seq<Take>)
    requires lay.Valid() && Sized(lay) && |cells| == |lay.settings| && at < from <= end <= |tokens|
    requires IsLetters(lay, tokens[at]) && 1 <= j <= |tokens[at]|
    requires Compound(lay, cells, tokens, tokens[at], j, from, end).0.Success?
    ensures var (r, after) := Compound(lay, cells, tokens, tokens[at], j, from, end);
            takes in LetterReadings(lay, tokens, at, j, from, r.result, end) && after == After(cells, takes)
    decreases |tokens[at]| - j
  {
    if j == |tokens[at]| {
      takes := [];
      assert LettersRead(lay, tokens, takes, at, j, from, from, end);
    } else {
      var k := lay.argumentMap[['-', tokens[at][j]]];
      var mid := ConsumeAt(lay, cells, k, tokens, from, end).1;
      var t := OneTake(lay, cells, k, tokens, from, end, Letter(at, j));
      var rest := CompoundTakes(lay, mid, tokens, at, j + 1, t.next, end);
      var (r, after) := Compound(lay, cells, tokens, tokens[at], j, from, end);
      LettersFirst(lay, tokens, t, rest, at, j, from, r.result, end);
      AfterJoin(cells, [t], rest);
      takes := [t] + rest;
    }
  }

  lemma {:induction false} NoPlaces(takes: seq<Take>)
    requires forall k :: 0 <= k < |takes| ==> !takes[k].why.Place?
    ensures Places(takes) == []
    decreases |takes|
  {
    if takes != [] {
      NoPlaces(takes[..|takes| - 1]);
    }
  }

  lemma LettersExplain(lay: Layout, tokens: seq<string>, takes: seq<Take>, pos: nat, at: nat, stop: nat, end: nat)
    requires at < |tokens| && IsLetters(lay, tokens[at]) && pos <= |lay.positionals|
    requires takes in LetterReadings(lay, tokens, at, 1, at + 1, stop, end)
    ensures Explains(lay, tokens, takes, pos, at, stop, end, end) && Places(takes) == []
  {
    NoPlaces(takes);
    assert !TakenFor(takes, Reserved);
    forall j | 1 <= j < |tokens[at]|
      ensures TakenFor(takes, Letter(at, j))
    {
      assert takes[j - 1].why == Letter(at, 1 + (j - 1));
    }
    assert ReadAt(lay, tokens, takes, at);
    forall k | 0 <= k < |takes|
      ensures at <= Head(takes[k])
      ensures k > 0 ==> Head(takes[k]) == takes[k].start
    {
    }
  }

  lemma NameExplains(lay: Layout, tokens: seq<string>, t: Take, pos: nat, it: nat, end: nat)
    requires it < end <= |tokens| && pos <= |lay.positionals| && Justified(lay, tokens, t) && t.why == Name(it) && t.bound == end
    ensures Explains(lay, tokens, [t], pos, it, t.next, end, end) && Places([t]) == []
  {
    assert [t][0].why == Name(it);
    assert ReadAt(lay, tokens, [t], it);
    forall i: nat | it <= i < t.next
      ensures StoredAt([t], i) || ReadAt(lay, tokens, [t], i)
    {
      assert i > it ==> [t][0].start <= i < [t][0].next;
    }
    OneExplains(lay, tokens, t, pos, it, end);
  }

  /** An option token that does not fail. */
  lemma OptionTakes(lay: Layout, cells: seq<Cell>, tokens: seq<string>, pos: nat, it: nat, end: nat) returns (takes: seq<Take>)
    requires lay.Valid() && Sized(lay) && |cells| == |lay.settings| && it < end <= |tokens| && pos <= |lay.positionals|
    requires OptionLike(tokens[it], lay.prefixChars) && OptionStep(lay, cells, tokens, it, end).0.Success?
    ensures var (r, after) := OptionStep(lay, cells, tokens, it, end);
            Explains(lay, tokens, takes, pos, it, r.result, end, end) && Places(takes) == [] && after == After(cells, takes)
  {
    var (r, after) := OptionStep(lay, cells, tokens, it, end);
    if tokens[it] in lay.argumentMap {
      takes := NameTakes(lay, cells, after, tokens, pos, it, r.result, end);
    } else {
      takes := LettersTake(lay, cells, after, tokens, pos, it, r.result, end);
    }
  }

  lemma NameTakes(lay: Layout, cells: seq<Cell>, after: seq<Cell>, tokens: seq<string>, pos: nat, it: nat, next: nat, end: nat)
    returns (takes: seq<Take>)
    requires lay.Valid() && Sized(lay) && |cells| == |lay.settings| && it < end <= |tokens| && pos <= |lay.positionals|
    requires IsName(lay, tokens[it]) && ConsumeAt(lay, cells, lay.argumentMap[tokens[it]], tokens, it + 1, end) == (Success(next), after)
    ensures Explains(lay, tokens, takes, pos, it, next, end, end) && Places(takes) == [] && after == After(cells, takes)
  {
    var t := OneTake(lay, cells, lay.argumentMap[tokens[it]], tokens, it + 1, end, Name(it));
    NameExplains(lay, tokens, t, pos, it, end);
    takes := [t];
  }

  lemma LettersTake(lay: Layout, cells: seq<Cell>, after: seq<Cell>, tokens: seq<string>, pos: nat, it: nat, next: nat, end: nat)
    returns (takes: seq<Take>)
    requires lay.Valid() && Sized(lay) && |cells| == |lay.settings| && it < end <= |tokens| && pos <= |lay.positionals|
    requires IsLetters(lay, tokens[it]) && Compound(lay, cells, tokens, tokens[it], 1, it + 1, end) == (Success(next), after)
    ensures Explains(lay, tokens, takes, pos, it, next, end, end) && Places(takes) == [] && after == After(cells, takes)
  {
    takes := CompoundTakes(lay, cells, tokens, it, 1, it + 1, end);
    LettersExplain(lay, tokens, takes, pos, it, next, end);
  }

  lemma KeepsOneBackIff(lay: Layout, pos: nat)
    requires lay.Valid() && pos < |lay.positionals|
    ensures lay.LastReserved(pos) <==> KeepsOneBack(lay, pos)
  {
    assert lay.positionals[pos] in lay.positionals;
    if pos + 1 < |lay.positionals| {
      assert lay.positionals[pos + 1] in lay.positionals;
    }
  }

  /** A positional token without a token kept back. */
  lemma PlaceTakes(lay: Layout, cells: seq<Cell>, tokens: seq<string>, pos: nat, it: nat, end: nat) returns (takes: seq<Take>)
    requires lay.Valid() && Sized(lay) && |cells| == |lay.settings| && it < end <= |tokens| && pos < |lay.positionals|
    requires !OptionLike(tokens[it], lay.prefixChars) && !lay.LastReserved(pos) && PositionalStep(lay, cells, tokens, pos, it, end).0.Success?
    ensures var (r, stop, after) := PositionalStep(lay, cells, tokens, pos, it, end);
            && stop == end && Explains(lay, tokens, takes, pos, it, r.result, stop, end)
            && |Places(takes)| == 1 && after == After(cells, takes)
  {
    assert lay.positionals[pos] in lay.positionals;
    KeepsOneBackIff(lay, pos);
    var t := OneTake(lay, cells, lay.positionals[pos], tokens, it, end, Place(pos));
    takes := [t];
    forall i: nat | it <= i < t.next
      ensures StoredAt(takes, i)
    {
      assert takes[0].start <= i < takes[0].next;
    }
    OneExplains(lay, tokens, t, pos, it, end);
  }

  lemma PlacesOfTwo(kept: Take, t: Take)
    requires kept.why == Reserved && t.why.Place?
    ensures Places([kept] + [t]) == [t.why.pos]
  {
    assert ([kept] + [t])[..1] == [kept] && [kept][..0] == [];
    assert Places([kept]) == [];
  }

  /** The kept-back token and the positional that asked for it. */
  ghost predicate KeptAndPlaced(lay: Layout, tokens: seq<string>, kept: Take, t: Take, pos: nat, it: nat, end: nat) {
    && KeepsOneBack(lay, pos) && it < end - 1 && end <= |tokens| && !OptionLike(tokens[it], lay.prefixChars)
    && kept.arg == lay.positionals[pos + 1] && kept.why == Reserved && kept.start == end - 1 && kept.bound == end
    && kept in ProperTakes(lay, tokens) && kept.next <= end
    && t.arg == lay.positionals[pos] && t.why == Place(pos) && t.start == it && t.bound == end - 1
    && t in ProperTakes(lay, tokens) && it <= t.next <= end - 1
  }

  lemma BothJustified(lay: Layout, tokens: seq<string>, kept: Take, t: Take, pos: nat, it: nat, end: nat)
    requires KeptAndPlaced(lay, tokens, kept, t, pos, it, end)
    ensures Justified(lay, tokens, kept) && kept.next == end && Justified(lay, tokens, t)
  {
    ReservedTakesAll(lay, tokens, kept, end);
  }

  lemma TwoReserved(lay: Layout, tokens: seq<string>, kept: Take, t: Take, pos: nat, it: nat, end: nat)
    requires KeptAndPlaced(lay, tokens, kept, t, pos, it, end) && kept.next == end
    ensures ReservedLast([kept] + [t], end - 1, end)
  {
    var takes := [kept] + [t];
    assert takes[0] == kept && takes[1] == t;
    assert takes[0].why == Reserved;
  }

  lemma TwoPlaced(lay: Layout, kept: Take, t: Take, pos: nat)
    requires KeepsOneBack(lay, pos) && kept.why == Reserved && t.why == Place(pos)
    ensures PlacesFollow(lay, [kept] + [t], pos) && |Places([kept] + [t])| == 1
  {
    var takes := [kept] + [t];
    PlacesOfTwo(kept, t);
    assert takes[0].why == Reserved;
    assert pos in Places(takes);
  }

  lemma TwoExplain(lay: Layout, tokens: seq<string>, kept: Take, t: Take, pos: nat, it: nat, end: nat)
    requires KeptAndPlaced(lay, tokens, kept, t, pos, it, end)
    ensures Explains(lay, tokens, [kept] + [t], pos, it, t.next, end - 1, end) && |Places([kept] + [t])| == 1
  {
    var takes := [kept] + [t];
    BothJustified(lay, tokens, kept, t, pos, it, end);
    assert takes[0] == kept && takes[1] == t;
    TwoReserved(lay, tokens, kept, t, pos, it, end);
    TwoPlaced(lay, kept, t, pos);
    forall i: nat | it <= i < t.next
      ensures StoredAt(takes, i)
    {
      assert takes[1].start <= i < takes[1].next;
    }
  }

  /** The two calls of `consume` in such a turn. */
  lemma ReservedParts(lay: Layout, cells: seq<Cell>, tokens: seq<string>, pos: nat, it: nat, end: nat)
    requires lay.Valid() && |cells| == |lay.settings| && it < end <= |tokens| && pos < |lay.positionals|
    requires lay.LastReserved(pos) && PositionalStep(lay, cells, tokens, pos, it, end).0.Success?
    ensures it < end - 1 && KeepsOneBack(lay, pos) && TakesOne(lay.settings[lay.positionals[pos + 1]])
    ensures var (one, mid) := ConsumeAt(lay, cells, lay.positionals[pos + 1], tokens, end - 1, end);
            var (r, after) := ConsumeAt(lay, mid, lay.positionals[pos], tokens, it, end - 1);
            one.Success? && r.Success? && PositionalStep(lay, cells, tokens, pos, it, end) == (r, end - 1, after)
  {
    KeepsOneBackIff(lay, pos);
    assert lay.positionals[pos] in lay.positionals && lay.positionals[pos + 1] in lay.positionals;
  }

  lemma ReservedTakes(lay: Layout, cells: seq<Cell>, tokens: seq<string>, pos: nat, it: nat, end: nat) returns (takes: seq<Take>)
    requires lay.Valid() && Sized(lay) && |cells| == |lay.settings| && it < end <= |tokens| && pos < |lay.positionals|
    requires !OptionLike(tokens[it], lay.prefixChars) && lay.LastReserved(pos) && PositionalStep(lay, cells, tokens, pos, it, end).0.Success?
    ensures var (r, stop, after) := PositionalStep(lay, cells, tokens, pos, it, end);
            Explains(lay, tokens, takes, pos, it, r.result, stop, end) && |Places(takes)| == 1 && after == After(cells, takes)
  {
    ReservedParts(lay, cells, tokens, pos, it, end);
    var (one, mid) := ConsumeAt(lay, cells, lay.positionals[pos + 1], tokens, end - 1, end);
    var (r, after) := ConsumeAt(lay, mid, lay.positionals[pos], tokens, it, end - 1);
    takes := TwoTakes(lay, cells, mid, after, tokens, pos, it, one.result, r.result, end);
  }

  lemma KeptTake(lay: Layout, cells: seq<Cell>, mid: seq<Cell>, tokens: seq<string>, pos: nat, all: nat, end: nat) returns (kept: Take)
    requires lay.Valid() && Sized(lay) && |cells| == |lay.settings| && 1 <= end <= |tokens| && KeepsOneBack(lay, pos)
    requires ConsumeAt(lay, cells, lay.positionals[pos + 1], tokens, end - 1, end) == (Success(all), mid)
    ensures kept.arg == lay.positionals[pos + 1] && kept.why == Reserved && kept.start == end - 1 && kept.bound == end
    ensures kept in ProperTakes(lay, tokens) && kept.next <= end && mid == After(cells, [kept])
  {
    kept := OneTake(lay, cells, lay.positionals[pos + 1], tokens, end - 1, end, Reserved);
  }

  lemma PlacedTake(lay: Layout, mid: seq<Cell>, after: seq<Cell>, tokens: seq<string>, pos: nat, it: nat, next: nat, end: nat) returns (t: Take)
    requires lay.Valid() && Sized(lay) && |mid| == |lay.settings| && it < end <= |tokens| && KeepsOneBack(lay, pos)
    requires ConsumeAt(lay, mid, lay.positionals[pos], tokens, it, end) == (Success(next), after)
    ensures t.arg == lay.positionals[pos] && t.why == Place(pos) && t.start == it && t.bound == end && t.next == next
    ensures t in ProperTakes(lay, tokens) && it <= next <= end && after == After(mid, [t])
  {
    t := OneTake(lay, mid, lay.positionals[pos], tokens, it, end, Place(pos));
  }

  lemma TwoTakes(lay: Layout, cells: seq<Cell>, mid: seq<Cell>, after: seq<Cell>, tokens: seq<string>, pos: nat, it: nat,
                 all: nat, next: nat, end: nat) returns (takes: seq<Take>)
    requires lay.Valid() && Sized(lay) && |cells| == |mid| == |lay.settings| && it < end - 1 && end <= |tokens| && KeepsOneBack(lay, pos)
    requires !OptionLike(tokens[it], lay.prefixChars)
    requires ConsumeAt(lay, cells, lay.positionals[pos + 1], tokens, end - 1, end) == (Success(all), mid)
    requires ConsumeAt(lay, mid, lay.positionals[pos], tokens, it, end - 1) == (Success(next), after)
    ensures Explains(lay, tokens, takes, pos, it, next, end - 1, end) && |Places(takes)| == 1 && after == After(cells, takes)
  {
    var kept := KeptTake(lay, cells, mid, tokens, pos, all, end);
    var t := PlacedTake(lay, mid, after, tokens, pos, it, next, end - 1);
    takes := TwoJoined(lay, cells, mid, after, tokens, kept, t, pos, it, end);
  }

  lemma TwoJoined(lay: Layout, cells: seq<Cell>, mid: seq<Cell>, after: seq<Cell>, tokens: seq<string>, kept: Take, t: Take,
                  pos: nat, it: nat, end: nat) returns (takes: seq<Take>)
    requires KeptAndPlaced(lay, tokens, kept, t, pos, it, end) && mid == After(cells, [kept]) && after == After(mid, [t])
    ensures Explains(lay, tokens, takes, pos, it, t.next, end - 1, end) && |Places(takes)| == 1 && after == After(cells, takes)
  {
    takes := [kept] + [t];
    AfterJoin(cells, [kept], [t]);
    TwoExplain(lay, tokens, kept, t, pos, it, end);
  }

  /** An argument of arity one takes the one token it is offered. */
  lemma ReservedTakesAll(lay: Layout, tokens: seq<string>, kept: Take, end: nat)
    requires kept.arg < |lay.settings| && TakesOne(lay.settings[kept.arg]) && 1 <= end <= |tokens|
    requires kept.start == end - 1 && kept.bound == end && kept in ProperTakes(lay, tokens)
    ensures kept.next == end
  {
  }

  lemma TurnTakes(lay: Layout, cells: seq<Cell>, tokens: seq<string>, pos: nat, it: nat, end: nat) returns (takes: seq<Take>)
    requires lay.Valid() && Sized(lay) && |cells| == |lay.settings| && pos <= |lay.positionals| && it < end <= |tokens|
    requires Turn(lay, cells, tokens, pos, it, end).0.Go?
    ensures var (turned, after) := Turn(lay, cells, tokens, pos, it, end);
            && Explains(lay, tokens, takes, pos, it, turned.it, turned.end, end)
            && turned.pos == pos + |Places(takes)| && after == After(cells, takes)
  {
    if OptionLike(tokens[it], lay.prefixChars) {
      takes := OptionTakes(lay, cells, tokens, pos, it, end);
    } else if lay.LastReserved(pos) {
      takes := ReservedTakes(lay, cells, tokens, pos, it, end);
    } else {
      takes := PlaceTakes(lay, cells, tokens, pos, it, end);
    }
  }

  // ---- The whole parse ----

  /** How a parse that did not fail ended: at the end, or at a subparser's name when no positional was left. */
  ghost predicate Ended(lay: Layout, tokens: seq<string>, outcome: Outcome, pos: nat, stop: nat, last: nat) {
    && stop <= last <= |tokens|
    && match outcome
       case Parsed => stop == last
       case Delegated(subparser, rest) =>
         && stop < last && pos == |lay.positionals| && tokens[stop] in lay.subparsers && !OptionLike(tokens[stop], lay.prefixChars)
         && subparser == tokens[stop] && rest == tokens[stop..last]
       case Failed(_) => false
  }

  lemma NothingTaken(lay: Layout, tokens: seq<string>, cells: seq<Cell>, pos: nat, it: nat, end: nat)
    requires pos <= |lay.positionals| && it <= end <= |tokens|
    ensures Explains(lay, tokens, [], pos, it, it, end, end) && After(cells, []) == cells && Places([]) == []
  {
    assert !TakenFor([], Reserved);
  }

  lemma {:induction false} ExplainedFrom(lay: Layout, cells: seq<Cell>, tokens: seq<string>, pos: nat, it: nat, end: nat)
    returns (takes: seq<Take>, stop: nat, last: nat)
    requires lay.Valid() && Sized(lay) && |cells| == |lay.settings| && pos <= |lay.positionals| && it <= end <= |tokens|
    requires !ParseFrom(lay, cells, tokens, pos, it, end).0.Failed?
    ensures var (outcome, after, names) := ParseFrom(lay, cells, tokens, pos, it, end);
            && Explains(lay, tokens, takes, pos, it, stop, last, end) && after == After(cells, takes)
            && Ended(lay, tokens, outcome, pos + |Places(takes)|, stop, last)
    decreases |lay.positionals| - pos + end - it
  {
    takes, stop, last := [], it, end;
    NothingTaken(lay, tokens, cells, pos, it, end);
    if it < end {
      var (turned, mid) := Turn(lay, cells, tokens, pos, it, end);
      if turned.Go? {
        var front := TurnTakes(lay, cells, tokens, pos, it, end);
        var back;
        back, stop, last := ExplainedFrom(lay, mid, tokens, turned.pos, turned.it, turned.end);
        takes := front + back;
        JoinExplains(lay, tokens, front, back, pos, it, turned.it, turned.end, stop, last, end);
        AfterJoin(cells, front, back);
        PlacesJoin(front, back);
      }
    }
  }

  /** A parse that does not fail, in terms of its tokens: every token before the end is stored by exactly the argument
      that a name, a letter or its place among the positionals calls for, or is such a name, and arguments hold
      nothing else. */
  lemma ParseExplained(lay: Layout, cells: seq<Cell>, tokens: seq<string>) returns (takes: seq<Take>, stop: nat, last: nat)
    requires lay.Valid() && Sized(lay) && |cells| == |lay.settings| && |tokens| >= 1
    requires !ParseFrom(lay, cells, tokens, 0, 1, |tokens|).0.Failed?
    ensures var (outcome, after, names) := ParseFrom(lay, cells, tokens, 0, 1, |tokens|);
            && Explains(lay, tokens, takes, 0, 1, stop, last, |tokens|) && Gained(cells, after, takes)
            && Ended(lay, tokens, outcome, |Places(takes)|, stop, last)
  {
    takes, stop, last := ExplainedFrom(lay, cells, tokens, 0, 1, |tokens|);
    AfterGained(cells, takes);
  }

  // ---- What an error means ----

  /** Why an argument with these settings failed at these tokens. */
  ghost predicate ConsumeErrorLaw(s: Settings, used: bool, tokens: seq<string>, start: nat, end: nat, e: ConsumeError)
    requires start <= end <= |tokens|
  {
    match e
    case DuplicateArgument => used && !s.repeatable
    case InvalidChoice(token) =>
      && !(used && !s.repeatable) && s.choices.Some?
      && exists run: nat :: ChoiceRun(s.choices.value, tokens, start, end, run) && start + run < end
           && token == tokens[start + run] && !(s.minArgs <= run <= s.maxArgs)
    case TooFewArguments =>
      && !(used && !s.repeatable)
      && if end - start < s.minArgs then !s.hasDefault
         else !s.acceptsOptionalLike && exists i :: start <= i < start + s.minArgs && OptionLike(tokens[i], s.prefixChars)
  }

  lemma ConsumeFailed(s: Settings, used: bool, tokens: seq<string>, start: nat, end: nat)
    requires start <= end <= |tokens| && s.minArgs <= s.maxArgs && ConsumeResult(s, used, tokens, start, end).Failure?
    ensures ConsumeErrorLaw(s, used, tokens, start, end, ConsumeResult(s, used, tokens, start, end).error)
  {
    if s.choices.Some? {
      var run := Passed(s.choices.value, tokens, start, end);
      assert ChoiceRun(s.choices.value, tokens, start, end, run);
    }
  }

  /** Some argument of the layout fails this way at some tokens. */
  ghost predicate SomeArgumentFails(lay: Layout, tokens: seq<string>, e: ConsumeError) {
    exists k, used, start, end :: 0 <= k < |lay.settings| && 0 <= start <= end <= |tokens| && ConsumeErrorLaw(lay.settings[k], used, tokens, start, end, e)
  }

  ghost predicate ErrorLaw(lay: Layout, tokens: seq<string>, error: ParseError) {
    match error
    case UnknownArgument(token) =>
      && token in tokens && OptionLike(token, lay.prefixChars) && token !in lay.argumentMap
      && (IsLetters(lay, token) ==> exists j :: 1 <= j < |token| && ['-', token[j]] !in lay.argumentMap)
    case MaximumPositionalExceeded(token) =>
      token in tokens && !OptionLike(token, lay.prefixChars) && token !in lay.subparsers && lay.positionals != []
    case ZeroPositionalExpected => lay.positionals == [] && lay.subparsers == []
    case UnknownSubcommand(token, suggestion) =>
      && token in tokens && !OptionLike(token, lay.prefixChars) && token !in lay.subparsers && lay.positionals == []
      && suggestion in lay.subparsers && forall k :: k in lay.subparsers ==> Distance(suggestion, token) <= Distance(k, token)
    case MissingPositional => exists pos: nat :: pos < |lay.positionals| && KeepsOneBack(lay, pos)
    case InArgument(e) => SomeArgumentFails(lay, tokens, e)
  }

  lemma ConsumeAtFailed(lay: Layout, cells: seq<Cell>, k: nat, tokens: seq<string>, start: nat, end: nat)
    requires k < |lay.settings| == |cells| && start <= end <= |tokens| && Sized(lay)
    requires ConsumeAt(lay, cells, k, tokens, start, end).0.Failure?
    ensures ErrorLaw(lay, tokens, ConsumeAt(lay, cells, k, tokens, start, end).0.error)
  {
    ConsumeFailed(lay.settings[k], cells[k].isUsed, tokens, start, end);
    var e := ConsumeResult(lay.settings[k], cells[k].isUsed, tokens, start, end).error;
    assert ConsumeErrorLaw(lay.settings[k], cells[k].isUsed, tokens, start, end, e);
  }

  lemma UnknownLetter(lay: Layout, tokens: seq<string>, at: nat, j: nat)
    requires at < |tokens| && OptionLike(tokens[at], lay.prefixChars) && tokens[at] !in lay.argumentMap
    requires 1 <= j < |tokens[at]| && ['-', tokens[at][j]] !in lay.argumentMap
    ensures ErrorLaw(lay, tokens, UnknownArgument(tokens[at]))
  {
  }

  lemma {:induction false} CompoundFailed(lay: Layout, cells: seq<Cell>, tokens: seq<string>, at: nat, j: nat, from: nat, end: nat)
    requires lay.Valid() && Sized(lay) && |cells| == |lay.settings| && at < from <= end <= |tokens| && 1 <= j
    requires OptionLike(tokens[at], lay.prefixChars) && tokens[at] !in lay.argumentMap
    requires Compound(lay, cells, tokens, tokens[at], j, from, end).0.Failure?
    ensures ErrorLaw(lay, tokens, Compound(lay, cells, tokens, tokens[at], j, from, end).0.error)
    decreases |tokens[at]| - j
  {
    if ['-', tokens[at][j]] in lay.argumentMap {
      var k := lay.argumentMap[['-', tokens[at][j]]];
      var (r, mid) := ConsumeAt(lay, cells, k, tokens, from, end);
      if r.Failure? {
        ConsumeAtFailed(lay, cells, k, tokens, from, end);
      } else {
        CompoundFailed(lay, mid, tokens, at, j + 1, r.result, end);
      }
    } else {
      UnknownLetter(lay, tokens, at, j);
    }
  }

  lemma OptionFailed(lay: Layout, cells: seq<Cell>, tokens: seq<string>, it: nat, end: nat)
    requires lay.Valid() && Sized(lay) && |cells| == |lay.settings| && it < end <= |tokens|
    requires OptionLike(tokens[it], lay.prefixChars) && OptionStep(lay, cells, tokens, it, end).0.Failure?
    ensures ErrorLaw(lay, tokens, OptionStep(lay, cells, tokens, it, end).0.error)
  {
    if tokens[it] in lay.argumentMap {
      ConsumeAtFailed(lay, cells, lay.argumentMap[tokens[it]], tokens, it + 1, end);
    } else if IsCompound(tokens[it], lay.prefixChars) {
      CompoundFailed(lay, cells, tokens, it, 1, it + 1, end);
    }
  }

  lemma PositionalFailed(lay: Layout, cells: seq<Cell>, tokens: seq<string>, pos: nat, it: nat, end: nat)
    requires lay.Valid() && Sized(lay) && |cells| == |lay.settings| && it < end <= |tokens| && pos < |lay.positionals|
    requires PositionalStep(lay, cells, tokens, pos, it, end).0.Failure?
    ensures ErrorLaw(lay, tokens, PositionalStep(lay, cells, tokens, pos, it, end).0.error)
  {
    KeepsOneBackIff(lay, pos);
    assert lay.positionals[pos] in lay.positionals;
    var (stop, mid) := Reserve(lay, cells, tokens, pos, it, end);
    if stop.Success? {
      ConsumeAtFailed(lay, mid, lay.positionals[pos], tokens, it, stop.result);
    } else if it + 1 < end {
      assert lay.positionals[pos + 1] in lay.positionals;
      ConsumeAtFailed(lay, cells, lay.positionals[pos + 1], tokens, end - 1, end);
    }
  }

  lemma NoPositionalFailed(lay: Layout, tokens: seq<string>, it: nat)
    requires it < |tokens| && !OptionLike(tokens[it], lay.prefixChars) && tokens[it] !in lay.subparsers
    ensures ErrorLaw(lay, tokens, NoPositionalError(lay, tokens[it]))
  {
    if lay.positionals == [] && lay.subparsers != [] {
      var i := Nearest(lay.subparsers, tokens[it]);
      assert lay.subparsers[i] in lay.subparsers;
    }
  }

  /** Every error a parse ends with says what is wrong with the tokens. */
  lemma {:induction false} FailureMeans(lay: Layout, cells: seq<Cell>, tokens: seq<string>, pos: nat, it: nat, end: nat)
    requires lay.Valid() && Sized(lay) && |cells| == |lay.settings| && pos <= |lay.positionals| && it <= end <= |tokens|
    requires ParseFrom(lay, cells, tokens, pos, it, end).0.Failed?
    ensures ErrorLaw(lay, tokens, ParseFrom(lay, cells, tokens, pos, it, end).0.error)
    decreases |lay.positionals| - pos + end - it
  {
    var (turned, mid) := Turn(lay, cells, tokens, pos, it, end);
    if turned.Go? {
      FailureMeans(lay, mid, tokens, turned.pos, turned.it, turned.end);
    } else if OptionLike(tokens[it], lay.prefixChars) {
      OptionFailed(lay, cells, tokens, it, end);
    } else if pos < |lay.positionals| {
      PositionalFailed(lay, cells, tokens, pos, it, end);
    } else {
      NoPositionalFailed(lay, tokens, it);
    }
  }
}
