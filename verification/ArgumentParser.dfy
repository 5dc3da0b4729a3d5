/** The argument parser's token-consuming loop, and how much one argument takes. */
module ArgumentParser {
  import opened Wrappers
  import opened DecimalLiteral
  import opened Levenshtein

  // ---- What one argument takes ----

  /** A maximum of SIZE_MAX stands for "any number". */
  datatype Settings = Settings(minArgs: nat, maxArgs: nat, choices: Option<seq<string>>, hasDefault: bool,
                               repeatable: bool, acceptsOptionalLike: bool, prefixChars: string)

  datatype ConsumeError = DuplicateArgument | InvalidChoice(token: string) | TooFewArguments

  /** An argument's stored values: a token, or the implicit value of an argument given without any. */
  datatype Value = Token(token: string) | Implicit

  ghost predicate OptionLike(token: string, prefixChars: string) {
    !Positional(token, prefixChars)
  }

  /** Length of the leading run of tokens in [start, end) that are among the choices. */
  function Passed(choices: seq<string>, tokens: seq<string>, start: nat, end: nat): (n: nat)
    requires start <= end <= |tokens|
    ensures start + n <= end && (forall i :: start <= i < start + n ==> tokens[i] in choices)
    ensures start + n < end ==> tokens[start + n] !in choices
    decreases end - start
  {
    if start < end && tokens[start] in choices then 1 + Passed(choices, tokens, start + 1, end) else 0
  }

  /** First index in [start, stop) of an option-like token, or stop. */
  ghost function FirstOptionLike(prefixChars: string, tokens: seq<string>, start: nat, stop: nat): (i: nat)
    requires start <= stop <= |tokens|
    ensures start <= i <= stop && (forall k :: start <= k < i ==> !OptionLike(tokens[k], prefixChars))
    ensures i < stop ==> OptionLike(tokens[i], prefixChars)
    decreases stop - start
  {
    if start < stop && !OptionLike(tokens[start], prefixChars) then FirstOptionLike(prefixChars, tokens, start + 1, stop) else start
  }

  function AsValues(tokens: seq<string>): (values: seq<Value>)
    ensures |values| == |tokens|
  {
    seq(|tokens|, i requires 0 <= i < |tokens| => Token(tokens[i]))
  }

  function Limit(s: Settings, tokens: seq<string>, start: nat, end: nat): nat
    requires start <= end <= |tokens|
  {
    if s.choices.Some? then Passed(s.choices.value, tokens, start, end) else s.maxArgs
  }

  /** Where a run of at most Limit tokens ends. */
  ghost function Reach(s: Settings, tokens: seq<string>, start: nat, end: nat): (next: nat)
    requires start <= end <= |tokens|
    ensures start <= next <= end
  {
    var limit := Limit(s, tokens, start, end);
    var stop := if limit < end - start then start + limit else end;
    if s.acceptsOptionalLike then stop else FirstOptionLike(s.prefixChars, tokens, start, stop)
  }

  /** The whole outcome: the next index and the values stored, or the error thrown. */
  ghost function ConsumeResult(s: Settings, used: bool, tokens: seq<string>, start: nat, end: nat): Result<(nat, seq<Value>), ConsumeError>
    requires start <= end <= |tokens|
  {
    var limit := Limit(s, tokens, start, end);
    if used && !s.repeatable then Failure(DuplicateArgument)
    else if s.choices.Some? && start + limit < end && !(s.minArgs <= limit <= s.maxArgs) then Failure(InvalidChoice(tokens[start + limit]))
    else if limit == 0 then Success((start, [Implicit]))
    else if end - start >= s.minArgs then
      var next := Reach(s, tokens, start, end);
      if !s.acceptsOptionalLike && next - start < s.minArgs then Failure(TooFewArguments)
      else Success((next, AsValues(tokens[start..next])))
    else if s.hasDefault then Success((start, []))
    else Failure(TooFewArguments)
  }

  /** Without choices, an argument that does not fail either falls back to its default because fewer than the minimum
      of tokens remain, or takes between the minimum and the maximum of tokens, none option-like unless allowed, and
      stops only at the end, at the maximum, or at an option-like token. */
  lemma ConsumeTakesWithinRange(s: Settings, used: bool, tokens: seq<string>, start: nat, end: nat)
    requires start <= end <= |tokens| && s.minArgs <= s.maxArgs && s.choices.None?
    ensures match ConsumeResult(s, used, tokens, start, end)
            case Success((next, values)) =>
              && start <= next <= end && !(used && !s.repeatable)
              && ((s.hasDefault && end - start < s.minArgs && next == start && values == [])
                  || (&& s.minArgs <= next - start <= s.maxArgs
                      && (s.acceptsOptionalLike || forall i :: start <= i < next ==> !OptionLike(tokens[i], s.prefixChars))
                      && (next == end || next - start == s.maxArgs || (!s.acceptsOptionalLike && OptionLike(tokens[next], s.prefixChars)))
                      && values == if s.maxArgs == 0 then [Implicit] else AsValues(tokens[start..next])))
            case Failure(DuplicateArgument) => used && !s.repeatable
            case Failure(TooFewArguments) =>
              && !(used && !s.repeatable) && s.minArgs > 0
              && (end - start < s.minArgs ==> !s.hasDefault)
              && (end - start >= s.minArgs ==>
                    !s.acceptsOptionalLike && exists i :: start <= i < start + s.minArgs && OptionLike(tokens[i], s.prefixChars))
            case Failure(InvalidChoice(_)) => false
  {
  }

  /** With choices the maximum does not bound what is taken: here three choices go to an argument that allows one. */
  lemma ChoicesMayExceedMaximum()
    ensures var s := Settings(1, 1, Some(["a"]), false, false, false, "-");
            ConsumeResult(s, false, ["a", "a", "a"], 0, 3) == Success((3, [Token("a"), Token("a"), Token("a")]))
  {
    var s := Settings(1, 1, Some(["a"]), false, false, false, "-");
    var tokens := ["a", "a", "a"];
    assert Passed(["a"], tokens, 3, 3) == 0;
    assert Passed(["a"], tokens, 2, 3) == 1;
    assert Passed(["a"], tokens, 1, 3) == 2;
    assert Passed(["a"], tokens, 0, 3) == 3;
    assert forall i :: 0 <= i < 3 ==> !OptionLike(tokens[i], "-");
    assert Reach(s, tokens, 0, 3) == 3;
    assert tokens[0..3] == tokens;
    assert AsValues(tokens) == [Token("a"), Token("a"), Token("a")];
  }

  /** An argument with choices takes more than its maximum exactly when more tokens than that remain, all of them are
      choices, and an option-like one does not stop the run first. */
  lemma ChoicesExceedMaximumIff(s: Settings, used: bool, tokens: seq<string>, start: nat, end: nat)
    requires start <= end <= |tokens| && s.minArgs <= s.maxArgs && s.choices.Some?
    ensures ConsumeResult(s, used, tokens, start, end).Success? && ConsumeResult(s, used, tokens, start, end).result.0 - start > s.maxArgs
            <==> && !(used && !s.repeatable) && end - start > s.maxArgs
                 && (forall i :: start <= i < end ==> tokens[i] in s.choices.value)
                 && (s.acceptsOptionalLike || forall i :: start <= i <= start + s.maxArgs ==> !OptionLike(tokens[i], s.prefixChars))
  {
  }

  // ---- Counting tokens ----

  /** How often x occurs. */
  function Count(tokens: seq<string>, x: string): nat {
    if tokens == [] then 0 else Count(tokens[..|tokens| - 1], x) + if tokens[|tokens| - 1] == x then 1 else 0
  }

  /** How often x occurs at indices [lo, hi). */
  function CountIn(tokens: seq<string>, lo: nat, hi: nat, x: string): nat
    requires lo <= hi <= |tokens|
    decreases hi
  {
    if lo == hi then 0 else CountIn(tokens, lo, hi - 1, x) + if tokens[hi - 1] == x then 1 else 0
  }

  /** How often x is among the stored values. */
  function CountStored(values: seq<Value>, x: string): nat {
    if values == [] then 0 else CountStored(values[..|values| - 1], x) + if values[|values| - 1] == Token(x) then 1 else 0
  }

  lemma {:induction false} CountInSplit(tokens: seq<string>, lo: nat, mid: nat, hi: nat, x: string)
    requires lo <= mid <= hi <= |tokens|
    ensures CountIn(tokens, lo, hi, x) == CountIn(tokens, lo, mid, x) + CountIn(tokens, mid, hi, x)
    decreases hi - mid
  {
    if mid < hi {
      CountInSplit(tokens, lo, mid, hi - 1, x);
    }
  }

  lemma {:induction false} CountSlice(tokens: seq<string>, lo: nat, hi: nat, x: string)
    requires lo <= hi <= |tokens|
    ensures Count(tokens[lo..hi], x) == CountIn(tokens, lo, hi, x)
    decreases hi - lo
  {
    if lo < hi {
      CountSlice(tokens, lo, hi - 1, x);
      assert tokens[lo..hi][..hi - lo - 1] == tokens[lo..hi - 1];
    }
  }

  lemma {:induction false} CountAsValues(tokens: seq<string>, x: string)
    ensures CountStored(AsValues(tokens), x) == Count(tokens, x)
    decreases |tokens|
  {
    if tokens != [] {
      var n := |tokens| - 1;
      CountAsValues(tokens[..n], x);
      assert AsValues(tokens)[..n] == AsValues(tokens[..n]);
    }
  }

  lemma {:induction false} CountStoredAppend(a: seq<Value>, b: seq<Value>, x: string)
    ensures CountStored(a + b, x) == CountStored(a, x) + CountStored(b, x)
    decreases |b|
  {
    if b == [] {
      assert a + b == a;
    } else {
      var n := |b| - 1;
      CountStoredAppend(a, b[..n], x);
      assert (a + b)[..|a| + n] == a + b[..n];
    }
  }

  lemma {:induction false} CountAppend(a: seq<string>, b: seq<string>, x: string)
    ensures Count(a + b, x) == Count(a, x) + Count(b, x)
    decreases |b|
  {
    if b == [] {
      assert a + b == a;
    } else {
      var n := |b| - 1;
      CountAppend(a, b[..n], x);
      assert (a + b)[..|a| + n] == a + b[..n];
    }
  }

  /** The tokens a successful call stores are exactly those it moves past. */
  lemma ConsumeStoresWhatItPasses(s: Settings, used: bool, tokens: seq<string>, start: nat, end: nat, x: string)
    requires start <= end <= |tokens| && ConsumeResult(s, used, tokens, start, end).Success?
    ensures var (next, values) := ConsumeResult(s, used, tokens, start, end).result;
            start <= next <= end && CountStored(values, x) == CountIn(tokens, start, next, x)
  {
    var (next, values) := ConsumeResult(s, used, tokens, start, end).result;
    if values == [Implicit] {
      assert [Implicit][..0] == [];
    } else if values != [] {
      CountAsValues(tokens[start..next], x);
      CountSlice(tokens, start, next, x);
    }
  }

  class Argument {
    const settings: Settings
    var isUsed: bool
    var values: seq<Value>
    var usedName: string

    constructor (settings: Settings)
      requires settings.minArgs <= settings.maxArgs
      ensures this.settings == settings && !isUsed && values == []
    {
      this.settings := settings;
      isUsed, values, usedName := false, [], "";
    }

    /** Counts the leading tokens among the choices; another token is an error unless the count is in range. */
    method CheckChoices(choices: seq<string>, tokens: seq<string>, start: nat, end: nat) returns (r: Result<nat, ConsumeError>)
      requires start <= end <= |tokens|
      ensures var passed := Passed(choices, tokens, start, end);
              r == if start + passed < end && !(settings.minArgs <= passed <= settings.maxArgs)
                   then Failure(InvalidChoice(tokens[start + passed])) else Success(passed)
    {
      var passedOptions := 0;
      var it := start;
      ghost var all := Passed(choices, tokens, start, end);
      while it != end
        invariant start <= it <= end && passedOptions == it - start
        invariant all == passedOptions + Passed(choices, tokens, it, end)
      {
        if tokens[it] !in choices {
          if passedOptions >= settings.minArgs && passedOptions <= settings.maxArgs {
            break;
          }
          return Failure(InvalidChoice(tokens[it]));
        }
        passedOptions := passedOptions + 1;
        it := it + 1;
      }
      r := Success(passedOptions);
    }

    method Consume(tokens: seq<string>, start: nat, end: nat, name: string) returns (r: Result<nat, ConsumeError>)
      requires start <= end <= |tokens|
      modifies this
      ensures match ConsumeResult(settings, old(isUsed), tokens, start, end)
              case Success((next, taken)) => r == Success(next) && isUsed && values == old(values) + taken
              case Failure(e) => r == Failure(e) && isUsed == old(isUsed) && values == old(values)
      ensures usedName == if old(isUsed) && !settings.repeatable then old(usedName) else name
    {
      if !settings.repeatable && isUsed {
        return Failure(DuplicateArgument);
      }
      usedName := name;
      var numArgsMax := settings.maxArgs;
      if settings.choices.Some? {
        var passedOptions := CheckChoices(settings.choices.value, tokens, start, end);
        if passedOptions.Failure? {
          return Failure(passedOptions.error);
        }
        numArgsMax := passedOptions.result;
      }
      if numArgsMax == 0 {
        values := values + [Implicit];
        isUsed := true;
        return Success(start);
      }
      r := TakeTokens(tokens, start, end, numArgsMax);
    }

    /** The part of `consume` after the limit is known to be positive. */
    method TakeTokens(tokens: seq<string>, start: nat, end: nat, numArgsMax: nat) returns (r: Result<nat, ConsumeError>)
      requires start <= end <= |tokens| && numArgsMax == Limit(settings, tokens, start, end) > 0
      modifies this`isUsed, this`values
      ensures var next := Reach(settings, tokens, start, end);
              if end - start >= settings.minArgs && (settings.acceptsOptionalLike || next - start >= settings.minArgs) then
                r == Success(next) && isUsed && values == old(values) + AsValues(tokens[start..next])
              else if end - start < settings.minArgs && settings.hasDefault then
                r == Success(start) && isUsed && values == old(values)
              else r == Failure(TooFewArguments) && isUsed == old(isUsed) && values == old(values)
    {
      var dist := end - start;
      if dist >= settings.minArgs {
        var stop := if numArgsMax < dist then start + numArgsMax else end;
        if !settings.acceptsOptionalLike {
          stop := FindOptional(tokens, start, stop);
          dist := stop - start;
          if dist < settings.minArgs {
            return Failure(TooFewArguments);
          }
        }
        values := values + AsValues(tokens[start..stop]);
        isUsed := true;
        return Success(stop);
      }
      if settings.hasDefault {
        isUsed := true;
        return Success(start);
      }
      return Failure(TooFewArguments);
    }

    method FindOptional(tokens: seq<string>, start: nat, stop: nat) returns (i: nat)
      requires start <= stop <= |tokens|
      ensures i == FirstOptionLike(settings.prefixChars, tokens, start, stop)
    {
      i := start;
      while i < stop
        invariant start <= i <= stop
        invariant FirstOptionLike(settings.prefixChars, tokens, start, stop) == FirstOptionLike(settings.prefixChars, tokens, i, stop)
      {
        var positional := IsPositional(tokens[i], settings.prefixChars);
        if !positional {
          return;
        }
        i := i + 1;
      }
    }
  }

  // ---- The parse loop ----

  datatype ParseError =
    | UnknownSubcommand(token: string, suggestion: string)
    | ZeroPositionalExpected
    | MaximumPositionalExceeded(token: string)
    | MissingPositional
    | UnknownArgument(token: string)
    | InArgument(error: ConsumeError)

  /** Everything consumed, the rest handed to a subparser, or an error. */
  datatype Outcome = Parsed | Delegated(subparser: string, rest: seq<string>) | Failed(error: ParseError)

  /** Which arguments exist, by index, and how the positional list, the name map and the subparsers refer to them. */
  datatype Layout = Layout(prefixChars: string, settings: seq<Settings>, positionals: seq<nat>,
                           argumentMap: map<string, nat>, subparsers: seq<string>) {
    ghost predicate Valid() {
      && (forall k :: k in positionals ==> k < |settings|)
      && (forall n :: n in argumentMap ==> argumentMap[n] < |settings|)
    }

    /** The settings of the argument that consumes the positional token number pos. */
    function At(pos: nat): Settings
      requires Valid() && pos < |positionals|
    {
      assert positionals[pos] in positionals;
      settings[positionals[pos]]
    }

    /** A run with unbounded minimum-one arity followed by a last positional that takes exactly one token. */
    predicate LastReserved(pos: nat)
      requires Valid() && pos < |positionals|
    {
      At(pos).minArgs == 1 && At(pos).maxArgs == SIZE_MAX && pos + 2 == |positionals| && TakesOne(At(pos + 1))
    }
  }

  predicate TakesOne(s: Settings) {
    s.minArgs == 1 && s.maxArgs == 1
  }

  /** What parsing changes in one argument. */
  datatype Cell = Cell(isUsed: bool, values: seq<Value>)

  /** One call of `consume` on argument k. */
  ghost function ConsumeAt(lay: Layout, cells: seq<Cell>, k: nat, tokens: seq<string>, start: nat, end: nat)
    : (out: (Result<nat, ParseError>, seq<Cell>))
    requires k < |lay.settings| == |cells| && start <= end <= |tokens|
    ensures |out.1| == |cells| && (out.0.Success? ==> start <= out.0.result <= end)
  {
    match ConsumeResult(lay.settings[k], cells[k].isUsed, tokens, start, end)
    case Success((next, taken)) => (Success(next), cells[k := Cell(true, cells[k].values + taken)])
    case Failure(e) => (Failure(InArgument(e)), cells)
  }

  /** The short options of a compound token from its character j on. */
  ghost function Compound(lay: Layout, cells: seq<Cell>, tokens: seq<string>, token: string, j: nat, it: nat, end: nat)
    : (out: (Result<nat, ParseError>, seq<Cell>))
    requires lay.Valid() && |cells| == |lay.settings| && it <= end <= |tokens|
    ensures |out.1| == |cells| && (out.0.Success? ==> it <= out.0.result <= end)
    decreases |token| - j
  {
    if j >= |token| then (Success(it), cells)
    else if ['-', token[j]] !in lay.argumentMap then (Failure(UnknownArgument(token)), cells)
    else
      var (r, after) := ConsumeAt(lay, cells, lay.argumentMap[['-', token[j]]], tokens, it, end);
      if r.Failure? then (r, after) else Compound(lay, after, tokens, token, j + 1, r.result, end)
  }

  predicate IsCompound(token: string, prefixChars: string) {
    |token| > 1 && token[0] in prefixChars && token[1] !in prefixChars
  }

  /** A token that is not positional: a known option, or a compound of short ones. */
  ghost function OptionStep(lay: Layout, cells: seq<Cell>, tokens: seq<string>, it: nat, end: nat)
    : (out: (Result<nat, ParseError>, seq<Cell>))
    requires lay.Valid() && |cells| == |lay.settings| && it < end <= |tokens|
    ensures |out.1| == |cells| && (out.0.Success? ==> it < out.0.result <= end)
  {
    var current := tokens[it];
    if current in lay.argumentMap then ConsumeAt(lay, cells, lay.argumentMap[current], tokens, it + 1, end)
    else if IsCompound(current, lay.prefixChars) then Compound(lay, cells, tokens, current, 1, it + 1, end)
    else (Failure(UnknownArgument(current)), cells)
  }

  /** The last token goes to a reserved last positional; another token must be left. The result is the new end. */
  ghost function Reserve(lay: Layout, cells: seq<Cell>, tokens: seq<string>, pos: nat, it: nat, end: nat)
    : (out: (Result<nat, ParseError>, seq<Cell>))
    requires lay.Valid() && |cells| == |lay.settings| && pos < |lay.positionals| && it < end <= |tokens|
    ensures |out.1| == |cells| && (out.0.Success? ==> it < out.0.result <= end)
  {
    if !lay.LastReserved(pos) then (Success(end), cells)
    else if it + 1 == end then (Failure(MissingPositional), cells)
    else
      assert lay.positionals[pos + 1] in lay.positionals;
      var (r, after) := ConsumeAt(lay, cells, lay.positionals[pos + 1], tokens, end - 1, end);
      (if r.Failure? then r else Success(end - 1), after)
  }

  /** A positional token: the reserved last token first, then the argument itself. The second result is the new end. */
  ghost function PositionalStep(lay: Layout, cells: seq<Cell>, tokens: seq<string>, pos: nat, it: nat, end: nat)
    : (out: (Result<nat, ParseError>, nat, seq<Cell>))
    requires lay.Valid() && |cells| == |lay.settings| && pos < |lay.positionals| && it < end <= |tokens|
    ensures |out.2| == |cells| && (out.0.Success? ==> it <= out.0.result <= out.1 <= end)
  {
    var (stop, after) := Reserve(lay, cells, tokens, pos, it, end);
    if stop.Failure? then (stop, end, after)
    else
      assert lay.positionals[pos] in lay.positionals;
      var (r, last) := ConsumeAt(lay, after, lay.positionals[pos], tokens, it, stop.result);
      (r, stop.result, last)
  }

  /** The error for a positional token when no positional argument is left. */
  ghost function NoPositionalError(lay: Layout, token: string): ParseError {
    if lay.positionals != [] then MaximumPositionalExceeded(token)
    else if lay.subparsers == [] then ZeroPositionalExpected
    else UnknownSubcommand(token, lay.subparsers[Nearest(lay.subparsers, token)])
  }

  /** What one turn of the loop leads to: the end of the parse, or the next positional, cursor and end. */
  datatype Turned = Stop(outcome: Outcome) | Go(pos: nat, it: nat, end: nat)

  /** One turn: it either uses up a positional or moves past a token, and the cursor does not pass the end. */
  ghost function Turn(lay: Layout, cells: seq<Cell>, tokens: seq<string>, pos: nat, it: nat, end: nat): (out: (Turned, seq<Cell>))
    requires lay.Valid() && |cells| == |lay.settings| && pos <= |lay.positionals| && it < end <= |tokens|
    ensures |out.1| == |cells|
    ensures out.0.Go? ==> pos <= out.0.pos <= |lay.positionals| && it <= out.0.it <= out.0.end <= end
    ensures out.0.Go? ==> out.0.pos > pos || out.0.it > it
  {
    if OptionLike(tokens[it], lay.prefixChars) then
      var (r, after) := OptionStep(lay, cells, tokens, it, end);
      (if r.Failure? then Stop(Failed(r.error)) else Go(pos, r.result, end), after)
    else if pos < |lay.positionals| then
      var (r, stop, after) := PositionalStep(lay, cells, tokens, pos, it, end);
      (if r.Failure? then Stop(Failed(r.error)) else Go(pos + 1, r.result, stop), after)
    else if tokens[it] in lay.subparsers then (Stop(Delegated(tokens[it], tokens[it..end])), cells)
    else (Stop(Failed(NoPositionalError(lay, tokens[it]))), cells)
  }

  ghost function NameOf(lay: Layout, token: string): seq<string> {
    if OptionLike(token, lay.prefixChars) then [token] else []
  }

  /** The loop from index `it`: its outcome, the arguments after it, and the tokens it read as options, in order. */
  ghost function ParseFrom(lay: Layout, cells: seq<Cell>, tokens: seq<string>, pos: nat, it: nat, end: nat)
    : (out: (Outcome, seq<Cell>, seq<string>))
    requires lay.Valid() && |cells| == |lay.settings| && pos <= |lay.positionals| && it <= end <= |tokens|
    ensures |out.1| == |cells|
    decreases |lay.positionals| - pos + end - it
  {
    if it == end then (Parsed, cells, [])
    else
      var (turned, after) := Turn(lay, cells, tokens, pos, it, end);
      match turned
      case Stop(outcome) => (outcome, after, [])
      case Go(p, i, e) =>
        var (outcome, last, names) := ParseFrom(lay, after, tokens, p, i, e);
        (outcome, last, NameOf(lay, tokens[it]) + names)
  }

  // ---- Nothing is lost ----

  /** How often x is stored in the arguments. */
  function Held(cells: seq<Cell>, x: string): nat {
    if cells == [] then 0 else Held(cells[..|cells| - 1], x) + CountStored(cells[|cells| - 1].values, x)
  }

  lemma {:induction false} HeldUpdate(cells: seq<Cell>, k: nat, cell: Cell, x: string)
    requires k < |cells|
    ensures Held(cells[k := cell], x) == Held(cells, x) - CountStored(cells[k].values, x) + CountStored(cell.values, x)
    decreases |cells|
  {
    var n := |cells| - 1;
    if k == n {
      assert cells[k := cell][..n] == cells[..n];
    } else {
      HeldUpdate(cells[..n], k, cell, x);
      assert cells[k := cell][..n] == cells[..n][k := cell];
    }
  }

  /** The call stored what it moved past from `start`. */
  ghost predicate Keeps(out: (Result<nat, ParseError>, seq<Cell>), cells: seq<Cell>, tokens: seq<string>, start: nat, x: string) {
    out.0.Success? ==>
      start <= out.0.result <= |tokens| && Held(out.1, x) == Held(cells, x) + CountIn(tokens, start, out.0.result, x)
  }

  lemma ConsumeKeeps(lay: Layout, cells: seq<Cell>, k: nat, tokens: seq<string>, start: nat, end: nat, x: string)
    requires k < |lay.settings| == |cells| && start <= end <= |tokens|
    ensures Keeps(ConsumeAt(lay, cells, k, tokens, start, end), cells, tokens, start, x)
  {
    var result := ConsumeResult(lay.settings[k], cells[k].isUsed, tokens, start, end);
    if result.Success? {
      var (next, taken) := result.result;
      ConsumeStoresWhatItPasses(lay.settings[k], cells[k].isUsed, tokens, start, end, x);
      CountStoredAppend(cells[k].values, taken, x);
      HeldUpdate(cells, k, Cell(true, cells[k].values + taken), x);
    }
  }

  lemma {:induction false} CompoundKeeps(lay: Layout, cells: seq<Cell>, tokens: seq<string>, token: string, j: nat, it: nat, end: nat, x: string)
    requires lay.Valid() && |cells| == |lay.settings| && it <= end <= |tokens|
    ensures Keeps(Compound(lay, cells, tokens, token, j, it, end), cells, tokens, it, x)
    decreases |token| - j
  {
    if j < |token| && ['-', token[j]] in lay.argumentMap {
      var k := lay.argumentMap[['-', token[j]]];
      ConsumeKeeps(lay, cells, k, tokens, it, end, x);
      var (r, after) := ConsumeAt(lay, cells, k, tokens, it, end);
      if r.Success? {
        CompoundKeeps(lay, after, tokens, token, j + 1, r.result, end, x);
        var r2 := Compound(lay, after, tokens, token, j + 1, r.result, end).0;
        if r2.Success? {
          CountInSplit(tokens, it, r.result, r2.result, x);
        }
      }
    }
  }

  lemma OptionKeeps(lay: Layout, cells: seq<Cell>, tokens: seq<string>, it: nat, end: nat, x: string)
    requires lay.Valid() && |cells| == |lay.settings| && it < end <= |tokens|
    ensures Keeps(OptionStep(lay, cells, tokens, it, end), cells, tokens, it + 1, x)
  {
    if tokens[it] in lay.argumentMap {
      ConsumeKeeps(lay, cells, lay.argumentMap[tokens[it]], tokens, it + 1, end, x);
    } else if IsCompound(tokens[it], lay.prefixChars) {
      CompoundKeeps(lay, cells, tokens, tokens[it], 1, it + 1, end, x);
    }
  }

  /** An argument of arity one that does not fail takes a token when there is one. */
  lemma ReservedTakesOne(lay: Layout, cells: seq<Cell>, k: nat, tokens: seq<string>, end: nat, x: string)
    requires k < |lay.settings| == |cells| && 1 <= end <= |tokens| && TakesOne(lay.settings[k])
    ensures var (r, after) := ConsumeAt(lay, cells, k, tokens, end - 1, end);
            r.Success? ==> r.result == end && Held(after, x) == Held(cells, x) + CountIn(tokens, end - 1, end, x)
  {
    ConsumeKeeps(lay, cells, k, tokens, end - 1, end, x);
  }

  lemma ReserveKeeps(lay: Layout, cells: seq<Cell>, tokens: seq<string>, pos: nat, it: nat, end: nat, x: string)
    requires lay.Valid() && |cells| == |lay.settings| && pos < |lay.positionals| && it < end <= |tokens|
    ensures var (stop, after) := Reserve(lay, cells, tokens, pos, it, end);
            stop.Success? ==> Held(after, x) == Held(cells, x) + CountIn(tokens, stop.result, end, x)
  {
    if lay.LastReserved(pos) && it + 1 < end {
      assert lay.positionals[pos + 1] in lay.positionals;
      ReservedTakesOne(lay, cells, lay.positionals[pos + 1], tokens, end, x);
    }
  }

  lemma PositionalKeeps(lay: Layout, cells: seq<Cell>, tokens: seq<string>, pos: nat, it: nat, end: nat, x: string)
    requires lay.Valid() && |cells| == |lay.settings| && pos < |lay.positionals| && it < end <= |tokens|
    ensures var (r, stop, after) := PositionalStep(lay, cells, tokens, pos, it, end);
            r.Success? ==> Held(after, x) == Held(cells, x) + CountIn(tokens, it, r.result, x) + CountIn(tokens, stop, end, x)
  {
    var (stop, after) := Reserve(lay, cells, tokens, pos, it, end);
    if stop.Success? {
      ReserveKeeps(lay, cells, tokens, pos, it, end, x);
      assert lay.positionals[pos] in lay.positionals;
      ConsumeKeeps(lay, after, lay.positionals[pos], tokens, it, stop.result, x);
    }
  }

  /** One turn keeps the balance: what it passes at the front and splits off at the back is read as an option or stored. */
  lemma TurnKeeps(lay: Layout, cells: seq<Cell>, tokens: seq<string>, pos: nat, it: nat, end: nat, x: string)
    requires lay.Valid() && |cells| == |lay.settings| && pos <= |lay.positionals| && it < end <= |tokens|
    requires Turn(lay, cells, tokens, pos, it, end).0.Go?
    ensures var (turned, after) := Turn(lay, cells, tokens, pos, it, end);
            Held(after, x) + Count(NameOf(lay, tokens[it]), x) ==
            Held(cells, x) + CountIn(tokens, it, turned.it, x) + CountIn(tokens, turned.end, end, x)
  {
    if OptionLike(tokens[it], lay.prefixChars) {
      OptionKeeps(lay, cells, tokens, it, end, x);
      CountInSplit(tokens, it, it + 1, OptionStep(lay, cells, tokens, it, end).0.result, x);
      CountOne(tokens, it, x);
    } else {
      PositionalKeeps(lay, cells, tokens, pos, it, end, x);
    }
  }

  lemma CountOne(tokens: seq<string>, i: nat, x: string)
    requires i < |tokens|
    ensures CountIn(tokens, i, i + 1, x) == Count([tokens[i]], x)
  {
    assert [tokens[i]][..0] == [];
  }

  /** What a subparser receives. */
  function RestOf(outcome: Outcome): seq<string> {
    if outcome.Delegated? then outcome.rest else []
  }

  /** A parse that does not fail leaves every token in exactly one place: it was read as an option, is stored in an
      argument, or is handed to the subparser. */
  lemma {:induction false} NothingLost(lay: Layout, cells: seq<Cell>, tokens: seq<string>, pos: nat, it: nat, end: nat, x: string)
    requires lay.Valid() && |cells| == |lay.settings| && pos <= |lay.positionals| && it <= end <= |tokens|
    ensures var (outcome, last, names) := ParseFrom(lay, cells, tokens, pos, it, end);
            !outcome.Failed? ==>
              Held(last, x) + Count(names, x) + Count(RestOf(outcome), x) == Held(cells, x) + CountIn(tokens, it, end, x)
    decreases |lay.positionals| - pos + end - it
  {
    if it < end {
      var (turned, after) := Turn(lay, cells, tokens, pos, it, end);
      match turned
      case Stop(_) => CountSlice(tokens, it, end, x);
      case Go(p, i, e) =>
        TurnKeeps(lay, cells, tokens, pos, it, end, x);
        NothingLost(lay, after, tokens, p, i, e, x);
        CountAppend(NameOf(lay, tokens[it]), ParseFrom(lay, after, tokens, p, i, e).2, x);
        CountInSplit(tokens, it, i, end, x);
        CountInSplit(tokens, i, e, end, x);
    }
  }

  /** An option-like token that the parser knows, or a compound of short options it knows. */
  ghost predicate KnownOption(lay: Layout, token: string) {
    && OptionLike(token, lay.prefixChars)
    && (token in lay.argumentMap
        || (IsCompound(token, lay.prefixChars) && forall j :: 1 <= j < |token| ==> ['-', token[j]] in lay.argumentMap))
  }

  /** Only known options are read as options. */
  lemma {:induction false} NamesAreOptions(lay: Layout, cells: seq<Cell>, tokens: seq<string>, pos: nat, it: nat, end: nat)
    requires lay.Valid() && |cells| == |lay.settings| && pos <= |lay.positionals| && it <= end <= |tokens|
    ensures forall x :: x in ParseFrom(lay, cells, tokens, pos, it, end).2 ==> KnownOption(lay, x)
    decreases |lay.positionals| - pos + end - it
  {
    if it < end {
      var (turned, after) := Turn(lay, cells, tokens, pos, it, end);
      if turned.Go? {
        NamesAreOptions(lay, after, tokens, turned.pos, turned.it, turned.end);
        CompoundKnown(lay, cells, tokens, tokens[it], 1, it + 1, end);
      }
    }
  }

  lemma {:induction false} CompoundKnown(lay: Layout, cells: seq<Cell>, tokens: seq<string>, token: string, j: nat, it: nat, end: nat)
    requires lay.Valid() && |cells| == |lay.settings| && it <= end <= |tokens|
    ensures Compound(lay, cells, tokens, token, j, it, end).0.Success? ==> forall i :: j <= i < |token| ==> ['-', token[i]] in lay.argumentMap
    decreases |token| - j
  {
    if j < |token| && ['-', token[j]] in lay.argumentMap {
      var (r, after) := ConsumeAt(lay, cells, lay.argumentMap[['-', token[j]]], tokens, it, end);
      if r.Success? {
        CompoundKnown(lay, after, tokens, token, j + 1, r.result, end);
      }
    }
  }

  /** The whole parse: every token after the program name is stored once, was a known option, or reaches the subparser. */
  lemma EveryTokenPlaced(lay: Layout, cells: seq<Cell>, tokens: seq<string>, x: string)
    requires lay.Valid() && |cells| == |lay.settings| && |tokens| >= 1
    ensures var (outcome, last, names) := ParseFrom(lay, cells, tokens, 0, 1, |tokens|);
            && (x in names ==> KnownOption(lay, x))
            && (!outcome.Failed? ==>
                  Held(last, x) + Count(names, x) + Count(RestOf(outcome), x) == Held(cells, x) + Count(tokens[1..], x))
  {
    NothingLost(lay, cells, tokens, 0, 1, |tokens|, x);
    NamesAreOptions(lay, cells, tokens, 0, 1, |tokens|);
    CountSlice(tokens, 1, |tokens|, x);
    assert tokens[1..] == tokens[1..|tokens|];
  }

  class Parser {
    const layout: Layout
    const arguments: seq<Argument>

    constructor (layout: Layout, arguments: seq<Argument>)
      requires layout.Valid() && |arguments| == |layout.settings|
      requires forall i, j :: 0 <= i < j < |arguments| ==> arguments[i] != arguments[j]
      requires forall k :: 0 <= k < |arguments| ==> arguments[k].settings == layout.settings[k]
      ensures Valid() && this.layout == layout && this.arguments == arguments
    {
      this.layout, this.arguments := layout, arguments;
    }

    ghost predicate Valid() {
      && layout.Valid() && |arguments| == |layout.settings|
      && (forall i, j :: 0 <= i < j < |arguments| ==> arguments[i] != arguments[j])
      && (forall k :: 0 <= k < |arguments| ==> arguments[k].settings == layout.settings[k])
    }

    /** The state of every argument. */
    ghost function Cells(): (cells: seq<Cell>)
      reads arguments
      ensures |cells| == |arguments|
      ensures forall k :: 0 <= k < |arguments| ==> cells[k] == Cell(arguments[k].isUsed, arguments[k].values)
    {
      seq(|arguments|, k requires 0 <= k < |arguments| reads arguments => Cell(arguments[k].isUsed, arguments[k].values))
    }

    method ConsumeNext(k: nat, tokens: seq<string>, start: nat, end: nat, name: string) returns (r: Result<nat, ParseError>)
      requires Valid() && k < |arguments| && start <= end <= |tokens|
      modifies arguments[k]
      ensures (r, Cells()) == ConsumeAt(layout, old(Cells()), k, tokens, start, end)
    {
      ghost var before := Cells();
      var c := arguments[k].Consume(tokens, start, end, name);
      assert forall j :: 0 <= j < |arguments| && j != k ==> arguments[j] != arguments[k];
      assert Cells() == ConsumeAt(layout, before, k, tokens, start, end).1;
      r := match c case Success(next) => Success(next) case Failure(e) => Failure(InArgument(e));
    }

    method NoPositionalLeft(token: string) returns (error: ParseError)
      requires forall k :: k in layout.subparsers ==> |k| + |token| < SIZE_MAX
      ensures error == NoPositionalError(layout, token)
    {
      if layout.positionals != [] {
        return MaximumPositionalExceeded(token);
      }
      if layout.subparsers != [] {
        var similar, index := GetMostSimilarString(layout.subparsers, token);
        FirstNearestUnique(layout.subparsers, token, index, Nearest(layout.subparsers, token));
        return UnknownSubcommand(token, similar);
      }
      return ZeroPositionalExpected;
    }

    /** `-abc` stands for `-a -b -c`. */
    method ParseCompound(tokens: seq<string>, token: string, it0: nat, end: nat) returns (r: Result<nat, ParseError>)
      requires Valid() && it0 <= end <= |tokens|
      modifies arguments
      ensures (r, Cells()) == Compound(layout, old(Cells()), tokens, token, 1, it0, end)
    {
      var it: nat, j: nat := it0, 1;
      ghost var whole := Compound(layout, Cells(), tokens, token, 1, it0, end);
      while j < |token|
        invariant it <= end && whole == Compound(layout, Cells(), tokens, token, j, it, end)
      {
        var hypothetical := ['-', token[j]];
        if hypothetical !in layout.argumentMap {
          return Failure(UnknownArgument(token));
        }
        r := ConsumeNext(layout.argumentMap[hypothetical], tokens, it, end, hypothetical);
        if r.Failure? {
          return;
        }
        it := r.result;
        j := j + 1;
      }
      r := Success(it);
    }

    method ParseOption(tokens: seq<string>, it: nat, end: nat) returns (r: Result<nat, ParseError>)
      requires Valid() && it < end <= |tokens|
      modifies arguments
      ensures (r, Cells()) == OptionStep(layout, old(Cells()), tokens, it, end)
    {
      var current := tokens[it];
      if current in layout.argumentMap {
        r := ConsumeNext(layout.argumentMap[current], tokens, it + 1, end, current);
      } else if IsCompound(current, layout.prefixChars) {
        r := ParseCompound(tokens, current, it + 1, end);
      } else {
        r := Failure(UnknownArgument(current));
      }
    }

    method SplitReserved(tokens: seq<string>, pos: nat, it: nat, end: nat) returns (r: Result<nat, ParseError>)
      requires Valid() && pos < |layout.positionals| && it < end <= |tokens|
      modifies arguments
      ensures (r, Cells()) == Reserve(layout, old(Cells()), tokens, pos, it, end)
    {
      if !layout.LastReserved(pos) {
        return Success(end);
      }
      if it + 1 == end {
        return Failure(MissingPositional);
      }
      assert layout.positionals[pos + 1] in layout.positionals;
      r := ConsumeNext(layout.positionals[pos + 1], tokens, end - 1, end, "");
      if r.Success? {
        r := Success(end - 1);
      }
    }

    method ParsePositional(tokens: seq<string>, pos: nat, it: nat, end0: nat) returns (r: Result<nat, ParseError>, end: nat)
      requires Valid() && pos < |layout.positionals| && it < end0 <= |tokens|
      modifies arguments
      ensures (r, end, Cells()) == PositionalStep(layout, old(Cells()), tokens, pos, it, end0)
    {
      r := SplitReserved(tokens, pos, it, end0);
      if r.Failure? {
        return r, end0;
      }
      end := r.result;
      assert layout.positionals[pos] in layout.positionals;
      r := ConsumeNext(layout.positionals[pos], tokens, it, end, "");
    }

    method TakeTurn(tokens: seq<string>, pos: nat, it: nat, end: nat) returns (turned: Turned)
      requires Valid() && pos <= |layout.positionals| && it < end <= |tokens|
      requires forall k :: k in layout.subparsers ==> |k| + |tokens[it]| < SIZE_MAX
      modifies arguments
      ensures (turned, Cells()) == Turn(layout, old(Cells()), tokens, pos, it, end)
    {
      var current := tokens[it];
      var positional := IsPositional(current, layout.prefixChars);
      if !positional {
        var r := ParseOption(tokens, it, end);
        turned := if r.Failure? then Stop(Failed(r.error)) else Go(pos, r.result, end);
      } else if pos < |layout.positionals| {
        var r, stop := ParsePositional(tokens, pos, it, end);
        turned := if r.Failure? then Stop(Failed(r.error)) else Go(pos + 1, r.result, stop);
      } else if current in layout.subparsers {
        turned := Stop(Delegated(current, tokens[it..end]));
      } else {
        var error := NoPositionalLeft(current);
        turned := Stop(Failed(error));
      }
    }

    /** `parse_args_internal` on preprocessed tokens; the first one is the program name. */
    method ParseArgs(tokens: seq<string>) returns (outcome: Outcome)
      requires Valid() && |tokens| >= 1
      requires forall k, t :: k in layout.subparsers && t in tokens ==> |k| + |t| < SIZE_MAX
      modifies arguments
      ensures Gives(layout, old(Cells()), tokens, 0, 1, |tokens|, outcome, Cells())
    {
      var end: nat, pos: nat, it: nat := |tokens|, 0, 1;
      ghost var parse := ParseFrom(layout, Cells(), tokens, 0, 1, |tokens|);
      while it != end
        invariant Gives(layout, Cells(), tokens, pos, it, end, parse.0, parse.1)
        decreases |layout.positionals| - pos + end - it
      {
        var turned := TakeTurn(tokens, pos, it, end);
        if turned.Stop? {
          return turned.outcome;
        }
        pos, it, end := turned.pos, turned.it, turned.end;
      }
      outcome := Parsed;
    }
  }

  /** The parse from here ends with the given outcome and arguments. */
  ghost predicate Gives(lay: Layout, cells: seq<Cell>, tokens: seq<string>, pos: nat, it: nat, end: nat, outcome: Outcome, last: seq<Cell>) {
    && lay.Valid() && |cells| == |lay.settings| && pos <= |lay.positionals| && it <= end <= |tokens|
    && var parse := ParseFrom(lay, cells, tokens, pos, it, end); outcome == parse.0 && last == parse.1
  }
}
