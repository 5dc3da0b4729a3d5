/** The argument parser's recogniser of decimal literals, against the grammar written above it. */
module DecimalLiteral {

  // ---- The grammar ----

  predicate IsDigit(c: char) {
    '0' <= c <= '9'
  }

  /** digit-sequence, and integer-part. */
  predicate DigitSequence(s: string) {
    s != "" && forall i :: 0 <= i < |s| ==> IsDigit(s[i])
  }

  /** sign_opt digit-sequence. */
  predicate PostE(s: string) {
    DigitSequence(s) || (s != "" && (s[0] == '+' || s[0] == '-') && DigitSequence(s[1..]))
  }

  /** 'e' post-e | 'E' post-e. */
  predicate ExponentPart(s: string) {
    s != "" && (s[0] == 'e' || s[0] == 'E') && PostE(s[1..])
  }

  predicate ExponentPartOpt(s: string) {
    s == "" || ExponentPart(s)
  }

  /** digit-sequence exponent-part_opt. */
  ghost predicate PostDecimalPoint(s: string) {
    exists i :: 0 <= i <= |s| && DigitSequence(s[..i]) && ExponentPartOpt(s[i..])
  }

  /** '.' post-decimal-point. */
  ghost predicate FractionalPart(s: string) {
    s != "" && s[0] == '.' && PostDecimalPoint(s[1..])
  }

  /** '.' exponent-part_opt. */
  predicate PointExponentOpt(s: string) {
    s != "" && s[0] == '.' && ExponentPartOpt(s[1..])
  }

  /** What may follow an integer part. */
  ghost predicate AfterInteger(s: string) {
    FractionalPart(s) || PointExponentOpt(s) || ExponentPart(s)
  }

  /** decimal-literal, one disjunct for each alternative that does not begin with an integer part, and one for
      the three that do. */
  ghost predicate IsLiteral(s: string) {
    || s == "0"
    || (s != "" && '1' <= s[0] <= '9' && forall i :: 1 <= i < |s| ==> IsDigit(s[i]))
    || FractionalPart(s)
    || exists i :: 0 <= i <= |s| && DigitSequence(s[..i]) && AfterInteger(s[i..])
  }

  // ---- The literals, written out ----

  ghost predicate Digits(s: string) {
    forall i :: 0 <= i < |s| ==> '0' <= s[i] <= '9'
  }

  /** Digits, possibly a point and more digits, with a digit on some side of it, and possibly an exponent; an integer,
      which has neither point nor exponent, has no leading zero. */
  ghost predicate Number(whole: string, point: bool, fraction: string, exponent: string) {
    && Digits(whole) && Digits(fraction) && (whole != "" || fraction != "") && (!point ==> fraction == "")
    && (!point && exponent == "" ==> whole == "0" || (whole != "" && whole[0] != '0'))
    && (exponent != "" ==>
          && (exponent[0] == 'e' || exponent[0] == 'E')
          && exists sign, digits :: exponent[1..] == sign + digits && sign in {"", "+", "-"} && digits != "" && Digits(digits))
  }

  function Text(whole: string, point: bool, fraction: string, exponent: string): string {
    whole + (if point then "." else "") + fraction + exponent
  }

  lemma DigitsIff(s: string)
    ensures DigitSequence(s) <==> s != "" && Digits(s)
  {
  }

  lemma ExponentIff(e: string)
    ensures ExponentPart(e) <==>
            && e != "" && (e[0] == 'e' || e[0] == 'E')
            && exists sign, digits :: e[1..] == sign + digits && sign in {"", "+", "-"} && digits != "" && Digits(digits)
  {
    if e != "" {
      var t := e[1..];
      if PostE(t) {
        if DigitSequence(t) {
          assert t == "" + t;
        } else {
          assert t == [t[0]] + t[1..];
        }
      }
      if sign, digits :| t == sign + digits && sign in {"", "+", "-"} && digits != "" && Digits(digits) {
        DigitsIff(digits);
        if sign == "" {
          assert t == digits;
        } else {
          assert t[0] == sign[0] && t[1..] == digits;
        }
      }
    }
  }

  lemma PostPointIff(s: string)
    ensures PostDecimalPoint(s) <==>
            exists fraction, exponent :: s == fraction + exponent && DigitSequence(fraction) && ExponentPartOpt(exponent)
  {
    if i :| 0 <= i <= |s| && DigitSequence(s[..i]) && ExponentPartOpt(s[i..]) {
      assert s == s[..i] + s[i..];
    }
    if fraction, exponent :| s == fraction + exponent && DigitSequence(fraction) && ExponentPartOpt(exponent) {
      var i := |fraction|;
      assert s[..i] == fraction && s[i..] == exponent;
    }
  }

  /** What follows an integer part: a point, with or without digits behind it, or no point but an exponent. */
  ghost predicate Tail(s: string, point: bool, fraction: string, exponent: string) {
    && s == Text("", point, fraction, exponent)
    && Digits(fraction) && (!point ==> fraction == "" && exponent != "") && ExponentPartOpt(exponent)
  }

  lemma TailPoint(s: string, fraction: string, exponent: string)
    ensures s == Text("", true, fraction, exponent) <==> s != "" && s[0] == '.' && s[1..] == fraction + exponent
  {
    assert Text("", true, fraction, exponent) == "." + (fraction + exponent);
  }

  lemma TailPlain(exponent: string)
    ensures Text("", false, "", exponent) == exponent
  {
  }

  lemma AfterIntegerHasTail(s: string)
    requires AfterInteger(s)
    ensures exists point, fraction, exponent :: Tail(s, point, fraction, exponent)
  {
    if FractionalPart(s) {
      PostPointIff(s[1..]);
      var fraction, exponent :| s[1..] == fraction + exponent && DigitSequence(fraction) && ExponentPartOpt(exponent);
      TailPoint(s, fraction, exponent);
      assert Tail(s, true, fraction, exponent);
    } else if PointExponentOpt(s) {
      assert s[1..] == "" + s[1..];
      TailPoint(s, "", s[1..]);
      assert Tail(s, true, "", s[1..]);
    } else {
      TailPlain(s);
      assert Tail(s, false, "", s);
    }
  }

  lemma TailIsAfterInteger(s: string, point: bool, fraction: string, exponent: string)
    requires Tail(s, point, fraction, exponent)
    ensures AfterInteger(s)
  {
    if point {
      TailPoint(s, fraction, exponent);
      if fraction == "" {
        assert s[1..] == exponent;
      } else {
        PostPointIff(s[1..]);
      }
    } else {
      TailPlain(exponent);
    }
  }

  /** The grammar's language. */
  lemma LiteralIff(s: string)
    ensures IsLiteral(s) <==> exists whole, point, fraction, exponent ::
              s == Text(whole, point, fraction, exponent) && Number(whole, point, fraction, exponent)
  {
    if IsLiteral(s) {
      LiteralIsNumber(s);
    }
    if whole, point, fraction, exponent :| s == Text(whole, point, fraction, exponent) && Number(whole, point, fraction, exponent) {
      NumberIsLiteral(s, whole, point, fraction, exponent);
    }
  }

  lemma TextFront(whole: string, point: bool, fraction: string, exponent: string)
    ensures Text(whole, point, fraction, exponent) == whole + Text("", point, fraction, exponent)
  {
  }

  lemma NumberIsLiteral(s: string, whole: string, point: bool, fraction: string, exponent: string)
    requires s == Text(whole, point, fraction, exponent) && Number(whole, point, fraction, exponent)
    ensures IsLiteral(s)
  {
    ExponentIff(exponent);
    var rest := Text("", point, fraction, exponent);
    TextFront(whole, point, fraction, exponent);
    if !point && exponent == "" {
      assert s == whole;
    } else if whole == "" {
      TailPoint(s, fraction, exponent);
      DigitsIff(fraction);
      PostPointIff(s[1..]);
      assert FractionalPart(s);
    } else {
      var i := |whole|;
      assert s[..i] == whole && s[i..] == rest;
      assert Tail(rest, point, fraction, exponent);
      TailIsAfterInteger(rest, point, fraction, exponent);
      DigitsIff(whole);
      assert DigitSequence(s[..i]) && AfterInteger(s[i..]);
    }
  }

  lemma FractionIsNumber(s: string)
    requires FractionalPart(s)
    ensures exists fraction, exponent :: s == Text("", true, fraction, exponent) && Number("", true, fraction, exponent)
  {
    PostPointIff(s[1..]);
    var fraction, exponent :| s[1..] == fraction + exponent && DigitSequence(fraction) && ExponentPartOpt(exponent);
    ExponentIff(exponent);
    TailPoint(s, fraction, exponent);
    assert Number("", true, fraction, exponent);
  }

  lemma IntegerThenIsNumber(s: string, i: nat)
    requires i <= |s| && DigitSequence(s[..i]) && AfterInteger(s[i..])
    ensures exists point, fraction, exponent :: s == Text(s[..i], point, fraction, exponent) && Number(s[..i], point, fraction, exponent)
  {
    AfterIntegerHasTail(s[i..]);
    var point, fraction, exponent :| Tail(s[i..], point, fraction, exponent);
    ExponentIff(exponent);
    TextFront(s[..i], point, fraction, exponent);
    assert s == s[..i] + s[i..];
    assert Number(s[..i], point, fraction, exponent);
  }

  lemma IntegerIsNumber(s: string)
    requires s == "0" || (s != "" && '1' <= s[0] <= '9' && forall i :: 1 <= i < |s| ==> IsDigit(s[i]))
    ensures s == Text(s, false, "", "") && Number(s, false, "", "")
  {
  }

  lemma LiteralIsNumber(s: string)
    requires IsLiteral(s)
    ensures exists whole, point, fraction, exponent ::
              s == Text(whole, point, fraction, exponent) && Number(whole, point, fraction, exponent)
  {
    if s == "0" || (s != "" && '1' <= s[0] <= '9' && forall i :: 1 <= i < |s| ==> IsDigit(s[i])) {
      IntegerIsNumber(s);
    } else if FractionalPart(s) {
      FractionIsNumber(s);
    } else {
      var i :| 0 <= i <= |s| && DigitSequence(s[..i]) && AfterInteger(s[i..]);
      IntegerThenIsNumber(s, i);
    }
  }

  // ---- Consuming digits ----

  function DropDigits(s: string): (r: string)
    ensures |r| <= |s|
    ensures r == "" || !IsDigit(r[0])
  {
    if s != "" && IsDigit(s[0]) then DropDigits(s[1..]) else s
  }

  lemma {:induction false} DropDigitsSplit(s: string)
    ensures var i := |s| - |DropDigits(s)|; DropDigits(s) == s[i..] && forall k :: 0 <= k < i ==> IsDigit(s[k])
    decreases |s|
  {
    if s != "" && IsDigit(s[0]) {
      DropDigitsSplit(s[1..]);
      var i := |s| - |DropDigits(s)|;
      assert s[1..][i - 1..] == s[i..];
      forall k | 0 <= k < i
        ensures IsDigit(s[k])
      {
        assert k > 0 ==> s[k] == s[1..][k - 1];
      }
    }
  }

  /** A digit sequence followed by something that begins with no digit ends where the digits end. */
  lemma {:induction false} DigitsEnd(s: string, i: nat)
    requires i <= |s| && (forall k :: 0 <= k < i ==> IsDigit(s[k])) && (i < |s| ==> !IsDigit(s[i]))
    ensures DropDigits(s) == s[i..]
    decreases i
  {
    if i > 0 {
      assert forall k :: 0 <= k < i - 1 ==> s[1..][k] == s[k + 1];
      DigitsEnd(s[1..], i - 1);
      assert s[1..][i - 1..] == s[i..];
    }
  }

  method ConsumeDigits(s: string) returns (r: string)
    ensures r == DropDigits(s)
  {
    var it := 0;
    while it < |s| && IsDigit(s[it])
      invariant 0 <= it <= |s|
      invariant forall k :: 0 <= k < it ==> IsDigit(s[k])
    {
      it := it + 1;
    }
    DigitsEnd(s, it);
    r := s[it..];
  }

  /** The longest digit prefix is the only one the grammar can use. */
  lemma LongestPrefix(s: string, i: nat)
    requires i <= |s| && DigitSequence(s[..i]) && (s[i..] == "" || !IsDigit(s[i..][0]))
    ensures s[i..] == DropDigits(s)
  {
    forall k | 0 <= k < i
      ensures IsDigit(s[k])
    {
      assert s[..i][k] == s[k];
    }
    DigitsEnd(s, i);
  }

  lemma PostDecimalPointIs(s: string)
    ensures PostDecimalPoint(s) <==> s != "" && IsDigit(s[0]) && ExponentPartOpt(DropDigits(s))
  {
    if i :| 0 <= i <= |s| && DigitSequence(s[..i]) && ExponentPartOpt(s[i..]) {
      LongestPrefix(s, i);
      assert s[0] == s[..i][0];
    }
    if s != "" && IsDigit(s[0]) && ExponentPartOpt(DropDigits(s)) {
      DropDigitsSplit(s);
      var i := |s| - |DropDigits(s)|;
      assert i > 0 && DigitSequence(s[..i]);
    }
  }

  lemma IntegerThenIs(s: string)
    ensures (exists i :: 0 <= i <= |s| && DigitSequence(s[..i]) && AfterInteger(s[i..])) <==>
            s != "" && IsDigit(s[0]) && AfterInteger(DropDigits(s))
  {
    if i :| 0 <= i <= |s| && DigitSequence(s[..i]) && AfterInteger(s[i..]) {
      LongestPrefix(s, i);
      assert s[0] == s[..i][0];
    }
    if s != "" && IsDigit(s[0]) && AfterInteger(DropDigits(s)) {
      DropDigitsSplit(s);
      var i := |s| - |DropDigits(s)|;
      assert i > 0 && DigitSequence(s[..i]);
    }
  }

  // ---- The goto machine ----

  /** The labels of the function body, and its two returns. */
  datatype Label = Entry | IntegerPart | IntegerPartConsumed | PostDecimalPointLabel | ExponentPartOptLabel | PostELabel
                 | Return(result: bool)

  /** What the rest of the input must be for the machine to accept from a label. */
  ghost predicate Language(at: Label, s: string) {
    match at
    case Entry => IsLiteral(s)
    case IntegerPart => AfterInteger(DropDigits(s))
    case IntegerPartConsumed => AfterInteger(s)
    case PostDecimalPointLabel => PostDecimalPoint(s)
    case ExponentPartOptLabel => ExponentPartOpt(s)
    case PostELabel => PostE(s)
    case Return(result) => result
  }

  /** Gotos only jump forward. */
  function Rank(at: Label): nat {
    match at
    case Entry => 6
    case IntegerPart => 5
    case IntegerPartConsumed => 4
    case PostDecimalPointLabel => 3
    case ExponentPartOptLabel => 2
    case PostELabel => 1
    case Return(_) => 0
  }

  lemma LiteralByFirst(s: string)
    ensures s == "" ==> !IsLiteral(s)
    ensures s != "" && s[0] == '0' ==> (IsLiteral(s) <==> s == "0" || AfterInteger(DropDigits(s[1..])))
    ensures s != "" && '1' <= s[0] <= '9' ==> (IsLiteral(s) <==> DropDigits(s) == "" || AfterInteger(DropDigits(s)))
    ensures s != "" && s[0] == '.' ==> (IsLiteral(s) <==> PostDecimalPoint(s[1..]))
    ensures s != "" && !IsDigit(s[0]) && s[0] != '.' ==> !IsLiteral(s)
  {
    IntegerThenIs(s);
    DropDigitsSplit(s);
    if s != "" && '1' <= s[0] <= '9' && forall i :: 1 <= i < |s| ==> IsDigit(s[i]) {
      DigitsEnd(s, |s|);
    }
  }

  lemma AfterIntegerByFirst(s: string)
    ensures AfterInteger(s) <==>
            s != "" && (if s[0] == '.' then (if s[1..] != "" && IsDigit(s[1..][0]) then PostDecimalPoint(s[1..]) else ExponentPartOpt(s[1..]))
                        else (s[0] == 'e' || s[0] == 'E') && PostE(s[1..]))
  {
  }

  lemma PostEByFirst(s: string)
    ensures var r := if s != "" && (s[0] == '-' || s[0] == '+') then s[1..] else s;
            PostE(s) <==> r != "" && IsDigit(r[0]) && DropDigits(r) == ""
  {
    var r := if s != "" && (s[0] == '-' || s[0] == '+') then s[1..] else s;
    if r != "" && IsDigit(r[0]) && DropDigits(r) == "" {
      DropDigitsSplit(r);
    }
    if DigitSequence(r) {
      DigitsEnd(r, |r|);
    }
  }

  /** One pass through the code at a label: the new label and the rest of the view accept the same inputs. */
  method Jump(at: Label, view: string) returns (next: Label, s: string)
    requires !at.Return?
    ensures Language(next, s) <==> Language(at, view)
    ensures Rank(next) < Rank(at)
  {
    s := view;
    match at
    case Entry =>
      LiteralByFirst(s);
      if s == "" {
        return Return(false), s;
      } else if s[0] == '0' {
        s := s[1..];
        if s == "" {
          return Return(true), s;
        }
        next := IntegerPart;
      } else if '1' <= s[0] <= '9' {
        s := ConsumeDigits(s);
        if s == "" {
          return Return(true), s;
        }
        next := IntegerPartConsumed;
      } else if s[0] == '.' {
        s := s[1..];
        next := PostDecimalPointLabel;
      } else {
        next := Return(false);
      }
    case IntegerPart =>
      s := ConsumeDigits(s);
      next := IntegerPartConsumed;
    case IntegerPartConsumed =>
      AfterIntegerByFirst(s);
      if s != "" && s[0] == '.' {
        s := s[1..];
        next := if s != "" && IsDigit(s[0]) then PostDecimalPointLabel else ExponentPartOptLabel;
      } else if s != "" && (s[0] == 'e' || s[0] == 'E') {
        s := s[1..];
        next := PostELabel;
      } else {
        next := Return(false);
      }
    case PostDecimalPointLabel =>
      PostDecimalPointIs(s);
      if s != "" && IsDigit(s[0]) {
        s := ConsumeDigits(s);
        next := ExponentPartOptLabel;
      } else {
        next := Return(false);
      }
    case ExponentPartOptLabel =>
      if s == "" {
        next := Return(true);
      } else if s[0] == 'e' || s[0] == 'E' {
        s := s[1..];
        next := PostELabel;
      } else {
        next := Return(false);
      }
    case PostELabel =>
      PostEByFirst(s);
      if s != "" && (s[0] == '-' || s[0] == '+') {
        s := s[1..];
      }
      if s != "" && IsDigit(s[0]) {
        s := ConsumeDigits(s);
        return Return(s == ""), s;
      }
      next := Return(false);
  }

  /** The machine accepts exactly the strings of the grammar. */
  method IsDecimalLiteral(view: string) returns (accepted: bool)
    ensures accepted <==> IsLiteral(view)
  {
    var at, s := Entry, view;
    while !at.Return?
      invariant Language(at, s) <==> IsLiteral(view)
      decreases Rank(at)
    {
      at, s := Jump(at, s);
    }
    accepted := at.result;
  }

  // ---- is_positional ----

  /** Empty, not beginning with a prefix character, a lone prefix character, or a prefix character and a literal. */
  ghost predicate Positional(name: string, prefixChars: string) {
    name == "" || name[0] !in prefixChars || name[1..] == "" || IsLiteral(name[1..])
  }

  method IsPositional(name: string, prefixChars: string) returns (positional: bool)
    ensures positional <==> Positional(name, prefixChars)
    ensures positional <==> name == "" || name[0] !in prefixChars || |name| == 1 || IsLiteral(name[1..])
  {
    if name == "" {
      return true;
    }
    if name[0] in prefixChars {
      var rest := name[1..];
      if rest == "" {
        return true;
      }
      positional := IsDecimalLiteral(rest);
      return;
    }
    return true;
  }
}
