/** `NormalizePath`: a path copied into a fresh buffer without its `\\?\` prefix and without repeated separators. */
module NormalizePath {
  import opened Wrappers

  predicate IsSeparator(c: char) {
    c == '/' || c == '\\'
  }

  predicate HasDevicePrefix(s: string) {
    "\\\\?\\" <= s
  }

  function WithoutPrefix(s: string): string {
    if HasDevicePrefix(s) then s[4..] else s
  }

  /** Each run of separators reduced to its first character: a separator right after a separator is dropped. */
  function FirstOfRuns(s: string): string {
    if s == "" then ""
    else
      var n := |s| - 1;
      if n > 0 && IsSeparator(s[n]) && IsSeparator(s[n - 1]) then FirstOfRuns(s[..n]) else FirstOfRuns(s[..n]) + [s[n]]
  }

  function Normalized(s: string): string {
    FirstOfRuns(WithoutPrefix(s))
  }

  /** What a C caller reads from a buffer: the characters before the first NUL. */
  function CString(buffer: seq<char>): string {
    if buffer == [] || buffer[0] == '\0' then "" else [buffer[0]] + CString(buffer[1..])
  }

  /** Character by character: the prefix is dropped, and then each slash or backslash right after a slash or backslash. */
  lemma NormalizedByCharacter(s: string, c: char)
    ensures Normalized("") == ""
    ensures |s| >= 4 && s[0] == '\\' && s[1] == '\\' && s[2] == '?' && s[3] == '\\' ==> Normalized(s) == FirstOfRuns(s[4..])
    ensures !(|s| >= 4 && s[0] == '\\' && s[1] == '\\' && s[2] == '?' && s[3] == '\\') ==> Normalized(s) == FirstOfRuns(s)
    ensures FirstOfRuns("") == ""
    ensures FirstOfRuns(s + [c]) ==
            if s != "" && (c == '/' || c == '\\') && (s[|s| - 1] == '/' || s[|s| - 1] == '\\') then FirstOfRuns(s) else FirstOfRuns(s) + [c]
  {
    PrefixByCharacters(s);
    PrefixByCharacters("");
    assert (s + [c])[..|s|] == s;
  }

  // ---- Properties of the result ----

  ghost predicate NoAdjacentSeparators(s: string) {
    forall i :: 0 < i < |s| ==> !(IsSeparator(s[i]) && IsSeparator(s[i - 1]))
  }

  function OtherCharacters(s: string): string {
    if s == "" then ""
    else OtherCharacters(s[..|s| - 1]) + if IsSeparator(s[|s| - 1]) then "" else [s[|s| - 1]]
  }

  /** The result ends in a separator exactly when the input does. */
  lemma {:induction false} SameEnd(s: string)
    ensures |FirstOfRuns(s)| <= |s| && (FirstOfRuns(s) == "" <==> s == "")
    ensures s != "" ==> (IsSeparator(FirstOfRuns(s)[|FirstOfRuns(s)| - 1]) <==> IsSeparator(s[|s| - 1]))
    decreases |s|
  {
    if s != "" {
      var n := |s| - 1;
      SameEnd(s[..n]);
      if n > 0 {
        assert s[..n][n - 1] == s[n - 1];
      }
    }
  }

  /** No two separators are adjacent. */
  lemma {:induction false} NoRunsLeft(s: string)
    ensures NoAdjacentSeparators(FirstOfRuns(s))
    decreases |s|
  {
    if s != "" {
      NoRunsLeft(s[..|s| - 1]);
      NextCharacter(s, |s| - 1);
      assert s[..|s| - 1 + 1] == s;
    }
  }

  lemma OthersAppend(s: string, c: char)
    ensures OtherCharacters(s + [c]) == OtherCharacters(s) + if IsSeparator(c) then "" else [c]
  {
    assert (s + [c])[..|s|] == s;
  }

  /** All characters other than separators are kept in order. */
  lemma {:induction false} OthersKept(s: string)
    ensures OtherCharacters(FirstOfRuns(s)) == OtherCharacters(s)
    decreases |s|
  {
    if s != "" {
      var n := |s| - 1;
      OthersKept(s[..n]);
      OthersAppend(FirstOfRuns(s[..n]), s[n]);
    }
  }

  lemma NoAdjacentPrefix(s: string, n: nat)
    requires NoAdjacentSeparators(s) && n <= |s|
    ensures NoAdjacentSeparators(s[..n])
  {
  }

  /** A string without adjacent separators is its own result. */
  lemma {:induction false} AlreadyCollapsed(s: string)
    requires NoAdjacentSeparators(s)
    ensures FirstOfRuns(s) == s
    decreases |s|
  {
    if s != "" {
      var n := |s| - 1;
      NoAdjacentPrefix(s, n);
      AlreadyCollapsed(s[..n]);
      assert s == s[..n] + [s[n]];
    }
  }

  lemma DevicePrefixRepeats(s: string)
    requires HasDevicePrefix(s)
    ensures !NoAdjacentSeparators(s)
  {
    PrefixByCharacters(s);
    assert IsSeparator(s[1]) && IsSeparator(s[0]);
  }

  /** Normalising twice is normalising once: a normalised path cannot begin with two separators. */
  lemma NormalizeIdempotent(s: string)
    ensures Normalized(Normalized(s)) == Normalized(s)
  {
    var r := Normalized(s);
    NoRunsLeft(WithoutPrefix(s));
    if HasDevicePrefix(r) {
      DevicePrefixRepeats(r);
    }
    AlreadyCollapsed(r);
  }

  lemma {:induction false} CStringIs(buffer: seq<char>, n: nat)
    requires n < |buffer| && buffer[n] == '\0' && forall i :: 0 <= i < n ==> buffer[i] != '\0'
    ensures CString(buffer) == buffer[..n]
    decreases n
  {
    if n > 0 {
      CStringIs(buffer[1..], n - 1);
      assert buffer[..n] == [buffer[0]] + buffer[1..][..n - 1];
    }
  }

  lemma {:induction false} KeepsNonNul(s: string)
    requires '\0' !in s
    ensures '\0' !in FirstOfRuns(s)
    decreases |s|
  {
    if s != "" {
      var n := |s| - 1;
      assert s == s[..n] + [s[n]];
      KeepsNonNul(s[..n]);
    }
  }

  // ---- The buffer ----

  /** Reading a C string at its length yields the terminator. */
  function At(path: string, i: nat): char
    requires i <= |path|
  {
    if i < |path| then path[i] else '\0'
  }

  /** `Longtail_Strdup`. */
  method Strdup(path: string) returns (copy: array<char>)
    ensures fresh(copy) && copy.Length == |path| + 1 && copy[..] == path + ['\0']
  {
    copy := new char[|path| + 1](i requires 0 <= i < |path| + 1 => if i < |path| then path[i] else '\0');
  }

  method Normalize(path: Option<string>) returns (normalized: array?<char>)
    requires path.Some? ==> '\0' !in path.value
    ensures path.None? ==> normalized == null
    ensures path.Some? ==> normalized != null && fresh(normalized) && CString(normalized[..]) == Normalized(path.value)
  {
    if path.None? {
      return null;
    }
    var source := path.value;
    var buffer := Strdup(source);
    var ri := 0;
    assert forall i :: 0 <= i <= |source| ==> buffer[..][i] == buffer[i];
    if buffer[0] == '\\' && buffer[1] == '\\' && buffer[2] == '?' && buffer[3] == '\\' {
      ri := ri + 4;
    }
    assert WithoutPrefix(source) == source[ri..] by {
      PrefixByCharacters(source);
    }
    var wi := CopyRuns(buffer, source, ri);
    buffer[wi] := '\0';
    assert forall c :: c in source[ri..] ==> c in source;
    Terminated(buffer[..], wi, source[ri..]);
    normalized := buffer;
  }

  /** The copying loop: the write index never passes the read index. */
  method CopyRuns(buffer: array<char>, source: string, start: nat) returns (wi: nat)
    requires '\0' !in source && start <= |source| && buffer.Length == |source| + 1
    modifies buffer
    ensures wi <= |source| && buffer[..wi] == FirstOfRuns(source[start..])
  {
    ghost var stripped := source[start..];
    var ri := start;
    wi := 0;
    ghost var out, k := "", 0;
    assert stripped[..k] == "";
    NoInnerNul(source);
    while At(source, ri) != '\0'
      invariant k <= |stripped| && ri == start + k && wi <= k
      invariant buffer[..wi] == out && out == FirstOfRuns(stripped[..k])
      decreases |source| - ri
    {
      NextCharacter(stripped, k);
      var c := source[ri];
      ghost var next := FirstOfRuns(stripped[..k + 1]);
      assert stripped[k] == c && (wi > 0 ==> buffer[wi - 1] == out[wi - 1]);
      if IsSeparator(c) && wi != 0 && IsSeparator(buffer[wi - 1]) {
        assert next == out;
        ri := ri + 1;
      } else {
        assert next == out + [c];
        buffer[wi] := c;
        wi, ri := wi + 1, ri + 1;
        assert buffer[..wi] == next;
      }
      out, k := next, k + 1;
    }
    assert stripped[..k] == stripped;
  }

  /** One more character of the input, decided by the last character written. */
  lemma NextCharacter(s: string, n: nat)
    requires n < |s|
    ensures var r := FirstOfRuns(s[..n]);
            FirstOfRuns(s[..n + 1]) ==
            if r != "" && IsSeparator(r[|r| - 1]) && IsSeparator(s[n]) then r else r + [s[n]]
  {
    SameEnd(s[..n]);
    assert s[..n + 1][..n] == s[..n];
    if n > 0 {
      assert s[..n][n - 1] == s[n - 1];
    }
  }

  lemma Terminated(buffer: seq<char>, n: nat, s: string)
    requires n < |buffer| && buffer[n] == '\0' && buffer[..n] == FirstOfRuns(s) && '\0' !in s
    ensures CString(buffer) == FirstOfRuns(s)
  {
    KeepsNonNul(s);
    assert forall i :: 0 <= i < n ==> buffer[i] == buffer[..n][i] && buffer[..n][i] in buffer[..n];
    CStringIs(buffer, n);
  }

  lemma NoInnerNul(s: string)
    requires '\0' !in s
    ensures forall i :: 0 <= i < |s| ==> s[i] != '\0'
  {
  }

  lemma PrefixByCharacters(s: string)
    ensures HasDevicePrefix(s) <==> |s| >= 4 && s[0] == '\\' && s[1] == '\\' && s[2] == '?' && s[3] == '\\'
  {
  }
}
