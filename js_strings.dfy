/**
 * The JavaScript string built-ins the core relies on: `endsWith`, `indexOf`,
 * `replace` with a string pattern and an empty replacement, `trim`, `split(/\r?\n/)`
 * and the decimal rendering of a number inside a template literal.
 */
module JsStrings {
  import opened Wrappers

  predicate StartsWith(s: string, prefix: string) {
    |prefix| <= |s| && s[..|prefix|] == prefix
  }

  predicate EndsWith(s: string, suffix: string) {
    |suffix| <= |s| && s[|s| - |suffix|..] == suffix
  }

  /** `pat` occurs in `s` starting at index `i`. */
  predicate OccursAt(s: string, pat: string, i: nat) {
    i + |pat| <= |s| && s[i..i + |pat|] == pat
  }

  /** `s.indexOf(pat, from)`: the first index at or after `from` where `pat` occurs. */
  function IndexOfFrom(s: string, pat: string, from: nat): Option<nat>
    decreases |s| - from
  {
    if from + |pat| > |s| then None
    else if OccursAt(s, pat, from) then Some(from)
    else IndexOfFrom(s, pat, from + 1)
  }

  /** `indexOf` finds the first occurrence at or after `from`, and none means there is none. */
  lemma {:induction false} IndexOfFromSpec(s: string, pat: string, from: nat)
    ensures var r := IndexOfFrom(s, pat, from);
      && (r.Some? ==> from <= r.value && OccursAt(s, pat, r.value))
      && (r.Some? ==> forall j: nat :: from <= j < r.value ==> !OccursAt(s, pat, j))
      && (r.None? ==> forall j: nat :: from <= j ==> !OccursAt(s, pat, j))
    decreases |s| - from
  {
    if from + |pat| <= |s| && !OccursAt(s, pat, from) {
      IndexOfFromSpec(s, pat, from + 1);
    }
  }

  /** `s.indexOf(pat)`: the first occurrence of `pat` in `s`, if any. */
  function IndexOf(s: string, pat: string): Option<nat> {
    IndexOfFrom(s, pat, 0)
  }

  lemma IndexOfSpec(s: string, pat: string)
    ensures IndexOf(s, pat).Some? ==>
      OccursAt(s, pat, IndexOf(s, pat).value) && forall j: nat :: j < IndexOf(s, pat).value ==> !OccursAt(s, pat, j)
    ensures IndexOf(s, pat).None? ==> forall j: nat :: !OccursAt(s, pat, j)
  {
    IndexOfFromSpec(s, pat, 0);
  }

  /**
   * `s.replace(pat, '')` with a string pattern: JavaScript removes the FIRST
   * occurrence only, wherever it is, and leaves `s` alone when there is none.
   */
  function RemoveFirst(s: string, pat: string): (r: string)
    ensures IndexOf(s, pat).None? ==> r == s
    ensures IndexOf(s, pat).Some? ==> |r| == |s| - |pat|
  {
    IndexOfSpec(s, pat);
    match IndexOf(s, pat)
    case None => s
    case Some(i) => s[..i] + s[i + |pat|..]
  }

  /** Removing a prefix: the first occurrence is the one at index 0. */
  lemma RemoveFirstOfPrefix(s: string, pat: string, tail: string)
    requires s == pat + tail
    ensures RemoveFirst(s, pat) == tail
  {
    IndexOfSpec(s, pat);
    assert OccursAt(s, pat, 0);
  }

  /** Removing the first occurrence, once it is known where it is. */
  lemma RemoveFirstAt(s: string, pat: string, i: nat)
    requires OccursAt(s, pat, i)
    requires forall j: nat :: j < i ==> !OccursAt(s, pat, j)
    ensures RemoveFirst(s, pat) == s[..i] + s[i + |pat|..]
  {
    IndexOfSpec(s, pat);
    var r := IndexOf(s, pat);
    assert r.Some?;
    assert r.value == i;
  }

  /** Removing a suffix that occurs nowhere earlier leaves exactly the stem. */
  lemma RemoveFirstOfSoleSuffix(s: string, pat: string, stem: string)
    requires s == stem + pat
    requires forall j: nat :: j < |stem| ==> !OccursAt(s, pat, j)
    ensures RemoveFirst(s, pat) == stem
  {
    IndexOfSpec(s, pat);
    assert OccursAt(s, pat, |stem|);
  }

  /** WhiteSpace and LineTerminator code points of ECMA-262, which `trim` removes. */
  predicate IsJsWhitespace(c: char) {
    c == '\t' || c == '\n' || c == '\U{B}' || c == '\U{C}' || c == '\r' || c == ' '
    || c == '\U{A0}' || c == '\U{1680}' || ('\U{2000}' <= c <= '\U{200A}')
    || c == '\U{2028}' || c == '\U{2029}' || c == '\U{202F}' || c == '\U{205F}'
    || c == '\U{3000}' || c == '\U{FEFF}'
  }

  /** `s.trimStart()`. */
  function TrimStart(s: string): string {
    if s != [] && IsJsWhitespace(s[0]) then TrimStart(s[1..]) else s
  }

  /** `s.trimEnd()`. */
  function TrimEnd(s: string): string {
    if s != [] && IsJsWhitespace(s[|s| - 1]) then TrimEnd(s[..|s| - 1]) else s
  }

  /** `s.trim()`. */
  function Trim(s: string): string {
    TrimEnd(TrimStart(s))
  }

  /** `trimStart` drops the whitespace prefix and nothing else. */
  lemma {:induction false} TrimStartSpec(s: string)
    ensures var r := TrimStart(s);
      && |r| <= |s| && r == s[|s| - |r|..]
      && (forall i :: 0 <= i < |s| - |r| ==> IsJsWhitespace(s[i]))
      && (r != [] ==> !IsJsWhitespace(r[0]))
    decreases |s|
  {
    if s != [] && IsJsWhitespace(s[0]) {
      TrimStartSpec(s[1..]);
    }
  }

  /** `trimEnd` drops the whitespace suffix and nothing else. */
  lemma {:induction false} TrimEndSpec(s: string)
    ensures var r := TrimEnd(s);
      && |r| <= |s| && r == s[..|r|]
      && (forall i :: |r| <= i < |s| ==> IsJsWhitespace(s[i]))
      && (r != [] ==> !IsJsWhitespace(r[|r| - 1]))
    decreases |s|
  {
    if s != [] && IsJsWhitespace(s[|s| - 1]) {
      TrimEndSpec(s[..|s| - 1]);
    }
  }

  /**
   * `trim` leaves nothing exactly when the string is all whitespace, and
   * otherwise a result that neither starts nor ends with whitespace.
   */
  lemma TrimSpec(s: string)
    ensures |Trim(s)| <= |s|
    ensures Trim(s) == [] <==> forall i :: 0 <= i < |s| ==> IsJsWhitespace(s[i])
    ensures Trim(s) != [] ==> !IsJsWhitespace(Trim(s)[0]) && !IsJsWhitespace(Trim(s)[|Trim(s)| - 1])
  {
    var t := TrimStart(s);
    TrimStartSpec(s);
    TrimEndSpec(t);
    var r := TrimEnd(t);
    if r != [] {
      assert r[0] == t[0];
    }
  }

  /** A string whose ends are not whitespace is its own trim. */
  lemma TrimOfTrimmed(s: string)
    requires s != [] ==> !IsJsWhitespace(s[0]) && !IsJsWhitespace(s[|s| - 1])
    ensures Trim(s) == s
  {
    assert TrimStart(s) == s;
  }

  /** `trim` is idempotent. */
  lemma TrimIdempotent(s: string)
    ensures Trim(Trim(s)) == Trim(s)
  {
    TrimSpec(s);
    TrimOfTrimmed(Trim(s));
  }

  /** `s.trim() !== ''` holds exactly when `s` has a character that is not whitespace. */
  lemma TrimNonEmptyIff(s: string)
    ensures Trim(s) != "" <==> exists i :: 0 <= i < |s| && !IsJsWhitespace(s[i])
  {
    TrimSpec(s);
  }

  /**
   * `s.split(/\r?\n/)`: the pieces between line breaks, where a break is a
   * `\n` together with one `\r` directly before it. There is always at least
   * one piece; a trailing break yields a trailing empty piece.
   */
  function SplitLines(s: string): (pieces: seq<string>)
    ensures |pieces| >= 1
    decreases |s|
  {
    if s == [] then [""]
    else if s[0] == '\n' then [""] + SplitLines(s[1..])
    else if s[0] == '\r' && |s| > 1 && s[1] == '\n' then [""] + SplitLines(s[2..])
    else
      var rest := SplitLines(s[1..]);
      [[s[0]] + rest[0]] + rest[1..]
  }

  /** No piece of a split contains a line feed. */
  lemma {:induction false} SplitLinesHaveNoLineFeed(s: string)
    ensures forall i :: 0 <= i < |SplitLines(s)| ==> '\n' !in SplitLines(s)[i]
    decreases |s|
  {
    if s == [] {
    } else if s[0] == '\n' {
      SplitLinesHaveNoLineFeed(s[1..]);
    } else if s[0] == '\r' && |s| > 1 && s[1] == '\n' {
      SplitLinesHaveNoLineFeed(s[2..]);
    } else {
      SplitLinesHaveNoLineFeed(s[1..]);
      var rest := SplitLines(s[1..]);
      assert '\n' !in rest[0];
      assert SplitLines(s) == [[s[0]] + rest[0]] + rest[1..];
    }
  }

  /** `pieces.join(sep)`. */
  function JoinWith(pieces: seq<string>, sep: string): string {
    if pieces == [] then ""
    else if |pieces| == 1 then pieces[0]
    else pieces[0] + sep + JoinWith(pieces[1..], sep)
  }

  /** Joining after an empty first piece starts with the separator. */
  lemma JoinWithEmptyFirst(rest: seq<string>, sep: string)
    requires rest != []
    ensures JoinWith([""] + rest, sep) == sep + JoinWith(rest, sep)
  {
    assert ([""] + rest)[1..] == rest;
  }

  /** Extending the first piece extends the joined text at the front. */
  lemma JoinWithExtendFirst(c: char, pieces: seq<string>, sep: string)
    requires pieces != []
    ensures JoinWith([[c] + pieces[0]] + pieces[1..], sep) == [c] + JoinWith(pieces, sep)
  {
    var ext := [[c] + pieces[0]] + pieces[1..];
    assert ext[1..] == pieces[1..];
  }

  /** The text with every `\r\n` pair turned into `\n`; a lone `\r` stays. */
  function CrLfToLf(s: string): string
    decreases |s|
  {
    if s == [] then []
    else if |s| > 1 && s[0] == '\r' && s[1] == '\n' then "\n" + CrLfToLf(s[2..])
    else [s[0]] + CrLfToLf(s[1..])
  }

  /** Text without a carriage return is left as it is. */
  lemma {:induction false} CrLfToLfWithoutCr(s: string)
    requires '\r' !in s
    ensures CrLfToLf(s) == s
    decreases |s|
  {
    if s != [] {
      assert s[1..] == s[|[s[0]]|..];
      CrLfToLfWithoutCr(s[1..]);
      assert s == [s[0]] + s[1..];
    }
  }

  /**
   * Joining the pieces with `\n` gives back the text with its line breaks
   * written as `\n`: the split consumes `\n` and `\r\n` and nothing else,
   * so splitting loses no other character.
   */
  lemma {:induction false} SplitLinesJoin(s: string)
    ensures JoinWith(SplitLines(s), "\n") == CrLfToLf(s)
    decreases |s|
  {
    if s != [] {
      if s[0] == '\n' {
        SplitLinesJoin(s[1..]);
        JoinWithEmptyFirst(SplitLines(s[1..]), "\n");
      } else if s[0] == '\r' && |s| > 1 && s[1] == '\n' {
        SplitLinesJoin(s[2..]);
        JoinWithEmptyFirst(SplitLines(s[2..]), "\n");
      } else {
        SplitLinesJoin(s[1..]);
        JoinWithExtendFirst(s[0], SplitLines(s[1..]), "\n");
      }
    }
  }

  /** Without carriage returns, joining the pieces with `\n` gives back the text itself. */
  lemma SplitLinesJoinWithoutCr(s: string)
    requires '\r' !in s
    ensures JoinWith(SplitLines(s), "\n") == s
  {
    SplitLinesJoin(s);
    CrLfToLfWithoutCr(s);
  }

  /** The decimal digit for `d`. */
  function DigitChar(d: nat): (c: char)
    requires d < 10
    ensures '0' <= c <= '9' && (c as int) - ('0' as int) == d
  {
    ('0' as int + d) as char
  }

  predicate AllDigits(s: string) {
    forall i :: 0 <= i < |s| ==> '0' <= s[i] <= '9'
  }

  /** The number a string of decimal digits denotes. */
  function DigitsValue(s: string): nat
    requires AllDigits(s)
  {
    if s == [] then 0 else DigitsValue(s[..|s| - 1]) * 10 + ((s[|s| - 1] as int) - ('0' as int))
  }

  /** `${n}` for a non-negative integer: its decimal digits. */
  function NatToString(n: nat): (r: string)
    ensures |r| >= 1 && AllDigits(r)
    ensures r[0] == '0' ==> n == 0
  {
    if n < 10 then [DigitChar(n)] else NatToString(n / 10) + [DigitChar(n % 10)]
  }

  /** Reading the rendered digits back gives the number. */
  lemma {:induction false} NatToStringRoundTrip(n: nat)
    ensures DigitsValue(NatToString(n)) == n
  {
    if n >= 10 {
      NatToStringRoundTrip(n / 10);
      var r := NatToString(n);
      assert r[..|r| - 1] == NatToString(n / 10);
    }
  }
}
