/** String helpers shared by every script: Python's strip, ASCII lower-casing,
    code-point ordering of strings, join, find/rfind, split/replace and the
    decimal conversions behind int() and str(). */
module Text {
  import opened Wrappers

  // ---------------------------------------------------------------------
  // Whitespace and strip()
  // ---------------------------------------------------------------------

  /** str.isspace() on the ASCII range: space, \t \n \v \f \r and \x1c-\x1f. */
  predicate IsSpace(c: char) {
    c == ' ' || ('\t' <= c <= '\r') || ('\U{1C}' <= c <= '\U{1F}')
  }

  function TrimStart(s: string): (r: string)
    ensures |r| <= |s| && r == s[|s| - |r|..]
    ensures r == [] || !IsSpace(r[0])
    ensures forall i :: 0 <= i < |s| - |r| ==> IsSpace(s[i])
  {
    if s != [] && IsSpace(s[0]) then TrimStart(s[1..]) else s
  }

  function TrimEnd(s: string): (r: string)
    ensures |r| <= |s| && r == s[..|r|]
    ensures r == [] || !IsSpace(r[|r| - 1])
    ensures forall i :: |r| <= i < |s| ==> IsSpace(s[i])
  {
    if s != [] && IsSpace(s[|s| - 1]) then TrimEnd(s[..|s| - 1]) else s
  }

  /** Python's str.strip() with no argument. */
  function Trim(s: string): (r: string)
    ensures |r| <= |s|
    ensures r == [] || (!IsSpace(r[0]) && !IsSpace(r[|r| - 1]))
  {
    TrimEnd(TrimStart(s))
  }

  /** str.lstrip(c) for a single character c: the leading copies of c,
      and only they, are removed. */
  function StripCharStart(s: string, c: char): (r: string)
    ensures |r| <= |s| && r == s[|s| - |r|..]
    ensures r == [] || r[0] != c
    ensures forall i :: 0 <= i < |s| - |r| ==> s[i] == c
  {
    if s != [] && s[0] == c then StripCharStart(s[1..], c) else s
  }

  /** str.rstrip(c) for a single character c: the trailing copies of c,
      and only they, are removed. */
  function StripCharEnd(s: string, c: char): (r: string)
    ensures |r| <= |s| && r == s[..|r|]
    ensures r == [] || r[|r| - 1] != c
    ensures forall i :: |r| <= i < |s| ==> s[i] == c
  {
    if s != [] && s[|s| - 1] == c then StripCharEnd(s[..|s| - 1], c) else s
  }

  lemma TrimOfTrimmed(s: string)
    requires s == [] || (!IsSpace(s[0]) && !IsSpace(s[|s| - 1]))
    ensures Trim(s) == s
  {
  }

  /** One space on each side of a trimmed core is stripped again. */
  lemma TrimPadded(core: string)
    requires core != [] && !IsSpace(core[0]) && !IsSpace(core[|core| - 1])
    ensures Trim([' '] + core + [' ']) == core
  {
    var t := core + [' '];
    var s := [' '] + t;
    assert s[0] == ' ' && s[1..] == t;
    assert t[0] == core[0];
    assert TrimStart(s) == TrimStart(t) == t;
    assert t[|t| - 1] == ' ' && t[..|t| - 1] == core;
    assert TrimEnd(t) == TrimEnd(core) == core;
    assert [' '] + core + [' '] == s;
  }

  lemma TrimIdempotent(s: string)
    ensures Trim(Trim(s)) == Trim(s)
  {
    TrimOfTrimmed(Trim(s));
  }

  // ---------------------------------------------------------------------
  // ASCII lower-casing
  // ---------------------------------------------------------------------

  function LowerChar(c: char): char {
    if 'A' <= c <= 'Z' then (c as int + 32) as char else c
  }

  /** str.lower() on ASCII text: maps A-Z to a-z and keeps the length. */
  function Lower(s: string): (r: string)
    ensures |r| == |s|
    ensures forall i :: 0 <= i < |s| ==> r[i] == LowerChar(s[i])
  {
    seq(|s|, i requires 0 <= i < |s| => LowerChar(s[i]))
  }

  /** Text without capitals is its own lower-casing. */
  lemma LowerNoUpper(s: string)
    requires forall i :: 0 <= i < |s| ==> !('A' <= s[i] <= 'Z')
    ensures Lower(s) == s
  {
  }

  lemma LowerIdempotent(s: string)
    ensures Lower(Lower(s)) == Lower(s)
  {
  }

  lemma LowerConcat(a: string, b: string)
    ensures Lower(a + b) == Lower(a) + Lower(b)
  {
  }

  lemma LowerSlice(s: string, i: nat, j: nat)
    requires i <= j <= |s|
    ensures Lower(s[i..j]) == Lower(s)[i..j]
  {
  }

  // ---------------------------------------------------------------------
  // Code-point order of strings (Python's < on str)
  // ---------------------------------------------------------------------

  predicate StrLess(a: string, b: string) {
    if a == [] then b != []
    else if b == [] then false
    else if a[0] != b[0] then a[0] < b[0]
    else StrLess(a[1..], b[1..])
  }

  lemma {:induction false} StrLessIrreflexive(a: string)
    ensures !StrLess(a, a)
  {
    if a != [] { StrLessIrreflexive(a[1..]); }
  }

  lemma {:induction false} StrLessTransitive(a: string, b: string, c: string)
    requires StrLess(a, b) && StrLess(b, c)
    ensures StrLess(a, c)
  {
    if a != [] && b != [] && c != [] && a[0] == b[0] && b[0] == c[0] {
      StrLessTransitive(a[1..], b[1..], c[1..]);
    }
  }

  lemma {:induction false} StrLessTotal(a: string, b: string)
    requires a != b
    ensures StrLess(a, b) || StrLess(b, a)
  {
    if a != [] && b != [] && a[0] == b[0] {
      assert a == [a[0]] + a[1..] && b == [b[0]] + b[1..];
      StrLessTotal(a[1..], b[1..]);
    }
  }

  // ---------------------------------------------------------------------
  // join, find, rfind, split, replace
  // ---------------------------------------------------------------------

  /** sep.join(xs) */
  function Join(xs: seq<string>, sep: string): string {
    if |xs| == 0 then ""
    else if |xs| == 1 then xs[0]
    else xs[0] + sep + Join(xs[1..], sep)
  }

  predicate OccursAt(s: string, m: string, i: int) {
    0 <= i && i + |m| <= |s| && s[i..i + |m|] == m
  }

  /** The first occurrence of m in s at or after k (str.find from k). */
  function FindFrom(s: string, m: string, k: nat): (r: Option<nat>)
    ensures r.Some? ==> k <= r.value && OccursAt(s, m, r.value)
    ensures r.Some? ==> forall j :: k <= j < r.value ==> !OccursAt(s, m, j)
    ensures r.None? ==> forall j :: k <= j ==> !OccursAt(s, m, j)
    decreases |s| - k
  {
    if k + |m| > |s| then None
    else if s[k..k + |m|] == m then Some(k)
    else FindFrom(s, m, k + 1)
  }

  /** Python's `m in s`. */
  predicate Contains(s: string, m: string) {
    FindFrom(s, m, 0).Some?
  }

  lemma ContainsIff(s: string, m: string)
    ensures Contains(s, m) <==> exists i :: OccursAt(s, m, i)
  {
    var r := FindFrom(s, m, 0);
    if r.Some? { assert OccursAt(s, m, r.value); }
  }

  /** The last occurrence of m in s that starts at or before k. */
  function RFindUpTo(s: string, m: string, k: int): (r: Option<nat>)
    ensures r.Some? ==> r.value <= k && OccursAt(s, m, r.value)
    ensures r.Some? ==> forall j :: r.value < j <= k ==> !OccursAt(s, m, j)
    ensures r.None? ==> forall j :: j <= k ==> !OccursAt(s, m, j)
    decreases k + 1
  {
    if k < 0 then None
    else if OccursAt(s, m, k) then Some(k)
    else RFindUpTo(s, m, k - 1)
  }

  /** str.rfind(m): the last occurrence, None for Python's -1. */
  function RFind(s: string, m: string): (r: Option<nat>)
    ensures r.Some? ==> OccursAt(s, m, r.value)
    ensures r.Some? ==> forall j :: r.value < j ==> !OccursAt(s, m, j)
    ensures r.None? ==> forall j :: !OccursAt(s, m, j)
  {
    RFindUpTo(s, m, |s|)
  }

  /** s.split(m) for a non-empty separator: the pieces between the
      leftmost non-overlapping occurrences of m. */
  function SplitOn(s: string, m: string): (parts: seq<string>)
    requires |m| > 0
    ensures |parts| >= 1
    decreases |s|
  {
    match FindFrom(s, m, 0)
    case None => [s]
    case Some(i) => [s[..i]] + SplitOn(s[i + |m|..], m)
  }

  /** s.replace(m, t) for a non-empty m: every occurrence replaced, left to right. */
  function ReplaceAll(s: string, m: string, t: string): string
    requires |m| > 0
  {
    Join(SplitOn(s, m), t)
  }

  lemma JoinCons(x: string, xs: seq<string>, sep: string)
    requires |xs| >= 1
    ensures Join([x] + xs, sep) == x + sep + Join(xs, sep)
  {
    assert ([x] + xs)[1..] == xs;
  }

  /** Joining the pieces back with the separator gives the original string. */
  lemma {:induction false} SplitOnJoin(s: string, m: string)
    requires |m| > 0
    ensures Join(SplitOn(s, m), m) == s
    decreases |s|
  {
    match FindFrom(s, m, 0)
    case None =>
    case Some(i) =>
      var rest := s[i + |m|..];
      var tail := SplitOn(rest, m);
      assert SplitOn(s, m) == [s[..i]] + tail;
      SplitOnJoin(rest, m);
      JoinCons(s[..i], tail, m);
      assert s[i..i + |m|] == m;
      assert s == s[..i] + s[i..i + |m|] + rest;
  }

  /** No piece of the split contains the separator. */
  lemma {:induction false} SplitOnPiecesFree(s: string, m: string)
    requires |m| > 0
    ensures forall p :: p in SplitOn(s, m) ==> !Contains(p, m)
    decreases |s|
  {
    match FindFrom(s, m, 0)
    case None =>
      ContainsIff(s, m);
    case Some(i) =>
      var rest := s[i + |m|..];
      SplitOnPiecesFree(rest, m);
      var head := s[..i];
      forall j | 0 <= j && j + |m| <= |head| ensures !OccursAt(head, m, j) {
        assert head[j..j + |m|] == s[j..j + |m|];
        assert !OccursAt(s, m, j);
      }
      ContainsIff(head, m);
      assert SplitOn(s, m) == [head] + SplitOn(rest, m);
  }

  /** Replacing a separator that does not occur changes nothing. */
  lemma ReplaceAbsent(s: string, m: string, t: string)
    requires |m| > 0 && !Contains(s, m)
    ensures ReplaceAll(s, m, t) == s
  {
  }

  // ---------------------------------------------------------------------
  // Decimal text: str(n) and int(s)
  // ---------------------------------------------------------------------

  predicate IsDigit(c: char) { '0' <= c <= '9' }

  predicate AllDigits(s: string) { forall i :: 0 <= i < |s| ==> IsDigit(s[i]) }

  function DigitChar(d: nat): (c: char)
    requires d < 10
    ensures IsDigit(c)
  {
    ('0' as int + d) as char
  }

  /** The value of a string of decimal digits. */
  function DigitsValue(s: string): nat
    requires AllDigits(s)
  {
    if s == [] then 0 else DigitsValue(s[..|s| - 1]) * 10 + (s[|s| - 1] as int - '0' as int)
  }

  function NatToString(n: nat): (s: string)
    ensures |s| >= 1 && AllDigits(s)
    decreases n
  {
    if n < 10 then [DigitChar(n)] else NatToString(n / 10) + [DigitChar(n % 10)]
  }

  /** str(n) */
  function IntToString(n: int): (s: string)
    ensures |s| >= 1
  {
    if n < 0 then "-" + NatToString(-n) else NatToString(n)
  }

  lemma {:induction false} NatToStringValue(n: nat)
    ensures DigitsValue(NatToString(n)) == n
    decreases n
  {
    if n >= 10 {
      NatToStringValue(n / 10);
      var s := NatToString(n);
      assert s[..|s| - 1] == NatToString(n / 10);
    }
  }

  /** The digit groups int() accepts: digits, single underscores between digits. */
  predicate IsDigitRun(s: string) {
    && |s| >= 1 && IsDigit(s[0]) && IsDigit(s[|s| - 1])
    && (forall i :: 0 <= i < |s| ==> IsDigit(s[i]) || s[i] == '_')
    && (forall i, j :: 0 <= i < |s| && 0 <= j < |s| && j == i + 1 ==> !(s[i] == '_' && s[j] == '_'))
  }

  function DropUnderscores(s: string): (r: string)
    requires forall i :: 0 <= i < |s| ==> IsDigit(s[i]) || s[i] == '_'
    ensures AllDigits(r)
  {
    if s == [] then [] else (if s[0] == '_' then [] else [s[0]]) + DropUnderscores(s[1..])
  }

  /** The value of a digit run, or None for any other text. */
  function RunValue(body: string): (r: Option<nat>)
    ensures r.Some? <==> IsDigitRun(body)
  {
    if IsDigitRun(body) then Some(DigitsValue(DropUnderscores(body))) else None
  }

  /** int() of already-stripped text: an optional sign, then a digit run. */
  function ParseStripped(t: string): Option<int> {
    if t == [] then None
    else
      var body := if t[0] == '-' || t[0] == '+' then t[1..] else t;
      match RunValue(body)
      case None => None
      case Some(v) => Some(if t[0] == '-' then -(v as int) else v as int)
  }

  /** int(s) for base-10 text: surrounding whitespace, an optional sign,
      then a digit run; None where Python raises ValueError. */
  function ParseInt(s: string): (r: Option<int>)
    ensures r.Some? ==> Trim(s) != []
  {
    ParseStripped(Trim(s))
  }

  lemma {:induction false} DropUnderscoresOfDigits(s: string)
    requires AllDigits(s)
    ensures DropUnderscores(s) == s
  {
    if s != [] { DropUnderscoresOfDigits(s[1..]); }
  }

  /** A digit string is read as its value. */
  lemma RunValueOfDigits(digits: string)
    requires |digits| >= 1 && AllDigits(digits)
    ensures RunValue(digits) == Some(DigitsValue(digits))
  {
    assert IsDigitRun(digits);
    DropUnderscoresOfDigits(digits);
  }

  lemma IntToStringShape(n: int)
    ensures var s := IntToString(n);
      && Trim(s) == s && s != []
      && (n < 0 ==> s[0] == '-' && s[1..] == NatToString(-n))
      && (n >= 0 ==> s[0] != '-' && s[0] != '+' && s == NatToString(n))
  {
    var s := IntToString(n);
    var digits := if n < 0 then NatToString(-n) else NatToString(n);
    assert s[|s| - 1] == digits[|digits| - 1];
    assert IsDigit(s[0]) || s[0] == '-';
    TrimOfTrimmed(s);
  }

  /** int(str(n)) == n */
  lemma ParseIntOfIntToString(n: int)
    ensures ParseInt(IntToString(n)) == Some(n)
  {
    var s := IntToString(n);
    IntToStringShape(n);
    var a: nat := if n < 0 then -n else n;
    RunValueOfDigits(NatToString(a));
    NatToStringValue(a);
    assert ParseStripped(s) == Some(n);
  }
}
