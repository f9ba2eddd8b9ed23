/** The JavaScript string built-ins that the modelled code calls, on strings
    as sequences of characters: `split` on a one-character separator, `join`,
    `trim`, `parseInt` with radix 10, `replace` of the first occurrence of a
    literal pattern, number-to-string conversion, and the default ordering
    that `Array.prototype.sort` applies to strings. */
module Strings {
  import opened Common

  predicate IsDigit(c: char) { '0' <= c <= '9' }

  predicate AllDigits(s: string) { forall i :: 0 <= i < |s| ==> IsDigit(s[i]) }

  /** The `\w` class of a regular expression without the `u` flag. */
  predicate IsWordChar(c: char) {
    ('a' <= c <= 'z') || ('A' <= c <= 'Z') || IsDigit(c) || c == '_'
  }

  /** ECMAScript WhiteSpace and LineTerminator code points: what `trim`
      removes and what `parseInt` skips before the number. */
  predicate IsJsSpace(c: char) {
    c == '\t' || c == '\n' || c == '\U{000B}' || c == '\U{000C}' || c == '\r' || c == ' '
    || c == '\U{00A0}' || c == '\U{1680}' || ('\U{2000}' <= c <= '\U{200A}')
    || c == '\U{2028}' || c == '\U{2029}' || c == '\U{202F}' || c == '\U{205F}'
    || c == '\U{3000}' || c == '\U{FEFF}'
  }

  // ---------------------------------------------------------------------
  // Numbers as decimal strings

  function DigitChar(d: nat): (c: char)
    requires d < 10
    ensures IsDigit(c)
  {
    ('0' as int + d) as char
  }

  function DigitValue(c: char): nat
    requires IsDigit(c)
  {
    c as int - '0' as int
  }

  /** `${n}` for a non-negative integer. */
  function NatToString(n: nat): (s: string)
    ensures |s| >= 1 && AllDigits(s)
    decreases n
  {
    if n < 10 then [DigitChar(n)] else NatToString(n / 10) + [DigitChar(n % 10)]
  }

  /** The number a string of decimal digits denotes. */
  function DigitsValue(s: string): nat
    requires AllDigits(s)
    decreases |s|
  {
    if s == [] then 0 else 10 * DigitsValue(s[..|s| - 1]) + DigitValue(s[|s| - 1])
  }

  lemma {:induction false} NatToStringValue(n: nat)
    ensures DigitsValue(NatToString(n)) == n
    decreases n
  {
    if n >= 10 {
      var s := NatToString(n);
      assert s[..|s| - 1] == NatToString(n / 10);
      NatToStringValue(n / 10);
    }
  }

  /** Length of the longest prefix of decimal digits. */
  function DigitRun(s: string): (n: nat)
    ensures n <= |s| && AllDigits(s[..n])
    ensures n < |s| ==> !IsDigit(s[n])
    decreases |s|
  {
    if s != [] && IsDigit(s[0]) then
      var m := DigitRun(s[1..]);
      assert s[..1 + m] == [s[0]] + s[1..][..m];
      1 + m
    else 0
  }

  lemma {:induction false} DigitRunOfDigits(s: string)
    requires AllDigits(s)
    ensures DigitRun(s) == |s|
    decreases |s|
  {
    if s != [] {
      DigitRunOfDigits(s[1..]);
    }
  }

  /** `s.trimStart()`: what is removed is white space, and what is kept
      does not start with it. */
  function TrimStart(s: string): (r: string)
    ensures |r| <= |s| && r == s[|s| - |r|..]
    ensures forall i :: 0 <= i < |s| - |r| ==> IsJsSpace(s[i])
    ensures r == [] || !IsJsSpace(r[0])
    decreases |s|
  {
    if s != [] && IsJsSpace(s[0]) then TrimStart(s[1..]) else s
  }

  /** `s.trimEnd()`: what is removed is white space, and what is kept does
      not end with it. */
  function TrimEnd(s: string): (r: string)
    ensures |r| <= |s| && r == s[..|r|]
    ensures forall i :: |r| <= i < |s| ==> IsJsSpace(s[i])
    ensures r == [] || !IsJsSpace(r[|r| - 1])
    decreases |s|
  {
    if s != [] && IsJsSpace(s[|s| - 1]) then TrimEnd(s[..|s| - 1]) else s
  }

  /** The length of the run of white space that starts `s`. */
  function LeadingSpaces(s: string): (n: nat)
    ensures n <= |s| && forall i :: 0 <= i < n ==> IsJsSpace(s[i])
    ensures n < |s| ==> !IsJsSpace(s[n])
    decreases |s|
  {
    if s != [] && IsJsSpace(s[0]) then 1 + LeadingSpaces(s[1..]) else 0
  }

  /** `r` occurs in `s` at position `a`. */
  predicate FactorAt(s: string, a: nat, r: string)
  {
    a + |r| <= |s| && forall i :: 0 <= i < |r| ==> r[i] == s[a + i]
  }

  /** Everything in `s` from position `k` on is white space. */
  predicate SpaceFrom(s: string, k: nat)
  {
    forall i :: k <= i < |s| ==> IsJsSpace(s[i])
  }

  /** `s.trim()`: the factor of `s` that starts after its leading white
      space, with only white space after it; it neither starts nor ends
      with white space. */
  function Trim(s: string): (r: string)
    ensures FactorAt(s, LeadingSpaces(s), r) && SpaceFrom(s, LeadingSpaces(s) + |r|)
    ensures r == [] || (!IsJsSpace(r[0]) && !IsJsSpace(r[|r| - 1]))
  {
    TrimStartSkipsLeading(s);
    TrimmedFactor(s, LeadingSpaces(s), TrimStart(s), TrimEnd(TrimStart(s)));
    TrimEnd(TrimStart(s))
  }

  /** A prefix `r` of a suffix `t` of `s`, where `t` starts at `a` and only
      white space follows `r` in `t`, occurs in `s` at `a` with only white
      space after it. */
  lemma TrimmedFactor(s: string, a: nat, t: string, r: string)
    requires |t| <= |s| && t == s[|s| - |t|..] && a == |s| - |t|
    requires |r| <= |t| && r == t[..|r|]
    requires forall i :: |r| <= i < |t| ==> IsJsSpace(t[i])
    ensures FactorAt(s, a, r) && SpaceFrom(s, a + |r|)
  {
    assert forall i :: 0 <= i < |r| ==> r[i] == t[i];
    assert forall i :: a + |r| <= i < |s| ==> s[i] == t[i - a];
  }

  /** What `trimStart` removes is exactly the leading white space. */
  lemma {:induction false} TrimStartSkipsLeading(s: string)
    ensures |s| - |TrimStart(s)| == LeadingSpaces(s)
    decreases |s|
  {
    if s != [] && IsJsSpace(s[0]) {
      TrimStartSkipsLeading(s[1..]);
    }
  }

  lemma TrimStartKeeps(s: string)
    requires s == [] || !IsJsSpace(s[0])
    ensures TrimStart(s) == s
  {
  }

  lemma TrimEndKeeps(s: string)
    requires s == [] || !IsJsSpace(s[|s| - 1])
    ensures TrimEnd(s) == s
  {
  }

  /** Trimming a string that neither starts nor ends with a space keeps it,
      and so does trimming it after one leading space. */
  lemma TrimSpacePrefix(s: string)
    requires s == [] || (!IsJsSpace(s[0]) && !IsJsSpace(s[|s| - 1]))
    ensures Trim(s) == s
    ensures Trim([' '] + s) == s
  {
    var t := [' '] + s;
    assert t != [] && IsJsSpace(t[0]) && t[1..] == s;
    assert TrimStart(t) == TrimStart(s);
    TrimStartKeeps(s);
    TrimEndKeeps(s);
  }

  /** The value of the longest digit prefix of `body`; `None` when it does
      not start with a digit. */
  function UnsignedPrefix(body: string): Option<nat>
  {
    var n := DigitRun(body);
    if n == 0 then None else Some(DigitsValue(body[..n]))
  }

  /** `parseInt(s)` (radix 10); `None` stands for `NaN`. Leading spaces are
      skipped, one sign is accepted, and the longest digit prefix is read. */
  function ParseInt(s: string): Option<int>
  {
    var t := TrimStart(s);
    if t != [] && t[0] == '-' then
      var u := UnsignedPrefix(t[1..]);
      if u.None? then None else Some(-(u.value as int))
    else
      var u := UnsignedPrefix(if t != [] && t[0] == '+' then t[1..] else t);
      if u.None? then None else Some(u.value as int)
  }

  /** A text of digits is read whole. */
  lemma UnsignedPrefixOfDigits(s: string)
    requires |s| >= 1 && AllDigits(s)
    ensures UnsignedPrefix(s) == Some(DigitsValue(s))
  {
    DigitRunOfDigits(s);
    assert s[..|s|] == s;
  }

  /** `parseInt` of a text of digits is their value. */
  lemma ParseIntOfDigits(s: string)
    requires |s| >= 1 && AllDigits(s)
    ensures ParseInt(s) == Some(DigitsValue(s) as int)
  {
    assert IsDigit(s[0]);
    TrimStartKeeps(s);
    UnsignedPrefixOfDigits(s);
  }

  /** `parseInt` of a minus followed by digits is their negated value. */
  lemma ParseIntOfMinusDigits(t: string)
    requires |t| >= 2 && t[0] == '-' && AllDigits(t[1..])
    ensures ParseInt(t) == Some(-(DigitsValue(t[1..]) as int))
  {
    TrimStartKeeps(t);
    UnsignedPrefixOfDigits(t[1..]);
  }

  /** `parseInt` reads back what number-to-string conversion wrote. */
  lemma ParseIntOfNatToString(n: nat)
    ensures ParseInt(NatToString(n)) == Some(n)
  {
    NatToStringValue(n);
    ParseIntOfDigits(NatToString(n));
  }

  lemma ParseIntOfNegative(n: nat)
    ensures ParseInt("-" + NatToString(n)) == Some(-(n as int))
  {
    var t := "-" + NatToString(n);
    assert t[0] == '-' && t[1..] == NatToString(n);
    NatToStringValue(n);
    ParseIntOfMinusDigits(t);
  }

  // ---------------------------------------------------------------------
  // split / join

  /** `s.split(sep)` for a one-character separator: every piece, empty ones
      included, in order; the empty string gives one empty piece. */
  function Split(s: string, sep: char): (parts: seq<string>)
    ensures |parts| >= 1
    ensures forall i :: 0 <= i < |parts| ==> sep !in parts[i]
    decreases |s|
  {
    if s == [] then [[]]
    else
      var rest := Split(s[1..], sep);
      if s[0] == sep then [[]] + rest else [[s[0]] + rest[0]] + rest[1..]
  }

  /** `parts.join(sep)`. */
  function Join(parts: seq<string>, sep: string): string
    decreases |parts|
  {
    if parts == [] then []
    else if |parts| == 1 then parts[0]
    else parts[0] + sep + Join(parts[1..], sep)
  }

  lemma JoinCons(head: string, tail: seq<string>, sep: string)
    requires |tail| >= 1
    ensures Join([head] + tail, sep) == head + sep + Join(tail, sep)
  {
    assert ([head] + tail)[1..] == tail;
  }

  /** Prepending a character to the first piece prepends it to the join. */
  lemma JoinFirstGrows(c: char, parts: seq<string>, sep: string)
    requires |parts| >= 1
    ensures Join([[c] + parts[0]] + parts[1..], sep) == [c] + Join(parts, sep)
  {
    if |parts| > 1 {
      JoinCons(parts[0], parts[1..], sep);
      assert [parts[0]] + parts[1..] == parts;
      JoinCons([c] + parts[0], parts[1..], sep);
    }
  }

  /** Joining the pieces with the separator gives back the string. */
  lemma {:induction false} JoinSplit(s: string, sep: char)
    ensures Join(Split(s, sep), [sep]) == s
    decreases |s|
  {
    if s != [] {
      var rest := Split(s[1..], sep);
      JoinSplit(s[1..], sep);
      if s[0] == sep {
        assert Split(s, sep) == [[]] + rest;
        JoinCons([], rest, [sep]);
        assert s == [sep] + s[1..];
      } else {
        assert Split(s, sep) == [[s[0]] + rest[0]] + rest[1..];
        JoinFirstGrows(s[0], rest, [sep]);
        assert s == [s[0]] + s[1..];
      }
    }
  }

  lemma {:induction false} SplitNoSeparator(a: string, sep: char)
    requires sep !in a
    ensures Split(a, sep) == [a]
    decreases |a|
  {
    if a != [] {
      SplitNoSeparator(a[1..], sep);
      assert a == [a[0]] + a[1..];
    }
  }

  lemma {:induction false} SplitAtSeparator(a: string, t: string, sep: char)
    requires sep !in a
    ensures Split(a + [sep] + t, sep) == [a] + Split(t, sep)
    decreases |a|
  {
    var s := a + [sep] + t;
    if a == [] {
      assert s[1..] == t;
    } else {
      assert s[1..] == a[1..] + [sep] + t;
      SplitAtSeparator(a[1..], t, sep);
      assert [a[0]] + a[1..] == a;
    }
  }

  /** Splitting a join of separator-free pieces gives back the pieces. */
  lemma {:induction false} SplitJoin(parts: seq<string>, sep: char)
    requires |parts| >= 1
    requires forall i :: 0 <= i < |parts| ==> sep !in parts[i]
    ensures Split(Join(parts, [sep]), sep) == parts
    decreases |parts|
  {
    if |parts| == 1 {
      SplitNoSeparator(parts[0], sep);
    } else {
      SplitJoin(parts[1..], sep);
      SplitAtSeparator(parts[0], Join(parts[1..], [sep]), sep);
      assert [parts[0]] + parts[1..] == parts;
    }
  }

  // ---------------------------------------------------------------------
  // replace (first occurrence of a literal pattern)

  predicate OccursAt(s: string, pat: string, i: nat) {
    i + |pat| <= |s| && s[i..i + |pat|] == pat
  }

  lemma OccursShift(s: string, pat: string, j: nat)
    requires s != []
    ensures OccursAt(s, pat, j + 1) == OccursAt(s[1..], pat, j)
  {
    if j + 1 + |pat| <= |s| {
      assert s[j + 1..j + 1 + |pat|] == s[1..][j..j + |pat|];
    }
  }

  /** `s.indexOf(pat)`, or `None` for -1. */
  function FindFirst(s: string, pat: string): (r: Option<nat>)
    ensures r.Some? ==> OccursAt(s, pat, r.value)
    ensures r.Some? ==> forall j: nat :: j < r.value ==> !OccursAt(s, pat, j)
    ensures r.None? ==> forall j: nat :: !OccursAt(s, pat, j)
    decreases |s|
  {
    if |pat| <= |s| && s[..|pat|] == pat then Some(0)
    else if s == [] then None
    else
      var rest := FindFirst(s[1..], pat);
      assert !OccursAt(s, pat, 0);
      assert forall j: nat :: j >= 1 ==> OccursAt(s, pat, j) == OccursAt(s[1..], pat, j - 1) by {
        forall j: nat | j >= 1 ensures OccursAt(s, pat, j) == OccursAt(s[1..], pat, j - 1) {
          OccursShift(s, pat, j - 1);
        }
      }
      match rest
      case None => None
      case Some(k) => Some(k + 1)
  }

  /** `s.replace(pat, rep)` with a string pattern: only the first occurrence is replaced. */
  function ReplaceFirst(s: string, pat: string, rep: string): string
  {
    match FindFirst(s, pat)
    case None => s
    case Some(i) => s[..i] + rep + s[i + |pat|..]
  }

  lemma ReplaceFirstAtStart(pat: string, t: string)
    ensures ReplaceFirst(pat + t, pat, "") == t
  {
    var s := pat + t;
    assert s[..|pat|] == pat;
    assert s[|pat|..] == t;
  }

  // ---------------------------------------------------------------------
  // The default order of Array.prototype.sort on strings

  /** Lexicographic order by character code. */
  predicate StrLe(a: string, b: string)
    decreases |a|
  {
    if a == [] then true
    else if b == [] then false
    else if a[0] != b[0] then a[0] < b[0]
    else StrLe(a[1..], b[1..])
  }

  lemma {:induction false} StrLeTotal(a: string, b: string)
    ensures StrLe(a, b) || StrLe(b, a)
    decreases |a|
  {
    if a != [] && b != [] && a[0] == b[0] {
      StrLeTotal(a[1..], b[1..]);
    }
  }

  lemma {:induction false} StrLeTransitive(a: string, b: string, c: string)
    requires StrLe(a, b) && StrLe(b, c)
    ensures StrLe(a, c)
    decreases |a|
  {
    if a != [] && b != [] && c != [] && a[0] == b[0] && b[0] == c[0] {
      StrLeTransitive(a[1..], b[1..], c[1..]);
    }
  }

  lemma {:induction false} StrLeAntisymmetric(a: string, b: string)
    requires StrLe(a, b) && StrLe(b, a)
    ensures a == b
    decreases |a|
  {
    if a != [] && b != [] {
      StrLeAntisymmetric(a[1..], b[1..]);
      assert a == [a[0]] + a[1..] && b == [b[0]] + b[1..];
    }
  }

  /** The last element of `s` once sorted. */
  function Greatest(s: seq<string>): (g: string)
    requires |s| >= 1
    ensures g in s
    decreases |s|
  {
    if |s| == 1 then s[0]
    else
      var m := Greatest(s[1..]);
      if StrLe(s[0], m) then m else s[0]
  }

  /** The first element of `s` once sorted. */
  function Least(s: seq<string>): (g: string)
    requires |s| >= 1
    ensures g in s
    decreases |s|
  {
    if |s| == 1 then s[0]
    else
      var m := Least(s[1..]);
      if StrLe(m, s[0]) then m else s[0]
  }

  lemma {:induction false} GreatestIsUpperBound(s: seq<string>)
    requires |s| >= 1
    ensures forall x :: x in s ==> StrLe(x, Greatest(s))
    decreases |s|
  {
    if |s| == 1 {
      StrLeTotal(s[0], s[0]);
    } else {
      var m := Greatest(s[1..]);
      GreatestIsUpperBound(s[1..]);
      StrLeTotal(s[0], m);
      var g := Greatest(s);
      StrLeTotal(g, g);
      forall x | x in s ensures StrLe(x, g) {
        if x != s[0] {
          assert x in s[1..];
          if g != m {
            StrLeTransitive(x, m, g);
          }
        }
      }
    }
  }

  lemma {:induction false} LeastIsLowerBound(s: seq<string>)
    requires |s| >= 1
    ensures forall x :: x in s ==> StrLe(Least(s), x)
    decreases |s|
  {
    if |s| == 1 {
      StrLeTotal(s[0], s[0]);
    } else {
      var m := Least(s[1..]);
      LeastIsLowerBound(s[1..]);
      StrLeTotal(s[0], m);
      var g := Least(s);
      StrLeTotal(g, g);
      forall x | x in s ensures StrLe(g, x) {
        if x != s[0] {
          assert x in s[1..];
          if g != m {
            StrLeTransitive(g, m, x);
          }
        }
      }
    }
  }
}
