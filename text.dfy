/**
  Python string semantics the core relies on: `str.isspace`, `strip`,
  `split(sep)`, `sep.join`, `lower` (ASCII letters), `startswith`,
  `endswith` and `str(n)` for a natural number.  Dafny's `char` is a
  Unicode scalar value, so `|s|` is Python's `len(s)`.
*/
module Text {
  import opened Wrappers
  import opened Seqs

  /** The characters for which Python's `str.isspace` holds. */
  predicate IsSpace(c: char) {
    || ('\t' <= c <= '\r')
    || ('\U{1C}' <= c <= ' ')
    || c == '\U{85}' || c == '\U{A0}' || c == '\U{1680}'
    || ('\U{2000}' <= c <= '\U{200A}')
    || c == '\U{2028}' || c == '\U{2029}' || c == '\U{202F}' || c == '\U{205F}'
    || c == '\U{3000}'
  }

  predicate AllSpace(s: string) {
    forall i :: 0 <= i < |s| ==> IsSpace(s[i])
  }

  predicate StartsWith(s: string, prefix: string) {
    |prefix| <= |s| && s[..|prefix|] == prefix
  }

  predicate EndsWith(s: string, suffix: string) {
    |suffix| <= |s| && s[|s| - |suffix|..] == suffix
  }

  /** `needle in s` for two strings. */
  predicate Contains(s: string, needle: string) {
    exists i :: 0 <= i <= |s| && StartsWith(s[i..], needle)
  }

  /** How many whitespace characters `s` starts with. */
  function LeadingSpace(s: string): (n: nat)
    ensures n <= |s| && (n == |s| || !IsSpace(s[n]))
  {
    if |s| > 0 && IsSpace(s[0]) then
      var n := 1 + LeadingSpace(s[1..]);
      assert n < |s| ==> s[n] == s[1..][n - 1];
      n
    else 0
  }

  /** How many whitespace characters `s` ends with. */
  function TrailingSpace(s: string): (n: nat)
    ensures n <= |s| && (n == |s| || !IsSpace(s[|s| - 1 - n]))
  {
    if |s| > 0 && IsSpace(s[|s| - 1]) then
      var n := 1 + TrailingSpace(s[..|s| - 1]);
      assert n < |s| ==> s[|s| - 1 - n] == s[..|s| - 1][|s| - 1 - n];
      n
    else 0
  }

  /** Python's `s.lstrip()`: `s` without its leading whitespace. */
  function StripLeft(s: string): (r: string)
    ensures r == "" || !IsSpace(r[0])
  {
    s[LeadingSpace(s)..]
  }

  /** Python's `s.rstrip()`: `s` without its trailing whitespace. */
  function StripRight(s: string): (r: string)
    ensures r == "" || !IsSpace(r[|r| - 1])
  {
    s[..|s| - TrailingSpace(s)]
  }

  /** A string with no whitespace at either end. */
  predicate Trimmed(s: string) {
    s == "" || (!IsSpace(s[0]) && !IsSpace(s[|s| - 1]))
  }

  /** Python's `s.strip()`. */
  function Strip(s: string): (r: string)
    ensures Trimmed(r)
  {
    var t := StripLeft(s);
    var r := StripRight(t);
    assert r != "" ==> r[0] == t[0];
    r
  }

  /** `strip` keeps an infix of its argument, from the end of the leading whitespace. */
  lemma StripInfix(s: string)
    ensures LeadingSpace(s) + |Strip(s)| <= |s|
    ensures Strip(s) == s[LeadingSpace(s)..LeadingSpace(s) + |Strip(s)|]
  {
    var k := LeadingSpace(s);
    var t := StripLeft(s);
    var r := StripRight(t);
    assert Strip(s) == r;
    assert t[..|r|] == s[k..k + |r|];
  }

  /** `strip` gives the empty string exactly on whitespace-only input. */
  lemma StripEmpty(s: string)
    ensures Strip(s) == "" <==> AllSpace(s)
  {
    StripLeftEmpty(s);
    var t := StripLeft(s);
    if t != "" {
      StripRightKeeps(t, 0);
    }
  }

  lemma StripLeftEmpty(s: string)
    ensures StripLeft(s) == "" <==> AllSpace(s)
  {
    LeadingSpaceIsSpace(s);
    assert s[..|s|] == s;
  }

  /** Leading whitespace before a string that does not start with whitespace is all `lstrip` removes. */
  lemma {:induction false} LeadingSpaceOfPad(a: string, t: string)
    requires AllSpace(a)
    requires t == "" || !IsSpace(t[0])
    ensures LeadingSpace(a + t) == |a|
  {
    if a == [] {
      assert a + t == t;
    } else {
      assert (a + t)[0] == a[0];
      assert IsSpace(a[0]);
      assert (a + t)[1..] == a[1..] + t;
      LeadingSpaceOfPad(a[1..], t);
    }
  }

  /** Trailing whitespace after a string that does not end with whitespace is all `rstrip` removes. */
  lemma {:induction false} TrailingSpaceOfPad(t: string, b: string)
    requires AllSpace(b)
    requires t == "" || !IsSpace(t[|t| - 1])
    ensures TrailingSpace(t + b) == |b|
  {
    if b == [] {
      assert t + b == t;
    } else {
      assert (t + b)[|t + b| - 1] == b[|b| - 1];
      assert IsSpace(b[|b| - 1]);
      assert (t + b)[..|t + b| - 1] == t + b[..|b| - 1];
      TrailingSpaceOfPad(t, b[..|b| - 1]);
    }
  }

  lemma StripLeftAfterPad(a: string, t: string)
    requires AllSpace(a)
    requires t == "" || !IsSpace(t[0])
    ensures StripLeft(a + t) == t
  {
    LeadingSpaceOfPad(a, t);
    assert (a + t)[|a|..] == t;
  }

  lemma StripRightBeforePad(t: string, b: string)
    requires AllSpace(b)
    requires t == "" || !IsSpace(t[|t| - 1])
    ensures StripRight(t + b) == t
  {
    TrailingSpaceOfPad(t, b);
    assert (t + b)[..|t|] == t;
  }

  /** Whitespace around a trimmed string is exactly what `strip` removes. */
  lemma StripPadded(a: string, r: string, b: string)
    requires AllSpace(a) && AllSpace(b) && Trimmed(r)
    ensures Strip(a + r + b) == r
  {
    if r == "" {
      assert a + r + b == a + b;
      AllSpaceConcat(a, b);
      StripEmpty(a + b);
    } else {
      assert a + r + b == a + (r + b);
      StripLeftAfterPad(a, r + b);
      StripRightBeforePad(r, b);
    }
  }

  /** Stripping twice is stripping once. */
  lemma StripIdempotent(s: string)
    ensures Strip(Strip(s)) == Strip(s)
  {
    StripTrimmed(Strip(s));
  }

  /** A string with no whitespace at either end is its own `strip`. */
  lemma StripTrimmed(s: string)
    requires Trimmed(s)
    ensures Strip(s) == s
  {
    StripPadded("", s, "");
    assert "" + s + "" == s;
  }

  /** What `lstrip` removes is whitespace. */
  lemma {:induction false} LeadingSpaceIsSpace(s: string)
    ensures AllSpace(s[..LeadingSpace(s)])
  {
    if |s| > 0 && IsSpace(s[0]) {
      var tail := s[1..];
      LeadingSpaceIsSpace(tail);
      var n := LeadingSpace(tail);
      assert s[..n + 1] == [s[0]] + tail[..n];
      AllSpaceConcat([s[0]], tail[..n]);
    }
  }

  /** What `rstrip` removes is whitespace. */
  lemma {:induction false} TrailingSpaceIsSpace(s: string)
    ensures AllSpace(s[|s| - TrailingSpace(s)..])
  {
    if |s| > 0 && IsSpace(s[|s| - 1]) {
      var init := s[..|s| - 1];
      TrailingSpaceIsSpace(init);
      var n := TrailingSpace(init);
      assert s[|s| - 1 - n..] == init[|init| - n..] + [s[|s| - 1]];
      AllSpaceConcat(init[|init| - n..], [s[|s| - 1]]);
    }
  }

  /** A string is its stripped core between two runs of whitespace. */
  lemma StripDecompose(s: string) returns (left: string, right: string)
    ensures AllSpace(left) && AllSpace(right) && s == left + Strip(s) + right
  {
    left, right := StripSplit(s);
    StripCutsSpace(s, left, right);
  }

  /** The two pieces `StripSplit` names are whitespace. */
  lemma StripCutsSpace(s: string, left: string, right: string)
    requires var t := StripLeft(s); left == s[..LeadingSpace(s)] && right == t[|t| - TrailingSpace(t)..]
    ensures AllSpace(left) && AllSpace(right)
  {
    LeadingSpaceIsSpace(s);
    TrailingSpaceIsSpace(StripLeft(s));
  }

  /** The pieces `strip` cuts off, as slices. */
  lemma StripSplit(s: string) returns (left: string, right: string)
    ensures var t := StripLeft(s);
      left == s[..LeadingSpace(s)] && right == t[|t| - TrailingSpace(t)..] && s == left + Strip(s) + right
  {
    var k := LeadingSpace(s);
    var t := StripLeft(s);
    var m := |t| - TrailingSpace(t);
    assert Strip(s) == t[..m];
    left := s[..k];
    right := t[m..];
    SplitThree(s, k, m);
  }

  /** `lstrip` keeps every character from the first one that is not whitespace. */
  lemma {:induction false} StripLeftKeeps(s: string, i: nat)
    requires i < |s| && !IsSpace(s[i])
    ensures LeadingSpace(s) <= i
  {
    if IsSpace(s[0]) {
      assert i > 0;
      assert s[1..][i - 1] == s[i];
      StripLeftKeeps(s[1..], i - 1);
    }
  }

  /** `rstrip` keeps every character up to the last one that is not whitespace. */
  lemma {:induction false} StripRightKeeps(t: string, i: nat)
    requires i < |t| && !IsSpace(t[i])
    ensures i < |t| - TrailingSpace(t)
  {
    if IsSpace(t[|t| - 1]) {
      assert i < |t| - 1;
      assert t[..|t| - 1][i] == t[i];
      StripRightKeeps(t[..|t| - 1], i);
    }
  }

  /** `strip` keeps every character that is not whitespace. */
  lemma StripKeeps(s: string, i: nat) returns (k: nat)
    requires i < |s| && !IsSpace(s[i])
    ensures k < |Strip(s)| && Strip(s)[k] == s[i]
  {
    var t := StripLeft(s);
    StripLeftKeeps(s, i);
    k := i - LeadingSpace(s);
    assert t[k] == s[i];
    StripRightKeeps(t, k);
    assert Strip(s)[k] == t[k];
  }

  /** Whitespace around a string does not change what `strip` gives. */
  lemma StripIgnoresPadding(p: string, x: string, q: string)
    requires AllSpace(p) && AllSpace(q)
    ensures Strip(p + x + q) == Strip(x)
  {
    var left, right := StripDecompose(x);
    var core := Strip(x);
    AllSpaceConcat(p, left);
    AllSpaceConcat(right, q);
    Regroup(p, left, core, right, q);
    StripPadded(p + left, core, right + q);
  }

  lemma Regroup(p: string, l: string, c: string, r: string, q: string)
    ensures p + (l + c + r) + q == (p + l) + c + (r + q)
  {
  }

  /** `s in t` holds for every slice of `t`. */
  lemma ContainsSlice(t: string, i: nat, j: nat)
    requires i <= j <= |t|
    ensures Contains(t, t[i..j])
  {
    assert StartsWith(t[i..], t[i..j]);
  }

  /** A substring of a substring is a substring. */
  lemma ContainsTransitive(a: string, b: string, c: string)
    requires Contains(a, b) && Contains(b, c)
    ensures Contains(a, c)
  {
    var i :| 0 <= i <= |a| && StartsWith(a[i..], b);
    var k :| 0 <= k <= |b| && StartsWith(b[k..], c);
    assert b == a[i..i + |b|];
    assert c == b[k..k + |c|];
    assert c == a[i + k..i + k + |c|];
    assert StartsWith(a[i + k..], c);
  }

  /** `strip` keeps a substring. */
  lemma StripContained(s: string)
    ensures Contains(s, Strip(s))
  {
    StripInfix(s);
    var k := LeadingSpace(s);
    ContainsSlice(s, k, k + |Strip(s)|);
  }

  /** Python's `sep.join(xs)`. */
  function Join(xs: seq<string>, sep: string): string {
    if |xs| == 0 then "" else if |xs| == 1 then xs[0] else xs[0] + sep + Join(xs[1..], sep)
  }

  /** A join starts with its first piece and ends with its last. */
  lemma {:induction false} JoinEnds(xs: seq<string>, sep: string)
    requires xs != []
    ensures StartsWith(Join(xs, sep), xs[0]) && EndsWith(Join(xs, sep), xs[|xs| - 1])
  {
    if |xs| > 1 {
      var rest := Join(xs[1..], sep);
      JoinEnds(xs[1..], sep);
      assert Join(xs, sep) == (xs[0] + sep) + rest;
      assert Join(xs, sep)[..|xs[0]|] == xs[0];
      assert Join(xs, sep)[|Join(xs, sep)| - |rest|..] == rest;
    }
  }

  /**
    Python's `s.split(sep)` for a non-empty separator: scanning from the left,
    each leftmost occurrence of `sep` ends one piece.
  */
  function Split(s: string, sep: string): (r: seq<string>)
    requires sep != ""
    ensures |r| >= 1
    decreases |s|
  {
    if StartsWith(s, sep) then [""] + Split(s[|sep|..], sep)
    else if s == "" then [""]
    else
      var rest := Split(s[1..], sep);
      [[s[0]] + rest[0]] + rest[1..]
  }

  lemma JoinCons(x: string, xs: seq<string>, sep: string)
    requires |xs| >= 1
    ensures Join([x] + xs, sep) == x + sep + Join(xs, sep)
  {
    assert ([x] + xs)[1..] == xs;
  }

  /** Joining the pieces with the separator gives back the string. */
  lemma {:induction false} SplitJoin(s: string, sep: string)
    requires sep != ""
    ensures Join(Split(s, sep), sep) == s
    decreases |s|
  {
    if StartsWith(s, sep) {
      SplitJoin(s[|sep|..], sep);
      SplitJoinBreak(s, sep);
    } else if s != "" {
      SplitJoin(s[1..], sep);
      SplitJoinStep(s, sep);
    }
  }

  lemma SplitJoinBreak(s: string, sep: string)
    requires sep != "" && StartsWith(s, sep)
    requires Join(Split(s[|sep|..], sep), sep) == s[|sep|..]
    ensures Join(Split(s, sep), sep) == s
  {
    var tail := s[|sep|..];
    var rest := Split(tail, sep);
    assert Split(s, sep) == [""] + rest;
    JoinCons("", rest, sep);
    assert "" + sep + tail == sep + tail;
    assert s == s[..|sep|] + tail;
  }

  lemma SplitJoinStep(s: string, sep: string)
    requires sep != "" && s != "" && !StartsWith(s, sep)
    requires Join(Split(s[1..], sep), sep) == s[1..]
    ensures Join(Split(s, sep), sep) == s
  {
    var rest := Split(s[1..], sep);
    var head := [s[0]] + rest[0];
    assert Split(s, sep) == [head] + rest[1..];
    JoinPrepend(s[0], rest, sep);
    assert s == [s[0]] + s[1..];
  }

  /** Prepending a character to the first piece prepends it to the join. */
  lemma JoinPrepend(c: char, xs: seq<string>, sep: string)
    requires |xs| >= 1
    ensures Join([[c] + xs[0]] + xs[1..], sep) == [c] + Join(xs, sep)
  {
    var more := xs[1..];
    if |xs| == 1 {
      assert [[c] + xs[0]] + more == [[c] + xs[0]];
    } else {
      assert xs == [xs[0]] + more;
      JoinCons(xs[0], more, sep);
      JoinCons([c] + xs[0], more, sep);
    }
  }

  /** A string without the separator character is one piece. */
  lemma {:induction false} SplitWithoutSeparator(s: string, c: char)
    requires c !in s
    ensures Split(s, [c]) == [s]
  {
    if s != "" {
      assert !StartsWith(s, [c]) by { assert s[0] != c; }
      SplitWithoutSeparator(s[1..], c);
      assert [s[0]] + s[1..] == s;
    }
  }

  /** The first piece ends at the first occurrence of a one-character separator. */
  lemma {:induction false} SplitAtFirst(a: string, c: char, b: string)
    requires c !in a
    ensures Split(a + [c] + b, [c]) == [a] + Split(b, [c])
  {
    var s := a + [c] + b;
    if a == "" {
      assert s == [c] + b;
      assert StartsWith(s, [c]);
      assert s[1..] == b;
    } else {
      assert !StartsWith(s, [c]) by { assert s[0] == a[0] != c; }
      assert s[1..] == a[1..] + [c] + b;
      SplitAtFirst(a[1..], c, b);
      assert [a[0]] + a[1..] == a;
    }
  }

  /** Every character of a joined string comes from a piece or from the separator. */
  lemma {:induction false} JoinAllSpace(xs: seq<string>, sep: string)
    requires AllSpace(sep)
    ensures AllSpace(Join(xs, sep)) <==> (forall i :: 0 <= i < |xs| ==> AllSpace(xs[i]))
  {
    if |xs| >= 2 {
      JoinAllSpace(xs[1..], sep);
      var j := Join(xs, sep);
      var rest := Join(xs[1..], sep);
      assert j == xs[0] + sep + rest;
      AllSpaceConcat(xs[0], sep);
      AllSpaceConcat(xs[0] + sep, rest);
      assert forall i :: 1 <= i < |xs| ==> xs[i] == xs[1..][i - 1];
    }
  }

  lemma AllSpaceConcat(a: string, b: string)
    ensures AllSpace(a + b) <==> AllSpace(a) && AllSpace(b)
  {
    if AllSpace(a) && AllSpace(b) {
      forall i | 0 <= i < |a + b| ensures IsSpace((a + b)[i]) {
        if i >= |a| { assert (a + b)[i] == b[i - |a|]; }
      }
    }
    if AllSpace(a + b) {
      forall i | 0 <= i < |a| ensures IsSpace(a[i]) { assert (a + b)[i] == a[i]; }
      forall i | 0 <= i < |b| ensures IsSpace(b[i]) { assert (a + b)[|a| + i] == b[i]; }
    }
  }

  /** The lowercase of one character: ASCII capitals map to small letters. */
  function LowerChar(c: char): char {
    if 'A' <= c <= 'Z' then (c as int + 32) as char else c
  }

  /** Python's `s.lower()`, character by character. */
  function Lower(s: string): (r: string)
    ensures |r| == |s|
    ensures forall i :: 0 <= i < |r| ==> !('A' <= r[i] <= 'Z')
    ensures forall i :: 0 <= i < |s| && !('A' <= s[i] <= 'Z') ==> r[i] == s[i]
    ensures forall i :: 0 <= i < |s| && 'A' <= s[i] <= 'Z' ==> r[i] as int == s[i] as int + 32
  {
    seq(|s|, i requires 0 <= i < |s| => LowerChar(s[i]))
  }

  /** Lowercasing a lowercased string changes nothing more. */
  lemma LowerIdempotent(s: string)
    ensures Lower(Lower(s)) == Lower(s)
  {
  }

  /** Lowercasing works character by character, so it distributes over concatenation. */
  lemma LowerConcat(a: string, b: string)
    ensures Lower(a + b) == Lower(a) + Lower(b)
  {
  }

  /** Whitespace has no case. */
  lemma LowerOfSpace(s: string)
    requires AllSpace(s)
    ensures Lower(s) == s
  {
  }

  /** Lowercasing and stripping commute: no letter is whitespace, and lowering keeps whitespace. */
  lemma StripLowerCommute(s: string)
    ensures Strip(Lower(s)) == Lower(Strip(s))
  {
    var t := StripLeft(s);
    assert StripLeft(Lower(s)) == Lower(t) by {
      LeadingSpaceOfLower(s);
      LowerSlice(s, LeadingSpace(s), |s|);
    }
    assert StripRight(Lower(t)) == Lower(StripRight(t)) by {
      TrailingSpaceOfLower(t);
      LowerSlice(t, 0, |t| - TrailingSpace(t));
    }
  }

  /** Lowering commutes with slicing. */
  lemma LowerSlice(s: string, i: nat, j: nat)
    requires i <= j <= |s|
    ensures Lower(s)[i..j] == Lower(s[i..j])
  {
  }

  /** Lowering does not change how much whitespace leads. */
  lemma {:induction false} LeadingSpaceOfLower(s: string)
    ensures LeadingSpace(Lower(s)) == LeadingSpace(s)
  {
    if |s| > 0 {
      var low := Lower(s);
      LowerKeepsSpace(s, 0);
      LowerSlice(s, 1, |s|);
      LeadingSpaceOfLower(s[1..]);
      assert low[1..] == Lower(s[1..]);
      if IsSpace(s[0]) {
        assert LeadingSpace(low) == 1 + LeadingSpace(low[1..]);
      } else {
        assert LeadingSpace(low) == 0;
      }
    }
  }

  /** Lowering does not change how much whitespace trails. */
  lemma {:induction false} TrailingSpaceOfLower(s: string)
    ensures TrailingSpace(Lower(s)) == TrailingSpace(s)
  {
    if |s| > 0 {
      LowerKeepsSpace(s, |s| - 1);
      LowerSlice(s, 0, |s| - 1);
      TrailingSpaceOfLower(s[..|s| - 1]);
    }
  }

  /** A character is whitespace after lowering exactly when it was before. */
  lemma LowerKeepsSpace(s: string, i: nat)
    requires i < |s|
    ensures IsSpace(Lower(s)[i]) == IsSpace(s[i])
  {
  }

  /** The string with every occurrence of `c` removed (`s.replace(c, "")`). */
  function Remove(s: string, c: char): (r: string)
    ensures c !in r
    ensures forall x :: x in r ==> x in s
  {
    if s == "" then "" else (if s[0] == c then "" else [s[0]]) + Remove(s[1..], c)
  }

  function DigitChar(d: nat): char
    requires d < 10
  {
    ('0' as int + d) as char
  }

  predicate IsDigit(c: char) {
    '0' <= c <= '9'
  }

  /** Python's `str(n)` for a natural number. */
  function Decimal(n: nat): (r: string)
    ensures r != ""
    ensures forall i :: 0 <= i < |r| ==> IsDigit(r[i])
  {
    if n < 10 then [DigitChar(n)] else Decimal(n / 10) + [DigitChar(n % 10)]
  }

  /** The number a non-empty digit string denotes. */
  function ParseNat(s: string): Option<nat>
  {
    if s != "" && forall i :: 0 <= i < |s| ==> IsDigit(s[i]) then Some(DigitsValue(s)) else None
  }

  function DigitsValue(s: string): nat
    requires forall i :: 0 <= i < |s| ==> IsDigit(s[i])
  {
    if s == "" then 0
    else
      assert IsDigit(s[|s| - 1]);
      DigitsValue(s[..|s| - 1]) * 10 + (s[|s| - 1] as int - '0' as int)
  }

  /** `str(n)` reads back as `n`. */
  lemma {:induction false} DecimalRoundTrip(n: nat)
    ensures ParseNat(Decimal(n)) == Some(n)
  {
    var r := Decimal(n);
    if n < 10 {
      assert r == [DigitChar(n)];
      assert r[..|r| - 1] == "";
      assert DigitsValue(r) == n;
    } else {
      DecimalRoundTrip(n / 10);
      assert r[..|r| - 1] == Decimal(n / 10);
    }
  }
}
