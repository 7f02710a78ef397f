/**
 * Text primitives that the price-list code borrows from Python's `str`
 * and `re`: whitespace stripping, substring tests, splitting on a set of
 * separator characters, joining, and decimal digit strings.
 */
module Text {

  /** Python's notion of whitespace (`str.isspace`, and `\s` in a `str` regex). */
  predicate IsSpace(c: char) {
    || c == ' ' || c == '\t' || c == '\n' || c == '\r'
    || c == '\U{000B}' || c == '\U{000C}'
    || ('\U{001C}' <= c <= '\U{001F}')
    || c == '\U{0085}' || c == '\U{00A0}' || c == '\U{1680}'
    || ('\U{2000}' <= c <= '\U{200A}')
    || c == '\U{2028}' || c == '\U{2029}' || c == '\U{202F}' || c == '\U{205F}'
    || c == '\U{3000}'
  }

  predicate IsDigit(c: char) {
    '0' <= c <= '9'
  }

  predicate AllDigits(s: string) {
    forall i | 0 <= i < |s| :: IsDigit(s[i])
  }

  /** No character of `s` is one of `seps`. */
  predicate Avoids(s: string, seps: set<char>) {
    forall i | 0 <= i < |s| :: s[i] !in seps
  }

  predicate NoSpaces(s: string) {
    forall i | 0 <= i < |s| :: !IsSpace(s[i])
  }

  // ---------------------------------------------------------------------
  // strip()

  /** `s.lstrip()`: the longest suffix of `s` that does not start with whitespace. */
  function LStrip(s: string): (r: string)
    ensures |r| <= |s| && r == s[|s| - |r|..]
    ensures forall i | 0 <= i < |s| - |r| :: IsSpace(s[i])
    ensures r == [] || !IsSpace(r[0])
    decreases |s|
  {
    if s != [] && IsSpace(s[0]) then LStrip(s[1..]) else s
  }

  /** `s.rstrip()`: the longest prefix of `s` that does not end with whitespace. */
  function RStrip(s: string): (r: string)
    ensures |r| <= |s| && r == s[..|r|]
    ensures forall i | |r| <= i < |s| :: IsSpace(s[i])
    ensures r == [] || !IsSpace(r[|r| - 1])
    decreases |s|
  {
    if s != [] && IsSpace(s[|s| - 1]) then RStrip(s[..|s| - 1]) else s
  }

  /** `s.strip()`. */
  function Strip(s: string): (r: string)
    ensures |r| <= |s|
    ensures r == [] || (!IsSpace(r[0]) && !IsSpace(r[|r| - 1]))
    ensures |s| - |LStrip(s)| + |r| <= |s|
    ensures r == s[|s| - |LStrip(s)|..|s| - |LStrip(s)| + |r|]
  {
    var l := LStrip(s);
    var r := RStrip(l);
    assert r == s[|s| - |l|..][..|r|] == s[|s| - |l|..|s| - |l| + |r|];
    r
  }

  /** A string that neither starts nor ends with whitespace is its own strip. */
  lemma StripTrimmed(s: string)
    requires s == [] || (!IsSpace(s[0]) && !IsSpace(s[|s| - 1]))
    ensures Strip(s) == s
  {
  }

  lemma StripIdempotent(s: string)
    ensures Strip(Strip(s)) == Strip(s)
  {
    StripTrimmed(Strip(s));
  }

  /** Nothing but whitespace. */
  predicate Blank(s: string) {
    forall i | 0 <= i < |s| :: IsSpace(s[i])
  }

  /** `s.strip()` is empty exactly when `s` is all whitespace. */
  lemma StripEmpty(s: string)
    ensures Strip(s) == [] <==> Blank(s)
  {
    var l := LStrip(s);
    if l != [] {
      assert !Blank(s) by {
        assert s[|s| - |l|] == l[0];
      }
      assert Strip(s) != [] by {
        assert !IsSpace(l[0]);
      }
    }
  }

  /** Stripping keeps only characters of the original string. */
  lemma StripAvoids(s: string, seps: set<char>)
    requires Avoids(s, seps)
    ensures Avoids(Strip(s), seps)
  {
    var r := Strip(s);
    var i := |s| - |LStrip(s)|;
    forall k | 0 <= k < |r| ensures r[k] !in seps {
      assert r[k] == s[i + k];
    }
  }

  lemma StripNoSpaces(s: string)
    ensures NoSpaces(s) ==> Strip(s) == s
  {
    if NoSpaces(s) && s != [] {
      assert !IsSpace(s[0]) && !IsSpace(s[|s| - 1]);
      StripTrimmed(s);
    }
  }

  // ---------------------------------------------------------------------
  // substring tests

  predicate StartsWith(s: string, t: string) {
    |t| <= |s| && s[..|t|] == t
  }

  /** Python's `t in s` for strings. */
  predicate Contains(s: string, t: string)
    decreases |s|
  {
    StartsWith(s, t) || (s != [] && Contains(s[1..], t))
  }

  /** `Contains` means occurring at some position. */
  lemma {:induction false} ContainsAt(s: string, t: string, i: nat)
    requires i + |t| <= |s| && s[i..i + |t|] == t
    ensures Contains(s, t)
    decreases i
  {
    if i > 0 {
      assert s[1..][i - 1..i - 1 + |t|] == s[i..i + |t|];
      ContainsAt(s[1..], t, i - 1);
    } else {
      assert s[..|t|] == t;
    }
  }

  /** A text contains nothing longer than itself. */
  lemma {:induction false} ContainsNeedsRoom(s: string, t: string)
    ensures Contains(s, t) ==> |t| <= |s|
    decreases |s|
  {
    if s != [] {
      ContainsNeedsRoom(s[1..], t);
    }
  }

  lemma {:induction false} ContainsPosition(s: string, t: string) returns (i: nat)
    requires Contains(s, t)
    ensures i + |t| <= |s| && s[i..i + |t|] == t
    decreases |s|
  {
    if StartsWith(s, t) {
      i := 0;
    } else {
      var j := ContainsPosition(s[1..], t);
      assert s[1..][j..j + |t|] == s[j + 1..j + 1 + |t|];
      i := j + 1;
    }
  }

  lemma ContainsChar(s: string, c: char)
    ensures Contains(s, [c]) <==> c in s
  {
    if c in s {
      var i :| 0 <= i < |s| && s[i] == c;
      ContainsAt(s, [c], i);
    }
    if Contains(s, [c]) {
      var i := ContainsPosition(s, [c]);
      assert s[i] == c;
    }
  }

  lemma ContainsConcat(a: string, b: string, t: string)
    ensures Contains(a, t) ==> Contains(a + b, t)
    ensures Contains(b, t) ==> Contains(a + b, t)
  {
    if Contains(a, t) {
      var i := ContainsPosition(a, t);
      assert (a + b)[i..i + |t|] == a[i..i + |t|];
      ContainsAt(a + b, t, i);
    }
    if Contains(b, t) {
      var i := ContainsPosition(b, t);
      assert (a + b)[|a| + i..|a| + i + |t|] == b[i..i + |t|];
      ContainsAt(a + b, t, |a| + i);
    }
  }

  // ---------------------------------------------------------------------
  // split / join / replace

  /**
   * `re.split('[' + seps + ']', s)`: the pieces between single separator
   * characters, empty pieces included, so there is always one piece more
   * than there are separators.
   */
  function Split(s: string, seps: set<char>): (parts: seq<string>)
    ensures |parts| >= 1
    ensures forall k | 0 <= k < |parts| :: Avoids(parts[k], seps)
    decreases |s|
  {
    if s == [] then [""]
    else if s[0] in seps then [""] + Split(s[1..], seps)
    else
      var rest := Split(s[1..], seps);
      [[s[0]] + rest[0]] + rest[1..]
  }

  /** `sep.join(parts)`. */
  function Join(parts: seq<string>, sep: string): string
  {
    if parts == [] then ""
    else if |parts| == 1 then parts[0]
    else parts[0] + sep + Join(parts[1..], sep)
  }

  /** A separator-free prefix glues onto the first piece of what follows it. */
  lemma {:induction false} SplitAvoidingPrefix(a: string, b: string, seps: set<char>)
    requires Avoids(a, seps)
    ensures Split(a + b, seps) == [a + Split(b, seps)[0]] + Split(b, seps)[1..]
    decreases |a|
  {
    if a != [] {
      assert (a + b)[1..] == a[1..] + b;
      SplitAvoidingPrefix(a[1..], b, seps);
      assert [a[0]] + (a[1..] + Split(b, seps)[0]) == a + Split(b, seps)[0];
    } else {
      var parts := Split(b, seps);
      assert a + b == b;
      assert a + parts[0] == parts[0];
      assert [parts[0]] + parts[1..] == parts;
    }
  }

  /** Splitting undoes joining with one of the separators, as long as no piece holds a separator. */
  lemma {:induction false} SplitJoin(parts: seq<string>, c: char, seps: set<char>)
    requires |parts| >= 1 && c in seps
    requires forall k | 0 <= k < |parts| :: Avoids(parts[k], seps)
    ensures Split(Join(parts, [c]), seps) == parts
    decreases |parts|
  {
    if |parts| == 1 {
      SplitAvoidingPrefix(parts[0], "", seps);
      assert parts[0] + "" == parts[0];
    } else {
      var tail := Join(parts[1..], [c]);
      SplitJoin(parts[1..], c, seps);
      assert Split([c] + tail, seps) == [""] + parts[1..];
      assert Join(parts, [c]) == parts[0] + ([c] + tail);
      SplitAvoidingPrefix(parts[0], [c] + tail, seps);
      assert parts[0] + "" == parts[0];
      assert [parts[0]] + parts[1..] == parts;
    }
  }

  /** The first piece of text that starts with a separator is empty. */
  lemma SplitLeadingSeparator(s: string, seps: set<char>)
    requires s != [] && s[0] in seps
    ensures Split(s, seps)[0] == ""
  {
  }

  /** The first piece is everything before the first separator. */
  lemma SplitFirstPiece(a: string, c: char, b: string, seps: set<char>)
    requires Avoids(a, seps) && c in seps
    ensures Split(a + [c] + b, seps)[0] == a
  {
    assert a + [c] + b == a + ([c] + b);
    SplitAvoidingPrefix(a, [c] + b, seps);
    SplitLeadingSeparator([c] + b, seps);
    assert a + "" == a;
  }

  /** Text without a separator is one piece. */
  lemma SplitWhole(s: string, seps: set<char>)
    requires Avoids(s, seps)
    ensures Split(s, seps) == [s]
  {
    SplitAvoidingPrefix(s, "", seps);
    assert s + "" == s;
  }

  /** Text holding a separator splits into at least two pieces. */
  lemma {:induction false} SplitAtPresent(s: string, c: char)
    requires c in s
    ensures |Split(s, {c})| >= 2
    decreases |s|
  {
    if s[0] != c {
      assert c in s[1..];
      SplitAtPresent(s[1..], c);
    }
  }

  /** Digits are never a dot. */
  lemma DigitsAvoidDot(s: string)
    requires AllDigits(s)
    ensures Avoids(s, {'.'})
  {
  }

  /** The first piece of a split is a prefix of the input. */
  lemma {:induction false} SplitFirstIsPrefix(s: string, seps: set<char>)
    ensures StartsWith(s, Split(s, seps)[0])
    decreases |s|
  {
    if s != [] && s[0] !in seps {
      SplitFirstIsPrefix(s[1..], seps);
    }
  }

  /** `s.replace(pattern, replacement)` for a non-empty `pattern`, scanning left to right. */
  function ReplaceAll(s: string, pattern: string, replacement: string): (r: string)
    requires pattern != []
    ensures !Contains(s, pattern) ==> r == s
    decreases |s|
  {
    if s == [] then []
    else if StartsWith(s, pattern) then replacement + ReplaceAll(s[|pattern|..], pattern, replacement)
    else [s[0]] + ReplaceAll(s[1..], pattern, replacement)
  }

  /** `s.replace(c, "")` for one character. */
  function RemoveChar(s: string, c: char): (r: string)
    ensures c !in r
    ensures |r| <= |s|
  {
    if s == [] then []
    else (if s[0] == c then [] else [s[0]]) + RemoveChar(s[1..], c)
  }

  // ---------------------------------------------------------------------
  // decimal digit strings

  function Pow10(n: nat): (r: nat)
    ensures r >= 1
  {
    if n == 0 then 1 else 10 * Pow10(n - 1)
  }

  function DigitChar(d: nat): (c: char)
    requires d < 10
    ensures IsDigit(c)
  {
    "0123456789"[d]
  }

  function DigitValue(c: char): (d: nat)
    requires IsDigit(c)
    ensures d < 10
  {
    c as int - '0' as int
  }

  lemma DigitRoundTrip(d: nat)
    requires d < 10
    ensures DigitValue(DigitChar(d)) == d
  {
  }

  /** `int(s)` for a string of ASCII digits. */
  function DigitsValue(s: string): nat
    requires AllDigits(s)
  {
    if s == [] then 0 else DigitsValue(s[..|s| - 1]) * 10 + DigitValue(s[|s| - 1])
  }

  /** `str(n)` for a natural number: no leading zeros. */
  function NatText(n: nat): (r: string)
    ensures r != [] && AllDigits(r)
    ensures |r| > 1 ==> r[0] != '0'
  {
    if n < 10 then [DigitChar(n)] else NatText(n / 10) + [DigitChar(n % 10)]
  }

  /** `str(i)` for an integer. */
  function IntText(i: int): (r: string)
    ensures r != []
  {
    if i < 0 then "-" + NatText(-i) else NatText(i)
  }

  /** Exactly `k` digits of `n` (the low ones), zero-padded on the left. */
  function FixedDigits(n: nat, k: nat): (r: string)
    ensures |r| == k && AllDigits(r)
  {
    if k == 0 then [] else FixedDigits(n / 10, k - 1) + [DigitChar(n % 10)]
  }

  lemma {:induction false} NatTextValue(n: nat)
    ensures DigitsValue(NatText(n)) == n
  {
    if n >= 10 {
      NatTextValue(n / 10);
      var r := NatText(n);
      assert r[..|r| - 1] == NatText(n / 10);
      DigitRoundTrip(n % 10);
    } else {
      DigitRoundTrip(n);
    }
  }

  lemma {:induction false} FixedDigitsValue(n: nat, k: nat)
    requires n < Pow10(k)
    ensures DigitsValue(FixedDigits(n, k)) == n
  {
    if k > 0 {
      FixedDigitsValue(n / 10, k - 1);
      var r := FixedDigits(n, k);
      assert r[..|r| - 1] == FixedDigits(n / 10, k - 1);
      DigitRoundTrip(n % 10);
    }
  }

  lemma {:induction false} DigitsValueAppend(a: string, b: string)
    requires AllDigits(a) && AllDigits(b)
    ensures AllDigits(a + b)
    ensures DigitsValue(a + b) == DigitsValue(a) * Pow10(|b|) + DigitsValue(b)
    decreases |b|
  {
    assert AllDigits(a + b) by {
      forall i | 0 <= i < |a + b| ensures IsDigit((a + b)[i]) {
        if i < |a| { assert (a + b)[i] == a[i]; } else { assert (a + b)[i] == b[i - |a|]; }
      }
    }
    if b == [] {
      assert a + b == a;
    } else {
      var b' := b[..|b| - 1];
      assert (a + b)[..|a + b| - 1] == a + b';
      assert (a + b)[|a + b| - 1] == b[|b| - 1];
      DigitsValueAppend(a, b');
      var d := DigitValue(b[|b| - 1]);
      assert DigitsValue(a + b) == DigitsValue(a + b') * 10 + d;
      assert DigitsValue(b) == DigitsValue(b') * 10 + d;
      assert Pow10(|b|) == Pow10(|b'|) * 10;
      ShiftDigit(DigitsValue(a), Pow10(|b'|), DigitsValue(b'), d);
    }
  }

  lemma ShiftDigit(x: int, p: int, y: int, d: int)
    ensures (x * p + y) * 10 + d == x * (p * 10) + (y * 10 + d)
  {
  }

  /** A digit string read as a number is smaller than 10 to the power of its length. */
  lemma {:induction false} DigitsValueBound(s: string)
    requires AllDigits(s)
    ensures DigitsValue(s) < Pow10(|s|)
  {
    if s != [] {
      DigitsValueBound(s[..|s| - 1]);
    }
  }

  // ---------------------------------------------------------------------
  // re.findall(r'(\d+)', s)

  /** The length of the run of ASCII digits at the start of `s`. */
  function DigitRunLength(s: string): (n: nat)
    ensures n <= |s| && AllDigits(s[..n])
    ensures n < |s| ==> !IsDigit(s[n])
  {
    if s != [] && IsDigit(s[0]) then
      var n := 1 + DigitRunLength(s[1..]);
      assert s[..n] == [s[0]] + s[1..][..n - 1];
      n
    else 0
  }

  /** Every maximal run of ASCII digits in `s`, left to right. */
  function DigitRuns(s: string): (runs: seq<string>)
    ensures forall k | 0 <= k < |runs| :: runs[k] != [] && AllDigits(runs[k])
    decreases |s|
  {
    if s == [] then []
    else if IsDigit(s[0]) then
      var n := DigitRunLength(s);
      [s[..n]] + DigitRuns(s[n..])
    else DigitRuns(s[1..])
  }
  /** A maximal run of digits is the first run found. */
  lemma {:induction false} DigitRunsAfterRun(a: string, rest: string)
    requires a != [] && AllDigits(a)
    requires rest == [] || !IsDigit(rest[0])
    ensures DigitRuns(a + rest) == [a] + DigitRuns(rest)
    decreases |a|
  {
    var s := a + rest;
    if |a| > 1 {
      DigitRunsAfterRun(a[1..], rest);
      assert s[1..] == a[1..] + rest;
    }
    assert DigitRunLength(s) == |a| by {
      DigitRunLengthOfRun(a, rest);
    }
    assert s[..|a|] == a && s[|a|..] == rest;
  }

  /** The run at the start of `a + rest` is all of `a`. */
  lemma {:induction false} DigitRunLengthOfRun(a: string, rest: string)
    requires AllDigits(a)
    requires rest == [] || !IsDigit(rest[0])
    ensures DigitRunLength(a + rest) == |a|
    decreases |a|
  {
    if a != [] {
      assert (a + rest)[1..] == a[1..] + rest;
      DigitRunLengthOfRun(a[1..], rest);
    }
  }

  /**
   * The numbers of a specification written "a*b..." are found as `a` and
   * then `b`, before any digits that follow.
   */
  lemma DigitRunsOfDimensions(a: string, b: string, rest: string)
    requires a != [] && AllDigits(a) && b != [] && AllDigits(b)
    requires rest == [] || !IsDigit(rest[0])
    ensures DigitRuns(a + "*" + b + rest) == [a, b] + DigitRuns(rest)
  {
    DigitRunsAfterRun(b, rest);
    DigitRunsSkip('*', b + rest);
    DigitRunsAfterRun(a, "*" + (b + rest));
    Regroup(a, "*", b, rest);
    ConsTwo(a, b, DigitRuns(rest));
  }

  /** A character that is not a digit starts no run. */
  lemma DigitRunsSkip(c: char, t: string)
    requires !IsDigit(c)
    ensures DigitRuns([c] + t) == DigitRuns(t)
  {
    assert ([c] + t)[1..] == t;
  }

  /** Concatenation regrouped to the right. */
  lemma Regroup<T>(a: seq<T>, b: seq<T>, c: seq<T>, d: seq<T>)
    ensures a + b + c + d == a + (b + (c + d))
  {
  }

  /** Two elements put in front one at a time. */
  lemma ConsTwo<T>(x: T, y: T, r: seq<T>)
    ensures [x] + ([y] + r) == [x, y] + r
  {
  }
}
