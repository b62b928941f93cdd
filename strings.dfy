/**
 * The Python string and path operations the services use, as functions on
 * `seq<char>`.  Case mapping and digit tests cover ASCII only; whitespace
 * follows Python's `str.isspace`; paths follow POSIX `os.path`.
 */
module Strings {
  import opened Wrappers

  // ---------------------------------------------------------------- whitespace

  /** The characters for which Python's `str.isspace()` holds. */
  predicate IsSpace(c: char) {
    || c == ' ' || ('\t' <= c <= '\r') || ('\U{1c}' <= c <= '\U{1f}')
    || c == '\U{85}' || c == '\U{a0}' || c == '\U{1680}'
    || ('\U{2000}' <= c <= '\U{200a}') || c == '\U{2028}' || c == '\U{2029}'
    || c == '\U{202f}' || c == '\U{205f}' || c == '\U{3000}'
  }

  predicate AllSpace(s: string) {
    forall i :: 0 <= i < |s| ==> IsSpace(s[i])
  }

  /** `s.lstrip()` */
  function LStrip(s: string): (r: string)
    ensures |r| <= |s| && r == s[|s| - |r|..]
    ensures AllSpace(s[..|s| - |r|])
    ensures r == [] || !IsSpace(r[0])
  {
    if s != [] && IsSpace(s[0]) then
      var r := LStrip(s[1..]);
      var n := |s| - |r|;
      assert AllSpace(s[1..][..n - 1]);
      assert s[..n] == [s[0]] + s[1..][..n - 1];
      r
    else s
  }

  /** `s.rstrip()` */
  function RStrip(s: string): (r: string)
    ensures |r| <= |s| && r == s[..|r|]
    ensures AllSpace(s[|r|..])
    ensures r == [] || !IsSpace(r[|r| - 1])
  {
    if s != [] && IsSpace(s[|s| - 1]) then
      var r := RStrip(s[..|s| - 1]);
      assert AllSpace(s[..|s| - 1][|r|..]);
      assert s[|r|..] == s[..|s| - 1][|r|..] + [s[|s| - 1]];
      r
    else s
  }

  /** `s.strip()` */
  function Strip(s: string): string {
    RStrip(LStrip(s))
  }

  /** Text that neither starts nor ends with whitespace is its own strip. */
  lemma StripUnpadded(s: string)
    requires s != [] && !IsSpace(s[0]) && !IsSpace(s[|s| - 1])
    ensures Strip(s) == s
  {
    var l := LStrip(s);
    assert l == s;
    assert RStrip(l) == l;
  }

  /** Python's truth value of an optional string (None or "" is false). */
  predicate Truthy(s: Option<string>) {
    s.Some? && s.value != ""
  }

  /** Python's truth value of `s.strip()`: false exactly for all-whitespace text. */
  predicate IsBlank(s: string) {
    Strip(s) == []
  }

  lemma BlankIffAllSpace(s: string)
    ensures IsBlank(s) <==> AllSpace(s)
  {
    var l := LStrip(s);
    if !AllSpace(s) {
      var i :| 0 <= i < |s| && !IsSpace(s[i]);
      assert i >= |s| - |l|;
      assert l[0] == s[|s| - |l|];
    }
  }

  // ------------------------------------------------------------------ case

  predicate IsAsciiUpper(c: char) { 'A' <= c <= 'Z' }
  predicate IsAsciiLower(c: char) { 'a' <= c <= 'z' }
  predicate IsAsciiLetter(c: char) { IsAsciiUpper(c) || IsAsciiLower(c) }

  function UpperChar(c: char): char {
    if IsAsciiLower(c) then (c as int - 32) as char else c
  }

  function LowerChar(c: char): char {
    if IsAsciiUpper(c) then (c as int + 32) as char else c
  }

  /** `s.upper()` on ASCII */
  function Upper(s: string): (r: string)
    ensures |r| == |s| && forall i :: 0 <= i < |s| ==> r[i] == UpperChar(s[i])
  {
    seq(|s|, i requires 0 <= i < |s| => UpperChar(s[i]))
  }

  /** `s.lower()` on ASCII */
  function Lower(s: string): (r: string)
    ensures |r| == |s| && forall i :: 0 <= i < |s| ==> r[i] == LowerChar(s[i])
  {
    seq(|s|, i requires 0 <= i < |s| => LowerChar(s[i]))
  }

  /** Text without ASCII small letters is its own upper case. */
  lemma UpperUncased(s: string)
    requires forall i :: 0 <= i < |s| ==> !IsAsciiLower(s[i])
    ensures Upper(s) == s
  {
  }

  /** Text without ASCII capitals is its own lower case. */
  lemma LowerUncased(s: string)
    requires forall i :: 0 <= i < |s| ==> !IsAsciiUpper(s[i])
    ensures Lower(s) == s
  {
  }

  /** `s.capitalize()` on ASCII: first character upper case, the rest lower case. */
  function Capitalize(s: string): (r: string)
    ensures |r| == |s|
  {
    if s == [] then [] else [UpperChar(s[0])] + Lower(s[1..])
  }

  /**
   * `s.title()` on ASCII: a letter is upper-cased when the character before it
   * is not a letter, and lower-cased otherwise.
   */
  function Title(s: string): (r: string)
    ensures |r| == |s|
  {
    TitleAfter(s, false)
  }

  function TitleAfter(s: string, prevCased: bool): (r: string)
    ensures |r| == |s|
  {
    if s == [] then []
    else
      var c := s[0];
      var t := if !IsAsciiLetter(c) then c else if prevCased then LowerChar(c) else UpperChar(c);
      [t] + TitleAfter(s[1..], IsAsciiLetter(c))
  }

  // ---------------------------------------------------------------- digits

  predicate IsDigitChar(c: char) { '0' <= c <= '9' }

  /** `s.isdigit()` on ASCII: non-empty and all digits. */
  predicate IsDigits(s: string) {
    |s| > 0 && forall i :: 0 <= i < |s| ==> IsDigitChar(s[i])
  }

  function DigitValue(c: char): nat
    requires IsDigitChar(c)
  {
    c as int - '0' as int
  }

  /** `int(s)` for a string of decimal digits. */
  function DigitsValue(s: string): nat
    requires forall i :: 0 <= i < |s| ==> IsDigitChar(s[i])
  {
    if s == [] then 0 else DigitsValue(s[..|s| - 1]) * 10 + DigitValue(s[|s| - 1])
  }

  function DigitChar(d: nat): (c: char)
    requires d < 10
    ensures IsDigitChar(c) && DigitValue(c) == d
  {
    ('0' as int + d) as char
  }

  /** `str(n)` for a natural number. */
  function NatToString(n: nat): string {
    if n < 10 then [DigitChar(n)] else NatToString(n / 10) + [DigitChar(n % 10)]
  }

  /** `str(n)` is a non-empty string of decimal digits. */
  lemma {:induction false} NatToStringDigits(n: nat)
    ensures IsDigits(NatToString(n))
  {
    if n >= 10 {
      NatToStringDigits(n / 10);
    }
  }

  /** `str(i)` for an integer. */
  function IntToString(i: int): (r: string)
    ensures |r| > 0
    ensures forall k :: 0 <= k < |r| ==> IsDigitChar(r[k]) || r[k] == '-'
  {
    NatToStringDigits(if i < 0 then -i else i);
    if i < 0 then "-" + NatToString(-i) else NatToString(i)
  }

  lemma {:induction false} NatToStringRoundTrip(n: nat)
    ensures IsDigits(NatToString(n)) && DigitsValue(NatToString(n)) == n
  {
    NatToStringDigits(n);
    if n >= 10 {
      NatToStringRoundTrip(n / 10);
      var s := NatToString(n);
      assert s[..|s| - 1] == NatToString(n / 10);
    }
  }

  // ------------------------------------------------------------ substrings

  predicate StartsWith(s: string, prefix: string) {
    |prefix| <= |s| && s[..|prefix|] == prefix
  }

  predicate OccursAt(s: string, sub: string, i: int) {
    0 <= i && i + |sub| <= |s| && s[i..i + |sub|] == sub
  }

  /** `s.find(sub, i)`, as an option: the first occurrence at or after `i`. */
  function FindFrom(s: string, sub: string, i: nat): (r: Option<nat>)
    ensures r.Some? ==> i <= r.value && OccursAt(s, sub, r.value)
    ensures r.Some? ==> forall j :: i <= j < r.value ==> !OccursAt(s, sub, j)
    ensures r.None? ==> forall j :: i <= j ==> !OccursAt(s, sub, j)
    decreases |s| - i
  {
    if i + |sub| > |s| then None
    else if OccursAt(s, sub, i) then Some(i)
    else FindFrom(s, sub, i + 1)
  }

  /** `sub in s` */
  predicate Contains(s: string, sub: string) {
    FindFrom(s, sub, 0).Some?
  }

  lemma ContainsIff(s: string, sub: string)
    ensures Contains(s, sub) <==> exists i :: OccursAt(s, sub, i)
  {
  }

  /** `s.replace(pat, rep)`: every non-overlapping occurrence, left to right. */
  function Replace(s: string, pat: string, rep: string): (r: string)
    requires |pat| > 0
    decreases |s|
  {
    if |s| < |pat| then s
    else if s[..|pat|] == pat then rep + Replace(s[|pat|..], pat, rep)
    else [s[0]] + Replace(s[1..], pat, rep)
  }

  lemma {:induction false} ReplaceAbsent(s: string, pat: string, rep: string)
    requires |pat| > 0
    requires forall i :: !OccursAt(s, pat, i)
    ensures Replace(s, pat, rep) == s
    decreases |s|
  {
    if |s| >= |pat| {
      assert !OccursAt(s, pat, 0);
      forall i ensures !OccursAt(s[1..], pat, i) {
        if OccursAt(s[1..], pat, i) {
          assert s[1..][i..i + |pat|] == s[i + 1..i + 1 + |pat|];
          assert OccursAt(s, pat, i + 1);
        }
      }
      ReplaceAbsent(s[1..], pat, rep);
    }
  }

  /** A prefix in which no occurrence starts passes through `Replace` unchanged. */
  lemma {:induction false} ReplaceSkipsPrefix(a: string, b: string, pat: string, rep: string)
    requires |pat| > 0
    requires forall i :: 0 <= i < |a| ==> !OccursAt(a + b, pat, i)
    ensures Replace(a + b, pat, rep) == a + Replace(b, pat, rep)
    decreases |a|
  {
    if a != [] {
      var s := a + b;
      assert !OccursAt(s, pat, 0);
      assert s[1..] == a[1..] + b;
      forall i | 0 <= i < |a[1..]| ensures !OccursAt(a[1..] + b, pat, i) {
        if OccursAt(a[1..] + b, pat, i) {
          assert (a[1..] + b)[i..i + |pat|] == s[i + 1..i + 1 + |pat|];
          assert OccursAt(s, pat, i + 1);
        }
      }
      ReplaceSkipsPrefix(a[1..], b, pat, rep);
      if |s| >= |pat| {
        assert s[..|pat|] != pat;
        assert Replace(s, pat, rep) == [s[0]] + Replace(a[1..] + b, pat, rep);
        assert [s[0]] + a[1..] == a;
      }
    } else {
      assert a + b == b;
    }
  }

  /** A prefix free of the pattern's first character passes through `Replace` unchanged. */
  lemma {:induction false} ReplaceSkipsFree(a: string, b: string, pat: string, rep: string)
    requires |pat| > 0
    requires forall j :: 0 <= j < |a| ==> a[j] != pat[0]
    ensures Replace(a + b, pat, rep) == a + Replace(b, pat, rep)
    decreases |a|
  {
    if a != [] {
      var s := a + b;
      assert s[1..] == a[1..] + b;
      ReplaceSkipsFree(a[1..], b, pat, rep);
      if |s| >= |pat| {
        assert s[..|pat|][0] == a[0];
      } else {
        ReplaceAbsent(b, pat, rep);
      }
      assert [a[0]] + a[1..] == a;
    } else {
      assert a + b == b;
    }
  }

  /**
   * A prefix of `Replace(t, pat, rep)` without newlines was copied from `t`
   * unchanged, when `rep` starts with a newline.
   */
  lemma {:induction false} ReplaceNewlineFreePrefix(t: string, pat: string, rep: string, m: nat)
    requires |pat| > 0 && |rep| > 0 && rep[0] == '\n'
    ensures m <= |Replace(t, pat, rep)| && (forall j :: 0 <= j < m ==> Replace(t, pat, rep)[j] != '\n')
            ==> m <= |t| && Replace(t, pat, rep)[..m] == t[..m]
    decreases |t|
  {
    var r := Replace(t, pat, rep);
    if m > 0 && |t| >= |pat| && t[..|pat|] != pat {
      var tail := Replace(t[1..], pat, rep);
      ReplaceNewlineFreePrefix(t[1..], pat, rep, m - 1);
      assert r == [t[0]] + tail;
      if m <= |r| && (forall j :: 0 <= j < m ==> r[j] != '\n') {
        assert forall j :: 0 <= j < m - 1 ==> tail[j] == r[j + 1];
        assert r[..m] == [t[0]] + tail[..m - 1];
        assert t[..m] == [t[0]] + t[1..][..m - 1];
      }
    } else if m > 0 && |t| >= |pat| {
      assert r[0] == '\n';
    }
  }

  predicate HasNewline(s: string) {
    exists j :: 0 <= j < |s| && s[j] == '\n'
  }

  lemma OccursInSuffix(s: string, q: string, k: nat)
    requires k <= |s|
    ensures forall i :: OccursAt(s[k..], q, i) ==> OccursAt(s, q, i + k)
  {
    forall i | OccursAt(s[k..], q, i) ensures OccursAt(s, q, i + k) {
      assert s[k..][i..i + |q|] == s[i + k..i + k + |q|];
    }
  }

  /** An occurrence in `a + b` lies in `a`, in `b`, or across the newline that ends `a`. */
  lemma OccursAcrossNewline(a: string, b: string, q: string)
    requires |a| > 0 && a[|a| - 1] == '\n'
    ensures forall i :: OccursAt(a + b, q, i) ==> OccursAt(a, q, i) || OccursAt(b, q, i - |a|) || HasNewline(q)
  {
    var r := a + b;
    forall i | OccursAt(r, q, i) ensures OccursAt(a, q, i) || OccursAt(b, q, i - |a|) || HasNewline(q) {
      if i + |q| <= |a| {
        assert r[i..i + |q|] == a[i..i + |q|];
      } else if i >= |a| {
        assert r[i..i + |q|] == b[i - |a|..i - |a| + |q|];
      } else {
        assert q[|a| - 1 - i] == r[|a| - 1];
      }
    }
  }

  /** The copy step of `Replace`: an occurrence at the front of the result was at the front of `s`. */
  lemma OccursAfterCopiedHead(s: string, pat: string, rep: string, q: string)
    requires |pat| > 0 && |q| > 0 && |s| >= 1
    requires |rep| > 0 && rep[0] == '\n'
    ensures forall i :: OccursAt([s[0]] + Replace(s[1..], pat, rep), q, i) ==>
              (i == 0 && (OccursAt(s, q, 0) || HasNewline(q))) || (i > 0 && OccursAt(Replace(s[1..], pat, rep), q, i - 1))
  {
    var tail := Replace(s[1..], pat, rep);
    var r := [s[0]] + tail;
    ReplaceNewlineFreePrefix(s[1..], pat, rep, |q| - 1);
    forall i | OccursAt(r, q, i)
      ensures (i == 0 && (OccursAt(s, q, 0) || HasNewline(q))) || (i > 0 && OccursAt(tail, q, i - 1))
    {
      if i == 0 {
        assert forall j :: 0 <= j < |q| - 1 ==> tail[j] == q[j + 1];
        if !HasNewline(q) {
          assert tail[..|q| - 1] == s[1..][..|q| - 1];
          assert s[..|q|] == [s[0]] + s[1..][..|q| - 1];
          assert q == [s[0]] + tail[..|q| - 1];
        }
      } else {
        assert r[i..i + |q|] == tail[i - 1..i - 1 + |q|];
      }
    }
  }

  /**
   * Replacing `pat` by a text that starts and ends with a newline and does
   * not contain `q` leaves no occurrence of a newline-free `q`: not of
   * `pat` itself, and not of any `q` the input did not contain.
   */
  lemma {:induction false} ReplaceLeavesNone(s: string, pat: string, rep: string, q: string)
    requires |pat| > 0 && |q| > 0
    requires |rep| > 0 && rep[0] == '\n' && rep[|rep| - 1] == '\n'
    requires !HasNewline(q)
    requires forall i :: !OccursAt(rep, q, i)
    requires q == pat || forall i :: !OccursAt(s, q, i)
    ensures forall i :: !OccursAt(Replace(s, pat, rep), q, i)
    decreases |s|
  {
    if |s| < |pat| {
    } else if s[..|pat|] == pat {
      OccursInSuffix(s, q, |pat|);
      ReplaceLeavesNone(s[|pat|..], pat, rep, q);
      OccursAcrossNewline(rep, Replace(s[|pat|..], pat, rep), q);
    } else {
      OccursInSuffix(s, q, 1);
      ReplaceLeavesNone(s[1..], pat, rep, q);
      OccursAfterCopiedHead(s, pat, rep, q);
    }
  }

  /**
   * An occurrence of `q` that overlaps no occurrence of `pat` survives
   * `Replace(s, pat, rep)`.
   */
  lemma {:induction false} ReplaceKeepsApart(s: string, pat: string, rep: string, q: string, i: int)
    requires |pat| > 0 && |q| > 0 && OccursAt(s, q, i)
    requires forall p :: OccursAt(s, pat, p) ==> p + |pat| <= i || i + |q| <= p
    ensures exists j :: OccursAt(Replace(s, pat, rep), q, j)
    decreases |s|
  {
    var r := Replace(s, pat, rep);
    if i == 0 {
      assert s == s[..|q|] + s[|q|..];
      ReplaceSkipsPrefix(s[..|q|], s[|q|..], pat, rep);
      assert r[..|q|] == q;
      assert OccursAt(r, q, 0);
    } else if |s| < |pat| {
      assert OccursAt(r, q, i);
    } else {
      var k := if s[..|pat|] == pat then |pat| else 1;
      var head := if s[..|pat|] == pat then rep else [s[0]];
      assert OccursAt(s, pat, 0) ==> k == |pat|;
      ApartInSuffix(s, pat, q, i, k);
      ReplaceKeepsApart(s[k..], pat, rep, q, i - k);
      var j :| OccursAt(Replace(s[k..], pat, rep), q, j);
      assert r == head + Replace(s[k..], pat, rep);
      OccursUnderPrefix(head, Replace(s[k..], pat, rep), q, j);
    }
  }

  lemma ApartInSuffix(s: string, pat: string, q: string, i: int, k: nat)
    requires 0 < k <= i && OccursAt(s, q, i)
    requires forall p :: OccursAt(s, pat, p) ==> p + |pat| <= i || i + |q| <= p
    ensures OccursAt(s[k..], q, i - k)
    ensures forall p :: OccursAt(s[k..], pat, p) ==> p + |pat| <= i - k || i - k + |q| <= p
  {
    var t := s[k..];
    assert t[i - k..i - k + |q|] == s[i..i + |q|];
    OccursInSuffix(s, pat, k);
  }

  lemma OccursUnderPrefix(x: string, t: string, q: string, j: int)
    requires OccursAt(t, q, j)
    ensures OccursAt(x + t, q, j + |x|)
  {
    assert (x + t)[j + |x|..j + |x| + |q|] == t[j..j + |q|];
  }

  /** `s` with every `c` taken out. */
  function Without(s: string, c: char): (r: string)
    ensures forall i :: 0 <= i < |r| ==> r[i] != c
    ensures |r| <= |s|
  {
    if s == [] then [] else (if s[0] == c then [] else [s[0]]) + Without(s[1..], c)
  }

  /** `s.replace(c, "")` removes exactly the occurrences of `c`. */
  lemma {:induction false} ReplaceCharByNothing(s: string, c: char)
    ensures Replace(s, [c], "") == Without(s, c)
    decreases |s|
  {
    if s != [] {
      ReplaceCharByNothing(s[1..], c);
      if s[0] == c {
        assert s[..1] == [c];
      } else {
        assert s[..1] != [c];
      }
    }
  }

  /** `sep.join(parts)` */
  function Join(sep: string, parts: seq<string>): string {
    if parts == [] then ""
    else if |parts| == 1 then parts[0]
    else parts[0] + sep + Join(sep, parts[1..])
  }

  /** Concatenation of a sequence of strings (`"".join(parts)`). */
  function Concat(parts: seq<string>): string {
    if parts == [] then "" else parts[0] + Concat(parts[1..])
  }

  lemma {:induction false} ConcatAppend(a: seq<string>, b: seq<string>)
    ensures Concat(a + b) == Concat(a) + Concat(b)
  {
    if a != [] {
      assert (a + b)[1..] == a[1..] + b;
      ConcatAppend(a[1..], b);
      calc {
        Concat(a + b);
        (a + b)[0] + Concat((a + b)[1..]);
        a[0] + Concat(a[1..] + b);
        a[0] + (Concat(a[1..]) + Concat(b));
        (a[0] + Concat(a[1..])) + Concat(b);
      }
    } else {
      assert a + b == b;
    }
  }

  // -------------------------------------------------------- split on a char

  /** `s.find(c, i)` for one character. */
  function FindChar(s: string, c: char, i: nat): (r: Option<nat>)
    ensures r.Some? ==> i <= r.value < |s| && s[r.value] == c
    ensures r.Some? ==> forall j :: i <= j < r.value ==> s[j] != c
    ensures r.None? ==> forall j :: i <= j < |s| ==> s[j] != c
    decreases |s| - i
  {
    if i >= |s| then None else if s[i] == c then Some(i) else FindChar(s, c, i + 1)
  }

  /** `s.split(c)` for a one-character separator. */
  function SplitOn(s: string, c: char): (r: seq<string>)
    ensures |r| >= 1
    ensures forall k, j :: 0 <= k < |r| && 0 <= j < |r[k]| ==> r[k][j] != c
    decreases |s|
  {
    match FindChar(s, c, 0)
    case None => [s]
    case Some(i) => [s[..i]] + SplitOn(s[i + 1..], c)
  }

  lemma {:induction false} SplitJoinRoundTrip(s: string, c: char)
    ensures Join([c], SplitOn(s, c)) == s
    decreases |s|
  {
    match FindChar(s, c, 0)
    case None =>
    case Some(i) =>
      var rest := SplitOn(s[i + 1..], c);
      SplitJoinRoundTrip(s[i + 1..], c);
      assert SplitOn(s, c) == [s[..i]] + rest;
      assert (([s[..i]] + rest)[1..]) == rest;
      assert Join([c], [s[..i]] + rest) == s[..i] + [c] + Join([c], rest);
      assert s == s[..i] + [c] + s[i + 1..];
  }

  /** `(a + c + b).split(c)` when `a` holds no `c`. */
  lemma SplitOnFirst(a: string, b: string, c: char)
    requires forall j :: 0 <= j < |a| ==> a[j] != c
    ensures SplitOn(a + [c] + b, c) == [a] + SplitOn(b, c)
  {
    var s := a + [c] + b;
    assert s[|a|] == c;
    assert FindChar(s, c, 0) == Some(|a|);
    assert s[..|a|] == a && s[|a| + 1..] == b;
  }

  lemma SplitOnAbsent(s: string, c: char)
    requires forall j :: 0 <= j < |s| ==> s[j] != c
    ensures SplitOn(s, c) == [s]
  {
  }

  // -------------------------------------------------------------- ordering

  /** Python's `a <= b` on strings: lexicographic by code point. */
  predicate LexLe(a: string, b: string)
    decreases |a|
  {
    a == [] || (b != [] && (a[0] < b[0] || (a[0] == b[0] && LexLe(a[1..], b[1..]))))
  }

  lemma {:induction false} LexLeTotal(a: string, b: string)
    ensures LexLe(a, b) || LexLe(b, a)
    decreases |a|
  {
    if a != [] && b != [] && a[0] == b[0] {
      LexLeTotal(a[1..], b[1..]);
    }
  }

  lemma {:induction false} LexLeAntisymmetric(a: string, b: string)
    requires LexLe(a, b) && LexLe(b, a)
    ensures a == b
    decreases |a|
  {
    if a != [] {
      LexLeAntisymmetric(a[1..], b[1..]);
      assert a == [a[0]] + a[1..] && b == [b[0]] + b[1..];
    }
  }

  lemma {:induction false} LexLeTransitive(a: string, b: string, c: string)
    requires LexLe(a, b) && LexLe(b, c)
    ensures LexLe(a, c)
    decreases |a|
  {
    if a != [] && a[0] == b[0] && b[0] == c[0] {
      LexLeTransitive(a[1..], b[1..], c[1..]);
    }
  }

  // ------------------------------------------------------------- POSIX paths

  /** `s.rfind(c)`: the last position of `c`, or -1. */
  function LastIndexOf(s: string, c: char): (r: int)
    ensures -1 <= r < |s|
    ensures r >= 0 ==> s[r] == c
    ensures forall j :: r < j < |s| ==> s[j] != c
  {
    if s == [] then -1
    else if s[|s| - 1] == c then |s| - 1
    else LastIndexOf(s[..|s| - 1], c)
  }

  /** `os.path.basename(p)`: the text after the last `/`. */
  function Basename(p: string): (r: string)
    ensures forall j :: 0 <= j < |r| ==> r[j] != '/'
  {
    p[LastIndexOf(p, '/') + 1..]
  }

  /** `s.rstrip(c)` for one character. */
  function RStripChar(s: string, c: char): (r: string)
    ensures |r| <= |s| && r == s[..|r|]
  {
    if s != [] && s[|s| - 1] == c then RStripChar(s[..|s| - 1], c) else s
  }

  /**
   * `os.path.dirname(p)`: the text up to the last `/`, with trailing slashes
   * removed unless it consists of slashes only.
   */
  function Dirname(p: string): string {
    var head := p[..LastIndexOf(p, '/') + 1];
    if head != [] && exists j :: 0 <= j < |head| && head[j] != '/' then RStripChar(head, '/') else head
  }

  /** `os.path.join(a, b)` for two components. */
  function PathJoin(a: string, b: string): string {
    if StartsWith(b, "/") then b
    else if a == [] || a[|a| - 1] == '/' then a + b
    else a + "/" + b
  }

  lemma BasenameOfJoin(dir: string, name: string)
    requires dir != [] && dir[|dir| - 1] != '/'
    requires name != [] && forall j :: 0 <= j < |name| ==> name[j] != '/'
    ensures Basename(PathJoin(dir, name)) == name
    ensures Dirname(PathJoin(dir, name)) == dir
  {
    var p := PathJoin(dir, name);
    assert !StartsWith(name, "/") by { assert name[..1][0] == name[0]; }
    assert p == dir + "/" + name;
    assert LastIndexOf(p, '/') == |dir| by {
      assert p[|dir|] == '/';
    }
    var head := p[..|dir| + 1];
    assert head == dir + "/";
    assert head[|dir| - 1] != '/';
    assert RStripChar(head, '/') == dir;
  }

  /** Joining any directory with a name free of `/` gives back that name as the basename. */
  lemma BasenameOfSlashFree(dir: string, name: string)
    requires forall j :: 0 <= j < |name| ==> name[j] != '/'
    ensures Basename(PathJoin(dir, name)) == name
  {
    assert !StartsWith(name, "/") by {
      if |name| >= 1 { assert name[..1][0] == name[0]; }
    }
    var p := PathJoin(dir, name);
    var pre := p[..|p| - |name|];
    assert p == pre + name;
    assert pre == [] || pre[|pre| - 1] == '/';
    var r := LastIndexOf(p, '/');
    if pre != [] {
      assert p[|pre| - 1] == '/';
    }
    assert r == |pre| - 1;
  }

  /**
   * `os.path.splitext(p)`: the extension starts at the last `.` of the
   * basename, unless every character before that dot in the basename is a dot.
   */
  function Splitext(p: string): (r: (string, string))
    ensures r.0 + r.1 == p
  {
    var sep := LastIndexOf(p, '/');
    var dot := LastIndexOf(p, '.');
    if dot > sep && exists j :: sep < j < dot && p[j] != '.' then (p[..dot], p[dot..])
    else (p, "")
  }
}
