/**
 * The Python `str` operations the core relies on (`in`, `find`, `replace`,
 * `split`, `join`, `strip`, `upper`, `lower`, `startswith`, slicing, `str(int)`),
 * each defined once on `seq<char>` with the facts the rest of the model needs.
 */
module Strings {

  predicate StartsWith(s: string, p: string) {
    |p| <= |s| && s[..|p|] == p
  }

  predicate EndsWith(s: string, p: string) {
    |p| <= |s| && s[|s| - |p|..] == p
  }

  /** Python's `p in s`: `p` occurs somewhere in `s` (the empty string occurs everywhere). */
  predicate Contains(s: string, p: string)
    decreases |s|
  {
    StartsWith(s, p) || (|s| > 0 && Contains(s[1..], p))
  }

  lemma {:induction false} ContainsAt(s: string, p: string, i: nat)
    requires i <= |s| && StartsWith(s[i..], p)
    ensures Contains(s, p)
  {
    if i > 0 {
      assert s[1..][i - 1..] == s[i..];
      ContainsAt(s[1..], p, i - 1);
    }
  }

  lemma {:induction false} ContainsWitness(s: string, p: string) returns (i: nat)
    requires Contains(s, p)
    ensures i + |p| <= |s| && s[i..i + |p|] == p
  {
    if StartsWith(s, p) {
      i := 0;
    } else {
      var j := ContainsWitness(s[1..], p);
      i := j + 1;
      assert s[i..i + |p|] == s[1..][j..j + |p|];
    }
  }

  /** An occurrence inside a middle part is an occurrence of the whole. */
  lemma ContainsInfix(a: string, m: string, b: string, p: string)
    requires Contains(m, p)
    ensures Contains(a + m + b, p)
  {
    var j := ContainsWitness(m, p);
    var s := a + m + b;
    assert s[|a| + j..][..|p|] == m[j..j + |p|];
    ContainsAt(s, p, |a| + j);
  }

  /** Python's `s.find(p)`: the first index where `p` occurs, or -1. */
  function Find(s: string, p: string): (r: int)
    decreases |s|
    ensures r >= -1 && (r >= 0 ==> r + |p| <= |s|)
    ensures r == -1 <==> !Contains(s, p)
    ensures r >= 0 ==> s[r..r + |p|] == p
    ensures forall j :: 0 <= j < r ==> !StartsWith(s[j..], p)
  {
    if StartsWith(s, p) then 0
    else if |s| == 0 then -1
    else
      var r := Find(s[1..], p);
      NoEarlierMatch(s, p, r);
      assert r >= 0 ==> s[r + 1..r + 1 + |p|] == s[1..][r..r + |p|];
      if r < 0 then -1 else r + 1
  }

  /** No match in `s[1..]` before `r`, and none at 0: no match in `s` before `r + 1`. */
  lemma NoEarlierMatch(s: string, p: string, r: int)
    requires |s| > 0 && !StartsWith(s, p) && r < |s|
    requires forall j :: 0 <= j < r ==> !StartsWith(s[1..][j..], p)
    ensures forall j :: 0 <= j < r + 1 ==> !StartsWith(s[j..], p)
  {
    forall j | 0 <= j < r + 1 ensures !StartsWith(s[j..], p) {
      if j == 0 {
        assert s[0..] == s;
      } else {
        assert s[j..] == s[1..][j - 1..];
      }
    }
  }

  /**
   * Python's `s.replace(pat, rep)` for a non-empty `pat`: every occurrence, scanned left to
   * right without overlaps, is replaced.
   */
  function Replace(s: string, pat: string, rep: string): (r: string)
    requires |pat| > 0
    decreases |s|
    ensures |rep| == |pat| ==> |r| == |s|
  {
    if StartsWith(s, pat) then rep + Replace(s[|pat|..], pat, rep)
    else if |s| == 0 then ""
    else [s[0]] + Replace(s[1..], pat, rep)
  }

  /** Replacing a pattern that does not occur changes nothing. */
  lemma {:induction false} ReplaceAbsent(s: string, pat: string, rep: string)
    requires |pat| > 0 && !Contains(s, pat)
    ensures Replace(s, pat, rep) == s
  {
    if |s| > 0 {
      ReplaceAbsent(s[1..], pat, rep);
    }
  }

  /** `q` occurs at no position of `s`. */
  predicate NowhereIn(s: string, q: string) {
    forall j :: 0 <= j <= |s| ==> !StartsWith(s[j..], q)
  }

  lemma NowhereInIsNotContains(s: string, q: string)
    ensures NowhereIn(s, q) <==> !Contains(s, q)
  {
    if Contains(s, q) {
      var i := ContainsWitness(s, q);
      assert s[i..][..|q|] == s[i..i + |q|];
    }
    if !NowhereIn(s, q) {
      var j :| 0 <= j <= |s| && StartsWith(s[j..], q);
      ContainsAt(s, q, j);
    }
  }

  /** `t` begins with `mark` and has no other `mark`, like the step marker `[1/4]`. */
  predicate MarkedToken(t: string, mark: char) {
    |t| > 0 && t[0] == mark && forall i :: 1 <= i < |t| ==> t[i] != mark
  }

  /**
   * With a same-length replacement that starts with `mark`, a prefix of the result free of
   * `mark` was copied unchanged from the input.
   */
  lemma {:induction false} ReplaceCopiesUnmarkedPrefix(t: string, pat: string, rep: string, mark: char, m: nat)
    requires |pat| > 0 && |rep| == |pat| && rep[0] == mark && m <= |t|
    requires forall i :: 0 <= i < m ==> Replace(t, pat, rep)[i] != mark
    ensures Replace(t, pat, rep)[..m] == t[..m]
  {
    var r := Replace(t, pat, rep);
    if m > 0 {
      assert r[0] != mark;
      assert !StartsWith(t, pat);
      var rest := Replace(t[1..], pat, rep);
      assert r == [t[0]] + rest;
      assert forall i :: 0 <= i < m - 1 ==> rest[i] == r[i + 1];
      ReplaceCopiesUnmarkedPrefix(t[1..], pat, rep, mark, m - 1);
      assert r[..m] == [t[0]] + rest[..m - 1];
      assert t[..m] == [t[0]] + t[1..][..m - 1];
    }
  }

  /**
   * Replacing one marked token by another of the same length never creates an occurrence
   * of a marked token `q` other than the replacement: it leaves `q` absent if it was, and
   * removes every occurrence of the pattern itself.
   */
  lemma {:induction false} ReplaceLeavesTokenAbsent(s: string, pat: string, rep: string, q: string, mark: char)
    requires |pat| > 0 && |rep| == |pat| && |q| == |pat|
    requires MarkedToken(rep, mark) && MarkedToken(q, mark) && rep != q
    requires q == pat || NowhereIn(s, q)
    ensures NowhereIn(Replace(s, pat, rep), q)
    decreases |s|
  {
    if StartsWith(s, pat) {
      var rest := s[|pat|..];
      if q != pat {
        forall j | 0 <= j <= |rest| ensures !StartsWith(rest[j..], q) {
          assert rest[j..] == s[|pat| + j..];
        }
      }
      ReplaceLeavesTokenAbsent(rest, pat, rep, q, mark);
      assert Replace(s, pat, rep) == rep + Replace(rest, pat, rep);
      TokenAbsentAfterReplacement(rep, Replace(rest, pat, rep), q, mark);
    } else if |s| > 0 {
      var rest := s[1..];
      if q != pat {
        forall j | 0 <= j <= |rest| ensures !StartsWith(rest[j..], q) {
          assert rest[j..] == s[1 + j..];
        }
      }
      ReplaceLeavesTokenAbsent(rest, pat, rep, q, mark);
      TokenAbsentAfterCopiedChar(s, pat, rep, q, mark);
    }
  }

  /** A different marked token of the same length cannot start inside or after the replacement. */
  lemma TokenAbsentAfterReplacement(rep: string, tail: string, q: string, mark: char)
    requires |rep| == |q| && MarkedToken(rep, mark) && MarkedToken(q, mark) && rep != q
    requires NowhereIn(tail, q)
    ensures NowhereIn(rep + tail, q)
  {
    var out := rep + tail;
    forall j | 0 <= j <= |out| ensures !StartsWith(out[j..], q) {
      if j == 0 {
        assert out[..|q|] == rep;
      } else if j < |rep| {
        assert out[j..][0] == rep[j];
      } else {
        assert out[j..] == tail[j - |rep|..];
      }
    }
  }

  /** A copied first character cannot start `q` unless `q` already started the input. */
  lemma TokenAbsentAfterCopiedChar(s: string, pat: string, rep: string, q: string, mark: char)
    requires |pat| > 0 && |rep| == |pat| && |q| == |pat|
    requires MarkedToken(rep, mark) && MarkedToken(q, mark)
    requires |s| > 0 && !StartsWith(s, pat) && (q == pat || NowhereIn(s, q))
    requires NowhereIn(Replace(s[1..], pat, rep), q)
    ensures NowhereIn(Replace(s, pat, rep), q)
  {
    assert !StartsWith(s, q) by {
      if q != pat {
        assert s[0..] == s;
      }
    }
    TokenStartIsCopied(s, pat, rep, q, mark);
    assert Replace(s, pat, rep) == [s[0]] + Replace(s[1..], pat, rep);
    NowhereInAfterHead(s[0], Replace(s[1..], pat, rep), q);
  }

  /** `q` is nowhere in `[c] + t` when it is nowhere in `t` and does not start `[c] + t`. */
  lemma NowhereInAfterHead(c: char, t: string, q: string)
    requires NowhereIn(t, q) && !StartsWith([c] + t, q)
    ensures NowhereIn([c] + t, q)
  {
    var out := [c] + t;
    forall j | 0 <= j <= |out| ensures !StartsWith(out[j..], q) {
      if j > 0 {
        assert out[j..] == t[j - 1..];
      } else {
        assert out[0..] == out;
      }
    }
  }

  /** When the pattern does not start `s`, an occurrence of `q` at the start of the result was copied. */
  lemma TokenStartIsCopied(s: string, pat: string, rep: string, q: string, mark: char)
    requires |pat| > 0 && |rep| == |pat| && |q| == |pat| && rep[0] == mark
    requires MarkedToken(q, mark)
    requires |s| > 0 && !StartsWith(s, pat)
    ensures StartsWith(Replace(s, pat, rep), q) ==> StartsWith(s, q)
  {
    var tail := Replace(s[1..], pat, rep);
    assert Replace(s, pat, rep) == [s[0]] + tail;
    if |q| <= |s| && forall i :: 0 <= i < |q| - 1 ==> tail[i] != mark {
      ReplaceCopiesUnmarkedPrefix(s[1..], pat, rep, mark, |q| - 1);
    }
    CopiedPrefixStart(s, tail, q, mark);
  }

  /**
   * If `t` copies `s[1..]` on any mark-free stretch of length `|q| - 1`, then `q` can start
   * `[s[0]] + t` only by starting `s`.
   */
  lemma CopiedPrefixStart(s: string, t: string, q: string, mark: char)
    requires |s| > 0 && |t| == |s| - 1 && MarkedToken(q, mark)
    requires |q| <= |s| && (forall i :: 0 <= i < |q| - 1 ==> t[i] != mark) ==> t[..|q| - 1] == s[1..][..|q| - 1]
    ensures StartsWith([s[0]] + t, q) ==> StartsWith(s, q)
  {
    var out := [s[0]] + t;
    if StartsWith(out, q) {
      assert forall i :: 0 <= i < |q| - 1 ==> t[i] == out[i + 1] == q[i + 1];
      assert out[1..] == t;
      SamePrefixSameStart(s, out, q);
    }
  }

  /** Two strings agreeing on their first character and the next `|q| - 1` start `q` alike. */
  lemma SamePrefixSameStart(s: string, t: string, q: string)
    requires 1 <= |q| <= |s| == |t| && s[0] == t[0] && t[1..][..|q| - 1] == s[1..][..|q| - 1]
    ensures StartsWith(t, q) == StartsWith(s, q)
  {
    assert s[..|q|] == [s[0]] + s[1..][..|q| - 1];
    assert t[..|q|] == [t[0]] + t[1..][..|q| - 1];
  }

  /** Replacing one character by another is a character-wise substitution. */
  lemma {:induction false} ReplaceChar(s: string, a: char, b: char)
    ensures |Replace(s, [a], [b])| == |s|
    ensures forall i :: 0 <= i < |s| ==> Replace(s, [a], [b])[i] == if s[i] == a then b else s[i]
  {
    if |s| > 0 {
      ReplaceChar(s[1..], a, b);
    }
  }

  /** Python's `sep.join(xs)` for a one-character separator. */
  function Join(xs: seq<string>, sep: char): string
    decreases |xs|
  {
    if |xs| == 0 then ""
    else if |xs| == 1 then xs[0]
    else xs[0] + [sep] + Join(xs[1..], sep)
  }

  /** Python's `s.split(sep)` for a one-character separator; never empty. */
  function Split(s: string, sep: char): (parts: seq<string>)
    decreases |s|
    ensures |parts| >= 1
  {
    if |s| == 0 then [""]
    else
      var rest := Split(s[1..], sep);
      if s[0] == sep then [""] + rest
      else [[s[0]] + rest[0]] + rest[1..]
  }

  lemma {:induction false} SplitNoSep(s: string, sep: char)
    requires sep !in s
    ensures Split(s, sep) == [s]
  {
    if |s| > 0 {
      SplitNoSep(s[1..], sep);
      assert [s[0]] + s[1..] == s;
    }
  }

  lemma {:induction false} SplitCons(a: string, sep: char, rest: string)
    requires sep !in a
    ensures Split(a + [sep] + rest, sep) == [a] + Split(rest, sep)
  {
    if |a| == 0 {
      assert (a + [sep] + rest)[1..] == rest;
    } else {
      assert (a + [sep] + rest)[1..] == a[1..] + [sep] + rest;
      SplitCons(a[1..], sep, rest);
      assert [a[0]] + a[1..] == a;
    }
  }

  /** Text that ends in the separator splits apart from whatever follows it. */
  lemma {:induction false} SplitAfterSep(a: string, sep: char, b: string)
    requires |a| > 0 && a[|a| - 1] == sep
    ensures Split(a + b, sep) == Split(a[..|a| - 1], sep) + Split(b, sep)
    decreases |a|
  {
    if |a| == 1 {
      assert (a + b)[1..] == b;
      assert a[..0] == "";
    } else {
      var a' := a[1..];
      var t' := a'[..|a'| - 1];
      SplitAfterSep(a', sep, b);
      assert a + b == [a[0]] + (a' + b);
      assert a[..|a| - 1] == [a[0]] + t';
      SplitFirst(a[0], a' + b, sep);
      SplitFirst(a[0], t', sep);
      PrependCharAppend(a[0], sep, Split(t', sep), Split(b, sep));
    }
  }

  /** How `Split` treats the first character: it ends the first part or starts it. */
  function PrependChar(c: char, sep: char, parts: seq<string>): seq<string>
    requires |parts| >= 1
  {
    if c == sep then [""] + parts else [[c] + parts[0]] + parts[1..]
  }

  lemma SplitFirst(c: char, x: string, sep: char)
    ensures Split([c] + x, sep) == PrependChar(c, sep, Split(x, sep))
  {
    assert ([c] + x)[1..] == x;
  }

  lemma PrependCharAppend(c: char, sep: char, parts: seq<string>, more: seq<string>)
    requires |parts| >= 1
    ensures PrependChar(c, sep, parts + more) == PrependChar(c, sep, parts) + more
  {
    if c != sep {
      assert (parts + more)[1..] == parts[1..] + more;
    }
  }

  /** Splitting a join gives back the parts, as long as no part contains the separator. */
  lemma {:induction false} SplitJoin(xs: seq<string>, sep: char)
    requires |xs| >= 1
    requires forall i :: 0 <= i < |xs| ==> sep !in xs[i]
    ensures Split(Join(xs, sep), sep) == xs
  {
    if |xs| == 1 {
      SplitNoSep(xs[0], sep);
    } else {
      SplitCons(xs[0], sep, Join(xs[1..], sep));
      SplitJoin(xs[1..], sep);
    }
  }

  /** Joining is injective on separator-free parts: the joined text determines the parts. */
  lemma JoinInjective(xs: seq<string>, ys: seq<string>, sep: char)
    requires |xs| >= 1 && |ys| >= 1
    requires forall i :: 0 <= i < |xs| ==> sep !in xs[i]
    requires forall i :: 0 <= i < |ys| ==> sep !in ys[i]
    requires Join(xs, sep) == Join(ys, sep)
    ensures xs == ys
  {
    SplitJoin(xs, sep);
    SplitJoin(ys, sep);
  }

  /** Python's `str.isspace()` for one character (also what `\s` matches in a `str` regex). */
  predicate IsSpace(c: char) {
    var n := c as int;
    (9 <= n <= 13) || (28 <= n <= 32) || n == 0x85 || n == 0xA0 || n == 0x1680
    || (0x2000 <= n <= 0x200A) || n == 0x2028 || n == 0x2029 || n == 0x202F
    || n == 0x205F || n == 0x3000
  }

  function LStrip(s: string): (r: string)
    decreases |s|
    ensures |r| <= |s| && r == s[|s| - |r|..]
    ensures |r| > 0 ==> !IsSpace(r[0])
  {
    if |s| > 0 && IsSpace(s[0]) then LStrip(s[1..]) else s
  }

  function RStrip(s: string): (r: string)
    decreases |s|
    ensures |r| <= |s| && r == s[..|r|]
    ensures |r| > 0 ==> !IsSpace(r[|r| - 1])
  {
    if |s| > 0 && IsSpace(s[|s| - 1]) then RStrip(s[..|s| - 1]) else s
  }

  /** Python's `s.strip()`. */
  function Strip(s: string): string {
    RStrip(LStrip(s))
  }

  function UpperChar(c: char): char {
    if 'a' <= c <= 'z' then (c as int - 32) as char else c
  }

  function LowerChar(c: char): char {
    if 'A' <= c <= 'Z' then (c as int + 32) as char else c
  }

  /** Python's `s.upper()`, on ASCII letters. */
  function Upper(s: string): (r: string)
    ensures |r| == |s| && forall i :: 0 <= i < |s| ==> r[i] == UpperChar(s[i])
  {
    seq(|s|, i requires 0 <= i < |s| => UpperChar(s[i]))
  }

  /** Python's `s.lower()`, on ASCII letters. */
  function Lower(s: string): (r: string)
    ensures |r| == |s| && forall i :: 0 <= i < |s| ==> r[i] == LowerChar(s[i])
  {
    seq(|s|, i requires 0 <= i < |s| => LowerChar(s[i]))
  }

  /** Python's `s[:n]`. */
  function Take(s: string, n: nat): (r: string)
    ensures |r| == if n < |s| then n else |s|
    ensures StartsWith(s, r)
  {
    if n < |s| then s[..n] else s
  }

  function DigitChar(d: nat): char
    requires d < 10
  {
    ('0' as int + d) as char
  }

  /** Python's `str(n)` for a natural number. */
  function Decimal(n: nat): (r: string)
    decreases n
    ensures |r| >= 1
    ensures forall i :: 0 <= i < |r| ==> '0' <= r[i] <= '9'
    ensures n >= 10 ==> |r| >= 2
  {
    if n < 10 then [DigitChar(n)] else Decimal(n / 10) + [DigitChar(n % 10)]
  }

  /** `str(n) == '0'` exactly for zero. */
  lemma DecimalZero(n: nat)
    ensures Decimal(n) == "0" <==> n == 0
  {
  }
}
