/** The JavaScript string operations the core relies on: formatting a
    non-negative or negative integer in a template literal, `toLowerCase`,
    `startsWith`, `trim`, `split` on one character, `slice(k)` of an array and
    `join` with one character. */
module Text {

  /** The decimal digit character for `d`. */
  function DigitChar(d: nat): (c: char)
    requires d < 10
    ensures '0' <= c <= '9'
    ensures c as int - '0' as int == d
  {
    ('0' as int + d) as char
  }

  /** `${n}` for a non-negative integer: its decimal digits, no leading zeros. */
  function NatToString(n: nat): (r: string)
    ensures 1 <= |r|
    ensures forall k :: 0 <= k < |r| ==> '0' <= r[k] <= '9'
    ensures n < 10 <==> |r| == 1
  {
    if n < 10 then [DigitChar(n)] else NatToString(n / 10) + [DigitChar(n % 10)]
  }

  /** `${i}` for any integer: a minus sign before the digits of a negative one. */
  function IntToString(i: int): (r: string)
    ensures i < 0 <==> (r != [] && r[0] == '-')
    ensures i < 0 ==> r[1..] == NatToString(-i)
    ensures i >= 0 ==> r == NatToString(i)
  {
    if i < 0 then "-" + NatToString(-i) else NatToString(i)
  }

  /** The number a string of decimal digits denotes, most significant first. */
  function Value(s: string): int
  {
    if s == [] then 0 else Value(s[..|s| - 1]) * 10 + (s[|s| - 1] as int - '0' as int)
  }

  /** `NatToString` writes exactly the number it is given, with no leading zero. */
  lemma {:induction false} NatToStringValue(n: nat)
    ensures Value(NatToString(n)) == n
    ensures n >= 10 ==> NatToString(n)[0] != '0'
  {
    if n >= 10 {
      var s := NatToString(n);
      assert s[..|s| - 1] == NatToString(n / 10);
      NatToStringValue(n / 10);
      assert s[0] == NatToString(n / 10)[0];
    }
  }

  /** `IntToString` writes exactly the number it is given: the digits after a
      minus sign denote the magnitude of a negative number. */
  lemma IntToStringValue(i: int)
    ensures i < 0 ==> IntToString(i)[0] == '-' && Value(IntToString(i)[1..]) == -i
    ensures i >= 0 ==> Value(IntToString(i)) == i
  {
    if i < 0 { NatToStringValue(-i); } else { NatToStringValue(i); }
  }

  /** Distinct numbers are written differently. */
  lemma {:induction false} NatToStringInjective(a: nat, b: nat)
    requires NatToString(a) == NatToString(b)
    ensures a == b
  {
    var s := NatToString(a);
    if a < 10 || b < 10 {
      assert a < 10 && b < 10;
      assert s[0] == DigitChar(a) && s[0] == DigitChar(b);
    } else {
      assert NatToString(a / 10) == s[..|s| - 1] == NatToString(b / 10);
      NatToStringInjective(a / 10, b / 10);
      assert DigitChar(a % 10) == s[|s| - 1] == DigitChar(b % 10);
    }
  }

  /** `IntToString` agrees with `NatToString` exactly on the non-negative
      numbers: a negative number never prints as the digits of a natural one. */
  lemma IntToStringAsNat(i: int, n: nat)
    ensures IntToString(i) == NatToString(n) <==> i == n
  {
    if IntToString(i) == NatToString(n) && i >= 0 {
      NatToStringInjective(i, n);
    }
  }

  /** `toLowerCase` on one character, for the ASCII letters. */
  function LowerChar(c: char): char
  {
    if 'A' <= c <= 'Z' then (c as int + ('a' as int - 'A' as int)) as char else c
  }

  /** `s.toLowerCase()`, ASCII letters only. */
  function Lower(s: string): string
  {
    seq(|s|, k requires 0 <= k < |s| => LowerChar(s[k]))
  }

  /** `s.startsWith(p)`. */
  predicate StartsWith(s: string, p: string)
  {
    |p| <= |s| && s[..|p|] == p
  }

  /** The characters `trim` removes: ECMAScript WhiteSpace and LineTerminator. */
  predicate IsWhitespace(c: char)
  {
    c == '\t' || c == '\n' || c == '\U{B}' || c == '\U{C}' || c == '\r' || c == ' '
    || c == '\U{A0}' || c == '\U{1680}' || ('\U{2000}' <= c <= '\U{200A}')
    || c == '\U{2028}' || c == '\U{2029}' || c == '\U{202F}' || c == '\U{205F}'
    || c == '\U{3000}' || c == '\U{FEFF}'
  }

  /** `s.trimStart()`: the suffix left after dropping leading whitespace. */
  function TrimStart(s: string): string
  {
    if s != [] && IsWhitespace(s[0]) then TrimStart(s[1..]) else s
  }

  /** `s.trimEnd()`: the prefix left after dropping trailing whitespace. */
  function TrimEnd(s: string): string
  {
    if s != [] && IsWhitespace(s[|s| - 1]) then TrimEnd(s[..|s| - 1]) else s
  }

  /** `s.trim()`. */
  function Trim(s: string): string
  {
    TrimEnd(TrimStart(s))
  }

  /** `trimStart` removes a run of whitespace, and exactly that: what it keeps
      is a suffix that is empty or starts with a non-whitespace character. */
  lemma {:induction false} TrimStartDropsLeadingWhitespace(s: string)
    ensures var r := TrimStart(s);
      |r| <= |s| && r == s[|s| - |r|..]
      && (forall k :: 0 <= k < |s| - |r| ==> IsWhitespace(s[k]))
      && (r == [] || !IsWhitespace(r[0]))
  {
    if s != [] && IsWhitespace(s[0]) {
      var t := s[1..];
      TrimStartDropsLeadingWhitespace(t);
      var r := TrimStart(t);
      assert TrimStart(s) == r;
      assert t[|t| - |r|..] == s[|s| - |r|..];
      forall k | 0 <= k < |s| - |r|
        ensures IsWhitespace(s[k])
      {
        if k > 0 {
          assert s[k] == t[k - 1];
        }
      }
    }
  }

  /** `trimEnd` removes a run of trailing whitespace, and exactly that. */
  lemma {:induction false} TrimEndDropsTrailingWhitespace(s: string)
    ensures var r := TrimEnd(s);
      |r| <= |s| && r == s[..|r|]
      && (forall k :: |r| <= k < |s| ==> IsWhitespace(s[k]))
      && (r == [] || !IsWhitespace(r[|r| - 1]))
  {
    if s != [] && IsWhitespace(s[|s| - 1]) {
      var t := s[..|s| - 1];
      TrimEndDropsTrailingWhitespace(t);
      var r := TrimEnd(t);
      assert TrimEnd(s) == r;
      assert t[..|r|] == s[..|r|];
      forall k | |r| <= k < |s|
        ensures IsWhitespace(s[k])
      {
        if k < |s| - 1 {
          assert s[k] == t[k];
        }
      }
    }
  }

  /** `!s.trim()` holds exactly when every character of `s` is whitespace
      (the empty string included). */
  lemma TrimEmptyIff(s: string)
    ensures Trim(s) == [] <==> forall k :: 0 <= k < |s| ==> IsWhitespace(s[k])
  {
    TrimStartDropsLeadingWhitespace(s);
    TrimEndDropsTrailingWhitespace(TrimStart(s));
  }

  /** How many times `c` occurs in `s`. */
  function Count(s: string, c: char): nat
  {
    if s == [] then 0 else (if s[0] == c then 1 else 0) + Count(s[1..], c)
  }

  /** `s.split(c)` for a one-character separator: the pieces between the
      occurrences of `c`, one more than there are occurrences. */
  function Split(s: string, c: char): (r: seq<string>)
    ensures |r| == Count(s, c) + 1
    ensures forall k :: 0 <= k < |r| ==> c !in r[k]
  {
    if s == [] then [""]
    else if s[0] == c then [""] + Split(s[1..], c)
    else
      var t := Split(s[1..], c);
      [[s[0]] + t[0]] + t[1..]
  }

  /** `parts.join(c)` for a one-character separator. */
  function Join(parts: seq<string>, c: char): string
  {
    if parts == [] then ""
    else if |parts| == 1 then parts[0]
    else parts[0] + [c] + Join(parts[1..], c)
  }

  /** `xs.slice(k)` for a non-negative `k`: empty once `k` passes the end. */
  function SliceFrom<T>(xs: seq<T>, k: nat): (r: seq<T>)
    ensures |r| == (if k <= |xs| then |xs| - k else 0)
    ensures forall m :: 0 <= m < |r| ==> r[m] == xs[k + m]
  {
    if k <= |xs| then xs[k..] else []
  }

  /** The text of `s` after its `n`-th occurrence of `c`, or "" if `c` occurs
      fewer than `n` times. */
  function SuffixAfter(s: string, c: char, n: nat): string
  {
    if n == 0 then s
    else if s == [] then ""
    else if s[0] == c then SuffixAfter(s[1..], c, n - 1)
    else SuffixAfter(s[1..], c, n)
  }

  /** Splitting and joining on the same character gives the string back. */
  lemma {:induction false} JoinSplit(s: string, c: char)
    ensures Join(Split(s, c), c) == s
  {
    if s == [] {
    } else {
      var t := Split(s[1..], c);
      JoinSplit(s[1..], c);
      if s[0] == c {
        assert Split(s, c) == [""] + t;
        assert Join(Split(s, c), c) == "" + [c] + Join(t, c);
      } else {
        assert Split(s, c) == [[s[0]] + t[0]] + t[1..];
        if |t| == 1 {
          assert Join(t, c) == t[0];
        } else {
          assert Join(t, c) == t[0] + [c] + Join(t[1..], c);
          assert Join(Split(s, c), c) == [s[0]] + t[0] + [c] + Join(t[1..], c);
        }
      }
    }
  }

  /** `s.split(c).slice(k).join(c)` is the text after the `k`-th `c`. */
  lemma {:induction false} SplitSliceJoin(s: string, c: char, k: nat)
    ensures Join(SliceFrom(Split(s, c), k), c) == SuffixAfter(s, c, k)
  {
    if k == 0 {
      JoinSplit(s, c);
    } else if s == [] {
    } else {
      var t := Split(s[1..], c);
      if s[0] == c {
        assert Split(s, c) == [""] + t;
        assert SliceFrom(Split(s, c), k) == SliceFrom(t, k - 1);
        SplitSliceJoin(s[1..], c, k - 1);
      } else {
        var u := Split(s, c);
        assert u == [[s[0]] + t[0]] + t[1..];
        if k <= |t| {
          assert u[k..] == t[1..][k - 1..] == t[k..];
        }
        assert SliceFrom(u, k) == SliceFrom(t, k);
        SplitSliceJoin(s[1..], c, k);
      }
    }
  }

  /** Fewer than `n` occurrences of `c` leave nothing after the `n`-th. */
  lemma {:induction false} SuffixAfterTooFew(s: string, c: char, n: nat)
    requires Count(s, c) < n
    ensures SuffixAfter(s, c, n) == ""
  {
    if s != [] {
      if s[0] == c {
        SuffixAfterTooFew(s[1..], c, n - 1);
      } else {
        SuffixAfterTooFew(s[1..], c, n);
      }
    }
  }

  /** Skipping a stretch free of `c` and then one `c` uses up one occurrence. */
  lemma {:induction false} SuffixAfterPiece(a: string, c: char, rest: string, n: nat)
    requires c !in a
    ensures SuffixAfter(a + [c] + rest, c, n + 1) == SuffixAfter(rest, c, n)
  {
    if a == [] {
      assert (a + [c] + rest)[1..] == rest;
    } else {
      assert (a + [c] + rest)[1..] == a[1..] + [c] + rest;
      SuffixAfterPiece(a[1..], c, rest, n);
    }
  }
}
