/** The string operations of Python that the modelled code relies on:
    `str.replace`, `str.strip`, `str.split`, `int(...)`, `str(int)`,
    `lower`, `capitalize`, `in` and `"sep".join`. Characters are treated as
    ASCII: case mapping touches only 'A'..'Z' and 'a'..'z'. */
module Text {
  import opened Wrappers

  // ---------------------------------------------------------------------
  // str.replace

  /** `s.replace(pat, rep)`: every non-overlapping occurrence of `pat`,
      scanning from the left, is replaced by `rep`. As in Python, an empty
      `pat` inserts `rep` before every character and once at the end. */
  function ReplaceAll(s: string, pat: string, rep: string): string
    decreases |s|
  {
    if pat == [] then
      if s == [] then rep else rep + [s[0]] + ReplaceAll(s[1..], pat, rep)
    else if |pat| <= |s| && s[..|pat|] == pat then
      rep + ReplaceAll(s[|pat|..], pat, rep)
    else if s == [] then
      []
    else
      [s[0]] + ReplaceAll(s[1..], pat, rep)
  }

  /** Replacing one character by another one maps the string character by character. */
  lemma {:induction false} ReplaceCharAt(s: string, c: char, d: char)
    ensures |ReplaceAll(s, [c], [d])| == |s|
    ensures forall i :: 0 <= i < |s| ==>
      ReplaceAll(s, [c], [d])[i] == (if s[i] == c then d else s[i])
  {
    if s != [] {
      ReplaceCharAt(s[1..], c, d);
      var r := ReplaceAll(s, [c], [d]);
      var t := ReplaceAll(s[1..], [c], [d]);
      assert s[..1] == [s[0]];
      assert r == [if s[0] == c then d else s[0]] + t;
    }
  }

  /** After every `c` has been replaced by some other character, no `c` is left. */
  lemma ReplaceCharRemoves(s: string, c: char, d: char)
    requires c != d
    ensures c !in ReplaceAll(s, [c], [d])
  {
    ReplaceCharAt(s, c, d);
    var r := ReplaceAll(s, [c], [d]);
    forall i | 0 <= i < |r| ensures r[i] != c { }
  }

  /** Replacing a character does not create an occurrence of a third character. */
  lemma ReplaceCharKeepsAbsent(s: string, c: char, d: char, x: char)
    requires x !in s && x != d
    ensures x !in ReplaceAll(s, [c], [d])
  {
    ReplaceCharAt(s, c, d);
    var r := ReplaceAll(s, [c], [d]);
    forall i | 0 <= i < |r| ensures r[i] != x {
      assert s[i] != x;
    }
  }

  /** Removing a non-empty string from itself leaves nothing. */
  lemma ReplaceWholeIsEmpty(s: string)
    ensures ReplaceAll(s, s, "") == ""
  {
    if s != [] {
      assert s[..|s|] == s;
      assert s[|s|..] == [];
    }
  }

  /** A string without any occurrence of `pat`'s first character is left as it is. */
  lemma {:induction false} ReplaceAbsent(s: string, pat: string, rep: string)
    requires pat != [] && pat[0] !in s
    ensures ReplaceAll(s, pat, rep) == s
  {
    if s != [] {
      assert s[0] != pat[0];
      ReplaceAbsent(s[1..], pat, rep);
    }
  }

  /** Replacement distributes over a string that starts with the pattern. */
  lemma ReplacePrefix(pat: string, rest: string, rep: string)
    requires pat != []
    ensures ReplaceAll(pat + rest, pat, rep) == rep + ReplaceAll(rest, pat, rep)
  {
    var s := pat + rest;
    assert s[..|pat|] == pat;
    assert s[|pat|..] == rest;
  }

  /** A string in which the pattern does not occur is left as it is. */
  lemma {:induction false} ReplaceNoOccurrence(s: string, pat: string, rep: string)
    requires pat != [] && !IsSubstring(pat, s)
    ensures ReplaceAll(s, pat, rep) == s
  {
    if s != [] {
      assert !OccursAt(s, pat, 0);
      forall i | 0 <= i <= |s[1..]| ensures !OccursAt(s[1..], pat, i) {
        assert !OccursAt(s, pat, i + 1);
        if i + |pat| <= |s[1..]| {
          assert s[1..][i..i + |pat|] == s[i + 1..i + 1 + |pat|];
        }
      }
      ReplaceNoOccurrence(s[1..], pat, rep);
    }
  }

  // ---------------------------------------------------------------------
  // str.strip(c)

  /** The length of the leading run of `c` in `s`. */
  function LeadingRun(s: string, c: char): (n: nat)
    ensures n <= |s| && (n < |s| ==> s[n] != c)
    ensures forall k :: 0 <= k < n ==> s[k] == c
    decreases |s|
  {
    if s != [] && s[0] == c then
      var n := LeadingRun(s[1..], c);
      assert forall k :: 1 <= k < n + 1 ==> s[k] == s[1..][k - 1];
      n + 1
    else 0
  }

  /** Where `s` ends once its trailing run of `c` is cut off. */
  function KeptEnd(s: string, c: char): (n: nat)
    ensures n <= |s| && (n > 0 ==> s[n - 1] != c)
    ensures forall k :: n <= k < |s| ==> s[k] == c
    decreases |s|
  {
    if s != [] && s[|s| - 1] == c then
      var n := KeptEnd(s[..|s| - 1], c);
      assert forall k :: n <= k < |s| - 1 ==> s[k] == s[..|s| - 1][k];
      n
    else |s|
  }

  /** `s` without its leading run of `c`. */
  function StripLeading(s: string, c: char): (r: string)
    ensures r == [] || r[0] != c
  {
    s[LeadingRun(s, c)..]
  }

  /** `s` without its trailing run of `c`. */
  function StripTrailing(s: string, c: char): (r: string)
    ensures r == [] || r[|r| - 1] != c
  {
    s[..KeptEnd(s, c)]
  }

  /** `s.strip(c)`: `s` without its leading and trailing runs of `c`. The
      result is a contiguous piece of `s` that neither starts nor ends with `c`. */
  function Strip(s: string, c: char): (r: string)
    ensures r == [] || (r[0] != c && r[|r| - 1] != c)
    ensures exists i, j :: 0 <= i <= j <= |s| && r == s[i..j]
  {
    var i := LeadingRun(s, c);
    var l := s[i..];
    var j := KeptEnd(l, c);
    assert l[..j] == s[i..i + j];
    l[..j]
  }

  /** Stripping a string that neither starts nor ends with `c` changes
      nothing, and leading copies of `c` in front of it are removed. */
  lemma StripAround(s: string, c: char, n: nat)
    requires s != [] && s[0] != c && s[|s| - 1] != c
    ensures Strip(seq(n, _ => c) + s, c) == s
  {
    var t := seq(n, _ => c) + s;
    LeadingRunOf(s, c, n);
    assert t[n..] == s;
    assert KeptEnd(s, c) == |s|;
    assert s[..|s|] == s;
  }

  /** `n` copies of `c` in front of a string that does not start with `c`
      form the whole leading run. */
  lemma {:induction false} LeadingRunOf(s: string, c: char, n: nat)
    requires s != [] && s[0] != c
    ensures LeadingRun(seq(n, _ => c) + s, c) == n
  {
    if n > 0 {
      var t := seq(n, _ => c) + s;
      assert t[0] == c;
      assert t[1..] == seq(n - 1, _ => c) + s;
      LeadingRunOf(s, c, n - 1);
    } else {
      assert seq(n, _ => c) + s == s;
    }
  }

  // ---------------------------------------------------------------------
  // str.split(sep)

  /** `s.split(sep)` for a one-character separator: the pieces between the
      separators, so there is always one more piece than separators. */
  function Split(s: string, sep: char): (parts: seq<string>)
    ensures |parts| >= 1
    decreases |s|
  {
    if s == [] then
      [[]]
    else
      var rest := Split(s[1..], sep);
      if s[0] == sep then [[]] + rest else [[s[0]] + rest[0]] + rest[1..]
  }

  /** A string without the separator is one piece. */
  lemma {:induction false} SplitNoSep(s: string, sep: char)
    requires sep !in s
    ensures Split(s, sep) == [s]
  {
    if s != [] {
      SplitNoSep(s[1..], sep);
      assert [s[0]] + s[1..] == s;
    }
  }

  /** Splitting at a separator splits the two sides independently. */
  lemma {:induction false} SplitConcat(x: string, y: string, sep: char)
    ensures Split(x + [sep] + y, sep) == Split(x, sep) + Split(y, sep)
  {
    if x == [] {
      assert x + [sep] + y == [sep] + y;
      assert ([sep] + y)[1..] == y;
    } else {
      var s := x + [sep] + y;
      assert s[0] == x[0];
      assert s[1..] == x[1..] + [sep] + y;
      SplitConcat(x[1..], y, sep);
      var px, py := Split(x[1..], sep), Split(y, sep);
      if x[0] == sep {
        assert [[]] + (px + py) == ([[]] + px) + py;
      } else {
        ExtendFirstPiece([x[0]], px, py);
      }
    }
  }

  /** A string holding the separator splits into at least two pieces. */
  lemma {:induction false} SplitAtSeparator(s: string, sep: char)
    requires sep in s
    ensures |Split(s, sep)| >= 2
    decreases |s|
  {
    if s[0] != sep {
      assert sep in s[1..] by {
        var i :| 0 <= i < |s| && s[i] == sep;
        assert s[1..][i - 1] == sep;
      }
      SplitAtSeparator(s[1..], sep);
    }
  }

  /** `s[k..]` follows the last separator of `s`, or is all of `s` when
      there is none. */
  ghost predicate AfterLastSep(s: string, sep: char, k: int) {
    0 <= k <= |s| && sep !in s[k..] && ((k == 0 && sep !in s) || (k > 0 && s[k - 1] == sep))
  }

  /** The last piece of a split is the suffix after the last separator:
      the whole string when there is no separator. */
  lemma {:induction false} LastPieceIsSuffix(s: string, sep: char) returns (k: int)
    ensures AfterLastSep(s, sep, k) && Split(s, sep)[|Split(s, sep)| - 1] == s[k..]
    decreases |s|
  {
    if s == [] {
      k := 0;
      assert Split(s, sep)[0] == s[0..];
    } else if sep !in s[1..] {
      SplitNoSep(s[1..], sep);
      if s[0] == sep {
        k := 1;
        assert Split(s, sep)[1] == s[1..];
      } else {
        assert sep !in s by {
          forall i | 0 <= i < |s| ensures s[i] != sep {
            if i > 0 { assert s[i] == s[1..][i - 1]; }
          }
        }
        SplitNoSep(s, sep);
        k := 0;
        assert s[0..] == s;
      }
    } else {
      var j := LastPieceIsSuffix(s[1..], sep);
      SplitAtSeparator(s[1..], sep);
      assert j > 0;
      k := j + 1;
      assert s[1..][j..] == s[k..];
      assert s[k - 1] == s[1..][j - 1];
      var rest := Split(s[1..], sep);
      assert Split(s, sep)[|Split(s, sep)| - 1] == rest[|rest| - 1];
    }
  }

  /** Prefixing the first piece of a concatenation of piece lists. */
  lemma ExtendFirstPiece<T>(h: seq<T>, p: seq<seq<T>>, q: seq<seq<T>>)
    requires |p| >= 1
    ensures [h + (p + q)[0]] + (p + q)[1..] == ([h + p[0]] + p[1..]) + q
  {
    assert (p + q)[0] == p[0];
    assert (p + q)[1..] == p[1..] + q;
  }

  // ---------------------------------------------------------------------
  // Decimal numbers: str(n) and int(s)

  predicate IsDigit(c: char) {
    '0' <= c <= '9'
  }

  predicate AllDigits(s: string) {
    forall i :: 0 <= i < |s| ==> IsDigit(s[i])
  }

  function DigitChar(d: nat): char
    requires d < 10
  {
    ('0' as int + d) as char
  }

  /** The value of a string of decimal digits, most significant first. */
  function DigitsValue(s: string): nat
    requires AllDigits(s)
  {
    if s == [] then 0
    else DigitsValue(s[..|s| - 1]) * 10 + (s[|s| - 1] as int - '0' as int)
  }

  /** `str(n)` for a natural number: its decimal digits, without leading zeros. */
  function NatToString(n: nat): (r: string)
    ensures |r| >= 1 && AllDigits(r)
  {
    if n < 10 then [DigitChar(n)] else NatToString(n / 10) + [DigitChar(n % 10)]
  }

  /** `str(i)` for an integer: a minus sign before the digits of a negative value. */
  function IntToString(i: int): (r: string)
    ensures |r| >= 1 && '/' !in r && '-' !in r[1..]
  {
    NatToStringNoSlash(if i < 0 then -i else i);
    if i < 0 then "-" + NatToString(-i) else NatToString(i)
  }

  lemma NatToStringNoSlash(n: nat)
    ensures '/' !in NatToString(n) && '-' !in NatToString(n)
  {
    var s := NatToString(n);
    forall k | 0 <= k < |s| ensures s[k] != '/' && s[k] != '-' {
      assert IsDigit(s[k]);
    }
  }

  /** `int(s)`: an optional sign followed by at least one decimal digit, or
      None where Python raises ValueError. */
  function ParseInt(s: string): (r: Option<int>)
    ensures r.Some? ==> |s| >= 1
  {
    if |s| >= 2 && (s[0] == '-' || s[0] == '+') && AllDigits(s[1..]) then
      var v: int := DigitsValue(s[1..]);
      Some(if s[0] == '-' then -v else v)
    else if |s| >= 1 && AllDigits(s) then
      Some(DigitsValue(s))
    else
      None
  }

  lemma {:induction false} DigitsOfNat(n: nat)
    ensures DigitsValue(NatToString(n)) == n
  {
    var s := NatToString(n);
    if n >= 10 {
      DigitsOfNat(n / 10);
      assert s[..|s| - 1] == NatToString(n / 10);
    }
  }

  /** Reading back what `str` printed gives the number back. */
  lemma ParseIntToString(i: int)
    ensures ParseInt(IntToString(i)) == Some(i)
  {
    var n: nat := if i < 0 then -i else i;
    var s := NatToString(n);
    DigitsOfNat(n);
    assert IntToString(i) == if i < 0 then "-" + s else s;
    if i < 0 {
      ParseSignedDigits(s);
    } else {
      ParseDigits(s);
    }
  }

  /** A string of digits reads as its value. */
  lemma ParseDigits(s: string)
    requires |s| >= 1 && AllDigits(s)
    ensures ParseInt(s) == Some(DigitsValue(s))
  {
    assert IsDigit(s[0]);
  }

  /** A minus sign before a string of digits reads as minus its value. */
  lemma ParseSignedDigits(s: string)
    requires |s| >= 1 && AllDigits(s)
    ensures ParseInt("-" + s) == Some(-(DigitsValue(s) as int))
  {
    assert ("-" + s)[0] == '-' && ("-" + s)[1..] == s;
  }

  // ---------------------------------------------------------------------
  // Case

  function LowerChar(c: char): char {
    if 'A' <= c <= 'Z' then (c as int + 32) as char else c
  }

  function UpperChar(c: char): char {
    if 'a' <= c <= 'z' then (c as int - 32) as char else c
  }

  /** `s.lower()` */
  function Lower(s: string): (r: string)
    ensures |r| == |s|
    ensures forall i :: 0 <= i < |s| ==> r[i] == LowerChar(s[i])
  {
    seq(|s|, i requires 0 <= i < |s| => LowerChar(s[i]))
  }

  /** `s.capitalize()`: the first character upper-cased, the rest lower-cased. */
  function Capitalize(s: string): (r: string)
    ensures |r| == |s|
    ensures s != [] ==> r[0] == UpperChar(s[0]) && r[1..] == Lower(s[1..])
  {
    if s == [] then [] else [UpperChar(s[0])] + Lower(s[1..])
  }

  // ---------------------------------------------------------------------
  // Substrings and joining

  /** `t` occurs in `s` at position `i`. */
  predicate OccursAt(s: string, t: string, i: int) {
    0 <= i && i + |t| <= |s| && s[i..i + |t|] == t
  }

  /** A string longer than `s` does not occur in `s`. */
  lemma LongerNotSubstring(t: string, s: string)
    requires |t| > |s|
    ensures !IsSubstring(t, s)
  {
  }

  /** Python's `t in s` for strings. */
  predicate IsSubstring(t: string, s: string) {
    exists i :: 0 <= i <= |s| && OccursAt(s, t, i)
  }

  /** `sep.join(parts)` */
  function Join(parts: seq<string>, sep: string): string {
    if parts == [] then []
    else if |parts| == 1 then parts[0]
    else parts[0] + sep + Join(parts[1..], sep)
  }
}
