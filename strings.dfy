/** String rules the app relies on: JavaScript's `toLowerCase` (restricted to
    ASCII), `startsWith`, `includes`, `split`/`join` on a one-character
    separator and `Number.prototype.toString` for a non-negative integer. */
module Strings {

  function LowerChar(c: char): char {
    if 'A' <= c <= 'Z' then (c as int + 32) as char else c
  }

  function UpperChar(c: char): char {
    if 'a' <= c <= 'z' then (c as int - 32) as char else c
  }

  /** `s.toLowerCase()` on the ASCII letters; every other character is kept. */
  function ToLower(s: string): (r: string)
    ensures |r| == |s|
    ensures forall i :: 0 <= i < |s| ==> r[i] == LowerChar(s[i])
  {
    seq(|s|, i requires 0 <= i < |s| => LowerChar(s[i]))
  }

  /** `s.toUpperCase()` on the ASCII letters. */
  function ToUpper(s: string): (r: string)
    ensures |r| == |s|
    ensures forall i :: 0 <= i < |s| ==> r[i] == UpperChar(s[i])
  {
    seq(|s|, i requires 0 <= i < |s| => UpperChar(s[i]))
  }

  /** Lower-casing forgets the case a string was written in. */
  lemma LowerIgnoresCase(s: string)
    ensures ToLower(ToUpper(s)) == ToLower(s)
    ensures ToLower(ToLower(s)) == ToLower(s)
  {
  }

  /** `s.startsWith(p)`: `s` is `p` followed by something. */
  function StartsWith(s: string, p: string): (r: bool)
    ensures r <==> exists t :: s == p + t
  {
    if |p| <= |s| && s[..|p|] == p then
      assert s == p + s[|p|..];
      true
    else
      assert forall t :: s != p + t;
      false
  }

  ghost predicate OccursAt(s: string, sub: string, i: int) {
    0 <= i && i + |sub| <= |s| && s[i..i + |sub|] == sub
  }

  /** `s.includes(sub)`: some position of `s` starts a copy of `sub`. */
  function Includes(s: string, sub: string): (r: bool)
    ensures r <==> exists i :: OccursAt(s, sub, i)
    decreases |s|
  {
    if StartsWith(s, sub) then
      assert OccursAt(s, sub, 0);
      true
    else if |s| == 0 then
      assert forall i :: !OccursAt(s, sub, i);
      false
    else
      var r := Includes(s[1..], sub);
      assert forall i :: OccursAt(s[1..], sub, i) <==> OccursAt(s, sub, i + 1) by {
        forall i ensures OccursAt(s[1..], sub, i) <==> OccursAt(s, sub, i + 1) {
          if 0 <= i && i + |sub| <= |s[1..]| {
            assert s[1..][i..i + |sub|] == s[i + 1..i + 1 + |sub|];
          }
        }
      }
      assert !OccursAt(s, sub, 0);
      assert r ==> OccursAt(s, sub, (var j :| OccursAt(s[1..], sub, j); j) + 1);
      assert (exists i :: OccursAt(s, sub, i)) ==> r by {
        if exists i :: OccursAt(s, sub, i) {
          var i :| OccursAt(s, sub, i);
          assert i != 0;
          assert OccursAt(s[1..], sub, i - 1);
        }
      }
      r
  }

  /** `s.split(sep)` for a one-character separator: the maximal runs of `s`
      between separators, always at least one (`"".split(sep)` is `[""]`). */
  function Split(s: string, sep: char): (parts: seq<string>)
    ensures |parts| >= 1
    ensures forall i :: 0 <= i < |parts| ==> sep !in parts[i]
    decreases |s|
  {
    if |s| == 0 then [""]
    else
      var rest := Split(s[1..], sep);
      if s[0] == sep then [""] + rest
      else [[s[0]] + rest[0]] + rest[1..]
  }

  /** No part contains the separator. */
  predicate SeparatorFree(parts: seq<string>, sep: char) {
    forall i :: 0 <= i < |parts| ==> sep !in parts[i]
  }

  /** `parts.join(sep)`: the join of no parts is the empty string, of one
      part that part. */
  function Join(parts: seq<string>, sep: char): (r: string)
    ensures |parts| == 0 ==> r == ""
    ensures |parts| == 1 ==> r == parts[0]
    decreases |parts|
  {
    if |parts| == 0 then ""
    else if |parts| == 1 then parts[0]
    else parts[0] + [sep] + Join(parts[1..], sep)
  }

  /** Joining separator-free parts puts exactly one separator between
      neighbours. */
  lemma {:induction false} JoinCountsSeparators(parts: seq<string>, sep: char)
    requires |parts| >= 1 && SeparatorFree(parts, sep)
    ensures multiset(Join(parts, sep))[sep] == |parts| - 1
    decreases |parts|
  {
    assert sep !in parts[0];
    assert multiset(parts[0])[sep] == 0;
    if |parts| > 1 {
      var rest := Join(parts[1..], sep);
      assert SeparatorFree(parts[1..], sep) by {
        forall i | 0 <= i < |parts[1..]| ensures sep !in parts[1..][i] {
          assert parts[1..][i] == parts[i + 1];
        }
      }
      JoinCountsSeparators(parts[1..], sep);
      assert multiset(parts[0] + [sep] + rest) == multiset(parts[0]) + multiset{sep} + multiset(rest);
    }
  }

  /** The last element of a non-empty sequence, as `Array.prototype.pop` returns it. */
  function Last<T>(s: seq<T>): (r: T)
    requires |s| > 0
    ensures r in s
    ensures |s| == 1 ==> r == s[0]
  {
    s[|s| - 1]
  }

  /** A string free of the separator splits into itself. */
  lemma {:induction false} SplitWithoutSeparator(s: string, sep: char)
    requires sep !in s
    ensures Split(s, sep) == [s]
    decreases |s|
  {
    if |s| > 0 {
      assert sep !in s[1..];
      SplitWithoutSeparator(s[1..], sep);
      assert [s[0]] + s[1..] == s;
    }
  }

  /** Splitting across one separator splits the two sides independently. */
  lemma {:induction false} SplitAcross(a: string, sep: char, b: string)
    ensures Split(a + [sep] + b, sep) == Split(a, sep) + Split(b, sep)
    decreases |a|
  {
    var s := a + [sep] + b;
    if |a| == 0 {
      assert s[0] == sep && s[1..] == b;
    } else {
      assert s[0] == a[0] && s[1..] == a[1..] + [sep] + b;
      SplitAcross(a[1..], sep, b);
    }
  }

  /** Joining the parts of a split gives back the original string. */
  lemma {:induction false} JoinSplit(s: string, sep: char)
    ensures Join(Split(s, sep), sep) == s
    decreases |s|
  {
    if |s| > 0 {
      var rest := Split(s[1..], sep);
      JoinSplit(s[1..], sep);
      if s[0] == sep {
        assert Split(s, sep)[1..] == rest;
        assert s == [sep] + s[1..];
      } else if |rest| == 1 {
        assert s == [s[0]] + s[1..];
      } else {
        var parts := Split(s, sep);
        assert parts[0] == [s[0]] + rest[0];
        assert parts[1..] == rest[1..];
        assert s == [s[0]] + s[1..];
      }
    }
  }

  /** Splitting a join of separator-free parts gives back the parts. */
  lemma {:induction false} SplitJoin(parts: seq<string>, sep: char)
    requires |parts| >= 1
    requires forall i :: 0 <= i < |parts| ==> sep !in parts[i]
    ensures Split(Join(parts, sep), sep) == parts
    decreases |parts|
  {
    if |parts| == 1 {
      SplitWithoutSeparator(parts[0], sep);
    } else {
      SplitJoin(parts[1..], sep);
      SplitAcross(parts[0], sep, Join(parts[1..], sep));
      SplitWithoutSeparator(parts[0], sep);
      assert [parts[0]] + parts[1..] == parts;
    }
  }

  /** The last part of a split is the suffix of `s` after its last separator,
      or the whole of `s` when there is none. */
  lemma {:induction false} LastPartIsSuffix(s: string, sep: char)
    ensures var l := Last(Split(s, sep));
      && |l| <= |s| && s[|s| - |l|..] == l
      && (|l| < |s| ==> s[|s| - |l| - 1] == sep)
      && (|Split(s, sep)| == 1 ==> l == s)
      && (|Split(s, sep)| > 1 ==> |l| < |s|)
    decreases |s|
  {
    if |s| > 0 {
      LastPartIsSuffix(s[1..], sep);
      var rest := Split(s[1..], sep);
      var l := Last(rest);
      assert s == [s[0]] + s[1..];
      if s[0] == sep {
        assert Last(Split(s, sep)) == l;
        assert s[|s| - |l|..] == s[1..][|s[1..]| - |l|..];
      } else if |rest| == 1 {
        assert Last(Split(s, sep)) == [s[0]] + l;
      } else {
        assert Last(Split(s, sep)) == l;
        assert s[|s| - |l|..] == s[1..][|s[1..]| - |l|..];
      }
    }
  }

  function DigitChar(d: nat): char
    requires d < 10
  {
    ('0' as int + d) as char
  }

  predicate IsDigit(c: char) {
    '0' <= c <= '9'
  }

  /** The number a string of decimal digits denotes, most significant first. */
  function DigitsValue(s: string): int
    decreases |s|
  {
    if |s| == 0 then 0
    else DigitsValue(s[..|s| - 1]) * 10 + (s[|s| - 1] as int - '0' as int)
  }

  /** `n.toString()` for a non-negative integer: the decimal digits that
      denote `n`, with no sign, no leading zero except for 0 itself, and
      nothing else. */
  function NatToString(n: nat): (r: string)
    ensures |r| >= 1
    ensures forall i :: 0 <= i < |r| ==> IsDigit(r[i])
    ensures (r[0] == '0') <==> (n == 0)
    ensures DigitsValue(r) == n
    decreases n
  {
    if n < 10 then
      assert [DigitChar(n)][..0] == [];
      [DigitChar(n)]
    else
      var r := NatToString(n / 10) + [DigitChar(n % 10)];
      assert r[..|r| - 1] == NatToString(n / 10);
      r
  }

  /** Different numbers have different renderings. */
  lemma NatToStringInjective(a: nat, b: nat)
    ensures NatToString(a) == NatToString(b) <==> a == b
  {
  }
}
