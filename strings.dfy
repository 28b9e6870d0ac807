/**
 * The Python string operations the modelled code relies on, for one-character
 * separators: `split`, `join`, `rsplit(c, 1)`, `replace`, `endswith`, the
 * substring test `pat in s`, `isnumeric` and `str(n)`.
 */
module Strings {

  /** Python's `s.split(c)`: the pieces between the separators, empty pieces included. */
  function Split(s: string, c: char): (parts: seq<string>)
    ensures |parts| > 0
    decreases |s|
  {
    if |s| == 0 then [""]
    else
      var rest := Split(s[1..], c);
      if s[0] == c then [""] + rest
      else [[s[0]] + rest[0]] + rest[1..]
  }

  /** Python's `c.join(parts)`. */
  function Join(parts: seq<string>, c: char): string
  {
    if |parts| == 0 then ""
    else if |parts| == 1 then parts[0]
    else parts[0] + [c] + Join(parts[1..], c)
  }

  /** Joining brings in no character but the separator and those of the pieces. */
  lemma {:induction false} JoinChars(parts: seq<string>, c: char)
    ensures forall x :: x in Join(parts, c) && x != c ==> exists i :: 0 <= i < |parts| && x in parts[i]
    decreases |parts|
  {
    if |parts| > 1 {
      JoinChars(parts[1..], c);
      forall x | x in Join(parts, c) && x != c
        ensures exists i :: 0 <= i < |parts| && x in parts[i]
      {
        if x !in parts[0] {
          assert x in Join(parts[1..], c);
          var i :| 0 <= i < |parts[1..]| && x in parts[1..][i];
          assert x in parts[i + 1];
        }
      }
    } else if |parts| == 1 {
      assert Join(parts, c) == parts[0];
    }
  }

  function Last<T>(xs: seq<T>): T
    requires |xs| > 0
  {
    xs[|xs| - 1]
  }

  /** Python's `s.split(c)[-1]`. */
  function LastSegment(s: string, c: char): string
  {
    Last(Split(s, c))
  }

  /** Every character of a piece comes from the split text. */
  lemma {:induction false} SplitPartsChars(s: string, c: char)
    ensures forall i, x :: 0 <= i < |Split(s, c)| && x in Split(s, c)[i] ==> x in s
    decreases |s|
  {
    if |s| > 0 {
      var rest := Split(s[1..], c);
      SplitPartsChars(s[1..], c);
      assert s == [s[0]] + s[1..];
      forall i, x | 0 <= i < |Split(s, c)| && x in Split(s, c)[i]
        ensures x in s
      {
        if s[0] == c {
          assert Split(s, c)[i] == ([""] + rest)[i];
          if i > 0 {
            assert x in rest[i - 1];
          }
        } else if i == 0 {
          assert Split(s, c)[0] == [s[0]] + rest[0];
          if x != s[0] {
            assert x in rest[0];
          }
        } else {
          assert Split(s, c)[i] == rest[i];
        }
      }
    }
  }

  /** Joining the pieces of a split gives the original text back. */
  lemma {:induction false} JoinSplit(s: string, c: char)
    ensures Join(Split(s, c), c) == s
    decreases |s|
  {
    if |s| > 0 {
      var s' := s[1..];
      JoinSplit(s', c);
      var rest := Split(s', c);
      assert s == [s[0]] + s';
      if s[0] == c {
        assert Split(s, c) == [""] + rest;
        assert ([""] + rest)[1..] == rest;
        assert Join([""] + rest, c) == "" + [c] + Join(rest, c);
      } else if |rest| == 1 {
        assert Split(s, c) == [[s[0]] + rest[0]];
      } else {
        var first := [s[0]] + rest[0];
        assert Split(s, c) == [first] + rest[1..];
        assert ([first] + rest[1..])[1..] == rest[1..];
        assert Join([first] + rest[1..], c) == first + [c] + Join(rest[1..], c);
        assert Join(rest, c) == rest[0] + [c] + Join(rest[1..], c);
      }
    }
  }

  /** No piece of a split contains the separator. */
  lemma {:induction false} SplitPartsFree(s: string, c: char)
    ensures forall i :: 0 <= i < |Split(s, c)| ==> c !in Split(s, c)[i]
    decreases |s|
  {
    if |s| > 0 {
      SplitPartsFree(s[1..], c);
      var rest := Split(s[1..], c);
      if s[0] != c {
        assert c !in [s[0]] + rest[0];
      }
    }
  }

  /** Splitting text that starts with a separator-free piece `p`. */
  lemma {:induction false} SplitFreePrefix(p: string, t: string, c: char)
    requires c !in p
    ensures Split(p + t, c) == [p + Split(t, c)[0]] + Split(t, c)[1..]
    decreases |p|
  {
    var tt := Split(t, c);
    if |p| == 0 {
      assert p + t == t;
      assert p + tt[0] == tt[0];
      assert [tt[0]] + tt[1..] == tt;
    } else {
      var s := p + t;
      var p' := p[1..];
      SplitFreePrefix(p', t, c);
      assert s[0] == p[0] && p[0] != c by { assert p[0] in p; }
      assert s[1..] == p' + t;
      var rest := Split(p' + t, c);
      assert Split(s, c) == [[p[0]] + rest[0]] + rest[1..];
      assert [p[0]] + (p' + tt[0]) == p + tt[0] by { assert p == [p[0]] + p'; }
    }
  }

  /** A separator-free text splits into itself alone. */
  lemma SplitWhole(s: string, c: char)
    requires c !in s
    ensures Split(s, c) == [s]
  {
    SplitFreePrefix(s, "", c);
    assert s + "" == s;
  }

  /** Splitting text that starts with the separator. */
  lemma SplitSeparatorFirst(t: string, c: char)
    ensures Split([c] + t, c) == [""] + Split(t, c)
  {
    assert ([c] + t)[1..] == t;
  }

  /** A separator followed by a separator-free piece `t` adds `t` as the last piece. */
  lemma {:induction false} SplitAppendPiece(x: string, t: string, c: char)
    requires c !in t
    ensures Split(x + [c] + t, c) == Split(x, c) + [t]
    decreases |x|
  {
    if |x| == 0 {
      assert x + [c] + t == [c] + t;
      SplitSeparatorFirst(t, c);
      SplitWhole(t, c);
    } else {
      SplitAppendPiece(x[1..], t, c);
      var s := x + [c] + t;
      assert s[0] == x[0] && s[1..] == x[1..] + [c] + t;
      var xs := Split(x[1..], c);
      var rest := Split(x[1..] + [c] + t, c);
      assert rest == xs + [t];
      if x[0] != c {
        assert rest[0] == xs[0];
        assert rest[1..] == xs[1..] + [t];
      }
    }
  }

  /** Splitting is the inverse of joining separator-free pieces. */
  lemma {:induction false} SplitJoin(parts: seq<string>, c: char)
    requires |parts| > 0
    requires forall i :: 0 <= i < |parts| ==> c !in parts[i]
    ensures Split(Join(parts, c), c) == parts
    decreases |parts|
  {
    if |parts| == 1 {
      SplitWhole(parts[0], c);
    } else {
      var tail := Join(parts[1..], c);
      SplitJoin(parts[1..], c);
      SplitSeparatorFirst(tail, c);
      assert parts[0] + [c] + tail == parts[0] + ([c] + tail);
      SplitFreePrefix(parts[0], [c] + tail, c);
      var after := [""] + parts[1..];
      assert Split([c] + tail, c) == after;
      assert after[0] == "" && after[1..] == parts[1..];
      assert parts[0] + "" == parts[0];
      assert parts == [parts[0]] + parts[1..];
    }
  }

  /** Without a separator the last piece is the whole text. */
  lemma LastSegmentWhole(s: string, c: char)
    requires c !in s
    ensures LastSegment(s, c) == s
  {
    SplitWhole(s, c);
  }

  /** The last piece is the text after the last separator. */
  lemma LastSegmentAfter(u: string, t: string, c: char)
    requires c !in t
    ensures LastSegment(u + [c] + t, c) == t
  {
    SplitAppendPiece(u, t, c);
  }

  /** The last piece never contains the separator. */
  lemma LastSegmentFree(s: string, c: char)
    ensures c !in LastSegment(s, c)
  {
    SplitPartsFree(s, c);
  }

  /**
   * The text before the last separator, for text that has one: the separator
   * sits right after it and does not occur again.
   */
  function BeforeLastSeparator(s: string, c: char): (r: string)
    requires c in s
    ensures |r| < |s| && r == s[..|r|]
    ensures s[|r|] == c && c !in s[|r| + 1..]
    decreases |s|
  {
    if s[|s| - 1] == c then s[..|s| - 1]
    else
      assert c in s[..|s| - 1] by {
        var i :| 0 <= i < |s| && s[i] == c;
        assert s[..|s| - 1][i] == c;
      }
      var r := BeforeLastSeparator(s[..|s| - 1], c);
      assert s[|r| + 1..] == s[..|s| - 1][|r| + 1..] + [s[|s| - 1]];
      r
  }

  /** Python's `s.rsplit(c, 1)[0]`: the text before the last separator, or all of it. */
  function RSplitHead(s: string, c: char): string
  {
    if c in s then BeforeLastSeparator(s, c) else s
  }

  /** `rsplit(c, 1)[0]` drops exactly the separator and the last piece. */
  lemma {:induction false} RSplitHeadAfter(u: string, t: string, c: char)
    requires c !in t
    ensures RSplitHead(u + [c] + t, c) == u
    decreases |t|
  {
    var s := u + [c] + t;
    assert s[|u|] == c;
    if |t| == 0 {
      assert s[..|s| - 1] == u;
    } else {
      assert t[|t| - 1] in t;
      assert s[..|s| - 1] == u + [c] + t[..|t| - 1];
      assert t[..|t| - 1] <= t;
      RSplitHeadAfter(u, t[..|t| - 1], c);
    }
  }

  /** The head and the last piece of a split put back together give the text. */
  lemma RSplitRoundTrip(s: string, c: char)
    requires c in s
    ensures RSplitHead(s, c) + [c] + LastSegment(s, c) == s
  {
    var r := BeforeLastSeparator(s, c);
    var t := s[|r| + 1..];
    assert s == r + [c] + t;
    LastSegmentAfter(r, t, c);
  }

  /** Python's `s.endswith(suffix)`. */
  predicate EndsWith(s: string, suffix: string)
  {
    |suffix| <= |s| && s[|s| - |suffix|..] == suffix
  }

  /** Python's substring test `pat in s`. */
  predicate Contains(s: string, pat: string)
    decreases |s|
  {
    if |pat| > |s| then false
    else if s[..|pat|] == pat then true
    else |s| > 0 && Contains(s[1..], pat)
  }

  /** `pat` occurs in `s` starting at position `i`. */
  predicate OccursAt(s: string, pat: string, i: int)
  {
    0 <= i && i + |pat| <= |s| && s[i..i + |pat|] == pat
  }

  /** `pat in s` holds exactly when `pat` occurs at some position of `s`. */
  lemma {:induction false} ContainsIff(s: string, pat: string)
    ensures Contains(s, pat) <==> exists i :: OccursAt(s, pat, i)
    decreases |s|
  {
    if |pat| <= |s| && s[..|pat|] == pat {
      assert OccursAt(s, pat, 0);
    } else if |pat| <= |s| && |s| > 0 {
      ContainsIff(s[1..], pat);
      assert !OccursAt(s, pat, 0) by { assert s[0..|pat|] == s[..|pat|]; }
      forall i | 1 <= i && OccursAt(s, pat, i) ensures OccursAt(s[1..], pat, i - 1) {
        assert s[1..][i - 1..i - 1 + |pat|] == s[i..i + |pat|];
      }
      forall i | OccursAt(s[1..], pat, i) ensures OccursAt(s, pat, i + 1) {
        assert s[1..][i..i + |pat|] == s[i + 1..i + 1 + |pat|];
      }
    }
  }

  /** Every character of a substring occurs in the text. */
  lemma ContainsChars(s: string, pat: string)
    requires Contains(s, pat)
    ensures forall x :: x in pat ==> x in s
  {
    ContainsIff(s, pat);
    var i :| OccursAt(s, pat, i);
    forall x | x in pat ensures x in s {
      var m :| 0 <= m < |pat| && pat[m] == x;
      assert s[i..i + |pat|][m] == s[i + m];
    }
  }

  /** Python's `replace(pat, rep)`: every non-overlapping occurrence, scanning left to right. */
  function ReplaceAll(s: string, pat: string, rep: string): string
    requires |pat| > 0
    decreases |s|
  {
    if |s| < |pat| then s
    else if s[..|pat|] == pat then rep + ReplaceAll(s[|pat|..], pat, rep)
    else [s[0]] + ReplaceAll(s[1..], pat, rep)
  }

  /** A replacement only brings in characters of the text or of the replacement. */
  lemma {:induction false} ReplaceAllChars(s: string, pat: string, rep: string)
    requires |pat| > 0
    ensures forall x :: x in ReplaceAll(s, pat, rep) ==> x in s || x in rep
    decreases |s|
  {
    if |s| >= |pat| {
      if s[..|pat|] == pat {
        ReplaceAllChars(s[|pat|..], pat, rep);
      } else {
        ReplaceAllChars(s[1..], pat, rep);
      }
    }
  }

  /** Text whose characters never start the pattern is left as it is. */
  lemma {:induction false} ReplaceAllAbsent(s: string, pat: string, rep: string)
    requires |pat| > 0 && pat[0] !in s
    ensures ReplaceAll(s, pat, rep) == s
    decreases |s|
  {
    if |s| >= |pat| {
      assert s[..|pat|] != pat by { assert s[..|pat|][0] == s[0]; }
      ReplaceAllAbsent(s[1..], pat, rep);
      assert s == [s[0]] + s[1..];
    }
  }

  /** Replacing a single character: the text up to its first occurrence is kept, that occurrence replaced. */
  lemma {:induction false} ReplaceCharAt(u: string, x: char, t: string, rep: string)
    requires x !in u
    ensures ReplaceAll(u + [x] + t, [x], rep) == u + rep + ReplaceAll(t, [x], rep)
    decreases |u|
  {
    var s := u + [x] + t;
    if |u| == 0 {
      assert s[..1] == [x] && s[1..] == t;
    } else {
      assert s[..1] == [u[0]];
      assert s[1..] == u[1..] + [x] + t;
      ReplaceCharAt(u[1..], x, t, rep);
      assert u == [u[0]] + u[1..];
    }
  }

  /** Replacing a single character by text without it removes every occurrence. */
  lemma {:induction false} ReplaceAllRemoves(s: string, x: char, rep: string)
    requires x !in rep
    ensures x !in ReplaceAll(s, [x], rep)
    decreases |s|
  {
    if |s| >= 1 {
      if s[..1] == [x] {
        ReplaceAllRemoves(s[1..], x, rep);
      } else {
        assert s[0] != x by { assert s[..1] == [s[0]]; }
        ReplaceAllRemoves(s[1..], x, rep);
      }
    }
  }

  predicate IsDigit(ch: char)
  {
    '0' <= ch <= '9'
  }

  /** Python's `s.isnumeric()`, restricted to the ASCII digits. */
  predicate IsNumeric(s: string)
  {
    |s| > 0 && forall i :: 0 <= i < |s| ==> IsDigit(s[i])
  }

  function DigitChar(d: nat): (ch: char)
    requires d < 10
    ensures IsDigit(ch)
  {
    ['0', '1', '2', '3', '4', '5', '6', '7', '8', '9'][d]
  }

  /** Python's `str(n)` for a non-negative integer: its decimal digits. */
  function NatToString(n: nat): (r: string)
    ensures IsNumeric(r)
  {
    if n < 10 then [DigitChar(n)] else NatToString(n / 10) + [DigitChar(n % 10)]
  }
}
