/**
 * The handful of Python string built-ins the game relies on, written out with
 * their Python meaning: `str.replace`, `in` on strings, `str.lower` (ASCII
 * letters only), `str.split` on one separator character, `str.isdigit`
 * (ASCII digits only), `str(n)` for a natural number, slicing with a negative
 * start, and `<=` on strings (code-point lexicographic order).
 */
module Text {

  // ---------------------------------------------------------------------------
  // str.replace
  // ---------------------------------------------------------------------------

  /** `s.replace(pat, rep)`: every non-overlapping occurrence of `pat`, scanning left to right. */
  function Replace(s: string, pat: string, rep: string): string
    requires pat != []
    decreases |s|
  {
    if |s| < |pat| then s
    else if s[..|pat|] == pat then rep + Replace(s[|pat|..], pat, rep)
    else [s[0]] + Replace(s[1..], pat, rep)
  }

  /** Replacing a character by a different one leaves no copy of it behind. */
  lemma {:induction false} ReplaceCharRemovesIt(s: string, c: char, d: char)
    requires c != d
    ensures c !in Replace(s, [c], [d])
    decreases |s|
  {
    if |s| >= 1 {
      assert s[..1] == [s[0]];
      ReplaceCharRemovesIt(s[1..], c, d);
    }
  }

  /** Replacing one character by another is a character-by-character map. */
  lemma {:induction false} ReplaceCharIsMap(s: string, c: char, d: char)
    ensures Replace(s, [c], [d]) == seq(|s|, i requires 0 <= i < |s| => if s[i] == c then d else s[i])
    decreases |s|
  {
    var m := seq(|s|, i requires 0 <= i < |s| => if s[i] == c then d else s[i]);
    if |s| >= 1 {
      ReplaceCharIsMap(s[1..], c, d);
      var head := if s[0] == c then d else s[0];
      assert s[..1] == [c] <==> s[0] == c;
      assert Replace(s, [c], [d]) == [head] + Replace(s[1..], [c], [d]);
      assert m == [head] + m[1..];
    }
  }

  /** A character absent from the input and from the replacement stays absent. */
  lemma {:induction false} ReplaceKeepsAbsent(s: string, pat: string, rep: string, c: char)
    requires pat != [] && c !in s && c !in rep
    ensures c !in Replace(s, pat, rep)
    decreases |s|
  {
    if |s| >= |pat| {
      if s[..|pat|] == pat {
        ReplaceKeepsAbsent(s[|pat|..], pat, rep, c);
      } else {
        ReplaceKeepsAbsent(s[1..], pat, rep, c);
      }
    }
  }

  /** A string in which `pat` does not occur is left as it is. */
  lemma {:induction false} ReplaceWithoutPattern(s: string, pat: string, rep: string)
    requires pat != [] && !Contains(s, pat)
    ensures Replace(s, pat, rep) == s
    decreases |s|
  {
    if |s| >= |pat| {
      ReplaceWithoutPattern(s[1..], pat, rep);
      assert s == [s[0]] + s[1..];
    }
  }

  /** A pattern that occurs in `s + pat` only at the very end is dropped from there. */
  lemma {:induction false} ReplaceTrailingPattern(s: string, pat: string)
    requires pat != []
    requires forall i :: 0 <= i < |s| ==> !OccursAt(s + pat, pat, i)
    ensures Replace(s + pat, pat, "") == s
    decreases |s|
  {
    if s == [] {
      assert (s + pat)[..|pat|] == pat && (s + pat)[|pat|..] == [];
    } else {
      assert !OccursAt(s + pat, pat, 0);
      forall i | 0 <= i < |s[1..]| ensures !OccursAt(s[1..] + pat, pat, i) {
        assert !OccursAt(s + pat, pat, i + 1);
        assert (s[1..] + pat)[i..i + |pat|] == (s + pat)[i + 1..i + 1 + |pat|];
      }
      ReplaceTrailingPattern(s[1..], pat);
      assert (s + pat)[1..] == s[1..] + pat;
    }
  }

  // ---------------------------------------------------------------------------
  // `sub in s`
  // ---------------------------------------------------------------------------

  /** Python's `sub in s` for strings. */
  predicate Contains(s: string, sub: string)
    decreases |s|
  {
    if |s| < |sub| then false
    else s[..|sub|] == sub || Contains(s[1..], sub)
  }

  /** `sub` occurs in `s` starting at offset `i`. */
  predicate OccursAt(s: string, sub: string, i: int)
  {
    0 <= i && i + |sub| <= |s| && s[i..i + |sub|] == sub
  }

  /** `Contains` holds exactly when `sub` occurs at some offset of `s`. */
  lemma {:induction false} ContainsIff(s: string, sub: string)
    ensures Contains(s, sub) <==> exists i :: OccursAt(s, sub, i)
    decreases |s|
  {
    if |s| >= |sub| && s != [] {
      ContainsIff(s[1..], sub);
      if s[..|sub|] == sub {
        assert OccursAt(s, sub, 0);
      }
      if Contains(s[1..], sub) {
        var i :| OccursAt(s[1..], sub, i);
        assert OccursAt(s, sub, i + 1);
      }
      if exists i :: OccursAt(s, sub, i) {
        var i :| OccursAt(s, sub, i);
        if i > 0 {
          assert OccursAt(s[1..], sub, i - 1);
        } else {
          assert s[..|sub|] == sub;
        }
      }
    } else if |s| >= |sub| {
      assert OccursAt(s, sub, 0);
    } else {
      forall i ensures !OccursAt(s, sub, i) { }
    }
  }

  /** Whatever contains `a + b` contains `b`. */
  lemma ContainsSuffix(s: string, a: string, b: string)
    requires Contains(s, a + b)
    ensures Contains(s, b)
  {
    ContainsIff(s, a + b);
    var i :| OccursAt(s, a + b, i);
    assert s[i + |a|..i + |a| + |b|] == (a + b)[|a|..] == b;
    assert OccursAt(s, b, i + |a|);
    ContainsIff(s, b);
  }

  // ---------------------------------------------------------------------------
  // str.lower
  // ---------------------------------------------------------------------------

  function LowerChar(c: char): char
  {
    if 'A' <= c <= 'Z' then (c as int + 32) as char else c
  }

  /** `s.lower()` on ASCII letters; every other character is left as it is. */
  function Lower(s: string): (r: string)
    ensures |r| == |s|
    ensures forall i :: 0 <= i < |s| ==> r[i] == LowerChar(s[i])
  {
    seq(|s|, i requires 0 <= i < |s| => LowerChar(s[i]))
  }

  /** Lower-casing twice is lower-casing once. */
  lemma LowerIdempotent(s: string)
    ensures Lower(Lower(s)) == Lower(s)
  {
  }

  // ---------------------------------------------------------------------------
  // str.split(sep) and its inverse sep.join(parts)
  // ---------------------------------------------------------------------------

  /** `s.split(sep)` for a one-character separator: always at least one part. */
  function Split(s: string, sep: char): (parts: seq<string>)
    ensures |parts| >= 1
    decreases |s|
  {
    if s == [] then [[]]
    else
      var rest := Split(s[1..], sep);
      if s[0] == sep then [[]] + rest
      else [[s[0]] + rest[0]] + rest[1..]
  }

  /** `sep.join(parts)`. */
  function Join(parts: seq<string>, sep: char): string
    requires |parts| >= 1
  {
    if |parts| == 1 then parts[0] else parts[0] + [sep] + Join(parts[1..], sep)
  }

  /** Number of occurrences of `c` in `s`. */
  function Count(s: string, c: char): nat
  {
    if s == [] then 0 else (if s[0] == c then 1 else 0) + Count(s[1..], c)
  }

  /** Splitting yields one more part than there are separators, and no part holds a separator. */
  lemma {:induction false} SplitShape(s: string, sep: char)
    ensures |Split(s, sep)| == Count(s, sep) + 1
    ensures forall i :: 0 <= i < |Split(s, sep)| ==> sep !in Split(s, sep)[i]
    decreases |s|
  {
    if s != [] {
      SplitShape(s[1..], sep);
    }
  }

  /** Joining the parts of a split gives back the string. */
  lemma {:induction false} JoinSplit(s: string, sep: char)
    ensures Join(Split(s, sep), sep) == s
    decreases |s|
  {
    if s != [] {
      JoinSplit(s[1..], sep);
      var rest := Split(s[1..], sep);
      if s[0] != sep {
        if |rest| == 1 {
          assert Join(rest, sep) == rest[0];
        } else {
          assert Join(rest, sep) == rest[0] + [sep] + Join(rest[1..], sep);
          assert ([[s[0]] + rest[0]] + rest[1..])[1..] == rest[1..];
        }
      }
    }
  }

  lemma {:induction false} SplitWithoutSep(a: string, sep: char)
    requires sep !in a
    ensures Split(a, sep) == [a]
    decreases |a|
  {
    if a != [] {
      SplitWithoutSep(a[1..], sep);
      assert [a[0]] + a[1..] == a;
    }
  }

  lemma {:induction false} SplitAtFirstSep(a: string, b: string, sep: char)
    requires sep !in a
    ensures Split(a + [sep] + b, sep) == [a] + Split(b, sep)
    decreases |a|
  {
    var s := a + [sep] + b;
    if a == [] {
      assert s[1..] == b;
    } else {
      assert s[1..] == a[1..] + [sep] + b;
      SplitAtFirstSep(a[1..], b, sep);
      assert [a[0]] + a[1..] == a;
    }
  }

  /** Splitting a join of separator-free parts gives back the parts. */
  lemma {:induction false} SplitJoin(parts: seq<string>, sep: char)
    requires |parts| >= 1
    requires forall i :: 0 <= i < |parts| ==> sep !in parts[i]
    ensures Split(Join(parts, sep), sep) == parts
    decreases |parts|
  {
    if |parts| == 1 {
      SplitWithoutSep(parts[0], sep);
    } else {
      SplitJoin(parts[1..], sep);
      SplitAtFirstSep(parts[0], Join(parts[1..], sep), sep);
      assert [parts[0]] + parts[1..] == parts;
    }
  }

  // ---------------------------------------------------------------------------
  // Digits: str.isdigit, str(n), s[-k:]
  // ---------------------------------------------------------------------------

  predicate IsAsciiDigit(c: char)
  {
    '0' <= c <= '9'
  }

  /** `s.isdigit()` restricted to ASCII digits: non-empty and every character a digit. */
  predicate IsDigitString(s: string)
  {
    |s| > 0 && forall i :: 0 <= i < |s| ==> IsAsciiDigit(s[i])
  }

  function DigitChar(d: nat): (c: char)
    requires d < 10
    ensures IsAsciiDigit(c)
  {
    ('0' as int + d) as char
  }

  /** `str(n)` for a natural number: its decimal digits, no leading zero. */
  function Decimal(n: nat): string
    decreases n
  {
    if n < 10 then [DigitChar(n)] else Decimal(n / 10) + [DigitChar(n % 10)]
  }

  /** The decimal form is a digit string with four or more characters exactly from 1000 on. */
  lemma {:induction false} DecimalShape(n: nat)
    ensures IsDigitString(Decimal(n))
    ensures |Decimal(n)| >= 4 <==> n >= 1000
    decreases n
  {
    if n >= 10 {
      DecimalShape(n / 10);
      assert Decimal(n) == Decimal(n / 10) + [DigitChar(n % 10)];
      if n < 100 {
        assert |Decimal(n / 10)| == 1;
      } else if n < 1000 {
        assert Decimal(n / 10) == Decimal(n / 100) + [DigitChar((n / 10) % 10)];
        assert |Decimal(n / 100)| == 1;
      }
    }
  }

  /** Python's `s[-k:]`: the last `k` characters, or all of `s` when it is shorter. */
  function LastN(s: string, k: nat): (r: string)
    ensures |r| == if |s| <= k then |s| else k
    ensures r == s[|s| - |r|..]
  {
    if |s| <= k then s else s[|s| - k..]
  }

  // ---------------------------------------------------------------------------
  // Python's `<=` on str
  // ---------------------------------------------------------------------------

  /** `a <= b` on Python strings: lexicographic by code point, a prefix first. */
  predicate LexLe(a: string, b: string)
    decreases |a|
  {
    a == [] || (b != [] && (a[0] < b[0] || (a[0] == b[0] && LexLe(a[1..], b[1..]))))
  }

  lemma {:induction false} LexLeTotal(a: string, b: string)
    ensures LexLe(a, b) || LexLe(b, a)
    decreases |a|
  {
    if a != [] && b != [] && a[0] == b[0] {
      LexLeTotal(a[1..], b[1..]);
    }
  }

  lemma {:induction false} LexLeTransitive(a: string, b: string, c: string)
    requires LexLe(a, b) && LexLe(b, c)
    ensures LexLe(a, c)
    decreases |a|
  {
    if a != [] && a[0] == b[0] && b[0] == c[0] {
      LexLeTransitive(a[1..], b[1..], c[1..]);
    }
  }

  lemma {:induction false} LexLeAntisymmetric(a: string, b: string)
    requires LexLe(a, b) && LexLe(b, a)
    ensures a == b
    decreases |a|
  {
    if a != [] {
      LexLeAntisymmetric(a[1..], b[1..]);
      assert a == [a[0]] + a[1..] && b == [b[0]] + b[1..];
    }
  }
}
