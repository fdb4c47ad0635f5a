/** The few operations on Python `str` values that the model relies on:
    ordering and `sorted`, `sep.join`, `s.replace`, `str(n)` for integers and
    the first word of `s.split()`. Strings are sequences of characters
    compared by code point, as Python compares them. */
module Strings {

  // ---------------------------------------------------------------------------
  // Ordering (Python's `<` on str) and `sorted`
  // ---------------------------------------------------------------------------

  /** Lexicographic order by code point; a proper prefix is smaller. */
  predicate Less(a: string, b: string)
    decreases |a|
  {
    if |a| == 0 then |b| > 0
    else if |b| == 0 then false
    else if a[0] != b[0] then a[0] < b[0]
    else Less(a[1..], b[1..])
  }

  predicate LessEq(a: string, b: string)
  {
    a == b || Less(a, b)
  }

  lemma {:induction false} LessIrreflexive(a: string)
    ensures !Less(a, a)
    decreases |a|
  {
    if |a| > 0 {
      LessIrreflexive(a[1..]);
    }
  }

  lemma {:induction false} LessTransitive(a: string, b: string, c: string)
    requires Less(a, b) && Less(b, c)
    ensures Less(a, c)
    decreases |a|
  {
    if |a| > 0 && a[0] == b[0] && b[0] == c[0] {
      LessTransitive(a[1..], b[1..], c[1..]);
    }
  }

  lemma {:induction false} LessTotal(a: string, b: string)
    requires a != b
    ensures Less(a, b) || Less(b, a)
    decreases |a|
  {
    if |a| > 0 && |b| > 0 && a[0] == b[0] {
      assert a == [a[0]] + a[1..] && b == [b[0]] + b[1..];
      LessTotal(a[1..], b[1..]);
    }
  }

  lemma {:induction false} LessAsymmetric(a: string, b: string)
    requires Less(a, b)
    ensures !Less(b, a)
  {
    if Less(b, a) {
      LessTransitive(a, b, a);
      LessIrreflexive(a);
    }
  }

  predicate IsSorted(xs: seq<string>)
  {
    forall i, j :: 0 <= i < j < |xs| ==> LessEq(xs[i], xs[j])
  }

  /** Insert `x` in front of the first element it does not exceed. */
  function Insert(x: string, xs: seq<string>): (r: seq<string>)
    requires IsSorted(xs)
    ensures IsSorted(r)
    ensures multiset(r) == multiset(xs) + multiset{x}
  {
    if |xs| == 0 then [x]
    else if LessEq(x, xs[0]) then
      InsertFront(x, xs);
      [x] + xs
    else
      var rest := Insert(x, xs[1..]);
      assert xs == [xs[0]] + xs[1..];
      InsertAfterHead(x, xs, rest);
      [xs[0]] + rest
  }

  lemma InsertFront(x: string, xs: seq<string>)
    requires IsSorted(xs) && |xs| > 0 && LessEq(x, xs[0])
    ensures IsSorted([x] + xs)
  {
    forall y | y in xs ensures LessEq(x, y) {
      var j :| 0 <= j < |xs| && xs[j] == y;
      if j > 0 && x != xs[0] && xs[0] != y {
        LessTransitive(x, xs[0], y);
      }
    }
    InsertHeadSorted(x, xs);
  }

  lemma InsertAfterHead(x: string, xs: seq<string>, rest: seq<string>)
    requires IsSorted(xs) && |xs| > 0 && !LessEq(x, xs[0])
    requires IsSorted(rest) && multiset(rest) == multiset(xs[1..]) + multiset{x}
    ensures IsSorted([xs[0]] + rest)
  {
    LessTotal(x, xs[0]);
    forall y | y in rest ensures LessEq(xs[0], y) {
      assert y in multiset(rest);
      if y != x {
        assert y in multiset(xs[1..]);
        var j :| 0 <= j < |xs[1..]| && xs[1..][j] == y;
        assert xs[j + 1] == y;
      }
    }
    InsertHeadSorted(xs[0], rest);
  }

  /** Putting in front an element below every element of a sorted sequence
      keeps it sorted. */
  lemma InsertHeadSorted(x: string, xs: seq<string>)
    requires IsSorted(xs)
    requires forall y :: y in xs ==> LessEq(x, y)
    ensures IsSorted([x] + xs)
  {
    var r := [x] + xs;
    forall i, j | 0 <= i < j < |r| ensures LessEq(r[i], r[j]) {
      if i == 0 {
        assert r[j] == xs[j - 1];
        assert r[j] in xs;
      } else {
        assert r[i] == xs[i - 1] && r[j] == xs[j - 1];
      }
    }
  }

  /** Python's `sorted` on a list of strings (an insertion sort; for strings
      the stable order of equal elements is invisible). */
  function Sorted(xs: seq<string>): (r: seq<string>)
    ensures IsSorted(r)
    ensures multiset(r) == multiset(xs)
  {
    if |xs| == 0 then []
    else
      assert xs == xs[..|xs| - 1] + [xs[|xs| - 1]];
      Insert(xs[|xs| - 1], Sorted(xs[..|xs| - 1]))
  }

  /** Sorting distinct strings gives a strictly increasing sequence of the
      same strings. */
  lemma SortedDistinct(xs: seq<string>)
    requires forall i, j :: 0 <= i < j < |xs| ==> xs[i] != xs[j]
    ensures |Sorted(xs)| == |xs|
    ensures forall x :: x in Sorted(xs) <==> x in xs
    ensures forall i, j :: 0 <= i < j < |Sorted(xs)| ==> Less(Sorted(xs)[i], Sorted(xs)[j])
  {
    var r := Sorted(xs);
    assert |r| == |multiset(r)| == |multiset(xs)| == |xs|;
    forall x ensures x in r <==> x in xs {
      assert x in r <==> x in multiset(r);
      assert x in xs <==> x in multiset(xs);
    }
    forall i, j | 0 <= i < j < |r| ensures Less(r[i], r[j]) {
      if r[i] == r[j] {
        DistinctMultiplicity(xs, r[i]);
        RepeatedMultiplicity(r, i, j);
      }
    }
  }

  lemma RepeatedMultiplicity(r: seq<string>, i: nat, j: nat)
    requires i < j < |r| && r[i] == r[j]
    ensures multiset(r)[r[i]] >= 2
  {
    assert r == r[..j] + [r[j]] + r[j + 1..];
    assert r[..j][i] == r[i];
    assert r[i] in multiset(r[..j]);
  }

  lemma {:induction false} DistinctMultiplicity(xs: seq<string>, x: string)
    requires forall i, j :: 0 <= i < j < |xs| ==> xs[i] != xs[j]
    ensures multiset(xs)[x] <= 1
    decreases |xs|
  {
    if |xs| > 0 {
      var init := xs[..|xs| - 1];
      assert xs == init + [xs[|xs| - 1]];
      DistinctMultiplicity(init, x);
      if x == xs[|xs| - 1] {
        assert x !in init;
      }
    }
  }

  // ---------------------------------------------------------------------------
  // `sep.join(parts)`
  // ---------------------------------------------------------------------------

  function Join(parts: seq<string>, sep: string): string
  {
    if |parts| == 0 then ""
    else if |parts| == 1 then parts[0]
    else parts[0] + sep + Join(parts[1..], sep)
  }

  lemma JoinCons(p: string, parts: seq<string>, sep: string)
    requires |parts| > 0
    ensures Join([p] + parts, sep) == p + sep + Join(parts, sep)
  {
    assert ([p] + parts)[1..] == parts;
  }

  lemma JoinConsHead(c: string, parts: seq<string>, sep: string)
    requires |parts| > 0
    ensures Join([c + parts[0]] + parts[1..], sep) == c + Join(parts, sep)
  {
    var ps := [c + parts[0]] + parts[1..];
    assert ps[1..] == parts[1..];
    if |parts| > 1 {
      assert Join(ps, sep) == (c + parts[0]) + sep + Join(parts[1..], sep);
    }
  }

  /** Appending a part adds the separator and the part at the end. */
  lemma {:induction false} JoinSnoc(parts: seq<string>, p: string, sep: string)
    requires |parts| > 0
    ensures Join(parts + [p], sep) == Join(parts, sep) + sep + p
    decreases |parts|
  {
    assert (parts + [p])[1..] == parts[1..] + [p];
    if |parts| > 1 {
      JoinSnoc(parts[1..], p, sep);
    }
  }

  /** The first part is a prefix of the joined string. */
  lemma JoinHeadPrefix(parts: seq<string>, sep: string)
    requires |parts| > 0
    ensures parts[0] <= Join(parts, sep)
  {
  }

  // ---------------------------------------------------------------------------
  // Occurrences, `split` on a separator, and `replace`
  // ---------------------------------------------------------------------------

  predicate OccursAt(pat: string, s: string, i: int)
  {
    0 <= i && i + |pat| <= |s| && s[i..i + |pat|] == pat
  }

  /** `pat in s` */
  predicate Occurs(pat: string, s: string)
  {
    exists i :: 0 <= i <= |s| && OccursAt(pat, s, i)
  }

  /** Python's `s.split(pat)` for a non-empty `pat`: cut at every occurrence
      found scanning from the left, without overlaps. */
  function Split(s: string, pat: string): (r: seq<string>)
    requires |pat| > 0
    ensures |r| > 0
    decreases |s|
  {
    if |s| < |pat| then [s]
    else if s[..|pat|] == pat then [""] + Split(s[|pat|..], pat)
    else
      var rest := Split(s[1..], pat);
      [[s[0]] + rest[0]] + rest[1..]
  }

  /** Python's `s.replace(pat, rep)` for a non-empty `pat`: every occurrence
      found scanning from the left is replaced, without overlaps. */
  function ReplaceAll(s: string, pat: string, rep: string): string
    requires |pat| > 0
    decreases |s|
  {
    if |s| < |pat| then s
    else if s[..|pat|] == pat then rep + ReplaceAll(s[|pat|..], pat, rep)
    else [s[0]] + ReplaceAll(s[1..], pat, rep)
  }

  /** Joining the pieces with the separator gives back the string. */
  lemma {:induction false} JoinSplit(s: string, pat: string)
    requires |pat| > 0
    ensures Join(Split(s, pat), pat) == s
    decreases |s|
  {
    if |s| < |pat| {
    } else if s[..|pat|] == pat {
      var tail := s[|pat|..];
      var rest := Split(tail, pat);
      assert Split(s, pat) == [""] + rest;
      JoinSplit(tail, pat);
      JoinCons("", rest, pat);
      assert s == pat + tail;
    } else {
      var rest := Split(s[1..], pat);
      assert Split(s, pat) == [[s[0]] + rest[0]] + rest[1..];
      JoinSplit(s[1..], pat);
      JoinConsHead([s[0]], rest, pat);
      assert s == [s[0]] + s[1..];
    }
  }

  /** `replace` is `rep.join(s.split(pat))`: the string is cut at the
      occurrences and the replacement is put in each cut. */
  lemma {:induction false} ReplaceAllIsJoinSplit(s: string, pat: string, rep: string)
    requires |pat| > 0
    ensures ReplaceAll(s, pat, rep) == Join(Split(s, pat), rep)
    decreases |s|
  {
    if |s| < |pat| {
    } else if s[..|pat|] == pat {
      var tail := s[|pat|..];
      var rest := Split(tail, pat);
      assert Split(s, pat) == [""] + rest;
      ReplaceAllIsJoinSplit(tail, pat, rep);
      JoinCons("", rest, rep);
    } else {
      var rest := Split(s[1..], pat);
      assert Split(s, pat) == [[s[0]] + rest[0]] + rest[1..];
      ReplaceAllIsJoinSplit(s[1..], pat, rep);
      JoinConsHead([s[0]], rest, rep);
    }
  }

  /** No piece of a split contains the separator: every occurrence of `pat`
      in `s` was a cut point. */
  lemma {:induction false} SplitPiecesFree(s: string, pat: string)
    requires |pat| > 0
    ensures forall k :: 0 <= k < |Split(s, pat)| ==> !Occurs(pat, Split(s, pat)[k])
    decreases |s|
  {
    if |s| < |pat| {
      assert Split(s, pat) == [s];
      assert !Occurs(pat, s);
    } else if s[..|pat|] == pat {
      var rest := Split(s[|pat|..], pat);
      SplitPiecesFree(s[|pat|..], pat);
      assert Split(s, pat) == [""] + rest;
      assert !Occurs(pat, "");
      FreeCons("", rest, pat);
    } else {
      var rest := Split(s[1..], pat);
      SplitPiecesFree(s[1..], pat);
      var head := [s[0]] + rest[0];
      assert Split(s, pat) == [head] + rest[1..];
      JoinSplit(s[1..], pat);
      JoinHeadPrefix(rest, pat);
      ConsFree(s, rest[0], pat);
      assert forall k :: 0 <= k < |rest[1..]| ==> rest[1..][k] == rest[k + 1];
      FreeCons(head, rest[1..], pat);
    }
  }

  lemma FreeCons(head: string, rest: seq<string>, pat: string)
    requires !Occurs(pat, head)
    requires forall k :: 0 <= k < |rest| ==> !Occurs(pat, rest[k])
    ensures forall k :: 0 <= k < |[head] + rest| ==> !Occurs(pat, ([head] + rest)[k])
  {
    forall k | 0 <= k < |[head] + rest| ensures !Occurs(pat, ([head] + rest)[k]) {
      if k > 0 {
        assert ([head] + rest)[k] == rest[k - 1];
      }
    }
  }

  /** The first character of `s` followed by a pattern-free prefix of the
      rest is pattern-free when `s` does not start with the pattern. */
  lemma ConsFree(s: string, t: string, pat: string)
    requires |pat| > 0 && |s| >= |pat| && s[..|pat|] != pat
    requires t <= s[1..] && !Occurs(pat, t)
    ensures !Occurs(pat, [s[0]] + t)
  {
    var head := [s[0]] + t;
    assert head <= s;
    forall i | 0 <= i <= |head| && OccursAt(pat, head, i) ensures false {
      if i > 0 {
        assert head[i..i + |pat|] == t[i - 1..i - 1 + |pat|];
        assert OccursAt(pat, t, i - 1);
      }
    }
  }

  /** `replace` on a string that starts with the pattern. */
  lemma ReplaceAllAtPattern(pat: string, s: string, rep: string)
    requires |pat| > 0
    ensures ReplaceAll(pat + s, pat, rep) == rep + ReplaceAll(s, pat, rep)
  {
    assert (pat + s)[..|pat|] == pat;
    assert (pat + s)[|pat|..] == s;
  }

  /** `replace` passes over a prefix that lacks the pattern's first
      character. */
  lemma {:induction false} ReplaceAllSkip(u: string, s: string, pat: string, rep: string)
    requires |pat| > 0 && pat[0] !in u
    ensures ReplaceAll(u + s, pat, rep) == u + ReplaceAll(s, pat, rep)
    decreases |u|
  {
    if |u| > 0 {
      var t := u + s;
      assert t[0] == u[0] != pat[0];
      if |t| >= |pat| {
        assert t[..|pat|][0] != pat[0];
      }
      assert t[1..] == u[1..] + s;
      assert pat[0] !in u[1..];
      ReplaceAllSkip(u[1..], s, pat, rep);
      if |t| >= |pat| {
        assert ReplaceAll(t, pat, rep) == [t[0]] + ReplaceAll(t[1..], pat, rep);
      } else {
        assert ReplaceAll(s, pat, rep) == s;
        assert ReplaceAll(t, pat, rep) == t;
      }
      assert u + ReplaceAll(s, pat, rep) == [u[0]] + (u[1..] + ReplaceAll(s, pat, rep));
    } else {
      assert u + s == s;
    }
  }

  /** A string without the pattern is left unchanged by `replace`. */
  lemma {:induction false} ReplaceAllAbsent(s: string, pat: string, rep: string)
    requires |pat| > 0 && !Occurs(pat, s)
    ensures ReplaceAll(s, pat, rep) == s
    decreases |s|
  {
    if |s| >= |pat| {
      assert !OccursAt(pat, s, 0);
      forall i | OccursAt(pat, s[1..], i) ensures false {
        assert s[1..][i..i + |pat|] == s[i + 1..i + 1 + |pat|];
        assert OccursAt(pat, s, i + 1);
      }
      ReplaceAllAbsent(s[1..], pat, rep);
      assert s == [s[0]] + s[1..];
    }
  }

  // ---------------------------------------------------------------------------
  // `str(n)` for integers, and the inverse used to show it is injective
  // ---------------------------------------------------------------------------

  function DigitChar(d: nat): char
    requires d < 10
  {
    ('0' as int + d) as char
  }

  function DigitValue(c: char): nat
  {
    if '0' <= c <= '9' then (c as int - '0' as int) as nat else 0
  }

  predicate IsDigit(c: char)
  {
    '0' <= c <= '9'
  }

  /** Decimal digits of `n`, most significant first, no leading zeros. */
  function NatToString(n: nat): (r: string)
    ensures |r| > 0
    ensures forall i :: 0 <= i < |r| ==> IsDigit(r[i])
  {
    if n < 10 then [DigitChar(n)] else NatToString(n / 10) + [DigitChar(n % 10)]
  }

  /** Python's `str(i)` (equivalently an f-string field) for an `int`. */
  function IntToString(i: int): string
  {
    if i < 0 then "-" + NatToString(-i) else NatToString(i)
  }

  function ParseNat(s: string): nat
  {
    if |s| == 0 then 0 else 10 * ParseNat(s[..|s| - 1]) + DigitValue(s[|s| - 1])
  }

  function ParseInt(s: string): int
  {
    if |s| > 0 && s[0] == '-' then -(ParseNat(s[1..]) as int) else ParseNat(s)
  }

  lemma {:induction false} ParseNatToString(n: nat)
    ensures ParseNat(NatToString(n)) == n
  {
    if n < 10 {
      assert DigitValue(DigitChar(n)) == n;
    } else {
      var front := NatToString(n / 10);
      var d := DigitChar(n % 10);
      assert DigitValue(d) == n % 10;
      ParseNatToString(n / 10);
      ParseNatSnoc(front, d);
    }
  }

  lemma ParseNatSnoc(s: string, c: char)
    ensures ParseNat(s + [c]) == 10 * ParseNat(s) + DigitValue(c)
  {
    assert (s + [c])[..|s|] == s;
  }

  lemma ParseIntToString(i: int)
    ensures ParseInt(IntToString(i)) == i
  {
    if i < 0 {
      ParseNegativeToString(-i);
    } else {
      ParseNatToString(i);
      ParseUnsigned(NatToString(i));
    }
  }

  lemma ParseNegativeToString(n: nat)
    requires n > 0
    ensures ParseInt(IntToString(-(n as int))) == -(n as int)
  {
    var digits := NatToString(n);
    assert IntToString(-(n as int)) == "-" + digits;
    ParseNatToString(n);
    ParseNegative(digits);
  }

  lemma ParseUnsigned(digits: string)
    requires |digits| > 0 && IsDigit(digits[0])
    ensures ParseInt(digits) == ParseNat(digits)
  {
  }

  lemma ParseNegative(digits: string)
    ensures ParseInt("-" + digits) == -(ParseNat(digits) as int)
  {
    assert ("-" + digits)[1..] == digits;
  }

  /** The decimal text of an integer never contains `c` unless `c` is a
      digit or the minus sign. */
  lemma IntToStringChars(i: int, c: char)
    requires !IsDigit(c) && c != '-'
    ensures c !in IntToString(i)
  {
    var s := IntToString(i);
    if i < 0 {
      assert forall k :: 0 < k < |s| ==> s[k] == NatToString(-i)[k - 1];
    }
  }

  // ---------------------------------------------------------------------------
  // First word (`s.split()[0]` on a timestamp such as "2024-01-15 03:00:00")
  // ---------------------------------------------------------------------------

  /** The text before the first space, or the whole string if it has none. */
  function FirstWord(s: string): (r: string)
    ensures r <= s && ' ' !in r
    ensures |r| < |s| ==> s[|r|] == ' '
  {
    if |s| == 0 || s[0] == ' ' then "" else [s[0]] + FirstWord(s[1..])
  }
}
