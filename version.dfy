/** Version strings such as "11.13.4" or "1.0.0-rc": their comparison and
    sorting. A version is lower-cased, its '-' separators read as '.', and
    split into segments. A segment of decimal digits (the empty segment
    included, since `Number("")` is 0) is numeric; the words alpha, beta,
    rc, ga and stable are the known tags, ranked in that order. */
module Version {
  import opened Text
  import Sorting

  /** `TAG_PRECEDENCE[s]`, with 0 for a word that is not a known tag. */
  function Rank(s: string): (r: nat)
    ensures r <= 5
    ensures r > 0 ==> !AllDigits(s)
  {
    if s == "alpha" then assert !IsDigit(s[0]); 1
    else if s == "beta" then assert !IsDigit(s[0]); 2
    else if s == "rc" then assert !IsDigit(s[0]); 3
    else if s == "ga" then assert !IsDigit(s[0]); 4
    else if s == "stable" then assert !IsDigit(s[0]); 5
    else 0
  }

  predicate IsNumeric(s: string) { AllDigits(s) }

  /** A segment that is not a number but is a known tag. */
  predicate IsTag(s: string) { !IsNumeric(s) && Rank(s) > 0 }

  /** `v.toLowerCase().replace(/-/g, '.').split('.')`. */
  function Normalize(v: string): (r: seq<string>)
    ensures |r| >= 1
    ensures forall k :: 0 <= k < |r| ==> '.' !in r[k]
    ensures Join(r, ".") == ReplaceChar(ToLower(v), '-', '.')
  {
    var t := ReplaceChar(ToLower(v), '-', '.');
    JoinSplit(t, ".");
    SplitPartsLackSeparator(t, '.');
    Split(t, ".")
  }

  /** Two segments that compare as a tie: equal numbers, or the same word. */
  predicate SameSegment(s1: string, s2: string) {
    if IsNumeric(s1) && IsNumeric(s2) then DigitsValue(s1) == DigitsValue(s2) else s1 == s2
  }

  /** The comparison of two segments at the same position; 0 means the
      walk goes on to the next position. Numbers compare by value, two
      words by tag rank and then as strings, and a number beats a word. */
  function CompareSegment(s1: string, s2: string): (r: int)
    ensures -1 <= r <= 1
    ensures r == 0 <==> SameSegment(s1, s2)
  {
    var isNum1, isNum2 := IsNumeric(s1), IsNumeric(s2);
    if isNum1 && isNum2 then
      var n1, n2 := DigitsValue(s1), DigitsValue(s2);
      if n1 > n2 then 1 else if n1 < n2 then -1 else 0
    else if !isNum1 && !isNum2 then
      var rank1, rank2 := Rank(s1), Rank(s2);
      if rank1 > rank2 then 1
      else if rank1 < rank2 then -1
      else if LexLess(s2, s1) then LexLessIrreflexive(s1); 1
      else if LexLess(s1, s2) then LexLessIrreflexive(s1); -1
      else
        assert s1 == s2 by {
          if s1 != s2 { LexLessTotal(s1, s2); }
        }
        0
    else if isNum1 then 1
    else -1
  }

  /** The loop of `compareVersions` over the two segment lists. When one
      list runs out, the first extra segment decides: a known tag makes its
      version lower, anything else makes it higher. */
  function CompareSegments(p1: seq<string>, p2: seq<string>): (r: int)
    ensures -1 <= r <= 1
    ensures r == 0 ==> |p1| == |p2|
  {
    if p1 == [] && p2 == [] then 0
    else if p1 == [] then (if IsTag(p2[0]) then 1 else -1)
    else if p2 == [] then (if IsTag(p1[0]) then -1 else 1)
    else
      var c := CompareSegment(p1[0], p2[0]);
      if c != 0 then c else CompareSegments(p1[1..], p2[1..])
  }

  /** `compareVersions(v1, v2)`: 1 if v1 is the higher version, -1 if it is
      the lower one, 0 if they are equal. */
  function CompareVersions(v1: string, v2: string): (r: int)
    ensures r == -1 || r == 0 || r == 1
  {
    CompareSegments(Normalize(v1), Normalize(v2))
  }

  lemma {:induction false} CompareSegmentsReflexive(p: seq<string>)
    ensures CompareSegments(p, p) == 0
  {
    if p != [] {
      CompareSegmentsReflexive(p[1..]);
    }
  }

  /** Every version equals itself. */
  lemma CompareVersionsReflexive(v: string)
    ensures CompareVersions(v, v) == 0
  {
    CompareSegmentsReflexive(Normalize(v));
  }

  lemma CompareSegmentAntisymmetric(s1: string, s2: string)
    ensures CompareSegment(s1, s2) == -CompareSegment(s2, s1)
  {
    if !IsNumeric(s1) && !IsNumeric(s2) && Rank(s1) == Rank(s2) {
      if LexLess(s1, s2) { LexLessAsymmetric(s1, s2); }
      if LexLess(s2, s1) { LexLessAsymmetric(s2, s1); }
    }
  }

  lemma {:induction false} CompareSegmentsAntisymmetric(p1: seq<string>, p2: seq<string>)
    ensures CompareSegments(p1, p2) == -CompareSegments(p2, p1)
  {
    if p1 != [] && p2 != [] {
      CompareSegmentAntisymmetric(p1[0], p2[0]);
      CompareSegmentsAntisymmetric(p1[1..], p2[1..]);
    }
  }

  /** Swapping the arguments negates the result: v1 is greater than v2
      exactly when v2 is less than v1. */
  lemma CompareVersionsAntisymmetric(v1: string, v2: string)
    ensures CompareVersions(v1, v2) == -CompareVersions(v2, v1)
  {
    CompareSegmentsAntisymmetric(Normalize(v1), Normalize(v2));
  }

  /** Case and the choice of '-' or '.' as separator do not matter. */
  lemma SeparatorAndCaseIgnored()
    ensures CompareVersions("1.0.0-RC", "1.0.0.rc") == 0
  {
    var a := ReplaceChar(ToLower("1.0.0-RC"), '-', '.');
    var b := ReplaceChar(ToLower("1.0.0.rc"), '-', '.');
    assert a == b;
    CompareSegmentsReflexive(Normalize("1.0.0.rc"));
  }

  /** A common prefix of segments is skipped. */
  lemma {:induction false} CommonPrefix(p: seq<string>, q1: seq<string>, q2: seq<string>)
    ensures CompareSegments(p + q1, p + q2) == CompareSegments(q1, q2)
  {
    if p != [] {
      var a, b := p + q1, p + q2;
      CommonPrefix(p[1..], q1, q2);
      assert a != [] && b != [];
      assert a[0] == p[0] && b[0] == p[0];
      assert SameSegment(p[0], p[0]);
      assert a[1..] == p[1..] + q1;
      assert b[1..] == p[1..] + q2;
    } else {
      assert p + q1 == q1 && p + q2 == q2;
    }
  }

  /** Splitting text that is two texts joined by the separator. */
  lemma {:induction false} SplitAppend(s: string, t: string, c: char)
    ensures Split(s + [c] + t, [c]) == Split(s, [c]) + Split(t, [c])
    decreases |s|
  {
    var i := IndexOf(s, [c]);
    if i < 0 {
      SplitAppendFirst(s, t, c);
    } else {
      SplitAppendLater(s, t, c, i);
      SplitAppend(s[i + 1..], t, c);
      Reassoc(Split(s + [c] + t, [c]), Split(s, [c]), Split(t, [c]), s[..i], Split(s[i + 1..], [c]));
    }
  }

  lemma Reassoc(whole: seq<string>, left: seq<string>, right: seq<string>, a: string, mid: seq<string>)
    requires whole == [a] + (mid + right) && left == [a] + mid
    ensures whole == left + right
  {
  }

  lemma SplitAppendFirst(s: string, t: string, c: char)
    requires IndexOf(s, [c]) < 0
    ensures Split(s, [c]) == [s]
    ensures Split(s + [c] + t, [c]) == [s] + Split(t, [c])
  {
    var st := s + [c] + t;
    AbsentChar(s, c);
    FirstSeparator(s, c, t);
    assert st[..|s|] == s && st[|s| + 1..] == t;
    SplitAtFirst(st, [c], |s|, t);
  }

  lemma SplitAppendLater(s: string, t: string, c: char, i: int)
    requires 0 <= i && i == IndexOf(s, [c])
    ensures Split(s, [c]) == [s[..i]] + Split(s[i + 1..], [c])
    ensures Split(s + [c] + t, [c]) == [s[..i]] + Split(s[i + 1..] + [c] + t, [c])
  {
    var u := [c] + t;
    var st := s + u;
    var rest := s[i + 1..];
    assert s + [c] + t == st;
    assert rest + [c] + t == rest + u;
    IndexOfAppend(s, u, [c]);
    SliceAfter(s, u, i);
    SplitAtFirst(st, [c], i, rest + u);
    SplitAtFirst(s, [c], i, rest);
  }

  lemma ToLowerAppend(a: string, b: string)
    ensures ToLower(a + b) == ToLower(a) + ToLower(b)
  {
    var l, r := ToLower(a + b), ToLower(a) + ToLower(b);
    forall i | 0 <= i < |l|
      ensures l[i] == r[i]
    {
      if i < |a| {
        assert (a + b)[i] == a[i];
      } else {
        assert (a + b)[i] == b[i - |a|];
      }
    }
  }

  lemma ReplaceAppend(a: string, b: string)
    ensures ReplaceChar(a + b, '-', '.') == ReplaceChar(a, '-', '.') + ReplaceChar(b, '-', '.')
  {
    var l := ReplaceChar(a + b, '-', '.');
    var r := ReplaceChar(a, '-', '.') + ReplaceChar(b, '-', '.');
    assert forall i :: 0 <= i < |l| ==> l[i] == r[i];
  }

  /** Appending "-" + x to a version appends the segments of x. */
  lemma NormalizeAppend(v: string, x: string)
    ensures Normalize(v + "-" + x) == Normalize(v) + Normalize(x)
  {
    ToLowerAppend(v + "-", x);
    ToLowerAppend(v, "-");
    var lv, lx := ToLower(v), ToLower(x);
    assert ToLower("-") == "-";
    ReplaceAppend(lv + "-", lx);
    ReplaceAppend(lv, "-");
    var rv, rx := ReplaceChar(lv, '-', '.'), ReplaceChar(lx, '-', '.');
    assert ReplaceChar("-", '-', '.') == ".";
    assert ReplaceChar(ToLower(v + "-" + x), '-', '.') == rv + ['.'] + rx;
    SplitAppend(rv, rx, '.');
  }

  lemma {:induction false} ExtraSegment(p: seq<string>, x: string)
    ensures CompareSegments(p + [x], p) == (if IsTag(x) then -1 else 1)
  {
    CommonPrefix(p, [x], []);
    assert p + [] == p;
  }

  /** A version with an extra trailing segment: a known tag (1.0.0-rc)
      makes it lower than the version without it (1.0.0); anything else
      (1.0.0-1) makes it higher. */
  lemma ExtraTrailingSegment(v: string, x: string)
    requires Normalize(x) == [x]
    ensures IsTag(x) ==> CompareVersions(v + "-" + x, v) == -1 && CompareVersions(v, v + "-" + x) == 1
    ensures !IsTag(x) ==> CompareVersions(v + "-" + x, v) == 1 && CompareVersions(v, v + "-" + x) == -1
  {
    NormalizeAppend(v, x);
    ExtraSegment(Normalize(v), x);
    CompareVersionsAntisymmetric(v + "-" + x, v);
  }

  /** A segment character: neither a separator nor an upper-case letter. */
  predicate PlainChar(ch: char) {
    ch != '-' && ch != '.' && !('A' <= ch <= 'Z')
  }

  /** Text of plain characters is one segment, unchanged. */
  lemma NormalizeSingle(x: string)
    requires forall i :: 0 <= i < |x| ==> PlainChar(x[i])
    ensures Normalize(x) == [x]
  {
    var y := ReplaceChar(ToLower(x), '-', '.');
    assert y == x;
    NoOccurrence(x, '.');
  }

  /** A release candidate is lower than its release: "1.0.0-rc" is lower
      than "1.0.0". */
  lemma ReleaseCandidateBelowRelease(v: string)
    ensures CompareVersions(v + "-rc", v) == -1
  {
    NormalizeSingle("rc");
    assert Rank("rc") == 3;
    ExtraTrailingSegment(v, "rc");
    DashedTags();
    DashJoin(v, "rc", "-rc");
  }

  /** Versions that differ only in one last segment compare as that
      segment does. */
  lemma LastSegmentDecides(v: string, x: string, y: string)
    requires Normalize(x) == [x] && Normalize(y) == [y]
    ensures CompareVersions(v + "-" + x, v + "-" + y) == CompareSegment(x, y)
  {
    NormalizeAppend(v, x);
    NormalizeAppend(v, y);
    CommonPrefix(Normalize(v), [x], [y]);
  }

  /** Two tags at the same position compare by rank: "1.0.0-beta" is lower
      than "1.0.0-rc". */
  lemma BetaBelowReleaseCandidate(v: string)
    ensures CompareVersions(v + "-beta", v + "-rc") == -1
  {
    NormalizeSingle("rc");
    NormalizeSingle("beta");
    LastSegmentDecides(v, "beta", "rc");
    DashedTags();
    DashJoin(v, "beta", "-beta");
    DashJoin(v, "rc", "-rc");
    BetaRankedBelowRc();
  }

  lemma DashedTags()
    ensures "-beta" == "-" + "beta" && "-rc" == "-" + "rc"
  {
  }

  lemma DashJoin(v: string, x: string, dx: string)
    requires dx == "-" + x
    ensures v + "-" + x == v + dx
  {
  }

  lemma BetaRankedBelowRc()
    ensures CompareSegment("beta", "rc") == -1
  {
    assert Rank("rc") == 3 && Rank("beta") == 2;
    assert !IsNumeric("rc") && !IsNumeric("beta") by {
      assert !IsDigit("rc"[0]) && !IsDigit("beta"[0]);
    }
  }

  /** Numeric segments compare by value, so "10" is higher than "9". */
  lemma NumbersCompareByValue()
    ensures CompareVersions("10", "9") == 1
  {
    NormalizeSingle("10");
    NormalizeSingle("9");
    assert DigitsValue("10") == 10 by { assert "10"[..1] == "1"; }
    assert DigitsValue("9") == 9;
  }

  /** `sortVersions(versions, descending)`: a sorted copy under
      `compareVersions`, negated when descending. */
  function SortVersions(versions: seq<string>, descending: bool): (r: seq<string>)
    ensures multiset(r) == multiset(versions)
  {
    Sorting.Sort(versions, VersionOrder(descending))
  }

  function VersionOrder(descending: bool): (string, string) -> int {
    (a: string, b: string) => if descending then -CompareVersions(a, b) else CompareVersions(a, b)
  }

  /** Every segment of the version is numeric. */
  predicate AllNumeric(v: string) {
    forall i :: 0 <= i < |Normalize(v)| ==> IsNumeric(Normalize(v)[i])
  }

  lemma {:induction false} NumericTransitive(a: seq<string>, b: seq<string>, c: seq<string>)
    requires forall i :: 0 <= i < |a| ==> IsNumeric(a[i])
    requires forall i :: 0 <= i < |b| ==> IsNumeric(b[i])
    requires forall i :: 0 <= i < |c| ==> IsNumeric(c[i])
    requires CompareSegments(a, b) >= 0 && CompareSegments(b, c) >= 0
    ensures CompareSegments(a, c) >= 0
  {
    if a != [] && b != [] && c != [] {
      if CompareSegment(a[0], b[0]) == 0 && CompareSegment(b[0], c[0]) == 0 {
        NumericTransitive(a[1..], b[1..], c[1..]);
      }
    }
  }

  /** On versions made of numbers only, the order is a total preorder, so
      sorting them yields a sorted list. */
  lemma NumericOrderIsTotalPreorder(versions: seq<string>, descending: bool)
    requires forall v :: v in versions ==> AllNumeric(v)
    ensures Sorting.TotalPreorderOn(VersionOrder(descending), versions)
  {
    var cmp := VersionOrder(descending);
    forall a, b | a in versions && b in versions ensures cmp(a, b) <= 0 || cmp(b, a) <= 0 {
      CompareVersionsAntisymmetric(a, b);
    }
    forall a, b, c | a in versions && b in versions && c in versions && cmp(a, b) <= 0 && cmp(b, c) <= 0
      ensures cmp(a, c) <= 0
    {
      if descending {
        NumericTransitive(Normalize(a), Normalize(b), Normalize(c));
      } else {
        CompareVersionsAntisymmetric(a, b);
        CompareVersionsAntisymmetric(b, c);
        CompareVersionsAntisymmetric(a, c);
        NumericTransitive(Normalize(c), Normalize(b), Normalize(a));
      }
    }
  }

  /** Sorting numeric versions in descending order puts every version at
      or above each one after it. */
  lemma SortVersionsDescending(versions: seq<string>)
    requires forall v :: v in versions ==> AllNumeric(v)
    ensures var r := SortVersions(versions, true);
      forall i, j :: 0 <= i < j < |r| ==> CompareVersions(r[i], r[j]) >= 0
  {
    NumericOrderIsTotalPreorder(versions, true);
    Sorting.SortSorted(versions, VersionOrder(true));
  }
}
