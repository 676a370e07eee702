/** String helpers with the meaning JavaScript's string methods have in the
    modelled code: `startsWith`, `endsWith`, `indexOf`, `split`, `join`,
    `replace(/\r\n/g, …)`, `trim`, `toLowerCase`, the decimal rendering of
    a number and the `<` comparison of two strings. Characters are Unicode
    scalar values; JavaScript's UTF-16 code units are not modelled. */
module Text {

  predicate StartsWith(s: string, prefix: string) {
    |prefix| <= |s| && s[..|prefix|] == prefix
  }

  predicate EndsWith(s: string, suffix: string) {
    |suffix| <= |s| && s[|s| - |suffix|..] == suffix
  }

  /** `p` occurs in `s` at position `j`. */
  predicate OccursAt(s: string, p: string, j: int) {
    0 <= j && j + |p| <= |s| && s[j..j + |p|] == p
  }

  /** `s.indexOf(p)`: the first position of `p` in `s`, or -1. */
  function IndexOf(s: string, p: string): (r: int)
    ensures -1 <= r <= |s|
    ensures r >= 0 ==> OccursAt(s, p, r)
    ensures r >= 0 ==> forall j :: 0 <= j < r ==> !OccursAt(s, p, j)
    ensures r < 0 ==> forall j :: 0 <= j <= |s| ==> !OccursAt(s, p, j)
    decreases |s|
  {
    if |s| < |p| then
      assert forall j :: 0 <= j <= |s| ==> !OccursAt(s, p, j);
      -1
    else if s[..|p|] == p then
      assert OccursAt(s, p, 0);
      0
    else
      assert !OccursAt(s, p, 0);
      var k := IndexOf(s[1..], p);
      ShiftOccurrence(s, p);
      if k < 0 then -1 else k + 1
  }

  lemma ShiftOccurrence(s: string, p: string)
    requires |s| > 0
    ensures forall j :: 1 <= j ==> (OccursAt(s, p, j) <==> OccursAt(s[1..], p, j - 1))
  {
    forall j | 1 <= j
      ensures OccursAt(s, p, j) <==> OccursAt(s[1..], p, j - 1)
    {
      if j + |p| <= |s| {
        assert s[1..][j - 1..j - 1 + |p|] == s[j..j + |p|];
      }
    }
  }

  predicate Contains(s: string, p: string) {
    IndexOf(s, p) >= 0
  }

  /** `s.split(sep)` for a non-empty separator. */
  function Split(s: string, sep: string): (parts: seq<string>)
    requires |sep| > 0
    ensures |parts| >= 1
    decreases |s|
  {
    var i := IndexOf(s, sep);
    if i < 0 then [s] else [s[..i]] + Split(s[i + |sep|..], sep)
  }

  /** `parts.join(sep)`. */
  function Join(parts: seq<string>, sep: string): string
  {
    if |parts| == 0 then ""
    else if |parts| == 1 then parts[0]
    else parts[0] + sep + Join(parts[1..], sep)
  }

  /** Splitting and re-joining with the same separator gives the text back. */
  lemma {:induction false} JoinSplit(s: string, sep: string)
    requires |sep| > 0
    ensures Join(Split(s, sep), sep) == s
    decreases |s|
  {
    var i := IndexOf(s, sep);
    if i >= 0 {
      var rest := s[i + |sep|..];
      JoinSplit(rest, sep);
      SplitAtFirst(s, sep, i, rest);
      JoinCut(s, sep, i, Split(rest, sep));
    }
  }

  /** Re-joining at an occurrence of the separator: the part before it,
      the separator, and parts that join to the text after it. */
  lemma JoinCut(s: string, sep: string, i: int, tail: seq<string>)
    requires OccursAt(s, sep, i) && |tail| >= 1
    requires Join(tail, sep) == s[i + |sep|..]
    ensures Join([s[..i]] + tail, sep) == s
  {
    JoinCons(s[..i], tail, sep);
    SliceAround(s, i, i + |sep|);
  }

  /** A concatenation starts with its first part and continues with the second. */
  lemma AppendParts<T>(a: seq<T>, b: seq<T>)
    ensures |a| <= |a + b| && (a + b)[..|a|] == a && (a + b)[|a|..] == b
  {
  }

  /** A prefix of a is a prefix of a + b. */
  lemma PrefixExtends<T>(p: seq<T>, a: seq<T>, b: seq<T>)
    requires |p| <= |a| && a[..|p|] == p
    ensures (a + b)[..|p|] == p
  {
    assert (a + b)[..|p|] == a[..|p|];
  }

  /** Cutting s + u at a position inside s. */
  lemma SliceAfter<T>(s: seq<T>, u: seq<T>, i: int)
    requires 0 <= i < |s|
    ensures (s + u)[..i] == s[..i] && (s + u)[i + 1..] == s[i + 1..] + u
  {
  }

  lemma SliceAround(s: string, i: int, j: int)
    requires 0 <= i <= j <= |s|
    ensures s[..i] + s[i..j] + s[j..] == s
  {
  }

  /** A single-character separator never survives inside a part. */
  lemma {:induction false} SplitPartsLackSeparator(s: string, c: char)
    ensures forall k :: 0 <= k < |Split(s, [c])| ==> c !in Split(s, [c])[k]
    decreases |s|
  {
    var i := IndexOf(s, [c]);
    if i < 0 {
      forall j | 0 <= j < |s| ensures s[j] != c {
        assert !OccursAt(s, [c], j);
        assert s[j..j + 1] == [s[j]];
      }
    } else {
      SplitPartsLackSeparator(s[i + 1..], c);
      forall j | 0 <= j < i ensures s[..i][j] != c {
        assert !OccursAt(s, [c], j);
        assert s[j..j + 1] == [s[j]];
      }
    }
  }

  /** Joining parts that lack a one-character separator and splitting again
      gives the parts back. */
  lemma {:induction false} SplitJoin(parts: seq<string>, c: char)
    requires |parts| >= 1
    requires forall k :: 0 <= k < |parts| ==> c !in parts[k]
    ensures Split(Join(parts, [c]), [c]) == parts
    decreases |parts|
  {
    var s := Join(parts, [c]);
    var p := parts[0];
    NoOccurrence(p, c);
    if |parts| > 1 {
      var rest := Join(parts[1..], [c]);
      assert s == p + [c] + rest;
      FirstSeparator(p, c, rest);
      assert s[..|p|] == p && s[|p| + 1..] == rest;
      assert Split(s, [c]) == [p] + Split(rest, [c]);
      SplitJoin(parts[1..], c);
      assert parts == [p] + parts[1..];
    }
  }

  lemma FirstSeparator(p: string, c: char, rest: string)
    requires c !in p
    ensures IndexOf(p + [c] + rest, [c]) == |p|
  {
    var s := p + [c] + rest;
    assert s[|p|..|p| + 1] == [c];
    assert OccursAt(s, [c], |p|);
    forall j | 0 <= j < |p| ensures !OccursAt(s, [c], j) {
      assert s[j..j + 1] == [p[j]];
    }
  }

  /** A first occurrence in s stays first when text is appended. */
  lemma IndexOfAppend(s: string, t: string, p: string)
    requires IndexOf(s, p) >= 0
    ensures IndexOf(s + t, p) == IndexOf(s, p)
  {
    var r := IndexOf(s, p);
    assert (s + t)[r..r + |p|] == s[r..r + |p|];
    assert OccursAt(s + t, p, r);
    forall j | 0 <= j < r ensures !OccursAt(s + t, p, j) {
      assert !OccursAt(s, p, j);
      assert j + |p| <= |s|;
      assert (s + t)[j..j + |p|] == s[j..j + |p|];
    }
  }

  /** A character with no occurrence does not appear. */
  lemma AbsentChar(s: string, c: char)
    requires IndexOf(s, [c]) < 0
    ensures c !in s
  {
    forall j | 0 <= j < |s| ensures s[j] != c {
      assert !OccursAt(s, [c], j);
      assert s[j..j + 1] == [s[j]];
    }
  }

  lemma NoOccurrence(p: string, c: char)
    requires c !in p
    ensures IndexOf(p, [c]) == -1
  {
    forall j | 0 <= j <= |p| ensures !OccursAt(p, [c], j) {
      if j + 1 <= |p| { assert p[j..j + 1] == [p[j]]; }
    }
  }

  /** `s.split(c).pop()`: the text after the last c, or all of s when it
      has none. */
  function LastPiece(s: string, c: char): (r: string)
    ensures c !in r
  {
    var parts := Split(s, [c]);
    SplitPartsLackSeparator(s, c);
    parts[|parts| - 1]
  }

  /** The last `/`-separated segment of a path (`path.split("/").pop()`). */
  function LastSegment(path: string): (r: string)
    ensures '/' !in r
  {
    LastPiece(path, '/')
  }

  lemma LastPieceWhole(s: string, c: char)
    requires c !in s
    ensures LastPiece(s, c) == s
  {
    NoOccurrence(s, c);
  }

  /** The last piece is what follows the last c. */
  lemma {:induction false} LastPieceAfter(p: string, c: char, b: string)
    requires c !in b
    ensures LastPiece(p + [c] + b, c) == b
    decreases |p|
  {
    var s := p + [c] + b;
    assert s[|p|..|p| + 1] == [c];
    assert OccursAt(s, [c], |p|);
    var i := IndexOf(s, [c]);
    var tail := s[i + 1..];
    assert Split(s, [c]) == [s[..i]] + Split(tail, [c]);
    if i == |p| {
      assert tail == b;
      NoOccurrence(b, c);
    } else {
      assert s[i..i + 1] == [c];
      assert tail == p[i + 1..] + [c] + b;
      LastPieceAfter(p[i + 1..], c, b);
    }
  }

  /** `s.replace(p, r)` with a string pattern: only the first occurrence
      is replaced. */
  function ReplaceFirst(s: string, p: string, r: string): (t: string)
    ensures IndexOf(s, p) < 0 ==> t == s
  {
    var i := IndexOf(s, p);
    if i < 0 then s else s[..i] + r + s[i + |p|..]
  }

  /** Removing a pattern whose only occurrence ends the text leaves what
      precedes it. */
  lemma ReplaceSuffix(s: string, p: string)
    requires |p| > 0 && IndexOf(s + p, p) == |s|
    ensures ReplaceFirst(s + p, p, "") == s
  {
    assert (s + p)[..|s|] == s;
  }

  /** `s.replace(/c/g, "")`: every c removed, the rest in order. */
  function RemoveChar(s: string, c: char): (r: string)
    ensures c !in r
    ensures forall x :: x in r <==> x in s && x != c
    ensures c !in s ==> r == s
  {
    if s == [] then [] else (if s[0] == c then [] else [s[0]]) + RemoveChar(s[1..], c)
  }

  /** `s.replace(/\r\n/g, "\n")`: every non-overlapping "\r\n", scanned left
      to right, becomes "\n". */
  function ReplaceCrlf(s: string): (r: string)
    ensures |r| <= |s|
  {
    if |s| >= 2 && s[0] == '\r' && s[1] == '\n' then "\n" + ReplaceCrlf(s[2..])
    else if |s| == 0 then ""
    else [s[0]] + ReplaceCrlf(s[1..])
  }

  /** The line-ending rewrite is `replace(/\r\n/g, '\n')`: split on every
      "\r\n" and join the pieces with "\n". */
  lemma {:induction false} NormalizeIsReplaceAll(s: string)
    ensures ReplaceCrlf(s) == Join(Split(s, "\r\n"), "\n")
    decreases |s|
  {
    if |s| >= 2 && s[0] == '\r' && s[1] == '\n' {
      assert s[..2] == "\r\n";
      NormalizeIsReplaceAll(s[2..]);
      SplitAtStart(s, "\r\n", "\n");
    } else if |s| > 0 {
      NormalizeIsReplaceAll(s[1..]);
      SplitPastFirstChar(s, "\r\n", "\n");
    }
  }

  /** When s starts with the separator, the first piece is empty. */
  lemma SplitAtStart(s: string, sep: string, glue: string)
    requires |sep| > 0 && |sep| <= |s| && s[..|sep|] == sep
    ensures Join(Split(s, sep), glue) == glue + Join(Split(s[|sep|..], sep), glue)
  {
    assert OccursAt(s, sep, 0);
    SplitAtFirst(s, sep, 0, s[|sep|..]);
    JoinCons(s[..0], Split(s[|sep|..], sep), glue);
    assert s[..0] == [];
  }

  /** When s does not start with the separator, its first character stays
      at the head of the first piece. */
  lemma SplitPastFirstChar(s: string, sep: string, glue: string)
    requires |s| > 0 && |sep| > 0 && !OccursAt(s, sep, 0)
    ensures Join(Split(s, sep), glue) == [s[0]] + Join(Split(s[1..], sep), glue)
  {
    var i := IndexOf(s, sep);
    ShiftOccurrence(s, sep);
    var t := s[1..];
    if i < 0 {
      forall j | 0 <= j <= |t| ensures !OccursAt(t, sep, j) {
        assert !OccursAt(s, sep, j + 1);
      }
      assert Split(t, sep) == [t];
    } else {
      forall j | 0 <= j < i - 1 ensures !OccursAt(t, sep, j) {
        assert !OccursAt(s, sep, j + 1);
      }
      assert OccursAt(t, sep, i - 1);
      FirstPieceShift(s, sep, glue, i);
    }
  }

  /** The first pieces of s and s[1..] differ only in s[0]. */
  lemma FirstPieceShift(s: string, sep: string, glue: string, i: int)
    requires |sep| > 0 && 1 <= i && i == IndexOf(s, sep) && i - 1 == IndexOf(s[1..], sep)
    ensures Join(Split(s, sep), glue) == [s[0]] + Join(Split(s[1..], sep), glue)
  {
    var t := s[1..];
    var head := s[..i];
    assert head == [s[0]] + t[..i - 1];
    var rest := s[i + |sep|..];
    assert t[i - 1 + |sep|..] == rest;
    SplitAtFirst(s, sep, i, rest);
    SplitAtFirst(t, sep, i - 1, rest);
    var tail := Split(rest, sep);
    JoinCons(head, tail, glue);
    JoinCons(t[..i - 1], tail, glue);
    ConsRegroup([s[0]], t[..i - 1], glue, Join(tail, glue));
  }

  lemma ConsRegroup(c: string, a: string, b: string, d: string)
    ensures c + a + b + d == c + (a + b + d)
  {
  }

  /** Splitting cuts at the first separator. */
  lemma SplitAtFirst(s: string, sep: string, i: int, rest: string)
    requires |sep| > 0 && 0 <= i && i == IndexOf(s, sep) && rest == s[i + |sep|..]
    ensures Split(s, sep) == [s[..i]] + Split(rest, sep)
  {
    assert Split(s, sep) == (var k := IndexOf(s, sep); if k < 0 then [s] else [s[..k]] + Split(s[k + |sep|..], sep));
  }

  /** Joining one more part appends the separator and the part. */
  lemma {:induction false} JoinSnoc(parts: seq<string>, x: string, sep: string)
    requires |parts| >= 1
    ensures Join(parts + [x], sep) == Join(parts, sep) + sep + x
    decreases |parts|
  {
    if |parts| == 1 {
      assert (parts + [x])[1..] == [x];
    } else {
      assert (parts + [x])[1..] == parts[1..] + [x];
      JoinSnoc(parts[1..], x, sep);
    }
  }

  lemma JoinCons(a: string, tail: seq<string>, sep: string)
    requires |tail| >= 1
    ensures Join([a] + tail, sep) == a + sep + Join(tail, sep)
  {
    assert ([a] + tail)[1..] == tail;
  }

  /** Every occurrence of one character replaced by another. */
  function ReplaceChar(s: string, from: char, to: char): (r: string)
    ensures |r| == |s|
    ensures forall i :: 0 <= i < |s| ==> r[i] == if s[i] == from then to else s[i]
  {
    if s == [] then [] else [if s[0] == from then to else s[0]] + ReplaceChar(s[1..], from, to)
  }

  function LowerChar(c: char): char {
    if 'A' <= c <= 'Z' then (c as int - 'A' as int + 'a' as int) as char else c
  }

  /** `toLowerCase()`, restricted to the ASCII letters. */
  function ToLower(s: string): (r: string)
    ensures |r| == |s|
    ensures forall i :: 0 <= i < |s| ==> r[i] == LowerChar(s[i])
  {
    if s == [] then [] else [LowerChar(s[0])] + ToLower(s[1..])
  }

  /** The characters JavaScript's `\s` and `trim()` treat as white space. */
  predicate IsSpace(c: char) {
    c in SpaceChars || '\U{2000}' <= c <= '\U{200A}'
  }

  const SpaceChars: set<char> := {' ', '\t', '\n', '\r', '\U{000B}', '\U{000C}', '\U{00A0}', '\U{1680}',
    '\U{2028}', '\U{2029}', '\U{202F}', '\U{205F}', '\U{3000}', '\U{FEFF}'}

  function TrimStart(s: string): (r: string)
    ensures |r| <= |s|
    ensures r == s[|s| - |r|..]
    ensures r != [] ==> !IsSpace(r[0])
    ensures forall i :: 0 <= i < |s| - |r| ==> IsSpace(s[i])
  {
    if s != [] && IsSpace(s[0]) then
      var r := TrimStart(s[1..]);
      assert s[1..][|s| - 1 - |r|..] == s[|s| - |r|..];
      assert forall i :: 1 <= i < |s| - |r| ==> s[i] == s[1..][i - 1];
      r
    else s
  }

  function TrimEnd(s: string): (r: string)
    ensures |r| <= |s|
    ensures r == s[..|r|]
    ensures r != [] ==> !IsSpace(r[|r| - 1])
    ensures forall i :: |r| <= i < |s| ==> IsSpace(s[i])
  {
    if s != [] && IsSpace(s[|s| - 1]) then TrimEnd(s[..|s| - 1]) else s
  }

  /** r is the slice of s from index k, with only white space before and
      after it. */
  predicate Between(s: string, k: nat, r: string) {
    && k + |r| <= |s| && (forall j :: 0 <= j < |r| ==> r[j] == s[k + j])
    && (forall i :: 0 <= i < k ==> IsSpace(s[i]))
    && (forall i :: k + |r| <= i < |s| ==> IsSpace(s[i]))
  }

  /** `s.trim()`: the slice of s between its leading and its trailing
      white space. */
  function Trim(s: string): (r: string)
    ensures r == [] <==> forall i :: 0 <= i < |s| ==> IsSpace(s[i])
    ensures r != [] ==> !IsSpace(r[0]) && !IsSpace(r[|r| - 1])
    ensures Between(s, |s| - |TrimStart(s)|, r)
  {
    TrimmedSlice(s, TrimStart(s), TrimEnd(TrimStart(s)));
    TrimEnd(TrimStart(s))
  }

  /** Cutting white space off the front and then off the back leaves a
      slice of s with only white space around it. */
  lemma TrimmedSlice(s: string, u: string, r: string)
    requires |u| <= |s| && u == s[|s| - |u|..] && forall i :: 0 <= i < |s| - |u| ==> IsSpace(s[i])
    requires u != [] ==> !IsSpace(u[0])
    requires |r| <= |u| && r == u[..|r|] && forall i :: |r| <= i < |u| ==> IsSpace(u[i])
    ensures r == [] <==> forall i :: 0 <= i < |s| ==> IsSpace(s[i])
    ensures Between(s, |s| - |u|, r)
  {
    var k := |s| - |u|;
    forall i | k + |r| <= i < |s| ensures IsSpace(s[i]) {
      assert s[i] == u[i - k];
    }
    if u != [] {
      assert s[k] == u[0];
    }
  }

  predicate IsDigit(c: char) {
    '0' <= c <= '9'
  }

  predicate AllDigits(s: string) {
    forall i :: 0 <= i < |s| ==> IsDigit(s[i])
  }

  function DigitChar(d: nat): char
    requires d < 10
  {
    ('0' as int + d) as char
  }

  /** `String(n)` for a natural number. */
  function NatToString(n: nat): (r: string)
    ensures |r| >= 1
  {
    if n < 10 then [DigitChar(n)] else NatToString(n / 10) + [DigitChar(n % 10)]
  }

  /** The rendering is all digits, with a leading '0' only for zero. */
  lemma {:induction false} NatToStringDigits(n: nat)
    ensures AllDigits(NatToString(n))
    ensures (NatToString(n)[0] == '0') == (n == 0)
  {
    if n >= 10 {
      NatToStringDigits(n / 10);
      assert NatToString(n)[0] == NatToString(n / 10)[0];
    }
  }

  /** The value of a string of decimal digits (`Number(s)` on such a string;
      the empty string reads as 0, as `Number("")` does). */
  function DigitsValue(s: string): nat
    requires AllDigits(s)
  {
    if s == [] then 0 else DigitsValue(s[..|s| - 1]) * 10 + (s[|s| - 1] as int - '0' as int)
  }

  lemma {:induction false} NatToStringValue(n: nat)
    ensures AllDigits(NatToString(n)) && DigitsValue(NatToString(n)) == n
  {
    NatToStringDigits(n);
    if n >= 10 {
      NatToStringValue(n / 10);
      var s := NatToString(n);
      assert s[..|s| - 1] == NatToString(n / 10);
    }
  }

  /** Distinct numbers have distinct decimal renderings. */
  lemma NatToStringInjective(m: nat, n: nat)
    requires NatToString(m) == NatToString(n)
    ensures m == n
  {
    NatToStringValue(m);
    NatToStringValue(n);
  }

  /** JavaScript's `a < b` on strings: lexicographic by character, a proper
      prefix being smaller. */
  predicate LexLess(a: string, b: string) {
    if a == [] then b != []
    else if b == [] then false
    else if a[0] != b[0] then a[0] < b[0]
    else LexLess(a[1..], b[1..])
  }

  lemma {:induction false} LexLessIrreflexive(a: string)
    ensures !LexLess(a, a)
  {
    if a != [] { LexLessIrreflexive(a[1..]); }
  }

  lemma {:induction false} LexLessAsymmetric(a: string, b: string)
    requires LexLess(a, b)
    ensures !LexLess(b, a)
  {
    if a != [] && b != [] && a[0] == b[0] { LexLessAsymmetric(a[1..], b[1..]); }
  }

  lemma {:induction false} LexLessTotal(a: string, b: string)
    requires a != b
    ensures LexLess(a, b) || LexLess(b, a)
  {
    if a != [] && b != [] && a[0] == b[0] {
      assert a == [a[0]] + a[1..] && b == [b[0]] + b[1..];
      LexLessTotal(a[1..], b[1..]);
    }
  }
}
