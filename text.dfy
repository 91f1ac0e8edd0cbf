/**
 * The string operations of Python that the service relies on, over code points
 * (a Dafny `char` is a Unicode scalar value, which is what a strictly decoded
 * Python `str` holds): `str.splitlines(keepends=True)`, the UTF-8 length of an
 * encoded string, `str.split(sep)`, `sep.join`, comparison of strings (used by
 * `sorted`), ASCII lower-casing and the decimal rendering of an `int`.
 */
module Text {
  import opened Wrappers

  // ---------------------------------------------------------------------------
  // Concatenation of a list of pieces ("".join)

  /** A non-empty sequence is its front followed by its last element. */
  lemma FrontLast<T>(s: seq<T>)
    requires s != []
    ensures s[..|s| - 1] + [s[|s| - 1]] == s
  {
  }

  /** Regrouping a concatenation of three sequences. */
  lemma AppendAssoc<T>(a: seq<T>, b: seq<T>, c: seq<T>)
    ensures (a + b) + c == a + (b + c)
  {
  }

  function Concat(pieces: seq<string>): string
  {
    if pieces == [] then "" else pieces[0] + Concat(pieces[1..])
  }

  lemma {:induction false} ConcatAppend(a: seq<string>, b: seq<string>)
    ensures Concat(a + b) == Concat(a) + Concat(b)
  {
    if a != [] {
      assert (a + b)[1..] == a[1..] + b;
      ConcatAppend(a[1..], b);
    } else {
      assert a + b == b;
    }
  }

  // ---------------------------------------------------------------------------
  // str.splitlines(keepends=True)

  /** The line boundaries of Python's `str.splitlines`. */
  predicate IsLineBoundary(c: char)
  {
    || c == '\n' || c == '\r'
    || c == '\U{000B}' || c == '\U{000C}'
    || c == '\U{001C}' || c == '\U{001D}' || c == '\U{001E}'
    || c == '\U{0085}' || c == '\U{2028}' || c == '\U{2029}'
  }

  /** Index just past the first line of `s` that starts at or after `i`. */
  function LineEnd(s: string, i: nat): (n: nat)
    requires i < |s|
    ensures i < n <= |s|
    ensures forall k :: i <= k < n - 2 ==> !IsLineBoundary(s[k])
    ensures i <= n - 2 ==> !IsLineBoundary(s[n - 2]) || (s[n - 2] == '\r' && s[n - 1] == '\n')
    ensures n < |s| ==> IsLineBoundary(s[n - 1])
    ensures n < |s| && s[n - 1] == '\r' ==> s[n] != '\n'
    decreases |s| - i
  {
    if s[i] == '\r' && i + 1 < |s| && s[i + 1] == '\n' then i + 2
    else if IsLineBoundary(s[i]) || i + 1 == |s| then i + 1
    else LineEnd(s, i + 1)
  }

  /** The length of the first piece that `splitlines(keepends=True)` produces. */
  function FirstLineLength(s: string): (n: nat)
    requires |s| > 0
    ensures 0 < n <= |s|
  {
    LineEnd(s, 0)
  }

  /** `s.splitlines(keepends=True)`: the pieces keep their terminators, a
      "\r\n" pair is one terminator, and a trailing terminator opens no empty
      last piece. */
  function SplitLines(s: string): seq<string>
    decreases |s|
  {
    if s == [] then [] else
    var n := FirstLineLength(s);
    [s[..n]] + SplitLines(s[n..])
  }

  /** Joining the pieces gives the input back. */
  lemma {:induction false} SplitLinesConcat(s: string)
    ensures Concat(SplitLines(s)) == s
    decreases |s|
  {
    if s != [] {
      var n := FirstLineLength(s);
      assert SplitLines(s)[1..] == SplitLines(s[n..]);
      SplitLinesConcat(s[n..]);
      assert s[..n] + s[n..] == s;
    }
  }

  /** Every piece is non-empty, and only the last may lack a terminator. */
  lemma {:induction false} SplitLinesPieces(s: string)
    ensures forall k :: 0 <= k < |SplitLines(s)| ==> SplitLines(s)[k] != []
    ensures forall k :: 0 <= k < |SplitLines(s)| - 1 ==> IsLineBoundary(SplitLines(s)[k][|SplitLines(s)[k]| - 1])
    decreases |s|
  {
    if s != [] {
      var n := FirstLineLength(s);
      SplitLinesPieces(s[n..]);
      if n == |s| {
        assert SplitLines(s[n..]) == [];
      }
    }
  }

  /** The first piece is exactly `FirstLineLength(s)` code points long. */
  lemma SplitLinesHead(s: string)
    requires s != []
    ensures |SplitLines(s)| > 0 && SplitLines(s)[0] == s[..FirstLineLength(s)]
    ensures Concat(SplitLines(s)[1..]) == s[FirstLineLength(s)..]
  {
    var n := FirstLineLength(s);
    assert SplitLines(s)[1..] == SplitLines(s[n..]);
    SplitLinesConcat(s[n..]);
  }

  // ---------------------------------------------------------------------------
  // UTF-8 byte length (len(s.encode('utf-8')))

  /** Number of bytes UTF-8 uses for one code point. */
  function Utf8Len(c: char): (n: nat)
    ensures 1 <= n <= 4
    ensures n == 1 <==> c as int < 0x80
  {
    if c as int < 0x80 then 1
    else if c as int < 0x800 then 2
    else if c as int < 0x10000 then 3
    else 4
  }

  function Utf8Size(s: string): nat
  {
    if s == [] then 0 else Utf8Len(s[0]) + Utf8Size(s[1..])
  }

  lemma {:induction false} Utf8SizeAppend(a: string, b: string)
    ensures Utf8Size(a + b) == Utf8Size(a) + Utf8Size(b)
  {
    if a != [] {
      assert (a + b)[0] == a[0];
      assert (a + b)[1..] == a[1..] + b;
      Utf8SizeAppend(a[1..], b);
    } else {
      assert a + b == b;
    }
  }

  /** The byte length lies between the code point count and four times it. */
  lemma {:induction false} Utf8SizeBounds(s: string)
    ensures |s| <= Utf8Size(s) <= 4 * |s|
    ensures (forall k :: 0 <= k < |s| ==> s[k] as int < 0x80) ==> Utf8Size(s) == |s|
  {
    if s != [] {
      Utf8SizeBounds(s[1..]);
      assert forall k :: 0 <= k < |s[1..]| ==> s[1..][k] == s[k + 1];
    }
  }

  // ---------------------------------------------------------------------------
  // Comparison of strings, as Python's `<=` on `str` (code point by code point,
  // a proper prefix first)

  predicate LexLe(a: string, b: string)
    decreases |a|
  {
    a == [] || (b != [] && (a[0] < b[0] || (a[0] == b[0] && LexLe(a[1..], b[1..]))))
  }

  lemma {:induction false} LexLeTotal(a: string, b: string)
    ensures LexLe(a, b) || LexLe(b, a)
    decreases |a|
  {
    if a != [] && b != [] && a[0] == b[0] {
      LexLeTotal(a[1..], b[1..]);
    }
  }

  lemma {:induction false} LexLeTransitive(a: string, b: string, c: string)
    requires LexLe(a, b) && LexLe(b, c)
    ensures LexLe(a, c)
    decreases |a|
  {
    if a != [] && a[0] == b[0] && b[0] == c[0] {
      LexLeTransitive(a[1..], b[1..], c[1..]);
    }
  }

  lemma {:induction false} LexLeAntisymmetric(a: string, b: string)
    requires LexLe(a, b) && LexLe(b, a)
    ensures a == b
    decreases |a|
  {
    if a != [] {
      LexLeAntisymmetric(a[1..], b[1..]);
      assert a == [a[0]] + a[1..] && b == [b[0]] + b[1..];
    }
  }

  predicate SortedByName(s: seq<string>)
  {
    forall i, j :: 0 <= i < j < |s| ==> LexLe(s[i], s[j])
  }

  function InsertByName(x: string, s: seq<string>): (r: seq<string>)
    requires SortedByName(s)
    ensures SortedByName(r)
    ensures multiset(r) == multiset(s) + multiset{x}
  {
    if s == [] then [x]
    else if LexLe(x, s[0]) then
      assert forall j :: 0 <= j < |s| ==> LexLe(x, s[j]) by {
        forall j | 0 <= j < |s| ensures LexLe(x, s[j]) {
          if j > 0 { LexLeTransitive(x, s[0], s[j]); }
        }
      }
      [x] + s
    else
      var rest := InsertByName(x, s[1..]);
      assert s == [s[0]] + s[1..];
      assert forall y :: y in multiset(rest) ==> LexLe(s[0], y) by {
        forall y | y in multiset(rest) ensures LexLe(s[0], y) {
          if y == x { LexLeTotal(x, s[0]); }
          else { assert y in s[1..]; }
        }
      }
      assert forall j :: 0 <= j < |rest| ==> LexLe(s[0], rest[j]) by {
        forall j | 0 <= j < |rest| ensures LexLe(s[0], rest[j]) {
          assert rest[j] in multiset(rest);
        }
      }
      [s[0]] + rest
  }

  /** `sorted(names)`: ascending by Python's string order. */
  function SortByName(s: seq<string>): (r: seq<string>)
    ensures SortedByName(r)
    ensures multiset(r) == multiset(s)
    ensures |r| == |s|
  {
    if s == [] then []
    else
      assert s == [s[0]] + s[1..];
      InsertByName(s[0], SortByName(s[1..]))
  }

  /** Sorting puts the smallest name first. */
  lemma SortByNameFirstIsLeast(s: seq<string>)
    requires s != []
    ensures forall x :: x in s ==> LexLe(SortByName(s)[0], x)
  {
    var r := SortByName(s);
    forall x | x in s ensures LexLe(r[0], x) {
      assert x in multiset(s);
      assert x in multiset(r);
      var j :| 0 <= j < |r| && r[j] == x;
      if j == 0 { LexLeTotal(x, x); }
    }
  }

  /** The tail of a sorted sequence is sorted. */
  lemma SortedTail(a: seq<string>)
    requires a != [] && SortedByName(a)
    ensures SortedByName(a[1..])
  {
    var t := a[1..];
    forall i, j | 0 <= i < j < |t| ensures LexLe(t[i], t[j]) {
      assert t[i] == a[i + 1] && t[j] == a[j + 1];
    }
  }

  /** The head of a sorted sequence is at most every element. */
  lemma SortedHeadLeast(a: seq<string>, x: string)
    requires a != [] && SortedByName(a)
    requires x in multiset(a)
    ensures LexLe(a[0], x)
  {
    var k :| 0 <= k < |a| && a[k] == x;
    if k == 0 {
      LexLeTotal(x, x);
    } else {
      assert LexLe(a[0], a[k]);
    }
  }

  /** Any two sorted permutations of the same names are the same sequence:
      the order `sorted` produces is determined by the names alone. */
  lemma {:induction false} SortedPermutationUnique(a: seq<string>, b: seq<string>)
    requires SortedByName(a) && SortedByName(b) && multiset(a) == multiset(b)
    ensures a == b
    decreases |a|
  {
    assert |a| == |multiset(a)| == |multiset(b)| == |b|;
    if a != [] {
      assert a[0] in multiset(a) && b[0] in multiset(b);
      SortedHeadLeast(a, b[0]);
      SortedHeadLeast(b, a[0]);
      LexLeAntisymmetric(a[0], b[0]);
      assert a == [a[0]] + a[1..] && b == [b[0]] + b[1..];
      assert multiset(a[1..]) == multiset(b[1..]) by {
        assert multiset(a) == multiset([a[0]]) + multiset(a[1..]);
        assert multiset(b) == multiset([b[0]]) + multiset(b[1..]);
        assert multiset(a[1..]) == multiset(a) - multiset([a[0]]);
        assert multiset(b[1..]) == multiset(b) - multiset([b[0]]);
      }
      SortedTail(a);
      SortedTail(b);
      SortedPermutationUnique(a[1..], b[1..]);
    }
  }

  // ---------------------------------------------------------------------------
  // Substring search and str.split(sep)

  predicate OccursAt(s: string, pat: string, j: nat)
  {
    j + |pat| <= |s| && s[j..j + |pat|] == pat
  }

  function FindFrom(s: string, pat: string, i: nat): (r: Option<nat>)
    requires i <= |s|
    ensures r.Some? ==> i <= r.value && OccursAt(s, pat, r.value)
    ensures r.Some? ==> forall j :: i <= j < r.value ==> !OccursAt(s, pat, j)
    ensures r.None? ==> forall j :: i <= j <= |s| ==> !OccursAt(s, pat, j)
    decreases |s| - i
  {
    if OccursAt(s, pat, i) then Some(i)
    else if i == |s| then None
    else FindFrom(s, pat, i + 1)
  }

  /** `s.find(pat)`, as an Option: the leftmost occurrence. */
  function Find(s: string, pat: string): (r: Option<nat>)
    ensures r.Some? ==> OccursAt(s, pat, r.value) && forall j :: 0 <= j < r.value ==> !OccursAt(s, pat, j)
    ensures r.None? ==> forall j :: 0 <= j <= |s| ==> !OccursAt(s, pat, j)
  {
    FindFrom(s, pat, 0)
  }

  /** `sep.join(parts)`. */
  function Join(parts: seq<string>, sep: string): string
  {
    if parts == [] then ""
    else if |parts| == 1 then parts[0]
    else parts[0] + sep + Join(parts[1..], sep)
  }

  /** Python's `s.split(sep)` for a non-empty separator: cut at every
      occurrence, scanning left to right without overlap. */
  function Split(s: string, sep: string): (r: seq<string>)
    requires sep != []
    ensures |r| >= 1
    decreases |s|
  {
    match Find(s, sep)
    case None => [s]
    case Some(k) => [s[..k]] + Split(s[k + |sep|..], sep)
  }

  /** Splitting then joining with the same separator gives the input back. */
  lemma {:induction false} SplitJoin(s: string, sep: string)
    requires sep != []
    ensures Join(Split(s, sep), sep) == s
    decreases |s|
  {
    match Find(s, sep)
    case None =>
    case Some(k) =>
      var rest := s[k + |sep|..];
      var tail := Split(rest, sep);
      assert Split(s, sep) == [s[..k]] + tail;
      SplitJoin(rest, sep);
      assert Join([s[..k]] + tail, sep) == s[..k] + sep + Join(tail, sep) by {
        assert ([s[..k]] + tail)[1..] == tail;
      }
      assert s == s[..k] + s[k..k + |sep|] + rest;
  }

  /** No piece of a split contains the separator. */
  lemma {:induction false} SplitPiecesFree(s: string, sep: string)
    requires sep != []
    ensures forall i :: 0 <= i < |Split(s, sep)| ==> Find(Split(s, sep)[i], sep).None?
    decreases |s|
  {
    match Find(s, sep)
    case None =>
    case Some(k) =>
      var rest := s[k + |sep|..];
      SplitPiecesFree(rest, sep);
      var head := s[..k];
      forall j | 0 <= j <= |head| ensures !OccursAt(head, sep, j) {
        if OccursAt(head, sep, j) {
          assert s[j..j + |sep|] == head[j..j + |sep|];
          assert OccursAt(s, sep, j);
        }
      }
      assert Split(s, sep)[1..] == Split(rest, sep);
  }

  /** Joining words that do not hold a one-character separator, then
      splitting at it, gives the words back. */
  lemma {:induction false} SplitOfJoin(words: seq<string>, c: char)
    requires words != []
    requires forall i :: 0 <= i < |words| ==> c !in words[i]
    ensures Split(Join(words, [c]), [c]) == words
    decreases |words|
  {
    var w := words[0];
    forall j | 0 <= j < |w| ensures !OccursAt(w, [c], j) {
      assert w[j..j + 1] == [w[j]];
    }
    if |words| == 1 {
      assert Find(w, [c]).None?;
    } else {
      var rest := Join(words[1..], [c]);
      var s := w + [c] + rest;
      assert Join(words, [c]) == s;
      forall j | 0 <= j < |w| ensures !OccursAt(s, [c], j) {
        assert s[j..j + 1] == [w[j]];
      }
      assert s[|w|..|w| + 1] == [c];
      assert FindFrom(s, [c], 0) == Some(|w|) by {
        FindFromLeftmost(s, [c], 0, |w|);
      }
      assert s[..|w|] == w;
      assert s[|w| + 1..] == rest;
      SplitOfJoin(words[1..], c);
    }
  }

  /** The search from i finds the first occurrence at or after i. */
  lemma {:induction false} FindFromLeftmost(s: string, pat: string, i: nat, k: nat)
    requires i <= k <= |s|
    requires OccursAt(s, pat, k)
    requires forall j :: i <= j < k ==> !OccursAt(s, pat, j)
    ensures FindFrom(s, pat, i) == Some(k)
    decreases k - i
  {
    if i < k {
      FindFromLeftmost(s, pat, i + 1, k);
    }
  }

  // ---------------------------------------------------------------------------
  // Lower-casing and integer rendering

  function LowerChar(c: char): char
  {
    if 'A' <= c <= 'Z' then (c as int + 32) as char else c
  }

  /** `s.lower()` restricted to ASCII letters. */
  function Lower(s: string): (r: string)
    ensures |r| == |s|
    ensures forall k :: 0 <= k < |s| ==> r[k] == LowerChar(s[k])
  {
    if s == [] then [] else [LowerChar(s[0])] + Lower(s[1..])
  }

  function Digit(d: nat): char
    requires d < 10
  {
    "0123456789"[d]
  }

  function DigitValue(c: char): nat
  {
    if '0' <= c <= '9' then c as int - '0' as int else 0
  }

  function NatToString(n: nat): (r: string)
    ensures r != []
    ensures forall k :: 0 <= k < |r| ==> '0' <= r[k] <= '9'
  {
    if n < 10 then [Digit(n)] else NatToString(n / 10) + [Digit(n % 10)]
  }

  /** `str(n)` for a Python `int`. */
  function IntToString(n: int): (r: string)
    ensures r != []
  {
    if n < 0 then "-" + NatToString(-n) else NatToString(n)
  }

  function ParseDigits(s: string): nat
  {
    if s == [] then 0 else 10 * ParseDigits(s[..|s| - 1]) + DigitValue(s[|s| - 1])
  }

  /** The decimal rendering reads back as the same number. */
  lemma {:induction false} NatToStringRoundTrip(n: nat)
    ensures ParseDigits(NatToString(n)) == n
  {
    if n >= 10 {
      NatToStringRoundTrip(n / 10);
      var r := NatToString(n);
      assert r[..|r| - 1] == NatToString(n / 10);
    }
  }
}
