// Character classes and string operations of JavaScript that the components rely on.
// A `char` here is a Unicode scalar value, while a JavaScript string is a sequence of
// UTF-16 code units, in which a character outside the Basic Multilingual Plane takes
// two. The regexes and string methods modelled here treat such a pair like one
// character that is neither a space, a digit, a letter they name nor a line
// terminator, so they behave alike on both readings; where JavaScript counts
// `.length` against a number, lengths are counted in code units with `Units`.

module Text {
  import opened Common

  /** LineTerminator: the characters that regex `.` does not match. */
  predicate IsLineTerminator(c: char)
  {
    c == '\n' || c == '\r' || c == '\U{2028}' || c == '\U{2029}'
  }

  /** WhiteSpace or LineTerminator: the set matched by regex `\s` and removed by `trim()`. */
  predicate IsSpace(c: char)
  {
    IsLineTerminator(c) || c == '\t' || c == '\U{000B}' || c == '\U{000C}' || c == ' '
    || c == '\U{00A0}' || c == '\U{1680}' || ('\U{2000}' <= c <= '\U{200A}')
    || c == '\U{202F}' || c == '\U{205F}' || c == '\U{3000}' || c == '\U{FEFF}'
  }

  /** Regex `\d`: ASCII digits only. */
  predicate IsDigit(c: char)
  {
    '0' <= c <= '9'
  }

  /** Case folding of the ASCII letters (what `/i` and `toLowerCase` do to them). */
  function FoldCase(c: char): char
  {
    if 'A' <= c <= 'Z' then (c as int + 32) as char else c
  }

  /** `s.toLowerCase()` restricted to ASCII letters; other characters are kept. */
  function Lower(s: string): string
  {
    seq(|s|, i requires 0 <= i < |s| => FoldCase(s[i]))
  }

  predicate AllSpaces(s: string)
  {
    forall i :: 0 <= i < |s| ==> IsSpace(s[i])
  }

  predicate NoLineTerminator(s: string)
  {
    forall i :: 0 <= i < |s| ==> !IsLineTerminator(s[i])
  }

  /** A string whose characters are all outside a set has no character in it. */
  lemma NoLineTerminatorByMembership(s: string)
    requires '\n' !in s && '\r' !in s && '\U{2028}' !in s && '\U{2029}' !in s
    ensures NoLineTerminator(s)
  {
    forall i | 0 <= i < |s| ensures !IsLineTerminator(s[i]) {
      assert s[i] in s;
    }
  }

  /** `s[i..j]` contains no line terminator. */
  predicate NoLineTerminatorIn(s: string, i: nat, j: nat)
    requires i <= j <= |s|
  {
    forall m :: i <= m < j ==> !IsLineTerminator(s[m])
  }

  /** Number of consecutive spaces in `s` from position `p` on. */
  function SpaceRun(s: string, p: nat): (n: nat)
    requires p <= |s|
    ensures p + n <= |s|
    ensures forall k :: p <= k < p + n ==> IsSpace(s[k])
    ensures p + n == |s| || !IsSpace(s[p + n])
    decreases |s| - p
  {
    if p < |s| && IsSpace(s[p]) then 1 + SpaceRun(s, p + 1) else 0
  }

  /** Number of consecutive spaces in `s` that end just before position `e`,
      counting back no further than position `lo`. */
  function BackSpaceRun(s: string, lo: nat, e: nat): (n: nat)
    requires lo <= e <= |s|
    ensures lo + n <= e
    ensures forall k :: e - n <= k < e ==> IsSpace(s[k])
    ensures e - n == lo || !IsSpace(s[e - n - 1])
    decreases e
  {
    if e > lo && IsSpace(s[e - 1]) then 1 + BackSpaceRun(s, lo, e - 1) else 0
  }

  /** `s.trim()`: the part of `s` between its leading and its trailing spaces. */
  function Trim(s: string): (r: string)
    ensures |r| <= |s|
    ensures r == [] || (!IsSpace(r[0]) && !IsSpace(r[|r| - 1]))
  {
    var a := SpaceRun(s, 0);
    s[a..|s| - BackSpaceRun(s, a, |s|)]
  }

  /** A run of spaces from `p` that stops at `q` is the run `SpaceRun` counts. */
  lemma SpaceRunIs(s: string, p: nat, q: nat)
    requires p <= q <= |s|
    requires forall k :: p <= k < q ==> IsSpace(s[k])
    requires q == |s| || !IsSpace(s[q])
    ensures SpaceRun(s, p) == q - p
  {
  }

  /** A run of spaces ending at `e` that starts at `i` is the run `BackSpaceRun` counts. */
  lemma BackSpaceRunIs(s: string, lo: nat, i: nat, e: nat)
    requires lo <= i <= e <= |s|
    requires forall k :: i <= k < e ==> IsSpace(s[k])
    requires i == lo || !IsSpace(s[i - 1])
    ensures BackSpaceRun(s, lo, e) == e - i
  {
  }

  /** The trim of `s` is the slice between its leading and its trailing spaces,
      whichever way those spaces are counted: any split of `s` into spaces, a core
      with non-space ends, and spaces trims to that core. */
  lemma TrimIsCore(s: string, i: nat, j: nat)
    requires i <= j <= |s|
    requires forall k :: 0 <= k < i ==> IsSpace(s[k])
    requires forall k :: j <= k < |s| ==> IsSpace(s[k])
    requires i == j || (!IsSpace(s[i]) && !IsSpace(s[j - 1]))
    ensures Trim(s) == s[i..j]
  {
    if i == j {
      SpaceRunIs(s, 0, |s|);
      BackSpaceRunIs(s, |s|, |s|, |s|);
    } else {
      SpaceRunIs(s, 0, i);
      BackSpaceRunIs(s, i, j, |s|);
    }
  }

  /** A string that begins and ends with a non-space character is its own trim. */
  lemma TrimOfTrimmed(s: string)
    requires s == [] || (!IsSpace(s[0]) && !IsSpace(s[|s| - 1]))
    ensures Trim(s) == s
  {
    TrimIsCore(s, 0, |s|);
  }

  /** Trimming is idempotent. */
  lemma TrimIdempotent(s: string)
    ensures Trim(Trim(s)) == Trim(s)
  {
    TrimOfTrimmed(Trim(s));
  }

  /** The trim of the slice `s[p..q]`, located in `s` itself: it starts after the
      spaces at `p` and ends before the spaces that run up to `q`. */
  lemma TrimSlice(s: string, p: nat, a: nat, e: nat, q: nat)
    requires p <= a <= e <= q <= |s|
    requires forall k :: p <= k < a ==> IsSpace(s[k])
    requires forall k :: e <= k < q ==> IsSpace(s[k])
    requires a == e || (!IsSpace(s[a]) && !IsSpace(s[e - 1]))
    ensures Trim(s[p..q]) == s[a..e]
  {
    var r := s[p..q];
    forall k | 0 <= k < a - p ensures IsSpace(r[k]) {
      assert r[k] == s[p + k];
    }
    forall k | e - p <= k < |r| ensures IsSpace(r[k]) {
      assert r[k] == s[p + k];
    }
    assert a < e ==> r[a - p] == s[a] && r[e - p - 1] == s[e - 1];
    TrimIsCore(r, a - p, e - p);
    assert r[a - p..e - p] == s[a..e] by {
      forall k | 0 <= k < e - a ensures r[a - p..e - p][k] == s[a..e][k] {
        assert r[a - p..e - p][k] == r[a - p + k] == s[a + k];
      }
    }
  }

  function Min(a: int, b: int): (m: int)
    ensures m <= a && m <= b && (m == a || m == b)
  {
    if a <= b then a else b
  }

  /** Number of consecutive digits in `s` from position `p` on. */
  function DigitRun(s: string, p: nat): (n: nat)
    requires p <= |s|
    ensures p + n <= |s|
    ensures forall k :: p <= k < p + n ==> IsDigit(s[k])
    ensures p + n == |s| || !IsDigit(s[p + n])
    decreases |s| - p
  {
    if p < |s| && IsDigit(s[p]) then 1 + DigitRun(s, p + 1) else 0
  }

  /** `lit` occurs in `s` at position `i`. */
  predicate CharsAt(s: string, i: nat, lit: string)
  {
    i + |lit| <= |s| && s[i..i + |lit|] == lit
  }

  /** `lit` (written in lower case) occurs at position `i` of `s` when ASCII case is ignored:
      the `/i` comparison of a regex literal. */
  predicate CharsAtFolded(s: string, i: nat, lit: string)
  {
    i + |lit| <= |s| && forall k :: 0 <= k < |lit| ==> FoldCase(s[i + k]) == lit[k]
  }

  predicate StartsWith(s: string, prefix: string)
  {
    CharsAt(s, 0, prefix)
  }

  /** `s.includes(k)`. */
  predicate Contains(s: string, k: string)
  {
    exists i :: 0 <= i <= |s| && CharsAt(s, i, k)
  }

  /** Index of the first `c` in `s`, or -1 (`s.indexOf(c)`). */
  function IndexOf(s: string, c: char): (r: int)
    ensures -1 <= r < |s|
    ensures r >= 0 ==> s[r] == c
    ensures forall m :: 0 <= m < |s| && (r == -1 || m < r) ==> s[m] != c
  {
    IndexFrom(s, c, 0)
  }

  /** Index of the first `c` in `s` at or after `p`, or -1. */
  function IndexFrom(s: string, c: char, p: nat): (r: int)
    requires p <= |s|
    ensures r == -1 || p <= r < |s|
    ensures r >= 0 ==> s[r] == c
    ensures forall m :: p <= m < |s| && (r == -1 || m < r) ==> s[m] != c
    decreases |s| - p
  {
    if p == |s| then -1
    else if s[p] == c then p
    else IndexFrom(s, c, p + 1)
  }

  /** `s.split(sep)` for a one-character separator. */
  function Split(s: string, sep: char): (r: seq<string>)
    ensures |r| >= 1
  {
    SplitFrom(s, sep, 0)
  }

  /** The pieces of `s[p..]` between separators. */
  function SplitFrom(s: string, sep: char, p: nat): (r: seq<string>)
    requires p <= |s|
    ensures |r| >= 1
    decreases |s| - p
  {
    var i := IndexFrom(s, sep, p);
    if i == -1 then [s[p..]] else [s[p..i]] + SplitFrom(s, sep, i + 1)
  }

  /** `pieces.join(sep)`. */
  function Join(pieces: seq<string>, sep: char): string
    decreases |pieces|
  {
    if |pieces| == 0 then ""
    else if |pieces| == 1 then pieces[0]
    else pieces[0] + [sep] + Join(pieces[1..], sep)
  }

  /** Joining the pieces of a split gives back the string. */
  lemma JoinSplit(s: string, sep: char)
    ensures Join(Split(s, sep), sep) == s
  {
    JoinSplitFrom(s, sep, 0);
  }

  lemma {:induction false} JoinSplitFrom(s: string, sep: char, p: nat)
    requires p <= |s|
    ensures Join(SplitFrom(s, sep, p), sep) == s[p..]
    decreases |s| - p
  {
    var i := IndexFrom(s, sep, p);
    if i == -1 {
      assert SplitFrom(s, sep, p) == [s[p..]];
      assert Join([s[p..]], sep) == s[p..];
    } else {
      var tail := SplitFrom(s, sep, i + 1);
      assert SplitFrom(s, sep, p) == [s[p..i]] + tail;
      JoinSplitFrom(s, sep, i + 1);
      JoinCons(s[p..i], tail, sep);
      SliceAround(s, p, i, sep);
      assert Join([s[p..i]] + tail, sep) == s[p..];
    }
  }

  lemma JoinCons(h: string, tail: seq<string>, sep: char)
    requires |tail| >= 1
    ensures Join([h] + tail, sep) == h + [sep] + Join(tail, sep)
  {
    assert ([h] + tail)[1..] == tail;
  }

  lemma SliceAround(s: string, p: nat, i: nat, c: char)
    requires p <= i < |s| && s[i] == c
    ensures s[p..] == s[p..i] + [c] + s[i + 1..]
  {
  }

  /** The first separator at or after `p` is at `q`, or there is none (`q == |s|`). */
  lemma IndexFromIs(s: string, c: char, p: nat, q: nat)
    requires p <= q <= |s|
    requires forall m :: p <= m < q ==> s[m] != c
    requires q == |s| || s[q] == c
    ensures IndexFrom(s, c, p) == (if q == |s| then -1 else q)
  {
    var r := IndexFrom(s, c, p);
    if q < |s| {
      assert s[q] != c || r != -1;
    }
  }

  /** Splitting a join of separator-free pieces gives back the pieces. */
  lemma {:induction false} SplitJoin(pieces: seq<string>, sep: char)
    requires |pieces| >= 1
    requires forall i :: 0 <= i < |pieces| ==> sep !in pieces[i]
    ensures Split(Join(pieces, sep), sep) == pieces
    decreases |pieces|
  {
    var h := pieces[0];
    assert sep !in h;
    if |pieces| == 1 {
      assert Join(pieces, sep) == h;
      NoSeparatorNoSplit(h, sep);
    } else {
      var rest := pieces[1..];
      var y := Join(rest, sep);
      var x := h + [sep];
      assert Join(pieces, sep) == x + y;
      assert sep !in rest[0];
      SplitJoin(rest, sep);
      SplitAfterFirst(h, y, sep);
      SplitFromShift(x, y, sep, 0);
      ConsCongruence(h, h, SplitFrom(x + y, sep, |x|), rest);
      assert [h] + rest == pieces;
    }
  }

  lemma NoSeparatorNoSplit(h: string, sep: char)
    requires sep !in h
    ensures Split(h, sep) == [h]
  {
    forall m | 0 <= m < |h| ensures h[m] != sep {
      assert h[m] in h;
    }
    IndexFromIs(h, sep, 0, |h|);
    assert h[0..] == h;
  }

  /** A separator-free first piece followed by the separator splits off as one piece. */
  lemma SplitAfterFirst(h: string, y: string, sep: char)
    requires sep !in h
    ensures Split(h + [sep] + y, sep) == [h] + SplitFrom(h + [sep] + y, sep, |h| + 1)
  {
    var s := h + [sep] + y;
    forall m | 0 <= m < |h| ensures s[m] != sep {
      assert s[m] == h[m];
      assert h[m] in h;
    }
    assert s[|h|] == sep;
    IndexFromIs(s, sep, 0, |h|);
    assert s[0..|h|] == h;
    ConsCongruence(s[0..|h|], h, SplitFrom(s, sep, |h| + 1), SplitFrom(s, sep, |h| + 1));
  }

  /** Searching past a prefix finds what searching the rest finds, shifted. */
  lemma IndexFromShift(x: string, y: string, c: char, p: nat)
    requires p <= |y|
    ensures IndexFrom(x + y, c, |x| + p) == (if IndexFrom(y, c, p) == -1 then -1 else |x| + IndexFrom(y, c, p))
  {
    var s := x + y;
    var r := IndexFrom(y, c, p);
    var q := if r == -1 then |y| else r;
    forall m | |x| + p <= m < |x| + q ensures s[m] != c {
      assert s[m] == y[m - |x|];
    }
    if r != -1 {
      assert s[|x| + q] == y[q];
    }
    IndexFromIs(s, c, |x| + p, |x| + q);
  }

  /** Splitting past a prefix gives the pieces of the rest. */
  lemma {:induction false} SplitFromShift(x: string, y: string, sep: char, p: nat)
    requires p <= |y|
    ensures SplitFrom(x + y, sep, |x| + p) == SplitFrom(y, sep, p)
    decreases |y| - p
  {
    var s := x + y;
    var i := IndexFrom(y, sep, p);
    IndexFromShift(x, y, sep, p);
    if i == -1 {
      assert s[|x| + p..] == y[p..];
      assert SplitFrom(s, sep, |x| + p) == [s[|x| + p..]];
      assert SplitFrom(y, sep, p) == [y[p..]];
    } else {
      assert s[|x| + p..|x| + i] == y[p..i];
      SplitFromShift(x, y, sep, i + 1);
      assert SplitFrom(s, sep, |x| + p) == [s[|x| + p..|x| + i]] + SplitFrom(s, sep, |x| + i + 1);
      assert SplitFrom(y, sep, p) == [y[p..i]] + SplitFrom(y, sep, i + 1);
      ConsCongruence(s[|x| + p..|x| + i], y[p..i], SplitFrom(s, sep, |x| + i + 1), SplitFrom(y, sep, i + 1));
    }
  }

  lemma ConsCongruence<T>(a: T, b: T, u: seq<T>, v: seq<T>)
    requires a == b && u == v
    ensures [a] + u == [b] + v
  {
  }

  /** A character absent from every piece and different from the separator is absent from the join. */
  lemma {:induction false} NotInJoin(pieces: seq<string>, sep: char, c: char)
    requires c != sep
    requires forall i :: 0 <= i < |pieces| ==> c !in pieces[i]
    ensures c !in Join(pieces, sep)
    decreases |pieces|
  {
    if |pieces| > 1 {
      NotInJoin(pieces[1..], sep, c);
    }
  }

  /** Decimal digits of a natural number, most significant first. */
  function NatToString(n: nat): (r: string)
    ensures |r| >= 1
    ensures forall i :: 0 <= i < |r| ==> IsDigit(r[i])
    decreases n
  {
    if n < 10 then [('0' as int + n) as char]
    else NatToString(n / 10) + [('0' as int + n % 10) as char]
  }

  function DigitValue(c: char): nat
    requires IsDigit(c)
  {
    c as int - '0' as int
  }

  /** Value of a string of decimal digits. */
  function DigitsValue(s: string): nat
    requires forall i :: 0 <= i < |s| ==> IsDigit(s[i])
    decreases |s|
  {
    if s == [] then 0 else DigitsValue(s[..|s| - 1]) * 10 + DigitValue(s[|s| - 1])
  }

  /** Reading back the decimal form of `n` gives `n`. */
  lemma {:induction false} NatToStringValue(n: nat)
    ensures DigitsValue(NatToString(n)) == n
    decreases n
  {
    if n >= 10 {
      NatToStringValue(n / 10);
      var r := NatToString(n);
      assert r[..|r| - 1] == NatToString(n / 10);
    }
  }

  /** `String(n)` for an integer. */
  function IntToString(n: int): string
  {
    if n < 0 then "-" + NatToString(-n) else NatToString(n)
  }

  /** The number of UTF-16 code units a character takes. */
  function Width(c: char): (w: nat)
    ensures w == 1 || w == 2
    ensures w == 2 <==> c as int >= 0x1_0000
  {
    if c as int >= 0x1_0000 then 2 else 1
  }

  /** `s.length` in JavaScript: the number of UTF-16 code units. */
  function Units(s: string): nat
  {
    if s == [] then 0 else Width(s[0]) + Units(s[1..])
  }

  /** A character takes at least one code unit and at most two. */
  lemma {:induction false} UnitsBounds(s: string)
    ensures |s| <= Units(s) <= 2 * |s|
    ensures Units(s) == |s| <==> forall i :: 0 <= i < |s| ==> s[i] as int < 0x1_0000
  {
    if s != [] {
      UnitsBounds(s[1..]);
      assert forall i :: 1 <= i < |s| ==> s[i] == s[1..][i - 1];
    }
  }

  lemma {:induction false} UnitsAppend(a: string, b: string)
    ensures Units(a + b) == Units(a) + Units(b)
  {
    if a == [] {
      assert a + b == b;
    } else {
      assert (a + b)[0] == a[0] && (a + b)[1..] == a[1..] + b;
      UnitsAppend(a[1..], b);
    }
  }

  /** `s.substring(0, n)` as far as whole characters go: the longest prefix of
      `s` taking at most `n` code units. */
  function TakeUnits(s: string, n: nat): (r: string)
    ensures |r| <= |s| && r == s[..|r|]
    ensures Units(r) <= n
    ensures |r| < |s| ==> Units(r) + Width(s[|r|]) > n
  {
    if s == [] || Width(s[0]) > n then ""
    else
      var rest := TakeUnits(s[1..], n - Width(s[0]));
      assert ([s[0]] + rest)[1..] == rest;
      [s[0]] + rest
  }

  /** When `s` has more than `n` code units, the prefix falls short of `n` by
      at most one: the high half of a pair the cut goes through. */
  lemma TakeUnitsFull(s: string, n: nat)
    requires Units(s) > n
    ensures Units(TakeUnits(s, n)) >= n - 1
  {
    var r := TakeUnits(s, n);
    if |r| == |s| {
      assert r == s;
    }
  }
}
