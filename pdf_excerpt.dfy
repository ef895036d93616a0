// The document excerpt that `handleQuizConfigSubmit` (ChatInterface.jsx) puts into
// a prompt: text longer than 8000 UTF-16 code units is cut at `--- Page N ---`
// markers into pages, and the longest run of leading pages that fits is used.

module PdfExcerpt {
  import opened Text

  const MaxChunkSize: nat := 8000

  /** `/--- Page \d+ ---/` matches at `i`. The digits are taken greedily, and
      giving one back cannot help since a digit is not the space that follows. */
  predicate MarkerAt(s: string, i: nat)
  {
    i + 9 <= |s| && s[i..i + 9] == "--- Page "
    && DigitRun(s, i + 9) >= 1 && CharsAt(s, i + 9 + DigitRun(s, i + 9), " ---")
  }

  function MarkerEnd(s: string, i: nat): (e: nat)
    requires MarkerAt(s, i)
    ensures i + 14 <= e <= |s|
  {
    i + 9 + DigitRun(s, i + 9) + 4
  }

  /** `s.split(/--- Page \d+ ---/)` from the end `p` of the last match, looking
      for the next match from `q` on. */
  function PagesFrom(s: string, p: nat, q: nat): (r: seq<string>)
    requires p <= q <= |s|
    ensures |r| >= 1
    decreases |s| - q
  {
    if q == |s| then [s[p..]]
    else if MarkerAt(s, q) then [s[p..q]] + PagesFrom(s, MarkerEnd(s, q), MarkerEnd(s, q))
    else PagesFrom(s, p, q + 1)
  }

  function Pages(s: string): (r: seq<string>)
    ensures |r| >= 1
  {
    PagesFrom(s, 0, 0)
  }

  function Concat(pages: seq<string>): (r: string)
    ensures Units(r) == Total(pages)
  {
    if pages == [] then ""
    else
      UnitsAppend(pages[0], Concat(pages[1..]));
      pages[0] + Concat(pages[1..])
  }

  /** The summed `.length` of the pages, in code units. */
  function Total(pages: seq<string>): nat
  {
    if pages == [] then 0 else Units(pages[0]) + Total(pages[1..])
  }

  /** How many leading pages the loop takes when `used` code units are already
      taken: it stops at the first page that would overflow the limit. */
  function FitCount(pages: seq<string>, used: nat, limit: nat): (k: nat)
    ensures k <= |pages|
  {
    if pages == [] || used + Units(pages[0]) > limit then 0
    else 1 + FitCount(pages[1..], used + Units(pages[0]), limit)
  }

  /** The excerpt: the content itself when it fits, else the leading pages that
      fit, else (when not even the first page fits) the first 8000 code units. */
  function Excerpt(content: string): string
  {
    if Units(content) <= MaxChunkSize then content
    else
      var pages := Pages(content);
      var chunk := Concat(pages[..FitCount(pages, 0, MaxChunkSize)]);
      if chunk != "" then chunk else TakeUnits(content, MaxChunkSize)
  }

  /** The chunking loop of `handleQuizConfigSubmit`. */
  method ChunkExcerpt(content: string) returns (excerpt: string)
    ensures excerpt == Excerpt(content)
  {
    excerpt := content;
    if Units(content) > MaxChunkSize {
      var pages := Pages(content);
      var chunked := "";
      var currentLength := 0;
      var i := 0;
      while i < |pages|
        invariant 0 <= i <= |pages|
        invariant chunked == Concat(pages[..i]) && currentLength == Units(chunked)
        invariant FitCount(pages, 0, MaxChunkSize) == i + FitCount(pages[i..], currentLength, MaxChunkSize)
      {
        if currentLength + Units(pages[i]) <= MaxChunkSize {
          ConcatSnoc(pages, i);
          UnitsAppend(chunked, pages[i]);
          assert pages[i..][1..] == pages[i + 1..];
          chunked := chunked + pages[i];
          currentLength := currentLength + Units(pages[i]);
          i := i + 1;
        } else {
          break;
        }
      }
      assert chunked == Concat(pages[..FitCount(pages, 0, MaxChunkSize)]);
      excerpt := if chunked != "" then chunked else TakeUnits(content, MaxChunkSize);
    }
  }

  lemma ConcatSnoc(pages: seq<string>, i: nat)
    requires i < |pages|
    ensures Concat(pages[..i + 1]) == Concat(pages[..i]) + pages[i]
  {
    ConcatAppend(pages[..i], [pages[i]]);
    assert pages[..i] + [pages[i]] == pages[..i + 1];
    assert Concat([pages[i]]) == pages[i] + "";
  }

  lemma {:induction false} ConcatAppend(a: seq<string>, b: seq<string>)
    ensures Concat(a + b) == Concat(a) + Concat(b)
  {
    if a == [] {
      assert a + b == b;
    } else {
      assert (a + b)[1..] == a[1..] + b;
      ConcatAppend(a[1..], b);
    }
  }

  /** The pages the loop takes are the longest run of leading pages whose
      total length stays within the limit. */
  lemma {:induction false} FitCountLongest(pages: seq<string>, used: nat, limit: nat)
    requires used <= limit
    ensures var k := FitCount(pages, used, limit);
      && used + Total(pages[..k]) <= limit
      && forall j :: k < j <= |pages| ==> used + Total(pages[..j]) > limit
  {
    var k := FitCount(pages, used, limit);
    if pages == [] {
    } else if used + Units(pages[0]) > limit {
      forall j | k < j <= |pages| ensures used + Total(pages[..j]) > limit {
        assert pages[..j][0] == pages[0];
        TotalAtLeastFirst(pages[..j]);
      }
    } else {
      FitCountLongest(pages[1..], used + Units(pages[0]), limit);
      assert pages[..k][1..] == pages[1..][..k - 1];
      forall j | k < j <= |pages| ensures used + Total(pages[..j]) > limit {
        assert pages[..j][1..] == pages[1..][..j - 1];
      }
    }
  }

  lemma TotalAtLeastFirst(pages: seq<string>)
    requires pages != []
    ensures Total(pages) >= Units(pages[0])
  {
  }

  /** The excerpt never exceeds the limit in code units, content within the
      limit is used unchanged, and the cut of last resort keeps the beginning of
      the content, at most one code unit short of the limit. */
  lemma ExcerptBound(content: string)
    ensures Units(Excerpt(content)) <= MaxChunkSize
    ensures Units(content) <= MaxChunkSize ==> Excerpt(content) == content
    ensures Units(content) > MaxChunkSize && Excerpt(content) == TakeUnits(content, MaxChunkSize) ==>
      Units(Excerpt(content)) >= MaxChunkSize - 1
  {
    if Units(content) > MaxChunkSize {
      var pages := Pages(content);
      FitCountLongest(pages, 0, MaxChunkSize);
      TakeUnitsFull(content, MaxChunkSize);
    }
  }

  /** Text of characters in the Basic Multilingual Plane is measured by its
      number of characters. */
  lemma BmpUnits(s: string)
    requires forall i :: 0 <= i < |s| ==> s[i] as int < 0x1_0000
    ensures Units(s) == |s|
  {
    UnitsBounds(s);
  }

  /** Text without a marker is a single page. */
  lemma NoMarkerOnePage(s: string)
    requires forall i :: 0 <= i < |s| ==> !MarkerAt(s, i)
    ensures Pages(s) == [s]
  {
    NoMarkerFrom(s, 0, 0);
  }

  lemma {:induction false} NoMarkerFrom(s: string, p: nat, q: nat)
    requires p <= q <= |s|
    requires forall i :: q <= i < |s| ==> !MarkerAt(s, i)
    ensures PagesFrom(s, p, q) == [s[p..]]
    decreases |s| - q
  {
    if q < |s| {
      NoMarkerFrom(s, p, q + 1);
    }
  }

  /** `--- Page N ---` for the decimal page number `n`. */
  function Marker(n: string): string
  {
    "--- Page " + n + " ---"
  }

  /** A page marker between a text without hyphens and the rest splits off that
      text as the first page: the marker itself is dropped. */
  lemma MarkerSplits(x: string, n: string, y: string)
    requires '-' !in x && |n| >= 1 && forall k :: 0 <= k < |n| ==> IsDigit(n[k])
    ensures Pages(x + Marker(n) + y) == [x] + Pages(y)
  {
    var s := x + Marker(n) + y;
    var pre := x + Marker(n);
    HyphenFreeNoMarker(x, Marker(n) + y);
    assert x + (Marker(n) + y) == s && s == pre + y;
    MarkerShape(x, n, y);
    assert s[..|x|] == x;
    SplitOff(s, x, pre, y);
  }

  /** A text whose first marker ends where `pre` ends splits into what comes
      before that marker and the pages of the rest. */
  lemma SplitOff(s: string, x: string, pre: string, y: string)
    requires s == pre + y && |x| < |s| && s[..|x|] == x
    requires forall i :: 0 <= i < |x| ==> !MarkerAt(s, i)
    requires MarkerAt(s, |x|) && MarkerEnd(s, |x|) == |pre|
    ensures Pages(s) == [x] + Pages(y)
  {
    SkipNoMarker(s, 0, 0, |x|);
    PagesFromShift(pre, y, 0, 0);
  }

  /** No marker starts inside a text without hyphens. */
  lemma HyphenFreeNoMarker(x: string, z: string)
    requires '-' !in x
    ensures forall i :: 0 <= i < |x| ==> !MarkerAt(x + z, i)
  {
    forall i | 0 <= i < |x| ensures !MarkerAt(x + z, i) {
      assert (x + z)[i] == x[i] && x[i] in x;
      if i + 9 <= |x + z| {
        assert (x + z)[i..i + 9][0] == (x + z)[i];
      }
    }
  }

  lemma MarkerShape(x: string, n: string, y: string)
    requires |n| >= 1 && forall k :: 0 <= k < |n| ==> IsDigit(n[k])
    ensures MarkerAt(x + Marker(n) + y, |x|)
    ensures MarkerEnd(x + Marker(n) + y, |x|) == |x + Marker(n)|
  {
    var s := x + Marker(n) + y;
    var d := |x| + 9;
    assert s[|x|..d] == "--- Page ";
    forall k | d <= k < d + |n| ensures IsDigit(s[k]) {
      assert s[k] == n[k - d];
    }
    assert s[d + |n|] == ' ';
    DigitRunIs(s, d, d + |n|);
    assert s[d + |n|..d + |n| + 4] == " ---";
  }

  lemma {:induction false} SkipNoMarker(s: string, p: nat, q: nat, r: nat)
    requires p <= q <= r <= |s|
    requires forall i :: q <= i < r ==> !MarkerAt(s, i)
    ensures PagesFrom(s, p, q) == PagesFrom(s, p, r)
    decreases r - q
  {
    if q < r {
      SkipNoMarker(s, p, q + 1, r);
    }
  }

  lemma DigitRunIs(s: string, p: nat, q: nat)
    requires p <= q <= |s|
    requires forall k :: p <= k < q ==> IsDigit(s[k])
    requires q == |s| || !IsDigit(s[q])
    ensures DigitRun(s, p) == q - p
    decreases q - p
  {
    if p < q {
      DigitRunIs(s, p + 1, q);
    }
  }

  lemma {:induction false} DigitRunShift(x: string, y: string, p: nat)
    requires p <= |y|
    ensures DigitRun(x + y, |x| + p) == DigitRun(y, p)
    decreases |y| - p
  {
    if p < |y| {
      assert (x + y)[|x| + p] == y[p];
      DigitRunShift(x, y, p + 1);
    }
  }

  lemma MarkerAtShift(x: string, y: string, i: nat)
    requires i <= |y|
    ensures MarkerAt(x + y, |x| + i) == MarkerAt(y, i)
  {
    if i + 9 <= |y| {
      SliceShift(x, y, i, i + 9);
      DigitRunShift(x, y, i + 9);
      var j := i + 9 + DigitRun(y, i + 9);
      assert |x| + i + 9 + DigitRun(x + y, |x| + i + 9) == |x| + j;
      CharsAtShift(x, y, j, " ---");
    }
  }

  lemma MarkerEndShift(x: string, y: string, i: nat)
    requires i <= |y| && MarkerAt(y, i)
    ensures MarkerAt(x + y, |x| + i) && MarkerEnd(x + y, |x| + i) == |x| + MarkerEnd(y, i)
  {
    MarkerAtShift(x, y, i);
    DigitRunShift(x, y, i + 9);
  }

  lemma SliceShift(x: string, y: string, a: nat, b: nat)
    requires a <= b <= |y|
    ensures (x + y)[|x| + a..|x| + b] == y[a..b]
  {
  }

  lemma CharsAtShift(x: string, y: string, a: nat, lit: string)
    ensures CharsAt(x + y, |x| + a, lit) == CharsAt(y, a, lit)
  {
    if a + |lit| <= |y| {
      SliceShift(x, y, a, a + |lit|);
    }
  }

  /** Splitting does not depend on what came before the position it starts
      from. */
  lemma {:induction false} PagesFromShift(x: string, y: string, p: nat, q: nat)
    requires p <= q <= |y|
    ensures PagesFrom(x + y, |x| + p, |x| + q) == PagesFrom(y, p, q)
    decreases |y| - q
  {
    if q == |y| {
      assert (x + y)[|x| + p..] == y[p..];
    } else if MarkerAt(y, q) {
      var e := MarkerEnd(y, q);
      PagesFromShift(x, y, e, e);
      ShiftAtMarker(x, y, p, q);
    } else {
      PagesFromShift(x, y, p, q + 1);
      ShiftPastPosition(x, y, p, q);
    }
  }

  lemma ShiftAtMarker(x: string, y: string, p: nat, q: nat)
    requires p <= q < |y| && MarkerAt(y, q)
    requires PagesFrom(x + y, |x| + MarkerEnd(y, q), |x| + MarkerEnd(y, q)) == PagesFrom(y, MarkerEnd(y, q), MarkerEnd(y, q))
    ensures PagesFrom(x + y, |x| + p, |x| + q) == PagesFrom(y, p, q)
  {
    MarkerEndShift(x, y, q);
    SliceShift(x, y, p, q);
  }

  lemma ShiftPastPosition(x: string, y: string, p: nat, q: nat)
    requires p <= q < |y| && !MarkerAt(y, q)
    requires PagesFrom(x + y, |x| + p, |x| + q + 1) == PagesFrom(y, p, q + 1)
    ensures PagesFrom(x + y, |x| + p, |x| + q) == PagesFrom(y, p, q)
  {
    MarkerAtShift(x, y, q);
  }
}
