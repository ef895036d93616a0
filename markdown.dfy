// `parseMarkdown` (ChatInterface.jsx): every `**text**` on one line becomes
// `<strong>text</strong>`; everything else is copied.

module Markdown {
  import opened Common
  import opened Text

  const Open: string := "<strong>"
  const Close: string := "</strong>"

  /** Two asterisks start at `i`. */
  predicate StarsAt(s: string, i: nat)
  {
    i + 1 < |s| && s[i] == '*' && s[i + 1] == '*'
  }

  /** Where the lazy `(.*?)` followed by `**` that starts at `j` stops: the
      first `**` at or after `j` with no line end before it, since `.` does not
      match one. */
  function CloseFrom(s: string, j: nat): (r: Option<nat>)
    requires j <= |s|
    ensures r.Some? ==> j <= r.value && StarsAt(s, r.value)
    ensures r.Some? ==> forall k :: j <= k < r.value ==> !IsLineTerminator(s[k]) && !StarsAt(s, k)
    decreases |s| - j
  {
    if StarsAt(s, j) then Some(j)
    else if j < |s| && !IsLineTerminator(s[j]) then CloseFrom(s, j + 1)
    else None
  }

  /** The global replace of a lazy `**(.*?)**` by `<strong>$1</strong>`: the
      pattern is tried at each position from the left; a match is replaced and
      scanning goes on after it, otherwise the character is copied. */
  function Bold(s: string): string
    decreases |s|
  {
    if s == [] then []
    else if StarsAt(s, 0) && CloseFrom(s, 2).Some? then
      var j := CloseFrom(s, 2).value;
      Open + s[2..j] + Close + Bold(s[j + 2..])
    else [s[0]] + Bold(s[1..])
  }

  /** `parseMarkdown(text)`: an empty text is returned as it is. */
  function ParseMarkdown(text: string): string
  {
    if text == "" then text else Bold(text)
  }

  /** A text without `*` is left alone. */
  lemma NoStarsUnchanged(s: string)
    requires forall i :: 0 <= i < |s| ==> s[i] != '*'
    ensures ParseMarkdown(s) == s
  {
    StarFreePrefix(s, []);
    assert s + [] == s;
  }

  /** A star-free prefix is copied and does not change how the rest is read. */
  lemma {:induction false} StarFreePrefix(x: string, z: string)
    requires forall i :: 0 <= i < |x| ==> x[i] != '*'
    ensures Bold(x + z) == x + Bold(z)
    decreases |x|
  {
    if x == [] {
      assert x + z == z;
    } else {
      var s := x + z;
      assert s[0] == x[0];
      assert s[1..] == x[1..] + z;
      StarFreePrefix(x[1..], z);
      assert !StarsAt(s, 0);
      assert Bold(s) == [x[0]] + (x[1..] + Bold(z));
      assert [x[0]] + (x[1..] + Bold(z)) == x + Bold(z);
    }
  }

  /** A star-free, single-line `b` between two `**` becomes bold, and reading
      goes on right after the closing `**`. */
  lemma Emphasised(b: string, y: string)
    requires forall i :: 0 <= i < |b| ==> b[i] != '*' && !IsLineTerminator(b[i])
    ensures Bold("**" + b + "**" + y) == Open + b + Close + Bold(y)
  {
    var s := "**" + b + "**" + y;
    CloseAfter(s, b, y, 2);
    assert s[2..2 + |b|] == b;
    assert s[2 + |b| + 2..] == y;
  }

  lemma {:induction false} CloseAfter(s: string, b: string, y: string, j: nat)
    requires s == "**" + b + "**" + y
    requires forall i :: 0 <= i < |b| ==> b[i] != '*' && !IsLineTerminator(b[i])
    requires 2 <= j <= 2 + |b|
    ensures CloseFrom(s, j) == Some(2 + |b|)
    decreases 2 + |b| - j
  {
    if j < 2 + |b| {
      assert s[j] == b[j - 2];
      CloseAfter(s, b, y, j + 1);
    } else {
      assert s[j] == '*' && s[j + 1] == '*';
    }
  }

  /** A whole text: star-free parts around one emphasised phrase. */
  lemma EmphasisedInside(x: string, b: string, y: string)
    requires forall i :: 0 <= i < |x| ==> x[i] != '*'
    requires forall i :: 0 <= i < |b| ==> b[i] != '*' && !IsLineTerminator(b[i])
    requires forall i :: 0 <= i < |y| ==> y[i] != '*'
    ensures ParseMarkdown(x + "**" + b + "**" + y) == x + Open + b + Close + y
  {
    var m := "**" + b + "**" + y;
    assert x + "**" + b + "**" + y == x + m;
    StarFreePrefix(x, m);
    Emphasised(b, y);
    StarFreePrefix(y, []);
    assert y + [] == y;
    assert Bold(y) == y;
  }
}
