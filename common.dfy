// Small shared vocabulary: optional values, JavaScript's `||` on stored strings,
// and the order-preserving `Array.prototype.filter` that several components use.

module Common {

  datatype Option<T> = None | Some(value: T)

  /** JavaScript `a || b` where both sides are strings read from storage:
      an absent (null) or empty string is falsy and falls through to `b`. */
  function OrElse(a: Option<string>, b: Option<string>): (r: Option<string>)
    ensures a.Some? && a.value != "" ==> r == a
    ensures (a.None? || a.value == "") ==> r == b
  {
    if a.Some? && a.value != "" then a else b
  }

  /** A preference kept under a current and a legacy storage key:
      `getItem(current) || getItem(legacy) || fallback`. */
  function StoredPreference(current: Option<string>, legacy: Option<string>, fallback: string): (r: string)
    ensures current.Some? && current.value != "" ==> r == current.value
    ensures (current.None? || current.value == "") && legacy.Some? && legacy.value != "" ==> r == legacy.value
    ensures (current.None? || current.value == "") && (legacy.None? || legacy.value == "") ==> r == fallback
  {
    var saved := OrElse(current, legacy);
    if saved.Some? && saved.value != "" then saved.value else fallback
  }

  /** `s.filter(p)`: the elements of `s` that satisfy `p`, in their original order. */
  function Filter<T(!new)>(p: T -> bool, s: seq<T>): (r: seq<T>)
    ensures |r| <= |s|
    ensures forall x :: x in r <==> x in s && p(x)
    ensures forall i :: 0 <= i < |r| ==> p(r[i])
  {
    if s == [] then []
    else if p(s[0]) then [s[0]] + Filter(p, s[1..])
    else Filter(p, s[1..])
  }

  /** Filtering commutes with concatenation, so the kept elements keep their relative order. */
  lemma {:induction false} FilterAppend<T(!new)>(p: T -> bool, a: seq<T>, b: seq<T>)
    ensures Filter(p, a + b) == Filter(p, a) + Filter(p, b)
  {
    if a == [] {
      assert a + b == b;
    } else {
      assert (a + b)[0] == a[0];
      assert (a + b)[1..] == a[1..] + b;
      FilterAppend(p, a[1..], b);
    }
  }

  /** A filter that keeps every element is the identity; one that keeps none is empty. */
  lemma {:induction false} FilterAllOrNone<T(!new)>(p: T -> bool, s: seq<T>)
    ensures (forall i :: 0 <= i < |s| ==> p(s[i])) ==> Filter(p, s) == s
    ensures (forall i :: 0 <= i < |s| ==> !p(s[i])) ==> Filter(p, s) == []
  {
    if s != [] {
      FilterAllOrNone(p, s[1..]);
      if forall i :: 0 <= i < |s| ==> p(s[i]) {
        assert forall i :: 0 <= i < |s[1..]| ==> p(s[1..][i]) by {
          forall i | 0 <= i < |s[1..]| ensures p(s[1..][i]) { assert s[1..][i] == s[i + 1]; }
        }
      }
      if forall i :: 0 <= i < |s| ==> !p(s[i]) {
        assert forall i :: 0 <= i < |s[1..]| ==> !p(s[1..][i]) by {
          forall i | 0 <= i < |s[1..]| ensures !p(s[1..][i]) { assert s[1..][i] == s[i + 1]; }
        }
      }
    }
  }

  /** Number of elements of `s` that satisfy `p` (`s.filter(p).length`). */
  function Count<T(!new)>(p: T -> bool, s: seq<T>): (n: nat)
    ensures n == |Filter(p, s)|
    ensures n <= |s|
  {
    if s == [] then 0 else (if p(s[0]) then 1 else 0) + Count(p, s[1..])
  }

  /** Some element satisfies `p` exactly when the count is positive. */
  lemma CountPositive<T(!new)>(p: T -> bool, s: seq<T>)
    ensures Count(p, s) > 0 <==> exists i :: 0 <= i < |s| && p(s[i])
  {
    var kept := Filter(p, s);
    if Count(p, s) > 0 {
      assert kept[0] in kept;
      var i :| 0 <= i < |s| && s[i] == kept[0];
    }
    if exists i :: 0 <= i < |s| && p(s[i]) {
      var i :| 0 <= i < |s| && p(s[i]);
      assert s[i] in kept;
    }
  }
}
