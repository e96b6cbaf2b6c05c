/**
 * Order-preserving selection from a list, the behaviour of `Array.prototype.filter`
 * that every cull in the game loop relies on.
 */
module Lists {

  /** The elements of `s` that satisfy `keep`, in their original order. */
  function Filter<T>(s: seq<T>, keep: T -> bool): (r: seq<T>)
    ensures |r| <= |s|
    ensures forall k :: 0 <= k < |r| ==> r[k] in s && keep(r[k])
    ensures forall i :: 0 <= i < |s| && keep(s[i]) ==> s[i] in r
  {
    if s == [] then []
    else (if keep(s[0]) then [s[0]] else []) + Filter(s[1..], keep)
  }

  /** Filtering distributes over concatenation. */
  lemma {:induction false} FilterAppend<T>(a: seq<T>, b: seq<T>, keep: T -> bool)
    ensures Filter(a + b, keep) == Filter(a, keep) + Filter(b, keep)
  {
    if a == [] {
      assert a + b == b;
    } else {
      assert (a + b)[0] == a[0];
      assert (a + b)[1..] == a[1..] + b;
      FilterAppend(a[1..], b, keep);
    }
  }

  /**
   * A kept element `s[i]` lands in the result at the position given by the number of
   * kept elements before it.
   */
  lemma {:induction false} FilterPosition<T>(s: seq<T>, keep: T -> bool, i: nat)
    requires i < |s| && keep(s[i])
    ensures |Filter(s[..i], keep)| < |Filter(s, keep)|
    ensures Filter(s, keep)[|Filter(s[..i], keep)|] == s[i]
  {
    assert s == s[..i] + s[i..];
    FilterAppend(s[..i], s[i..], keep);
    assert s[i..][0] == s[i];
    assert Filter(s[i..], keep) == [s[i]] + Filter(s[i..][1..], keep);
  }

  /**
   * Filtering preserves relative order: two kept elements `s[i]`, `s[j]` with `i < j`
   * appear in the result at positions `a < b`.
   */
  lemma {:induction false} FilterKeepsOrder<T>(s: seq<T>, keep: T -> bool, i: nat, j: nat)
    requires i < j < |s| && keep(s[i]) && keep(s[j])
    ensures |Filter(s[..i], keep)| < |Filter(s[..j], keep)| < |Filter(s, keep)|
    ensures Filter(s, keep)[|Filter(s[..i], keep)|] == s[i]
    ensures Filter(s, keep)[|Filter(s[..j], keep)|] == s[j]
  {
    FilterPosition(s, keep, i);
    FilterPosition(s, keep, j);
    var prefix := s[..j];
    assert prefix[..i] == s[..i];
    FilterPosition(prefix, keep, i);
  }
}
