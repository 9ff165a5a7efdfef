/** Counting the entries of a sequence that equal a value. */
module Counting {
  function CountOf<T(==)>(s: seq<T>, v: T): nat {
    if s == [] then 0 else CountOf(s[..|s| - 1], v) + (if s[|s| - 1] == v then 1 else 0)
  }

  lemma CountSnoc<T>(s: seq<T>, x: T, v: T)
    ensures CountOf(s + [x], v) == CountOf(s, v) + (if x == v then 1 else 0)
  {
    assert (s + [x])[..|s|] == s;
  }

  lemma {:induction false} CountAfterUpdate<T>(s: seq<T>, i: nat, x: T, v: T)
    requires i < |s|
    ensures CountOf(s[i := x], v) + (if s[i] == v then 1 else 0) == CountOf(s, v) + (if x == v then 1 else 0)
  {
    var n := |s| - 1;
    if i < n {
      CountAfterUpdate(s[..n], i, x, v);
      assert s[i := x][..n] == s[..n][i := x];
    } else {
      assert s[i := x][..n] == s[..n];
    }
  }
}
