/** Sequence searching as the page script's `Array.prototype.indexOf` does it. */
module Seqs {

  /** `s.indexOf(x)`: the position of the FIRST occurrence of `x` in `s`,
      or -1 when `x` does not occur. */
  function IndexOf<T(==)>(s: seq<T>, x: T): (r: int)
    ensures r == -1 <==> x !in s
    ensures r != -1 ==> 0 <= r < |s| && s[r] == x && x !in s[..r]
  {
    if s == [] then -1
    else if s[0] == x then 0
    else
      var k := IndexOf(s[1..], x);
      assert s[1..] == s[..|s|][1..];
      if k == -1 then -1
      else
        assert s[..k + 1] == [s[0]] + s[1..][..k];
        k + 1
  }

  /** No element occurs twice. */
  predicate Distinct<T(==)>(s: seq<T>) {
    forall i, j :: 0 <= i < j < |s| ==> s[i] != s[j]
  }

  /** In a sequence without repetitions, the first occurrence of `s[k]` is `k`. */
  lemma {:induction false} IndexOfDistinct<T>(s: seq<T>, k: nat)
    requires Distinct(s) && k < |s|
    ensures IndexOf(s, s[k]) == k
  {
    IndexOfAtMost(s, k);
    assert s[k] !in s[..k] by {
      forall i | 0 <= i < k ensures s[..k][i] != s[k] { }
    }
  }

  /** The first occurrence of `s[k]` is never after `k`; it is exactly `k`
      iff `s[k]` does not occur before position `k`. */
  lemma {:induction false} IndexOfAtMost<T>(s: seq<T>, k: nat)
    requires k < |s|
    ensures 0 <= IndexOf(s, s[k]) <= k
    ensures IndexOf(s, s[k]) == k <==> s[k] !in s[..k]
  {
    var r := IndexOf(s, s[k]);
    assert s[k] in s;
    assert r < k ==> s[..k][r] == s[k];
  }
}
