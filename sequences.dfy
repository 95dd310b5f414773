/** Generic sequence operations the client and server code share: `map` and `findIndex`. */
module Sequences {

  /** `s.map(f)`. */
  function Project<A, B>(s: seq<A>, f: A -> B): (r: seq<B>)
    ensures |r| == |s| && forall i :: 0 <= i < |s| ==> r[i] == f(s[i])
  {
    seq(|s|, i requires 0 <= i < |s| => f(s[i]))
  }

  /** Mapping a non-empty sequence maps its head, then its tail. */
  lemma ProjectCons<A, B>(s: seq<A>, f: A -> B)
    requires s != []
    ensures Project(s, f) == [f(s[0])] + Project(s[1..], f)
  {
    var r, q := Project(s, f), [f(s[0])] + Project(s[1..], f);
    assert |r| == |q|;
    forall i | 0 <= i < |r| ensures r[i] == q[i] {
      if i > 0 {
        assert q[i] == Project(s[1..], f)[i - 1] == f(s[1..][i - 1]);
      }
    }
  }

  /** `s.findIndex(p)`: the first position whose element satisfies `p`, or -1 when there is none. */
  function FirstIndex<T>(s: seq<T>, p: T -> bool): (r: int)
    ensures -1 <= r < |s|
    ensures r >= 0 ==> p(s[r]) && forall i :: 0 <= i < r ==> !p(s[i])
    ensures r == -1 <==> forall i :: 0 <= i < |s| ==> !p(s[i])
  {
    if s == [] then -1
    else if p(s[0]) then 0
    else
      var k := FirstIndex(s[1..], p);
      assert forall i :: 1 <= i < |s| ==> s[i] == s[1..][i - 1];
      if k == -1 then -1 else k + 1
  }
}
