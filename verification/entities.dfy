/**
 An entity world is modelled as the sequence of entities in spawn order.
 Queries filtered by a component ("With<Food>", "With<SnakeHead>") become
 a count of the entities satisfying a predicate.
 */
module Entities {

  /** Number of entities in `s` that satisfy `p`. */
  function Count<T>(s: seq<T>, p: T -> bool): (n: nat)
    ensures n <= |s|
    ensures n == 0 <==> forall i :: 0 <= i < |s| ==> !p(s[i])
    decreases |s|
  {
    if |s| == 0 then 0
    else
      var last := s[|s| - 1];
      assert forall i :: 0 <= i < |s| - 1 ==> s[..|s| - 1][i] == s[i];
      Count(s[..|s| - 1], p) + (if p(last) then 1 else 0)
  }

  /** Spawning one entity adds one to the count exactly when it satisfies `p`. */
  lemma CountPush<T>(s: seq<T>, e: T, p: T -> bool)
    ensures Count(s + [e], p) == Count(s, p) + (if p(e) then 1 else 0)
  {
    assert (s + [e])[..|s|] == s;
  }

  /** Two worlds that agree entity by entity on `p` have the same count. */
  lemma {:induction false} CountPointwise<T, U>(s: seq<T>, p: T -> bool, t: seq<U>, q: U -> bool)
    requires |s| == |t|
    requires forall i :: 0 <= i < |s| ==> p(s[i]) == q(t[i])
    ensures Count(s, p) == Count(t, q)
    decreases |s|
  {
    if |s| > 0 {
      CountPointwise(s[..|s| - 1], p, t[..|t| - 1], q);
    }
  }
}
