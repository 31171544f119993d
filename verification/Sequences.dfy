/** Facts about sequences of anything. */
module Sequences {

  lemma BagWithoutLast<T>(a: seq<T>)
    requires a != []
    ensures multiset(a[..|a| - 1]) == multiset(a) - multiset{a[|a| - 1]}
  {
    assert a == a[..|a| - 1] + [a[|a| - 1]];
  }

  /** Sequences with the same elements have the same length and the same members. */
  lemma SameBag<T>(a: seq<T>, b: seq<T>)
    requires multiset(a) == multiset(b)
    ensures |a| == |b| && forall x :: x in a <==> x in b
  {
    assert |a| == |multiset(a)| == |multiset(b)| == |b|;
    assert forall x :: x in a <==> x in multiset(a);
    assert forall x :: x in b <==> x in multiset(b);
  }

  /** Taking an element out past the first leaves the first in place. */
  lemma TailWithout<T>(a: seq<T>, i: nat)
    requires 0 < i < |a|
    ensures (a[..i] + a[i + 1..])[1..] == a[1..][..i - 1] + a[1..][i..]
    ensures (a[..i] + a[i + 1..])[0] == a[0]
  {
  }
}
