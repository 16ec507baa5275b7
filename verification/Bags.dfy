/** Sequences seen as bags. */
module Bags {

  function RemoveAt<T>(s: seq<T>, k: nat): (r: seq<T>)
    requires k < |s|
    ensures |r| == |s| - 1
    ensures forall i :: 0 <= i < k ==> r[i] == s[i]
    ensures forall i :: k <= i < |r| ==> r[i] == s[i + 1]
  {
    s[..k] + s[k + 1..]
  }

  lemma BagWithout<T>(s: seq<T>, k: nat)
    requires k < |s|
    ensures multiset(s) == multiset{s[k]} + multiset(RemoveAt(s, k))
    ensures multiset(RemoveAt(s, k)) == multiset(s) - multiset{s[k]}
  {
    assert s == s[..k] + [s[k]] + s[k + 1..];
  }

  lemma SameLength<T>(a: seq<T>, b: seq<T>)
    requires multiset(a) == multiset(b)
    ensures |a| == |b|
  {
    assert |a| == |multiset(a)| && |b| == |multiset(b)|;
  }

  /** Where an element of one sequence stands in another with the same bag. */
  lemma Occurs<T>(a: seq<T>, b: seq<T>, i: nat) returns (k: nat)
    requires multiset(a) == multiset(b) && i < |a|
    ensures k < |b| && b[k] == a[i]
  {
    assert a[i] in multiset(b);
    k :| k < |b| && b[k] == a[i];
  }

  /** Equal bags have equal bags of images. */
  lemma {:induction false} ImagesAgree<A, B>(a: seq<A>, b: seq<A>, fa: seq<B>, fb: seq<B>, f: A -> B)
    requires |a| == |fa| && |b| == |fb|
    requires forall i :: 0 <= i < |a| ==> fa[i] == f(a[i])
    requires forall i :: 0 <= i < |b| ==> fb[i] == f(b[i])
    requires multiset(a) == multiset(b)
    ensures multiset(fa) == multiset(fb)
    decreases |a|
  {
    SameLength(a, b);
    if a != [] {
      var k := Occurs(a, b, 0);
      BagWithout(a, 0);
      BagWithout(b, k);
      ImagesAgree(RemoveAt(a, 0), RemoveAt(b, k), RemoveAt(fa, 0), RemoveAt(fb, k), f);
      BagWithout(fa, 0);
      BagWithout(fb, k);
    }
  }
}
