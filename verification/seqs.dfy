/** Generic sequence helpers shared by the report modules. */
module Seqs {
  /** `f` applied to every element, in order. */
  function Map<A, B>(f: A -> B, s: seq<A>): (r: seq<B>)
    ensures |r| == |s|
    ensures forall i :: 0 <= i < |s| ==> r[i] == f(s[i])
  {
    seq(|s|, i requires 0 <= i < |s| => f(s[i]))
  }

  /** Mapping distributes over concatenation. */
  lemma MapAppend<A, B>(f: A -> B, a: seq<A>, b: seq<A>)
    ensures Map(f, a + b) == Map(f, a) + Map(f, b)
  {
    var joined := Map(f, a + b);
    var parts := Map(f, a) + Map(f, b);
    forall i | 0 <= i < |joined|
      ensures joined[i] == parts[i]
    {
      if i < |a| {
        assert (a + b)[i] == a[i];
      } else {
        assert (a + b)[i] == b[i - |a|];
      }
    }
  }

  /** The sequences `f` gives for the elements, joined in order. */
  function FlatMap<A, B>(f: A -> seq<B>, s: seq<A>): seq<B> {
    if s == [] then [] else f(s[0]) + FlatMap(f, s[1..])
  }

  /** Flat-mapping distributes over concatenation. */
  lemma {:induction false} FlatMapAppend<A, B>(f: A -> seq<B>, a: seq<A>, b: seq<A>)
    ensures FlatMap(f, a + b) == FlatMap(f, a) + FlatMap(f, b)
  {
    if a == [] {
      assert a + b == b;
    } else {
      assert (a + b)[0] == a[0];
      assert (a + b)[1..] == a[1..] + b;
      FlatMapAppend(f, a[1..], b);
    }
  }

  /** A property of every element of every part holds of every element of the whole. */
  lemma {:induction false} FlatMapAll<A, B>(f: A -> seq<B>, s: seq<A>, P: B -> bool)
    requires forall k, j :: 0 <= k < |s| && 0 <= j < |f(s[k])| ==> P(f(s[k])[j])
    ensures forall i :: 0 <= i < |FlatMap(f, s)| ==> P(FlatMap(f, s)[i])
  {
    if s != [] {
      var head := f(s[0]);
      var tail := FlatMap(f, s[1..]);
      assert forall k :: 0 <= k < |s[1..]| ==> s[1..][k] == s[k + 1];
      FlatMapAll(f, s[1..], P);
      forall i | 0 <= i < |head + tail|
        ensures P((head + tail)[i])
      {
        if i < |head| {
          assert (head + tail)[i] == f(s[0])[i];
        } else {
          assert (head + tail)[i] == tail[i - |head|];
        }
      }
    }
  }

  /** Functions that agree on the elements give the same flat map. */
  lemma {:induction false} FlatMapCongruent<A, B>(f: A -> seq<B>, g: A -> seq<B>, s: seq<A>)
    requires forall k :: 0 <= k < |s| ==> f(s[k]) == g(s[k])
    ensures FlatMap(f, s) == FlatMap(g, s)
  {
    if s != [] {
      assert forall k :: 0 <= k < |s[1..]| ==> s[1..][k] == s[k + 1];
      FlatMapCongruent(f, g, s[1..]);
    }
  }
}
