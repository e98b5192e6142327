/** `slice::chunks(n)` and its inverse: the centroid buffer and a cluster's
    points are flat `Vec<f64>`s cut into rows of `shape` numbers. */
module Chunking {

  /** Consecutive pieces of n elements; only the last may be shorter. */
  function Chunks<T>(s: seq<T>, n: nat): (cs: seq<seq<T>>)
    requires n > 0
    ensures forall i :: 0 <= i < |cs| ==> 0 < |cs[i]| <= n
    ensures forall i :: 0 <= i < |cs| - 1 ==> |cs[i]| == n
    decreases |s|
  {
    if s == [] then []
    else if |s| <= n then [s]
    else [s[..n]] + Chunks(s[n..], n)
  }

  /** A buffer of k whole rows cuts into exactly k full rows. */
  lemma {:induction false} ChunksExact<T>(s: seq<T>, n: nat, k: nat)
    requires n > 0 && |s| == n * k
    ensures |Chunks(s, n)| == k
    ensures forall i :: 0 <= i < k ==> |Chunks(s, n)[i]| == n
    decreases k
  {
    if k > 1 {
      assert |s[n..]| == n * (k - 1);
      ChunksExact(s[n..], n, k - 1);
      var cs := Chunks(s, n);
      assert cs == [s[..n]] + Chunks(s[n..], n);
      assert forall i :: 1 <= i < k ==> cs[i] == Chunks(s[n..], n)[i - 1];
    } else if k == 1 {
      assert Chunks(s, n) == [s];
    }
  }

  /** Concatenation of the pieces, in order. */
  function Flatten<T>(ss: seq<seq<T>>): seq<T>
  {
    if ss == [] then [] else ss[0] + Flatten(ss[1..])
  }

  lemma {:induction false} FlattenAppend<T>(a: seq<seq<T>>, b: seq<seq<T>>)
    ensures Flatten(a + b) == Flatten(a) + Flatten(b)
    decreases |a|
  {
    if a == [] {
      assert a + b == b;
    } else {
      assert (a + b)[1..] == a[1..] + b;
      FlattenAppend(a[1..], b);
    }
  }

  /** Cutting into chunks loses and reorders nothing. */
  lemma {:induction false} FlattenChunks<T>(s: seq<T>, n: nat)
    requires n > 0
    ensures Flatten(Chunks(s, n)) == s
    decreases |s|
  {
    if s != [] && |s| > n {
      FlattenChunks(s[n..], n);
      assert s[..n] + s[n..] == s;
    }
  }
}
