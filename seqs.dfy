/** Applying a function to every element of a sequence, as the source's `for` loops over a list do. */
module Seqs {

  /** `[f(x) for x in xs]`, built from the front so that one more element is one more step. */
  function Map<A, B>(f: A -> B, xs: seq<A>): seq<B>
  {
    if xs == [] then [] else Map(f, xs[..|xs| - 1]) + [f(xs[|xs| - 1])]
  }

  lemma {:induction false} MapAt<A, B>(f: A -> B, xs: seq<A>)
    ensures |Map(f, xs)| == |xs|
    ensures forall i :: 0 <= i < |xs| ==> Map(f, xs)[i] == f(xs[i])
  {
    if xs != [] {
      MapAt(f, xs[..|xs| - 1]);
    }
  }

  lemma MapLength<A, B>(f: A -> B, xs: seq<A>)
    ensures |Map(f, xs)| == |xs|
  {
    MapAt(f, xs);
  }

  /** One element of `Map(f, xs)`, for proofs that need a single index. */
  lemma MapIndex<A, B>(f: A -> B, xs: seq<A>, i: nat)
    requires i < |xs|
    ensures |Map(f, xs)| == |xs| && Map(f, xs)[i] == f(xs[i])
  {
    MapAt(f, xs);
  }

  /** One loop iteration more extends the mapped prefix by one element. */
  lemma MapPrefix<A, B>(f: A -> B, xs: seq<A>, j: nat)
    requires j < |xs|
    ensures Map(f, xs[..j + 1]) == Map(f, xs[..j]) + [f(xs[j])]
  {
    assert xs[..j + 1][..j] == xs[..j];
  }

  /** All of a sequence but its head, when the sequence is built from a head and three runs. */
  lemma DropHead<T>(x: T, a: seq<T>, b: seq<T>, c: seq<T>)
    ensures ([x] + a + b + c)[1..] == a + b + c
  {
    var s := [x] + a + b + c;
    assert |s[1..]| == |a + b + c|;
    forall i | 0 <= i < |a + b + c|
      ensures s[1..][i] == (a + b + c)[i]
    {
      assert s[1..][i] == s[i + 1];
    }
  }

  /** The runs `f(x)` of the elements `x` of `xs`, one after the other. */
  function Flatten<A, B>(f: A -> seq<B>, xs: seq<A>): seq<B>
  {
    if xs == [] then [] else Flatten(f, xs[..|xs| - 1]) + f(xs[|xs| - 1])
  }

  /** When every run has two elements, element `i` gives elements `2 * i` and `2 * i + 1`. */
  lemma {:induction false} FlattenPairs<A, B>(f: A -> seq<B>, xs: seq<A>)
    requires forall x :: |f(x)| == 2
    ensures |Flatten(f, xs)| == 2 * |xs|
    ensures forall i :: 0 <= i < |xs| ==> Flatten(f, xs)[2 * i] == f(xs[i])[0] && Flatten(f, xs)[2 * i + 1] == f(xs[i])[1]
  {
    if xs != [] {
      var front := xs[..|xs| - 1];
      FlattenPairs(f, front);
      forall i | 0 <= i < |xs|
        ensures Flatten(f, xs)[2 * i] == f(xs[i])[0] && Flatten(f, xs)[2 * i + 1] == f(xs[i])[1]
      {
        if i < |front| {
          assert xs[i] == front[i];
        }
      }
    }
  }

  /** One loop iteration more appends the run of one more element. */
  lemma FlattenPrefix<A, B>(f: A -> seq<B>, xs: seq<A>, j: nat)
    requires j < |xs|
    ensures Flatten(f, xs[..j + 1]) == Flatten(f, xs[..j]) + f(xs[j])
  {
    assert xs[..j + 1][..j] == xs[..j];
  }
}
