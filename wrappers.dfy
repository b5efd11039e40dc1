/**
 * Option and Result, the failure-carrying values the rest of the model returns,
 * the first components of a sequence of pairs, and the regroupings of
 * concatenations that the inductive proofs over sequences share.
 */
module Wrappers {

  datatype Option<+T> = None | Some(value: T)

  /** A handler either produces a value or fails with an error that reaches the client. */
  datatype Result<+T, +E> = Success(value: T) | Failure(error: E)

  /** The first component of every pair, in order. */
  function Firsts<A, B>(s: seq<(A, B)>): (r: seq<A>)
    ensures |r| == |s|
    ensures forall i :: 0 <= i < |s| ==> r[i] == s[i].0
  {
    seq(|s|, i requires 0 <= i < |s| => s[i].0)
  }

  lemma FirstsCons<A, B>(p: (A, B), rest: seq<(A, B)>)
    ensures Firsts([p] + rest) == [p.0] + Firsts(rest)
  {
    assert forall i :: 0 < i <= |rest| ==> ([p] + rest)[i] == rest[i - 1];
  }

  /** A non-empty sequence is its head followed by its tail, also in front of a suffix. */
  lemma SplitHead<T>(a: seq<T>, b: seq<T>)
    requires |a| > 0
    ensures a == [a[0]] + a[1..] && a + b == [a[0]] + (a[1..] + b)
  {
  }

  /** Concatenation regrouped: `x = h + y`, `y = m + t` and `z = h + m` give `x = z + t`. */
  lemma Regroup<T>(x: seq<T>, z: seq<T>, h: seq<T>, y: seq<T>, m: seq<T>, t: seq<T>)
    requires x == h + y && y == m + t && z == h + m
    ensures x == z + t
  {
  }

  /** Concatenation is associative. */
  lemma Regrouped<T>(a: seq<T>, b: seq<T>, c: seq<T>)
    ensures a + b + c == a + (b + c)
  {
  }
}
