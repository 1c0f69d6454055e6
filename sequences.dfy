/**
 * Facts about concatenation and slicing of sequences, stated over abstract
 * sequences so that the proofs about byte buffers and logs can use them
 * without rebuilding them element by element.
 */
module Sequences {

  /** Concatenation regroups. */
  lemma AppendAssoc<T>(a: seq<T>, b: seq<T>, c: seq<T>)
    ensures a + b + c == a + (b + c)
  {
  }

  /** The middle part of a three-part concatenation is cut back out by its offsets. */
  lemma MiddleOfAppend<T>(a: seq<T>, b: seq<T>, c: seq<T>)
    ensures a + b + c == a + (b + c)
    ensures (a + (b + c))[|a|..|a| + |b|] == b
  {
  }

  /** The first two parts of a three-part concatenation are its prefix of their length. */
  lemma PrefixOfAppend<T>(a: seq<T>, b: seq<T>, c: seq<T>)
    ensures (a + b + c)[..|a| + |b|] == a + b
  {
  }

  /** Two adjacent slices from the start make one. */
  lemma TakeSplit<T>(s: seq<T>, i: nat, j: nat)
    requires i <= j <= |s|
    ensures s[..i] + s[i..j] == s[..j]
  {
  }
}
