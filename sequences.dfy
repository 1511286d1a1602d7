/** General facts about sequences that the proofs of the rewriter use. */
module Sequences {
  /** Dropping `i` elements and then `j` more drops `i + j`. */
  lemma DropDrop<T>(s: seq<T>, i: nat, j: nat)
    requires i + j <= |s|
    ensures s[i..][j..] == s[i + j..]
  {
  }

  /** A sequence is its first `w` elements followed by the rest. */
  lemma TakeDrop<T>(s: seq<T>, w: nat)
    requires w <= |s|
    ensures s[..w] + s[w..] == s
  {
  }

  /** The first `n` elements of a slice starting at `i` are the slice of length `n` at `i`. */
  lemma TakeOfSlice<T>(s: seq<T>, i: nat, j: nat, n: nat)
    requires i + n <= j <= |s|
    ensures s[i..j][..n] == s[i..i + n]
  {
  }

  /** Concatenation is associative. */
  lemma Associative<T>(x: seq<T>, y: seq<T>, z: seq<T>)
    ensures x + y + z == x + (y + z)
  {
  }
}
