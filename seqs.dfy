/** Facts about prefixes of sequences, proved once here so that proofs over sequences of rows
    and parsed records need not redo the extensionality argument. */
module Seqs {
  /** A prefix followed by the next element is the next longer prefix. */
  lemma TakeSnoc<T>(s: seq<T>, n: nat)
    requires n < |s|
    ensures s[..n] + [s[n]] == s[..n + 1]
  {
  }

  /** A non-empty sequence is its prefix without the last element, then that element. */
  lemma LastSnoc<T>(s: seq<T>)
    requires |s| > 0
    ensures s[..|s| - 1] + [s[|s| - 1]] == s
  {
  }

  /** A sequence that agrees with p on p's positions begins with p. */
  lemma PrefixAgrees<T>(s: seq<T>, p: seq<T>)
    requires |p| <= |s| && forall k :: 0 <= k < |p| ==> s[k] == p[k]
    ensures s[..|p|] == p
  {
  }
}
