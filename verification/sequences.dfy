/** Facts about sequences, for proofs in which the sequences are large expressions. */
module Sequences {
  lemma Regroup<T>(a: seq<T>, b: seq<T>, c: seq<T>)
    ensures (a + b) + c == a + (b + c)
  {
  }

  lemma SplitBack<T>(a: seq<T>, b: seq<T>)
    ensures (a + b)[..|a|] == a && (a + b)[|a|..] == b
  {
  }

  lemma TakeDrop<T>(s: seq<T>, k: nat)
    requires k <= |s|
    ensures s[..k] + s[k..] == s
  {
  }

  lemma DropTwice<T>(s: seq<T>, k: nat, i: nat)
    requires k <= i <= |s|
    ensures s[k..][i - k..] == s[i..]
  {
  }

  lemma SliceAfterDrop<T>(s: seq<T>, k: nat, i: nat, j: nat)
    requires k <= i <= j <= |s|
    ensures s[k..][i - k..j - k] == s[i..j]
  {
  }

  lemma SliceOfSlice<T>(s: seq<T>, p: nat, q: nat, i: nat, j: nat)
    requires p <= i <= j <= q <= |s|
    ensures s[p..q][i - p..j - p] == s[i..j]
  {
    SliceAfterDrop(s[..q], p, i, j);
    assert s[..q][p..] == s[p..q] && s[..q][i..j] == s[i..j];
  }

  lemma EmptyEnds<T>(s: seq<T>)
    ensures s + [] == s && [] + s == s
  {
  }
}
