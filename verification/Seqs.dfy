/** Generic facts about slices and concatenation that the prefix inductions
    of the model step with. Each is stated once, over any element type, so
    that its proof does not run in the presence of the model's own
    quantified facts. */
module Seqs {

  /** A non-empty prefix is the shorter prefix plus its last element. */
  lemma PrefixStep<T>(s: seq<T>, n: nat)
    requires 0 < n <= |s|
    ensures s[..n] == s[..n - 1] + [s[n - 1]]
  {
  }

  /** Dropping the element just appended gives the original sequence back. */
  lemma AppendPrefix<T>(s: seq<T>, x: T)
    ensures (s + [x])[..|s|] == s
  {
  }

  /** The prefix of full length is the sequence itself. */
  lemma WholePrefix<T>(s: seq<T>)
    ensures s[..|s|] == s
  {
  }

  /** Dropping the last element of `a + b` drops the last element of `b`. */
  lemma DropLastOfAppend<T>(a: seq<T>, b: seq<T>)
    requires |b| > 0
    ensures (a + b)[..|a + b| - 1] == a + b[..|b| - 1]
    ensures (a + b)[|a + b| - 1] == b[|b| - 1]
  {
  }

  lemma AppendAssoc<T>(x: seq<T>, y: seq<T>, z: seq<T>)
    ensures (x + y) + z == x + (y + z)
  {
  }

  /** A sequence is its part before `i`, its `i`-th element and its part after. */
  lemma SplitAt<T>(s: seq<T>, i: nat)
    requires i < |s|
    ensures s == s[..i] + [s[i]] + s[i + 1..]
  {
  }

  /** `rest` is `all` with its `i`-th entry removed when it lists the other
      entries in order. */
  lemma RemovedAt<T>(all: seq<T>, rest: seq<T>, i: nat)
    requires i < |all| && |rest| == |all| - 1
    requires forall k :: 0 <= k < |rest| ==> rest[k] == all[if k < i then k else k + 1]
    ensures rest == all[..i] + all[i + 1..]
  {
  }

  /** A prefix `r` of a suffix `l` of `s` is a slice of `s`. */
  lemma PrefixOfSuffix<T>(s: seq<T>, l: seq<T>, r: seq<T>)
    requires |l| <= |s| && l == s[|s| - |l|..]
    requires |r| <= |l| && r == l[..|r|]
    ensures r == s[|s| - |l|..|s| - |l| + |r|]
  {
  }

  /** A suffix of the tail of `s` is a suffix of `s`. */
  lemma SuffixOfTail<T>(s: seq<T>, r: seq<T>)
    requires |s| > 0 && |r| <= |s| - 1 && r == s[1..][|s| - 1 - |r|..]
    ensures r == s[|s| - |r|..]
  {
  }
}
