/** Content-hash deduplication (`BatchDocumentLoader._deduplicate_documents`):
    one left-to-right pass that keeps the first document for each non-empty
    `content_hash` and keeps every document that has none. */
module Dedup {
  import opened Wrappers
  import opened Documents
  import Seqs

  /** Document `i` survives deduplication: it has no usable hash, or no earlier
      document carries the same one. This is the declarative reference the
      single-pass loop is proved against. */
  predicate IsFirst(docs: seq<Document>, i: nat)
    requires i < |docs|
  {
    HashKey(docs[i]).None? || forall j :: 0 <= j < i ==> HashKey(docs[j]) != HashKey(docs[i])
  }

  /** The first-occurrence filter applied to `docs[..n]`. */
  function KeepUpTo(docs: seq<Document>, n: nat): (r: seq<Document>)
    requires n <= |docs|
    decreases n
  {
    if n == 0 then []
    else KeepUpTo(docs, n - 1) + (if IsFirst(docs, n - 1) then [docs[n - 1]] else [])
  }

  /** What deduplication should return for `docs`. */
  function KeepFirsts(docs: seq<Document>): seq<Document> {
    KeepUpTo(docs, |docs|)
  }

  /** The usable hashes carried by `docs` (the `seen_hashes` set after a pass). */
  function HashesOf(docs: seq<Document>): set<Value>
    decreases |docs|
  {
    if |docs| == 0 then {}
    else
      var h := HashKey(docs[|docs| - 1]);
      HashesOf(docs[..|docs| - 1]) + (if h.Some? then {h.value} else {})
  }

  /** How many documents of `docs` carry no usable hash. */
  function UnhashedCount(docs: seq<Document>): nat
    decreases |docs|
  {
    if |docs| == 0 then 0
    else UnhashedCount(docs[..|docs| - 1]) + (if HashKey(docs[|docs| - 1]).None? then 1 else 0)
  }

  /** No two documents of `docs` share a usable hash. */
  predicate HashesDistinct(docs: seq<Document>) {
    forall i, j :: 0 <= i < j < |docs| && HashKey(docs[i]).Some? ==> HashKey(docs[i]) != HashKey(docs[j])
  }

  /** The indices below `n` whose documents survive, in increasing order. */
  ghost function FirstOccurrences(docs: seq<Document>, n: nat): (idx: seq<nat>)
    requires n <= |docs|
    ensures forall k :: 0 <= k < |idx| ==> idx[k] < n
    ensures forall k, l :: 0 <= k < l < |idx| ==> idx[k] < idx[l]
    ensures forall i :: 0 <= i < n ==> (i in idx <==> IsFirst(docs, i))
    decreases n
  {
    if n == 0 then []
    else FirstOccurrences(docs, n - 1) + (if IsFirst(docs, n - 1) then [n - 1] else [])
  }

  lemma HashesOfAppend(docs: seq<Document>, d: Document)
    ensures HashesOf(docs + [d]) == HashesOf(docs) + (if HashKey(d).Some? then {HashKey(d).value} else {})
  {
    Seqs.AppendPrefix(docs, d);
  }

  lemma {:induction false} HashesOfMembership(docs: seq<Document>, h: Value)
    ensures h in HashesOf(docs) <==> exists j :: 0 <= j < |docs| && HashKey(docs[j]) == Some(h)
    decreases |docs|
  {
    if |docs| > 0 {
      var init := docs[..|docs| - 1];
      HashesOfMembership(init, h);
      if h in HashesOf(init) {
        var j :| 0 <= j < |init| && HashKey(init[j]) == Some(h);
        assert HashKey(docs[j]) == Some(h);
      }
      if exists j :: 0 <= j < |docs| && HashKey(docs[j]) == Some(h) {
        var j :| 0 <= j < |docs| && HashKey(docs[j]) == Some(h);
        if j < |init| {
          assert HashKey(init[j]) == Some(h);
        }
      }
    }
  }

  /** A document survives exactly when its hash is missing or not yet in the
      seen set built from the documents before it. */
  lemma FirstIffUnseen(docs: seq<Document>, i: nat)
    requires i < |docs|
    ensures IsFirst(docs, i) <==> HashKey(docs[i]).None? || HashKey(docs[i]).value !in HashesOf(docs[..i])
  {
    var h := HashKey(docs[i]);
    if h.Some? {
      HashesOfMembership(docs[..i], h.value);
      if !IsFirst(docs, i) {
        var j :| 0 <= j < i && HashKey(docs[j]) == h;
        assert HashKey(docs[..i][j]) == h;
      }
    }
  }

  /** The loop of `_deduplicate_documents`: `seenHashes` collects the hashes
      met so far, a document whose hash is already there is skipped, every
      other document is appended. It computes the first-occurrence filter. */
  method Deduplicate(documents: seq<Document>) returns (unique: seq<Document>)
    ensures unique == KeepFirsts(documents)
  {
    var seenHashes: set<Value> := {};
    unique := [];
    for i := 0 to |documents|
      invariant seenHashes == HashesOf(documents[..i])
      invariant unique == KeepUpTo(documents, i)
    {
      var doc := documents[i];
      var contentHash := HashKey(doc);
      FirstIffUnseen(documents, i);
      Seqs.PrefixStep(documents, i + 1);
      HashesOfAppend(documents[..i], doc);
      if contentHash.Some? && contentHash.value in seenHashes {
        continue;
      }
      if contentHash.Some? {
        seenHashes := seenHashes + {contentHash.value};
      }
      unique := unique + [doc];
    }
    Seqs.WholePrefix(documents);
  }

  /** The surviving documents are exactly those at the first-occurrence
      indices, in their original order. */
  lemma {:induction false} KeepUpToSelects(docs: seq<Document>, n: nat)
    requires n <= |docs|
    ensures var idx := FirstOccurrences(docs, n);
            |KeepUpTo(docs, n)| == |idx|
            && forall k :: 0 <= k < |idx| ==> KeepUpTo(docs, n)[k] == docs[idx[k]]
    decreases n
  {
    if n > 0 {
      KeepUpToSelects(docs, n - 1);
    }
  }

  /** Deduplication returns a subsequence of its input in the original order:
      the documents at the increasing indices `idx`, and `idx` holds exactly
      the indices of documents with no usable hash or the first one carrying
      their hash. */
  lemma DedupSelectsFirstOccurrences(docs: seq<Document>)
    ensures var r := KeepFirsts(docs);
            var idx := FirstOccurrences(docs, |docs|);
            && |r| == |idx|
            && (forall k :: 0 <= k < |idx| ==> idx[k] < |docs| && r[k] == docs[idx[k]])
            && (forall k, l :: 0 <= k < l < |idx| ==> idx[k] < idx[l])
            && (forall i :: 0 <= i < |docs| ==> (i in idx <==> IsFirst(docs, i)))
  {
    KeepUpToSelects(docs, |docs|);
  }

  /** A document with a missing or falsy hash is never dropped: deduplication
      keeps every copy of it. */
  lemma {:induction false} DedupKeepsUnhashed(docs: seq<Document>, d: Document)
    requires HashKey(d).None?
    ensures multiset(KeepFirsts(docs))[d] == multiset(docs)[d]
  {
    KeepUpToKeepsUnhashed(docs, |docs|, d);
    Seqs.WholePrefix(docs);
  }

  lemma {:induction false} KeepUpToKeepsUnhashed(docs: seq<Document>, n: nat, d: Document)
    requires n <= |docs|
    requires HashKey(d).None?
    ensures multiset(KeepUpTo(docs, n))[d] == multiset(docs[..n])[d]
    decreases n
  {
    if n > 0 {
      var x := docs[n - 1];
      KeepUpToKeepsUnhashed(docs, n - 1, d);
      Seqs.PrefixStep(docs, n);
      assert multiset(docs[..n]) == multiset(docs[..n - 1]) + multiset{x};
      if IsFirst(docs, n - 1) {
        assert KeepUpTo(docs, n) == KeepUpTo(docs, n - 1) + [x];
        assert multiset(KeepUpTo(docs, n)) == multiset(KeepUpTo(docs, n - 1)) + multiset{x};
      } else {
        assert KeepUpTo(docs, n) == KeepUpTo(docs, n - 1);
        assert x != d;
      }
    }
  }

  lemma UnhashedCountAppend(docs: seq<Document>, d: Document)
    ensures UnhashedCount(docs + [d]) == UnhashedCount(docs) + (if HashKey(d).None? then 1 else 0)
  {
    Seqs.AppendPrefix(docs, d);
  }

  /** Deduplicating `docs[..n]` keeps its set of usable hashes. */
  lemma {:induction false} KeepUpToSameHashes(docs: seq<Document>, n: nat)
    requires n <= |docs|
    ensures HashesOf(KeepUpTo(docs, n)) == HashesOf(docs[..n])
    decreases n
  {
    if n > 0 {
      var prev := KeepUpTo(docs, n - 1);
      var d := docs[n - 1];
      KeepUpToSameHashes(docs, n - 1);
      FirstIffUnseen(docs, n - 1);
      Seqs.PrefixStep(docs, n);
      HashesOfAppend(docs[..n - 1], d);
      if IsFirst(docs, n - 1) {
        assert KeepUpTo(docs, n) == prev + [d];
        HashesOfAppend(prev, d);
      } else {
        assert KeepUpTo(docs, n) == prev;
      }
    }
  }

  /** No two documents kept from `docs[..n]` share a usable hash. */
  lemma {:induction false} KeepUpToDistinct(docs: seq<Document>, n: nat)
    requires n <= |docs|
    ensures HashesDistinct(KeepUpTo(docs, n))
    decreases n
  {
    if n > 0 {
      var prev := KeepUpTo(docs, n - 1);
      var d := docs[n - 1];
      KeepUpToDistinct(docs, n - 1);
      if IsFirst(docs, n - 1) && HashKey(d).Some? {
        KeepUpToSameHashes(docs, n - 1);
        FirstIffUnseen(docs, n - 1);
        HashesOfMembership(prev, HashKey(d).value);
        DistinctAppend(prev, d);
      }
    }
  }

  /** Appending a document whose hash no earlier document carries keeps the
      hashes distinct. */
  lemma DistinctAppend(prev: seq<Document>, d: Document)
    requires HashesDistinct(prev)
    requires forall j :: 0 <= j < |prev| ==> HashKey(prev[j]) != HashKey(d)
    ensures HashesDistinct(prev + [d])
  {
    var r := prev + [d];
    forall i, j | 0 <= i < j < |r| && HashKey(r[i]).Some?
      ensures HashKey(r[i]) != HashKey(r[j])
    {
      assert r[i] == prev[i];
      if j < |prev| {
        assert r[j] == prev[j];
      }
    }
  }

  /** Deduplicating `docs[..n]` leaves one document per distinct usable hash
      plus every hash-less document. */
  lemma {:induction false} KeepUpToCount(docs: seq<Document>, n: nat)
    requires n <= |docs|
    ensures |KeepUpTo(docs, n)| == UnhashedCount(docs[..n]) + |HashesOf(docs[..n])|
    decreases n
  {
    if n > 0 {
      var d := docs[n - 1];
      KeepUpToCount(docs, n - 1);
      FirstIffUnseen(docs, n - 1);
      Seqs.PrefixStep(docs, n);
      HashesOfAppend(docs[..n - 1], d);
      UnhashedCountAppend(docs[..n - 1], d);
      var seen := HashesOf(docs[..n - 1]);
      if IsFirst(docs, n - 1) {
        assert |KeepUpTo(docs, n)| == |KeepUpTo(docs, n - 1)| + 1;
        if HashKey(d).Some? {
          assert |seen + {HashKey(d).value}| == |seen| + 1;
        }
      } else {
        assert KeepUpTo(docs, n) == KeepUpTo(docs, n - 1);
        assert seen + {HashKey(d).value} == seen;
      }
    }
  }

  /** Survivors never share a usable hash, every usable hash of the input
      survives, and the output has one document per distinct hash plus every
      hash-less document. */
  lemma DedupHashes(docs: seq<Document>)
    ensures HashesDistinct(KeepFirsts(docs))
    ensures HashesOf(KeepFirsts(docs)) == HashesOf(docs)
    ensures |KeepFirsts(docs)| == UnhashedCount(docs) + |HashesOf(docs)|
  {
    KeepUpToSameHashes(docs, |docs|);
    KeepUpToDistinct(docs, |docs|);
    KeepUpToCount(docs, |docs|);
    Seqs.WholePrefix(docs);
  }

  lemma {:induction false} DistinctKeepsAll(docs: seq<Document>, n: nat)
    requires n <= |docs|
    requires HashesDistinct(docs)
    ensures KeepUpTo(docs, n) == docs[..n]
    decreases n
  {
    if n > 0 {
      DistinctKeepsAll(docs, n - 1);
      assert docs[..n] == docs[..n - 1] + [docs[n - 1]];
    }
  }

  /** Deduplicating twice is the same as deduplicating once. */
  lemma DedupIdempotent(docs: seq<Document>)
    ensures KeepFirsts(KeepFirsts(docs)) == KeepFirsts(docs)
  {
    var r := KeepFirsts(docs);
    DedupHashes(docs);
    DistinctKeepsAll(r, |r|);
    Seqs.WholePrefix(r);
  }
}
