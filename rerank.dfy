/** rerank.py: each record's hits are rescored by a cross-encoder, sorted
    by the new score (highest first, stable), optionally cut to the first
    top_k, and renumbered 1, 2, 3, ... The cross-encoder is a parameter
    `predict` that maps the (query, passage) pairs of a record to a list of
    scores. */
module Rerank {
  import opened Wrappers
  import opened Records

  // ---------- Specification of the per-record transform ----------

  /** zip(hits, scores): the i-th hit takes the i-th score; a hit without a
      score (only when the lists differ in length) keeps its old one. */
  function Rescored(hits: seq<Hit>, scores: seq<real>): (r: seq<Hit>)
    ensures |r| == |hits|
  {
    seq(|hits|, i requires 0 <= i < |hits| => if i < |scores| then hits[i].(score := scores[i]) else hits[i])
  }

  predicate SortedDesc(t: seq<Hit>) {
    forall p, q :: 0 <= p < q < |t| ==> t[p].score >= t[q].score
  }

  /** Position of the first hit of t whose score is below x. */
  function FirstBelow(t: seq<Hit>, x: real): (k: nat)
    ensures k <= |t|
  {
    if t == [] || t[0].score < x then 0 else 1 + FirstBelow(t[1..], x)
  }

  /** x placed after every hit of t that scores at least as much. */
  function Insert(t: seq<Hit>, x: Hit): seq<Hit>
  {
    var k := FirstBelow(t, x.score);
    t[..k] + [x] + t[k..]
  }

  /** list.sort(key=score, reverse=True): a stable sort, highest score
      first, specified as insertion of each hit in turn. */
  function SortDesc(s: seq<Hit>): seq<Hit>
  {
    if s == [] then [] else Insert(SortDesc(s[..|s| - 1]), s[|s| - 1])
  }

  /** `if top_k: hits = hits[:top_k]`: None and 0 keep every hit; a positive
      k keeps at most k; a negative k drops the last -k (Python slicing). */
  function Truncate(hits: seq<Hit>, topK: Option<int>): seq<Hit>
  {
    match topK
    case None => hits
    case Some(k) =>
      if k == 0 then hits
      else if k > 0 then hits[..if k < |hits| then k else |hits|]
      else hits[..if |hits| + k > 0 then |hits| + k else 0]
  }

  /** enumerate(hits, 1): the i-th hit gets rank i + 1. */
  function Ranked(hits: seq<Hit>): seq<Hit>
  {
    seq(|hits|, i requires 0 <= i < |hits| => hits[i].(rank := i + 1))
  }

  /** The (query, passage text) pairs the cross-encoder scores. */
  function Pairs(rec: RetrievalRecord): seq<(string, string)>
  {
    seq(|rec.hits|, i requires 0 <= i < |rec.hits| => (rec.query, rec.hits[i].text))
  }

  /** The record after one iteration of rerank_file's loop. */
  function Reranked(rec: RetrievalRecord, scores: seq<real>, topK: Option<int>): RetrievalRecord
  {
    rec.(hits := Ranked(Truncate(SortDesc(Rescored(rec.hits, scores)), topK)))
  }

  // ---------- Properties of the specification ----------

  /** Rescoring matches scores to hits by position and changes nothing but
      the score. */
  lemma RescoredByPosition(hits: seq<Hit>, scores: seq<real>)
    requires |scores| == |hits|
    ensures forall i :: 0 <= i < |hits| ==>
      Rescored(hits, scores)[i] == Hit(hits[i].rank, scores[i], hits[i].docId, hits[i].text)
  {
  }

  /** In a sorted list the hits scoring at least x come first. */
  lemma {:induction false} FirstBelowSplits(t: seq<Hit>, x: real)
    requires SortedDesc(t)
    ensures forall p :: 0 <= p < FirstBelow(t, x) ==> t[p].score >= x
    ensures forall p :: FirstBelow(t, x) <= p < |t| ==> t[p].score < x
  {
    if t != [] && t[0].score >= x {
      FirstBelowSplits(t[1..], x);
      forall p | 1 + FirstBelow(t[1..], x) <= p < |t|
        ensures t[p].score < x
      {
        assert t[p] == t[1..][p - 1];
      }
    }
  }

  /** x between the hits scoring at least x and those scoring less keeps a
      sorted list sorted. */
  lemma SpliceSorted(t: seq<Hit>, x: Hit, k: nat)
    requires SortedDesc(t) && k <= |t|
    requires forall p :: 0 <= p < k ==> t[p].score >= x.score
    requires forall p :: k <= p < |t| ==> t[p].score < x.score
    ensures SortedDesc(t[..k] + [x] + t[k..])
  {
    var r := t[..k] + [x] + t[k..];
    assert forall p :: 0 <= p < k ==> r[p] == t[p];
    assert r[k] == x;
    assert forall p :: k < p < |r| ==> r[p] == t[p - 1];
  }

  /** Inserting into a sorted list keeps it sorted and adds exactly x. */
  lemma InsertSorted(t: seq<Hit>, x: Hit)
    requires SortedDesc(t)
    ensures SortedDesc(Insert(t, x))
    ensures multiset(Insert(t, x)) == multiset(t) + multiset{x}
  {
    var k := FirstBelow(t, x.score);
    FirstBelowSplits(t, x.score);
    SpliceSorted(t, x, k);
    assert t == t[..k] + t[k..];
  }

  /** The sort returns a permutation of its input ordered by score, highest
      first. */
  lemma {:induction false} SortDescSortedPermutation(s: seq<Hit>)
    ensures SortedDesc(SortDesc(s))
    ensures multiset(SortDesc(s)) == multiset(s)
  {
    if s != [] {
      var init := s[..|s| - 1];
      SortDescSortedPermutation(init);
      InsertSorted(SortDesc(init), s[|s| - 1]);
      assert s == init + [s[|s| - 1]];
    }
  }

  /** The hits of t that score exactly v, in the order of t. */
  function WithScore(t: seq<Hit>, v: real): seq<Hit>
  {
    if t == [] then []
    else WithScore(t[..|t| - 1], v) + (if t[|t| - 1].score == v then [t[|t| - 1]] else [])
  }

  lemma {:induction false} WithScoreConcat(a: seq<Hit>, b: seq<Hit>, v: real)
    ensures WithScore(a + b, v) == WithScore(a, v) + WithScore(b, v)
  {
    if b == [] {
      assert a + b == a;
    } else {
      assert (a + b)[..|a + b| - 1] == a + b[..|b| - 1];
      WithScoreConcat(a, b[..|b| - 1], v);
    }
  }

  lemma {:induction false} WithScoreNone(t: seq<Hit>, v: real)
    requires forall p :: 0 <= p < |t| ==> t[p].score < v
    ensures WithScore(t, v) == []
  {
    if t != [] {
      WithScoreNone(t[..|t| - 1], v);
    }
  }

  lemma WithScoreSingle(x: Hit, v: real)
    ensures WithScore([x], v) == if x.score == v then [x] else []
  {
    assert [x][..0] == [];
  }

  lemma SwapEmpty(wa: seq<Hit>, wx: seq<Hit>, wb: seq<Hit>)
    requires wx == [] || wb == []
    ensures wa + wx + wb == wa + wb + wx
  {
  }

  /** Putting x between a and b, where everything in b scores less than x,
      adds x to the hits of its own score last, and changes no other
      score's hits. */
  lemma SpliceStable(a: seq<Hit>, x: Hit, b: seq<Hit>, v: real)
    requires forall p :: 0 <= p < |b| ==> b[p].score < x.score
    ensures WithScore(a + [x] + b, v) == WithScore(a + b, v) + WithScore([x], v)
  {
    WithScoreConcat(a + [x], b, v);
    WithScoreConcat(a, [x], v);
    WithScoreConcat(a, b, v);
    if x.score == v {
      WithScoreNone(b, v);
    } else {
      WithScoreSingle(x, v);
    }
    SwapEmpty(WithScore(a, v), WithScore([x], v), WithScore(b, v));
  }

  lemma InsertStable(t: seq<Hit>, x: Hit, v: real)
    requires SortedDesc(t)
    ensures WithScore(Insert(t, x), v) == WithScore(t, v) + WithScore([x], v)
  {
    var k := FirstBelow(t, x.score);
    FirstBelowSplits(t, x.score);
    SpliceStable(t[..k], x, t[k..], v);
    assert t[..k] + t[k..] == t;
  }

  /** The sort is stable: for every score, the hits with that score come out
      in the order they went in. */
  lemma {:induction false} SortDescStable(s: seq<Hit>, v: real)
    ensures WithScore(SortDesc(s), v) == WithScore(s, v)
  {
    if s != [] {
      var init, last := s[..|s| - 1], s[|s| - 1];
      SortDescStable(init, v);
      SortDescSortedPermutation(init);
      InsertStable(SortDesc(init), last, v);
      WithScoreSingle(last, v);
    }
  }

  /** Truncation keeps a prefix: everything when top_k is None or 0,
      min(k, n) hits for a positive k, n + k (at least 0) for a negative k. */
  lemma TruncatePrefix(hits: seq<Hit>, topK: Option<int>)
    ensures var r := Truncate(hits, topK);
            && r == hits[..|r|]
            && (topK == None || topK == Some(0) ==> r == hits)
            && (topK.Some? && topK.value > 0 ==>
                  |r| == (if topK.value < |hits| then topK.value else |hits|))
            && (topK.Some? && topK.value < 0 ==>
                  |r| == (if |hits| + topK.value > 0 then |hits| + topK.value else 0))
  {
  }

  /** Ranks are dense and 1-based and nothing but the rank changes. */
  lemma RankedDense(hits: seq<Hit>)
    ensures |Ranked(hits)| == |hits|
    ensures forall i :: 0 <= i < |hits| ==> Ranked(hits)[i].rank == i + 1
    ensures forall i :: 0 <= i < |hits| ==> Ranked(hits)[i].(rank := hits[i].rank) == hits[i]
  {
  }

  /** One iteration of the loop: the record keeps its question and query; its
      hits are, up to their new rank, a prefix of the rescored hits sorted
      highest first; without truncation they are a permutation of the
      rescored hits. */
  lemma RerankedSpec(rec: RetrievalRecord, scores: seq<real>, topK: Option<int>)
    ensures var out := Reranked(rec, scores, topK);
            var sorted := SortDesc(Rescored(rec.hits, scores));
            && out.questionId == rec.questionId
            && out.query == rec.query
            && |out.hits| <= |rec.hits|
            && SortedDesc(sorted)
            && multiset(sorted) == multiset(Rescored(rec.hits, scores))
            && (forall i :: 0 <= i < |out.hits| ==> out.hits[i].rank == i + 1 && out.hits[i].(rank := sorted[i].rank) == sorted[i])
            && (topK == None || topK == Some(0) ==> |out.hits| == |rec.hits|)
  {
    var sorted := SortDesc(Rescored(rec.hits, scores));
    SortDescSortedPermutation(Rescored(rec.hits, scores));
    assert |sorted| == |multiset(sorted)|;
    TruncatePrefix(sorted, topK);
    RankedDense(Truncate(sorted, topK));
  }

  // ---------- The loop of rerank_file, in place ----------

  /** `for hit, s in zip(hits, scores): hit["score"] = s` */
  method Rescore(a: array<Hit>, scores: seq<real>)
    modifies a
    ensures a[..] == Rescored(old(a[..]), scores)
  {
    ghost var s := a[..];
    var i := 0;
    while i < a.Length && i < |scores|
      invariant 0 <= i <= a.Length
      invariant i <= |scores|
      invariant forall k :: 0 <= k < i ==> a[k] == s[k].(score := scores[k])
      invariant forall k :: i <= k < a.Length ==> a[k] == s[k]
    {
      a[i] := a[i].(score := scores[i]);
      i := i + 1;
    }
  }

  /** Sorted list t with x inserted where the shifting loop stops. */
  lemma InsertAt(t: seq<Hit>, x: Hit, j: nat)
    requires SortedDesc(t) && j <= |t|
    requires forall k :: j <= k < |t| ==> t[k].score < x.score
    requires j > 0 ==> t[j - 1].score >= x.score
    ensures Insert(t, x) == t[..j] + [x] + t[j..]
  {
    FirstBelowSplits(t, x.score);
  }

  /** The shifting loop of one insertion pass: the hits of a[..i] that
      score strictly less than key, found from the right, move one place
      right, and j is the gap they leave. */
  method ShiftLower(a: array<Hit>, i: nat, key: Hit) returns (j: nat)
    requires i < a.Length
    modifies a
    ensures j <= i
    ensures forall k :: 0 <= k < j ==> a[k] == old(a[k])
    ensures forall k :: j < k <= i ==> a[k] == old(a[k - 1])
    ensures forall k :: i < k < a.Length ==> a[k] == old(a[k])
    ensures forall k :: j <= k < i ==> old(a[k]).score < key.score
    ensures j > 0 ==> a[j - 1].score >= key.score
  {
    j := i;
    while j > 0 && a[j - 1].score < key.score
      invariant 0 <= j <= i
      invariant forall k :: 0 <= k < j ==> a[k] == old(a[k])
      invariant forall k :: j < k <= i ==> a[k] == old(a[k - 1])
      invariant forall k :: i < k < a.Length ==> a[k] == old(a[k])
      invariant forall k :: j <= k < i ==> old(a[k]).score < key.score
    {
      a[j] := a[j - 1];
      j := j - 1;
    }
  }

  /** One pass of the insertion sort: a[i] moves left past the hits of the
      sorted a[..i] that score strictly less than it. */
  method InsertLast(a: array<Hit>, i: nat)
    requires i < a.Length
    requires SortedDesc(a[..i])
    modifies a
    ensures a[..i + 1] == Insert(old(a[..i]), old(a[i]))
    ensures a[i + 1..] == old(a[i + 1..])
  {
    var key := a[i];
    ghost var t := a[..i];
    ghost var s := a[..];
    var j := ShiftLower(a, i, key);
    a[j] := key;
    InsertAt(t, key, j);
    Spliced(a[..], t, key, i, j);
    assert forall k :: i < k < a.Length ==> a[k] == s[k];
    assert a[i + 1..] == s[i + 1..];
  }

  /** The array after the shifting loop and the final write holds t with key
      spliced in at j. */
  lemma Spliced(u: seq<Hit>, t: seq<Hit>, key: Hit, i: nat, j: nat)
    requires j <= i < |u| && |t| == i
    requires forall k :: 0 <= k < j ==> u[k] == t[k]
    requires u[j] == key
    requires forall k :: j < k <= i ==> u[k] == t[k - 1]
    ensures u[..i + 1] == t[..j] + [key] + t[j..]
  {
    var r := t[..j] + [key] + t[j..];
    assert forall k :: 0 <= k < j ==> r[k] == t[k];
    assert forall k :: j < k <= i ==> r[k] == t[k - 1];
  }

  /** `hits.sort(key=lambda h: h["score"], reverse=True)`, as an in-place
      stable insertion sort: each hit moves left past the hits that score
      strictly less. */
  method SortByScoreDesc(a: array<Hit>)
    modifies a
    ensures a[..] == SortDesc(old(a[..]))
  {
    ghost var s := a[..];
    for i := 0 to a.Length
      invariant a[..i] == SortDesc(s[..i])
      invariant a[i..] == s[i..]
    {
      SortDescSortedPermutation(s[..i]);
      InsertLast(a, i);
      assert s[..i + 1][..i] == s[..i];
    }
    assert s[..a.Length] == s;
  }

  /** `for r, hit in enumerate(hits, 1): hit["rank"] = r` */
  method AssignRanks(a: array<Hit>)
    modifies a
    ensures a[..] == Ranked(old(a[..]))
  {
    ghost var s := a[..];
    for i := 0 to a.Length
      invariant forall k :: 0 <= k < i ==> a[k] == s[k].(rank := k + 1)
      invariant forall k :: i <= k < a.Length ==> a[k] == s[k]
    {
      a[i] := a[i].(rank := i + 1);
    }
  }

  /** The body of rerank_file's loop for one record. */
  method RerankRecord(rec: RetrievalRecord, scores: seq<real>, topK: Option<int>) returns (out: RetrievalRecord)
    ensures out == Reranked(rec, scores, topK)
  {
    var a := new Hit[|rec.hits|](i requires 0 <= i < |rec.hits| => rec.hits[i]);
    assert a[..] == rec.hits;
    Rescore(a, scores);
    SortByScoreDesc(a);
    var kept := Truncate(a[..], topK);
    var b := new Hit[|kept|](i requires 0 <= i < |kept| => kept[i]);
    assert b[..] == kept;
    AssignRanks(b);
    out := rec.(hits := b[..]);
  }

  /** rerank_file(): every record is reranked in place, in order. */
  method RerankFile(data: array<RetrievalRecord>, predict: seq<(string, string)> -> seq<real>, topK: Option<int>)
    modifies data
    ensures forall i :: 0 <= i < data.Length ==> data[i] == Reranked(old(data[i]), predict(Pairs(old(data[i]))), topK)
  {
    for i := 0 to data.Length
      invariant forall k :: 0 <= k < i ==> data[k] == Reranked(old(data[k]), predict(Pairs(old(data[k]))), topK)
      invariant forall k :: i <= k < data.Length ==> data[k] == old(data[k])
    {
      var record := data[i];
      var scores := predict(Pairs(record));
      var r := RerankRecord(record, scores, topK);
      data[i] := r;
    }
  }
}
