/** The retrieval-quality metrics: hit rate, reciprocal rank and NDCG@k with
    binary relevance, and the endpoint's choice of k.

    Scores are exact reals. The logarithmic discount `1 / log2(i + 2)` is a
    parameter `disc` of which only what the proofs need is assumed
    (`ValidDiscount`): `disc(0) == 1`, every value positive, strictly
    decreasing. */
module RetrievalEval {
  import opened Wrappers

  // ---------------------------------------------------------------------------
  // Hit rate

  /** How many entries of `relevant` occur in `retrieved`; a relevant id
      listed twice is counted twice. */
  function CountFound(relevant: seq<string>, retrieved: seq<string>): (n: nat)
    ensures n <= |relevant|
  {
    if |relevant| == 0 then 0
    else CountFound(relevant[..|relevant| - 1], retrieved) + (if relevant[|relevant| - 1] in retrieved then 1 else 0)
  }

  /** `_compute_hit_rate`. */
  function HitRate(retrieved: seq<string>, relevant: seq<string>): (r: real)
    ensures 0.0 <= r <= 1.0
    ensures |relevant| == 0 || |retrieved| == 0 ==> r == 0.0
  {
    if |relevant| == 0 then 0.0
    else if |retrieved| == 0 then 0.0
    else (CountFound(relevant, retrieved) as real) / (|relevant| as real)
  }

  lemma {:induction false} CountFoundExtremes(relevant: seq<string>, retrieved: seq<string>)
    ensures CountFound(relevant, retrieved) == |relevant|
            <==> forall i :: 0 <= i < |relevant| ==> relevant[i] in retrieved
    ensures CountFound(relevant, retrieved) == 0
            <==> forall i :: 0 <= i < |relevant| ==> relevant[i] !in retrieved
    decreases |relevant|
  {
    if |relevant| > 0 {
      var init := relevant[..|relevant| - 1];
      CountFoundExtremes(init, retrieved);
      assert forall i :: 0 <= i < |init| ==> init[i] == relevant[i];
    }
  }

  /** Hit rate is 1 exactly when every relevant entry was retrieved, and 0
      exactly when none was (for non-empty inputs). */
  lemma HitRateExtremes(retrieved: seq<string>, relevant: seq<string>)
    requires |relevant| > 0 && |retrieved| > 0
    ensures HitRate(retrieved, relevant) == 1.0 <==> forall i :: 0 <= i < |relevant| ==> relevant[i] in retrieved
    ensures HitRate(retrieved, relevant) == 0.0 <==> forall i :: 0 <= i < |relevant| ==> relevant[i] !in retrieved
  {
    CountFoundExtremes(relevant, retrieved);
    var c := CountFound(relevant, retrieved) as real;
    var n := |relevant| as real;
    assert c / n == 1.0 <==> c == n;
    assert c / n == 0.0 <==> c == 0.0;
  }

  /** Duplicate relevant entries are counted each time they are found. */
  lemma HitRateCountsDuplicates()
    ensures HitRate(["a"], ["a", "a", "b"]) == 2.0 / 3.0
  {
    assert ["a", "a", "b"][..2] == ["a", "a"];
    assert ["a", "a"][..1] == ["a"];
  }

  // ---------------------------------------------------------------------------
  // Reciprocal rank

  /** The smallest index at or after `from` whose retrieved id is relevant. */
  function FirstRelevant(retrieved: seq<string>, relevant: seq<string>, from: nat): (r: Option<nat>)
    requires from <= |retrieved|
    ensures r.Some? ==> from <= r.value < |retrieved| && retrieved[r.value] in relevant
    ensures r.Some? ==> forall j :: from <= j < r.value ==> retrieved[j] !in relevant
    ensures r.None? ==> forall j :: from <= j < |retrieved| ==> retrieved[j] !in relevant
    decreases |retrieved| - from
  {
    if from == |retrieved| then None
    else if retrieved[from] in relevant then Some(from)
    else FirstRelevant(retrieved, relevant, from + 1)
  }

  /** `_compute_mrr`. */
  function ReciprocalRank(retrieved: seq<string>, relevant: seq<string>): (r: real)
    ensures 0.0 <= r <= 1.0
    ensures |retrieved| == 0 || |relevant| == 0 ==> r == 0.0
  {
    if |retrieved| == 0 || |relevant| == 0 then 0.0
    else match FirstRelevant(retrieved, relevant, 0)
      case Some(i) => 1.0 / ((i + 1) as real)
      case None => 0.0
  }

  /** Reciprocal rank is `1 / (i + 1)` for the first relevant position `i`,
      and 0 when no retrieved id is relevant. */
  lemma ReciprocalRankCharacterised(retrieved: seq<string>, relevant: seq<string>, i: nat)
    requires i < |retrieved| && retrieved[i] in relevant
    requires forall j :: 0 <= j < i ==> retrieved[j] !in relevant
    ensures ReciprocalRank(retrieved, relevant) == 1.0 / ((i + 1) as real)
  {
    var f := FirstRelevant(retrieved, relevant, 0);
    assert f.Some? && f.value == i;
  }

  lemma ReciprocalRankNoneRelevant(retrieved: seq<string>, relevant: seq<string>)
    requires forall j :: 0 <= j < |retrieved| ==> retrieved[j] !in relevant
    ensures ReciprocalRank(retrieved, relevant) == 0.0
  {
    if |retrieved| > 0 && |relevant| > 0 {
      var f := FirstRelevant(retrieved, relevant, 0);
      assert f.None?;
    }
  }

  lemma ReciprocalRankExamples()
    ensures ReciprocalRank(["a", "b", "c"], ["b"]) == 0.5
    ensures ReciprocalRank(["a", "b", "c"], ["z"]) == 0.0
    ensures ReciprocalRank(["x"], ["x"]) == 1.0
  {
    ReciprocalRankCharacterised(["a", "b", "c"], ["b"], 1);
    ReciprocalRankNoneRelevant(["a", "b", "c"], ["z"]);
    ReciprocalRankCharacterised(["x"], ["x"], 0);
  }

  // ---------------------------------------------------------------------------
  // NDCG@k

  /** `disc(i)` stands for `1 / log2(i + 2)`. */
  ghost predicate ValidDiscount(disc: nat -> real) {
    && disc(0) == 1.0
    && (forall i :: disc(i) > 0.0)
    && (forall i, j :: i < j ==> disc(j) < disc(i))
  }

  /** The gain of the first `n` positions. */
  function Dcg(retrieved: seq<string>, relevant: seq<string>, disc: nat -> real, n: nat): real
    requires n <= |retrieved|
  {
    if n == 0 then 0.0
    else Dcg(retrieved, relevant, disc, n - 1) + (if retrieved[n - 1] in relevant then disc(n - 1) else 0.0)
  }

  /** The gain of `n` relevant items in the first `n` positions. */
  function Ideal(disc: nat -> real, n: nat): real {
    if n == 0 then 0.0 else Ideal(disc, n - 1) + disc(n - 1)
  }

  function Min(a: int, b: int): int { if a < b then a else b }

  /** `_compute_ndcg`. Python's `range` of a negative bound is empty. */
  function Ndcg(retrieved: seq<string>, relevant: seq<string>, k: int, disc: nat -> real): real {
    if |retrieved| == 0 || |relevant| == 0 then 0.0
    else
      var limit := Min(k, |retrieved|);
      var dcg := Dcg(retrieved, relevant, disc, if limit < 0 then 0 else limit);
      var idealCount := Min(k, |relevant|);
      var idcg := Ideal(disc, if idealCount < 0 then 0 else idealCount);
      if idcg == 0.0 then 0.0 else dcg / idcg
  }

  lemma {:induction false} DcgNonNegative(retrieved: seq<string>, relevant: seq<string>, disc: nat -> real, n: nat)
    requires ValidDiscount(disc) && n <= |retrieved|
    ensures Dcg(retrieved, relevant, disc, n) >= 0.0
    decreases n
  {
    if n > 0 {
      DcgNonNegative(retrieved, relevant, disc, n - 1);
    }
  }

  lemma {:induction false} IdealMonotone(disc: nat -> real, a: nat, b: nat)
    requires ValidDiscount(disc) && a <= b
    ensures 0.0 <= Ideal(disc, a) <= Ideal(disc, b)
    ensures a < b ==> Ideal(disc, a) < Ideal(disc, b)
    decreases b
  {
    if b > 0 {
      if a == b {
        IdealMonotone(disc, a - 1, b - 1);
      } else {
        IdealMonotone(disc, a, b - 1);
      }
    }
  }

  /** NDCG is never negative, and it is 0 for an empty list or when `k <= 0`
      (the ideal gain is then 0). */
  lemma NdcgZeroCases(retrieved: seq<string>, relevant: seq<string>, k: int, disc: nat -> real)
    requires ValidDiscount(disc)
    ensures Ndcg(retrieved, relevant, k, disc) >= 0.0
    ensures |retrieved| == 0 || |relevant| == 0 || k <= 0 ==> Ndcg(retrieved, relevant, k, disc) == 0.0
  {
    if |retrieved| > 0 && |relevant| > 0 {
      var limit := Min(k, |retrieved|);
      DcgNonNegative(retrieved, relevant, disc, if limit < 0 then 0 else limit);
      var idealCount := Min(k, |relevant|);
      IdealMonotone(disc, 0, if idealCount < 0 then 0 else idealCount);
    }
  }

  lemma {:induction false} DcgPrefix(a: seq<string>, b: seq<string>, relevant: seq<string>, disc: nat -> real, n: nat)
    requires n <= |a| && n <= |b| && a[..n] == b[..n]
    ensures Dcg(a, relevant, disc, n) == Dcg(b, relevant, disc, n)
    decreases n
  {
    if n > 0 {
      assert a[..n - 1] == b[..n - 1] by {
        assert a[..n - 1] == a[..n][..n - 1];
        assert b[..n - 1] == b[..n][..n - 1];
      }
      assert a[n - 1] == a[..n][n - 1];
      assert b[n - 1] == b[..n][n - 1];
      DcgPrefix(a, b, relevant, disc, n - 1);
    }
  }

  /** NDCG only looks at the first `k` retrieved positions: for a positive
      `k`, two lists at least `k` long that agree there score the same. */
  lemma NdcgPrefixOnly(a: seq<string>, b: seq<string>, relevant: seq<string>, k: nat, disc: nat -> real)
    requires 0 < k <= |a| && k <= |b| && a[..k] == b[..k]
    ensures Ndcg(a, relevant, k, disc) == Ndcg(b, relevant, k, disc)
  {
    DcgPrefix(a, b, relevant, disc, k);
  }

  /** How many of the first `n` retrieved positions hold a relevant id. */
  function CountRelevant(retrieved: seq<string>, relevant: seq<string>, n: nat): (c: nat)
    requires n <= |retrieved|
    ensures c <= n
  {
    if n == 0 then 0
    else CountRelevant(retrieved, relevant, n - 1) + (if retrieved[n - 1] in relevant then 1 else 0)
  }

  /** The gain of the first `n` positions is at most the ideal gain of as
      many relevant items as they hold, because the discount decreases. */
  lemma {:induction false} DcgAtMostIdeal(retrieved: seq<string>, relevant: seq<string>, disc: nat -> real, n: nat)
    requires ValidDiscount(disc) && n <= |retrieved|
    ensures Dcg(retrieved, relevant, disc, n) <= Ideal(disc, CountRelevant(retrieved, relevant, n))
    decreases n
  {
    if n > 0 {
      DcgAtMostIdeal(retrieved, relevant, disc, n - 1);
      var c := CountRelevant(retrieved, relevant, n - 1);
      if retrieved[n - 1] in relevant && c < n - 1 {
        assert disc(n - 1) < disc(c);
      }
    }
  }

  /** The relevant ids found in the first `n` positions. */
  function FoundSet(retrieved: seq<string>, relevant: seq<string>, n: nat): set<string>
    requires n <= |retrieved|
  {
    set i | 0 <= i < n && retrieved[i] in relevant :: retrieved[i]
  }

  /** Without duplicate retrieved ids, every relevant position holds a
      different relevant id. */
  lemma {:induction false} CountRelevantIsFound(retrieved: seq<string>, relevant: seq<string>, n: nat)
    requires n <= |retrieved|
    requires forall i, j :: 0 <= i < j < |retrieved| ==> retrieved[i] != retrieved[j]
    ensures CountRelevant(retrieved, relevant, n) == |FoundSet(retrieved, relevant, n)|
    decreases n
  {
    if n > 0 {
      CountRelevantIsFound(retrieved, relevant, n - 1);
      var prev := FoundSet(retrieved, relevant, n - 1);
      if retrieved[n - 1] in relevant {
        assert FoundSet(retrieved, relevant, n) == prev + {retrieved[n - 1]};
        assert retrieved[n - 1] !in prev;
      } else {
        assert FoundSet(retrieved, relevant, n) == prev;
      }
    }
  }

  lemma {:induction false} DistinctEntriesBound(s: seq<string>)
    ensures |set x | x in s| <= |s|
    decreases |s|
  {
    if |s| > 0 {
      var init := s[..|s| - 1];
      DistinctEntriesBound(init);
      assert (set x | x in s) == (set x | x in init) + {s[|s| - 1]};
    }
  }

  lemma SubsetCard<T>(a: set<T>, b: set<T>)
    requires a <= b
    ensures |a| <= |b|
  {
    assert b == a + (b - a);
  }

  /** Without duplicate retrieved ids, no more positions are relevant than
      there are relevant entries. */
  lemma CountRelevantBound(retrieved: seq<string>, relevant: seq<string>, n: nat)
    requires n <= |retrieved|
    requires forall i, j :: 0 <= i < j < |retrieved| ==> retrieved[i] != retrieved[j]
    ensures CountRelevant(retrieved, relevant, n) <= |relevant|
  {
    CountRelevantIsFound(retrieved, relevant, n);
    var found := FoundSet(retrieved, relevant, n);
    var relSet := set x | x in relevant;
    assert found <= relSet;
    SubsetCard(found, relSet);
    DistinctEntriesBound(relevant);
  }

  lemma RatioAtMostOne(a: real, b: real)
    requires 0.0 <= a <= b && b > 0.0
    ensures a / b <= 1.0
  {
  }

  /** With no duplicate retrieved ids, NDCG is at most 1. */
  lemma NdcgAtMostOne(retrieved: seq<string>, relevant: seq<string>, k: int, disc: nat -> real)
    requires ValidDiscount(disc)
    requires forall i, j :: 0 <= i < j < |retrieved| ==> retrieved[i] != retrieved[j]
    ensures 0.0 <= Ndcg(retrieved, relevant, k, disc) <= 1.0
  {
    NdcgZeroCases(retrieved, relevant, k, disc);
    if |retrieved| > 0 && |relevant| > 0 && k > 0 {
      var limit := Min(k, |retrieved|);
      var ideal := Min(k, |relevant|);
      var c := CountRelevant(retrieved, relevant, limit);
      DcgAtMostIdeal(retrieved, relevant, disc, limit);
      CountRelevantBound(retrieved, relevant, limit);
      IdealMonotone(disc, c, ideal);
      IdealMonotone(disc, 0, ideal);
      DcgNonNegative(retrieved, relevant, disc, limit);
      RatioAtMostOne(Dcg(retrieved, relevant, disc, limit), Ideal(disc, ideal));
    }
  }

  /** With a duplicate retrieved id NDCG exceeds 1: `["a", "a"]` against
      `["a"]` at k = 2 scores `1 + disc(1)`. */
  lemma NdcgDuplicatesExceedOne(disc: nat -> real)
    requires ValidDiscount(disc)
    ensures Ndcg(["a", "a"], ["a"], 2, disc) == 1.0 + disc(1)
    ensures Ndcg(["a", "a"], ["a"], 2, disc) > 1.0
  {
    assert Ideal(disc, 1) == 1.0;
    assert Dcg(["a", "a"], ["a"], disc, 2) == 1.0 + disc(1);
  }

  /** A single relevant id retrieved first, and not again, scores 1. */
  lemma NdcgSingleRelevantFirst(retrieved: seq<string>, x: string, k: int, disc: nat -> real)
    requires ValidDiscount(disc)
    requires |retrieved| > 0 && retrieved[0] == x && x !in retrieved[1..]
    requires k >= 1
    ensures Ndcg(retrieved, [x], k, disc) == 1.0
  {
    var limit := Min(k, |retrieved|);
    DcgSingle(retrieved, x, disc, limit);
    assert Ideal(disc, 1) == 1.0;
  }

  lemma {:induction false} DcgSingle(retrieved: seq<string>, x: string, disc: nat -> real, n: nat)
    requires 1 <= n <= |retrieved| && retrieved[0] == x && x !in retrieved[1..]
    requires disc(0) == 1.0
    ensures Dcg(retrieved, [x], disc, n) == 1.0
    decreases n
  {
    if n > 1 {
      DcgSingle(retrieved, x, disc, n - 1);
      assert retrieved[n - 1] == retrieved[1..][n - 2];
    }
  }

  /** The relevant id found last of three scores `disc(2) / disc(0)`. */
  lemma NdcgRelevantLast(disc: nat -> real)
    requires ValidDiscount(disc)
    ensures Ndcg(["c", "b", "a"], ["a"], 3, disc) == disc(2) / disc(0)
  {
    assert Ideal(disc, 1) == 1.0;
    assert Dcg(["c", "b", "a"], ["a"], disc, 3) == disc(2);
  }

  // ---------------------------------------------------------------------------
  // The endpoint

  datatype RetrievalEvalRequest = RetrievalEvalRequest(retrievedIds: seq<string>, relevantIds: seq<string>, k: Option<int>)
  datatype RetrievalEvalResponse = RetrievalEvalResponse(hitRate: real, mrr: real, ndcgAtK: real, k: int)

  /** `req.k or 5`: an absent or zero k means 5. */
  function EffectiveK(k: Option<int>): (r: int)
    ensures r != 0
    ensures k.Some? && k.value != 0 ==> r == k.value
    ensures k.None? || k.value == 0 ==> r == 5
  {
    if k.None? || k.value == 0 then 5 else k.value
  }

  /** `evaluate_retrieval`: all three metrics at the effective k, which the
      response echoes; hit rate and reciprocal rank lie in [0, 1]. */
  function EvaluateRetrieval(req: RetrievalEvalRequest, disc: nat -> real): (r: RetrievalEvalResponse)
    ensures r.k == EffectiveK(req.k)
    ensures req.k.None? ==> r.k == 5
    ensures r.hitRate == HitRate(req.retrievedIds, req.relevantIds)
    ensures r.mrr == ReciprocalRank(req.retrievedIds, req.relevantIds)
    ensures 0.0 <= r.hitRate <= 1.0 && 0.0 <= r.mrr <= 1.0
    ensures r.ndcgAtK == Ndcg(req.retrievedIds, req.relevantIds, r.k, disc)
  {
    var k := EffectiveK(req.k);
    RetrievalEvalResponse(
      HitRate(req.retrievedIds, req.relevantIds),
      ReciprocalRank(req.retrievedIds, req.relevantIds),
      Ndcg(req.retrievedIds, req.relevantIds, k, disc),
      k)
  }

  /** The response's hit rate is 1 exactly when every relevant id was
      retrieved and 0 exactly when none was; its reciprocal rank is
      `1/(i+1)` for the first relevant position `i`, and 0 when no retrieved
      id is relevant. */
  lemma EvaluateRetrievalMeaning(req: RetrievalEvalRequest, disc: nat -> real)
    ensures var r := EvaluateRetrieval(req, disc);
            |req.relevantIds| > 0 && |req.retrievedIds| > 0 ==>
              && (r.hitRate == 1.0 <==> forall i :: 0 <= i < |req.relevantIds| ==> req.relevantIds[i] in req.retrievedIds)
              && (r.hitRate == 0.0 <==> forall i :: 0 <= i < |req.relevantIds| ==> req.relevantIds[i] !in req.retrievedIds)
    ensures var r := EvaluateRetrieval(req, disc);
            forall i :: 0 <= i < |req.retrievedIds| && req.retrievedIds[i] in req.relevantIds
                        && (forall j :: 0 <= j < i ==> req.retrievedIds[j] !in req.relevantIds)
                        ==> r.mrr == 1.0 / ((i + 1) as real)
    ensures (forall j :: 0 <= j < |req.retrievedIds| ==> req.retrievedIds[j] !in req.relevantIds)
            ==> EvaluateRetrieval(req, disc).mrr == 0.0
  {
    if |req.relevantIds| > 0 && |req.retrievedIds| > 0 {
      HitRateExtremes(req.retrievedIds, req.relevantIds);
    }
    forall i | 0 <= i < |req.retrievedIds| && req.retrievedIds[i] in req.relevantIds
               && (forall j :: 0 <= j < i ==> req.retrievedIds[j] !in req.relevantIds)
      ensures ReciprocalRank(req.retrievedIds, req.relevantIds) == 1.0 / ((i + 1) as real)
    {
      ReciprocalRankCharacterised(req.retrievedIds, req.relevantIds, i);
    }
    if forall j :: 0 <= j < |req.retrievedIds| ==> req.retrievedIds[j] !in req.relevantIds {
      ReciprocalRankNoneRelevant(req.retrievedIds, req.relevantIds);
    }
  }
}
