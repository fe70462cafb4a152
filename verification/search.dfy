/** The search router: the plain single-namespace search and its three fixed
    namespace shortcuts, the broad "investigate" search over the four
    namespaces, and the "advanced" search over decomposed sub-queries with
    first-seen de-duplication. Each handler returns its response together
    with the sequence of `PineconeService.search` calls it made. */
module SearchRouter {
  import opened Wrappers
  import opened Json
  import opened PineconeService
  import opened StableSort
  import Slicing
  import QueryDecomposer

  datatype SearchRequest = SearchRequest(
    query: string,
    namespace: string,
    topK: int,
    filters: Option<map<string, Value>>,
    rerank: bool)

  datatype SearchResponse = SearchResponse(success: bool, results: seq<Hit>, namespace: string, query: string)

  /** A handler's outcome (an uncaught backend fault is `Err`) and the
      backend calls it made, in order. */
  datatype Run = Run(outcome: Result<SearchResponse>, calls: seq<SearchCall>)

  /** The namespaces searched by "investigate" and "advanced", in order. */
  const Namespaces: seq<string> := ["fraud-cases", "onboarding-knowledge", "risk-patterns", "investigations"]

  /** The number of sub-queries "advanced" asks the decomposer for, and the
      `top_k` of each of its per-pair calls. */
  const AdvancedSubQueries: int := 3
  const AdvancedPairTopK: int := 3

  // ---------------------------------------------------------------------------
  // Plain search and its shortcuts

  function PlainCall(req: SearchRequest): SearchCall {
    SearchCall(req.namespace, Str(req.query), req.topK, req.filters, req.rerank)
  }

  /** `search`: one call with the request's own arguments; the response
      carries the backend's hits unchanged and in order. A backend fault is
      not caught. */
  function Search(svc: Searcher, req: SearchRequest): (r: Run)
    ensures r.calls == [SearchCall(req.namespace, Str(req.query), req.topK, req.filters, req.rerank)]
    ensures r.outcome.Ok? <==> svc(r.calls[0]).Ok?
    ensures r.outcome.Ok? ==> r.outcome.value.success
    ensures r.outcome.Ok? ==> r.outcome.value.namespace == req.namespace && r.outcome.value.query == req.query
    ensures r.outcome.Ok? ==> |r.outcome.value.results| == |svc(r.calls[0]).value|
    ensures r.outcome.Ok? ==>
              forall i :: 0 <= i < |r.outcome.value.results| ==>
                var res := r.outcome.value.results[i];
                var h := svc(r.calls[0]).value[i];
                res.id == h.id && res.text == h.text && res.score == h.score && res.metadata == h.metadata
  {
    var call := PlainCall(req);
    match svc(call)
    case Ok(hits) => Run(Ok(SearchResponse(true, hits, req.namespace, req.query)), [call])
    case Err(e) => Run(Err(e), [call])
  }

  /** `search_similar_cases`: forces namespace "fraud-cases" and rerank. */
  function SearchSimilarCases(svc: Searcher, req: SearchRequest): (r: Run)
    ensures r.calls == [SearchCall("fraud-cases", Str(req.query), req.topK, req.filters, true)]
    ensures r.outcome.Ok? ==> r.outcome.value.namespace == "fraud-cases"
  {
    Search(svc, req.(namespace := "fraud-cases", rerank := true))
  }

  /** `search_knowledge`: forces namespace "onboarding-knowledge", keeps the
      requested rerank flag. */
  function SearchKnowledge(svc: Searcher, req: SearchRequest): (r: Run)
    ensures r.calls == [SearchCall("onboarding-knowledge", Str(req.query), req.topK, req.filters, req.rerank)]
    ensures r.outcome.Ok? ==> r.outcome.value.namespace == "onboarding-knowledge"
  {
    Search(svc, req.(namespace := "onboarding-knowledge"))
  }

  /** `search_patterns`: forces namespace "risk-patterns", keeps the
      requested rerank flag. */
  function SearchPatterns(svc: Searcher, req: SearchRequest): (r: Run)
    ensures r.calls == [SearchCall("risk-patterns", Str(req.query), req.topK, req.filters, req.rerank)]
    ensures r.outcome.Ok? ==> r.outcome.value.namespace == "risk-patterns"
  {
    Search(svc, req.(namespace := "risk-patterns"))
  }

  // ---------------------------------------------------------------------------
  // Merge shared by both multi-namespace variants

  function ScoreOf(h: Hit): real { h.score }

  /** `all_results.sort(key=score, reverse=True); all_results[:top_k]`. */
  function Merge(collected: seq<Hit>, topK: int): (r: seq<Hit>)
    ensures SortedDesc(r, ScoreOf)
    ensures topK >= 0 ==> |r| == (if topK < |collected| then topK else |collected|)
    ensures multiset(r) <= multiset(collected)
  {
    var sorted := Sort(collected, ScoreOf);
    Slicing.TakeLength(sorted, topK);
    PrefixMultiset(sorted, Slicing.Take(sorted, topK));
    Slicing.Take(sorted, topK)
  }

  lemma PrefixMultiset<T>(s: seq<T>, p: seq<T>)
    requires p <= s
    ensures multiset(p) <= multiset(s)
  {
    assert s == p + s[|p|..];
  }

  /** The merge is the leading part of the (unique) stable descending sort of
      what was collected: hits with equal scores keep collection order. */
  lemma MergeIsPrefixOfStableSort(collected: seq<Hit>, topK: int, out: seq<Hit>)
    requires IsStableSortOf(out, collected, ScoreOf)
    ensures Merge(collected, topK) == Slicing.Take(out, topK)
  {
    SortIsTheStableSort(collected, out, ScoreOf);
  }

  /** Merging keeps ids distinct when the collected hits have distinct ids. */
  lemma MergeKeepsDistinctIds(collected: seq<Hit>, topK: int)
    requires forall i, j :: 0 <= i < j < |collected| ==> collected[i].id != collected[j].id
    ensures forall i, j :: 0 <= i < j < |Merge(collected, topK)| ==>
              Merge(collected, topK)[i].id != Merge(collected, topK)[j].id
  {
    SortKeepsDistinct(collected, ScoreOf, (h: Hit) => h.id);
    var sorted := Sort(collected, ScoreOf);
    assert Merge(collected, topK) <= sorted;
  }

  // ---------------------------------------------------------------------------
  // Investigate: four namespaces, no de-duplication

  function InvestigateCall(query: string, topK: int, ns: string): SearchCall {
    SearchCall(ns, Str(query), topK, None, true)
  }

  /** `h["metadata"]["namespace"] = ns`, overwriting any earlier value. */
  function TagNamespace(h: Hit, ns: string): Hit {
    h.(metadata := h.metadata["namespace" := Str(ns)])
  }

  function TagAllNamespace(hits: seq<Hit>, ns: string): (r: seq<Hit>)
    ensures |r| == |hits|
    ensures forall i :: 0 <= i < |r| ==> r[i] == TagNamespace(hits[i], ns)
  {
    if |hits| == 0 then [] else [TagNamespace(hits[0], ns)] + TagAllNamespace(hits[1..], ns)
  }

  datatype Collected = Collected(hits: Result<seq<Hit>>, calls: seq<SearchCall>)

  /** The hits of every namespace that answered, each tagged with its
      namespace, one namespace after the other in order. */
  function TaggedHits(svc: Searcher, query: string, topK: int, nss: seq<string>): (r: seq<Hit>)
    ensures |r| == TotalHits(svc, query, topK, nss)
  {
    if |nss| == 0 then []
    else
      var res := svc(InvestigateCall(query, topK, nss[0]));
      (if res.Ok? then TagAllNamespace(res.value, nss[0]) else []) + TaggedHits(svc, query, topK, nss[1..])
  }

  /** Namespace `nss[i]`'s hits sit, tagged and in their own order, right
      after the hits of the namespaces before it: every hit is kept once, in
      the position its namespace and rank give it. */
  lemma {:induction false} TaggedHitsBlock(svc: Searcher, query: string, topK: int, nss: seq<string>, i: nat)
    requires i < |nss| && svc(InvestigateCall(query, topK, nss[i])).Ok?
    ensures BlockAt(svc, query, topK, nss, i)
    decreases i
  {
    if i == 0 {
      TaggedHitsBlockFirst(svc, query, topK, nss);
    } else {
      assert nss[1..][i - 1] == nss[i];
      TaggedHitsBlock(svc, query, topK, nss[1..], i - 1);
      TaggedHitsBlockNext(svc, query, topK, nss, i);
    }
  }

  /** Namespace `nss[i]` answered, and its tagged hits sit right after those
      of the namespaces before it. */
  ghost predicate BlockAt(svc: Searcher, query: string, topK: int, nss: seq<string>, i: nat)
    requires i < |nss|
  {
    var res := svc(InvestigateCall(query, topK, nss[i]));
    var start := TotalHits(svc, query, topK, nss[..i]);
    && res.Ok?
    && start + |res.value| <= |TaggedHits(svc, query, topK, nss)|
    && TaggedHits(svc, query, topK, nss)[start..start + |res.value|] == TagAllNamespace(res.value, nss[i])
  }

  lemma TaggedHitsBlockFirst(svc: Searcher, query: string, topK: int, nss: seq<string>)
    requires 0 < |nss| && svc(InvestigateCall(query, topK, nss[0])).Ok?
    ensures BlockAt(svc, query, topK, nss, 0)
  {
    var head := TagAllNamespace(svc(InvestigateCall(query, topK, nss[0])).value, nss[0]);
    var rest := TaggedHits(svc, query, topK, nss[1..]);
    assert TaggedHits(svc, query, topK, nss) == head + rest;
    assert nss[..0] == [];
    SliceOfLeft(head, rest);
  }

  lemma TaggedHitsBlockNext(svc: Searcher, query: string, topK: int, nss: seq<string>, i: nat)
    requires 0 < i < |nss|
    requires nss[1..][i - 1] == nss[i]
    requires BlockAt(svc, query, topK, nss[1..], i - 1)
    ensures BlockAt(svc, query, topK, nss, i)
  {
    var res := svc(InvestigateCall(query, topK, nss[0]));
    var head := if res.Ok? then TagAllNamespace(res.value, nss[0]) else [];
    var rest := TaggedHits(svc, query, topK, nss[1..]);
    assert TaggedHits(svc, query, topK, nss) == head + rest;
    TotalHitsPrefix(svc, query, topK, nss, i);
    var hits := svc(InvestigateCall(query, topK, nss[i])).value;
    var start := TotalHits(svc, query, topK, nss[1..][..i - 1]);
    var block := TagAllNamespace(hits, nss[i]);
    assert rest[start..start + |hits|] == block;
    assert TotalHits(svc, query, topK, nss[..i]) == |head| + start;
    BlockOfConcat(head, rest, start, block);
  }

  /** The hits before namespace `i` are those of the first namespace and
      then those before it among the rest. */
  lemma TotalHitsPrefix(svc: Searcher, query: string, topK: int, nss: seq<string>, i: nat)
    requires 0 < i <= |nss|
    ensures var res := svc(InvestigateCall(query, topK, nss[0]));
            TotalHits(svc, query, topK, nss[..i])
            == (if res.Ok? then |res.value| else 0) + TotalHits(svc, query, topK, nss[1..][..i - 1])
  {
    assert nss[..i][1..] == nss[1..][..i - 1];
  }

  lemma SliceOfLeft<T>(a: seq<T>, b: seq<T>)
    ensures (a + b)[0..|a|] == a
  {
  }

  /** A block found at `start` in `b` is found at `|a| + start` in `a + b`. */
  lemma BlockOfConcat<T>(a: seq<T>, b: seq<T>, start: nat, block: seq<T>)
    requires start + |block| <= |b| && b[start..start + |block|] == block
    ensures |a| + start + |block| <= |a + b|
    ensures (a + b)[|a| + start..|a| + start + |block|] == block
  {
    assert forall k :: start <= k < start + |block| ==> (a + b)[|a| + k] == b[k];
  }

  /** The namespace loop of `search_investigate`; the first fault aborts it. */
  function CollectInvestigate(svc: Searcher, query: string, topK: int, nss: seq<string>): (c: Collected)
    ensures |c.calls| <= |nss|
    ensures forall i :: 0 <= i < |c.calls| ==> c.calls[i] == InvestigateCall(query, topK, nss[i])
    ensures c.hits.Ok? <==> forall i :: 0 <= i < |nss| ==> svc(InvestigateCall(query, topK, nss[i])).Ok?
    ensures c.hits.Ok? ==> |c.calls| == |nss|
    ensures c.hits.Ok? ==> c.hits.value == TaggedHits(svc, query, topK, nss)
    ensures c.hits.Ok? ==> |c.hits.value| == TotalHits(svc, query, topK, nss)
    ensures c.hits.Ok? ==>
              forall e :: e in c.hits.value ==>
                exists i :: 0 <= i < |nss| && NamespaceProduced(svc, query, topK, nss[i], e)
    ensures c.hits.Err? ==> StoppedAtFirstFault(svc, query, topK, nss, |c.calls|, c.hits.error)
    decreases |nss|
  {
    if |nss| == 0 then Collected(Ok([]), [])
    else
      var call := InvestigateCall(query, topK, nss[0]);
      match svc(call)
      case Err(e) =>
        assert FirstFault(svc, query, topK, nss, 0);
        Collected(Err(e), [call])
      case Ok(hits) =>
        var rest := CollectInvestigate(svc, query, topK, nss[1..]);
        var tagged := TagAllNamespace(hits, nss[0]);
        TaggedProduced(svc, query, topK, nss[0], hits);
        CallsShift(query, topK, nss, rest.calls);
        if rest.hits.Err? then
          StoppedLater(svc, query, topK, nss, |rest.calls|, rest.hits.error);
          Collected(rest.hits, [call] + rest.calls)
        else
          Collected(Ok(tagged + rest.hits.value), [call] + rest.calls)
  }

  /** Namespace `i` is the first whose call failed: every earlier one answered. */
  ghost predicate FirstFault(svc: Searcher, query: string, topK: int, nss: seq<string>, i: nat)
    requires i < |nss|
  {
    svc(InvestigateCall(query, topK, nss[i])).Err?
    && forall j :: 0 <= j < i ==> svc(InvestigateCall(query, topK, nss[j])).Ok?
  }

  /** The loop stopped after `made` calls at the first namespace that
      failed, with that namespace's error. */
  ghost predicate StoppedAtFirstFault(svc: Searcher, query: string, topK: int, nss: seq<string>,
                                      made: nat, error: string)
  {
    exists i :: 0 <= i < |nss| && FirstFault(svc, query, topK, nss, i)
                && made == i + 1 && error == svc(InvestigateCall(query, topK, nss[i])).error
  }

  /** Stopping among the rest is stopping one call later, when the first
      namespace answered. */
  lemma StoppedLater(svc: Searcher, query: string, topK: int, nss: seq<string>, made: nat, error: string)
    requires 0 < |nss| && svc(InvestigateCall(query, topK, nss[0])).Ok?
    requires StoppedAtFirstFault(svc, query, topK, nss[1..], made, error)
    ensures StoppedAtFirstFault(svc, query, topK, nss, made + 1, error)
  {
    var i :| 0 <= i < |nss[1..]| && FirstFault(svc, query, topK, nss[1..], i)
             && made == i + 1 && error == svc(InvestigateCall(query, topK, nss[1..][i])).error;
    forall j | 0 <= j < i + 1 ensures svc(InvestigateCall(query, topK, nss[j])).Ok? {
      if j > 0 { assert nss[j] == nss[1..][j - 1]; }
    }
    assert nss[i + 1] == nss[1..][i];
    assert FirstFault(svc, query, topK, nss, i + 1);
  }

  /** The calls made for the rest, after the first namespace's call, are the
      calls for a prefix of all the namespaces. */
  lemma CallsShift(query: string, topK: int, nss: seq<string>, calls: seq<SearchCall>)
    requires 0 < |nss| && |calls| < |nss|
    requires forall i :: 0 <= i < |calls| ==> calls[i] == InvestigateCall(query, topK, nss[1..][i])
    ensures forall i :: 0 <= i < |calls| + 1 ==>
              ([InvestigateCall(query, topK, nss[0])] + calls)[i] == InvestigateCall(query, topK, nss[i])
  {
    forall i | 0 <= i < |calls| + 1
      ensures ([InvestigateCall(query, topK, nss[0])] + calls)[i] == InvestigateCall(query, topK, nss[i])
    {
      if i > 0 { assert nss[i] == nss[1..][i - 1]; }
    }
  }

  /** Every hit tagged from namespace `ns`'s answer was produced by `ns`. */
  lemma TaggedProduced(svc: Searcher, query: string, topK: int, ns: string, hits: seq<Hit>)
    requires svc(InvestigateCall(query, topK, ns)) == Ok(hits)
    ensures forall e :: e in TagAllNamespace(hits, ns) ==> NamespaceProduced(svc, query, topK, ns, e)
  {
    var tagged := TagAllNamespace(hits, ns);
    forall e | e in tagged ensures NamespaceProduced(svc, query, topK, ns, e) {
      var k :| 0 <= k < |tagged| && tagged[k] == e;
      assert hits[k] in hits;
    }
  }

  /** `e` is a hit namespace `ns` returned, tagged with `ns`. */
  ghost predicate NamespaceProduced(svc: Searcher, query: string, topK: int, ns: string, e: Hit) {
    var r := svc(InvestigateCall(query, topK, ns));
    r.Ok? && exists h :: h in r.value && e == TagNamespace(h, ns)
  }

  /** How many hits the namespaces returned altogether. */
  function TotalHits(svc: Searcher, query: string, topK: int, nss: seq<string>): nat {
    if |nss| == 0 then 0
    else
      var r := svc(InvestigateCall(query, topK, nss[0]));
      (if r.Ok? then |r.value| else 0) + TotalHits(svc, query, topK, nss[1..])
  }

  /** `search_investigate`: queries the four namespaces in order with the
      request's `top_k` and rerank on; keeps every hit (no de-duplication),
      each tagged with the namespace that produced it; answers namespace
      "all". A backend fault is not caught and fails the request. */
  function SearchInvestigate(svc: Searcher, req: SearchRequest): (r: Run)
    ensures |r.calls| <= |Namespaces|
    ensures forall i :: 0 <= i < |r.calls| ==> r.calls[i] == SearchCall(Namespaces[i], Str(req.query), req.topK, None, true)
    ensures r.outcome.Ok? <==> forall i :: 0 <= i < 4 ==> svc(InvestigateCall(req.query, req.topK, Namespaces[i])).Ok?
    ensures r.outcome.Ok? ==> |r.calls| == 4
    ensures r.outcome.Err? ==>
              StoppedAtFirstFault(svc, req.query, req.topK, Namespaces, |r.calls|, r.outcome.error)
    ensures r.outcome.Ok? ==> r.outcome.value.success && r.outcome.value.namespace == "all"
    ensures r.outcome.Ok? ==> r.outcome.value.results == Merge(TaggedHits(svc, req.query, req.topK, Namespaces), req.topK)
    ensures r.outcome.Ok? ==> SortedDesc(r.outcome.value.results, ScoreOf)
    ensures r.outcome.Ok? && req.topK >= 0 ==>
              |r.outcome.value.results| == (if req.topK < TotalHits(svc, req.query, req.topK, Namespaces)
                                            then req.topK else TotalHits(svc, req.query, req.topK, Namespaces))
    ensures r.outcome.Ok? ==>
              forall e :: e in r.outcome.value.results ==>
                exists i :: 0 <= i < 4 && NamespaceProduced(svc, req.query, req.topK, Namespaces[i], e)
  {
    var c := CollectInvestigate(svc, req.query, req.topK, Namespaces);
    match c.hits
    case Err(e) => Run(Err(e), c.calls)
    case Ok(collected) =>
      var top := Merge(collected, req.topK);
      assert forall e :: e in top ==> e in collected by {
        forall e | e in top ensures e in collected {
          assert e in multiset(top);
        }
      }
      Run(Ok(SearchResponse(true, top, "all", req.query)), c.calls)
  }

  /** Investigate answers the leading `top_k` of the stable descending sort
      of the namespaces' tagged hits in namespace order: among equal scores
      the earlier namespace, then the better-ranked hit, comes first. */
  lemma InvestigateResults(svc: Searcher, req: SearchRequest, out: seq<Hit>)
    requires SearchInvestigate(svc, req).outcome.Ok?
    requires IsStableSortOf(out, TaggedHits(svc, req.query, req.topK, Namespaces), ScoreOf)
    ensures SearchInvestigate(svc, req).outcome.value.results == Slicing.Take(out, req.topK)
  {
    MergeIsPrefixOfStableSort(TaggedHits(svc, req.query, req.topK, Namespaces), req.topK, out);
  }

  // ---------------------------------------------------------------------------
  // Advanced: sub-queries x namespaces, first-seen de-duplication

  /** The (sub-query, namespace) pairs in loop order: sub-queries outer,
      namespaces inner. */
  function Pairs(subQueries: seq<Value>, nss: seq<string>): (ps: seq<(Value, string)>)
    ensures |ps| == |subQueries| * |nss|
  {
    if |subQueries| == 0 then []
    else
      var row := seq(|nss|, j requires 0 <= j < |nss| => (subQueries[0], nss[j]));
      row + Pairs(subQueries[1..], nss)
  }

  lemma PairsSplit(subQueries: seq<Value>, nss: seq<string>)
    requires |subQueries| > 0
    ensures Pairs(subQueries, nss)[..|nss|] == seq(|nss|, j requires 0 <= j < |nss| => (subQueries[0], nss[j]))
    ensures Pairs(subQueries, nss)[|nss|..] == Pairs(subQueries[1..], nss)
  {
  }

  lemma RowMajorBound(i: nat, j: nat, m: nat, n: nat)
    requires i < m && j < n
    ensures i * n + j < m * n
  {
    assert (i + 1) * n == i * n + n;
    assert (i + 1) * n <= m * n;
  }

  /** Pair number `i * |nss| + j` is sub-query `i` with namespace `j`. */
  lemma {:induction false} PairsOrder(subQueries: seq<Value>, nss: seq<string>, i: nat, j: nat)
    requires i < |subQueries| && j < |nss|
    ensures i * |nss| + j < |Pairs(subQueries, nss)|
    ensures Pairs(subQueries, nss)[i * |nss| + j] == (subQueries[i], nss[j])
    decreases i
  {
    var n := |nss|;
    RowMajorBound(i, j, |subQueries|, n);
    PairsSplit(subQueries, nss);
    var ps := Pairs(subQueries, nss);
    if i == 0 {
      assert ps[j] == ps[..n][j];
    } else {
      PairsOrder(subQueries[1..], nss, i - 1, j);
      var k := (i - 1) * n + j;
      assert i * n + j == n + k by {
        assert i * n == (i - 1) * n + n;
      }
      assert ps[n + k] == ps[n..][k];
    }
  }

  function AdvancedCall(p: (Value, string)): SearchCall {
    SearchCall(p.1, p.0, AdvancedPairTopK, None, true)
  }

  /** Namespace and sub-query annotations of a kept hit. */
  function TagPair(h: Hit, p: (Value, string)): Hit {
    h.(metadata := h.metadata["namespace" := Str(p.1)]["sub_query" := p.0])
  }

  function TagAllPair(hits: seq<Hit>, p: (Value, string)): (r: seq<Hit>)
    ensures |r| == |hits|
    ensures forall i :: 0 <= i < |r| ==> r[i] == TagPair(hits[i], p)
  {
    if |hits| == 0 then [] else [TagPair(hits[0], p)] + TagAllPair(hits[1..], p)
  }

  /** Every hit of every pair whose call succeeded, annotated, in loop order;
      a pair whose call raised contributes nothing. */
  function Stream(svc: Searcher, pairs: seq<(Value, string)>): seq<Hit> {
    if |pairs| == 0 then []
    else
      (match svc(AdvancedCall(pairs[0]))
       case Ok(hits) => TagAllPair(hits, pairs[0])
       case Err(_) => [])
      + Stream(svc, pairs[1..])
  }

  /** `e` is a hit the pair's successful call returned, annotated with it. */
  ghost predicate PairProduced(svc: Searcher, p: (Value, string), e: Hit) {
    var r := svc(AdvancedCall(p));
    r.Ok? && exists h :: h in r.value && e == TagPair(h, p)
  }

  lemma {:induction false} StreamOrigins(svc: Searcher, pairs: seq<(Value, string)>)
    ensures forall e :: e in Stream(svc, pairs) ==> exists p :: p in pairs && PairProduced(svc, p, e)
    decreases |pairs|
  {
    if |pairs| > 0 {
      StreamOrigins(svc, pairs[1..]);
      var first := match svc(AdvancedCall(pairs[0]))
                   case Ok(hits) => TagAllPair(hits, pairs[0])
                   case Err(_) => [];
      assert Stream(svc, pairs) == first + Stream(svc, pairs[1..]);
      forall e | e in Stream(svc, pairs) ensures exists p :: p in pairs && PairProduced(svc, p, e) {
        if e in first {
          var k :| 0 <= k < |first| && first[k] == e;
          var hits := svc(AdvancedCall(pairs[0])).value;
          assert hits[k] in hits;
          assert PairProduced(svc, pairs[0], e);
        } else {
          var p :| p in pairs[1..] && PairProduced(svc, p, e);
          assert p in pairs;
        }
      }
    }
  }

  /** When every pair's call raises, nothing is collected. */
  lemma {:induction false} StreamAllFailed(svc: Searcher, pairs: seq<(Value, string)>)
    requires forall i :: 0 <= i < |pairs| ==> svc(AdvancedCall(pairs[i])).Err?
    ensures Stream(svc, pairs) == []
    decreases |pairs|
  {
    if |pairs| > 0 {
      StreamAllFailed(svc, pairs[1..]);
    }
  }

  /** `s[i]` is the first hit of `s` with its id. */
  ghost predicate FirstWithId(s: seq<Hit>, i: int) {
    0 <= i < |s| && forall j :: 0 <= j < i ==> s[j].id != s[i].id
  }

  /** The `seen_ids` filter: keep a hit only if its id has not been kept
      before, however it scores. */
  function DedupFirst(s: seq<Hit>, seen: set<string>): (r: seq<Hit>)
    ensures forall k :: 0 <= k < |r| ==> r[k].id !in seen
    ensures forall k, l :: 0 <= k < l < |r| ==> r[k].id != r[l].id
    decreases |s|
  {
    if |s| == 0 then []
    else if s[0].id in seen then DedupFirst(s[1..], seen)
    else [s[0]] + DedupFirst(s[1..], seen + {s[0].id})
  }

  /** Each kept hit is the first one in the stream with its id. */
  lemma {:induction false} DedupFirstOrigin(s: seq<Hit>, seen: set<string>, k: nat)
    requires k < |DedupFirst(s, seen)|
    ensures exists i :: FirstWithId(s, i) && s[i] == DedupFirst(s, seen)[k]
    decreases |s|
  {
    var r := DedupFirst(s, seen);
    if s[0].id in seen {
      DedupFirstOrigin(s[1..], seen, k);
      var i :| FirstWithId(s[1..], i) && s[1..][i] == r[k];
      assert FirstWithId(s, i + 1);
    } else if k == 0 {
      assert FirstWithId(s, 0);
    } else {
      var seen' := seen + {s[0].id};
      DedupFirstOrigin(s[1..], seen', k - 1);
      var i :| FirstWithId(s[1..], i) && s[1..][i] == DedupFirst(s[1..], seen')[k - 1];
      assert FirstWithId(s, i + 1);
    }
  }

  /** The first hit with an id not seen before is always kept. */
  lemma {:induction false} DedupFirstComplete(s: seq<Hit>, seen: set<string>, i: nat)
    requires FirstWithId(s, i) && s[i].id !in seen
    ensures s[i] in DedupFirst(s, seen)
    decreases |s|
  {
    if i > 0 {
      assert FirstWithId(s[1..], i - 1);
      assert s[1..][i - 1] == s[i];
      if s[0].id in seen {
        DedupFirstComplete(s[1..], seen, i - 1);
      } else {
        DedupFirstComplete(s[1..], seen + {s[0].id}, i - 1);
      }
    }
  }

  function SubQueryPairs(query: string, reply: QueryDecomposer.LlmReply): seq<(Value, string)> {
    Pairs(QueryDecomposer.Decompose(query, AdvancedSubQueries, reply), Namespaces)
  }

  /** `search_advanced`: asks the decomposer for three sub-queries and calls
      the backend for every (sub-query, namespace) pair in loop order with
      `top_k` 3 and rerank on, whatever earlier pairs did. It never fails. */
  function SearchAdvanced(svc: Searcher, req: SearchRequest, reply: QueryDecomposer.LlmReply): (r: Run)
    ensures |r.calls| == |SubQueryPairs(req.query, reply)|
    ensures forall i :: 0 <= i < |r.calls| ==>
              r.calls[i] == SearchCall(SubQueryPairs(req.query, reply)[i].1, SubQueryPairs(req.query, reply)[i].0, 3, None, true)
    ensures r.outcome.Ok? && r.outcome.value.success && r.outcome.value.namespace == "advanced"
    ensures r.outcome.value.query == req.query
  {
    var pairs := SubQueryPairs(req.query, reply);
    var top := Merge(DedupFirst(Stream(svc, pairs), {}), req.topK);
    var calls := seq(|pairs|, i requires 0 <= i < |pairs| => AdvancedCall(pairs[i]));
    Run(Ok(SearchResponse(true, top, "advanced", req.query)), calls)
  }

  /** The results of "advanced" are the merge of the first-seen hits. */
  lemma AdvancedResults(svc: Searcher, req: SearchRequest, reply: QueryDecomposer.LlmReply)
    ensures SearchAdvanced(svc, req, reply).outcome.value.results
            == Merge(DedupFirst(Stream(svc, SubQueryPairs(req.query, reply)), {}), req.topK)
  {
  }

  /** No two results of "advanced" share an id; they are in non-increasing
      score order; each is the first hit met with its id in sub-query-outer,
      namespace-inner order, even if a later duplicate scores higher. */
  lemma AdvancedFirstSeen(svc: Searcher, req: SearchRequest, reply: QueryDecomposer.LlmReply)
    ensures var res := SearchAdvanced(svc, req, reply).outcome.value.results;
            SortedDesc(res, ScoreOf)
            && (forall i, j :: 0 <= i < j < |res| ==> res[i].id != res[j].id)
    ensures var res := SearchAdvanced(svc, req, reply).outcome.value.results;
            var s := Stream(svc, SubQueryPairs(req.query, reply));
            forall e :: e in res ==> exists i :: FirstWithId(s, i) && s[i] == e
  {
    var s := Stream(svc, SubQueryPairs(req.query, reply));
    var collected := DedupFirst(s, {});
    var top := Merge(collected, req.topK);
    AdvancedResults(svc, req, reply);
    MergeKeepsDistinctIds(collected, req.topK);
    forall e | e in top ensures exists i :: FirstWithId(s, i) && s[i] == e {
      assert e in multiset(top);
      var k :| 0 <= k < |collected| && collected[k] == e;
      DedupFirstOrigin(s, {}, k);
    }
  }

  /** A streamed hit carries the namespace and sub-query of a pair whose call
      returned it. */
  lemma StreamAnnotated(svc: Searcher, pairs: seq<(Value, string)>, e: Hit)
    requires e in Stream(svc, pairs)
    ensures exists p :: p in pairs && PairProduced(svc, p, e)
              && e.metadata["namespace"] == Str(p.1) && e.metadata["sub_query"] == p.0
  {
    StreamOrigins(svc, pairs);
    var p :| p in pairs && PairProduced(svc, p, e);
    var h :| h in svc(AdvancedCall(p)).value && e == TagPair(h, p);
  }

  /** Every hit "advanced" returns was produced by one of the pairs it
      searched, and carries that pair's namespace and sub-query. */
  lemma AdvancedResultsOrigin(svc: Searcher, req: SearchRequest, reply: QueryDecomposer.LlmReply)
    ensures var pairs := SubQueryPairs(req.query, reply);
            forall e :: e in SearchAdvanced(svc, req, reply).outcome.value.results ==>
              exists p :: p in pairs && PairProduced(svc, p, e)
                && e.metadata["namespace"] == Str(p.1) && e.metadata["sub_query"] == p.0
  {
    var pairs := SubQueryPairs(req.query, reply);
    var s := Stream(svc, pairs);
    var collected := DedupFirst(s, {});
    var top := Merge(collected, req.topK);
    AdvancedResults(svc, req, reply);
    forall e | e in top
      ensures exists p :: p in pairs && PairProduced(svc, p, e)
                && e.metadata["namespace"] == Str(p.1) && e.metadata["sub_query"] == p.0
    {
      assert e in multiset(top);
      var k :| 0 <= k < |collected| && collected[k] == e;
      DedupFirstOrigin(s, {}, k);
      var i :| FirstWithId(s, i) && s[i] == collected[k];
      StreamAnnotated(svc, pairs, e);
    }
  }

  /** When every pair's call raises the answer is an empty, successful
      result set. */
  lemma AdvancedAllFailed(svc: Searcher, req: SearchRequest, reply: QueryDecomposer.LlmReply)
    requires forall c :: svc(c).Err?
    ensures SearchAdvanced(svc, req, reply).outcome == Ok(SearchResponse(true, [], "advanced", req.query))
  {
    StreamAllFailed(svc, SubQueryPairs(req.query, reply));
  }

  // ---------------------------------------------------------------------------
  // The two multi-namespace variants on one input

  /** The same item found twice, first with a low score and then with a high
      one. */
  const LowFirst: Hit := Hit("X", "low", 0.2, map[])
  const HighLater: Hit := Hit("X", "high", 0.9, map[])

  /** Advanced search keeps the first occurrence of an id, not the best
      scoring one. */
  lemma DedupKeepsFirstNotBest()
    ensures DedupFirst([LowFirst, HighLater], {}) == [LowFirst]
  {
    var s := [LowFirst, HighLater];
    assert s[1..] == [HighLater];
    assert [HighLater][1..] == [];
    assert DedupFirst([], {"X"}) == [];
    assert HighLater.id in {"X"};
    assert DedupFirst([HighLater], {"X"}) == [];
    assert LowFirst.id !in {};
    assert DedupFirst(s, {}) == [LowFirst] + DedupFirst(s[1..], {} + {"X"});
  }

  /** Investigate does not deduplicate: both occurrences are merged, best
      first. */
  lemma MergeKeepsDuplicates()
    ensures Merge([LowFirst, HighLater], 5) == [HighLater, LowFirst]
  {
    var s := [LowFirst, HighLater];
    assert s[1..] == [HighLater];
    assert Sort([HighLater], ScoreOf) == [HighLater];
    assert Insert(LowFirst, [HighLater], ScoreOf) == [HighLater, LowFirst];
  }
}
