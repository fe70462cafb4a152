/** The evaluate router: one evaluation merges the TruLens record's scores
    with the RAGAS scores; a batch evaluates each item in turn and turns a
    failed item into a failure marker without affecting the others.

    The RAGAS outcome is an input: a list of metric names and scores, or a
    fault (which the router swallows). */
module EvaluateRouter {
  import opened Wrappers
  import opened Json
  import opened TrulensEvaluator

  datatype EvaluateRequest = EvaluateRequest(
    query: string,
    retrievedContexts: seq<string>,
    agentResponse: string,
    groundTruth: Option<string>,
    useCase: string,
    agentId: string,
    metadata: map<string, Value>)

  /** `timestamp` is `None` where the service sends the empty string. */
  datatype EvaluateResponse = EvaluateResponse(
    success: bool,
    evaluationId: string,
    scores: seq<Score>,
    useCase: string,
    timestamp: Option<nat>)

  /** What `evaluate_with_ragas` returns, in dictionary order, or its fault. */
  type RagasOutcome = Result<seq<(string, real)>>

  const RagasPrefix: string := "ragas_"

  function RagInputOf(req: EvaluateRequest): RagInput {
    RagInput(req.query, req.retrievedContexts, req.agentResponse, req.groundTruth, req.useCase, req.agentId)
  }

  /** The RAGAS scores as response entries: a fault contributes nothing. */
  function RagasScores(ragas: RagasOutcome): (r: seq<Score>)
    ensures ragas.Err? ==> r == []
    ensures ragas.Ok? ==> |r| == |ragas.value|
    ensures ragas.Ok? ==> forall i :: 0 <= i < |r| ==>
              r[i] == Score(RagasPrefix + ragas.value[i].0, ragas.value[i].1, None)
  {
    if ragas.Err? then []
    else seq(|ragas.value|, i requires 0 <= i < |ragas.value| => Score(RagasPrefix + ragas.value[i].0, ragas.value[i].1, None))
  }

  /** `POST /evaluate`. The TruLens record is logged; the response lists its
      four scores first, then one `ragas_`-prefixed score per RAGAS metric.
      Only a provider that cannot be constructed makes the call fail, and
      then nothing is logged. */
  function EvaluateSingle(log: Log, req: EvaluateRequest, provider: Result<Provider>, ragas: RagasOutcome,
                          uuidHex: string, now: nat): (r: (Result<EvaluateResponse>, Log))
    ensures r.0.Ok? <==> provider.Ok?
    ensures r.0.Err? ==> r.1 == log
    ensures r.0.Ok? ==>
              var rec := EvaluateRag(log, RagInputOf(req), provider, uuidHex, now).0.value;
              && r.1 == log + [rec]
              && r.0.value.success
              && |r.0.value.scores| == 4 + |RagasScores(ragas)|
              && r.0.value.scores[..4] == rec.scores
              && r.0.value.scores[4..] == RagasScores(ragas)
              && r.0.value.evaluationId == rec.evaluationId
              && r.0.value.useCase == req.useCase
              && r.0.value.timestamp == Some(now)
    ensures r.0.Ok? && ragas.Err? ==> |r.0.value.scores| == 4
  {
    var (result, log') := EvaluateRag(log, RagInputOf(req), provider, uuidHex, now);
    match result
    case Err(e) => (Err(e), log)
    case Ok(rec) =>
      var scores := rec.scores + RagasScores(ragas);
      assert scores[..4] == rec.scores;
      (Ok(EvaluateResponse(true, rec.evaluationId, scores, req.useCase, Some(rec.timestamp))), log')
  }

  /** The response does not depend on what was logged before. */
  lemma EvaluateSingleIgnoresLog(log1: Log, log2: Log, req: EvaluateRequest, provider: Result<Provider>,
                                 ragas: RagasOutcome, uuidHex: string, now: nat)
    ensures EvaluateSingle(log1, req, provider, ragas, uuidHex, now).0
            == EvaluateSingle(log2, req, provider, ragas, uuidHex, now).0
  {
  }

  /** Every score of a successful response is either one of the four TruLens
      metrics or a `ragas_`-prefixed RAGAS metric, with no details. */
  lemma EvaluateSingleScoreNames(log: Log, req: EvaluateRequest, provider: Result<Provider>,
                                 ragas: RagasOutcome, uuidHex: string, now: nat)
    requires provider.Ok?
    ensures var s := EvaluateSingle(log, req, provider, ragas, uuidHex, now).0.value.scores;
            && (forall i :: 0 <= i < 4 ==> s[i].metric == MetricOrder[i])
            && (forall i :: 4 <= i < |s| ==> RagasPrefix <= s[i].metric && s[i].details == None)
  {
    var s := EvaluateSingle(log, req, provider, ragas, uuidHex, now).0.value.scores;
    RagasNamed(ragas);
    NamedScores(s, RagasScores(ragas));
  }

  /** Every RAGAS score carries the prefix and no details. */
  predicate RagasShaped(rg: seq<Score>) {
    forall i :: 0 <= i < |rg| ==> RagasPrefix <= rg[i].metric && rg[i].details == None
  }

  lemma RagasNamed(ragas: RagasOutcome)
    ensures RagasShaped(RagasScores(ragas))
  {
  }

  /** A response's score list, four TruLens scores followed by RAGAS ones,
      is named position by position. */
  lemma NamedScores(s: seq<Score>, rg: seq<Score>)
    requires |s| >= 4 && s[4..] == rg && RagasShaped(rg)
    requires forall i :: 0 <= i < 4 ==> s[i].metric == MetricOrder[i]
    ensures forall i :: 4 <= i < |s| ==> RagasPrefix <= s[i].metric && s[i].details == None
  {
    assert forall i :: 4 <= i < |s| ==> s[i] == rg[i - 4];
  }

  // ---------------------------------------------------------------------------
  // POST /evaluate/batch

  /** One batch entry together with everything its evaluation depends on. */
  datatype BatchItem = BatchItem(
    request: EvaluateRequest,
    provider: Result<Provider>,
    ragas: RagasOutcome,
    uuidHex: string,
    now: nat)

  datatype BatchResponse = BatchResponse(success: bool, count: nat, results: seq<EvaluateResponse>)

  /** The entry a failed item contributes. */
  function FailureMarker(useCase: string): EvaluateResponse {
    EvaluateResponse(false, "", [], useCase, None)
  }

  /** The batch's entry for one item, on its own. */
  function ItemResponse(item: BatchItem): (r: EvaluateResponse)
    ensures r.success <==> item.provider.Ok?
    ensures !r.success ==> r == FailureMarker(item.request.useCase)
    ensures r.useCase == item.request.useCase
  {
    match EvaluateSingle([], item.request, item.provider, item.ragas, item.uuidHex, item.now).0
    case Ok(resp) => resp
    case Err(_) => FailureMarker(item.request.useCase)
  }

  /** The record one item logs: none when it fails. */
  function LoggedBy(item: BatchItem): (recs: Log)
    ensures |recs| <= 1
    ensures |recs| == 1 <==> item.provider.Ok?
  {
    var step := EvaluateRag([], RagInputOf(item.request), item.provider, item.uuidHex, item.now).0;
    if step.Ok? then [step.value] else []
  }

  /** The records the successful items of a batch log, in batch order. */
  function Logged(items: seq<BatchItem>): (recs: Log)
    ensures |recs| <= |items|
  {
    if |items| == 0 then [] else Logged(items[..|items| - 1]) + LoggedBy(items[|items| - 1])
  }

  /** One item evaluated after any log: its entry is its own response and
      the log grows by its own record. */
  lemma BatchStep(log: Log, it: BatchItem)
    ensures var (single, log') := EvaluateSingle(log, it.request, it.provider, it.ragas, it.uuidHex, it.now);
            && (if single.Ok? then single.value else FailureMarker(it.request.useCase)) == ItemResponse(it)
            && log' == log + LoggedBy(it)
  {
    EvaluateSingleIgnoresLog(log, [], it.request, it.provider, it.ragas, it.uuidHex, it.now);
  }

  /** One iteration of the batch loop: `evaluate_single`, or the failure
      marker when it raises. */
  function BatchEntry(log: Log, it: BatchItem): (r: (EvaluateResponse, Log))
    ensures r.0 == ItemResponse(it)
    ensures r.1 == log + LoggedBy(it)
  {
    var (single, log') := EvaluateSingle(log, it.request, it.provider, it.ragas, it.uuidHex, it.now);
    BatchStep(log, it);
    (if single.Ok? then single.value else FailureMarker(it.request.useCase), log')
  }

  /** Appending an item's entry to the entries of the items before it gives
      the entries of the longer batch. */
  lemma EntriesAppend(prev: seq<EvaluateResponse>, init: seq<BatchItem>, it: BatchItem)
    requires |prev| == |init|
    requires forall i :: 0 <= i < |init| ==> prev[i] == ItemResponse(init[i])
    ensures forall i :: 0 <= i < |init| + 1 ==> (prev + [ItemResponse(it)])[i] == ItemResponse((init + [it])[i])
  {
    forall i | 0 <= i < |init| + 1
      ensures (prev + [ItemResponse(it)])[i] == ItemResponse((init + [it])[i])
    {
      if i < |init| {
        assert (prev + [ItemResponse(it)])[i] == prev[i];
        assert (init + [it])[i] == init[i];
      }
    }
  }

  /** A non-empty batch is its items before the last, then the last. */
  lemma SplitLast<T>(s: seq<T>)
    requires |s| > 0
    ensures s == s[..|s| - 1] + [s[|s| - 1]]
  {
  }

  lemma AppendNothing<T>(xs: seq<T>, e: seq<T>)
    requires |e| == 0
    ensures xs + e == xs
  {
  }

  lemma AppendSplitLast<T>(xs: seq<T>, ys: seq<T>)
    requires |ys| > 0
    ensures xs + ys == (xs + ys[..|ys| - 1]) + [ys[|ys| - 1]]
  {
    assert ys == ys[..|ys| - 1] + [ys[|ys| - 1]];
  }

  /** The records of a batch extended by one item. */
  lemma LoggedAppend(init: seq<BatchItem>, it: BatchItem)
    ensures Logged(init + [it]) == Logged(init) + LoggedBy(it)
  {
    assert (init + [it])[..|init|] == init;
  }

  /** `POST /evaluate/batch`: one entry per item, in order, each as the item
      would get on its own; a failed item becomes a failure marker and the
      batch still succeeds. The log gains the records of the successful items
      in order. */
  function EvaluateBatch(log: Log, items: seq<BatchItem>): (r: (BatchResponse, Log))
    ensures r.0.success
    ensures r.0.count == |items| == |r.0.results|
    ensures forall i :: 0 <= i < |items| ==> r.0.results[i] == ItemResponse(items[i])
    ensures r.1 == log + Logged(items)
  {
    if |items| == 0 then (BatchResponse(true, 0, []), log)
    else
      var init := items[..|items| - 1];
      var it := items[|items| - 1];
      var (prev, log1) := EvaluateBatch(log, init);
      var (entry, log2) := BatchEntry(log1, it);
      var results := prev.results + [entry];
      SplitLast(items);
      EntriesAppend(prev.results, init, it);
      LoggedAppend(init, it);
      (BatchResponse(true, |results|, results), log2)
  }

  /** Isolation: a failing item changes neither the entries nor the logged
      records of the other items. */
  lemma BatchIsolation(log: Log, before: seq<BatchItem>, bad: BatchItem, after: seq<BatchItem>)
    requires bad.provider.Err?
    ensures var with := EvaluateBatch(log, before + [bad] + after);
            var without := EvaluateBatch(log, before + after);
            && with.0.results == without.0.results[..|before|] + [FailureMarker(bad.request.useCase)]
                                 + without.0.results[|before|..]
            && with.1 == without.1
  {
    ResponsesSkipFailure(EvaluateBatch(log, before + [bad] + after).0.results,
                         EvaluateBatch(log, before + after).0.results, before, bad, after);
    LoggedSkipsFailure(before, bad, after);
  }

  lemma ResponsesSkipFailure(w: seq<EvaluateResponse>, v: seq<EvaluateResponse>,
                             before: seq<BatchItem>, bad: BatchItem, after: seq<BatchItem>)
    requires bad.provider.Err?
    requires |w| == |before + [bad] + after| && |v| == |before + after|
    requires forall i :: 0 <= i < |w| ==> w[i] == ItemResponse((before + [bad] + after)[i])
    requires forall i :: 0 <= i < |v| ==> v[i] == ItemResponse((before + after)[i])
    ensures w == v[..|before|] + [FailureMarker(bad.request.useCase)] + v[|before|..]
  {
    var items := before + [bad] + after;
    var rest := before + after;
    var t := v[..|before|] + [FailureMarker(bad.request.useCase)] + v[|before|..];
    assert |w| == |t|;
    forall i | 0 <= i < |w| ensures w[i] == t[i] {
      if i < |before| {
        assert items[i] == before[i] == rest[i];
        assert t[i] == v[i];
      } else if i == |before| {
        assert items[i] == bad;
      } else {
        assert items[i] == after[i - |before| - 1] == rest[i - 1];
        assert t[i] == v[i - 1];
      }
    }
  }

  lemma {:induction false} LoggedSkipsFailure(before: seq<BatchItem>, bad: BatchItem, after: seq<BatchItem>)
    requires bad.provider.Err?
    ensures Logged(before + [bad] + after) == Logged(before + after)
    decreases |after|
  {
    if |after| == 0 {
      AppendNothing(before + [bad], after);
      AppendNothing(before, after);
      LoggedAppend(before, bad);
    } else {
      var a' := after[..|after| - 1];
      var last := after[|after| - 1];
      LoggedSkipsFailure(before, bad, a');
      AppendSplitLast(before + [bad], after);
      AppendSplitLast(before, after);
      LoggedAppend(before + [bad] + a', last);
      LoggedAppend(before + a', last);
    }
  }

  /** If every item fails, the batch still succeeds, lists one failure
      marker per item and logs nothing. */
  lemma {:induction false} BatchAllFailed(log: Log, items: seq<BatchItem>)
    requires forall i :: 0 <= i < |items| ==> items[i].provider.Err?
    ensures EvaluateBatch(log, items).0.success
    ensures forall i :: 0 <= i < |items| ==>
              EvaluateBatch(log, items).0.results[i] == FailureMarker(items[i].request.useCase)
    ensures EvaluateBatch(log, items).1 == log
    decreases |items|
  {
    if |items| > 0 {
      BatchAllFailed(log, items[..|items| - 1]);
    }
  }
}
