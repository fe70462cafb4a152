/** The evaluation log: record construction in `evaluate_rag` (the TruLens
    provider's answers are inputs), the time-ordered listing and the
    aggregate means.

    The module-level `_evaluations` list is threaded explicitly: operations
    that append take the log and return the new one. Evaluation ids and
    timestamps are supplied by the caller (`uuidHex`, `now`); timestamps are
    naturals ordered like the ISO strings the service stores. */
module TrulensEvaluator {
  import opened Wrappers
  import opened Means
  import opened StableSort
  import Slicing

  datatype Score = Score(metric: string, score: real, details: Option<string>)

  datatype Record = Record(
    evaluationId: string,
    query: string,
    agentResponse: string,
    retrievedContexts: seq<string>,
    groundTruth: Option<string>,
    scores: seq<Score>,
    useCase: string,
    agentId: string,
    timestamp: nat)

  type Log = seq<Record>

  const AnswerRelevance: string := "answer_relevance"
  const ContextRelevance: string := "context_relevance"
  const Groundedness: string := "groundedness"
  const Coherence: string := "coherence"

  /** The four TruLens metrics, in the order `evaluate_rag` scores them. */
  const MetricOrder: seq<string> := [AnswerRelevance, ContextRelevance, Groundedness, Coherence]

  /** At most this many contexts are judged for context relevance. */
  const MaxJudgedContexts: int := 5

  // ---------------------------------------------------------------------------
  // evaluate_rag

  /** What one provider call gives: a score, or the text of the exception. */
  datatype Judgement = Judged(value: real) | Raised(error: string)

  /** The provider's answers for one interaction; context relevance is asked
      once per context. */
  datatype Provider = Provider(
    relevance: Judgement,
    contextRelevance: string -> Judgement,
    groundedness: Judgement,
    coherence: Judgement)

  datatype RagInput = RagInput(
    query: string,
    retrievedContexts: seq<string>,
    agentResponse: string,
    groundTruth: Option<string>,
    useCase: string,
    agentId: string)

  /** The `try`/`except` around one metric: the score, or 0.0 with the
      exception text as details. */
  function ScoreFor(metric: string, j: Judgement): (s: Score)
    ensures s.metric == metric
    ensures j.Judged? ==> s.score == j.value && s.details == None
    ensures j.Raised? ==> s.score == 0.0 && s.details == Some(j.error)
  {
    match j
    case Judged(v) => Score(metric, v, None)
    case Raised(e) => Score(metric, 0.0, Some(e))
  }

  /** Judges the contexts in turn; the first exception ends the loop. */
  function JudgeContexts(contexts: seq<string>, judge: string -> Judgement): (r: Result<seq<real>>)
    ensures r.Ok? <==> forall i :: 0 <= i < |contexts| ==> judge(contexts[i]).Judged?
    ensures r.Ok? ==> |r.value| == |contexts|
    ensures r.Ok? ==> forall i :: 0 <= i < |contexts| ==> r.value[i] == judge(contexts[i]).value
    ensures r.Err? ==> exists i :: 0 <= i < |contexts| && judge(contexts[i]).Raised?
                                   && r.error == judge(contexts[i]).error
                                   && forall j :: 0 <= j < i ==> judge(contexts[j]).Judged?
    decreases |contexts|
  {
    if |contexts| == 0 then Ok([])
    else match judge(contexts[0])
      case Raised(e) => Err(e)
      case Judged(v) =>
        var rest := JudgeContexts(contexts[1..], judge);
        if rest.Err? then
          assert exists i :: 0 <= i < |contexts| && judge(contexts[i]).Raised?
                             && rest.error == judge(contexts[i]).error
                             && forall j :: 0 <= j < i ==> judge(contexts[j]).Judged? by {
            var i :| 0 <= i < |contexts[1..]| && judge(contexts[1..][i]).Raised?
                     && rest.error == judge(contexts[1..][i]).error
                     && forall j :: 0 <= j < i ==> judge(contexts[1..][j]).Judged?;
            assert forall j :: 0 <= j < i + 1 ==> judge(contexts[j]).Judged? by {
              forall j | 0 <= j < i + 1 ensures judge(contexts[j]).Judged? {
                if j > 0 { assert contexts[j] == contexts[1..][j - 1]; }
              }
            }
            assert contexts[i + 1] == contexts[1..][i];
          }
          rest
        else
          Ok([v] + rest.value)
  }

  /** Context relevance: the mean over the first five contexts, 0.0 with no
      contexts, and 0.0 with the exception text if any judged context raised. */
  function ContextRelevanceScore(contexts: seq<string>, judge: string -> Judgement): (s: Score)
    ensures s.metric == ContextRelevance
    ensures |contexts| == 0 ==> s == Score(ContextRelevance, 0.0, None)
    ensures var judged := Slicing.Take(contexts, MaxJudgedContexts);
            (forall i :: 0 <= i < |judged| ==> judge(judged[i]).Judged?)
            ==> s.details == None
                && s.score == Mean(seq(|judged|, i requires 0 <= i < |judged| => judge(judged[i]).value))
    ensures var judged := Slicing.Take(contexts, MaxJudgedContexts);
            (exists i :: 0 <= i < |judged| && judge(judged[i]).Raised?) ==> s.score == 0.0 && s.details.Some?
  {
    var judged := Slicing.Take(contexts, MaxJudgedContexts);
    match JudgeContexts(judged, judge)
    case Ok(values) =>
      assert values == seq(|judged|, i requires 0 <= i < |judged| => judge(judged[i]).value);
      Score(ContextRelevance, Mean(values), None)
    case Err(e) => Score(ContextRelevance, 0.0, Some(e))
  }

  /** The record `evaluate_rag` builds for a working provider. */
  function BuildRecord(input: RagInput, p: Provider, uuidHex: string, now: nat): Record {
    Record(
      "EVAL-" + Slicing.Take(uuidHex, 12),
      input.query,
      input.agentResponse,
      input.retrievedContexts,
      input.groundTruth,
      [ ScoreFor(AnswerRelevance, p.relevance),
        ContextRelevanceScore(input.retrievedContexts, p.contextRelevance),
        ScoreFor(Groundedness, p.groundedness),
        ScoreFor(Coherence, p.coherence) ],
      input.useCase,
      input.agentId,
      now)
  }

  /** `evaluate_rag`: with a provider, appends exactly one record, the one
      it returns, and leaves earlier entries untouched; that record copies
      the input and carries exactly four scores, in the fixed metric order,
      each the provider's value or 0.0 with the exception text. If the
      provider cannot be constructed the call raises and the log is
      unchanged. */
  function EvaluateRag(log: Log, input: RagInput, provider: Result<Provider>, uuidHex: string, now: nat)
    : (r: (Result<Record>, Log))
    ensures provider.Err? ==> r.0.Err? && r.1 == log
    ensures provider.Ok? ==> r.0.Ok? && r.1 == log + [r.0.value]
    ensures r.0.Ok? ==>
              var rec := r.0.value;
              && |rec.scores| == 4
              && (forall i :: 0 <= i < 4 ==> rec.scores[i].metric == MetricOrder[i])
              && rec.query == input.query && rec.agentResponse == input.agentResponse
              && rec.retrievedContexts == input.retrievedContexts && rec.groundTruth == input.groundTruth
              && rec.useCase == input.useCase && rec.agentId == input.agentId
              && rec.timestamp == now
              && "EVAL-" <= rec.evaluationId
              && rec.evaluationId[5..] <= uuidHex
              && |rec.evaluationId| == 5 + (if |uuidHex| < 12 then |uuidHex| else 12)
    ensures r.0.Ok? ==>
              var rec := r.0.value;
              var p := provider.value;
              && rec.scores[0] == ScoreFor(AnswerRelevance, p.relevance)
              && rec.scores[1] == ContextRelevanceScore(input.retrievedContexts, p.contextRelevance)
              && rec.scores[2] == ScoreFor(Groundedness, p.groundedness)
              && rec.scores[3] == ScoreFor(Coherence, p.coherence)
  {
    match provider
    case Err(e) => (Err(e), log)
    case Ok(p) =>
      Slicing.TakeLength(uuidHex, 12);
      var rec := BuildRecord(input, p, uuidHex, now);
      (Ok(rec), log + [rec])
  }

  // ---------------------------------------------------------------------------
  // get_evaluations

  function TimeOf(r: Record): real { r.timestamp as real }

  /** `[e for e in log if e["use_case"] == useCase]`. */
  function FilterUseCase(log: Log, useCase: string): (r: Log)
    ensures forall e :: e in r <==> e in log && e.useCase == useCase
    ensures |r| <= |log|
  {
    if |log| == 0 then []
    else
      var init := FilterUseCase(log[..|log| - 1], useCase);
      var last := log[|log| - 1];
      assert forall e :: e in log <==> e in log[..|log| - 1] || e == last by {
        assert log == log[..|log| - 1] + [last];
      }
      init + (if last.useCase == useCase then [last] else [])
  }

  /** The records `get_evaluations` orders: filtered only for a non-empty
      use case. */
  function Candidates(log: Log, useCase: Option<string>): Log {
    if useCase.Some? && |useCase.value| > 0 then FilterUseCase(log, useCase.value) else log
  }

  /** `get_evaluations(limit, use_case)`: records from the log, only of the
      requested use case when one is given, newest first, at most `limit`. */
  function GetEvaluations(log: Log, limit: int, useCase: Option<string>): (r: seq<Record>)
    ensures forall e :: e in r ==> e in log
    ensures useCase.Some? && |useCase.value| > 0 ==> forall e :: e in r ==> e.useCase == useCase.value
    ensures SortedDesc(r, TimeOf)
    ensures limit >= 0 ==> |r| <= limit
    ensures |r| == Slicing.PrefixLen(|Candidates(log, useCase)|, limit)
    ensures limit >= |Candidates(log, useCase)| ==> multiset(r) == multiset(Candidates(log, useCase))
  {
    var cands := Candidates(log, useCase);
    var sorted := Sort(cands, TimeOf);
    Slicing.TakeLength(sorted, limit);
    var r := Slicing.Take(sorted, limit);
    assert limit >= |cands| ==> r == sorted;
    assert forall e :: e in r ==> e in cands by {
      forall e | e in r ensures e in cands {
        assert e in sorted;
        assert e in multiset(sorted);
      }
    }
    r
  }

  /** The listing is the leading part of the stable descending sort of the
      candidates: among equal timestamps the older record comes first. */
  lemma GetEvaluationsIsStable(log: Log, limit: int, useCase: Option<string>, out: seq<Record>)
    requires IsStableSortOf(out, Candidates(log, useCase), TimeOf)
    ensures GetEvaluations(log, limit, useCase) == Slicing.Take(out, limit)
  {
    SortIsTheStableSort(Candidates(log, useCase), out, TimeOf);
  }

  /** A record appended with a timestamp later than every earlier one is what
      `get_evaluations(1)` returns next. */
  lemma ListAfterAppend(log: Log, rec: Record)
    requires forall i :: 0 <= i < |log| ==> log[i].timestamp < rec.timestamp
    ensures GetEvaluations(log + [rec], 1, None) == [rec]
  {
    var all := log + [rec];
    var sorted := Sort(all, TimeOf);
    assert all[|log|] == rec;
    assert rec in multiset(sorted);
    var j :| 0 <= j < |sorted| && sorted[j] == rec;
    assert TimeOf(sorted[0]) >= TimeOf(rec);
    assert sorted[0] in multiset(all);
    assert sorted[0] == rec;
  }

  /** With equal timestamps the earlier record is listed first, so the newest
      append is not necessarily `get_evaluations(1)`. */
  lemma ListTieKeepsInsertionOrder(a: Record, b: Record)
    requires a.timestamp == b.timestamp && a != b
    ensures GetEvaluations([a, b], 1, None) == [a]
  {
    assert [a, b][1..] == [b];
    assert Sort([b], TimeOf) == [b];
  }

  // ---------------------------------------------------------------------------
  // get_aggregate_metrics: the reference definitions

  /** The scores of `scores` named `metric`, in order. */
  function ScoresNamed(scores: seq<Score>, metric: string): seq<real> {
    if |scores| == 0 then []
    else (if scores[0].metric == metric then [scores[0].score] else []) + ScoresNamed(scores[1..], metric)
  }

  /** Every score named `metric` in the log, in log order. */
  function MetricScores(log: Log, metric: string): seq<real> {
    if |log| == 0 then []
    else MetricScores(log[..|log| - 1], metric) + ScoresNamed(log[|log| - 1].scores, metric)
  }

  /** The log's use cases, each once, in order of first appearance. */
  function UseCaseOrder(log: Log): (r: seq<string>)
    ensures forall uc :: uc in r <==> exists i :: 0 <= i < |log| && log[i].useCase == uc
    ensures forall i, j :: 0 <= i < j < |r| ==> r[i] != r[j]
  {
    if |log| == 0 then []
    else
      var init := log[..|log| - 1];
      var prev := UseCaseOrder(init);
      var uc := log[|log| - 1].useCase;
      assert forall i :: 0 <= i < |init| ==> init[i] == log[i];
      prev + (if uc in prev then [] else [uc])
  }

  // ---------------------------------------------------------------------------
  // get_aggregate_metrics: the accumulation loop

  /** Per-metric score lists, keyed by the four tracked metric names. */
  type Buckets = map<string, seq<real>>

  function EmptyBuckets(): Buckets {
    map[AnswerRelevance := [], ContextRelevance := [], Groundedness := [], Coherence := []]
  }

  /** `for s in ev["scores"]: if m in metrics: metrics[m].append(s["score"])`. */
  function AddScores(b: Buckets, scores: seq<Score>): (r: Buckets)
    ensures r.Keys == b.Keys
    decreases |scores|
  {
    if |scores| == 0 then b
    else
      var m := scores[0].metric;
      AddScores(if m in b then b[m := b[m] + [scores[0].score]] else b, scores[1..])
  }

  lemma {:induction false} AddScoresAppends(b: Buckets, scores: seq<Score>, metric: string)
    requires metric in b
    ensures AddScores(b, scores)[metric] == b[metric] + ScoresNamed(scores, metric)
    decreases |scores|
  {
    if |scores| > 0 {
      var m := scores[0].metric;
      var b' := if m in b then b[m := b[m] + [scores[0].score]] else b;
      AddScoresAppends(b', scores[1..], metric);
      assert b'[metric] == b[metric] + (if m == metric then [scores[0].score] else []);
    }
  }

  /** The loop state: global buckets, and per use case buckets in a
      dictionary whose insertion order is `order`. */
  datatype Acc = Acc(global: Buckets, order: seq<string>, perUseCase: map<string, Buckets>)

  ghost predicate WellFormed(acc: Acc) {
    && acc.global.Keys == EmptyBuckets().Keys
    && (forall uc :: uc in acc.perUseCase <==> uc in acc.order)
    && (forall uc :: uc in acc.perUseCase ==> acc.perUseCase[uc].Keys == EmptyBuckets().Keys)
  }

  /** One iteration of the loop: open the use case's buckets on first sight,
      then add the record's scores globally and to its use case. */
  function Step(acc: Acc, ev: Record): (r: Acc)
    requires WellFormed(acc)
    ensures WellFormed(r)
    ensures forall u :: u != ev.useCase ==> (u in r.perUseCase <==> u in acc.perUseCase)
    ensures forall u :: u != ev.useCase && u in acc.perUseCase ==> r.perUseCase[u] == acc.perUseCase[u]
  {
    var uc := ev.useCase;
    var acc1 := Open(acc, uc);
    var p := acc1.perUseCase;
    var p' := p[uc := AddScores(p[uc], ev.scores)];
    assert forall u :: u != uc && u in p ==> p'[u] == p[u];
    acc1.(global := AddScores(acc1.global, ev.scores), perUseCase := p')
  }

  /** `if uc not in by_use_case: by_use_case[uc] = {...}`. */
  function Open(acc: Acc, uc: string): (r: Acc)
    requires WellFormed(acc)
    ensures WellFormed(r) && uc in r.perUseCase
    ensures r.global == acc.global
    ensures forall u :: u != uc ==> (u in r.perUseCase <==> u in acc.perUseCase)
    ensures forall u :: u != uc && u in acc.perUseCase ==> r.perUseCase[u] == acc.perUseCase[u]
  {
    if uc in acc.perUseCase then acc
    else acc.(order := acc.order + [uc], perUseCase := acc.perUseCase[uc := EmptyBuckets()])
  }

  /** The loop over the log, one record at a time. */
  function Accumulate(log: Log): (acc: Acc)
    ensures WellFormed(acc)
  {
    if |log| == 0 then Acc(EmptyBuckets(), [], map[])
    else Step(Accumulate(log[..|log| - 1]), log[|log| - 1])
  }

  /** The buckets hold, per tracked metric, exactly the log's scores. */
  ghost predicate BucketsMatch(b: Buckets, log: Log) {
    && b.Keys == EmptyBuckets().Keys
    && b[AnswerRelevance] == MetricScores(log, AnswerRelevance)
    && b[ContextRelevance] == MetricScores(log, ContextRelevance)
    && b[Groundedness] == MetricScores(log, Groundedness)
    && b[Coherence] == MetricScores(log, Coherence)
  }

  /** The loop state agrees with the reference definitions for `log`. */
  ghost predicate AccMatches(acc: Acc, log: Log) {
    && WellFormed(acc)
    && BucketsMatch(acc.global, log)
    && acc.order == UseCaseOrder(log)
    && forall uc :: uc in acc.perUseCase ==> BucketsMatch(acc.perUseCase[uc], FilterUseCase(log, uc))
  }

  lemma AddScoresMatch(b: Buckets, log: Log, ev: Record)
    requires BucketsMatch(b, log)
    ensures BucketsMatch(AddScores(b, ev.scores), log + [ev])
  {
    var log' := log + [ev];
    assert log'[..|log'| - 1] == log;
    AddScoresAppends(b, ev.scores, AnswerRelevance);
    AddScoresAppends(b, ev.scores, ContextRelevance);
    AddScoresAppends(b, ev.scores, Groundedness);
    AddScoresAppends(b, ev.scores, Coherence);
  }

  lemma {:induction false} FilterAppend(log: Log, ev: Record, uc: string)
    ensures FilterUseCase(log + [ev], uc) == FilterUseCase(log, uc) + (if ev.useCase == uc then [ev] else [])
  {
    var log' := log + [ev];
    assert log'[..|log'| - 1] == log;
  }

  lemma {:induction false} FilterAbsent(log: Log, uc: string)
    requires forall i :: 0 <= i < |log| ==> log[i].useCase != uc
    ensures FilterUseCase(log, uc) == []
    decreases |log|
  {
    if |log| > 0 {
      FilterAbsent(log[..|log| - 1], uc);
    }
  }

  lemma {:induction false} UseCaseOrderAppend(log: Log, ev: Record)
    ensures UseCaseOrder(log + [ev])
            == UseCaseOrder(log) + (if ev.useCase in UseCaseOrder(log) then [] else [ev.useCase])
  {
    var log' := log + [ev];
    assert log'[..|log'| - 1] == log;
  }

  /** The buckets of the record's own use case, before its scores are added. */
  lemma StepOpensBuckets(acc: Acc, log: Log, uc: string)
    requires AccMatches(acc, log)
    ensures uc !in acc.perUseCase ==> BucketsMatch(EmptyBuckets(), FilterUseCase(log, uc))
  {
    if uc !in acc.perUseCase {
      FilterAbsent(log, uc);
    }
  }

  /** The global buckets and the use-case order after one step. */
  lemma StepGlobal(acc: Acc, log: Log, ev: Record)
    requires AccMatches(acc, log)
    ensures BucketsMatch(Step(acc, ev).global, log + [ev])
    ensures Step(acc, ev).order == UseCaseOrder(log + [ev])
  {
    AddScoresMatch(acc.global, log, ev);
    UseCaseOrderAppend(log, ev);
  }

  /** The record's own use case after one step. */
  lemma StepOwn(acc: Acc, log: Log, ev: Record)
    requires AccMatches(acc, log)
    ensures BucketsMatch(Step(acc, ev).perUseCase[ev.useCase], FilterUseCase(log + [ev], ev.useCase))
  {
    var uc := ev.useCase;
    var before := if uc in acc.perUseCase then acc.perUseCase[uc] else EmptyBuckets();
    StepOpensBuckets(acc, log, uc);
    assert BucketsMatch(before, FilterUseCase(log, uc));
    assert Step(acc, ev).perUseCase[uc] == AddScores(before, ev.scores);
    AddScoresMatch(before, FilterUseCase(log, uc), ev);
    FilterAppend(log, ev, uc);
  }

  /** Every other use case is untouched by one step. */
  lemma StepOthers(acc: Acc, log: Log, ev: Record, u: string)
    requires WellFormed(acc) && u in acc.perUseCase && u != ev.useCase
    requires BucketsMatch(acc.perUseCase[u], FilterUseCase(log, u))
    ensures BucketsMatch(Step(acc, ev).perUseCase[u], FilterUseCase(log + [ev], u))
  {
    var b := acc.perUseCase[u];
    var f := FilterUseCase(log, u);
    FilterAppend(log, ev, u);
    assert FilterUseCase(log + [ev], u) == f + [] == f;
    assert Step(acc, ev).perUseCase[u] == b;
  }

  lemma StepMatches(acc: Acc, log: Log, ev: Record)
    requires AccMatches(acc, log)
    ensures AccMatches(Step(acc, ev), log + [ev])
  {
    StepGlobal(acc, log, ev);
    StepOwn(acc, log, ev);
    forall u | u in Step(acc, ev).perUseCase
      ensures BucketsMatch(Step(acc, ev).perUseCase[u], FilterUseCase(log + [ev], u))
    {
      if u != ev.useCase {
        assert u in acc.perUseCase;
        StepOthers(acc, log, ev, u);
      }
    }
  }

  /** The accumulation loop computes the reference definitions: global
      buckets are the log's scores per metric, the use cases appear in order
      of first appearance, and each use case's buckets are the scores of its
      own records. */
  lemma {:induction false} AccumulateMatchesReference(log: Log)
    ensures AccMatches(Accumulate(log), log)
    decreases |log|
  {
    if |log| > 0 {
      var init := log[..|log| - 1];
      assert log == init + [log[|log| - 1]];
      AccumulateMatchesReference(init);
      StepMatches(Accumulate(init), init, log[|log| - 1]);
    }
  }

  // ---------------------------------------------------------------------------
  // get_aggregate_metrics: the result

  datatype UseCaseMetrics = UseCaseMetrics(
    useCase: string,
    answerRelevance: real,
    contextPrecision: real,
    groundedness: real,
    faithfulness: real,
    count: nat)

  datatype AggregateMetrics = AggregateMetrics(
    answerRelevance: real,
    contextPrecision: real,
    groundedness: real,
    faithfulness: real,
    totalEvaluations: nat,
    byUseCase: seq<UseCaseMetrics>)

  function Summarise(useCase: string, b: Buckets): UseCaseMetrics
    requires b.Keys == EmptyBuckets().Keys
  {
    UseCaseMetrics(
      useCase,
      Mean(b[AnswerRelevance]),
      Mean(b[ContextRelevance]),
      Mean(b[Groundedness]),
      Mean(b[Coherence]),
      |b[AnswerRelevance]|)
  }

  /** `get_aggregate_metrics`: context precision is the mean of the context
      relevance scores and faithfulness the mean of the coherence scores;
      other metric names are ignored; a metric without scores averages 0.0;
      the total is the log length; there is one entry per use case in the
      log, in order of first appearance, with the same means over that use
      case's records and a count of its answer-relevance scores. */
  function GetAggregateMetrics(log: Log): (r: AggregateMetrics)
    ensures r.answerRelevance == Mean(MetricScores(log, AnswerRelevance))
    ensures r.contextPrecision == Mean(MetricScores(log, ContextRelevance))
    ensures r.groundedness == Mean(MetricScores(log, Groundedness))
    ensures r.faithfulness == Mean(MetricScores(log, Coherence))
    ensures r.totalEvaluations == |log|
    ensures |r.byUseCase| == |UseCaseOrder(log)|
    ensures forall i :: 0 <= i < |r.byUseCase| ==> r.byUseCase[i].useCase == UseCaseOrder(log)[i]
    ensures forall i :: 0 <= i < |r.byUseCase| ==>
              var uc := UseCaseOrder(log)[i];
              var own := FilterUseCase(log, uc);
              r.byUseCase[i] == UseCaseMetrics(
                uc,
                Mean(MetricScores(own, AnswerRelevance)),
                Mean(MetricScores(own, ContextRelevance)),
                Mean(MetricScores(own, Groundedness)),
                Mean(MetricScores(own, Coherence)),
                |MetricScores(own, AnswerRelevance)|)
  {
    if |log| == 0 then AggregateMetrics(0.0, 0.0, 0.0, 0.0, 0, [])
    else
      var acc := Accumulate(log);
      AccumulateMatchesReference(log);
      Report(log, acc)
  }

  /** The figures reported from a finished accumulation over `log`. */
  function Report(log: Log, acc: Acc): (r: AggregateMetrics)
    requires AccMatches(acc, log)
    ensures r.answerRelevance == Mean(MetricScores(log, AnswerRelevance))
    ensures r.contextPrecision == Mean(MetricScores(log, ContextRelevance))
    ensures r.groundedness == Mean(MetricScores(log, Groundedness))
    ensures r.faithfulness == Mean(MetricScores(log, Coherence))
    ensures r.totalEvaluations == |log|
    ensures |r.byUseCase| == |UseCaseOrder(log)|
    ensures forall i :: 0 <= i < |r.byUseCase| ==> r.byUseCase[i].useCase == UseCaseOrder(log)[i]
    ensures forall i :: 0 <= i < |r.byUseCase| ==>
              var uc := UseCaseOrder(log)[i];
              var own := FilterUseCase(log, uc);
              r.byUseCase[i] == UseCaseMetrics(
                uc,
                Mean(MetricScores(own, AnswerRelevance)),
                Mean(MetricScores(own, ContextRelevance)),
                Mean(MetricScores(own, Groundedness)),
                Mean(MetricScores(own, Coherence)),
                |MetricScores(own, AnswerRelevance)|)
  {
    AggregateMetrics(
      Mean(acc.global[AnswerRelevance]),
      Mean(acc.global[ContextRelevance]),
      Mean(acc.global[Groundedness]),
      Mean(acc.global[Coherence]),
      |log|,
      seq(|acc.order|, i requires 0 <= i < |acc.order| => Summarise(acc.order[i], acc.perUseCase[acc.order[i]])))
  }

  /** On an empty log every mean is 0.0, the total is 0 and there are no use
      cases. */
  lemma AggregateOfEmptyLog()
    ensures GetAggregateMetrics([]) == AggregateMetrics(0.0, 0.0, 0.0, 0.0, 0, [])
  {
  }

  /** The use cases of the aggregate are exactly those present in the log. */
  lemma AggregateUseCases(log: Log, uc: string)
    ensures (exists i :: 0 <= i < |GetAggregateMetrics(log).byUseCase|
                         && GetAggregateMetrics(log).byUseCase[i].useCase == uc)
            <==> exists j :: 0 <= j < |log| && log[j].useCase == uc
  {
    var order := UseCaseOrder(log);
    var cases := GetAggregateMetrics(log).byUseCase;
    NamedInOrder(cases, order, uc);
    assert uc in order <==> exists j :: 0 <= j < |log| && log[j].useCase == uc;
  }

  /** Summaries that follow a list of names position by position name
      exactly the names on the list. */
  lemma NamedInOrder(cases: seq<UseCaseMetrics>, order: seq<string>, uc: string)
    requires |cases| == |order|
    requires forall i :: 0 <= i < |cases| ==> cases[i].useCase == order[i]
    ensures (exists i :: 0 <= i < |cases| && cases[i].useCase == uc) <==> uc in order
  {
    if uc in order {
      var i :| 0 <= i < |order| && order[i] == uc;
      assert cases[i].useCase == uc;
    }
  }

  /** A record as `evaluate_rag` builds it has one answer-relevance score. */
  ghost predicate OneAnswerRelevance(r: Record) {
    |ScoresNamed(r.scores, AnswerRelevance)| == 1
  }

  lemma {:induction false} CountsRecords(log: Log)
    requires forall i :: 0 <= i < |log| ==> OneAnswerRelevance(log[i])
    ensures |MetricScores(log, AnswerRelevance)| == |log|
    decreases |log|
  {
    if |log| > 0 {
      CountsRecords(log[..|log| - 1]);
    }
  }

  /** When every record has one answer-relevance score, as `evaluate_rag`
      guarantees, each use case's count is its number of records. */
  lemma UseCaseCountIsRecordCount(log: Log, i: nat)
    requires forall j :: 0 <= j < |log| ==> OneAnswerRelevance(log[j])
    requires i < |GetAggregateMetrics(log).byUseCase|
    ensures GetAggregateMetrics(log).byUseCase[i].count
            == |FilterUseCase(log, GetAggregateMetrics(log).byUseCase[i].useCase)|
  {
    var uc := UseCaseOrder(log)[i];
    var own := FilterUseCase(log, uc);
    forall j | 0 <= j < |own| ensures OneAnswerRelevance(own[j]) {
      assert own[j] in log;
    }
    CountsRecords(own);
  }

  /** `evaluate_rag` records carry one answer-relevance score. */
  lemma EvaluateRagRecordCountsOnce(log: Log, input: RagInput, provider: Result<Provider>, uuidHex: string, now: nat)
    requires provider.Ok?
    ensures OneAnswerRelevance(EvaluateRag(log, input, provider, uuidHex, now).0.value)
  {
    var s := EvaluateRag(log, input, provider, uuidHex, now).0.value.scores;
    assert ContextRelevance[0] != AnswerRelevance[0];
    assert Groundedness[0] != AnswerRelevance[0];
    assert Coherence[0] != AnswerRelevance[0];
    assert s[1..][1..][1..][1..] == [];
    assert ScoresNamed(s[1..][1..][1..], AnswerRelevance) == [];
    assert ScoresNamed(s[1..][1..], AnswerRelevance) == [];
    assert ScoresNamed(s[1..], AnswerRelevance) == [];
    assert ScoresNamed(s, AnswerRelevance) == [s[0].score];
  }

  /** Aggregate means stay within the range of the scores they average: if
      every answer-relevance score lies in [0, 1], so does its mean. */
  lemma AggregateWithinRange(log: Log, lo: real, hi: real)
    requires AllWithin(MetricScores(log, AnswerRelevance), lo, hi)
    requires lo <= 0.0 <= hi
    ensures lo <= GetAggregateMetrics(log).answerRelevance <= hi
  {
    MeanWithin(MetricScores(log, AnswerRelevance), lo, hi);
  }
}
