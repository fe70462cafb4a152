/** The dashboard endpoints: aggregate metrics, score history, the per use
    case leaderboard and the evaluation list view. Every response is wrapped
    as `{"success": true, "data": ...}`; a `limit` outside 1..500 is rejected
    by request validation before the handler runs. */
module Dashboard {
  import opened Wrappers
  import opened Json
  import opened StableSort
  import opened TrulensEvaluator
  import Slicing

  const MinLimit: int := 1
  const MaxLimit: int := 500

  /** The list view keeps this many leading characters of long texts. */
  const ListTextLength: int := 200

  datatype Response<T> = Response(success: bool, data: T)

  /** The limit used when the query string gives none. */
  const DefaultLimit: int := 50

  /** Request validation of `Query(ge=1, le=500)`. */
  predicate LimitValid(limit: int) {
    MinLimit <= limit <= MaxLimit
  }

  /** The `limit` a handler receives: the query's value when given, else
      the default, which always passes validation. */
  function QueryLimit(given: Option<int>): (limit: int)
    ensures given.None? ==> limit == DefaultLimit && LimitValid(limit)
    ensures given.Some? ==> limit == given.value
  {
    if given.Some? then given.value else DefaultLimit
  }

  /** `GET /metrics`: the aggregate of the whole log, passed on unchanged. */
  function GetMetrics(log: Log): (r: Response<AggregateMetrics>)
    ensures r.success
    ensures r.data == GetAggregateMetrics(log)
    ensures r.data.totalEvaluations == |log|
    ensures r.data.answerRelevance == Means.Mean(MetricScores(log, AnswerRelevance))
    ensures |log| == 0 ==> r.data == AggregateMetrics(0.0, 0.0, 0.0, 0.0, 0, [])
  {
    Response(true, GetAggregateMetrics(log))
  }

  // ---------------------------------------------------------------------------
  // GET /metrics/history

  /** The metric names occurring in `scores`. */
  function MetricNames(scores: seq<Score>): (names: set<string>)
    ensures forall i :: 0 <= i < |scores| ==> scores[i].metric in names
  {
    if |scores| == 0 then {}
    else
      assert forall i :: 0 < i < |scores| ==> scores[i] == scores[1..][i - 1];
      {scores[0].metric} + MetricNames(scores[1..])
  }

  /** `point[s["metric"]] = s["score"]` for each score in turn. */
  function SetScores(point: map<string, Value>, scores: seq<Score>): (p: map<string, Value>)
    ensures p.Keys == point.Keys + MetricNames(scores)
    ensures forall k :: k in point && k !in MetricNames(scores) ==> p[k] == point[k]
    ensures forall i :: 0 <= i < |scores| && scores[i].metric !in MetricNames(scores[i + 1..])
              ==> p[scores[i].metric] == Num(scores[i].score)
    decreases |scores|
  {
    if |scores| == 0 then point
    else
      var rest := scores[1..];
      var p := SetScores(point[scores[0].metric := Num(scores[0].score)], rest);
      assert forall i :: 0 < i < |scores| ==> scores[i] == rest[i - 1] && scores[i + 1..] == rest[i..];
      assert scores[1..] == rest;
      p
  }

  /** The fields every history point starts from. */
  function PointBase(e: Record): map<string, Value> {
    map["timestamp" := Int(e.timestamp), "use_case" := Str(e.useCase), "agent_id" := Str(e.agentId)]
  }

  /** One history point: the record's timestamp, use case and agent, then one
      key per metric holding its last score; a metric named like a base field
      overwrites it. */
  function HistoryPoint(e: Record): (p: map<string, Value>)
    ensures p.Keys == PointBase(e).Keys + MetricNames(e.scores)
    ensures forall k :: k in PointBase(e) && k !in MetricNames(e.scores) ==> p[k] == PointBase(e)[k]
    ensures forall i :: 0 <= i < |e.scores| && e.scores[i].metric !in MetricNames(e.scores[i + 1..])
              ==> p[e.scores[i].metric] == Num(e.scores[i].score)
  {
    SetScores(PointBase(e), e.scores)
  }

  /** `GET /metrics/history`: one point per listed evaluation, newest first,
      at most `limit` of them. */
  function History(log: Log, limit: int): (r: Result<Response<seq<map<string, Value>>>>)
    ensures r.Ok? <==> LimitValid(limit)
    ensures r.Ok? ==> r.value.success && |r.value.data| == Slicing.PrefixLen(|log|, limit)
    ensures r.Ok? ==> forall i :: 0 <= i < |r.value.data| ==>
              r.value.data[i] == HistoryPoint(GetEvaluations(log, limit, None)[i])
  {
    if !LimitValid(limit) then Err("422: limit must be between 1 and 500")
    else
      var evals := GetEvaluations(log, limit, None);
      Ok(Response(true, seq(|evals|, i requires 0 <= i < |evals| => HistoryPoint(evals[i]))))
  }

  /** The four metric names differ from each other and from the base fields. */
  lemma MetricNamesDistinct()
    ensures AnswerRelevance !in {ContextRelevance, Groundedness, Coherence}
    ensures ContextRelevance !in {Groundedness, Coherence} && Groundedness != Coherence
    ensures forall k :: k in PointBase(Record("", "", "", [], None, [], "", "", 0)) ==>
              k !in {AnswerRelevance, ContextRelevance, Groundedness, Coherence}
  {
    assert AnswerRelevance[0] == 'a' && AnswerRelevance[1] == 'n';
    assert ContextRelevance[0] == 'c' && ContextRelevance[1] == 'o' && ContextRelevance[2] == 'n';
    assert Groundedness[0] == 'g';
    assert Coherence[0] == 'c' && Coherence[1] == 'o' && Coherence[2] == 'h';
    assert "timestamp"[0] == 't' && "use_case"[0] == 'u';
    assert "agent_id"[0] == 'a' && "agent_id"[1] == 'g';
  }

  /** The metric names of the scores `evaluate_rag` records, from each
      position on. */
  lemma MetricNamesOfFour(sc: seq<Score>)
    requires |sc| == 4 && forall i :: 0 <= i < 4 ==> sc[i].metric == MetricOrder[i]
    ensures MetricNames(sc) == {AnswerRelevance, ContextRelevance, Groundedness, Coherence}
    ensures MetricNames(sc[1..]) == {ContextRelevance, Groundedness, Coherence}
    ensures MetricNames(sc[2..]) == {Groundedness, Coherence}
    ensures MetricNames(sc[3..]) == {Coherence}
    ensures MetricNames(sc[4..]) == {}
  {
    assert sc[3..][1..] == sc[4..] == [];
    assert sc[2..][1..] == sc[3..];
    assert sc[1..][1..] == sc[2..];
    assert MetricNames(sc[3..]) == {sc[3].metric} + MetricNames(sc[4..]);
    assert MetricNames(sc[2..]) == {sc[2].metric} + MetricNames(sc[3..]);
    assert MetricNames(sc[1..]) == {sc[1].metric} + MetricNames(sc[2..]);
    assert MetricNames(sc) == {sc[0].metric} + MetricNames(sc[1..]);
    assert sc[0].metric == MetricOrder[0] && sc[1].metric == MetricOrder[1];
    assert sc[2].metric == MetricOrder[2] && sc[3].metric == MetricOrder[3];
  }

  /** A record holding the four metrics in their fixed order. */
  ghost predicate FourMetrics(e: Record) {
    |e.scores| == 4 && forall i :: 0 <= i < 4 ==> e.scores[i].metric == MetricOrder[i]
  }

  /** Each of the four scores is the last one named by its metric. */
  lemma FourMetricsLast(e: Record, i: nat)
    requires FourMetrics(e) && i < 4
    ensures e.scores[i].metric !in MetricNames(e.scores[i + 1..])
  {
    MetricNamesOfFour(e.scores);
    MetricNamesDistinct();
  }

  /** The four metric names are not base field names. */
  lemma FourMetricsKeepBase(e: Record)
    requires FourMetrics(e)
    ensures forall k :: k in PointBase(e) ==> k !in MetricNames(e.scores)
  {
    MetricNamesOfFour(e.scores);
    MetricNamesDistinct();
    assert PointBase(e).Keys == PointBase(Record("", "", "", [], None, [], "", "", 0)).Keys;
  }

  /** A point built from a record holding the four metrics in their fixed
      order carries exactly the base fields and one key per metric. */
  lemma HistoryPointOfFour(e: Record)
    requires FourMetrics(e)
    ensures var p := HistoryPoint(e);
            && p.Keys == {"timestamp", "use_case", "agent_id", AnswerRelevance, ContextRelevance, Groundedness, Coherence}
            && p["timestamp"] == Int(e.timestamp)
            && p["use_case"] == Str(e.useCase)
            && p["agent_id"] == Str(e.agentId)
            && p[AnswerRelevance] == Num(e.scores[0].score)
            && p[ContextRelevance] == Num(e.scores[1].score)
            && p[Groundedness] == Num(e.scores[2].score)
            && p[Coherence] == Num(e.scores[3].score)
  {
    MetricNamesOfFour(e.scores);
    FourMetricsKeepBase(e);
    FourMetricsLast(e, 0);
    FourMetricsLast(e, 1);
    FourMetricsLast(e, 2);
    FourMetricsLast(e, 3);
    assert "timestamp" in PointBase(e) && "use_case" in PointBase(e) && "agent_id" in PointBase(e);
  }

  /** A point built from an `evaluate_rag` record carries its four scores
      under their metric names next to the base fields. */
  lemma HistoryPointOfEvaluateRag(log: Log, input: RagInput, provider: Result<Provider>, uuidHex: string, now: nat)
    requires provider.Ok?
    ensures var e := EvaluateRag(log, input, provider, uuidHex, now).0.value;
            var p := HistoryPoint(e);
            && p.Keys == {"timestamp", "use_case", "agent_id", AnswerRelevance, ContextRelevance, Groundedness, Coherence}
            && p["timestamp"] == Int(now)
            && p["use_case"] == Str(input.useCase)
            && p["agent_id"] == Str(input.agentId)
            && p[AnswerRelevance] == Num(e.scores[0].score)
            && p[ContextRelevance] == Num(e.scores[1].score)
            && p[Groundedness] == Num(e.scores[2].score)
            && p[Coherence] == Num(e.scores[3].score)
  {
    HistoryPointOfFour(EvaluateRag(log, input, provider, uuidHex, now).0.value);
  }

  // ---------------------------------------------------------------------------
  // GET /metrics/leaderboard

  function LeaderboardKey(m: UseCaseMetrics): real { m.answerRelevance }

  /** `GET /metrics/leaderboard`: the per use case summaries, highest answer
      relevance first; ties keep the order of first appearance in the log. */
  function Leaderboard(log: Log): (r: Response<seq<UseCaseMetrics>>)
    ensures r.success
    ensures SortedDesc(r.data, LeaderboardKey)
    ensures multiset(r.data) == multiset(GetAggregateMetrics(log).byUseCase)
    ensures IsStableSortOf(r.data, GetAggregateMetrics(log).byUseCase, LeaderboardKey)
  {
    Response(true, Sort(GetAggregateMetrics(log).byUseCase, LeaderboardKey))
  }

  function UseCaseOf(m: UseCaseMetrics): string { m.useCase }

  /** The aggregate lists each use case once. */
  lemma ByUseCaseDistinct(log: Log)
    ensures var cases := GetAggregateMetrics(log).byUseCase;
            forall i, j :: 0 <= i < j < |cases| ==> UseCaseOf(cases[i]) != UseCaseOf(cases[j])
  {
    var cases := GetAggregateMetrics(log).byUseCase;
    var order := UseCaseOrder(log);
    assert forall i :: 0 <= i < |cases| ==> UseCaseOf(cases[i]) == order[i];
  }

  /** Two orderings of the same summaries name the same use cases. */
  lemma SameUseCases(a: seq<UseCaseMetrics>, b: seq<UseCaseMetrics>, uc: string)
    requires multiset(a) == multiset(b)
    ensures (exists i :: 0 <= i < |a| && a[i].useCase == uc) <==> (exists i :: 0 <= i < |b| && b[i].useCase == uc)
  {
    if exists i :: 0 <= i < |a| && a[i].useCase == uc {
      var i :| 0 <= i < |a| && a[i].useCase == uc;
      assert a[i] in multiset(b);
      var k :| 0 <= k < |b| && b[k] == a[i];
    }
    if exists i :: 0 <= i < |b| && b[i].useCase == uc {
      var i :| 0 <= i < |b| && b[i].useCase == uc;
      assert b[i] in multiset(a);
      var k :| 0 <= k < |a| && a[k] == b[i];
    }
  }

  /** Each use case present in the log has exactly one leaderboard entry, and
      no other use case has one. */
  lemma LeaderboardCoversUseCases(log: Log, uc: string)
    ensures (exists i :: 0 <= i < |Leaderboard(log).data| && Leaderboard(log).data[i].useCase == uc)
            <==> exists j :: 0 <= j < |log| && log[j].useCase == uc
    ensures forall i, j :: 0 <= i < j < |Leaderboard(log).data| ==>
              Leaderboard(log).data[i].useCase != Leaderboard(log).data[j].useCase
  {
    var cases := GetAggregateMetrics(log).byUseCase;
    var board := Leaderboard(log).data;
    assert board == Sort(cases, LeaderboardKey);
    ByUseCaseDistinct(log);
    SortKeepsDistinct(cases, LeaderboardKey, UseCaseOf);
    assert forall i, j :: 0 <= i < j < |board| ==> UseCaseOf(board[i]) != UseCaseOf(board[j]);
    AggregateUseCases(log, uc);
    SameUseCases(board, cases, uc);
  }

  // ---------------------------------------------------------------------------
  // GET /metrics/evaluations

  datatype EvaluationSummary = EvaluationSummary(
    evaluationId: string,
    query: string,
    agentResponse: string,
    useCase: string,
    agentId: string,
    scores: seq<Score>,
    timestamp: nat)

  /** The list view of one record: contexts and ground truth dropped, query
      and response cut to their first 200 characters. */
  function ListEntry(e: Record): (s: EvaluationSummary)
    ensures s.query <= e.query && |s.query| == (if |e.query| < ListTextLength then |e.query| else ListTextLength)
    ensures s.agentResponse <= e.agentResponse
    ensures |s.agentResponse| == (if |e.agentResponse| < ListTextLength then |e.agentResponse| else ListTextLength)
    ensures s.evaluationId == e.evaluationId && s.useCase == e.useCase && s.agentId == e.agentId
    ensures s.scores == e.scores && s.timestamp == e.timestamp
  {
    Slicing.TakeLength(e.query, ListTextLength);
    Slicing.TakeLength(e.agentResponse, ListTextLength);
    EvaluationSummary(
      e.evaluationId,
      Slicing.Take(e.query, ListTextLength),
      Slicing.Take(e.agentResponse, ListTextLength),
      e.useCase,
      e.agentId,
      e.scores,
      e.timestamp)
  }

  /** Texts of at most 200 characters are listed in full. */
  lemma SummaryKeepsShortTexts(e: Record)
    requires |e.query| <= ListTextLength && |e.agentResponse| <= ListTextLength
    ensures ListEntry(e).query == e.query && ListEntry(e).agentResponse == e.agentResponse
  {
  }

  /** `GET /metrics/evaluations`: the summaries of `get_evaluations(limit,
      use_case)`, in its order. */
  function ListEvaluations(log: Log, limit: int, useCase: Option<string>): (r: Result<Response<seq<EvaluationSummary>>>)
    ensures r.Ok? <==> LimitValid(limit)
    ensures r.Ok? ==> r.value.success && |r.value.data| == |GetEvaluations(log, limit, useCase)|
    ensures r.Ok? ==> forall i :: 0 <= i < |r.value.data| ==>
              r.value.data[i] == ListEntry(GetEvaluations(log, limit, useCase)[i])
    ensures r.Ok? && useCase.Some? && |useCase.value| > 0 ==>
              forall i :: 0 <= i < |r.value.data| ==> r.value.data[i].useCase == useCase.value
    ensures r.Ok? ==> forall i, j :: 0 <= i < j < |r.value.data| ==>
              r.value.data[i].timestamp >= r.value.data[j].timestamp
  {
    if !LimitValid(limit) then Err("422: limit must be between 1 and 500")
    else
      var evals := GetEvaluations(log, limit, useCase);
      Ok(Response(true, ListEntries(evals)))
  }

  /** The list view of records, one entry per record in the same order. */
  function ListEntries(evals: seq<Record>): (s: seq<EvaluationSummary>)
    ensures |s| == |evals|
    ensures forall i :: 0 <= i < |s| ==> s[i] == ListEntry(evals[i])
    ensures forall i :: 0 <= i < |s| ==> s[i].useCase == evals[i].useCase && s[i].timestamp == evals[i].timestamp
    ensures SortedDesc(evals, TimeOf) ==> forall i, j :: 0 <= i < j < |s| ==> s[i].timestamp >= s[j].timestamp
  {
    var s := seq(|evals|, i requires 0 <= i < |evals| => ListEntry(evals[i]));
    assert SortedDesc(evals, TimeOf) ==> forall i, j :: 0 <= i < j < |s| ==> s[i].timestamp >= s[j].timestamp by {
      if SortedDesc(evals, TimeOf) {
        forall i, j | 0 <= i < j < |s| ensures s[i].timestamp >= s[j].timestamp {
          assert TimeOf(evals[i]) >= TimeOf(evals[j]);
        }
      }
    }
    s
  }
}
