/** The adapter around the Pinecone vector index: search-parameter building,
    projection of raw matches into hits, the upsert count and the stats
    projection. The index itself is a parameter: a function from the request
    it is sent to the outcome it produces. */
module PineconeService {
  import opened Wrappers
  import opened Json

  /** One retrieved item as the rest of the service sees it. */
  datatype Hit = Hit(id: string, text: string, score: real, metadata: map<string, Value>)

  /** The arguments of one `PineconeService.search` call. The query is a JSON
      value because sub-queries produced by the decomposer are passed on
      without being checked to be strings. */
  datatype SearchCall = SearchCall(
    namespace: string,
    query: Value,
    topK: int,
    filters: Option<map<string, Value>>,
    rerank: bool)

  datatype RerankSpec = RerankSpec(model: string, rankFields: seq<string>, topN: int)
  datatype QuerySpec = QuerySpec(topK: int, inputText: Value, filter: Option<map<string, Value>>)

  /** The keyword arguments handed to `index.search`. */
  datatype SearchParams = SearchParams(namespace: string, query: QuerySpec, rerank: Option<RerankSpec>)

  /** One raw match of the index response; each key may be missing. */
  datatype Match = Match(id: Option<string>, score: Option<real>, fields: Option<map<string, Value>>)

  /** The index, as seen by the adapter. */
  type Index = SearchParams -> Result<seq<Match>>

  /** The search function the routers call. */
  type Searcher = SearchCall -> Result<seq<Hit>>

  const RerankModel: string := "pinecone-rerank-v0"

  /** `if filters:` — a missing or empty filter dictionary adds no filter. */
  predicate FiltersTruthy(filters: Option<map<string, Value>>) {
    filters.Some? && |filters.value| > 0
  }

  function BuildSearchParams(call: SearchCall): SearchParams {
    SearchParams(
      call.namespace,
      QuerySpec(call.topK, call.query, if FiltersTruthy(call.filters) then call.filters else None),
      if call.rerank then Some(RerankSpec(RerankModel, ["text"], call.topK)) else None)
  }

  /** Reads the call back out of the parameters sent to the index. */
  function CallOfParams(p: SearchParams): SearchCall {
    SearchCall(p.namespace, p.query.inputText, p.query.topK, p.query.filter, p.rerank.Some?)
  }

  /** The parameters carry every argument of the call, except that an empty
      filter dictionary is dropped; a rerank block is present exactly when
      rerank was requested, and it reranks the `text` field down to `top_k`. */
  lemma BuildSearchParamsRoundTrip(call: SearchCall)
    ensures CallOfParams(BuildSearchParams(call))
            == call.(filters := if FiltersTruthy(call.filters) then call.filters else None)
    ensures BuildSearchParams(call).rerank.Some? <==> call.rerank
    ensures call.rerank ==> BuildSearchParams(call).rerank.value.topN == call.topK
                            && BuildSearchParams(call).rerank.value.rankFields == ["text"]
  {
  }

  /** `fields.get("text", "")`; a non-string text value projects to "". */
  function TextOf(fields: map<string, Value>): string {
    if "text" in fields && fields["text"].Str? then fields["text"].s else ""
  }

  function ProjectMatch(m: Match): Hit {
    var fields := if m.fields.Some? then m.fields.value else map[];
    Hit(
      if m.id.Some? then m.id.value else "",
      TextOf(fields),
      if m.score.Some? then m.score.value else 0.0,
      map k | k in fields && k != "text" :: fields[k])
  }

  /** One hit per match, in the index's order; missing keys default to "",
      "" and 0.0; the metadata is every field but `text`. */
  function ProjectHits(matches: seq<Match>): (hits: seq<Hit>)
    ensures |hits| == |matches|
    ensures forall i :: 0 <= i < |hits| ==> hits[i] == ProjectMatch(matches[i])
  {
    if |matches| == 0 then [] else [ProjectMatch(matches[0])] + ProjectHits(matches[1..])
  }

  /** Projection loses no field: the metadata together with the text gives
      back the match's fields, and `text` never appears in the metadata. */
  lemma ProjectMatchKeepsFields(m: Match)
    requires m.fields.Some? && "text" in m.fields.value && m.fields.value["text"].Str?
    ensures "text" !in ProjectMatch(m).metadata
    ensures ProjectMatch(m).metadata["text" := Str(ProjectMatch(m).text)] == m.fields.value
  {
    var h := ProjectMatch(m);
    assert h.metadata["text" := Str(h.text)].Keys == m.fields.value.Keys;
  }

  /** Defaults of the projection when the match lacks a key. */
  lemma ProjectMatchDefaults(m: Match)
    ensures m.id.None? ==> ProjectMatch(m).id == ""
    ensures m.score.None? ==> ProjectMatch(m).score == 0.0
    ensures m.fields.None? ==> ProjectMatch(m).text == "" && ProjectMatch(m).metadata == map[]
    ensures m.id.Some? ==> ProjectMatch(m).id == m.id.value
    ensures m.score.Some? ==> ProjectMatch(m).score == m.score.value
  {
  }

  /** `PineconeService.search`: build the parameters, ask the index, project.
      An index fault propagates to the caller. */
  function Search(index: Index, call: SearchCall): (r: Result<seq<Hit>>)
    ensures r.Ok? <==> index(BuildSearchParams(call)).Ok?
    ensures r.Ok? ==> r.value == ProjectHits(index(BuildSearchParams(call)).value)
    ensures r.Err? ==> r.error == index(BuildSearchParams(call)).error
  {
    match index(BuildSearchParams(call))
    case Ok(matches) => Ok(ProjectHits(matches))
    case Err(e) => Err(e)
  }

  /** One `upsert_records` request: the namespace and the records sent. */
  datatype UpsertCall<R> = UpsertCall(namespace: string, records: seq<R>)

  /** An upsert's count (or the index fault) and the requests it sent. */
  datatype Upserted<R> = Upserted(count: Result<nat>, calls: seq<UpsertCall<R>>)

  /** `PineconeService.upsert`: no records means 0 without asking the index;
      otherwise exactly the given records go to the given namespace in one
      request, and the index fault propagates or the count is the number of
      records. `indexOutcome` is what `upsert_records` answers. */
  function Upsert<R>(namespace: string, records: seq<R>, indexOutcome: Result<()>): (r: Upserted<R>)
    ensures |records| == 0 ==> r == Upserted(Ok(0), [])
    ensures |records| > 0 ==> r.calls == [UpsertCall(namespace, records)]
    ensures |records| > 0 ==> (r.count.Ok? <==> indexOutcome.Ok?)
    ensures r.count.Ok? ==> r.count.value == |records|
    ensures r.count.Err? ==> indexOutcome.Err? && r.count.error == indexOutcome.error
  {
    if |records| == 0 then Upserted(Ok(0), [])
    else if indexOutcome.Err? then Upserted(Err(indexOutcome.error), [UpsertCall(namespace, records)])
    else Upserted(Ok(|records|), [UpsertCall(namespace, records)])
  }

  datatype NamespaceInfo = NamespaceInfo(vectorCount: Option<int>)
  datatype RawStats = RawStats(totalVectorCount: Option<int>, namespaces: Option<map<string, NamespaceInfo>>)
  datatype IndexStats = IndexStats(indexName: string, totalVectors: int, namespaces: map<string, int>)

  /** `PineconeService.get_stats`: one entry per reported namespace, missing
      counts read as 0. */
  function GetStats(indexName: string, raw: RawStats): (r: IndexStats)
    ensures r.indexName == indexName
    ensures r.totalVectors == (if raw.totalVectorCount.Some? then raw.totalVectorCount.value else 0)
    ensures raw.namespaces.None? ==> r.namespaces == map[]
    ensures raw.namespaces.Some? ==> r.namespaces.Keys == raw.namespaces.value.Keys
    ensures raw.namespaces.Some? ==>
              forall ns :: ns in r.namespaces ==>
                r.namespaces[ns] == (if raw.namespaces.value[ns].vectorCount.Some?
                                     then raw.namespaces.value[ns].vectorCount.value else 0)
  {
    var nss := if raw.namespaces.Some? then raw.namespaces.value else map[];
    IndexStats(
      indexName,
      if raw.totalVectorCount.Some? then raw.totalVectorCount.value else 0,
      map ns | ns in nss :: if nss[ns].vectorCount.Some? then nss[ns].vectorCount.value else 0)
  }

  /** The module-level singleton slot and the handle of a constructed service. */
  type ServiceHandle = nat

  /** `get_pinecone_service`: construct on first use, then always return the
      stored instance. */
  function GetService(slot: Option<ServiceHandle>, created: ServiceHandle): (r: (ServiceHandle, Option<ServiceHandle>))
    ensures r.1 == Some(r.0)
    ensures slot.Some? ==> r.0 == slot.value
  {
    if slot.Some? then (slot.value, slot) else (created, Some(created))
  }

  /** Every call after the first returns the instance the first call made,
      whatever new handle is offered. */
  lemma GetServiceSingleton(slot: Option<ServiceHandle>, f1: ServiceHandle, f2: ServiceHandle)
    ensures GetService(GetService(slot, f1).1, f2).0 == GetService(slot, f1).0
    ensures GetService(GetService(slot, f1).1, f2).1 == GetService(slot, f1).1
  {
  }
}
