/** The ingest router: records posted by a client are turned into index
    records and upserted; the bulk endpoint turns the Node backend's sellers
    into onboarding-knowledge records.

    Generated UUIDs are supplied per position (`uuids(i)` for the i-th
    record), the Node backend's reply is an input, and `fmt` stands for
    Python's `str()` of a non-string JSON value. */
module IngestRouter {
  import opened Wrappers
  import opened Json
  import PineconeService
  import Slicing

  /** An index record: its `_id`, `text` and metadata fields. */
  type Fields = map<string, Value>

  datatype IngestRecord = IngestRecord(
    id: Option<string>,
    text: string,
    category: Option<string>,
    domain: Option<string>,
    outcome: Option<string>,
    riskScore: Option<real>,
    sellerId: Option<string>,
    country: Option<string>,
    timestamp: Option<string>,
    source: Option<string>)

  datatype IngestResponse = IngestResponse(success: bool, upsertedCount: nat, namespace: string)

  /** A handler's outcome (an uncaught fault is `Err`) and the upserts it
      sent to the index, in order. */
  datatype IngestRun = IngestRun(outcome: Result<IngestResponse>, upserts: seq<PineconeService.UpsertCall<Fields>>)

  /** `if r.field:` — an optional string counts only when present and
      non-empty. */
  predicate Given(s: Option<string>) {
    s.Some? && |s.value| > 0
  }

  /** Adds `key` when the optional string is given. */
  function AddIfGiven(m: Fields, key: string, s: Option<string>): Fields {
    if Given(s) then m[key := Str(s.value)] else m
  }

  /** The optional string fields of a posted record, under their keys. */
  function OptionalFields(r: IngestRecord): seq<(string, Option<string>)> {
    [("category", r.category), ("domain", r.domain), ("outcome", r.outcome), ("sellerId", r.sellerId),
     ("country", r.country), ("timestamp", r.timestamp), ("source", r.source)]
  }

  /** Adds each given optional field in turn. */
  function AddGiven(m: Fields, entries: seq<(string, Option<string>)>): Fields
    decreases |entries|
  {
    if |entries| == 0 then m else AddGiven(AddIfGiven(m, entries[0].0, entries[0].1), entries[1..])
  }

  /** The index record built from one posted record. */
  function ToFields(r: IngestRecord, uuid: string): Fields {
    var base := map["_id" := Str(if Given(r.id) then r.id.value else "KB-" + uuid), "text" := Str(r.text)];
    var withRisk := if r.riskScore.Some? then base["riskScore" := Num(r.riskScore.value)] else base;
    AddGiven(withRisk, OptionalFields(r))
  }

  /** A key no entry names keeps its value. */
  lemma {:induction false} AddGivenKeeps(m: Fields, entries: seq<(string, Option<string>)>, k: string)
    requires forall i :: 0 <= i < |entries| ==> entries[i].0 != k
    ensures k in AddGiven(m, entries) <==> k in m
    ensures k in m ==> AddGiven(m, entries)[k] == m[k]
    decreases |entries|
  {
    if |entries| > 0 {
      AddGivenKeeps(AddIfGiven(m, entries[0].0, entries[0].1), entries[1..], k);
    }
  }

  /** A key named by exactly one entry is set when that entry is given. */
  lemma {:induction false} AddGivenReads(m: Fields, entries: seq<(string, Option<string>)>, i: nat)
    requires i < |entries|
    requires forall j :: 0 <= j < |entries| && j != i ==> entries[j].0 != entries[i].0
    ensures OptionalString(AddGiven(m, entries), entries[i].0)
            == if Given(entries[i].1) then entries[i].1 else OptionalString(m, entries[i].0)
    decreases |entries|
  {
    var m' := AddIfGiven(m, entries[0].0, entries[0].1);
    if i == 0 {
      AddGivenKeeps(m', entries[1..], entries[0].0);
    } else {
      AddGivenReads(m', entries[1..], i - 1);
    }
  }

  /** Reads an optional string field back. */
  function OptionalString(m: Fields, key: string): Option<string> {
    if key in m && m[key].Str? then Some(m[key].s) else None
  }

  /** Reads a posted record back out of an index record. */
  function FromFields(m: Fields): IngestRecord {
    IngestRecord(
      OptionalString(m, "_id"),
      if "text" in m && m["text"].Str? then m["text"].s else "",
      OptionalString(m, "category"),
      OptionalString(m, "domain"),
      OptionalString(m, "outcome"),
      if "riskScore" in m && m["riskScore"].Num? then Some(m["riskScore"].r) else None,
      OptionalString(m, "sellerId"),
      OptionalString(m, "country"),
      OptionalString(m, "timestamp"),
      OptionalString(m, "source"))
  }

  /** An empty optional string is the same as a missing one. */
  function NormaliseField(s: Option<string>): Option<string> {
    if Given(s) then s else None
  }

  /** The optional fields are stored under pairwise different keys, none of
      them `_id`, `text` or `riskScore`. */
  lemma OptionalKeysDistinct(r: IngestRecord)
    ensures forall i, j :: 0 <= i < j < |OptionalFields(r)| ==> OptionalFields(r)[i].0 != OptionalFields(r)[j].0
    ensures forall i :: 0 <= i < |OptionalFields(r)| ==>
              OptionalFields(r)[i].0 !in {"_id", "text", "riskScore"}
  {
    KeyChars();
  }

  /** Each optional field reads back as posted, an empty string as missing. */
  lemma ToFieldsReadsOptional(r: IngestRecord, uuid: string, i: nat)
    requires i < |OptionalFields(r)|
    ensures OptionalString(ToFields(r, uuid), OptionalFields(r)[i].0) == NormaliseField(OptionalFields(r)[i].1)
  {
    var entries := OptionalFields(r);
    var base := map["_id" := Str(if Given(r.id) then r.id.value else "KB-" + uuid), "text" := Str(r.text)];
    var withRisk := if r.riskScore.Some? then base["riskScore" := Num(r.riskScore.value)] else base;
    OptionalKeysDistinct(r);
    AddGivenReads(withRisk, entries, i);
    assert entries[i].0 !in withRisk;
  }

  /** The id, the text and the risk score read back as built. */
  lemma ToFieldsReadsBase(r: IngestRecord, uuid: string)
    ensures OptionalString(ToFields(r, uuid), "_id") == Some(if Given(r.id) then r.id.value else "KB-" + uuid)
    ensures "text" in ToFields(r, uuid) && ToFields(r, uuid)["text"] == Str(r.text)
    ensures ("riskScore" in ToFields(r, uuid)) <==> r.riskScore.Some?
    ensures r.riskScore.Some? ==> ToFields(r, uuid)["riskScore"] == Num(r.riskScore.value)
  {
    var entries := OptionalFields(r);
    var base := map["_id" := Str(if Given(r.id) then r.id.value else "KB-" + uuid), "text" := Str(r.text)];
    var withRisk := if r.riskScore.Some? then base["riskScore" := Num(r.riskScore.value)] else base;
    OptionalKeysDistinct(r);
    KeyChars();
    AddGivenKeeps(withRisk, entries, "_id");
    AddGivenKeeps(withRisk, entries, "text");
    AddGivenKeeps(withRisk, entries, "riskScore");
  }

  /** The fields keep everything the posted record says: reading them back
      gives the record with its generated id and with empty optional strings
      dropped; a risk score of zero is kept. */
  lemma ToFieldsRoundTrip(r: IngestRecord, uuid: string)
    ensures FromFields(ToFields(r, uuid)) == Normalised(r, uuid)
  {
    ToFieldsReadsBase(r, uuid);
    ToFieldsReadsOptional(r, uuid, 0);
    ToFieldsReadsOptional(r, uuid, 1);
    ToFieldsReadsOptional(r, uuid, 2);
    ToFieldsReadsOptional(r, uuid, 3);
    ToFieldsReadsOptional(r, uuid, 4);
    ToFieldsReadsOptional(r, uuid, 5);
    ToFieldsReadsOptional(r, uuid, 6);
  }

  /** What an index record keeps of a posted record: the id, generated as
      `KB-<uuid>` when none was given, and the optional strings with empty
      ones read as missing. */
  function Normalised(r: IngestRecord, uuid: string): IngestRecord {
    IngestRecord(
      Some(if Given(r.id) then r.id.value else "KB-" + uuid),
      r.text,
      NormaliseField(r.category),
      NormaliseField(r.domain),
      NormaliseField(r.outcome),
      r.riskScore,
      NormaliseField(r.sellerId),
      NormaliseField(r.country),
      NormaliseField(r.timestamp),
      NormaliseField(r.source))
  }

  /** The characters that tell the record keys apart. */
  lemma KeyChars()
    ensures "_id"[0] == '_' && "text"[0] == 't' && "text"[1] == 'e' && "category"[0] == 'c' && "category"[1] == 'a'
    ensures "domain"[0] == 'd' && "outcome"[0] == 'o' && "riskScore"[0] == 'r'
    ensures "sellerId"[0] == 's' && "sellerId"[1] == 'e' && "country"[0] == 'c' && "country"[1] == 'o'
    ensures "timestamp"[0] == 't' && "timestamp"[1] == 'i' && "source"[0] == 's' && "source"[1] == 'o'
  {
  }

  /** The keys an index record built from a posted record may have. */
  const RecordKeys: set<string> := {"_id", "text", "category", "domain", "outcome", "riskScore",
                                    "sellerId", "country", "timestamp", "source"}

  /** The index record has `_id` and `text`, and otherwise only the known
      metadata keys; the risk score is present exactly when given, even when
      it is zero. */
  lemma ToFieldsKeys(r: IngestRecord, uuid: string)
    ensures "_id" in ToFields(r, uuid) && "text" in ToFields(r, uuid)
    ensures ToFields(r, uuid).Keys <= RecordKeys
    ensures ("riskScore" in ToFields(r, uuid)) <==> r.riskScore.Some?
  {
    var entries := OptionalFields(r);
    var base := map["_id" := Str(if Given(r.id) then r.id.value else "KB-" + uuid), "text" := Str(r.text)];
    var withRisk := if r.riskScore.Some? then base["riskScore" := Num(r.riskScore.value)] else base;
    ToFieldsReadsBase(r, uuid);
    forall k | k in ToFields(r, uuid) ensures k in RecordKeys {
      if k !in RecordKeys {
        AddGivenKeeps(withRisk, entries, k);
      }
    }
  }

  /** `POST /ingest`: one index record per posted record, in order, then one
      upsert into the requested namespace; an index fault propagates. */
  function IngestRecords(namespace: string, records: seq<IngestRecord>, uuids: nat -> string,
                         indexOutcome: Result<()>): (r: IngestRun)
    ensures |records| == 0 ==> r == IngestRun(Ok(IngestResponse(true, 0, namespace)), [])
    ensures |records| > 0 ==> |r.upserts| == 1 && r.upserts[0].namespace == namespace
    ensures |records| > 0 ==> |r.upserts[0].records| == |records|
    ensures |records| > 0 ==>
              forall i :: 0 <= i < |records| ==> r.upserts[0].records[i] == ToFields(records[i], uuids(i))
    ensures |records| > 0 ==> (r.outcome.Ok? <==> indexOutcome.Ok?)
    ensures r.outcome.Ok? ==> r.outcome.value == IngestResponse(true, |records|, namespace)
  {
    var fields := seq(|records|, i requires 0 <= i < |records| => ToFields(records[i], uuids(i)));
    var up := PineconeService.Upsert(namespace, fields, indexOutcome);
    match up.count
    case Ok(count) => IngestRun(Ok(IngestResponse(true, count, namespace)), up.calls)
    case Err(e) => IngestRun(Err(e), up.calls)
  }

  /** Every posted record can be read back, in its position, from what the
      index was sent: nothing is lost, reordered or mixed up on the way. */
  lemma IngestReadsBack(namespace: string, records: seq<IngestRecord>, uuids: nat -> string,
                        indexOutcome: Result<()>, i: nat)
    requires i < |records|
    ensures var sent := IngestRecords(namespace, records, uuids, indexOutcome).upserts;
            |sent| == 1 && sent[0].namespace == namespace
            && FromFields(sent[0].records[i]) == Normalised(records[i], uuids(i))
  {
    ToFieldsRoundTrip(records[i], uuids(i));
  }

  // ---------------------------------------------------------------------------
  // POST /ingest/bulk

  const BulkNamespace: string := "onboarding-knowledge"
  const MaxSellers: int := 100
  const MaxFactors: int := 5

  /** The Node backend's reply to the seller request; `body` is `None` when
      it is not JSON. */
  datatype HttpReply = HttpReply(status: int, body: Option<Value>)

  /** How a value is shown inside an f-string. */
  function Display(fmt: Value -> string, v: Value): string {
    if v.Str? then v.s else fmt(v)
  }

  /** `sep.join(parts)`. */
  function Join(sep: string, parts: seq<string>): (r: string)
    ensures |parts| > 0 ==> parts[0] <= r
    ensures |parts| == 1 ==> r == parts[0]
  {
    if |parts| == 0 then ""
    else if |parts| == 1 then parts[0]
    else parts[0] + sep + Join(sep, parts[1..])
  }

  /** Joining two non-empty runs of parts is joining each and putting the
      separator between them. */
  lemma {:induction false} JoinConcat(sep: string, a: seq<string>, b: seq<string>)
    requires |a| > 0 && |b| > 0
    ensures Join(sep, a + b) == Join(sep, a) + sep + Join(sep, b)
    decreases |a|
  {
    if |a| == 1 {
      assert (a + b)[1..] == b;
    } else {
      assert (a + b)[1..] == a[1..] + b;
      JoinConcat(sep, a[1..], b);
    }
  }

  /** `d.get(key, default)` where `d` must be a dictionary. */
  function Get(d: Value, key: string, default: Value): Result<Value> {
    if d.Object? then Ok(GetOr(d.fields, key, default)) else Err("AttributeError: get")
  }

  /** A string's characters, each as a one-character string. */
  function CharValues(s: string): (r: seq<Value>)
    ensures |r| == |s|
  {
    if |s| == 0 then [] else [Str([s[0]])] + CharValues(s[1..])
  }

  /** The items `xs[:n]` iterates over: a list's elements, a string's
      characters; other values cannot be sliced. */
  function SliceItems(v: Value, n: int): (r: Result<seq<Value>>)
    ensures r.Ok? && n >= 0 ==> |r.value| <= n
  {
    Slicing.TakeLength(if v.List? then v.items else [], n);
    Slicing.TakeLength(if v.Str? then v.s else [], n);
    match v
    case List(items) => Ok(Slicing.Take(items, n))
    case Str(s) => Ok(CharValues(Slicing.Take(s, n)))
    case _ => Err("TypeError: not subscriptable")
  }

  /** How a list of values shows, one string per value, in order. */
  function Shown(fmt: Value -> string, items: seq<Value>): (r: seq<string>)
    ensures |r| == |items|
    ensures forall i :: 0 <= i < |r| ==> r[i] == Display(fmt, items[i])
  {
    seq(|items|, i requires 0 <= i < |items| => Display(fmt, items[i]))
  }

  /** The risk lines of a seller's text, when its risk assessment is truthy:
      the score and the decision ("N/A" when missing), then, when the risk
      factors are truthy, one line joining the first five of them. A list of
      factors always gives that line; a string gives its first characters. */
  function RiskParts(risk: map<string, Value>, fmt: Value -> string): (r: Result<seq<string>>)
    ensures r.Ok? ==> 2 <= |r.value| <= 3
    ensures r.Ok? ==> r.value[0] == "Risk Score: " + Display(fmt, GetOr(risk, "riskScore", Str("N/A")))
                      && r.value[1] == "Decision: " + Display(fmt, GetOr(risk, "decision", Str("N/A")))
    ensures !Truthy(GetOr(risk, "riskFactors", List([]))) ==> r.Ok? && |r.value| == 2
    ensures var factors := GetOr(risk, "riskFactors", List([]));
            Truthy(factors) && factors.List? ==>
              && r.Ok? && |r.value| == 3
              && r.value[2] == "Risk Factors: " + Join(", ", Shown(fmt, factors.items[..Min(MaxFactors, |factors.items|)]))
    ensures var factors := GetOr(risk, "riskFactors", List([]));
            Truthy(factors) && factors.Str? ==>
              && r.Ok? && |r.value| == 3
              && r.value[2] == "Risk Factors: " + Join(", ", Shown(fmt, CharValues(Slicing.Take(factors.s, MaxFactors))))
    ensures var factors := GetOr(risk, "riskFactors", List([]));
            Truthy(factors) ==> (r.Ok? <==> factors.List? || factors.Str?)
  {
    var head := ["Risk Score: " + Display(fmt, GetOr(risk, "riskScore", Str("N/A"))),
                 "Decision: " + Display(fmt, GetOr(risk, "decision", Str("N/A")))];
    var factors := GetOr(risk, "riskFactors", List([]));
    if !Truthy(factors) then Ok(head)
    else match SliceItems(factors, MaxFactors)
      case Err(e) => Err(e)
      case Ok(items) =>
        assert factors.List? ==> items == factors.items[..Min(MaxFactors, |factors.items|)];
        Ok(head + ["Risk Factors: " + Join(", ", Shown(fmt, items))])
  }

  function Min(a: int, b: int): int {
    if a < b then a else b
  }

  /** The five labelled seller lines, "Unknown" standing in for a missing
      field. */
  function SellerLines(s: map<string, Value>, fmt: Value -> string): seq<string> {
    ["Seller: " + Display(fmt, GetOr(s, "businessName", Str("Unknown"))),
     "Category: " + Display(fmt, GetOr(s, "businessCategory", Str("Unknown"))),
     "Country: " + Display(fmt, GetOr(s, "country", Str("Unknown"))),
     "Status: " + Display(fmt, GetOr(s, "status", Str("Unknown"))),
     "Email: " + Display(fmt, GetOr(s, "email", Str("Unknown")))]
  }

  /** The parts of a seller's text: the five seller lines, then the risk
      lines exactly when the risk assessment is non-empty. Only the risk
      lines can fail. */
  function SellerTextParts(s: map<string, Value>, risk: map<string, Value>, fmt: Value -> string)
    : (r: Result<seq<string>>)
    ensures |risk| == 0 ==> r == Ok(SellerLines(s, fmt))
    ensures |risk| > 0 ==> (r.Ok? <==> RiskParts(risk, fmt).Ok?)
    ensures r.Ok? ==> |r.value| >= 5 && r.value[..5] == SellerLines(s, fmt)
    ensures r.Ok? && |risk| > 0 ==> r.value[5..] == RiskParts(risk, fmt).value
  {
    var base := SellerLines(s, fmt);
    if |risk| == 0 then Ok(base)
    else match RiskParts(risk, fmt)
      case Err(e) => Err(e)
      case Ok(more) =>
        assert (base + more)[..5] == base && (base + more)[5..] == more;
        Ok(base + more)
  }

  /** The text of a seller's record: its parts joined by ". "; it always
      starts with the seller's name line. */
  function SellerText(s: map<string, Value>, risk: map<string, Value>, fmt: Value -> string): (r: Result<string>)
    ensures r.Ok? <==> SellerTextParts(s, risk, fmt).Ok?
    ensures r.Ok? ==> "Seller: " + Display(fmt, GetOr(s, "businessName", Str("Unknown"))) <= r.value
    ensures r.Ok? && |risk| == 0 ==> r.value == Join(". ", SellerLines(s, fmt))
    ensures r.Ok? && |risk| > 0 ==>
              r.value == Join(". ", SellerLines(s, fmt)) + ". " + Join(". ", RiskParts(risk, fmt).value)
  {
    match SellerTextParts(s, risk, fmt)
    case Err(e) => Err(e)
    case Ok(parts) =>
      assert parts[0] == parts[..5][0];
      if |risk| > 0 then
        assert parts == parts[..5] + parts[5..];
        JoinConcat(". ", parts[..5], parts[5..]);
        Ok(Join(". ", parts))
      else
        Ok(Join(". ", parts))
  }

  /** The fields of a seller's record around its text. */
  function SellerFields(s: map<string, Value>, risk: map<string, Value>, text: string, uuidHex: string): (f: Fields)
    ensures f.Keys == {"_id", "text", "category", "domain", "outcome", "riskScore", "sellerId", "country", "source"}
    ensures f["_id"] == GetOr(s, "sellerId", Str("SELLER-" + Slicing.Take(uuidHex, 8)))
    ensures f["text"] == Str(text)
    ensures f["category"] == GetOr(s, "businessCategory", Str(""))
    ensures f["domain"] == Str("onboarding")
    ensures f["outcome"] == GetOr(risk, "decision", Str(""))
    ensures f["riskScore"] == GetOr(risk, "riskScore", Int(0))
    ensures f["sellerId"] == GetOr(s, "sellerId", Str(""))
    ensures f["country"] == GetOr(s, "country", Str(""))
    ensures f["source"] == Str("bulk-ingest")
  {
    KeyChars();
    map[
      "_id" := GetOr(s, "sellerId", Str("SELLER-" + Slicing.Take(uuidHex, 8))),
      "text" := Str(text),
      "category" := GetOr(s, "businessCategory", Str("")),
      "domain" := Str("onboarding"),
      "outcome" := GetOr(risk, "decision", Str("")),
      "riskScore" := GetOr(risk, "riskScore", Int(0)),
      "sellerId" := GetOr(s, "sellerId", Str("")),
      "country" := GetOr(s, "country", Str("")),
      "source" := Str("bulk-ingest")]
  }

  /** The index record of one seller; a seller that is not a dictionary, or
      whose risk assessment is present but not a dictionary, raises. */
  function SellerRecord(seller: Value, uuidHex: string, fmt: Value -> string): (r: Result<Fields>)
    ensures r.Ok? ==> seller.Object?
    ensures r.Ok? ==> "_id" in r.value && "domain" in r.value && "source" in r.value
    ensures r.Ok? ==> r.value["domain"] == Str("onboarding") && r.value["source"] == Str("bulk-ingest")
    ensures r.Ok? ==> r.value["_id"] == GetOr(seller.fields, "sellerId", Str("SELLER-" + Slicing.Take(uuidHex, 8)))
    ensures (seller.Object? && "onboardingRiskAssessment" in seller.fields
             && !seller.fields["onboardingRiskAssessment"].Object?) ==> r.Err?
  {
    if !seller.Object? then Err("AttributeError: seller has no get")
    else
      var risk := GetOr(seller.fields, "onboardingRiskAssessment", Object(map[]));
      if !risk.Object? then Err("AttributeError: risk has no get")
      else match SellerText(seller.fields, risk.fields, fmt)
        case Err(e) => Err(e)
        case Ok(text) => Ok(SellerFields(seller.fields, risk.fields, text, uuidHex))
  }

  /** Applies `f` to 0, 1, ... in turn; the first fault aborts. */
  function CollectAll<T>(n: nat, f: nat -> Result<T>): (r: Result<seq<T>>)
    ensures r.Ok? ==> |r.value| == n
    ensures r.Ok? <==> forall i :: 0 <= i < n ==> f(i).Ok?
    ensures r.Ok? ==> forall i :: 0 <= i < n ==> r.value[i] == f(i).value
  {
    if n == 0 then Ok([])
    else match CollectAll(n - 1, f)
      case Err(e) => Err(e)
      case Ok(prev) =>
        match f(n - 1)
        case Err(e) => Err(e)
        case Ok(x) => Ok(prev + [x])
  }

  /** The records of the sellers in order; the first seller that raises
      aborts the loop. */
  function SellerRecords(sellers: seq<Value>, uuids: nat -> string, fmt: Value -> string): (r: Result<seq<Fields>>)
    ensures r.Ok? ==> |r.value| == |sellers|
    ensures r.Ok? <==> forall i :: 0 <= i < |sellers| ==> SellerRecord(sellers[i], uuids(i), fmt).Ok?
    ensures r.Ok? ==> forall i :: 0 <= i < |sellers| ==> r.value[i] == SellerRecord(sellers[i], uuids(i), fmt).value
  {
    var f := (i: nat) => if i < |sellers| then SellerRecord(sellers[i], uuids(i), fmt) else Err("");
    assert forall i :: 0 <= i < |sellers| ==> f(i) == SellerRecord(sellers[i], uuids(i), fmt);
    CollectAll(|sellers|, f)
  }

  /** The sellers the reply lists: `.get("data", {}).get("sellers", [])`,
      cut to the first 100. */
  function Sellers(body: Value): (r: Result<seq<Value>>)
    ensures r.Ok? ==> |r.value| <= MaxSellers
  {
    match Get(body, "data", Object(map[]))
    case Err(e) => Err(e)
    case Ok(data) =>
      match Get(data, "sellers", List([]))
      case Err(e) => Err(e)
      case Ok(sellers) => SliceItems(sellers, MaxSellers)
  }

  /** The records the bulk endpoint would upsert: none when the request
      fails or the status is not 200, a fault when the reply cannot be read. */
  function BulkRecords(fetch: Result<HttpReply>, uuids: nat -> string, fmt: Value -> string): (r: Result<seq<Fields>>)
    ensures r.Ok? ==> |r.value| <= MaxSellers
  {
    match fetch
    case Err(e) => Err(e)
    case Ok(reply) =>
      if reply.status != 200 then Ok([])
      else if reply.body.None? then Err("JSONDecodeError")
      else match Sellers(reply.body.value)
        case Err(e) => Err(e)
        case Ok(sellers) => SellerRecords(sellers, uuids, fmt)
  }

  /** `POST /ingest/bulk`: always succeeds with namespace `all`; the count is
      the number of seller records upserted, or 0 when anything on the way
      failed (the faults are logged and swallowed). */
  function BulkIngest(fetch: Result<HttpReply>, uuids: nat -> string, fmt: Value -> string,
                      indexOutcome: Result<()>): (r: IngestRun)
    ensures r.outcome.Ok? && r.outcome.value.success && r.outcome.value.namespace == "all"
    ensures r.outcome.value.upsertedCount <= MaxSellers
    ensures |r.upserts| <= 1
    ensures |r.upserts| == 1 <==> BulkRecords(fetch, uuids, fmt).Ok? && |BulkRecords(fetch, uuids, fmt).value| > 0
    ensures |r.upserts| == 1 ==>
              r.upserts[0] == PineconeService.UpsertCall(BulkNamespace, BulkRecords(fetch, uuids, fmt).value)
    ensures r.outcome.value.upsertedCount > 0 <==> |r.upserts| == 1 && indexOutcome.Ok?
    ensures r.outcome.value.upsertedCount > 0 ==>
              fetch.Ok? && fetch.value.status == 200 && r.outcome.value.upsertedCount == |r.upserts[0].records|
  {
    match BulkRecords(fetch, uuids, fmt)
    case Err(_) => IngestRun(Ok(IngestResponse(true, 0, "all")), [])
    case Ok(records) =>
      var up := PineconeService.Upsert(BulkNamespace, records, indexOutcome);
      var total := if up.count.Ok? then up.count.value else 0;
      IngestRun(Ok(IngestResponse(true, total, "all")), up.calls)
  }

  /** A well-formed seller list: every listed seller is a dictionary whose
      risk assessment, when present, is a dictionary with list-valued risk
      factors. */
  ghost predicate WellFormedSeller(v: Value) {
    && v.Object?
    && ("onboardingRiskAssessment" in v.fields ==>
          var risk := v.fields["onboardingRiskAssessment"];
          && risk.Object?
          && ("riskFactors" in risk.fields ==> risk.fields["riskFactors"].List?))
  }

  /** The reply body that lists `sellers` where the endpoint looks. */
  function SellersBody(sellers: seq<Value>): Value {
    Object(map["data" := Object(map["sellers" := List(sellers)])])
  }

  /** A 200 reply listing sellers gives the records of its first 100. */
  lemma BulkReadsSellers(sellers: seq<Value>, uuids: nat -> string, fmt: Value -> string)
    ensures BulkRecords(Ok(HttpReply(200, Some(SellersBody(sellers)))), uuids, fmt)
            == SellerRecords(Slicing.Take(sellers, MaxSellers), uuids, fmt)
  {
    assert Sellers(SellersBody(sellers)) == Ok(Slicing.Take(sellers, MaxSellers));
  }

  /** Every listed well-formed seller yields a record. */
  lemma ListedSellersBuild(sellers: seq<Value>, uuids: nat -> string, fmt: Value -> string)
    requires forall i :: 0 <= i < |sellers| ==> WellFormedSeller(sellers[i])
    ensures SellerRecords(Slicing.Take(sellers, MaxSellers), uuids, fmt).Ok?
  {
    var listed := Slicing.Take(sellers, MaxSellers);
    Slicing.TakeLength(sellers, MaxSellers);
    forall i | 0 <= i < |listed| ensures SellerRecord(listed[i], uuids(i), fmt).Ok? {
      assert listed[i] == sellers[i];
      WellFormedSellerRecord(listed[i], uuids(i), fmt);
    }
  }

  /** With a 200 reply listing well-formed sellers and a working index, the
      count is the number of sellers, at most 100. */
  lemma BulkCountsSellers(sellers: seq<Value>, uuids: nat -> string, fmt: Value -> string)
    requires forall i :: 0 <= i < |sellers| ==> WellFormedSeller(sellers[i])
    ensures BulkIngest(Ok(HttpReply(200, Some(SellersBody(sellers)))), uuids, fmt, Ok(())).outcome.value.upsertedCount
            == Min(|sellers|, MaxSellers)
  {
    Slicing.TakeLength(sellers, MaxSellers);
    BulkReadsSellers(sellers, uuids, fmt);
    ListedSellersBuild(sellers, uuids, fmt);
  }

  /** With a 200 reply listing well-formed sellers, the bulk sends one
      upsert, to the onboarding-knowledge namespace, holding each of the
      first 100 sellers' records in order. */
  lemma BulkUpsertsSellers(sellers: seq<Value>, uuids: nat -> string, fmt: Value -> string,
                           indexOutcome: Result<()>)
    requires |sellers| > 0
    requires forall i :: 0 <= i < |sellers| ==> WellFormedSeller(sellers[i])
    ensures var up := BulkIngest(Ok(HttpReply(200, Some(SellersBody(sellers)))), uuids, fmt, indexOutcome).upserts;
            && |up| == 1 && up[0].namespace == BulkNamespace
            && |up[0].records| == Min(|sellers|, MaxSellers)
            && forall i :: 0 <= i < |up[0].records| ==> SellerRecord(sellers[i], uuids(i), fmt) == Ok(up[0].records[i])
  {
    var fetch := Ok(HttpReply(200, Some(SellersBody(sellers))));
    var listed := Slicing.Take(sellers, MaxSellers);
    Slicing.TakeLength(sellers, MaxSellers);
    BulkReadsSellers(sellers, uuids, fmt);
    ListedSellersBuild(sellers, uuids, fmt);
    var recs := SellerRecords(listed, uuids, fmt).value;
    assert BulkRecords(fetch, uuids, fmt) == Ok(recs);
    assert BulkIngest(fetch, uuids, fmt, indexOutcome).upserts == [PineconeService.UpsertCall(BulkNamespace, recs)];
    ListedRecords(sellers, listed, recs, uuids, fmt);
  }

  /** The records built for a leading part of the sellers belong to those
      sellers, position by position. */
  lemma ListedRecords(sellers: seq<Value>, listed: seq<Value>, recs: seq<Fields>,
                      uuids: nat -> string, fmt: Value -> string)
    requires listed <= sellers
    requires SellerRecords(listed, uuids, fmt) == Ok(recs)
    ensures forall i :: 0 <= i < |recs| ==> SellerRecord(sellers[i], uuids(i), fmt) == Ok(recs[i])
  {
    forall i | 0 <= i < |recs| ensures SellerRecord(sellers[i], uuids(i), fmt) == Ok(recs[i]) {
      assert listed[i] == sellers[i];
    }
  }

  /** A well-formed seller always yields a record. */
  lemma WellFormedSellerRecord(v: Value, uuidHex: string, fmt: Value -> string)
    requires WellFormedSeller(v)
    ensures SellerRecord(v, uuidHex, fmt).Ok?
  {
  }

  /** A seller whose risk assessment is JSON `null` makes the whole bulk
      ingest upsert nothing: `risk.get` is called on `None` for the record's
      outcome field, and the fault is swallowed. */
  lemma BulkNullRiskUpsertsNothing(before: seq<Value>, seller: map<string, Value>, uuids: nat -> string,
                                   fmt: Value -> string, indexOutcome: Result<()>)
    requires |before| < MaxSellers
    requires "onboardingRiskAssessment" in seller && seller["onboardingRiskAssessment"] == Null
    ensures var r := BulkIngest(Ok(HttpReply(200, Some(SellersBody(before + [Object(seller)])))), uuids, fmt, indexOutcome);
            r.outcome.value.upsertedCount == 0 && r.upserts == []
  {
    var sellers := before + [Object(seller)];
    Slicing.TakeLength(sellers, MaxSellers);
    assert Slicing.Take(sellers, MaxSellers) == sellers;
    BulkReadsSellers(sellers, uuids, fmt);
    assert SellerRecord(sellers[|before|], uuids(|before|), fmt).Err?;
  }

  /** A failed request, a non-200 status or a failing index all give a count
      of 0, and the call still succeeds. */
  lemma BulkFailuresGiveZero(fetch: Result<HttpReply>, uuids: nat -> string, fmt: Value -> string,
                             indexOutcome: Result<()>)
    requires fetch.Err? || fetch.value.status != 200 || indexOutcome.Err?
    ensures BulkIngest(fetch, uuids, fmt, indexOutcome).outcome == Ok(IngestResponse(true, 0, "all"))
  {
  }
}
