/** The query decomposer's fallback logic. The LLM exchange is abstract: what
    matters is whether a client exists, whether the call (or the JSON parse
    of its reply) raised, and otherwise the parsed reply. */
module QueryDecomposer {
  import opened Json
  import Slicing

  datatype LlmReply =
    | NoClient          // ANTHROPIC_API_KEY unset: `_get_client()` is None
    | CallRaised        // the API call, `content[0]` or `json.loads` raised
    | Parsed(reply: Value)

  /** `decompose_query(query, max_sub_queries)`. */
  function Decompose(query: string, maxSubQueries: int, reply: LlmReply): seq<Value> {
    match reply
    case Parsed(List(items)) =>
      if |items| > 0 then Slicing.Take(items, maxSubQueries) else [Str(query)]
    case _ => [Str(query)]
  }

  /** Replies the decomposer accepts: a JSON array with at least one element. */
  predicate Accepted(reply: LlmReply) {
    reply.Parsed? && reply.reply.List? && |reply.reply.items| > 0
  }

  /** An accepted reply yields its leading elements, unchecked, in order; any
      other reply (no client, a raised call, a non-list, an empty list) yields
      exactly `[query]`. */
  lemma DecomposeFallback(query: string, maxSubQueries: int, reply: LlmReply)
    ensures !Accepted(reply) ==> Decompose(query, maxSubQueries, reply) == [Str(query)]
    ensures Accepted(reply) ==> Decompose(query, maxSubQueries, reply) <= reply.reply.items
    ensures Accepted(reply) && maxSubQueries >= 0 ==>
              |Decompose(query, maxSubQueries, reply)|
              == if maxSubQueries < |reply.reply.items| then maxSubQueries else |reply.reply.items|
  {
    Slicing.TakeLength(if reply.Parsed? && reply.reply.List? then reply.reply.items else [], maxSubQueries);
  }

  /** With a positive bound the result is never empty and never longer than
      the bound. */
  lemma DecomposeBounds(query: string, maxSubQueries: int, reply: LlmReply)
    requires maxSubQueries >= 1
    ensures 1 <= |Decompose(query, maxSubQueries, reply)| <= maxSubQueries
  {
    if Accepted(reply) {
      Slicing.TakeLength(reply.reply.items, maxSubQueries);
    }
  }

  /** A non-positive bound slices an accepted reply from the end, as
      Python's `items[:n]` does: a bound of 0 keeps nothing and a bound of
      `-m` drops the last `m` elements. The fallback paths are unaffected and
      still give `[query]`. */
  lemma DecomposeNonPositiveBound(query: string, maxSubQueries: int, reply: LlmReply)
    requires maxSubQueries <= 0
    ensures Accepted(reply) && maxSubQueries == 0 ==> Decompose(query, maxSubQueries, reply) == []
    ensures Accepted(reply) && maxSubQueries < 0 && |reply.reply.items| + maxSubQueries > 0 ==>
              Decompose(query, maxSubQueries, reply) == reply.reply.items[..|reply.reply.items| + maxSubQueries]
    ensures Accepted(reply) && |reply.reply.items| + maxSubQueries <= 0 ==>
              Decompose(query, maxSubQueries, reply) == []
    ensures !Accepted(reply) ==> Decompose(query, maxSubQueries, reply) == [Str(query)]
  {
    if Accepted(reply) {
      var items := reply.reply.items;
      assert Decompose(query, maxSubQueries, reply) == Slicing.Take(items, maxSubQueries);
    }
  }
}
