/**
 * IdempotencyServiceImpl: a Redis keyspace holding, under "idempotency:txn:" + transactionId,
 * the JSON of the response already returned for that transaction.
 */
module Idempotency {
  import opened Wrappers
  import opened FraudDomain

  const RedisPrefix: string := "idempotency:txn:"

  function CacheKey(transactionId: string): (key: string)
    ensures |key| == |RedisPrefix| + |transactionId|
    ensures key[..|RedisPrefix|] == RedisPrefix && key[|RedisPrefix|..] == transactionId
  {
    RedisPrefix + transactionId
  }

  /** Distinct transactions never share a key. */
  lemma CacheKeyInjective(a: string, b: string)
    requires CacheKey(a) == CacheKey(b)
    ensures a == b
  {
    assert CacheKey(a)[|RedisPrefix|..] == a;
  }

  /**
   * A stored value: the JSON that markAsProcessed wrote for a response, or text that Jackson
   * cannot read back as a ProcessTransactionResponseDTO.
   */
  datatype CachedValue = Json(response: Response) | Malformed(text: string)

  /** objectMapper.writeValueAsString, abstractly. */
  function Serialize(response: Response): CachedValue {
    Json(response)
  }

  /** objectMapper.readValue, abstractly: None where it throws JsonProcessingException. */
  function Deserialize(value: CachedValue): Option<Response> {
    match value
    case Json(r) => Some(r)
    case Malformed(_) => None
  }

  lemma DeserializeSerialize(response: Response)
    ensures Deserialize(Serialize(response)) == Some(response)
  {
  }

  /** What getCachedResponse emits against a given keyspace: empty when absent or unreadable. */
  function CachedResponse(store: map<string, CachedValue>, transactionId: string): (r: Option<Response>)
    ensures r.Some? <==> CacheKey(transactionId) in store && store[CacheKey(transactionId)].Json?
    ensures r.Some? ==> store[CacheKey(transactionId)] == Serialize(r.value)
  {
    var key := CacheKey(transactionId);
    if key in store then Deserialize(store[key]) else None
  }

  /** The keyspace after markAsProcessed; `lands` says whether serialisation and the SET succeeded. */
  function MarkedStore(store: map<string, CachedValue>, transactionId: string, response: Response, lands: bool): map<string, CachedValue> {
    if lands then store[CacheKey(transactionId) := Serialize(response)] else store
  }

  /** After a successful markAsProcessed(k, r), getCachedResponse(k) returns r. */
  lemma ReadAfterWrite(store: map<string, CachedValue>, transactionId: string, response: Response)
    ensures CachedResponse(MarkedStore(store, transactionId, response, true), transactionId) == Some(response)
  {
  }

  /** markAsProcessed writes only its own prefixed key, so every other transaction reads as before. */
  lemma MarkTouchesOnlyItsKey(store: map<string, CachedValue>, transactionId: string, response: Response, lands: bool, other: string)
    requires other != transactionId
    ensures CachedResponse(MarkedStore(store, transactionId, response, lands), other) == CachedResponse(store, other)
  {
    if CacheKey(other) == CacheKey(transactionId) {
      CacheKeyInjective(other, transactionId);
    }
  }

  /** A present but unreadable value reads back as absent, so isDuplicate and getCachedResponse disagree. */
  lemma MalformedIsDuplicateButNotCached(store: map<string, CachedValue>, transactionId: string)
    requires CacheKey(transactionId) in store && store[CacheKey(transactionId)].Malformed?
    ensures CachedResponse(store, transactionId).None?
  {
  }

  class IdempotencyServiceImpl {
    /** The Redis keyspace (other applications' keys included). */
    var store: map<string, CachedValue>

    constructor (initial: map<string, CachedValue>)
      ensures store == initial
    {
      store := initial;
    }

    /** isDuplicate: hasKey on the prefixed key. */
    method IsDuplicate(transactionId: string) returns (duplicate: bool)
      ensures duplicate <==> CacheKey(transactionId) in store
    {
      duplicate := CacheKey(transactionId) in store;
    }

    /** getCachedResponse: GET the prefixed key and deserialise; empty when absent or unreadable. */
    method GetCachedResponse(transactionId: string) returns (r: Option<Response>)
      ensures r.Some? <==> CacheKey(transactionId) in store && store[CacheKey(transactionId)].Json?
      ensures r.Some? ==> store[CacheKey(transactionId)] == Json(r.value)
      ensures r == CachedResponse(store, transactionId)
    {
      var key := CacheKey(transactionId);
      if key !in store {
        return None;
      }
      r := Deserialize(store[key]);
    }

    /**
     * markAsProcessed: SET the prefixed key to the response's JSON (with the TTL). A
     * serialisation or store failure (`lands` false) is logged and swallowed: there is no
     * error result, and the keyspace is unchanged.
     */
    method MarkAsProcessed(transactionId: string, response: Response, lands: bool)
      modifies this
      ensures store == MarkedStore(old(store), transactionId, response, lands)
      ensures lands ==> CachedResponse(store, transactionId) == Some(response)
      ensures forall k :: k in old(store) && k != CacheKey(transactionId) ==> k in store && store[k] == old(store)[k]
      ensures forall k :: k in store ==> k in old(store) || k == CacheKey(transactionId)
    {
      if lands {
        store := store[CacheKey(transactionId) := Serialize(response)];
      }
    }

    /** The key's TTL running out (Redis evicts it). */
    method Expire(transactionId: string)
      modifies this
      ensures store == old(store) - {CacheKey(transactionId)}
    {
      store := store - {CacheKey(transactionId)};
    }
  }
}
