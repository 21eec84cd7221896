/** Values shared by the query cache: entities, results, generations and keys. */
module CacheTypes {
  import opened Options

  /** A normalized entity key. The empty string stands for an entity whose reference cannot be normalized. */
  type Entity = string

  /** One tuple batch: its content, its encoded size, and whether a value in it is a LOB reference. */
  datatype Batch = Batch(content: int, size: nat, hasLob: bool)

  /** What a result stream reports at its end. */
  datatype QueryOutcome = QueryOutcome(complete: bool, warnings: nat, size: nat)

  datatype CachedResult = CachedResult(batches: seq<Batch>, outcome: Option<QueryOutcome>, size: nat)

  /** A query, up to its connection identifier: the entity it reads and the digest of the request. */
  datatype Query = Query(entity: Entity, digest: int)

  datatype Generation = Generation(global: nat, entity: nat)

  datatype QueryKey = QueryKey(entity: Entity, digest: int, generation: Generation)

  function KeyFor(q: Query, generation: Generation): QueryKey {
    QueryKey(q.entity, q.digest, generation)
  }
}
