/** A task's configuration object and the shallow merge `{ ...base, ...update }`
    that `updateConfig` performs. */
module TaskConfig {

  /** The values a configuration property can hold. Objects are compared by identity,
      which `Ref` stands for; the merge never looks inside a value. */
  datatype Value =
    | Undefined
    | Null
    | Bool(b: bool)
    | Number(n: int)
    | Str(s: string)
    | Ref(id: nat)

  /** A configuration object: property name to value. */
  type Config = map<string, Value>

  /** The configuration of a task that has never been updated: `{}`. */
  const EmptyConfig: Config := map[]

  /** Object spread `{ ...base, ...update }`: every property of `update` takes its value
      from `update`, every other property of `base` keeps its value, and no property
      appears that neither has. */
  function Merge(base: Config, update: Config): (r: Config)
    ensures r.Keys == base.Keys + update.Keys
    ensures forall k :: k in update ==> r[k] == update[k]
    ensures forall k :: k in base && k !in update ==> r[k] == base[k]
  {
    base + update
  }

  /** Two updates in a row give the configuration that one update with the second
      merged over the first gives. */
  lemma MergeSequential(c: Config, a: Config, b: Config)
    ensures Merge(Merge(c, a), b) == Merge(c, Merge(a, b))
  {
  }

  /** Merging an empty update changes nothing, and merging into an empty
      configuration yields the update itself. */
  lemma MergeIdentity(c: Config)
    ensures Merge(c, EmptyConfig) == c
    ensures Merge(EmptyConfig, c) == c
  {
  }

  /** Applying the same update twice is the same as applying it once. */
  lemma MergeIdempotent(c: Config, u: Config)
    ensures Merge(Merge(c, u), u) == Merge(c, u)
  {
  }

  /** A later update of a property overrides an earlier one
      (`{test: "value"}` then `{test: "new-value"}` leaves `{test: "new-value"}`). */
  lemma MergeOverride(c: Config, key: string, v1: Value, v2: Value)
    ensures Merge(Merge(c, map[key := v1]), map[key := v2]) == c[key := v2]
  {
  }
}
