/** A JavaScript object used as a registry: string keys in insertion order, each with a
    value. `Object.fromEntries`, the iteration order that `objectEntries` gives, and the
    `find` over its values are modelled here for any value type. */
module Registry {
  import opened Wrappers

  datatype Registry<T> = Registry(keys: seq<string>, entries: map<string, T>)

  /** No key is listed twice, and the listed keys are exactly the keys with a value. */
  ghost predicate Valid<T>(r: Registry<T>)
  {
    && (forall i, j :: 0 <= i < j < |r.keys| ==> r.keys[i] != r.keys[j])
    && (forall k :: k in r.entries <==> k in r.keys)
  }

  /** `{}` */
  function Empty<T>(): (r: Registry<T>)
    ensures Valid(r)
  {
    Registry([], map[])
  }

  /** The values in key order, as `objectEntries(tasks).map(([_, task]) => task)`:
      one value per entry, every entry's value listed, and the
      value at position `i` is that of the `i`-th key. */
  function Values<T>(r: Registry<T>): (vs: seq<T>)
    requires Valid(r)
    ensures |vs| == |r.keys| == |r.entries|
    ensures forall k :: k in r.entries ==> r.entries[k] in vs
    ensures forall i :: 0 <= i < |vs| ==> vs[i] == r.entries[r.keys[i]]
  {
    var vs := seq(|r.keys|, i requires 0 <= i < |r.keys| => r.entries[r.keys[i]]);
    ValidSize(r);
    forall k | k in r.entries
      ensures r.entries[k] in vs
    {
      var i :| 0 <= i < |r.keys| && r.keys[i] == k;
      assert vs[i] == r.entries[k];
    }
    vs
  }

  /** Property assignment `obj[key] = value`: a new key goes to the end of the key
      order, an existing key keeps its place and takes the new value. */
  function Put<T>(r: Registry<T>, key: string, value: T): (r': Registry<T>)
  {
    Registry(if key in r.entries then r.keys else r.keys + [key], r.entries[key := value])
  }

  function Names<T>(pairs: seq<(string, T)>): seq<string>
  {
    seq(|pairs|, i requires 0 <= i < |pairs| => pairs[i].0)
  }

  /** `Object.fromEntries(pairs)`: the pairs assigned one by one, left to right. */
  function FromEntries<T>(pairs: seq<(string, T)>): (r: Registry<T>)
    ensures Valid(r)
    decreases |pairs|
  {
    if pairs == [] then Empty()
    else
      var prefix := FromEntries(pairs[..|pairs| - 1]);
      var last := pairs[|pairs| - 1];
      assert last.0 !in prefix.entries ==> forall i :: 0 <= i < |prefix.keys| ==> prefix.keys[i] != last.0;
      Put(prefix, last.0, last.1)
  }

  /** Reference definition of the key order: each name at its first occurrence. */
  function FirstOccurrences(names: seq<string>): seq<string>
    decreases |names|
  {
    if names == [] then []
    else
      var prefix := names[..|names| - 1];
      var last := names[|names| - 1];
      FirstOccurrences(prefix) + (if last in prefix then [] else [last])
  }

  ghost predicate Distinct(names: seq<string>)
  {
    forall i, j :: 0 <= i < j < |names| ==> names[i] != names[j]
  }

  /** The keys of `Object.fromEntries(pairs)` are the names, each at its first
      occurrence; a key is present exactly when some pair carries it. */
  lemma {:induction false} FromEntriesKeys<T>(pairs: seq<(string, T)>)
    ensures FromEntries(pairs).keys == FirstOccurrences(Names(pairs))
    ensures forall k :: k in FromEntries(pairs).entries <==> k in Names(pairs)
    decreases |pairs|
  {
    if pairs != [] {
      var prefix := pairs[..|pairs| - 1];
      FromEntriesKeys(prefix);
      assert Names(pairs)[..|pairs| - 1] == Names(prefix);
      assert Names(pairs) == Names(prefix) + [pairs[|pairs| - 1].0];
    }
  }

  /** Names without repeats are their own first occurrences. */
  lemma {:induction false} FirstOccurrencesOfDistinct(names: seq<string>)
    requires Distinct(names)
    ensures FirstOccurrences(names) == names
    decreases |names|
  {
    if names != [] {
      var prefix := names[..|names| - 1];
      FirstOccurrencesOfDistinct(prefix);
      assert names[|names| - 1] !in prefix;
    }
  }

  /** When a name occurs more than once, the value of its last pair is stored. */
  lemma {:induction false} FromEntriesLastWins<T>(pairs: seq<(string, T)>, i: nat)
    requires i < |pairs|
    requires forall j :: i < j < |pairs| ==> pairs[j].0 != pairs[i].0
    ensures pairs[i].0 in FromEntries(pairs).entries
    ensures FromEntries(pairs).entries[pairs[i].0] == pairs[i].1
    decreases |pairs|
  {
    if i < |pairs| - 1 {
      FromEntriesLastWins(pairs[..|pairs| - 1], i);
    }
  }

  /** With distinct names the keys are the names in input order, one entry per pair. */
  lemma FromEntriesOfDistinct<T>(pairs: seq<(string, T)>)
    requires Distinct(Names(pairs))
    ensures FromEntries(pairs).keys == Names(pairs)
    ensures |FromEntries(pairs).entries| == |pairs|
  {
    FromEntriesKeys(pairs);
    FirstOccurrencesOfDistinct(Names(pairs));
    ValidSize(FromEntries(pairs));
  }

  /** With distinct names each name stores its own pair's value, and the values come
      out in input order. */
  lemma FromEntriesOfDistinctValues<T>(pairs: seq<(string, T)>)
    requires Distinct(Names(pairs))
    ensures forall i :: 0 <= i < |pairs| ==>
      pairs[i].0 in FromEntries(pairs).entries && FromEntries(pairs).entries[pairs[i].0] == pairs[i].1
    ensures |Values(FromEntries(pairs))| == |pairs|
    ensures forall i :: 0 <= i < |pairs| ==> Values(FromEntries(pairs))[i] == pairs[i].1
  {
    var r := FromEntries(pairs);
    FromEntriesOfDistinct(pairs);
    forall i | 0 <= i < |pairs|
      ensures pairs[i].0 in r.entries && r.entries[pairs[i].0] == pairs[i].1
    {
      DistinctValueStored(pairs, i);
    }
  }

  lemma DistinctValueStored<T>(pairs: seq<(string, T)>, i: nat)
    requires Distinct(Names(pairs)) && i < |pairs|
    ensures pairs[i].0 in FromEntries(pairs).entries
    ensures FromEntries(pairs).entries[pairs[i].0] == pairs[i].1
  {
    var names := Names(pairs);
    forall j | i < j < |pairs|
      ensures pairs[j].0 != pairs[i].0
    {
      assert names[j] == pairs[j].0 && names[i] == pairs[i].0;
    }
    FromEntriesLastWins(pairs, i);
  }

  /** A valid registry has one entry per listed key. */
  lemma ValidSize<T>(r: Registry<T>)
    requires Valid(r)
    ensures |r.entries| == |r.keys|
  {
    assert r.entries.Keys == set k | k in r.keys;
    DistinctCardinality(r.keys);
  }

  /** A sequence without repeats has as many distinct elements as positions. */
  lemma {:induction false} DistinctCardinality(names: seq<string>)
    requires Distinct(names)
    ensures |set k | k in names| == |names|
    decreases |names|
  {
    if names != [] {
      var prefix := names[..|names| - 1];
      DistinctCardinality(prefix);
      assert (set k | k in names) == (set k | k in prefix) + {names[|names| - 1]};
    }
  }

  /** `find`: the position of the first value satisfying `matches`, if any. */
  function FirstMatch<T>(values: seq<T>, matches: T -> bool): (r: Option<nat>)
    ensures r.Some? ==> r.value < |values| && matches(values[r.value])
    ensures r.Some? ==> forall j :: 0 <= j < r.value ==> !matches(values[j])
    ensures r.None? <==> forall j :: 0 <= j < |values| ==> !matches(values[j])
    decreases |values|
  {
    if values == [] then None
    else if matches(values[0]) then Some(0)
    else
      match FirstMatch(values[1..], matches)
      case None => None
      case Some(i) => Some(i + 1)
  }

  /** `findTask` of the newer copy: the first task in key order that satisfies the
      predicate, or the error `Task not found`. */
  function FindTask<T>(tasks: Registry<T>, matches: T -> bool): (r: Result<T, string>)
    requires Valid(tasks)
    ensures r.Success? ==> matches(r.value)
    ensures r.Success? ==> exists i :: 0 <= i < |tasks.keys| && tasks.entries[tasks.keys[i]] == r.value &&
                              (forall j :: 0 <= j < i ==> !matches(tasks.entries[tasks.keys[j]]))
    ensures r.Failure? <==> forall k :: k in tasks.entries ==> !matches(tasks.entries[k])
    ensures r.Failure? ==> r.error == "Task not found"
  {
    var values := Values(tasks);
    match FirstMatch(values, matches)
    case Some(i) => Success(values[i])
    case None =>
      assert forall k :: k in tasks.entries ==> exists i :: 0 <= i < |tasks.keys| && tasks.keys[i] == k;
      Failure("Task not found")
  }

  /** `findTask` of the older copy: the first task in key order that satisfies the
      predicate, or `undefined`; it never throws. */
  function FindTaskOrUndefined<T>(tasks: Registry<T>, matches: T -> bool): (r: Option<T>)
    requires Valid(tasks)
    ensures r.Some? ==> matches(r.value)
    ensures r.Some? ==> exists i :: 0 <= i < |tasks.keys| && tasks.entries[tasks.keys[i]] == r.value &&
                              (forall j :: 0 <= j < i ==> !matches(tasks.entries[tasks.keys[j]]))
    ensures r.None? <==> forall k :: k in tasks.entries ==> !matches(tasks.entries[k])
  {
    var values := Values(tasks);
    match FirstMatch(values, matches)
    case Some(i) => Some(values[i])
    case None =>
      assert forall k :: k in tasks.entries ==> exists i :: 0 <= i < |tasks.keys| && tasks.keys[i] == k;
      None
  }

  /** The two copies agree whenever a task matches, and differ only in how they report
      that none does. */
  lemma FindTaskVariantsAgree<T>(tasks: Registry<T>, matches: T -> bool)
    requires Valid(tasks)
    ensures FindTask(tasks, matches).Success? <==> FindTaskOrUndefined(tasks, matches).Some?
    ensures FindTask(tasks, matches).Success? ==>
      FindTask(tasks, matches).value == FindTaskOrUndefined(tasks, matches).value
  {
  }

  /** An empty registry matches nothing, whatever the predicate. */
  lemma FindInEmpty<T>(matches: T -> bool)
    ensures FindTask(Empty(), matches) == Failure("Task not found")
    ensures FindTaskOrUndefined(Empty(), matches) == None
  {
  }
}
