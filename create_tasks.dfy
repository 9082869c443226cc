/** `createTasks`: instantiate each task class once, in input order, and key the new
    instances by their `name`; and lookups over the registry it builds. */
module TaskRegistry {
  import opened Wrappers
  import opened TaskConfig
  import opened Tasks
  import opened Registry

  /** A task class with a no-argument constructor: the `name` and `type` its
      instances get. */
  datatype TaskClass = TaskClass(name: string, taskType: string)

  /** `t` is a newly constructed instance of `c`. */
  ghost predicate InstanceOf(t: Task, c: TaskClass)
    reads t
  {
    t.name == c.name && t.taskType == c.taskType && t.config == EmptyConfig && t.logger.None?
  }

  /** `Tasks.map(Task => new Task())`: one new, distinct instance per class, in order. */
  method InstantiateAll(classes: seq<TaskClass>) returns (tasks: seq<Task>)
    ensures |tasks| == |classes|
    ensures forall i :: 0 <= i < |tasks| ==> fresh(tasks[i]) && InstanceOf(tasks[i], classes[i])
    ensures forall i, j :: 0 <= i < j < |tasks| ==> tasks[i] != tasks[j]
  {
    tasks := [];
    for n := 0 to |classes|
      invariant |tasks| == n
      invariant forall i :: 0 <= i < n ==> fresh(tasks[i]) && InstanceOf(tasks[i], classes[i])
      invariant forall i, j :: 0 <= i < j < n ==> tasks[i] != tasks[j]
    {
      var t := new Task.WithType(classes[n].name, classes[n].taskType);
      tasks := tasks + [t];
    }
  }

  /** `taskList.map(task => [task.name, task])` */
  function TaskEntries(tasks: seq<Task>): seq<(string, Task)>
  {
    seq(|tasks|, i requires 0 <= i < |tasks| => (tasks[i].name, tasks[i]))
  }

  function TaskNames(tasks: seq<Task>): seq<string>
  {
    seq(|tasks|, i requires 0 <= i < |tasks| => tasks[i].name)
  }

  /** `Object.fromEntries(taskList.map(task => [task.name, task]))` */
  function TaskMap(tasks: seq<Task>): (r: Registry<Task>)
    ensures Valid(r)
  {
    FromEntries(TaskEntries(tasks))
  }

  /** `createTasks(Tasks)`: instantiates the classes and builds the name-keyed map. */
  method CreateTasks(classes: seq<TaskClass>) returns (registry: Registry<Task>, ghost tasks: seq<Task>)
    ensures |tasks| == |classes|
    ensures forall i :: 0 <= i < |tasks| ==> fresh(tasks[i]) && InstanceOf(tasks[i], classes[i])
    ensures forall i, j :: 0 <= i < j < |tasks| ==> tasks[i] != tasks[j]
    ensures registry == TaskMap(tasks)
  {
    var taskList := InstantiateAll(classes);
    tasks := taskList;
    registry := TaskMap(taskList);
  }

  /** The keys are the instances' names in input order, each at its first occurrence,
      and a name has an entry exactly when some instance carries it. */
  lemma TaskMapKeys(tasks: seq<Task>)
    ensures TaskMap(tasks).keys == FirstOccurrences(TaskNames(tasks))
    ensures forall k :: k in TaskMap(tasks).entries <==> k in TaskNames(tasks)
  {
    FromEntriesKeys(TaskEntries(tasks));
    assert Names(TaskEntries(tasks)) == TaskNames(tasks);
  }

  /** With distinct names: the keys are exactly the names in input order, there is one
      entry per instance, and each name maps to its own instance. */
  lemma TaskMapOfDistinct(tasks: seq<Task>)
    requires Distinct(TaskNames(tasks))
    ensures TaskMap(tasks).keys == TaskNames(tasks)
    ensures |TaskMap(tasks).entries| == |tasks|
    ensures forall i :: 0 <= i < |tasks| ==>
      tasks[i].name in TaskMap(tasks).entries && TaskMap(tasks).entries[tasks[i].name] == tasks[i]
    ensures Values(TaskMap(tasks)) == tasks
  {
    var pairs := TaskEntries(tasks);
    assert Names(pairs) == TaskNames(tasks);
    FromEntriesOfDistinct(pairs);
    assert forall i :: 0 <= i < |tasks| ==> pairs[i] == (tasks[i].name, tasks[i]);
    assert Values(TaskMap(tasks)) == tasks by {
      FromEntriesOfDistinctValues(pairs);
    }
    forall i | 0 <= i < |tasks|
      ensures tasks[i].name in TaskMap(tasks).entries && TaskMap(tasks).entries[tasks[i].name] == tasks[i]
    {
      DistinctValueStored(pairs, i);
    }
  }

  /** No classes, no entries. */
  lemma TaskMapEmpty()
    ensures TaskMap([]) == Registry([], map[])
  {
  }

  /** If two instances share a name, the later one is stored under it. */
  lemma TaskMapLastWins(tasks: seq<Task>, i: nat)
    requires i < |tasks|
    requires forall j :: i < j < |tasks| ==> tasks[j].name != tasks[i].name
    ensures tasks[i].name in TaskMap(tasks).entries
    ensures TaskMap(tasks).entries[tasks[i].name] == tasks[i]
  {
    FromEntriesLastWins(TaskEntries(tasks), i);
  }

  /** In a registry with distinct names, a predicate that singles out one instance
      (by its name, or by any other property only it has) finds that very instance,
      in both copies of `findTask`. */
  lemma FindUniqueMatch(tasks: seq<Task>, i: nat, matches: Task -> bool)
    requires i < |tasks| && Distinct(TaskNames(tasks))
    requires matches(tasks[i])
    requires forall j :: 0 <= j < |tasks| && j != i ==> !matches(tasks[j])
    ensures FindTask(TaskMap(tasks), matches) == Success(tasks[i])
    ensures FindTaskOrUndefined(TaskMap(tasks), matches) == Some(tasks[i])
  {
    var r := TaskMap(tasks);
    TaskMapOfDistinct(tasks);
    var found := FindTask(r, matches);
    assert found.Success? by {
      assert matches(r.entries[tasks[i].name]);
    }
    var k :| 0 <= k < |r.keys| && r.entries[r.keys[k]] == found.value &&
      forall j :: 0 <= j < k ==> !matches(r.entries[r.keys[j]]);
    assert r.entries[r.keys[k]] == tasks[k];
  }

  /** The lookup by name of the tests. */
  lemma FindByName(tasks: seq<Task>, i: nat)
    requires i < |tasks| && Distinct(TaskNames(tasks))
    ensures FindTask(TaskMap(tasks), (t: Task) => t.name == tasks[i].name) == Success(tasks[i])
  {
    var names := TaskNames(tasks);
    forall j | 0 <= j < |tasks| && j != i
      ensures tasks[j].name != tasks[i].name
    {
      assert names[j] == tasks[j].name && names[i] == tasks[i].name;
    }
    FindUniqueMatch(tasks, i, (t: Task) => t.name == tasks[i].name);
  }

  /** Instances are distinct objects: updating one task's configuration leaves every
      other instance's configuration empty. */
  method UpdateOneOfMany(classes: seq<TaskClass>, i: nat, update: Config) returns (tasks: seq<Task>)
    requires i < |classes|
    ensures |tasks| == |classes|
    ensures tasks[i].config == update
    ensures forall j :: 0 <= j < |tasks| && j != i ==> tasks[j].config == EmptyConfig
  {
    tasks := InstantiateAll(classes);
    MergeIdentity(update);
    tasks[i].UpdateConfig(update);
  }
}
