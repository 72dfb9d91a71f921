/** Continuations, and the functions the engine is handed: steps' completions,
    parallel tasks and the per-item workers of the iterators. */
module Callbacks {
  import opened Values

  /** The arguments a continuation `(err, ...vals)` is called with, or Pending when
      it is never called (the callee hangs, or the host throws before calling it). */
  datatype Completion = Completed(err: Value, vals: seq<Value>) | Pending

  /** Called back without an error. */
  predicate Succeeded(c: Completion)
  {
    c.Completed? && !Truthy(c.err)
  }

  /** Called back with a truthy error. */
  predicate Failed(c: Completion)
  {
    c.Completed? && Truthy(c.err)
  }

  /** What a callback declared `function(err, result)` holds as `result`. */
  function Reply(c: Completion): Value
  {
    if c.Completed? then First(c.vals) else Undefined
  }

  /** A task handed to `parallel`: it is called with its continuation only. */
  type Task = () -> Completion

  /** A task container: an array of tasks, or a plain object of named tasks given
      as its key order and its properties. */
  datatype Tasks =
    | TaskArray(list: seq<Task>)
    | TaskObject(names: seq<string>, byName: map<string, Task>)

  /** The worker of `forEach` and `forEachParallel`: called as `fn(val, cb)`. */
  type Worker = Value -> Completion

  /** The worker of `each` and `eachParallel`: called as `fn(key, val, cb)`. */
  type KeyedWorker = (Key, Value) -> Completion

  /** The host timer's decision: the order in which the deferred tasks under the
      given keys come to call back. */
  type Schedule = seq<Key> -> seq<Key>

  /** `Object.keys` of a task container. */
  function TaskKeys(tasks: Tasks): (keys: seq<Key>)
    ensures tasks.TaskArray? ==> |keys| == |tasks.list| && forall i :: 0 <= i < |keys| ==> keys[i] == Index(i)
    ensures tasks.TaskObject? ==> keys == Keyed(tasks.names)
  {
    match tasks
    case TaskArray(list) => seq(|list|, i requires 0 <= i < |list| => Index(i))
    case TaskObject(names, _) => Keyed(names)
  }

  /** `obj[key]` on a task container. A missing task never calls back: calling
      `undefined` throws inside the timer. */
  function TaskAt(tasks: Tasks, key: Key): Task
  {
    match (tasks, key)
    case (TaskArray(list), Index(i)) => if i < |list| then list[i] else () => Pending
    case (TaskObject(_, byName), Name(s)) => if s in byName then byName[s] else () => Pending
    case _ => () => Pending
  }

  /** Every key of a container whose object keys are listed once each. */
  predicate WellFormedTasks(tasks: Tasks)
  {
    tasks.TaskObject? ==> Distinct(tasks.names)
  }

  /** `order` lists each of `keys` exactly once. */
  predicate IsArrangement(order: seq<Key>, keys: seq<Key>)
  {
    && |order| == |keys|
    && Distinct(order)
    && (forall k :: k in order ==> k in keys)
    && (forall k :: k in keys ==> k in order)
  }

  /** The order in which the tasks call back: what the schedule says when it lists
      each key once, and the keys' own order otherwise. */
  function Arrivals(sched: Schedule, keys: seq<Key>): (order: seq<Key>)
    ensures Distinct(keys) ==> IsArrangement(order, keys)
    ensures forall k :: k in order <==> k in keys
  {
    var proposed := sched(keys);
    if IsArrangement(proposed, keys) then proposed else keys
  }

  /** `Object.keys` of a well-formed task container lists each key once. */
  lemma TaskKeysDistinct(tasks: Tasks)
    requires WellFormedTasks(tasks)
    ensures Distinct(TaskKeys(tasks))
  {
  }
}
