/** The parallel runner behind `Chain.prototype.parallel`: every task is started on
    a deferred timer, each successful callback stores its result under the task's
    key and bumps a counter, the step completes with `(null, results)` once the
    counter reaches the number of keys, and any failing callback completes it with
    the error. The timers are collapsed into a completion order (a Schedule). */
module Joining {
  import opened Values
  import opened Callbacks

  /** The state a `parallel` step's callbacks share: the keys, the count of
      successful completions and the result container. */
  class Joiner {
    const keys: seq<Key>
    var count: nat
    var results: Value

    /** `count = 0; results = isArray ? [] : {}; keys = Object.keys(obj)`. */
    constructor (keys: seq<Key>, isArray: bool)
      ensures this.keys == keys && count == 0
      ensures results == if isArray then Arr([]) else Obj([], map[])
    {
      this.keys := keys;
      count := 0;
      results := if isArray then Arr([]) else Obj([], map[]);
    }

    /** One task's callback `_next(err, result)`; `fired` is what the step's own
        continuation is called with, Pending when it is not called. */
    method Complete(key: Key, err: Value, result: Value) returns (fired: Completion)
      modifies this
      ensures Truthy(err) ==> fired == Completed(err, []) && count == old(count) && results == old(results)
      ensures !Truthy(err) ==> count == old(count) + 1 && results == SetProperty(old(results), key, result)
      ensures !Truthy(err) ==> fired == if count == |keys| then Completed(Null, [results]) else Pending
    {
      if Truthy(err) {
        fired := Completed(err, []);
      } else {
        results := SetProperty(results, key, result);
        count := count + 1;
        fired := if count == |keys| then Completed(Null, [results]) else Pending;
      }
    }
  }

  /** The empty result container of the container's shape. */
  function EmptyResults(tasks: Tasks): Value
  {
    if tasks.TaskArray? then Arr([]) else Obj([], map[])
  }

  /** The result each task calls back with, by key. */
  function ResultsOf(tasks: Tasks): Key -> Value
  {
    k => Reply(TaskAt(tasks, k)())
  }

  /** The joiner fed the callbacks of the tasks under `order`, in that order, from
      `count` successes and `results`: what the step's continuation hears first. */
  function JoinFrom(tasks: Tasks, order: seq<Key>, n: nat, count: nat, results: Value): (c: Completion)
    ensures c.Completed? ==> (c.err == Null && |c.vals| == 1) || (Truthy(c.err) && c.vals == [])
    decreases |order|
  {
    if order == [] then Pending
    else
      var c := TaskAt(tasks, order[0])();
      if c.Pending? then JoinFrom(tasks, order[1..], n, count, results)
      else if Truthy(c.err) then Completed(c.err, [])
      else
        var r := SetProperty(results, order[0], Reply(c));
        if count + 1 == n then Completed(Null, [r])
        else JoinFrom(tasks, order[1..], n, count + 1, r)
  }

  /** What a `parallel` step over `tasks` completes with when the tasks call back
      in the order the schedule gives. */
  function JoinRun(tasks: Tasks, sched: Schedule): (c: Completion)
    ensures c.Completed? ==> (c.err == Null && |c.vals| == 1) || (Truthy(c.err) && c.vals == [])
  {
    var keys := TaskKeys(tasks);
    JoinFrom(tasks, Arrivals(sched, keys), |keys|, 0, EmptyResults(tasks))
  }

  /** The body of the `parallel` step: a fresh Joiner receives the task callbacks
      in arrival order until one of them calls the step's continuation. */
  method RunParallel(tasks: Tasks, sched: Schedule) returns (c: Completion)
    ensures c == JoinRun(tasks, sched)
  {
    var keys := TaskKeys(tasks);
    var joiner := new Joiner(keys, tasks.TaskArray?);
    var order := Arrivals(sched, keys);
    var i := 0;
    while i < |order|
      invariant 0 <= i <= |order|
      invariant joiner.keys == keys
      invariant JoinRun(tasks, sched) == JoinFrom(tasks, order[i..], |keys|, joiner.count, joiner.results)
    {
      assert order[i..][0] == order[i] && order[i..][1..] == order[i + 1..];
      var done := TaskAt(tasks, order[i])();
      if done.Completed? {
        var fired := joiner.Complete(order[i], done.err, First(done.vals));
        if fired.Completed? {
          return fired;
        }
      }
      i := i + 1;
    }
    c := Pending;
  }

  /** When every task in `order` succeeds and the last of them brings the count to
      `n`, the step completes with `(null, results)` holding every result. */
  lemma {:induction false} JoinFromSucceeds(tasks: Tasks, order: seq<Key>, n: nat, count: nat, results: Value)
    requires order != [] && count + |order| == n
    requires forall k :: k in order ==> Succeeded(TaskAt(tasks, k)())
    ensures JoinFrom(tasks, order, n, count, results) == Completed(Null, [SetAll(results, order, ResultsOf(tasks))])
    decreases |order|
  {
    var r := SetProperty(results, order[0], ResultsOf(tasks)(order[0]));
    if |order| > 1 {
      assert forall k :: k in order[1..] ==> k in order;
      JoinFromSucceeds(tasks, order[1..], n, count + 1, r);
    }
  }

  /** A failing callback reaches the step's continuation first when no earlier one
      failed: successes before it cannot have completed the count. */
  lemma {:induction false} JoinFromFails(tasks: Tasks, order: seq<Key>, n: nat, count: nat, results: Value, j: nat)
    requires count + |order| <= n && j < |order|
    requires Failed(TaskAt(tasks, order[j])())
    requires forall i :: 0 <= i < j ==> !Failed(TaskAt(tasks, order[i])())
    ensures JoinFrom(tasks, order, n, count, results) == Completed(TaskAt(tasks, order[j])().err, [])
    decreases |order|
  {
    if j > 0 {
      var c := TaskAt(tasks, order[0])();
      assert !Failed(c);
      var r := SetProperty(results, order[0], Reply(c));
      JoinFromFails(tasks, order[1..], n, if c.Pending? then count else count + 1,
        if c.Pending? then results else r, j - 1);
    }
  }

  /** With no failing callback and one task that never calls back, the count never
      reaches `n`: the step never completes. */
  lemma {:induction false} JoinFromStalls(tasks: Tasks, order: seq<Key>, n: nat, count: nat, results: Value, j: nat)
    requires count + |order| <= n && j < |order|
    requires TaskAt(tasks, order[j])().Pending?
    requires forall k :: k in order ==> !Failed(TaskAt(tasks, k)())
    ensures JoinFrom(tasks, order, n, count, results).Pending?
    decreases |order|
  {
    var c := TaskAt(tasks, order[0])();
    if j > 0 {
      assert forall k :: k in order[1..] ==> k in order;
      var r := SetProperty(results, order[0], Reply(c));
      JoinFromStalls(tasks, order[1..], n, if c.Pending? then count else count + 1,
        if c.Pending? then results else r, j - 1);
    }
    else if |order| > 1 {
      assert forall k :: k in order[1..] ==> k in order;
      JoinFromNeverReaches(tasks, order[1..], n, count, results);
    }
  }

  /** Without failures, fewer than `n - count` callbacks cannot fire the step. */
  lemma {:induction false} JoinFromNeverReaches(tasks: Tasks, order: seq<Key>, n: nat, count: nat, results: Value)
    requires count + |order| < n
    requires forall k :: k in order ==> !Failed(TaskAt(tasks, k)())
    ensures JoinFrom(tasks, order, n, count, results).Pending?
    decreases |order|
  {
    if order != [] {
      var c := TaskAt(tasks, order[0])();
      var r := SetProperty(results, order[0], Reply(c));
      assert forall k :: k in order[1..] ==> k in order;
      JoinFromNeverReaches(tasks, order[1..], n, if c.Pending? then count else count + 1,
        if c.Pending? then results else r);
    }
  }

  /** Success for an array of tasks: whatever order the tasks call back in, the
      step completes with `(null, results)` where `results[i]` is task `i`'s result. */
  lemma ParallelArraySucceeds(list: seq<Task>, sched: Schedule)
    requires |list| > 0
    requires forall i :: 0 <= i < |list| ==> Succeeded(list[i]())
    ensures JoinRun(TaskArray(list), sched) == Completed(Null, [Arr(Filled(|list|, ResultsOf(TaskArray(list))))])
  {
    var tasks := TaskArray(list);
    var keys := TaskKeys(tasks);
    var order := Arrivals(sched, keys);
    assert Distinct(keys);
    forall k | k in order ensures Succeeded(TaskAt(tasks, k)()) && k.Index? && k.pos < |list| {
      assert k in keys;
    }
    JoinFromSucceeds(tasks, order, |keys|, 0, Arr([]));
    forall i | 0 <= i < |list| ensures Index(i) in order {
      assert keys[i] == Index(i);
    }
    FillArray(order, |list|, ResultsOf(tasks));
  }

  /** Success for an object of tasks: whatever order the tasks call back in, the
      step completes with `(null, results)` where `results[name]` is the result of
      the task under `name` and the results' keys are the task names, in the order
      the tasks called back. */
  lemma ParallelObjectSucceeds(names: seq<string>, byName: map<string, Task>, sched: Schedule)
    requires |names| > 0 && Distinct(names)
    requires forall s :: s in names ==> s in byName && Succeeded(byName[s]())
    ensures var c := JoinRun(TaskObject(names, byName), sched);
      && c.Completed? && c.err == Null && |c.vals| == 1
      && c.vals[0].Obj?
      && c.vals[0].keys == Names(Arrivals(sched, Keyed(names)))
      && (forall s :: s in c.vals[0].fields <==> s in names)
      && (forall s :: s in names ==> c.vals[0].fields[s] == Reply(byName[s]()))
  {
    var tasks := TaskObject(names, byName);
    var order := Arrivals(sched, Keyed(names));
    assert IsArrangement(order, Keyed(names)) by {
      assert Distinct(Keyed(names));
    }
    ObjectArrivals(names, order);
    var r := SetAll(Obj([], map[]), order, ResultsOf(tasks));
    assert JoinRun(tasks, sched) == Completed(Null, [r]) by {
      forall k | k in order ensures Succeeded(TaskAt(tasks, k)()) {
        assert k.name in names;
      }
      JoinFromSucceeds(tasks, order, |names|, 0, Obj([], map[]));
    }
    SetAllOnObject([], map[], Names(order), ResultsOf(tasks));
    assert r == SetAll(Obj([], map[]), Keyed(Names(order)), ResultsOf(tasks));
    forall s | s in names ensures r.fields[s] == Reply(byName[s]()) {
      assert s in Names(order);
      assert r.fields[s] == ResultsOf(tasks)(Name(s));
      assert TaskAt(tasks, Name(s)) == byName[s];
    }
  }

  /** The arrival order of an object's distinct names lists each name once. */
  lemma ObjectArrivals(names: seq<string>, order: seq<Key>)
    requires Distinct(names) && IsArrangement(order, Keyed(names))
    ensures forall k :: k in order ==> k.Name? && k.name in names
    ensures Keyed(Names(order)) == order
    ensures Distinct(Names(order))
    ensures forall s :: s in Names(order) <==> s in names
  {
    var keys := Keyed(names);
    forall k | k in order ensures k.Name? && k.name in names {
      var i :| 0 <= i < |keys| && keys[i] == k;
    }
    var arrived := Names(order);
    KeyedNames(order);
    forall i, j | 0 <= i < j < |arrived| ensures arrived[i] != arrived[j] {
      assert order[i] != order[j];
    }
    forall s | s in names ensures s in arrived {
      var i :| 0 <= i < |names| && names[i] == s;
      assert keys[i] in order;
      var j :| 0 <= j < |order| && order[j] == keys[i];
      assert arrived[j] == s;
    }
  }

  /** The first failure in arrival order decides: the step's continuation hears that
      task's error, whatever the other tasks do. */
  lemma ParallelFirstFailure(tasks: Tasks, sched: Schedule, j: nat)
    requires WellFormedTasks(tasks)
    requires j < |Arrivals(sched, TaskKeys(tasks))|
    requires Failed(TaskAt(tasks, Arrivals(sched, TaskKeys(tasks))[j])())
    requires forall i :: 0 <= i < j ==> !Failed(TaskAt(tasks, Arrivals(sched, TaskKeys(tasks))[i])())
    ensures JoinRun(tasks, sched) == Completed(TaskAt(tasks, Arrivals(sched, TaskKeys(tasks))[j])().err, [])
  {
    var keys := TaskKeys(tasks);
    TaskKeysDistinct(tasks);
    JoinFromFails(tasks, Arrivals(sched, keys), |keys|, 0, EmptyResults(tasks), j);
  }

  /** Once any task fails (each calling back once), success never fires: the step
      completes with a truthy error, which is some failing task's error. */
  lemma ParallelNeverSucceedsAfterFailure(tasks: Tasks, sched: Schedule, k: Key)
    requires WellFormedTasks(tasks)
    requires k in TaskKeys(tasks) && Failed(TaskAt(tasks, k)())
    ensures Failed(JoinRun(tasks, sched))
    ensures exists f :: f in TaskKeys(tasks) && Failed(TaskAt(tasks, f)()) && JoinRun(tasks, sched).err == TaskAt(tasks, f)().err
  {
    var order := Arrivals(sched, TaskKeys(tasks));
    TaskKeysDistinct(tasks);
    var j := FirstFailure(tasks, order, k);
    ParallelFirstFailure(tasks, sched, j);
    assert order[j] in TaskKeys(tasks);
  }

  /** The position of the first failing task in `order`, given that `k` fails. */
  lemma FirstFailure(tasks: Tasks, order: seq<Key>, k: Key) returns (j: nat)
    requires k in order && Failed(TaskAt(tasks, k)())
    ensures j < |order| && Failed(TaskAt(tasks, order[j])())
    ensures forall i :: 0 <= i < j ==> !Failed(TaskAt(tasks, order[i])())
  {
    j := 0;
    while !Failed(TaskAt(tasks, order[j])())
      invariant j < |order| && k in order[j..]
      invariant forall i :: 0 <= i < j ==> !Failed(TaskAt(tasks, order[i])())
      decreases |order| - j
    {
      j := j + 1;
    }
  }

  /** With no failing task, a task that never calls back stalls the step; and a
      `parallel` over no tasks at all never completes. */
  lemma ParallelStalls(tasks: Tasks, sched: Schedule)
    requires WellFormedTasks(tasks)
    requires forall k :: k in TaskKeys(tasks) ==> !Failed(TaskAt(tasks, k)())
    requires TaskKeys(tasks) == [] || exists k :: k in TaskKeys(tasks) && TaskAt(tasks, k)().Pending?
    ensures JoinRun(tasks, sched) == Pending
  {
    var keys := TaskKeys(tasks);
    var order := Arrivals(sched, keys);
    TaskKeysDistinct(tasks);
    if keys != [] {
      var k :| k in keys && TaskAt(tasks, k)().Pending?;
      var j :| 0 <= j < |order| && order[j] == k;
      JoinFromStalls(tasks, order, |keys|, 0, EmptyResults(tasks), j);
    }
  }
}
