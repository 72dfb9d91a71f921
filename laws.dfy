/** What running a chain guarantees, for every stack of steps: how values are passed
    from step to step, when the final callback is called and with what, how chains
    compose, and how the iterators and the parallel runner relate to each other. */
module ChainLaws {
  import opened Values
  import opened Callbacks
  import opened Joining
  import opened Iteration
  import opened ChainTiny

  /** The first step is called with the incoming values, and every later step that
      runs is called with exactly the values its predecessor passed on after a
      falsy error. */
  lemma {:induction false} DrainForwards(stack: seq<Step>, args: seq<Value>, sched: Schedule)
    ensures var o := Drain(stack, args, sched);
      && (stack != [] ==> |o.inputs| >= 1 && o.inputs[0] == args)
      && forall i :: 0 <= i < |o.inputs| - 1 ==>
           && Succeeded(StepResult(stack[i], o.inputs[i], sched))
           && StepResult(stack[i], o.inputs[i], sched).vals == o.inputs[i + 1]
    decreases |stack|
  {
    if stack != [] {
      var c := StepResult(stack[0], args, sched);
      if Succeeded(c) {
        DrainForwards(stack[1..], c.vals, sched);
        var o' := Drain(stack[1..], c.vals, sched);
        var o := Drain(stack, args, sched);
        assert o.inputs == [args] + o'.inputs;
        forall i | 0 <= i < |o.inputs| - 1
          ensures Succeeded(StepResult(stack[i], o.inputs[i], sched))
          ensures StepResult(stack[i], o.inputs[i], sched).vals == o.inputs[i + 1]
        {
          if i > 0 {
            assert stack[i] == stack[1..][i - 1];
          }
        }
      }
    }
  }

  /** How a run ends. A stall is the last step that ran never calling back; an
      error is the last step that ran calling back with exactly that truthy error
      and those values; otherwise every step ran, the error slot is null and the
      final callback receives the last step's values (the incoming ones when the
      stack is empty). */
  lemma {:induction false} DrainEnds(stack: seq<Step>, args: seq<Value>, sched: Schedule)
    ensures var o := Drain(stack, args, sched); var n := |o.inputs|;
      && (o.result.Pending? ==> n >= 1 && StepResult(stack[n - 1], o.inputs[n - 1], sched).Pending?)
      && (Failed(o.result) ==> n >= 1 && StepResult(stack[n - 1], o.inputs[n - 1], sched) == o.result)
      && (!o.result.Pending? && !Failed(o.result) ==>
            && o.result.err == Null && n == |stack|
            && (n == 0 ==> o.result.vals == args)
            && (n > 0 ==> Succeeded(StepResult(stack[n - 1], o.inputs[n - 1], sched))
                          && StepResult(stack[n - 1], o.inputs[n - 1], sched).vals == o.result.vals))
    decreases |stack|
  {
    if stack != [] {
      var c := StepResult(stack[0], args, sched);
      if Succeeded(c) {
        DrainEnds(stack[1..], c.vals, sched);
        DrainForwards(stack[1..], c.vals, sched);
        var o' := Drain(stack[1..], c.vals, sched);
        var o := Drain(stack, args, sched);
        assert o.inputs == [args] + o'.inputs;
        var n := |o.inputs|;
        if n > 1 {
          assert stack[n - 1] == stack[1..][n - 2];
          assert o.inputs[n - 1] == o'.inputs[n - 2];
        }
      }
    }
  }

  /** A stack in which every step passes values on without error runs to the end. */
  lemma AllSucceedRunsToEnd(stack: seq<Step>, args: seq<Value>, sched: Schedule)
    requires forall step :: step in stack ==> forall a :: Succeeded(StepResult(step, a, sched))
    ensures var o := Drain(stack, args, sched);
      && |o.inputs| == |stack|
      && o.result.Completed? && o.result.err == Null
  {
    var o := Drain(stack, args, sched);
    DrainEnds(stack, args, sched);
    var n := |o.inputs|;
    if n > 0 {
      assert stack[n - 1] in stack;
    }
  }

  /** Running `s1 + s2` is running `s1` and, when it finishes without error,
      running `s2` on the values it passed on: pushing more steps never changes
      what the earlier steps receive. */
  lemma {:induction false} DrainConcat(s1: seq<Step>, s2: seq<Step>, args: seq<Value>, sched: Schedule)
    ensures var o1 := Drain(s1, args, sched);
      Drain(s1 + s2, args, sched) ==
        if o1.result.Completed? && !Truthy(o1.result.err) then
          var o2 := Drain(s2, o1.result.vals, sched);
          Outcome(o1.inputs + o2.inputs, o2.result)
        else o1
    decreases |s1|
  {
    if s1 == [] {
      assert s1 + s2 == s2;
    } else {
      var c := StepResult(s1[0], args, sched);
      if Succeeded(c) {
        DrainConcat(s1[1..], s2, c.vals, sched);
      }
      ComposesStep(s1, s2, args, sched);
    }
  }

  /** The law of `DrainConcat` for one pair of stacks and incoming values. */
  ghost predicate Composes(s1: seq<Step>, s2: seq<Step>, args: seq<Value>, sched: Schedule)
  {
    var o1 := Drain(s1, args, sched);
    Drain(s1 + s2, args, sched) ==
      if o1.result.Completed? && !Truthy(o1.result.err) then
        var o2 := Drain(s2, o1.result.vals, sched);
        Outcome(o1.inputs + o2.inputs, o2.result)
      else o1
  }

  /** The inductive step of `DrainConcat`: the law holds for a non-empty `s1` when
      it holds for the rest of `s1` after the first step passes its values on. */
  lemma {:induction false} ComposesStep(s1: seq<Step>, s2: seq<Step>, args: seq<Value>, sched: Schedule)
    requires s1 != []
    requires var c := StepResult(s1[0], args, sched); Succeeded(c) ==> Composes(s1[1..], s2, c.vals, sched)
    ensures Composes(s1, s2, args, sched)
  {
    assert (s1 + s2)[0] == s1[0] && (s1 + s2)[1..] == s1[1..] + s2;
    var c := StepResult(s1[0], args, sched);
    if Succeeded(c) {
      var o1' := Drain(s1[1..], c.vals, sched);
      if o1'.result.Completed? && !Truthy(o1'.result.err) {
        var o2 := Drain(s2, o1'.result.vals, sched);
        assert [args] + (o1'.inputs + o2.inputs) == [args] + o1'.inputs + o2.inputs;
      }
    }
  }

  /** `wait(time)` changes nothing about a run but when it happens: the final
      callback receives the same error and values with or without it. */
  lemma WaitIsTransparent(s1: seq<Step>, s2: seq<Step>, time: int, args: seq<Value>, sched: Schedule)
    ensures Drain(s1 + [WaitStep(time)] + s2, args, sched).result == Drain(s1 + s2, args, sched).result
  {
    DrainConcat(s1, [WaitStep(time)] + s2, args, sched);
    DrainConcat(s1, s2, args, sched);
    assert s1 + [WaitStep(time)] + s2 == s1 + ([WaitStep(time)] + s2);
    var o1 := Drain(s1, args, sched);
    if o1.result.Completed? && !Truthy(o1.result.err) {
      var vs := o1.result.vals;
      assert ([WaitStep(time)] + s2)[1..] == s2;
      DrainEnds(s1, args, sched);
    }
  }

  /** A step that calls back only with a null error or a truthy one, run as a
      whole chain, delivers just what it called back with. */
  lemma DrainSingle(step: Step, args: seq<Value>, sched: Schedule)
    requires var c := StepResult(step, args, sched); c.Completed? ==> c.err == Null || Truthy(c.err)
    ensures Drain([step], args, sched).result == StepResult(step, args, sched)
  {
    assert [step][1..] == [];
  }

  /** `Chain.forEach(ary, fn).end(cb)`: the seed passes `ary` on and the iterator
      step runs over it; anything but an array stalls the chain. */
  lemma StaticForEachRuns(ary: Value, w: Worker, sched: Schedule)
    ensures Drain([Emit([ary]), ForEachStep(w)], [], sched).result ==
      if ary.Arr? then Iterate(Keyless(w), ary) else Pending
  {
    assert [Emit([ary]), ForEachStep(w)][1..] == [ForEachStep(w)];
    DrainSingle(ForEachStep(w), [ary], sched);
  }

  /** `Chain.forEachParallel(ary, fn).end(cb)`: the parallel runner over the
      array's item tasks decides; anything but an array stalls the chain. */
  lemma StaticForEachParallelRuns(ary: Value, w: Worker, sched: Schedule)
    ensures Drain([Emit([ary]), ForEachParallelStep(w)], [], sched).result ==
      if ary.Arr? then JoinRun(BuildTasks(Keyless(w), ary), sched) else Pending
  {
    assert [Emit([ary]), ForEachParallelStep(w)][1..] == [ForEachParallelStep(w)];
    DrainSingle(ForEachParallelStep(w), [ary], sched);
  }

  /** `Chain.each(obj, fn).end(cb)`: the iterator step runs over `obj`; null and
      undefined stall the chain. */
  lemma StaticEachRuns(obj: Value, kw: KeyedWorker, sched: Schedule)
    ensures Drain([Emit([obj]), EachStep(kw)], [], sched).result ==
      if !obj.Undefined? && !obj.Null? then Iterate(kw, obj) else Pending
  {
    assert [Emit([obj]), EachStep(kw)][1..] == [EachStep(kw)];
    DrainSingle(EachStep(kw), [obj], sched);
  }

  /** `Chain.eachParallel(obj, fn).end(cb)`: the parallel runner over `obj`'s
      item tasks decides; null and undefined stall the chain. */
  lemma StaticEachParallelRuns(obj: Value, kw: KeyedWorker, sched: Schedule)
    ensures Drain([Emit([obj]), EachParallelStep(kw)], [], sched).result ==
      if !obj.Undefined? && !obj.Null? then JoinRun(BuildTasks(kw, obj), sched) else Pending
  {
    assert [Emit([obj]), EachParallelStep(kw)][1..] == [EachParallelStep(kw)];
    DrainSingle(EachParallelStep(kw), [obj], sched);
  }

  /** `Chain.parallel(tasks).end(cb)`: the parallel runner decides, whatever the
      tasks. */
  lemma StaticParallelRuns(tasks: Tasks, sched: Schedule)
    ensures Drain([ParallelStep(tasks)], [], sched).result == JoinRun(tasks, sched)
  {
    DrainSingle(ParallelStep(tasks), [], sched);
  }

  /** `Chain.wait(time).end(cb)`: both steps run and `cb` is called with `null`
      alone. */
  lemma StaticWaitRuns(time: int, sched: Schedule)
    ensures Drain([Emit([]), WaitStep(time)], [], sched) == Outcome([[], []], Completed(Null, []))
  {
    assert StepResult(Emit([]), [], sched) == Completed(Null, []);
    assert [Emit([]), WaitStep(time)][1..] == [WaitStep(time)];
    assert [WaitStep(time)][1..] == [];
    assert Drain([WaitStep(time)], [], sched) == Outcome([[]], Completed(Null, []));
  }

  /** The step of the nested chain `forEach` and `each` build for one entry: it is
      called with no values and passes on only the worker's error. */
  function ItemStep(w: KeyedWorker, e: Entry): Step
  {
    Fn(args => if args != [] then Pending else
      match w(e.key, e.val)
      case Pending => Pending
      case Completed(err, _) => Completed(err, []))
  }

  /** The nested chain of item steps, one per entry, in order. */
  function ItemSteps(w: KeyedWorker, es: seq<Entry>): (stack: seq<Step>)
    ensures |stack| == |es| && forall i :: 0 <= i < |es| ==> stack[i] == ItemStep(w, es[i])
  {
    seq(|es|, i requires 0 <= i < |es| => ItemStep(w, es[i]))
  }

  /** How many workers a sequential iteration over `es` calls: every one up to and
      including the first that fails or never calls back, or all of them. */
  function Visited(w: KeyedWorker, es: seq<Entry>): (n: nat)
    ensures n <= |es|
    decreases |es|
  {
    if es == [] then 0
    else
      match w(es[0].key, es[0].val)
      case Pending => 1
      case Completed(e, _) => if Truthy(e) then 1 else 1 + Visited(w, es[1..])
  }

  /** The loop that runs an iterator step agrees with the nested chain of item
      steps the source ends: it stalls exactly when the chain does, it reports the
      error that chain's final callback receives, and the chain runs the workers
      of as many items as the loop visits before it stops. */
  lemma {:induction false} IterationIsNestedChain(w: KeyedWorker, es: seq<Entry>, isArray: bool, results: Value, sched: Schedule)
    ensures var c := IterateFrom(w, es, isArray, results); var o := Drain(ItemSteps(w, es), [], sched);
      && (c.Pending? <==> o.result.Pending?)
      && (c.Completed? ==> c.err == o.result.err)
      && (forall i :: 0 <= i < |o.inputs| ==> o.inputs[i] == [])
      && |o.inputs| == Visited(w, es)
    decreases |es|
  {
    var stack := ItemSteps(w, es);
    if es != [] {
      assert stack[1..] == ItemSteps(w, es[1..]);
      var d := w(es[0].key, es[0].val);
      if d.Completed? && !Truthy(d.err) {
        IterationIsNestedChain(w, es[1..], isArray, Store(results, isArray, es[0].key, First(d.vals)), sched);
      }
    }
  }

  /** On a non-empty array whose workers all succeed, `forEach` and
      `forEachParallel` complete alike: `(null, results)` with the results in item
      order, whatever order the parallel workers finish in. */
  lemma ForEachAgreesWithParallel(w: Worker, items: seq<Value>, sched: Schedule)
    requires items != []
    requires forall i :: 0 <= i < |items| ==> Succeeded(w(items[i]))
    ensures StepResult(ForEachStep(w), [Arr(items)], sched) == Completed(Null, [Arr(Replies(Keyless(w), Entries(Arr(items))))])
    ensures StepResult(ForEachParallelStep(w), [Arr(items)], sched) == Completed(Null, [Arr(Replies(Keyless(w), Entries(Arr(items))))])
  {
    var kw := Keyless(w);
    var tasks := BuildTasks(kw, Arr(items));
    assert StepResult(ForEachStep(w), [Arr(items)], sched) == Iterate(kw, Arr(items));
    IterateArraySucceeds(kw, items);
    assert StepResult(ForEachParallelStep(w), [Arr(items)], sched) == JoinRun(tasks, sched);
    forall i | 0 <= i < |tasks.list| ensures Succeeded(tasks.list[i]()) {
      assert tasks.list[i]() == Relay(w(items[i]));
    }
    ParallelArraySucceeds(tasks.list, sched);
    ItemResults(kw, items);
  }

  /** The results the joiner collects from the item tasks of `forEachParallel` or
      `eachParallel` over an array, in position order, are the workers' results in
      item order. */
  lemma ItemResults(kw: KeyedWorker, items: seq<Value>)
    ensures var tasks := BuildTasks(kw, Arr(items));
      Filled(|items|, ResultsOf(tasks)) == Replies(kw, Entries(Arr(items)))
  {
    var tasks := BuildTasks(kw, Arr(items));
    var es := Entries(Arr(items));
    RepliesAt(kw, es);
    forall i | 0 <= i < |items| ensures ResultsOf(tasks)(Index(i)) == Reply(kw(es[i].key, es[i].val)) {
      var c := kw(Index(i), items[i]);
      assert TaskAt(tasks, Index(i))() == Relay(c);
      if c.Completed? {
        assert Relay(c) == Completed(c.err, [Reply(c)]);
      }
    }
  }

  /** On an empty collection the two kinds of iterator part ways: the sequential
      step completes at once with an empty container, while the parallel step
      starts no task and so never calls back. */
  lemma EmptyCollectionDiffers(w: Worker, kw: KeyedWorker, sched: Schedule)
    ensures StepResult(ForEachStep(w), [Arr([])], sched) == Completed(Null, [Arr([])])
    ensures StepResult(ForEachParallelStep(w), [Arr([])], sched) == Pending
    ensures StepResult(EachStep(kw), [Obj([], map[])], sched) == Completed(Null, [Obj([], map[])])
    ensures StepResult(EachParallelStep(kw), [Obj([], map[])], sched) == Pending
  {
    ParallelStalls(BuildTasks(Keyless(w), Arr([])), sched);
    ParallelStalls(BuildTasks(kw, Obj([], map[])), sched);
  }

  /** The task object `eachParallel` builds over a plain object: the object's keys,
      and under each a task relaying the worker called with that key and value. */
  lemma ObjectTasks(kw: KeyedWorker, coll: Value)
    requires WellFormedObject(coll)
    ensures var tasks := BuildTasks(kw, coll);
      && tasks == TaskObject(coll.keys, tasks.byName)
      && forall s :: s in coll.keys ==> s in tasks.byName && tasks.byName[s]() == Relay(kw(Name(s), coll.fields[s]))
  {
  }

  /** On a plain object whose workers all succeed, `each` and `eachParallel` both
      complete with `(null, results)` holding the same result under each key;
      `each` keeps the object's key order while `eachParallel` lists the same keys,
      each once, in the order the workers finished. */
  lemma EachAgreesWithParallel(kw: KeyedWorker, coll: Value, sched: Schedule)
    requires WellFormedObject(coll) && coll.keys != []
    requires forall s :: s in coll.keys ==> Succeeded(kw(Name(s), coll.fields[s]))
    ensures var seqc := StepResult(EachStep(kw), [coll], sched);
      var parc := StepResult(EachParallelStep(kw), [coll], sched);
      && seqc.Completed? && seqc.err == Null && |seqc.vals| == 1 && seqc.vals[0].Obj?
      && parc.Completed? && parc.err == Null && |parc.vals| == 1 && parc.vals[0].Obj?
      && seqc.vals[0].keys == coll.keys
      && parc.vals[0].fields == seqc.vals[0].fields
      && Distinct(parc.vals[0].keys)
      && (forall s :: s in parc.vals[0].keys <==> s in coll.keys)
  {
    assert StepResult(EachStep(kw), [coll], sched) == Iterate(kw, coll);
    IterateObjectSucceeds(kw, coll);
    EachParallelSucceeds(kw, coll, sched);
  }

  /** `eachParallel` over a plain object whose workers all succeed completes with
      `(null, results)`: under each key the result of the worker called with that
      key and its value, the keys listed once each, in the order the workers
      finished. */
  lemma EachParallelSucceeds(kw: KeyedWorker, coll: Value, sched: Schedule)
    requires WellFormedObject(coll) && coll.keys != []
    requires forall s :: s in coll.keys ==> Succeeded(kw(Name(s), coll.fields[s]))
    ensures var parc := StepResult(EachParallelStep(kw), [coll], sched);
      && parc.Completed? && parc.err == Null && |parc.vals| == 1 && parc.vals[0].Obj?
      && parc.vals[0].fields == (map s | s in coll.keys :: Reply(kw(Name(s), coll.fields[s])))
      && Distinct(parc.vals[0].keys)
      && (forall s :: s in parc.vals[0].keys <==> s in coll.keys)
  {
    var tasks := BuildTasks(kw, coll);
    EachParallelOnObject(kw, coll, sched);
    ObjectTasks(kw, coll);
    RelayedTasksSucceed(kw, coll, tasks.byName, sched);
  }

  /** The `eachParallel` step handed anything but `null` or `undefined` runs the
      parallel runner over the tasks it builds. */
  lemma EachParallelOnObject(kw: KeyedWorker, coll: Value, sched: Schedule)
    requires !coll.Undefined? && !coll.Null?
    ensures StepResult(EachParallelStep(kw), [coll], sched) == JoinRun(BuildTasks(kw, coll), sched)
  {
    assert OneValue([coll]) && [coll][0] == coll;
  }

  /** On a non-empty array whose workers all succeed, `each` and `eachParallel`
      complete alike: `(null, results)` with `results[i]` the result of the worker
      called with `i` and item `i`, whatever order the parallel workers finish in. */
  lemma EachParallelArraySucceeds(kw: KeyedWorker, items: seq<Value>, sched: Schedule)
    requires items != []
    requires forall i :: 0 <= i < |items| ==> Succeeded(kw(Index(i), items[i]))
    ensures StepResult(EachStep(kw), [Arr(items)], sched) == Completed(Null, [Arr(Replies(kw, Entries(Arr(items))))])
    ensures StepResult(EachParallelStep(kw), [Arr(items)], sched) == Completed(Null, [Arr(Replies(kw, Entries(Arr(items))))])
  {
    var tasks := BuildTasks(kw, Arr(items));
    assert StepResult(EachStep(kw), [Arr(items)], sched) == Iterate(kw, Arr(items));
    IterateArraySucceeds(kw, items);
    EachParallelOnObject(kw, Arr(items), sched);
    forall i | 0 <= i < |tasks.list| ensures Succeeded(tasks.list[i]()) {
      assert tasks.list[i]() == Relay(kw(Index(i), items[i]));
    }
    ParallelArraySucceeds(tasks.list, sched);
    ItemResults(kw, items);
  }

  /** The parallel runner over tasks relaying succeeding workers, one under each
      key of a plain object, completes with the workers' results under those keys. */
  lemma RelayedTasksSucceed(kw: KeyedWorker, coll: Value, byName: map<string, Task>, sched: Schedule)
    requires WellFormedObject(coll) && coll.keys != []
    requires forall s :: s in coll.keys ==> Succeeded(kw(Name(s), coll.fields[s]))
    requires forall s :: s in coll.keys ==> s in byName && byName[s]() == Relay(kw(Name(s), coll.fields[s]))
    ensures var c := JoinRun(TaskObject(coll.keys, byName), sched);
      && c.Completed? && c.err == Null && |c.vals| == 1 && c.vals[0].Obj?
      && c.vals[0].fields == (map s | s in coll.keys :: Reply(kw(Name(s), coll.fields[s])))
      && Distinct(c.vals[0].keys)
      && (forall s :: s in c.vals[0].keys <==> s in coll.keys)
  {
    forall s | s in coll.keys ensures s in byName && Succeeded(byName[s]()) {
      assert byName[s]() == Relay(kw(Name(s), coll.fields[s]));
    }
    ParallelObjectSucceeds(coll.keys, byName, sched);
    var order := Arrivals(sched, Keyed(coll.keys));
    assert IsArrangement(order, Keyed(coll.keys)) by {
      assert Distinct(Keyed(coll.keys));
    }
    ObjectArrivals(coll.keys, order);
    RelayedFields(kw, coll, byName, JoinRun(TaskObject(coll.keys, byName), sched).vals[0].fields);
  }

  /** Results gathered from the relaying tasks of an object, one under each key,
      are the worker's results under those keys. */
  lemma RelayedFields(kw: KeyedWorker, coll: Value, byName: map<string, Task>, fields: map<string, Value>)
    requires WellFormedObject(coll)
    requires forall s :: s in coll.keys ==> s in byName && byName[s]() == Relay(kw(Name(s), coll.fields[s]))
    requires forall s :: s in fields <==> s in coll.keys
    requires forall s :: s in coll.keys ==> fields[s] == Reply(byName[s]())
    ensures fields == map s | s in coll.keys :: Reply(kw(Name(s), coll.fields[s]))
  {
    forall s | s in coll.keys ensures fields[s] == Reply(kw(Name(s), coll.fields[s])) {
      var c := kw(Name(s), coll.fields[s]);
      if c.Completed? {
        assert Relay(c) == Completed(c.err, [Reply(c)]);
      }
    }
  }

  /** When some item's worker fails, `forEachParallel` calls back with the error
      of a failing item, never with results (which failing item's error is decided
      by the order they finish in, as `ParallelFirstFailure` states). */
  lemma ForEachParallelFails(w: Worker, items: seq<Value>, sched: Schedule, j: nat)
    requires j < |items| && Failed(w(items[j]))
    ensures var c := StepResult(ForEachParallelStep(w), [Arr(items)], sched);
      && Failed(c) && c.vals == []
      && exists i :: 0 <= i < |items| && Failed(w(items[i])) && c.err == w(items[i]).err
  {
    var tasks := BuildTasks(Keyless(w), Arr(items));
    assert TaskAt(tasks, Index(j))() == Relay(w(items[j]));
    assert TaskKeys(tasks)[j] == Index(j);
    ParallelNeverSucceedsAfterFailure(tasks, sched, Index(j));
    var f :| f in TaskKeys(tasks) && Failed(TaskAt(tasks, f)()) && JoinRun(tasks, sched).err == TaskAt(tasks, f)().err;
    var i :| 0 <= i < |items| && f == Index(i);
    assert TaskAt(tasks, f)() == Relay(w(items[i]));
  }
}
