# chain-tiny in Dafny

A model of `lib/chain-tiny.js`, a small library for running asynchronous Node.js
callbacks one after another. A `Chain` object keeps a stack of step functions.
`end(fn)` shifts the steps off one by one. Each step is called with the values its
predecessor passed to `next` after the error slot, plus `next` itself. The first
truthy error, or running out of steps, calls `fn(err, ...values)`.

On top of the sequencer the library offers:

- `parallel`: runs a container of tasks and collects their results under their keys.
- `forEach` and `each`: run a worker over a collection's items one after another.
- `forEachParallel` and `eachParallel`: turn the items into tasks and hand them to a
  nested `parallel`.
- `wait`: forwards its values unchanged after a delay.
- Static constructors that seed a chain with a collection.

The model is organised as follows:

- `values.dfy` (`Values`): the JavaScript values that flow between steps. It covers
  truthiness and property assignment on arrays and plain objects
  (with holes, and with insertion-ordered keys).
- `callbacks.dfy` (`Callbacks`): continuations and the functions the library is
  handed.
  - `Completion` is what a continuation is called with. `Pending` means it is never
    called.
  - Tasks and workers are Dafny functions returning a `Completion`.
  - Timers are replaced by a `Schedule` parameter that gives the order in which
    deferred tasks call back.
- `joiner.dfy` (`Joining`): the body of a `parallel` step.
  - A `Joiner` object holds `keys`, `count` and `results`, updated by `Complete` for
    each task callback.
  - `RunParallel` feeds it the callbacks in arrival order.
  - It is proved against the specification function `JoinRun`, along with the
    success, first-failure and stall properties for every schedule.
- `iteration.dfy` (`Iteration`): the sequential iteration, as the loop
  `RunIteration` proved against `Iterate`, and the task containers the parallel
  iterators build.
- `chain.dfy` (`ChainTiny`): the `Chain` class.
  - Its `stack` field is pushed to by `Chain`, `ForEach`, `ForEachParallel`,
    `Each`, `EachParallel`, `Parallel` and `Wait`.
  - `End` is a loop that shifts the stack. It is proved against the specification
    function `Drain`, which records the values every step received.
  - `Perform` runs one step. For the parallel iterators it really builds a nested
    `Chain.parallel(q)` and ends it, so `End` and `Perform` are mutually recursive.
  - The static constructors are methods returning fresh chains.
- `laws.dfy` (`ChainLaws`): what holds for every chain.
  - How values are forwarded and how a run ends.
  - `s1 + s2` runs as `s1` then `s2`, and `wait` is transparent.
  - What the static constructors deliver.
  - The iteration loop agrees with the nested chain of item steps that the source
    builds.
  - `forEach` and `forEachParallel` agree on success, as do `each` and
    `eachParallel`, and they part ways on an empty collection.
- `scenarios.dfy` (`Scenarios`): the library's test cases replayed through the
  `Chain` methods, with what the final callback receives.

Steps are values of the datatype `Step`. A caller's own function is `Fn(f)`, where
`f` maps the forwarded values to a `Completion`. The steps pushed by the library's
methods are constructors of their own, and `StepResult` gives each one's behaviour.

The iterator steps declare `function(ary, next)`, so when one receives the wrong
number of values:

- with no value, `next` lands in `ary`;
- with two or more values, a value lands in `next`.

Either the host throws a `TypeError` (`forEach`, `each`, and `forEachParallel` with
no value), or the nested `Chain.parallel(q).end(next)` gets no function to call
(lib/chain-tiny.js:68). Either way the step's continuation is never called, and
the model renders both cases as `Pending`. So does a non-array given to `forEach`,
and `null` or `undefined` given to `each`.

Where the code and its comments or tests differ, the model follows the code:

- A `parallel` over an empty container starts no task, so it never calls back
  (`ParallelStalls`, `EmptyCollectionDiffers`). Likewise, `forEachParallel` and
  `eachParallel` over an empty collection never call back.
- Several tests call `forEach` workers as `(key, val, next)` and expect `parallel`
  tasks to receive the forwarded value. The library calls `fn(val, cb)` and
  `fn(cb)`, and the model does the same.

## Model

| member | source | states |
|---|---|---|
| Values.SetProperty | lib/chain-tiny.js:220 | `results[key] = result`: on an array the position holds the value, earlier slots are kept and a gap is filled with holes; on an object the field is set and a new name goes to the end of the key order |
| Values.FillArray | lib/chain-tiny.js:212-226 | assigning every position below `n` to `[]`, in any order, gives the dense array of the `n` values in position order |
| Values.SetAllOnObject | lib/chain-tiny.js:220 | assigning distinct new names to an object appends them to its key order in assignment order and sets exactly their fields |
| Callbacks.TaskKeysDistinct | lib/chain-tiny.js:211 | `Object.keys` of a task container lists each key once: positions `0..n-1` for an array, the distinct task names for an object |
| Callbacks.Arrivals | lib/chain-tiny.js:212-228 | the order in which deferred tasks call back lists every key exactly once |
| Joining.Joiner.constructor | lib/chain-tiny.js:207-211 | the joiner starts with count 0, the keys, and an empty container of the tasks' shape |
| Joining.Joiner.Complete | lib/chain-tiny.js:215-226 | one callback: a truthy error is passed to `next` with the state unchanged; otherwise the result is stored under its key, the count goes up by one, and `next(null, results)` fires exactly when the count reaches the number of keys |
| Joining.JoinFrom | lib/chain-tiny.js:215-226 | the joiner only ever reports `(null, results)` or `(truthy error)` |
| Joining.RunParallel | lib/chain-tiny.js:206-228 | feeding the task callbacks in arrival order to a fresh Joiner gives exactly `JoinRun` |
| Joining.JoinFromSucceeds | lib/chain-tiny.js:219-224 | when every remaining callback succeeds and the last one brings the count to `n`, the step reports `null` and the container with every result assigned in arrival order |
| Joining.JoinFromFails | lib/chain-tiny.js:216-218 | a failing callback with no failure before it is reported as soon as it arrives, because earlier successes cannot complete the count |
| Joining.JoinFromStalls | lib/chain-tiny.js:219-225 | with no failure and one task that never calls back, the count never reaches `n` |
| Joining.JoinFromNeverReaches | lib/chain-tiny.js:221-224 | without failures, fewer callbacks than the missing count never fire `next` |
| Joining.ParallelArraySucceeds | lib/chain-tiny.js:203-230 | an array of tasks that all succeed gives `(null, results)` with `results[i]` task `i`'s result, for every completion order |
| Joining.ParallelObjectSucceeds | lib/chain-tiny.js:203-230 | an object of tasks that all succeed gives `(null, results)` holding each task's result under its name; the keys are the task names, in completion order |
| Joining.ObjectArrivals | lib/chain-tiny.js:211-214 | the arrival order of distinct task names lists each name once and no other |
| Joining.ParallelFirstFailure | lib/chain-tiny.js:215-218 | the first failing callback in arrival order decides the step's error, whatever the others do |
| Joining.ParallelNeverSucceedsAfterFailure | lib/chain-tiny.js:215-226 | once any task fails, the step reports the error of some failing task and never results |
| Joining.ParallelStalls | lib/chain-tiny.js:209-228 | with no failing task, a silent task or an empty container means `next` is never called |
| Iteration.IterateFrom | lib/chain-tiny.js:95-104 | the sequential iteration reports one results container, with a `null` or truthy error |
| Iteration.RunIteration | lib/chain-tiny.js:146-162 | the loop over the entries calls each worker in order, stores its result, and stops at a stall or a truthy error; it equals `Iterate` |
| Iteration.IterateArraySucceeds | lib/chain-tiny.js:91-105 | over an array whose workers all succeed, the step reports `null` and the results in item order |
| Iteration.IterateObjectSucceeds | lib/chain-tiny.js:146-162 | over a plain object whose workers all succeed, the step reports `null` and an object with the same keys in the same order, each holding its worker's result |
| Iteration.IterateArrayStops | lib/chain-tiny.js:96-99 | the first failing item `j` ends the iteration with its error and the results of items `0..j`, its own included; later workers are never called |
| Iteration.IterateObjectStopsFrom | lib/chain-tiny.js:150-161 | over named entries, the first failing entry `j` ends the iteration with its error and the results of entries `0..j`, its own included, each assigned under its name |
| Iteration.IterateObjectStops | lib/chain-tiny.js:146-162 | `each` over a plain object stops at the first failing key with its error and an object holding the keys up to and including that one, in key order, each with its worker's result; later workers are never called |
| Iteration.AssignedResults | lib/chain-tiny.js:154 | `results[key] = result` over distinct names, from `{}`, gives an object with exactly those names in assignment order, each holding its worker's result |
| Iteration.RepliesAt | lib/chain-tiny.js:94-99 | position `i` of the gathered results holds the result of the worker on item `i` |
| Iteration.IterateStallsFrom | lib/chain-tiny.js:95-102 | a worker that never calls back, reached with no failure before it, stalls the step |
| Iteration.IterateEmpty | lib/chain-tiny.js:102-104 | with nothing to iterate, the step reports `null` and an empty container at once |
| Iteration.BuildTasks | lib/chain-tiny.js:179-190 | the task container is an array exactly when the collection is |
| Iteration.BuildTasksShape | lib/chain-tiny.js:179-190 | the task container has one task per entry, under the entry's key and in order, each calling the worker with that entry |
| ChainTiny.Drain | lib/chain-tiny.js:61-78 | no more steps run than the stack holds |
| ChainTiny.Chain.constructor | lib/chain-tiny.js:14-22 | a new chain's stack holds `fn` when it is a function and is empty otherwise |
| ChainTiny.Chain.Chain | lib/chain-tiny.js:44-52 | `chain(fn)` appends `fn` when it is a function, ignores it otherwise, and returns the same chain |
| ChainTiny.Chain.ForEach | lib/chain-tiny.js:88-91 | appends the `forEach` step and returns the same chain |
| ChainTiny.Chain.ForEachParallel | lib/chain-tiny.js:116-119 | appends the `forEachParallel` step and returns the same chain |
| ChainTiny.Chain.Each | lib/chain-tiny.js:143-146 | appends the `each` step and returns the same chain |
| ChainTiny.Chain.EachParallel | lib/chain-tiny.js:174-177 | appends the `eachParallel` step and returns the same chain |
| ChainTiny.Chain.Parallel | lib/chain-tiny.js:203-206 | appends the `parallel` step and returns the same chain |
| ChainTiny.Chain.Wait | lib/chain-tiny.js:240-243 | appends the `wait` step and returns the same chain |
| ChainTiny.Chain.End | lib/chain-tiny.js:61-78 | shifts exactly the steps that ran off the stack; `fn` receives the run's outcome when it is a function and is never called otherwise |
| ChainTiny.ResumedStep | lib/chain-tiny.js:64-76 | one more step of a run either ends it (stall or truthy error) or passes its values on to the rest |
| ChainTiny.Perform | lib/chain-tiny.js:91-247 | running one step calls its continuation with exactly `StepResult`, the parallel iterators by ending a nested `Chain.parallel` |
| ChainTiny.NestedParallel | lib/chain-tiny.js:131 | `Chain.parallel(q).end(next)` calls `next` with what the joiner reports |
| ChainTiny.StaticForEach | lib/chain-tiny.js:262-266 | a fresh chain of a step passing `ary` on, then the `forEach` step |
| ChainTiny.StaticForEachParallel | lib/chain-tiny.js:277-281 | a fresh chain of a step passing `ary` on, then the `forEachParallel` step |
| ChainTiny.StaticEach | lib/chain-tiny.js:292-296 | a fresh chain of a step passing `obj` on, then the `each` step |
| ChainTiny.StaticEachParallel | lib/chain-tiny.js:307-311 | a fresh chain of a step passing `obj` on, then the `eachParallel` step |
| ChainTiny.StaticParallel | lib/chain-tiny.js:321-323 | a fresh chain holding only the `parallel` step |
| ChainTiny.StaticWait | lib/chain-tiny.js:333-335 | a fresh chain of a step calling `next(null)`, then the `wait` step |
| ChainLaws.DrainForwards | lib/chain-tiny.js:64-76 | the first step receives the incoming values, and each later step that runs receives exactly the values its predecessor passed on after a falsy error |
| ChainLaws.DrainEnds | lib/chain-tiny.js:64-72 | a run ends with the last step stalling, or with `fn` receiving that step's truthy error and values, or, with every step run, `fn` receiving `null` and the last values |
| ChainLaws.AllSucceedRunsToEnd | lib/chain-tiny.js:64-76 | when every step passes values on without error, every step runs and `fn` gets a `null` error |
| ChainLaws.DrainConcat | lib/chain-tiny.js:44-76 | running `s1 + s2` is running `s1` and then, only on success, `s2` on its values; later pushes never change what earlier steps receive |
| ChainLaws.ComposesStep | lib/chain-tiny.js:64-76 | when the first step of `s1` passes its values on and the rest of `s1` composes with `s2`, all of `s1` composes with `s2` |
| ChainLaws.WaitIsTransparent | lib/chain-tiny.js:240-251 | inserting `wait(time)` anywhere leaves what `fn` receives unchanged |
| ChainLaws.DrainSingle | lib/chain-tiny.js:64-72 | a one-step chain whose step reports a `null` or truthy error delivers exactly that report |
| ChainLaws.StaticForEachRuns | lib/chain-tiny.js:262-266 | `Chain.forEach(ary, fn).end(cb)` gives `cb` the sequential iteration over `ary`, and stalls on a non-array |
| ChainLaws.StaticForEachParallelRuns | lib/chain-tiny.js:277-281 | `Chain.forEachParallel(ary, fn).end(cb)` gives `cb` the joiner's report over the item tasks, and stalls on a non-array |
| ChainLaws.StaticEachRuns | lib/chain-tiny.js:292-296 | `Chain.each(obj, fn).end(cb)` gives `cb` the sequential iteration over `obj`, and stalls on `null` and `undefined` |
| ChainLaws.StaticEachParallelRuns | lib/chain-tiny.js:307-311 | `Chain.eachParallel(obj, fn).end(cb)` gives `cb` the joiner's report over `obj`'s item tasks, and stalls on `null` and `undefined` |
| ChainLaws.StaticParallelRuns | lib/chain-tiny.js:321-323 | `Chain.parallel(tasks).end(cb)` gives `cb` the joiner's report |
| ChainLaws.StaticWaitRuns | lib/chain-tiny.js:333-335 | `Chain.wait(time).end(cb)` runs both steps and calls `cb(null)` |
| ChainLaws.IterationIsNestedChain | lib/chain-tiny.js:92-104 | the iteration loop stalls exactly when the nested chain of item steps does, reports the error that chain's `end` receives, every item step is called with no values, and the chain runs exactly the items up to and including the first that fails or stalls (all of them when none does) |
| ChainLaws.ForEachAgreesWithParallel | lib/chain-tiny.js:88-132 | on a non-empty array whose workers all succeed, `forEach` and `forEachParallel` both report `null` and the results in item order, for every completion order |
| ChainLaws.ItemResults | lib/chain-tiny.js:116-132 | the results the joiner collects from the item tasks built over an array, in position order, are the workers' results in item order |
| ChainLaws.EmptyCollectionDiffers | lib/chain-tiny.js:88-193 | on an empty array or object the sequential iterators report an empty container, while the parallel ones never call back |
| ChainLaws.ObjectTasks | lib/chain-tiny.js:179-190 | `eachParallel` builds an object of tasks under the object's own keys, each relaying the worker on that key and value |
| ChainLaws.EachAgreesWithParallel | lib/chain-tiny.js:143-193 | on a plain object whose workers all succeed, `each` and `eachParallel` report the same fields; `each` keeps the key order, and `eachParallel` lists the same keys once each |
| ChainLaws.EachParallelSucceeds | lib/chain-tiny.js:174-193 | `eachParallel` over a plain object whose workers all succeed reports `null` and an object holding, under each key, the result of the worker called with that key and its value; its keys are the object's, once each |
| ChainLaws.EachParallelOnObject | lib/chain-tiny.js:178-191 | handed anything but `null` or `undefined`, the `eachParallel` step runs `parallel` over the tasks it builds |
| ChainLaws.EachParallelArraySucceeds | lib/chain-tiny.js:143-193 | on a non-empty array whose workers all succeed, `each` and `eachParallel` both report `null` and the results in item order, for every completion order |
| ChainLaws.RelayedTasksSucceed | lib/chain-tiny.js:181-191 | `parallel` over an object of tasks relaying succeeding workers reports `null` and each worker's result under its key, the keys listed once each |
| ChainLaws.RelayedFields | lib/chain-tiny.js:183-186 | results gathered from relaying tasks, one under each key, are the workers' results under those keys |
| ChainLaws.ForEachParallelFails | lib/chain-tiny.js:116-132 | when any item fails, `forEachParallel` reports the error of a failing item and never results |
| Scenarios.PassesOn | lib/chain-tiny.js:74-75 | a step passing values on without error hands the rest of the run those values |
| Scenarios.ArgsExample | test/basic.js:35-48 | `'foo'` reaches the second step, and `fn` receives `null, 'bar', 'baz'` |
| Scenarios.ErrorExample | test/basic.js:50-61 | `fn` receives `'error!'`, and the second step never runs |
| Scenarios.WaitExample | test/wait.js:5-20 | `wait` forwards `'foo', 'bar'`, and `fn` receives `null` |
| Scenarios.StaticWaitExample | test/wait.js:22-34 | after `Chain.wait`, the next step gets no values, and its `next()` reaches `fn` as `null` |
| Scenarios.OneTwoJoin | test/basic.js:132-157 | with the second task first, the joiner fills position 1 and then position 0 |
| Scenarios.ParallelArrayExample | test/basic.js:132-157 | `parallel([t1, t2])` with `t2` finishing first reports `[1, 2]` |
| Scenarios.FooBarJoin | test/basic.js:158-180 | with `bar` first, the joiner assigns `bar` and then `foo` |
| Scenarios.ParallelObjectExample | test/basic.js:158-180 | `Chain.parallel({ foo, bar })` reports `{ foo: 1, bar: 2 }` |
| Scenarios.FooHogeIteration | test/basic.js:247-261 | the iteration visits `foo` and then `hoge` |
| Scenarios.EachExample | test/basic.js:247-261 | `Chain.each` reports `{ foo: 'foo/bar', hoge: 'hoge/fuga' }` |

## Left out

- Timers and real concurrency. `setTimeout`, the `time` argument of `wait` and the
  interleaving of parallel tasks are replaced by a `Schedule`: a function from a
  container's keys to the order its tasks call back in. The same schedule serves
  every `parallel` step of a run, so two steps with the same keys finish in the same
  order.
- Joining.JoinFrom: reports only the first call of the step's `next`. When several
  parallel tasks fail, the source calls `next` once per failure, re-entering the
  outer chain each time. The model ends the step at the first.
- Callbacks invoked more than once by a caller's step, worker or task, and the
  re-entry into `end`'s `next` that follows, are not modelled. Each continuation is
  taken to be called at most once.
- Exceptions thrown by callers' functions are not modelled as exceptions. Like the
  host `TypeError`s on a wrong number of values, they appear only as a step that
  never calls back.
- JavaScript values beyond integers, strings, booleans, `null`, `undefined`, arrays
  and plain objects: floating point, `NaN`, symbols, and functions as values.
- Sparse arrays. Holes are modelled as `undefined` entries. JavaScript's `forEach`
  and `Object.keys` skip holes, while the model's iterators visit them.
- Integer-like property names. JavaScript lists them first and in ascending
  order; the model keeps every object's keys in insertion order.
- Iteration.Entries: enumerates strings, numbers and booleans as having no keys.
  JavaScript's `Object.keys` gives a string's index names; numbers and booleans
  have no keys.
- `Obj` values whose key list repeats a name are not JavaScript objects. The
  lemmas about objects require a well-formed object.
- `Chain.version` and `module.exports`: a constant and module wiring, with no
  behaviour.
- Aliasing of the containers handed to the library. `parallel(obj)` reads `obj`
  only when its step runs (lib/chain-tiny.js:209-213), and the static constructors
  pass `ary` or `obj` on by reference (lib/chain-tiny.js:264, 294). A caller who
  changes the container after pushing the step but before `end` changes what
  runs. The model captures `ParallelStep(tasks)` and `Emit([ary])` as values at
  push time.
- ChainTiny.Chain.End: runs the stack to completion within the call. In the
  source, `next` re-reads `self.stack` each time it is called (lib/chain-tiny.js:67,
  75). So a step pushed with `chain`, `forEach` and the like after `end`, while an
  earlier step has not yet called back, would still run. A second `end` on the
  same chain would share the stack with the first. Neither interleaving is
  modelled.
- The nested chain that `forEach` and `each` build holds steps that share the
  `results` array, which a `Step` value cannot hold. The step body is therefore
  modelled as the loop `RunIteration`, and `ChainLaws.IterationIsNestedChain`
  relates it to the nested chain of item steps.
