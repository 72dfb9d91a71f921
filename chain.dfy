/** The sequencer: a Chain object holds a stack of steps; `end(fn)` runs them in
    the order they were pushed, each step receiving the values its predecessor
    passed on after the error slot, and calls `fn(err, ...values)` once a step
    reports a truthy error or the stack runs out. */
module ChainTiny {
  import opened Values
  import opened Callbacks
  import opened Joining
  import opened Iteration

  datatype Option<T> = None | Some(value: T)

  /** A step on the stack: a function of the caller's, or one of the steps the
      chain's own methods push. Each is called with the forwarded values and its
      continuation. */
  datatype Step =
    | Fn(f: seq<Value> -> Completion)
    | ForEachStep(w: Worker)
    | ForEachParallelStep(w: Worker)
    | EachStep(kw: KeyedWorker)
    | EachParallelStep(kw: KeyedWorker)
    | ParallelStep(tasks: Tasks)
    | WaitStep(time: int)

  /** Whether running the step ends a nested chain of its own. */
  function Rank(step: Step): nat
  {
    if step.ForEachParallelStep? || step.EachParallelStep? then 1 else 0
  }

  /** The highest rank of the steps on a stack. */
  function Nesting(stack: seq<Step>): (n: nat)
    ensures forall i :: 0 <= i < |stack| ==> Rank(stack[i]) <= n
  {
    if stack == [] then 0
    else
      var rest := Nesting(stack[1..]);
      if Rank(stack[0]) < rest then rest else Rank(stack[0])
  }

  /** The iterator steps take their collection as the only forwarded value
      (`function(ary, next)`): with none, `next` lands in `ary`; with more, a
      value lands in `next`. Either the host throws a TypeError (`forEach`,
      `each`, and `forEachParallel` with no value), or the nested
      `Chain.parallel(q).end(next)` gets no function to call; either way the
      step's continuation is never called. */
  predicate OneValue(args: seq<Value>)
  {
    |args| == 1
  }

  /** What a step calls its continuation with when called with `args`. */
  function StepResult(step: Step, args: seq<Value>, sched: Schedule): Completion
  {
    match step
    case Fn(f) => f(args)
    case ForEachStep(w) =>
      if OneValue(args) && args[0].Arr? then Iterate(Keyless(w), args[0]) else Pending
    case ForEachParallelStep(w) =>
      if OneValue(args) && args[0].Arr? then JoinRun(BuildTasks(Keyless(w), args[0]), sched) else Pending
    case EachStep(kw) =>
      if OneValue(args) && !args[0].Undefined? && !args[0].Null? then Iterate(kw, args[0]) else Pending
    case EachParallelStep(kw) =>
      if OneValue(args) && !args[0].Undefined? && !args[0].Null? then JoinRun(BuildTasks(kw, args[0]), sched) else Pending
    case ParallelStep(tasks) => JoinRun(tasks, sched)
    case WaitStep(_) => Completed(Null, args)
  }

  /** A run of a stack: the values each step that ran was called with, and what the
      final callback is called with (Pending: it never is). */
  datatype Outcome = Outcome(inputs: seq<seq<Value>>, result: Completion)

  /** Running `stack` when the values `args` come in with a null error. */
  function Drain(stack: seq<Step>, args: seq<Value>, sched: Schedule): (o: Outcome)
    ensures |o.inputs| <= |stack|
    decreases |stack|
  {
    if stack == [] then Outcome([], Completed(Null, args))
    else
      match StepResult(stack[0], args, sched)
      case Pending => Outcome([args], Pending)
      case Completed(e, vs) =>
        if Truthy(e) then Outcome([args], Completed(e, vs))
        else
          var o := Drain(stack[1..], vs, sched);
          Outcome([args] + o.inputs, o.result)
  }

  /** A first step `function(next) { next(null, v1, ..., vn); }`: the static
      constructors seed their chains with one (`Emit([ary])`, and `Emit([])` for
      `Chain.wait`). */
  function Emit(vals: seq<Value>): Step
  {
    Fn(args => if args == [] then Completed(Null, vals) else Pending)
  }

  class Chain {
    var stack: seq<Step>

    /** `new Chain(fn)`: an empty stack, onto which `fn` goes when it is a function. */
    constructor (fn: Option<Step>)
      ensures stack == if fn.Some? then [fn.value] else []
    {
      stack := [];
      new;
      if fn.Some? {
        stack := stack + [fn.value];
      }
    }

    /** `chain(fn)`: pushes `fn` when it is a function, ignores it otherwise. */
    method Chain(fn: Option<Step>) returns (self: Chain)
      modifies this
      ensures self == this
      ensures stack == old(stack) + if fn.Some? then [fn.value] else []
    {
      if fn.Some? {
        stack := stack + [fn.value];
      }
      self := this;
    }

    method ForEach(w: Worker) returns (self: Chain)
      modifies this
      ensures self == this && stack == old(stack) + [ForEachStep(w)]
    {
      self := Chain(Some(ForEachStep(w)));
    }

    method ForEachParallel(w: Worker) returns (self: Chain)
      modifies this
      ensures self == this && stack == old(stack) + [ForEachParallelStep(w)]
    {
      self := Chain(Some(ForEachParallelStep(w)));
    }

    method Each(kw: KeyedWorker) returns (self: Chain)
      modifies this
      ensures self == this && stack == old(stack) + [EachStep(kw)]
    {
      self := Chain(Some(EachStep(kw)));
    }

    method EachParallel(kw: KeyedWorker) returns (self: Chain)
      modifies this
      ensures self == this && stack == old(stack) + [EachParallelStep(kw)]
    {
      self := Chain(Some(EachParallelStep(kw)));
    }

    method Parallel(tasks: Tasks) returns (self: Chain)
      modifies this
      ensures self == this && stack == old(stack) + [ParallelStep(tasks)]
    {
      self := Chain(Some(ParallelStep(tasks)));
    }

    method Wait(time: int) returns (self: Chain)
      modifies this
      ensures self == this && stack == old(stack) + [WaitStep(time)]
    {
      self := Chain(Some(WaitStep(time)));
    }

    /** `end(fn)`: shifts steps off the stack and calls each with the values passed
      on by the one before, until a step fails, stalls, or the stack is empty.
      `delivered` is what `fn` is called with; when `fn` is not a function it is
      never called, but the steps run all the same. */
    method End(isFunction: bool, sched: Schedule) returns (delivered: Completion)
      modifies this
      decreases Nesting(stack), 1
      ensures var o := Drain(old(stack), [], sched);
        && stack == old(stack)[|o.inputs|..]
        && delivered == if isFunction then o.result else Pending
    {
      var args: seq<Value> := [];
      ghost var ran: seq<seq<Value>> := [];
      while stack != []
        invariant |ran| <= |old(stack)| && stack == old(stack)[|ran|..]
        invariant Drain(old(stack), [], sched) == Resumed(ran, Drain(stack, args, sched))
        decreases |stack|
      {
        var step := stack[0];
        var c := Perform(step, args, sched);
        ResumedStep(ran, stack, args, sched);
        stack := stack[1..];
        ran := ran + [args];
        if c.Pending? {
          return Pending;
        }
        if Truthy(c.err) {
          return if isFunction then c else Pending;
        }
        args := c.vals;
      }
      delivered := if isFunction then Completed(Null, args) else Pending;
    }
  }

  /** An outcome preceded by the steps that already ran. */
  function Resumed(ran: seq<seq<Value>>, o: Outcome): Outcome
  {
    Outcome(ran + o.inputs, o.result)
  }

  /** One more step of a run: it either ends the run or passes its values on. */
  lemma ResumedStep(ran: seq<seq<Value>>, stack: seq<Step>, args: seq<Value>, sched: Schedule)
    requires stack != []
    ensures var c := StepResult(stack[0], args, sched);
      && (c.Pending? ==> Resumed(ran, Drain(stack, args, sched)) == Outcome(ran + [args], Pending))
      && (Failed(c) ==> Resumed(ran, Drain(stack, args, sched)) == Outcome(ran + [args], c))
      && (Succeeded(c) ==> Resumed(ran, Drain(stack, args, sched)) == Resumed(ran + [args], Drain(stack[1..], c.vals, sched)))
  {
    var c := StepResult(stack[0], args, sched);
    if Succeeded(c) {
      var o := Drain(stack[1..], c.vals, sched);
      assert ran + ([args] + o.inputs) == ran + [args] + o.inputs;
    }
  }

  /** Runs one step: what it calls its continuation with. The parallel iterators
      build a nested chain around a `parallel` step and end it. */
  method Perform(step: Step, args: seq<Value>, sched: Schedule) returns (c: Completion)
    decreases Rank(step), 0
    ensures c == StepResult(step, args, sched)
  {
    match step
    case Fn(f) =>
      c := f(args);
    case ForEachStep(w) =>
      if OneValue(args) && args[0].Arr? {
        c := RunIteration(Keyless(w), args[0]);
      } else {
        c := Pending;
      }
    case ForEachParallelStep(w) =>
      if OneValue(args) && args[0].Arr? {
        var q := BuildTasks(Keyless(w), args[0]);
        var inner := StaticParallel(q);
        assert Nesting(inner.stack) == 0 by {
          assert inner.stack[1..] == [];
        }
        c := inner.End(true, sched);
        NestedParallel(q, sched);
      } else {
        c := Pending;
      }
    case EachStep(kw) =>
      if OneValue(args) && !args[0].Undefined? && !args[0].Null? {
        c := RunIteration(kw, args[0]);
      } else {
        c := Pending;
      }
    case EachParallelStep(kw) =>
      if OneValue(args) && !args[0].Undefined? && !args[0].Null? {
        var q := BuildTasks(kw, args[0]);
        var inner := StaticParallel(q);
        assert Nesting(inner.stack) == 0 by {
          assert inner.stack[1..] == [];
        }
        c := inner.End(true, sched);
        NestedParallel(q, sched);
      } else {
        c := Pending;
      }
    case ParallelStep(tasks) =>
      c := RunParallel(tasks, sched);
    case WaitStep(_) =>
      c := Completed(Null, args);
  }

  /** A chain holding just a `parallel` step, ended, calls back with what the
      joiner calls back with. */
  lemma NestedParallel(tasks: Tasks, sched: Schedule)
    ensures Drain([ParallelStep(tasks)], [], sched).result == JoinRun(tasks, sched)
  {
  }

  /** `Chain.forEach(ary, fn)`. */
  method StaticForEach(ary: Value, w: Worker) returns (c: Chain)
    ensures fresh(c) && c.stack == [Emit([ary]), ForEachStep(w)]
  {
    c := new Chain(Some(Emit([ary])));
    c := c.ForEach(w);
  }

  /** `Chain.forEachParallel(ary, fn)`. */
  method StaticForEachParallel(ary: Value, w: Worker) returns (c: Chain)
    ensures fresh(c) && c.stack == [Emit([ary]), ForEachParallelStep(w)]
  {
    c := new Chain(Some(Emit([ary])));
    c := c.ForEachParallel(w);
  }

  /** `Chain.each(obj, fn)`. */
  method StaticEach(obj: Value, kw: KeyedWorker) returns (c: Chain)
    ensures fresh(c) && c.stack == [Emit([obj]), EachStep(kw)]
  {
    c := new Chain(Some(Emit([obj])));
    c := c.Each(kw);
  }

  /** `Chain.eachParallel(obj, fn)`. */
  method StaticEachParallel(obj: Value, kw: KeyedWorker) returns (c: Chain)
    ensures fresh(c) && c.stack == [Emit([obj]), EachParallelStep(kw)]
  {
    c := new Chain(Some(Emit([obj])));
    c := c.EachParallel(kw);
  }

  /** `Chain.parallel(tasks)`: no seed step. */
  method StaticParallel(tasks: Tasks) returns (c: Chain)
    ensures fresh(c) && c.stack == [ParallelStep(tasks)]
  {
    c := new Chain(None);
    c := c.Parallel(tasks);
  }

  /** `Chain.wait(time)`. */
  method StaticWait(time: int) returns (c: Chain)
    ensures fresh(c) && c.stack == [Emit([]), WaitStep(time)]
  {
    c := new Chain(Some(Emit([])));
    c := c.Wait(time);
  }
}
