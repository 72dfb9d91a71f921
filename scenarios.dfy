/** The library's own usage examples, replayed through the Chain object: each
    builds a chain with the public methods, ends it, and states what the final
    callback receives. */
module Scenarios {
  import opened Values
  import opened Callbacks
  import opened Joining
  import opened Iteration
  import opened ChainTiny

  /** A step that checks what it receives, `function(foo, next)`, and then calls
      `next()` when it has nothing to pass on, `next(null, ...vals)` otherwise. */
  function Expect(expected: seq<Value>, vals: seq<Value>): Step
  {
    Fn(args => if args == expected then Completed(if vals == [] then Undefined else Null, vals) else Pending)
  }

  /** A step passing values on without error hands the rest of the run those values. */
  lemma PassesOn(stack: seq<Step>, args: seq<Value>, sched: Schedule)
    requires stack != [] && Succeeded(StepResult(stack[0], args, sched))
    ensures Drain(stack, args, sched).result == Drain(stack[1..], StepResult(stack[0], args, sched).vals, sched).result
  {
  }

  /** Values forwarded after a null error reach the next step, and the last step's
      values reach the final callback after `null`. */
  method ArgsExample(sched: Schedule) returns (delivered: Completion)
    ensures delivered == Completed(Null, [Str("bar"), Str("baz")])
  {
    var c := new Chain(Some(Emit([Str("foo")])));
    c := c.Chain(Some(Expect([Str("foo")], [Str("bar"), Str("baz")])));
    var stack := c.stack;
    PassesOn(stack, [], sched);
    PassesOn(stack[1..], [Str("foo")], sched);
    assert stack[1..][1..] == [];
    delivered := c.End(true, sched);
  }

  /** A first step failing with `'error!'` skips the second step, whose body would
      fail; the final callback receives the error, and the second step is left on
      the stack. */
  method ErrorExample(sched: Schedule) returns (delivered: Completion, left: nat)
    ensures delivered == Completed(Str("error!"), [])
    ensures left == 1
  {
    var c := new Chain(Some(Fn(args => Completed(Str("error!"), []))));
    c := c.Chain(Some(Fn(args => Pending)));
    delivered := c.End(true, sched);
    left := |c.stack|;
  }

  /** `wait(100)` passes the values of the step before it on to the step after it. */
  method WaitExample(sched: Schedule) returns (delivered: Completion)
    ensures delivered == Completed(Null, [])
  {
    var c := new Chain(Some(Emit([Str("foo"), Str("bar")])));
    c := c.Wait(100);
    c := c.Chain(Some(Expect([Str("foo"), Str("bar")], [])));
    var stack := c.stack;
    PassesOn(stack, [], sched);
    PassesOn(stack[1..], [Str("foo"), Str("bar")], sched);
    PassesOn(stack[1..][1..], [Str("foo"), Str("bar")], sched);
    assert stack[1..][1..][1..] == [];
    delivered := c.End(true, sched);
  }

  /** `Chain.wait(100)` followed by a step calling `next()` with no arguments:
      the step is called with no values, and its undefined error reaches the final
      callback as `null`. */
  method StaticWaitExample(sched: Schedule) returns (delivered: Completion)
    ensures delivered == Completed(Null, [])
  {
    var c := StaticWait(100);
    c := c.Chain(Some(Expect([], [])));
    var stack := c.stack;
    PassesOn(stack, [], sched);
    PassesOn(stack[1..], [], sched);
    assert StepResult(stack[2], [], sched) == Completed(Undefined, []);
    assert stack[1..][1..] == [stack[2]] && stack[1..][1..][1..] == [];
    delivered := c.End(true, sched);
  }

  /** A task that calls back with `(null, n)`. */
  function Returns(n: int): Task
  {
    () => Completed(Null, [Num(n)])
  }

  /** The second task finishing first. */
  function SecondFirst(keys: seq<Key>): seq<Key>
  {
    if |keys| == 2 then [keys[1], keys[0]] else keys
  }

  /** The tasks of the `parallel(array)` example. */
  function OneTwo(): Tasks
  {
    TaskArray([Returns(1), Returns(2)])
  }

  /** With the second task arriving first, the joiner fills position 1, leaving a
      hole at 0, and then position 0. */
  lemma OneTwoJoin()
    ensures JoinRun(OneTwo(), SecondFirst) == Completed(Null, [Arr([Num(1), Num(2)])])
  {
    var tasks := OneTwo();
    assert Arrivals(SecondFirst, TaskKeys(tasks)) == [Index(1), Index(0)] by {
      assert TaskKeys(tasks) == [Index(0), Index(1)];
    }
    var half := Arr([Undefined, Num(2)]);
    assert JoinFrom(tasks, [Index(0)], 2, 1, half) == Completed(Null, [Arr([Num(1), Num(2)])]) by {
      assert TaskAt(tasks, Index(0))() == Completed(Null, [Num(1)]);
      assert SetProperty(half, Index(0), Num(1)) == Arr([Num(1), Num(2)]) by {
        assert half.items[0 := Num(1)] == [Num(1), Num(2)];
      }
    }
    assert JoinFrom(tasks, [Index(1), Index(0)], 2, 0, Arr([])) == JoinFrom(tasks, [Index(0)], 2, 1, half) by {
      assert [Index(1), Index(0)][1..] == [Index(0)];
      assert SetProperty(Arr([]), Index(1), Num(2)) == half by {
        assert Holes(1) == [Undefined];
      }
    }
  }

  /** `parallel([t1, t2])` after a step passing `'foo'` on, where `t2` finishes
      first: the tasks are not handed `'foo'`, and the results are still in task
      order, `[1, 2]`. */
  method ParallelArrayExample() returns (delivered: Completion)
    ensures delivered == Completed(Null, [Arr([Num(1), Num(2)])])
  {
    var c := new Chain(Some(Emit([Str("foo")])));
    c := c.Parallel(OneTwo());
    var stack := c.stack;
    PassesOn(stack, [], SecondFirst);
    assert stack[1..][1..] == [];
    OneTwoJoin();
    delivered := c.End(true, SecondFirst);
  }

  /** The tasks of the `parallel(obj)` example. */
  function FooBar(): Tasks
  {
    TaskObject(["foo", "bar"], map["foo" := Returns(1), "bar" := Returns(2)])
  }

  /** With `bar` arriving first, the joiner assigns `bar` and then `foo`. */
  lemma FooBarJoin()
    ensures JoinRun(FooBar(), SecondFirst) == Completed(Null, [Obj(["bar", "foo"], map["foo" := Num(1), "bar" := Num(2)])])
  {
    var tasks := FooBar();
    assert Arrivals(SecondFirst, TaskKeys(tasks)) == [Name("bar"), Name("foo")] by {
      assert TaskKeys(tasks) == [Name("foo"), Name("bar")];
    }
    var half := Obj(["bar"], map["bar" := Num(2)]);
    var full := Obj(["bar", "foo"], map["foo" := Num(1), "bar" := Num(2)]);
    assert JoinFrom(tasks, [Name("foo")], 2, 1, half) == Completed(Null, [full]) by {
      assert SetProperty(half, Name("foo"), Num(1)) == full by {
        assert map["bar" := Num(2)]["foo" := Num(1)] == map["foo" := Num(1), "bar" := Num(2)];
      }
    }
    assert JoinFrom(tasks, [Name("bar"), Name("foo")], 2, 0, Obj([], map[])) == JoinFrom(tasks, [Name("foo")], 2, 1, half) by {
      assert [Name("bar"), Name("foo")][1..] == [Name("foo")];
      assert SetProperty(Obj([], map[]), Name("bar"), Num(2)) == half;
    }
  }

  /** `Chain.parallel({ foo: t1, bar: t2 })` where `bar` finishes first: the
      results hold `foo: 1` and `bar: 2`, listed in the order they arrived. */
  method ParallelObjectExample() returns (delivered: Completion)
    ensures delivered == Completed(Null, [Obj(["bar", "foo"], map["foo" := Num(1), "bar" := Num(2)])])
  {
    var c := StaticParallel(FooBar());
    NestedParallel(FooBar(), SecondFirst);
    FooBarJoin();
    delivered := c.End(true, SecondFirst);
  }

  /** The worker of the `each` example: `next(null, key + '/' + val)`. */
  function Slash(k: Key, v: Value): Completion
  {
    if k.Name? && v.Str? then Completed(Null, [Str(k.name + "/" + v.s)]) else Pending
  }

  /** The object of the `each` example. */
  function FooHoge(): Value
  {
    Obj(["foo", "hoge"], map["foo" := Str("bar"), "hoge" := Str("fuga")])
  }

  /** The `each` example's iteration visits `foo` and then `hoge`. */
  lemma FooHogeIteration()
    ensures Iterate(Slash, FooHoge()) == Completed(Null, [Obj(["foo", "hoge"], map["foo" := Str("foo/bar"), "hoge" := Str("hoge/fuga")])])
  {
    var obj := FooHoge();
    var full := Obj(["foo", "hoge"], map["foo" := Str("foo/bar"), "hoge" := Str("hoge/fuga")]);
    var es := Entries(obj);
    var half := Obj(["foo"], map["foo" := Str("foo/bar")]);
    assert es[0] == Entry(Name("foo"), Str("bar")) && es[1] == Entry(Name("hoge"), Str("fuga"));
    assert IterateFrom(Slash, es[1..], false, half) == Completed(Null, [full]) by {
      assert Slash(Name("hoge"), Str("fuga")) == Completed(Null, [Str("hoge/fuga")]) by {
        assert "hoge" + "/" + "fuga" == "hoge/fuga";
      }
      assert Store(half, false, es[1].key, Str("hoge/fuga")) == full by {
        assert map["foo" := Str("foo/bar")]["hoge" := Str("hoge/fuga")] == map["foo" := Str("foo/bar"), "hoge" := Str("hoge/fuga")];
      }
      assert es[1..][1..] == [];
    }
    assert IterateFrom(Slash, es, false, Obj([], map[])) == IterateFrom(Slash, es[1..], false, half) by {
      assert Slash(Name("foo"), Str("bar")) == Completed(Null, [Str("foo/bar")]) by {
        assert "foo" + "/" + "bar" == "foo/bar";
      }
      assert Store(Obj([], map[]), false, es[0].key, Str("foo/bar")) == half by {
        assert [] + ["foo"] == ["foo"];
      }
    }
  }

  /** `Chain.each({ foo: 'bar', hoge: 'fuga' }, fn)`: each result sits under its key. */
  method EachExample(sched: Schedule) returns (delivered: Completion)
    ensures delivered == Completed(Null, [Obj(["foo", "hoge"], map["foo" := Str("foo/bar"), "hoge" := Str("hoge/fuga")])])
  {
    var c := StaticEach(FooHoge(), Slash);
    var stack := c.stack;
    PassesOn(stack, [], sched);
    assert stack[1..][1..] == [];
    FooHogeIteration();
    delivered := c.End(true, sched);
  }
}
