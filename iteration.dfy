/** The iterators. `forEach` and `each` run the worker over a collection's items one
    after the other, collecting every result and stopping at the first error;
    `forEachParallel` and `eachParallel` turn the items into a container of tasks of
    the collection's shape and hand it to a nested `parallel`. */
module Iteration {
  import opened Values
  import opened Callbacks

  /** A key of `Object.keys(coll)` together with `coll[key]`. */
  datatype Entry = Entry(key: Key, val: Value)

  /** The entries `Object.keys` enumerates: an array's positions, an object's own
      properties in key order; other values enumerate as having none. */
  function Entries(coll: Value): (es: seq<Entry>)
    ensures coll.Arr? ==> |es| == |coll.items| && forall i :: 0 <= i < |es| ==> es[i] == Entry(Index(i), coll.items[i])
    ensures coll.Obj? ==> |es| == |coll.keys| && forall i :: 0 <= i < |es| ==> es[i] == Entry(Name(coll.keys[i]), Get(coll.fields, coll.keys[i]))
    ensures !coll.Arr? && !coll.Obj? ==> es == []
  {
    match coll
    case Arr(items) => seq(|items|, i requires 0 <= i < |items| => Entry(Index(i), items[i]))
    case Obj(keys, fields) => seq(|keys|, i requires 0 <= i < |keys| => Entry(Name(keys[i]), Get(fields, keys[i])))
    case _ => []
  }

  /** The result container the iterators start from: `Array.isArray(obj) ? [] : {}`. */
  function EmptyLike(coll: Value): Value
  {
    if coll.Arr? then Arr([]) else Obj([], map[])
  }

  /** `isArray ? results.push(result) : results[key] = result`. */
  function Store(results: Value, isArray: bool, key: Key, result: Value): (r: Value)
    ensures isArray && results.Arr? ==> r == Arr(results.items + [result])
    ensures !isArray ==> r == SetProperty(results, key, result)
  {
    if isArray then (if results.Arr? then Arr(results.items + [result]) else results)
    else SetProperty(results, key, result)
  }

  /** The sequential iteration over `es` with `results` gathered so far: each worker's
      result is stored before its error is looked at; a truthy error ends the
      iteration with that error and the results so far, a worker that never calls
      back stalls it, and running out of entries completes it with `(null, results)`. */
  function IterateFrom(w: KeyedWorker, es: seq<Entry>, isArray: bool, results: Value): (c: Completion)
    ensures c.Completed? ==> |c.vals| == 1 && (c.err == Null || Truthy(c.err))
    decreases |es|
  {
    if es == [] then Completed(Null, [results])
    else
      match w(es[0].key, es[0].val)
      case Pending => Pending
      case Completed(e, vs) =>
        var r := Store(results, isArray, es[0].key, First(vs));
        if Truthy(e) then Completed(e, [r]) else IterateFrom(w, es[1..], isArray, r)
  }

  /** What the step of `each(fn)` completes with when it receives `coll`. */
  function Iterate(w: KeyedWorker, coll: Value): (c: Completion)
    ensures c.Completed? ==> |c.vals| == 1 && (c.err == Null || Truthy(c.err))
  {
    IterateFrom(w, Entries(coll), coll.Arr?, EmptyLike(coll))
  }

  /** `forEach` calls its worker as `fn(val, cb)`: the key is not passed. */
  function Keyless(w: Worker): KeyedWorker
  {
    (k, v) => w(v)
  }

  /** The body of an iterator step: the nested chain of one step per item, run to
      its end, as a loop over the entries. */
  method RunIteration(w: KeyedWorker, coll: Value) returns (c: Completion)
    ensures c == Iterate(w, coll)
  {
    var es := Entries(coll);
    var isArray := coll.Arr?;
    var results := EmptyLike(coll);
    var i := 0;
    while i < |es|
      invariant 0 <= i <= |es|
      invariant Iterate(w, coll) == IterateFrom(w, es[i..], isArray, results)
    {
      var done := w(es[i].key, es[i].val);
      if done.Pending? {
        return Pending;
      }
      results := Store(results, isArray, es[i].key, First(done.vals));
      if Truthy(done.err) {
        return Completed(done.err, [results]);
      }
      i := i + 1;
    }
    c := Completed(Null, [results]);
  }

  /** The results of the workers over `es`, in order. */
  function Replies(w: KeyedWorker, es: seq<Entry>): (r: seq<Value>)
    ensures |r| == |es|
    decreases |es|
  {
    if es == [] then [] else [Reply(w(es[0].key, es[0].val))] + Replies(w, es[1..])
  }

  /** Position `i` of the results holds the result of the worker on entry `i`. */
  lemma {:induction false} RepliesAt(w: KeyedWorker, es: seq<Entry>)
    ensures forall i :: 0 <= i < |es| ==> Replies(w, es)[i] == Reply(w(es[i].key, es[i].val))
    decreases |es|
  {
    if es != [] {
      RepliesAt(w, es[1..]);
      forall i | 0 < i < |es| ensures Replies(w, es)[i] == Reply(w(es[i].key, es[i].val)) {
        assert es[1..][i - 1] == es[i];
      }
    }
  }

  /** The results `each` gathers on an object, as a function of the key. */
  function ReplyAt(w: KeyedWorker, coll: Value): Key -> Value
    requires coll.Obj?
  {
    (k: Key) => if k.Name? then Reply(w(k, Get(coll.fields, k.name))) else Undefined
  }

  /** Sequential iteration over an array where every worker from position `i` on
      succeeds appends their results, in position order, to those gathered so far. */
  lemma {:induction false} IterateArrayFrom(w: KeyedWorker, es: seq<Entry>, acc: seq<Value>)
    requires forall i :: 0 <= i < |es| ==> Succeeded(w(es[i].key, es[i].val))
    ensures IterateFrom(w, es, true, Arr(acc)) == Completed(Null, [Arr(acc + Replies(w, es))])
    decreases |es|
  {
    if es != [] {
      var x := First(w(es[0].key, es[0].val).vals);
      IterateArrayFrom(w, es[1..], acc + [x]);
      assert acc + [x] + Replies(w, es[1..]) == acc + Replies(w, es);
    } else {
      assert acc + Replies(w, es) == acc;
    }
  }

  /** `forEach`/`each` over an array whose workers all succeed complete with
      `(null, results)`, `results[i]` being the result of item `i`. */
  lemma IterateArraySucceeds(w: KeyedWorker, items: seq<Value>)
    requires forall i :: 0 <= i < |items| ==> Succeeded(w(Index(i), items[i]))
    ensures Iterate(w, Arr(items)) == Completed(Null, [Arr(Replies(w, Entries(Arr(items))))])
  {
    var es := Entries(Arr(items));
    IterateArrayFrom(w, es, []);
    assert [] + Replies(w, es) == Replies(w, es);
  }

  /** Sequential iteration over named entries where every worker succeeds assigns
      each result under its name, in entry order. */
  lemma {:induction false} IterateObjectFrom(w: KeyedWorker, coll: Value, es: seq<Entry>, results: Value)
    requires coll.Obj?
    requires forall i :: 0 <= i < |es| ==> es[i].key.Name? && es[i].val == Get(coll.fields, es[i].key.name)
    requires forall i :: 0 <= i < |es| ==> Succeeded(w(es[i].key, es[i].val))
    ensures IterateFrom(w, es, false, results) == Completed(Null, [SetAll(results, KeysOf(es), ReplyAt(w, coll))])
    decreases |es|
  {
    if es != [] {
      var c := w(es[0].key, es[0].val);
      assert Succeeded(c);
      assert KeysOf(es)[0] == es[0].key && KeysOf(es)[1..] == KeysOf(es[1..]);
      IterateObjectFrom(w, coll, es[1..], SetProperty(results, es[0].key, First(c.vals)));
    }
  }

  /** The keys of a run of entries. */
  function KeysOf(es: seq<Entry>): (keys: seq<Key>)
    ensures |keys| == |es| && forall i :: 0 <= i < |es| ==> keys[i] == es[i].key
  {
    seq(|es|, i requires 0 <= i < |es| => es[i].key)
  }

  /** `each` over a plain object whose workers all succeed completes with
      `(null, results)`: an object with the same keys in the same order, holding
      under each key the result of the worker called with that key and its value. */
  lemma IterateObjectSucceeds(w: KeyedWorker, coll: Value)
    requires WellFormedObject(coll)
    requires forall s :: s in coll.keys ==> Succeeded(w(Name(s), coll.fields[s]))
    ensures var c := Iterate(w, coll);
      && c.Completed? && c.err == Null && |c.vals| == 1
      && c.vals[0] == Obj(coll.keys, map s | s in coll.keys :: Reply(w(Name(s), coll.fields[s])))
  {
    var es := Entries(coll);
    forall i | 0 <= i < |es| ensures Succeeded(w(es[i].key, es[i].val)) {
      assert coll.keys[i] in coll.keys;
    }
    IterateObjectFrom(w, coll, es, Obj([], map[]));
    assert KeysOf(es) == Keyed(coll.keys);
    AssignedResults(w, coll, coll.keys);
  }

  /** Sequential iteration over an array stops at the first failing item `j`: the
      step completes with that item's error and the results of items `0 .. j`, the
      failing item's own result included; the workers after it are never called. */
  lemma {:induction false} IterateArrayStopsFrom(w: KeyedWorker, es: seq<Entry>, acc: seq<Value>, j: nat)
    requires j < |es|
    requires forall i :: 0 <= i < j ==> Succeeded(w(es[i].key, es[i].val))
    requires Failed(w(es[j].key, es[j].val))
    ensures IterateFrom(w, es, true, Arr(acc)) == Completed(w(es[j].key, es[j].val).err, [Arr(acc + Replies(w, es[..j + 1]))])
    decreases j
  {
    var c := w(es[0].key, es[0].val);
    if j == 0 {
      assert Replies(w, es[..1]) == [First(c.vals)];
    } else {
      assert Succeeded(c);
      IterateArrayStopsFrom(w, es[1..], acc + [First(c.vals)], j - 1);
      assert es[1..][..j] == es[1..j + 1];
      assert acc + [First(c.vals)] + Replies(w, es[1..j + 1]) == acc + Replies(w, es[..j + 1]);
    }
  }

  /** `forEach`/`each` over an array stops at the first failing item. */
  lemma IterateArrayStops(w: KeyedWorker, items: seq<Value>, j: nat)
    requires j < |items|
    requires forall i :: 0 <= i < j ==> Succeeded(w(Index(i), items[i]))
    requires Failed(w(Index(j), items[j]))
    ensures Iterate(w, Arr(items)) == Completed(w(Index(j), items[j]).err, [Arr(Replies(w, Entries(Arr(items))[..j + 1]))])
  {
    IterateArrayStopsFrom(w, Entries(Arr(items)), [], j);
    assert [] + Replies(w, Entries(Arr(items))[..j + 1]) == Replies(w, Entries(Arr(items))[..j + 1]);
  }

  /** Sequential iteration over named entries stops at the first failing entry `j`:
      the step completes with that worker's error and the results of entries
      `0 .. j`, the failing one's included, each assigned under its name. */
  lemma {:induction false} IterateObjectStopsFrom(w: KeyedWorker, coll: Value, es: seq<Entry>, results: Value, j: nat)
    requires coll.Obj? && j < |es|
    requires forall i :: 0 <= i < |es| ==> es[i].key.Name? && es[i].val == Get(coll.fields, es[i].key.name)
    requires forall i :: 0 <= i < j ==> Succeeded(w(es[i].key, es[i].val))
    requires Failed(w(es[j].key, es[j].val))
    ensures IterateFrom(w, es, false, results) == Completed(w(es[j].key, es[j].val).err, [SetAll(results, KeysOf(es[..j + 1]), ReplyAt(w, coll))])
    decreases j
  {
    var c := w(es[0].key, es[0].val);
    var r := SetProperty(results, es[0].key, First(c.vals));
    var keys := KeysOf(es[..j + 1]);
    assert keys[0] == es[0].key;
    if j == 0 {
      assert keys[1..] == [];
    } else {
      assert Succeeded(c);
      assert keys[1..] == KeysOf(es[1..][..j]);
      IterateObjectStopsFrom(w, coll, es[1..], r, j - 1);
    }
  }

  /** `each` over a plain object stops at the first failing key, the `j`-th: the
      step completes with that worker's error and an object holding the keys up to
      and including the failing one, in key order, each with its worker's result. */
  lemma IterateObjectStops(w: KeyedWorker, coll: Value, j: nat)
    requires WellFormedObject(coll) && j < |coll.keys|
    requires forall i :: 0 <= i < j ==> Succeeded(w(Name(coll.keys[i]), coll.fields[coll.keys[i]]))
    requires Failed(w(Name(coll.keys[j]), coll.fields[coll.keys[j]]))
    ensures var c := Iterate(w, coll); var done := coll.keys[..j + 1];
      && c.Completed? && c.err == w(Name(coll.keys[j]), coll.fields[coll.keys[j]]).err && |c.vals| == 1
      && c.vals[0] == Obj(done, map s | s in done :: Reply(w(Name(s), coll.fields[s])))
  {
    var es := Entries(coll);
    var done := coll.keys[..j + 1];
    assert es[j] == Entry(Name(coll.keys[j]), coll.fields[coll.keys[j]]) by {
      assert coll.keys[j] in coll.keys;
    }
    forall i | 0 <= i < j ensures Succeeded(w(es[i].key, es[i].val)) {
      assert coll.keys[i] in coll.keys;
    }
    IterateObjectStopsFrom(w, coll, es, Obj([], map[]), j);
    assert KeysOf(es[..j + 1]) == Keyed(done);
    forall s | s in done ensures s in coll.fields {
      assert s in coll.keys;
    }
    AssignedResults(w, coll, done);
  }

  /** Assigning each worker's result under distinct names of an object, starting
      from `{}`, gives an object with those names in that order, each holding the
      result of the worker called with that name and its value. */
  lemma AssignedResults(w: KeyedWorker, coll: Value, names: seq<string>)
    requires coll.Obj? && Distinct(names)
    requires forall s :: s in names ==> s in coll.fields
    ensures SetAll(Obj([], map[]), Keyed(names), ReplyAt(w, coll)) == Obj(names, map s | s in names :: Reply(w(Name(s), coll.fields[s])))
  {
    SetAllOnObject([], map[], names, ReplyAt(w, coll));
    var r := SetAll(Obj([], map[]), Keyed(names), ReplyAt(w, coll));
    forall s | s in names ensures r.fields[s] == Reply(w(Name(s), coll.fields[s])) {
      assert r.fields[s] == ReplyAt(w, coll)(Name(s));
      assert ReplyAt(w, coll)(Name(s)) == Reply(w(Name(s), Get(coll.fields, s)));
    }
    assert r.fields == map s | s in names :: Reply(w(Name(s), coll.fields[s]));
    assert [] + names == names;
  }

  /** Sequential iteration over any collection: an item whose worker never calls
      back, reached with no failure before it, stalls the step for good. */
  lemma {:induction false} IterateStallsFrom(w: KeyedWorker, es: seq<Entry>, isArray: bool, results: Value, j: nat)
    requires j < |es|
    requires forall i :: 0 <= i < j ==> Succeeded(w(es[i].key, es[i].val))
    requires w(es[j].key, es[j].val).Pending?
    ensures IterateFrom(w, es, isArray, results) == Pending
    decreases j
  {
    if j > 0 {
      var c := w(es[0].key, es[0].val);
      assert Succeeded(c);
      IterateStallsFrom(w, es[1..], isArray, Store(results, isArray, es[0].key, First(c.vals)), j - 1);
    }
  }

  /** Sequential iteration with nothing to iterate completes at once with the empty
      container of the collection's kind. */
  lemma IterateEmpty(w: KeyedWorker, coll: Value)
    requires Entries(coll) == []
    ensures Iterate(w, coll) == Completed(Null, [EmptyLike(coll)])
  {
  }

  /** What an item's task passes on to the joiner: `_next(err, result)`. */
  function Relay(c: Completion): (r: Completion)
    ensures c.Pending? <==> r.Pending?
    ensures c.Completed? ==> r == Completed(c.err, [Reply(c)])
  {
    match c
    case Pending => Pending
    case Completed(e, vs) => Completed(e, [First(vs)])
  }

  /** The task made for one entry: call the worker with the key and value. */
  function TaskFor(w: KeyedWorker, e: Entry): Task
  {
    () => Relay(w(e.key, e.val))
  }

  /** The task container of `eachParallel`: an array of tasks for an array, an
      object of tasks under the same keys for anything else. */
  function BuildTasks(w: KeyedWorker, coll: Value): (tasks: Tasks)
    ensures coll.Arr? <==> tasks.TaskArray?
  {
    match coll
    case Arr(items) => TaskArray(seq(|items|, i requires 0 <= i < |items| => TaskFor(w, Entry(Index(i), items[i]))))
    case Obj(keys, fields) => TaskObject(keys, map s | s in keys :: TaskFor(w, Entry(Name(s), Get(fields, s))))
    case _ => TaskObject([], map[])
  }

  /** The task container has one task per entry, under the entry's key and in the
      collection's order, and each task calls the worker with that entry. */
  lemma BuildTasksShape(w: KeyedWorker, coll: Value)
    ensures TaskKeys(BuildTasks(w, coll)) == KeysOf(Entries(coll))
    ensures forall e :: e in Entries(coll) ==> TaskAt(BuildTasks(w, coll), e.key)() == Relay(w(e.key, e.val))
    ensures !coll.Obj? || Distinct(coll.keys) ==> WellFormedTasks(BuildTasks(w, coll))
  {
    var es := Entries(coll);
    var tasks := BuildTasks(w, coll);
    forall e | e in es ensures TaskAt(tasks, e.key)() == Relay(w(e.key, e.val)) {
      var i :| 0 <= i < |es| && es[i] == e;
    }
  }
}
