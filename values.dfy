/** The JavaScript values that flow between steps, as far as the engine looks at them:
    the truthiness test on the error slot, reading a callback's
    `result` argument, and property assignment on the result containers. */
module Values {

  /** A JavaScript value. Numbers are integers here; `Obj` is a plain object given
      as its own key order plus its properties. */
  datatype Value =
    | Undefined
    | Null
    | Bool(b: bool)
    | Num(n: int)
    | Str(s: string)
    | Arr(items: seq<Value>)
    | Obj(keys: seq<string>, fields: map<string, Value>)

  /** A key as `Object.keys` yields it: the position in an array (standing for its
      decimal string) or the property name of a plain object. */
  datatype Key = Index(pos: nat) | Name(name: string)

  /** JavaScript's truthiness on the values modelled here. */
  predicate Truthy(v: Value)
  {
    match v
    case Undefined => false
    case Null => false
    case Bool(b) => b
    case Num(n) => n != 0
    case Str(s) => s != []
    case Arr(_) => true
    case Obj(_, _) => true
  }

  /** The value a callback declared `function(err, result)` sees as `result`. */
  function First(vals: seq<Value>): (r: Value)
    ensures vals == [] ==> r == Undefined
    ensures vals != [] ==> r == vals[0]
  {
    if vals == [] then Undefined else vals[0]
  }

  /** `obj[k]` on a plain object: a missing property reads as undefined. */
  function Get(fields: map<string, Value>, k: string): Value
  {
    if k in fields then fields[k] else Undefined
  }

  predicate Distinct<T(==)>(s: seq<T>)
  {
    forall i, j :: 0 <= i < j < |s| ==> s[i] != s[j]
  }

  /** A plain object whose key order lists each of its properties exactly once,
      as every object JavaScript produces does. */
  ghost predicate WellFormedObject(v: Value)
  {
    v.Obj? && Distinct(v.keys) && (forall k :: k in v.fields <==> k in v.keys)
  }

  /** The slots an assignment past the end of an array leaves empty; they read as undefined. */
  function Holes(n: nat): (h: seq<Value>)
    ensures |h| == n && forall i :: 0 <= i < n ==> h[i] == Undefined
  {
    seq(n, _ => Undefined)
  }

  /** `container[key] = v` on an array (by position) or a plain object (by name);
      a new property goes to the end of the object's key order. */
  function SetProperty(container: Value, key: Key, v: Value): (r: Value)
    ensures container.Arr? && key.Index? ==>
      && r.Arr?
      && |r.items| == (if key.pos < |container.items| then |container.items| else key.pos + 1)
      && r.items[key.pos] == v
      && forall i :: 0 <= i < |r.items| && i != key.pos ==>
           r.items[i] == if i < |container.items| then container.items[i] else Undefined
    ensures container.Obj? && key.Name? ==>
      && r.Obj?
      && r.fields == container.fields[key.name := v]
      && r.keys == if key.name in container.fields then container.keys else container.keys + [key.name]
  {
    match (container, key)
    case (Arr(items), Index(i)) =>
      if i < |items| then Arr(items[i := v]) else Arr(items + Holes(i - |items|) + [v])
    case (Obj(ks, fs), Name(s)) =>
      Obj(if s in fs then ks else ks + [s], fs[s := v])
    case _ => container
  }

  /** The container after `container[k] = f(k)` for each key of `order`, in that order. */
  function SetAll(container: Value, order: seq<Key>, f: Key -> Value): Value
    decreases |order|
  {
    if order == [] then container
    else SetAll(SetProperty(container, order[0], f(order[0])), order[1..], f)
  }

  /** The property names of a sequence of object keys. */
  function Names(order: seq<Key>): (names: seq<string>)
    requires forall k :: k in order ==> k.Name?
    ensures |names| == |order| && forall i :: 0 <= i < |order| ==> names[i] == order[i].name
  {
    seq(|order|, i requires 0 <= i < |order| => order[i].name)
  }

  /** The array of `f` at positions `0 .. n - 1`. */
  function Filled(n: nat, f: Key -> Value): (r: seq<Value>)
    ensures |r| == n && forall i :: 0 <= i < n ==> r[i] == f(Index(i))
  {
    seq(n, i requires 0 <= i < n => f(Index(i)))
  }

  /** An array in which exactly the positions in `placed` have been assigned `f`;
      the others are holes, and the last slot is an assigned one. */
  ghost predicate PartlyFilled(items: seq<Value>, placed: set<nat>, f: Key -> Value)
  {
    && (forall i :: 0 <= i < |items| ==> items[i] == if i in placed then f(Index(i)) else Undefined)
    && (forall i :: i in placed ==> i < |items|)
    && (|items| > 0 ==> |items| - 1 in placed)
  }

  /** Assigning positions to an array, in any order and even repeatedly, leaves
      each assigned position holding its value and every other position a hole. */
  lemma {:induction false} SetAllOnArray(items: seq<Value>, placed: set<nat>, order: seq<Key>, f: Key -> Value)
    requires PartlyFilled(items, placed, f)
    requires forall k :: k in order ==> k.Index?
    ensures SetAll(Arr(items), order, f).Arr?
    ensures PartlyFilled(SetAll(Arr(items), order, f).items, placed + (set k | k in order :: k.pos), f)
    decreases |order|
  {
    if order != [] {
      var k := order[0];
      PlaceOne(items, placed, k, f);
      var next := SetProperty(Arr(items), k, f(k));
      assert forall x :: x in order[1..] ==> x in order;
      SetAllOnArray(next.items, placed + {k.pos}, order[1..], f);
      PlaceRest(items, placed, order, f);
    }
  }

  /** The step of SetAllOnArray: what assigning the rest of the keys after the
      first gives is what assigning them all gives. */
  lemma {:induction false} PlaceRest(items: seq<Value>, placed: set<nat>, order: seq<Key>, f: Key -> Value)
    requires order != [] && forall k :: k in order ==> k.Index?
    requires var next := SetProperty(Arr(items), order[0], f(order[0]));
      && next.Arr?
      && SetAll(Arr(next.items), order[1..], f).Arr?
      && PartlyFilled(SetAll(Arr(next.items), order[1..], f).items, placed + {order[0].pos} + (set k | k in order[1..] :: k.pos), f)
    ensures SetAll(Arr(items), order, f).Arr?
    ensures PartlyFilled(SetAll(Arr(items), order, f).items, placed + (set k | k in order :: k.pos), f)
  {
    var next := SetProperty(Arr(items), order[0], f(order[0]));
    assert Arr(next.items) == next;
    PositionsCons(order);
    assert placed + {order[0].pos} + (set k | k in order[1..] :: k.pos) == placed + (set k | k in order :: k.pos);
  }

  /** The positions a nonempty sequence of array keys names: its first key's and the rest's. */
  lemma PositionsCons(order: seq<Key>)
    requires order != [] && forall k :: k in order ==> k.Index?
    ensures (set k | k in order :: k.pos) == {order[0].pos} + (set k | k in order[1..] :: k.pos)
  {
    assert order == [order[0]] + order[1..];
  }

  /** Assigning one more position keeps the array partly filled, that position
      now among the assigned ones. */
  lemma PlaceOne(items: seq<Value>, placed: set<nat>, k: Key, f: Key -> Value)
    requires PartlyFilled(items, placed, f) && k.Index?
    ensures SetProperty(Arr(items), k, f(k)).Arr?
    ensures PartlyFilled(SetProperty(Arr(items), k, f(k)).items, placed + {k.pos}, f)
  {
  }

  /** Assigning every position below `n` to an empty array, in whatever order,
      yields the array of the `n` values in position order. */
  lemma FillArray(order: seq<Key>, n: nat, f: Key -> Value)
    requires forall k :: k in order ==> k.Index? && k.pos < n
    requires forall i :: 0 <= i < n ==> Index(i) in order
    ensures SetAll(Arr([]), order, f) == Arr(Filled(n, f))
  {
    SetAllOnArray([], {}, order, f);
    var r := SetAll(Arr([]), order, f).items;
    var placed := {} + (set k | k in order :: k.pos);
    assert forall i :: 0 <= i < n ==> i in placed by {
      forall i | 0 <= i < n ensures i in placed {
        assert Index(i) in order;
      }
    }
    assert n > 0 ==> n - 1 in placed;
  }

  /** The object keys naming `names`, in order. */
  function Keyed(names: seq<string>): (order: seq<Key>)
    ensures |order| == |names| && forall i :: 0 <= i < |names| ==> order[i] == Name(names[i])
  {
    seq(|names|, i requires 0 <= i < |names| => Name(names[i]))
  }

  lemma KeyedNames(order: seq<Key>)
    requires forall k :: k in order ==> k.Name?
    ensures Keyed(Names(order)) == order
  {
    var r := Keyed(Names(order));
    assert |r| == |order|;
    forall i | 0 <= i < |order| ensures r[i] == order[i] {
      assert order[i] in order;
    }
  }

  /** Assigning new, distinct names to an object appends them to its key order in
      assignment order and adds their properties, leaving the others as they were. */
  lemma {:induction false} SetAllOnObject(ks: seq<string>, fs: map<string, Value>, names: seq<string>, f: Key -> Value)
    requires Distinct(names) && forall n :: n in names ==> n !in fs
    ensures var r := SetAll(Obj(ks, fs), Keyed(names), f);
      && r.Obj?
      && r.keys == ks + names
      && (forall m :: m in r.fields <==> m in fs || m in names)
      && (forall m :: m in names ==> r.fields[m] == f(Name(m)))
      && (forall m :: m in fs ==> r.fields[m] == fs[m])
    decreases |names|
  {
    if names != [] {
      var n, rest := names[0], names[1..];
      var fs' := fs[n := f(Name(n))];
      assert Keyed(names)[0] == Name(n) && Keyed(names)[1..] == Keyed(rest);
      assert SetProperty(Obj(ks, fs), Name(n), f(Name(n))) == Obj(ks + [n], fs');
      assert Distinct(rest) && forall m :: m in rest ==> m !in fs' by {
        forall m | m in rest ensures m !in fs' {
          var j :| 0 <= j < |rest| && rest[j] == m;
          assert names[j + 1] == m;
        }
      }
      SetAllOnObject(ks + [n], fs', rest, f);
      ConsKeys(ks, names);
    }
  }

  lemma ConsKeys(ks: seq<string>, names: seq<string>)
    requires names != []
    ensures ks + [names[0]] + names[1..] == ks + names
  {
    assert names == [names[0]] + names[1..];
  }
}
