/** The instance cursor of lib/instance.js: a frozen record of a root instance, a JSON
    Pointer into it and the value found there, with combinators that visit children. */
module Instance {
  import opened Base
  import JsonPointer

  /** `value` is `None` where the engine holds `undefined`. */
  datatype Instance = Instance(id: string, pointer: string, root: Option<Json>, value: Option<Json>)

  const Nil := Instance("", "", None, None)

  /** `cons(instance, id = "")`: the cursor at the root of `i`. */
  function Cons(i: Json, id: string := ""): (r: Instance)
    ensures r.pointer == JsonPointer.Nil && r.id == id
    ensures Value(r) == Some(i) && Consistent(r)
  {
    Instance(id, JsonPointer.Nil, Some(i), Some(i))
  }

  /** The cursor's value is what its pointer denotes in its root. Every cursor built
      from `Cons` by `Step` keeps this. */
  ghost predicate Consistent(doc: Instance) {
    JsonPointer.Segments(doc.pointer).Some? &&
    doc.value == (match doc.root case Some(r) => JsonPointer.Get(doc.pointer, r) case None => None)
  }

  /** `uri(doc)`: the id, `#`, then the pointer (URI encoding is the identity here). */
  function Uri(doc: Instance): (u: string)
    ensures |u| == |doc.id| + 1 + |doc.pointer|
    ensures u[..|doc.id|] == doc.id && u[|doc.id|] == '#' && u[|doc.id| + 1..] == doc.pointer
  {
    doc.id + "#" + doc.pointer
  }

  /** `value(doc)`: the value under the cursor. */
  function Value(doc: Instance): Option<Json> {
    doc.value
  }

  /** `value(doc)` exactly as written: it unwraps `doc.value[internalValue]`, but the
      helper module does not export `internalValue`, so the key read is the property
      named "undefined". */
  function ValueAsWritten(doc: Instance): Option<Json> {
    match doc.value
    case Some(JObj(props)) =>
      (match Lookup(props, "undefined")
       case Some(inner) => if Truthy(inner) then Some(inner) else doc.value
       case None => doc.value)
    case _ => doc.value
  }

  /** An instance that happens to have a truthy "undefined" property is replaced by
      that property's value. */
  lemma ValueAsWrittenUnwrapsUndefinedKey()
    ensures ValueAsWritten(Cons(JObj([("undefined", JNum(1))]))) == Some(JNum(1))
    ensures ValueAsWritten(Cons(JObj([("undefined", JNum(1))]))) != Some(JObj([("undefined", JNum(1))]))
  {
    assert Lookup([("undefined", JNum(1))], "undefined") == Some(JNum(1));
  }

  /** Whatever the root instance, its cursor's value is that instance. */
  lemma ValueOfCons(i: Json, id: string)
    ensures Value(Cons(i, id)) == Some(i)
    ensures Uri(Cons(i, id)) == id + "#"
  {
  }

  /** The child of a possibly undefined value. */
  function ChildOf(v: Option<Json>, key: string): Option<Json> {
    match v case Some(j) => JsonPointer.Child(j, key) case None => None
  }

  /** `step(key, doc)`: one segment further down; id and root are kept. */
  function Step(key: string, doc: Instance): (r: Instance)
    ensures r.id == doc.id && r.root == doc.root
    ensures r.pointer == JsonPointer.Append(key, doc.pointer) && Value(r) == ChildOf(Value(doc), key)
  {
    Instance(doc.id, JsonPointer.Append(key, doc.pointer), doc.root, ChildOf(doc.value, key))
  }

  /** Stepping keeps a cursor consistent with its root: the new value is what the
      extended pointer denotes. */
  lemma StepConsistent(key: string, doc: Instance)
    requires Consistent(doc)
    ensures Consistent(Step(key, doc))
    ensures JsonPointer.Segments(Step(key, doc).pointer) == Some(JsonPointer.Segments(doc.pointer).value + [key])
  {
    JsonPointer.SegmentsAppend(key, doc.pointer);
    if doc.root.Some? {
      JsonPointer.GetAppend(key, doc.pointer, doc.root.value);
    }
  }

  /** The step to array item `i`. */
  function StepIndex(i: nat, doc: Instance): Instance {
    Step(JsonPointer.NatToString(i), doc)
  }

  /** Stepping to an index of an array yields that item. */
  lemma StepIndexValue(i: nat, doc: Instance)
    requires doc.value.Some? && doc.value.value.JArr? && i < |doc.value.value.items|
    ensures Value(StepIndex(i, doc)) == Some(doc.value.value.items[i])
  {
    JsonPointer.NatToStringRoundTrip(i);
  }

  /** `Object.keys(value(doc))`: an object's keys in order, an array's indices in
      order; other values have none here. */
  function ObjectKeys(v: Option<Json>): (ks: seq<string>)
    ensures v.Some? && v.value.JObj? ==> ks == Keys(v.value.props)
    ensures v.Some? && v.value.JArr? ==> |ks| == |v.value.items|
    ensures v.Some? && v.value.JArr? ==> forall i :: 0 <= i < |ks| ==> ks[i] == JsonPointer.NatToString(i)
    ensures !(v.Some? && (v.value.JObj? || v.value.JArr?)) ==> ks == []
  {
    match v
    case Some(JObj(props)) => Keys(props)
    case Some(JArr(items)) => seq(|items|, i requires 0 <= i < |items| => JsonPointer.NatToString(i))
    case _ => []
  }

  /** `entries(doc)`: one `(key, step(key))` pair per key, in key order. */
  function Entries(doc: Instance): (r: seq<(string, Instance)>)
    ensures |r| == |ObjectKeys(Value(doc))|
    ensures forall i :: 0 <= i < |r| ==> r[i].0 == ObjectKeys(Value(doc))[i]
    ensures forall i :: 0 <= i < |r| ==> r[i].1.pointer == JsonPointer.Append(r[i].0, doc.pointer)
    ensures forall i :: 0 <= i < |r| ==> Value(r[i].1) == ChildOf(Value(doc), r[i].0)
    ensures forall i :: 0 <= i < |r| ==> r[i].1 == Step(r[i].0, doc) && r[i].1.id == doc.id && r[i].1.root == doc.root
  {
    var ks := ObjectKeys(Value(doc));
    seq(|ks|, i requires 0 <= i < |ks| => (ks[i], Step(ks[i], doc)))
  }

  /** `map(fn, doc)`: `fn(step(ndx), ndx)` for each array item; `None` when the value
      is not an array (the engine throws a TypeError there). */
  function Map<T>(fn: (Instance, nat) -> T, doc: Instance): (r: Option<seq<T>>)
    ensures r.Some? <==> (Value(doc).Some? && Value(doc).value.JArr?)
    ensures r.Some? ==> |r.value| == |Value(doc).value.items|
    ensures r.Some? ==> forall i :: 0 <= i < |r.value| ==> r.value[i] == fn(StepIndex(i, doc), i)
  {
    match Value(doc)
    case Some(JArr(items)) => Some(seq(|items|, i requires 0 <= i < |items| => fn(StepIndex(i, doc), i)))
    case _ => None
  }

  /** The cursors of items `from ..` of an array, kept when `fn` accepts them. */
  function FilterFrom(fn: (Instance, nat) -> bool, doc: Instance, from: nat, n: nat): (r: seq<Instance>)
    requires from <= n
    decreases n - from
    ensures |r| <= n - from
  {
    if from == n then []
    else
      var rest := FilterFrom(fn, doc, from + 1, n);
      if fn(StepIndex(from, doc), from) then [StepIndex(from, doc)] + rest else rest
  }

  /** The filtered range holds exactly the cursors `fn` accepts. */
  lemma {:induction false} FilterFromMembers(fn: (Instance, nat) -> bool, doc: Instance, from: nat, n: nat)
    requires from <= n
    decreases n - from
    ensures forall x :: x in FilterFrom(fn, doc, from, n) ==> exists i :: from <= i < n && x == StepIndex(i, doc) && fn(x, i)
    ensures forall i :: from <= i < n && fn(StepIndex(i, doc), i) ==> StepIndex(i, doc) in FilterFrom(fn, doc, from, n)
  {
    if from < n {
      FilterFromMembers(fn, doc, from + 1, n);
    }
  }

  /** Filtering a range of items is filtering its two halves, one after the other: the
      kept cursors stay in index order. */
  lemma {:induction false} FilterFromSplit(fn: (Instance, nat) -> bool, doc: Instance, a: nat, b: nat, c: nat)
    requires a <= b <= c
    decreases b - a
    ensures FilterFrom(fn, doc, a, c) == FilterFrom(fn, doc, a, b) + FilterFrom(fn, doc, b, c)
  {
    if a < b {
      FilterFromSplit(fn, doc, a + 1, b, c);
    }
  }

  /** One item is kept exactly when `fn` accepts it. */
  lemma FilterFromOne(fn: (Instance, nat) -> bool, doc: Instance, i: nat)
    ensures FilterFrom(fn, doc, i, i + 1) == if fn(StepIndex(i, doc), i) then [StepIndex(i, doc)] else []
  {
  }

  /** `filter(fn, doc)`: the item cursors `fn` accepts, in index order. */
  function Filter(fn: (Instance, nat) -> bool, doc: Instance): (r: Option<seq<Instance>>)
    ensures r.Some? <==> (Value(doc).Some? && Value(doc).value.JArr?)
    ensures r.Some? ==> r.value == FilterFrom(fn, doc, 0, |Value(doc).value.items|)
    ensures r.Some? ==> forall i :: 0 <= i < |Value(doc).value.items| && fn(StepIndex(i, doc), i) ==> StepIndex(i, doc) in r.value
    ensures r.Some? ==> forall x :: x in r.value ==>
      exists i :: 0 <= i < |Value(doc).value.items| && x == StepIndex(i, doc) && fn(x, i)
  {
    match Value(doc)
    case Some(JArr(items)) => FilterFromMembers(fn, doc, 0, |items|); Some(FilterFrom(fn, doc, 0, |items|))
    case _ => None
  }

  /** Left fold of `fn` over the first `n` item cursors. */
  function FoldItems<A>(fn: (A, Instance, nat) -> A, acc: A, doc: Instance, n: nat): A {
    if n == 0 then acc else fn(FoldItems(fn, acc, doc, n - 1), StepIndex(n - 1, doc), n - 1)
  }

  /** The fold as `Array.prototype.reduce` runs it: from index `i` up to `n`, one item
      at a time. */
  function FoldFrom<A>(fn: (A, Instance, nat) -> A, acc: A, doc: Instance, i: nat, n: nat): A
    requires i <= n
    decreases n - i
  {
    if i == n then acc else FoldFrom(fn, fn(acc, StepIndex(i, doc), i), doc, i + 1, n)
  }

  /** Folding the first `i` items and then running on from `i` folds the first `n`. */
  lemma {:induction false} FoldFromItems<A>(fn: (A, Instance, nat) -> A, acc: A, doc: Instance, i: nat, n: nat)
    requires i <= n
    decreases n - i
    ensures FoldFrom(fn, FoldItems(fn, acc, doc, i), doc, i, n) == FoldItems(fn, acc, doc, n)
  {
    if i < n {
      assert FoldItems(fn, acc, doc, i + 1) == fn(FoldItems(fn, acc, doc, i), StepIndex(i, doc), i);
      FoldFromItems(fn, acc, doc, i + 1, n);
    }
  }

  /** `reduce(fn, acc, doc)`: `fn` over the item cursors in index order, starting from
      item 0 with `acc`. */
  function Reduce<A>(fn: (A, Instance, nat) -> A, acc: A, doc: Instance): (r: Option<A>)
    ensures r.Some? <==> (Value(doc).Some? && Value(doc).value.JArr?)
    ensures r.Some? ==> r.value == FoldFrom(fn, acc, doc, 0, |Value(doc).value.items|)
    ensures r.Some? && |Value(doc).value.items| == 0 ==> r.value == acc
    ensures r.Some? && |Value(doc).value.items| == 1 ==> r.value == fn(acc, StepIndex(0, doc), 0)
  {
    match Value(doc)
    case Some(JArr(items)) =>
      assert FoldItems(fn, acc, doc, 0) == acc;
      FoldFromItems(fn, acc, doc, 0, |items|);
      Some(FoldItems(fn, acc, doc, |items|))
    case _ => None
  }

  /** Reducing one more item applies `fn` to the fold of the items before it. */
  lemma ReduceSnoc<A>(fn: (A, Instance, nat) -> A, acc: A, doc: Instance, n: nat)
    ensures FoldFrom(fn, acc, doc, 0, n + 1) == fn(FoldFrom(fn, acc, doc, 0, n), StepIndex(n, doc), n)
  {
    FoldFromItems(fn, acc, doc, 0, n + 1);
    FoldFromItems(fn, acc, doc, 0, n);
  }

  /** Whether `fn` holds of the cursors of all keys from `from` on. */
  function EveryFrom(fn: (Instance, nat) -> bool, doc: Instance, keys: seq<string>, from: nat): (b: bool)
    requires from <= |keys|
    decreases |keys| - from
    ensures b <==> forall i :: from <= i < |keys| ==> fn(Step(keys[i], doc), i)
  {
    from == |keys| || (fn(Step(keys[from], doc), from) && EveryFrom(fn, doc, keys, from + 1))
  }

  function SomeFrom(fn: (Instance, nat) -> bool, doc: Instance, keys: seq<string>, from: nat): (b: bool)
    requires from <= |keys|
    decreases |keys| - from
    ensures b <==> exists i :: from <= i < |keys| && fn(Step(keys[i], doc), i)
  {
    from < |keys| && (fn(Step(keys[from], doc), from) || SomeFrom(fn, doc, keys, from + 1))
  }

  /** `every(fn, doc)`: `fn` holds of the cursor of every key. */
  function Every(fn: (Instance, nat) -> bool, doc: Instance): (b: bool)
    ensures b <==> forall i :: 0 <= i < |ObjectKeys(Value(doc))| ==>
      fn(Step(ObjectKeys(Value(doc))[i], doc), i)
  {
    EveryFrom(fn, doc, ObjectKeys(Value(doc)), 0)
  }

  /** `some(fn, doc)`: `fn` holds of the cursor of some key. */
  function Any(fn: (Instance, nat) -> bool, doc: Instance): (b: bool)
    ensures b <==> (exists i :: 0 <= i < |ObjectKeys(Value(doc))| &&
                             fn(Step(ObjectKeys(Value(doc))[i], doc), i))
  {
    SomeFrom(fn, doc, ObjectKeys(Value(doc)), 0)
  }
}
