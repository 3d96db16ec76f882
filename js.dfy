/**
 * The JavaScript values the preview sandbox script works with: primitives,
 * arrays, plain objects (own enumerable entries in insertion order),
 * functions, `React.forwardRef` component objects and React elements.
 *
 * Objects are entry sequences; `Get` reads the value a JavaScript object
 * would hold for a key (the last definition wins, as in an object literal),
 * `Put` is one property assignment and `Spread` is `{ ...a, ...b }`.
 */
module Js {
  import opened Text

  /** What a `React.forwardRef(...)` call in the sandbox produced. */
  datatype RefKind =
    | IconComponent(displayName: string)   // `createIcon(displayName)`
    | PrimitiveComponent(tag: string)      // `createPrimitive(tag)`
    | SlotComponent                        // `Slot`
    | FallbackButtonComponent              // `FallbackButton`
    | UserRef(id: string)                  // a forwardRef declared by the previewed code

  /** The type of a React element: a host tag or a component value. */
  datatype Kind = Tag(name: string) | Component(c: Value)

  /** One own property of an object: its key and its value. */
  datatype Entry = Entry(key: string, value: Value)

  datatype Value =
    | Undefined
    | Null
    | Bool(b: bool)
    | Num(n: int)
    | Str(s: string)
    | Arr(items: seq<Value>)
    | Obj(entries: seq<Entry>)
    | Fn(id: string)                       // a plain function: `typeof` gives 'function'
    | ForwardRef(ref: RefKind)             // a forwardRef object: `typeof` gives 'object'
    | Element(kind: Kind, props: seq<Entry>, elementRef: Value)

  /** `Boolean(v)`. */
  predicate Truthy(v: Value) {
    match v
    case Undefined => false
    case Null => false
    case Bool(b) => b
    case Num(n) => n != 0
    case Str(s) => s != []
    case _ => true
  }

  /** `v == null`: undefined or null. */
  predicate Nullish(v: Value) {
    v.Undefined? || v.Null?
  }

  /** `a || b`. */
  function Or(a: Value, b: Value): (r: Value)
    ensures Truthy(r) <==> Truthy(a) || Truthy(b)
  {
    if Truthy(a) then a else b
  }

  /** `a ?? b`. */
  function Coalesce(a: Value, b: Value): Value {
    if Nullish(a) then b else a
  }

  /** `typeof v === 'function'`: only plain functions; forwardRef components are objects. */
  predicate IsFunction(v: Value) {
    v.Fn?
  }

  /**
   * `a === b`. Primitives compare by value, functions and forwardRef objects
   * by which one they are; arrays, plain objects and elements are taken to be
   * distinct objects.
   */
  predicate StrictEq(a: Value, b: Value) {
    match a
    case Undefined => b.Undefined?
    case Null => b.Null?
    case Bool(x) => b.Bool? && b.b == x
    case Num(x) => b.Num? && b.n == x
    case Str(x) => b.Str? && b.s == x
    case Fn(x) => b.Fn? && b.id == x
    case ForwardRef(x) => b.ForwardRef? && b.ref == x
    case _ => false
  }

  /** `xs.includes(v)`. */
  predicate Includes(xs: seq<Value>, v: Value) {
    xs != [] && (StrictEq(xs[0], v) || Includes(xs[1..], v))
  }

  lemma {:induction false} IncludesMeansSome(xs: seq<Value>, v: Value)
    ensures Includes(xs, v) <==> exists i :: 0 <= i < |xs| && StrictEq(xs[i], v)
  {
    if xs != [] {
      IncludesMeansSome(xs[1..], v);
      if Includes(xs[1..], v) {
        var i :| 0 <= i < |xs[1..]| && StrictEq(xs[1..][i], v);
        assert StrictEq(xs[i + 1], v);
      }
      if exists i :: 0 <= i < |xs| && StrictEq(xs[i], v) {
        var i :| 0 <= i < |xs| && StrictEq(xs[i], v);
        if i > 0 {
          assert StrictEq(xs[1..][i - 1], v);
        }
      }
    }
  }

  // ---------------------------------------------------------------------------
  // Objects as entry sequences
  // ---------------------------------------------------------------------------

  /** Whether the object has an own property `k`. */
  predicate Has(o: seq<Entry>, k: string) {
    o != [] && (o[|o| - 1].key == k || Has(o[..|o| - 1], k))
  }

  /** `o[k]`: the value of the last definition of `k`, `undefined` when there is none. */
  function Get(o: seq<Entry>, k: string): Value {
    if o == [] then Undefined
    else if o[|o| - 1].key == k then o[|o| - 1].value
    else Get(o[..|o| - 1], k)
  }

  /** `o[k] = v`: an existing property keeps its position, a new one goes last. */
  function Put(o: seq<Entry>, k: string, v: Value): (r: seq<Entry>)
    ensures |r| == if Has(o, k) then |o| else |o| + 1
  {
    if !Has(o, k) then o + [Entry(k, v)]
    else
      var init := Put(o[..|o| - 1], k, v);
      if o[|o| - 1].key == k then
        (if Has(o[..|o| - 1], k) then init else o[..|o| - 1]) + [Entry(k, v)]
      else init + [o[|o| - 1]]
  }

  /** `{ ...a, ...b }`. */
  function Spread(a: seq<Entry>, b: seq<Entry>): seq<Entry> {
    if b == [] then a else Put(Spread(a, b[..|b| - 1]), b[|b| - 1].key, b[|b| - 1].value)
  }

  /** `const { k, ...rest } = o`: the rest, every definition of `k` removed. */
  function Without(o: seq<Entry>, k: string): (r: seq<Entry>)
    ensures |r| <= |o|
  {
    if o == [] then []
    else if o[|o| - 1].key == k then Without(o[..|o| - 1], k)
    else Without(o[..|o| - 1], k) + [o[|o| - 1]]
  }

  /** Reading an object with one more entry at the end. */
  lemma GetSnoc(o: seq<Entry>, e: Entry, j: string)
    ensures Get(o + [e], j) == if e.key == j then e.value else Get(o, j)
    ensures Has(o + [e], j) == (e.key == j || Has(o, j))
  {
    assert (o + [e])[..|o|] == o;
  }

  lemma {:induction false} GetPut(o: seq<Entry>, k: string, v: Value, j: string)
    ensures Get(Put(o, k, v), j) == if j == k then v else Get(o, j)
    ensures Has(Put(o, k, v), j) == (j == k || Has(o, j))
  {
    if Has(o, k) {
      var last := o[|o| - 1];
      var init := o[..|o| - 1];
      assert o == init + [last];
      GetSnoc(init, last, j);
      GetPut(init, k, v, j);
      if last.key == k {
        if Has(init, k) {
          GetSnoc(Put(init, k, v), Entry(k, v), j);
        } else {
          GetSnoc(init, Entry(k, v), j);
        }
      } else {
        GetSnoc(Put(init, k, v), last, j);
      }
    } else {
      GetSnoc(o, Entry(k, v), j);
    }
  }

  /** In `{ ...a, ...b }` every property of `b` overrides `a`, and `a` supplies the rest. */
  lemma {:induction false} GetSpread(a: seq<Entry>, b: seq<Entry>, k: string)
    ensures Get(Spread(a, b), k) == if Has(b, k) then Get(b, k) else Get(a, k)
    ensures Has(Spread(a, b), k) == (Has(a, k) || Has(b, k))
  {
    if b != [] {
      var init := b[..|b| - 1];
      GetSpread(a, init, k);
      GetPut(Spread(a, init), b[|b| - 1].key, b[|b| - 1].value, k);
    }
  }

  /** The rest of a destructuring has every property but the removed one. */
  lemma {:induction false} GetWithout(o: seq<Entry>, k: string, j: string)
    ensures Get(Without(o, k), j) == if j == k then Undefined else Get(o, j)
    ensures Has(Without(o, k), j) == (j != k && Has(o, j))
  {
    if o != [] {
      var init := o[..|o| - 1];
      GetWithout(init, k, j);
      if o[|o| - 1].key != k {
        assert (Without(init, k) + [o[|o| - 1]])[..|Without(init, k)|] == Without(init, k);
      }
    }
  }

  /** A property defined at `i` and not after it reads as that definition. */
  lemma {:induction false} GetLastDefinition(o: seq<Entry>, k: string, i: int)
    requires 0 <= i < |o| && o[i].key == k
    requires forall j :: i < j < |o| ==> o[j].key != k
    ensures Get(o, k) == o[i].value
  {
    if i < |o| - 1 {
      GetLastDefinition(o[..|o| - 1], k, i);
    }
  }

  /** An object none of whose entries is keyed `k` has no property `k`. */
  lemma {:induction false} HasNone(o: seq<Entry>, k: string)
    requires forall j :: 0 <= j < |o| ==> o[j].key != k
    ensures !Has(o, k)
  {
    if o != [] {
      HasNone(o[..|o| - 1], k);
    }
  }

  /** A missing property reads as `undefined`. */
  lemma {:induction false} GetMissing(o: seq<Entry>, k: string)
    requires !Has(o, k)
    ensures Get(o, k) == Undefined
  {
    if o != [] {
      GetMissing(o[..|o| - 1], k);
    }
  }

  /**
   * No key is defined twice. A JavaScript object holds each own property
   * once, so the entry lists that stand for objects are those that satisfy
   * this; `Put`, `Spread` and `Without` keep it.
   */
  predicate DistinctKeys(o: seq<Entry>) {
    forall i, j :: 0 <= i < j < |o| ==> o[i].key != o[j].key
  }

  /** `Has` is membership among the entries' keys. */
  lemma {:induction false} HasIndex(o: seq<Entry>, k: string)
    ensures Has(o, k) <==> exists i :: 0 <= i < |o| && o[i].key == k
  {
    if o != [] {
      var init := o[..|o| - 1];
      HasIndex(init, k);
      if Has(init, k) {
        var i :| 0 <= i < |init| && init[i].key == k;
        assert o[i].key == k;
      }
      if exists i :: 0 <= i < |o| && o[i].key == k {
        var i :| 0 <= i < |o| && o[i].key == k;
        if i < |o| - 1 {
          assert init[i].key == k;
        }
      }
    }
  }

  /** One more entry keeps the keys distinct exactly when its key is new. */
  lemma DistinctSnoc(o: seq<Entry>, e: Entry)
    ensures DistinctKeys(o + [e]) <==> DistinctKeys(o) && !Has(o, e.key)
  {
    HasIndex(o, e.key);
    var r := o + [e];
    if DistinctKeys(o) && !Has(o, e.key) {
      forall i, j | 0 <= i < j < |r|
        ensures r[i].key != r[j].key
      {
        if j == |o| {
          assert r[i] == o[i];
        }
      }
    }
    if DistinctKeys(r) {
      forall i, j | 0 <= i < j < |o|
        ensures o[i].key != o[j].key
      {
        assert r[i] == o[i] && r[j] == o[j];
      }
      forall i | 0 <= i < |o|
        ensures o[i].key != e.key
      {
        assert r[i] == o[i] && r[|o|] == e;
      }
    }
  }

  lemma {:induction false} PutDistinct(o: seq<Entry>, k: string, v: Value)
    requires DistinctKeys(o)
    ensures DistinctKeys(Put(o, k, v))
  {
    if !Has(o, k) {
      DistinctSnoc(o, Entry(k, v));
    } else {
      var init, last := o[..|o| - 1], o[|o| - 1];
      assert o == init + [last];
      DistinctSnoc(init, last);
      if last.key == k {
        DistinctSnoc(init, Entry(k, v));
      } else {
        PutDistinct(init, k, v);
        GetPut(init, k, v, last.key);
        DistinctSnoc(Put(init, k, v), last);
      }
    }
  }

  lemma {:induction false} SpreadDistinct(a: seq<Entry>, b: seq<Entry>)
    requires DistinctKeys(a)
    ensures DistinctKeys(Spread(a, b))
  {
    if b != [] {
      SpreadDistinct(a, b[..|b| - 1]);
      PutDistinct(Spread(a, b[..|b| - 1]), b[|b| - 1].key, b[|b| - 1].value);
    }
  }

  lemma {:induction false} WithoutDistinct(o: seq<Entry>, k: string)
    requires DistinctKeys(o)
    ensures DistinctKeys(Without(o, k))
  {
    if o != [] {
      var init, last := o[..|o| - 1], o[|o| - 1];
      assert o == init + [last];
      DistinctSnoc(init, last);
      WithoutDistinct(init, k);
      if last.key != k {
        GetWithout(init, k, last.key);
        DistinctSnoc(Without(init, k), last);
      }
    }
  }

  /** With distinct keys, the entry at `i` is what the object reads for its key. */
  lemma GetDistinct(o: seq<Entry>, i: int)
    requires DistinctKeys(o) && 0 <= i < |o|
    ensures Has(o, o[i].key) && Get(o, o[i].key) == o[i].value
  {
    HasIndex(o, o[i].key);
    GetLastDefinition(o, o[i].key, i);
  }

  /** The keys of the entries whose values are truthy, in order. */
  function TruthyKeys(o: seq<Entry>): seq<string> {
    if o == [] then []
    else TruthyKeys(o[..|o| - 1]) + (if Truthy(o[|o| - 1].value) then [o[|o| - 1].key] else [])
  }

  /**
   * For an object (distinct keys), the truthy keys are exactly its properties
   * whose values are truthy.
   */
  lemma {:induction false} TruthyKeysAreTruthyProperties(o: seq<Entry>, k: string)
    requires DistinctKeys(o)
    ensures k in TruthyKeys(o) <==> Has(o, k) && Truthy(Get(o, k))
  {
    if o != [] {
      var init, last := o[..|o| - 1], o[|o| - 1];
      assert o == init + [last];
      DistinctSnoc(init, last);
      TruthyKeysAreTruthyProperties(init, k);
    }
  }

  // ---------------------------------------------------------------------------
  // React elements
  // ---------------------------------------------------------------------------

  /**
   * `React.createElement(kind, config, ...children)`: `ref` leaves the props
   * (and becomes the element's ref when it is not undefined), `key` is
   * dropped, and one child becomes `props.children` itself, several an array.
   */
  function CreateElement(kind: Kind, config: seq<Entry>, children: seq<Value>): (e: Value)
    ensures e.Element? && e.kind == kind
  {
    var props := Without(Without(config, "ref"), "key");
    var withChildren :=
      if |children| == 0 then props
      else if |children| == 1 then Put(props, "children", children[0])
      else Put(props, "children", Arr(children));
    Element(kind, withChildren, if Get(config, "ref") != Undefined then Get(config, "ref") else Null)
  }

  /** The children an element was created with, as a list. */
  function ChildList(e: Value): seq<Value>
    requires e.Element?
  {
    var c := Get(e.props, "children");
    if c.Arr? then c.items else if c.Undefined? then [] else [c]
  }

  /** What `createElement` records: its kind, the config's other props, its ref and its children. */
  lemma CreateElementShape(kind: Kind, config: seq<Entry>, children: seq<Value>, k: string)
    requires k != "ref" && k != "key" && k != "children"
    requires |children| != 1 || !(children[0].Arr? || children[0].Undefined?)
    requires |children| != 0 || !Has(config, "children")
    ensures var e := CreateElement(kind, config, children);
      && Get(e.props, k) == Get(config, k)
      && ChildList(e) == children
      && (e.elementRef == if Get(config, "ref") != Undefined then Get(config, "ref") else Null)
  {
    var props := Without(Without(config, "ref"), "key");
    GetWithout(config, "ref", k);
    GetWithout(Without(config, "ref"), "key", k);
    GetWithout(config, "ref", "children");
    GetWithout(Without(config, "ref"), "key", "children");
    if |children| == 0 {
      GetMissing(props, "children");
    } else if |children| == 1 {
      GetPut(props, "children", children[0], k);
      GetPut(props, "children", children[0], "children");
    } else {
      GetPut(props, "children", Arr(children), k);
      GetPut(props, "children", Arr(children), "children");
    }
  }
}
