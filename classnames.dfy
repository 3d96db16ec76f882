/**
 * The class-name helpers the preview sandbox defines before the previewed
 * code runs: the fallback `cn` (used when `clsx` is absent), the recursive
 * `normalizeClasses`, and the `cva` variant builder.
 */
module ClassNames {
  import opened Wrappers
  import opened Text
  import opened Js

  // ===========================================================================
  // cn (the fallback branch)
  // ===========================================================================

  /** `inputs.flat(Infinity)`: arrays at any depth are replaced by their elements. */
  function Flatten(vs: seq<Value>): (r: seq<Value>)
    ensures forall i :: 0 <= i < |r| ==> !r[i].Arr?
    decreases vs
  {
    if vs == [] then []
    else
      var head := vs[0];
      assert head in vs;
      (if head.Arr? then Flatten(head.items) else [head]) + Flatten(vs[1..])
  }

  /** `.filter(Boolean)`. */
  function KeepTruthy(vs: seq<Value>): (r: seq<Value>)
    ensures forall i :: 0 <= i < |r| ==> Truthy(r[i])
  {
    if vs == [] then [] else (if Truthy(vs[0]) then [vs[0]] else []) + KeepTruthy(vs[1..])
  }

  /**
   * What one input contributes: a string itself, a plain object the keys of
   * its truthy entries joined by spaces, anything else the empty string.
   */
  function Piece(v: Value): string {
    match v
    case Str(s) => s
    case Obj(es) => Join(TruthyKeys(es), " ")
    case _ => ""
  }

  function Pieces(vs: seq<Value>): (r: seq<string>)
    ensures |r| == |vs| && forall i :: 0 <= i < |vs| ==> r[i] == Piece(vs[i])
  {
    if vs == [] then [] else [Piece(vs[0])] + Pieces(vs[1..])
  }

  /** The fallback `cn(...inputs)`. */
  function Cn(inputs: seq<Value>): string {
    Trim(Join(Pieces(KeepTruthy(Flatten(inputs))), " "))
  }

  lemma {:induction false} FlattenAppend(a: seq<Value>, b: seq<Value>)
    ensures Flatten(a + b) == Flatten(a) + Flatten(b)
  {
    if a != [] {
      FlattenAppend(a[1..], b);
      assert (a + b)[1..] == a[1..] + b;
    } else {
      assert a + b == b;
    }
  }

  lemma {:induction false} KeepTruthyAppend(a: seq<Value>, b: seq<Value>)
    ensures KeepTruthy(a + b) == KeepTruthy(a) + KeepTruthy(b)
  {
    if a != [] {
      KeepTruthyAppend(a[1..], b);
      assert (a + b)[1..] == a[1..] + b;
    } else {
      assert a + b == b;
    }
  }

  /** `cn` flattens: an array argument counts as its elements spliced in place. */
  lemma CnFlattensArrays(a: seq<Value>, xs: seq<Value>, b: seq<Value>)
    ensures Cn(a + [Arr(xs)] + b) == Cn(a + xs + b)
  {
    FlattenAppend(a + [Arr(xs)], b);
    FlattenAppend(a, [Arr(xs)]);
    FlattenAppend(a + xs, b);
    FlattenAppend(a, xs);
    assert [Arr(xs)][1..] == [];
    assert Flatten([Arr(xs)]) == Flatten(xs) + Flatten([]);
    assert Flatten([Arr(xs)]) == Flatten(xs);
    assert Flatten(a + [Arr(xs)] + b) == Flatten(a + xs + b);
  }

  /** `cn` ignores falsy arguments (`false`, `null`, `undefined`, `0`, `""`). */
  lemma CnDropsFalsy(a: seq<Value>, v: Value, b: seq<Value>)
    requires !Truthy(v) && !v.Arr?
    ensures Cn(a + [v] + b) == Cn(a + b)
  {
    FlattenAppend(a + [v], b);
    FlattenAppend(a, [v]);
    FlattenAppend(a, b);
    assert [v][1..] == [];
    assert Flatten([v]) == [v];
    KeepTruthyAppend(Flatten(a) + [v], Flatten(b));
    KeepTruthyAppend(Flatten(a), [v]);
    KeepTruthyAppend(Flatten(a), Flatten(b));
    assert KeepTruthy([v]) == [v][1..] == [];
    assert KeepTruthy(Flatten(a + [v] + b)) == KeepTruthy(Flatten(a + b));
  }

  predicate AllPlainStrings(vs: seq<Value>) {
    forall i :: 0 <= i < |vs| ==> vs[i].Str? && vs[i].s != []
  }

  function Texts(vs: seq<Value>): (r: seq<string>)
    requires AllPlainStrings(vs)
    ensures |r| == |vs|
  {
    if vs == [] then [] else [vs[0].s] + Texts(vs[1..])
  }

  /** Non-empty string arguments are kept as they are, joined by single spaces, and only the ends are trimmed. */
  lemma {:induction false} CnOfStrings(vs: seq<Value>)
    requires AllPlainStrings(vs)
    ensures Cn(vs) == Trim(Join(Texts(vs), " "))
  {
    StringsPassThrough(vs);
  }

  lemma {:induction false} StringsPassThrough(vs: seq<Value>)
    requires AllPlainStrings(vs)
    ensures Pieces(KeepTruthy(Flatten(vs))) == Texts(vs)
  {
    if vs != [] {
      StringsPassThrough(vs[1..]);
      assert Flatten(vs) == [vs[0]] + Flatten(vs[1..]);
      assert KeepTruthy(Flatten(vs)) == [vs[0]] + KeepTruthy(Flatten(vs[1..]));
      assert Pieces(KeepTruthy(Flatten(vs)))[1..] == Pieces(KeepTruthy(Flatten(vs[1..])));
    }
  }

  /** A plain object argument contributes the keys whose values are truthy. */
  lemma CnOfObject(es: seq<Entry>)
    ensures Cn([Obj(es)]) == Trim(Join(TruthyKeys(es), " "))
  {
    assert [Obj(es)][1..] == [];
    assert Flatten([Obj(es)]) == [Obj(es)];
    assert KeepTruthy([Obj(es)]) == [Obj(es)];
  }

  // ===========================================================================
  // normalizeClasses
  // ===========================================================================

  /** A value `normalizeClasses` keeps as a class: truthy and neither array nor object. */
  predicate IsClassLeaf(v: Value) {
    Truthy(v) && !v.Arr? && !v.Obj? && !v.ForwardRef? && !v.Element?
  }

  /**
   * `normalizeClasses(value)`: falsy values give nothing, arrays and plain
   * objects (their values, in entry order) are flattened recursively, and any
   * other value is a class of its own.
   */
  function NormalizeClasses(v: Value): (r: seq<Value>)
    ensures forall i :: 0 <= i < |r| ==> IsClassLeaf(r[i])
    decreases v, 1
  {
    if !Truthy(v) then []
    else match v
      case Arr(items) => NormalizeAll(items)
      case Obj(es) => NormalizeValues(es)
      case ForwardRef(_) => []
      case Element(_, _, _) => []
      case _ => [v]
  }

  /** `items.flatMap(normalizeClasses)`. */
  function NormalizeAll(items: seq<Value>): (r: seq<Value>)
    ensures forall i :: 0 <= i < |r| ==> IsClassLeaf(r[i])
    decreases items, 0
  {
    if items == [] then []
    else
      var head := items[0];
      assert head in items;
      NormalizeClasses(head) + NormalizeAll(items[1..])
  }

  /** `Object.values(o).flatMap(normalizeClasses)`. */
  function NormalizeValues(es: seq<Entry>): (r: seq<Value>)
    ensures forall i :: 0 <= i < |r| ==> IsClassLeaf(r[i])
    decreases es, 0
  {
    if es == [] then []
    else
      assert es[0] in es;
      NormalizeClasses(es[0].value) + NormalizeValues(es[1..])
  }

  /** A class leaf normalizes to itself, and so does a falsy value to nothing. */
  lemma NormalizeLeaf(v: Value)
    ensures IsClassLeaf(v) ==> NormalizeClasses(v) == [v]
    ensures !Truthy(v) ==> NormalizeClasses(v) == []
  {
  }

  /** Normalizing nested arrays concatenates the normalized elements. */
  lemma {:induction false} NormalizeAllAppend(a: seq<Value>, b: seq<Value>)
    ensures NormalizeAll(a + b) == NormalizeAll(a) + NormalizeAll(b)
  {
    if a != [] {
      NormalizeAllAppend(a[1..], b);
      assert (a + b)[1..] == a[1..] + b;
    } else {
      assert a + b == b;
    }
  }

  // ===========================================================================
  // cva
  // ===========================================================================

  /**
   * The second argument of `cva`: `variants` (variant name to an object from
   * option to class), `defaultVariants`, and `compoundVariants` (objects
   * holding a `class` and the conditions). Omitted fields are empty.
   */
  datatype CvaConfig = CvaConfig(
    variants: seq<Entry>,
    defaultVariants: seq<Entry>,
    compoundVariants: seq<seq<Entry>>)

  /** The property key a value becomes when used as `obj[value]`. */
  function PropertyKey(v: Value): Option<string> {
    match v
    case Str(s) => Some(s)
    case Num(n) => Some(IntToString(n))
    case Bool(b) => Some(if b then "true" else "false")
    case _ => None
  }

  /** `variantValues?.[value]`. */
  function Lookup(variantValues: Value, value: Value): Value {
    match variantValues
    case Obj(es) =>
      (match PropertyKey(value)
       case Some(k) => Get(es, k)
       case None => Undefined)
    case _ => Undefined
  }

  /** `{ ...defaultVariants, ...props }` where `props` is the call's argument without `className`. */
  function Merged(config: CvaConfig, callProps: seq<Entry>): seq<Entry> {
    Spread(config.defaultVariants, Without(callProps, "className"))
  }

  /** The class one variant adds, if any. */
  function VariantClass(variant: Entry, merged: seq<Entry>): seq<Value> {
    var value := Get(merged, variant.key);
    if Nullish(value) then []
    else
      var variantClass := Lookup(variant.value, value);
      if Truthy(variantClass) then [variantClass] else []
  }

  /** The classes of the variants, in declaration order. */
  function VariantClasses(variants: seq<Entry>, merged: seq<Entry>): seq<Value> {
    if variants == [] then []
    else VariantClasses(variants[..|variants| - 1], merged) + VariantClass(variants[|variants| - 1], merged)
  }

  /** A compound condition: an array means membership, anything else strict equality. */
  predicate ConditionHolds(condition: Value, current: Value) {
    if condition.Arr? then Includes(condition.items, current) else StrictEq(current, condition)
  }

  /** `Object.entries(conditions).every(...)`. */
  predicate Matches(conditions: seq<Entry>, merged: seq<Entry>) {
    conditions == [] ||
    (ConditionHolds(conditions[0].value, Get(merged, conditions[0].key)) && Matches(conditions[1..], merged))
  }

  /** The class one compound rule adds, if any. */
  function CompoundClass(compound: seq<Entry>, merged: seq<Entry>): seq<Value> {
    var compoundClass := Get(compound, "class");
    if Matches(Without(compound, "class"), merged) && Truthy(compoundClass) then [compoundClass] else []
  }

  /** The classes of the matching compound rules, in list order. */
  function CompoundClasses(compounds: seq<seq<Entry>>, merged: seq<Entry>): seq<Value> {
    if compounds == [] then []
    else CompoundClasses(compounds[..|compounds| - 1], merged) + CompoundClass(compounds[|compounds| - 1], merged)
  }

  /** The `classes` array `cva`'s component function hands to `cn`. */
  function CvaClasses(base: Value, config: CvaConfig, callProps: seq<Entry>): seq<Value> {
    var merged := Merged(config, callProps);
    var className := Get(callProps, "className");
    NormalizeClasses(base)
      + VariantClasses(config.variants, merged)
      + CompoundClasses(config.compoundVariants, merged)
      + (if Truthy(className) then [className] else [])
  }

  /**
   * `cva(base, config)(callProps)`: the base classes, then one class per
   * variant in declaration order, then the classes of the matching compound
   * rules in list order, then `className`, all composed by `cn`.
   */
  method Cva(base: Value, config: CvaConfig, callProps: seq<Entry>) returns (r: string)
    ensures r == Cn(CvaClasses(base, config, callProps))
  {
    var className := Get(callProps, "className");
    var mergedProps := Spread(config.defaultVariants, Without(callProps, "className"));
    var classes := NormalizeClasses(base);
    classes := PushVariantClasses(classes, config.variants, mergedProps);
    classes := PushCompoundClasses(classes, config.compoundVariants, mergedProps);
    if Truthy(className) {
      classes := classes + [className];
    } else {
      assert classes + [] == classes;
    }
    r := Cn(classes);
  }

  /** The `Object.entries(variants).forEach(...)` loop of `cva`. */
  method PushVariantClasses(classes: seq<Value>, variants: seq<Entry>, mergedProps: seq<Entry>)
    returns (out: seq<Value>)
    ensures out == classes + VariantClasses(variants, mergedProps)
  {
    out := classes;
    for i := 0 to |variants|
      invariant out == classes + VariantClasses(variants[..i], mergedProps)
    {
      assert variants[..i + 1][..i] == variants[..i];
      var variantName, variantValues := variants[i].key, variants[i].value;
      var value := Get(mergedProps, variantName);
      if !Nullish(value) {
        var variantClass := Lookup(variantValues, value);
        if Truthy(variantClass) {
          out := out + [variantClass];
        }
      }
    }
    assert variants[..|variants|] == variants;
  }

  /** The `compoundVariants.forEach(...)` loop of `cva`. */
  method PushCompoundClasses(classes: seq<Value>, compounds: seq<seq<Entry>>, mergedProps: seq<Entry>)
    returns (out: seq<Value>)
    ensures out == classes + CompoundClasses(compounds, mergedProps)
  {
    out := classes;
    for i := 0 to |compounds|
      invariant out == classes + CompoundClasses(compounds[..i], mergedProps)
    {
      assert compounds[..i + 1][..i] == compounds[..i];
      var compound := compounds[i];
      var compoundClass := Get(compound, "class");
      var conditions := Without(compound, "class");
      var matches := Every(conditions, mergedProps);
      if matches && Truthy(compoundClass) {
        out := out + [compoundClass];
      }
    }
    assert compounds[..|compounds|] == compounds;
  }

  /** `Object.entries(conditions).every(...)` as the source's loop. */
  method Every(conditions: seq<Entry>, merged: seq<Entry>) returns (ok: bool)
    ensures ok == Matches(conditions, merged)
  {
    ok := true;
    var i := 0;
    while i < |conditions|
      invariant 0 <= i <= |conditions|
      invariant Matches(conditions, merged) == (ok && Matches(conditions[i..], merged))
      invariant ok
    {
      var key, value := conditions[i].key, conditions[i].value;
      var current := Get(merged, key);
      var holds := if value.Arr? then Includes(value.items, current) else StrictEq(current, value);
      if !holds {
        assert !Matches(conditions[i..], merged);
        return false;
      }
      assert conditions[i..][1..] == conditions[i + 1..];
      i := i + 1;
    }
  }

  // ---------------------------------------------------------------------------
  // What cva promises
  // ---------------------------------------------------------------------------

  /** Explicit props override `defaultVariants`; an omitted variant takes its default. */
  lemma ExplicitPropsOverrideDefaults(config: CvaConfig, callProps: seq<Entry>, name: string)
    requires name != "className"
    ensures Get(Merged(config, callProps), name) ==
      if Has(callProps, name) then Get(callProps, name) else Get(config.defaultVariants, name)
  {
    GetSpread(config.defaultVariants, Without(callProps, "className"), name);
    GetWithout(callProps, "className", name);
  }

  lemma VariantClassesSnoc(xs: seq<Entry>, x: Entry, merged: seq<Entry>)
    ensures VariantClasses(xs + [x], merged) == VariantClasses(xs, merged) + VariantClass(x, merged)
  {
    assert (xs + [x])[..|xs|] == xs;
  }

  lemma {:induction false} VariantClassesAppend(a: seq<Entry>, b: seq<Entry>, merged: seq<Entry>)
    ensures VariantClasses(a + b, merged) == VariantClasses(a, merged) + VariantClasses(b, merged)
  {
    if b == [] {
      assert a + b == a;
    } else {
      var init, last := b[..|b| - 1], b[|b| - 1];
      assert a + b == (a + init) + [last];
      assert b == init + [last];
      VariantClassesAppend(a, init, merged);
      calc {
        VariantClasses(a + b, merged);
        { VariantClassesSnoc(a + init, last, merged); }
        VariantClasses(a + init, merged) + VariantClass(last, merged);
        VariantClasses(a, merged) + VariantClasses(init, merged) + VariantClass(last, merged);
        { VariantClassesSnoc(init, last, merged); }
        VariantClasses(a, merged) + VariantClasses(b, merged);
      }
    }
  }

  lemma VariantClassesSingle(v: Entry, merged: seq<Entry>)
    ensures VariantClasses([v], merged) == VariantClass(v, merged)
  {
    assert [v][..0] == [];
  }

  /**
   * Each variant contributes in its own place: nothing when its selected
   * value is null or undefined or selects no truthy class, else exactly that class.
   */
  lemma VariantContributes(a: seq<Entry>, v: Entry, b: seq<Entry>, merged: seq<Entry>)
    ensures VariantClasses(a + [v] + b, merged) ==
      VariantClasses(a, merged)
      + (if !Nullish(Get(merged, v.key)) && Truthy(Lookup(v.value, Get(merged, v.key))) then [Lookup(v.value, Get(merged, v.key))] else [])
      + VariantClasses(b, merged)
  {
    VariantClassesAppend(a + [v], b, merged);
    VariantClassesAppend(a, [v], merged);
    VariantClassesSingle(v, merged);
  }

  /** A variant whose selected value is null or undefined contributes nothing. */
  lemma NullVariantContributesNothing(a: seq<Entry>, v: Entry, b: seq<Entry>, merged: seq<Entry>)
    requires Nullish(Get(merged, v.key))
    ensures VariantClasses(a + [v] + b, merged) == VariantClasses(a + b, merged)
  {
    VariantContributes(a, v, b, merged);
    VariantClassesAppend(a, b, merged);
  }

  lemma CompoundClassesSnoc(xs: seq<seq<Entry>>, x: seq<Entry>, merged: seq<Entry>)
    ensures CompoundClasses(xs + [x], merged) == CompoundClasses(xs, merged) + CompoundClass(x, merged)
  {
    assert (xs + [x])[..|xs|] == xs;
  }

  lemma {:induction false} CompoundClassesAppend(a: seq<seq<Entry>>, b: seq<seq<Entry>>, merged: seq<Entry>)
    ensures CompoundClasses(a + b, merged) == CompoundClasses(a, merged) + CompoundClasses(b, merged)
  {
    if b == [] {
      assert a + b == a;
    } else {
      var init, last := b[..|b| - 1], b[|b| - 1];
      assert a + b == (a + init) + [last];
      assert b == init + [last];
      CompoundClassesAppend(a, init, merged);
      calc {
        CompoundClasses(a + b, merged);
        { CompoundClassesSnoc(a + init, last, merged); }
        CompoundClasses(a + init, merged) + CompoundClass(last, merged);
        CompoundClasses(a, merged) + CompoundClasses(init, merged) + CompoundClass(last, merged);
        { CompoundClassesSnoc(init, last, merged); }
        CompoundClasses(a, merged) + CompoundClasses(b, merged);
      }
    }
  }

  /** A compound rule adds its class, in its place, iff every condition matches and the class is truthy. */
  lemma CompoundContributes(a: seq<seq<Entry>>, c: seq<Entry>, b: seq<seq<Entry>>, merged: seq<Entry>)
    ensures CompoundClasses(a + [c] + b, merged) ==
      CompoundClasses(a, merged)
      + (if Matches(Without(c, "class"), merged) && Truthy(Get(c, "class")) then [Get(c, "class")] else [])
      + CompoundClasses(b, merged)
  {
    CompoundClassesAppend(a + [c], b, merged);
    CompoundClassesAppend(a, [c], merged);
    assert [c][..0] == [];
  }

  /** A compound rule matches iff every one of its conditions holds; an array condition is membership. */
  lemma {:induction false} MatchesEvery(conditions: seq<Entry>, merged: seq<Entry>)
    ensures Matches(conditions, merged) <==>
      forall i :: 0 <= i < |conditions| ==> ConditionHolds(conditions[i].value, Get(merged, conditions[i].key))
  {
    if conditions != [] {
      MatchesEvery(conditions[1..], merged);
      if forall i :: 0 <= i < |conditions| ==> ConditionHolds(conditions[i].value, Get(merged, conditions[i].key)) {
        forall i | 0 <= i < |conditions[1..]|
          ensures ConditionHolds(conditions[1..][i].value, Get(merged, conditions[1..][i].key))
        {
          assert conditions[1..][i] == conditions[i + 1];
        }
      }
      if Matches(conditions, merged) {
        forall i | 0 <= i < |conditions|
          ensures ConditionHolds(conditions[i].value, Get(merged, conditions[i].key))
        {
          if i > 0 {
            assert conditions[1..][i - 1] == conditions[i];
          }
        }
      }
    }
  }

  /**
   * For a rule object (distinct keys), matching is `every` over its
   * properties: each property's condition holds for the merged prop of the
   * same name.
   */
  lemma MatchesByKey(conditions: seq<Entry>, merged: seq<Entry>)
    requires DistinctKeys(conditions)
    ensures Matches(conditions, merged) ==>
      forall k :: Has(conditions, k) ==> ConditionHolds(Get(conditions, k), Get(merged, k))
    ensures (forall k :: Has(conditions, k) ==> ConditionHolds(Get(conditions, k), Get(merged, k))) ==>
      Matches(conditions, merged)
  {
    MatchesEvery(conditions, merged);
    if Matches(conditions, merged) {
      forall k | Has(conditions, k)
        ensures ConditionHolds(Get(conditions, k), Get(merged, k))
      {
        HasIndex(conditions, k);
        var i :| 0 <= i < |conditions| && conditions[i].key == k;
        GetDistinct(conditions, i);
      }
    }
    if forall k :: Has(conditions, k) ==> ConditionHolds(Get(conditions, k), Get(merged, k)) {
      forall i | 0 <= i < |conditions|
        ensures ConditionHolds(conditions[i].value, Get(merged, conditions[i].key))
      {
        GetDistinct(conditions, i);
      }
    }
  }

  /** An array condition holds iff the current value is one of its elements. */
  lemma ArrayConditionIsMembership(xs: seq<Value>, current: Value)
    ensures ConditionHolds(Arr(xs), current) <==> exists i :: 0 <= i < |xs| && StrictEq(xs[i], current)
  {
    IncludesMeansSome(xs, current);
  }

  /** Every class `cva` composes is truthy, so none is dropped by `cn`'s falsy filter. */
  lemma CvaClassesTruthy(base: Value, config: CvaConfig, callProps: seq<Entry>)
    ensures forall i :: 0 <= i < |CvaClasses(base, config, callProps)| ==> Truthy(CvaClasses(base, config, callProps)[i])
  {
    var merged := Merged(config, callProps);
    VariantsTruthy(config.variants, merged);
    CompoundsTruthy(config.compoundVariants, merged);
  }

  lemma {:induction false} VariantsTruthy(variants: seq<Entry>, merged: seq<Entry>)
    ensures forall i :: 0 <= i < |VariantClasses(variants, merged)| ==> Truthy(VariantClasses(variants, merged)[i])
  {
    if variants != [] {
      VariantsTruthy(variants[..|variants| - 1], merged);
    }
  }

  lemma {:induction false} CompoundsTruthy(compounds: seq<seq<Entry>>, merged: seq<Entry>)
    ensures forall i :: 0 <= i < |CompoundClasses(compounds, merged)| ==> Truthy(CompoundClasses(compounds, merged)[i])
  {
    if compounds != [] {
      CompoundsTruthy(compounds[..|compounds| - 1], merged);
    }
  }
}
