/**
 * Placeholder substitution over a check specification (`StructTemplater` and the
 * reflection walk `LoadSecrets` drives).  The specification is an explicit tree of Go values;
 * the walk carries Go reflection's three flags on each value it visits (`flagAddr`,
 * `flagStickyRO`, `flagEmbedRO`) and updates them as `Value.Field`, `Value.Index`,
 * `Value.MapIndex` and `Value.Elem` do.  A value is settable when it is addressable and carries
 * neither read-only flag.
 * Only STRUCT FIELDS of string kind are rewritten: `StructField` is the only hook the templater
 * provides, so strings that are slice or array elements, map values or pointer targets stay as
 * they are.
 */
module Templater {

  import opened Strings
  import opened Seqs

  datatype Value =
    | Str(s: string)
    | Scalar(n: int)             // every non-string leaf: numbers, booleans, durations
    | Nil                        // a nil pointer, slice or map
    | Ptr(target: Value)
    | Struct(fields: seq<Field>)
    | List(kind: ListKind, items: seq<Value>)
    | Dict(entries: seq<Entry>)  // a map, in iteration order

  datatype ListKind = Slice | Array

  /** A struct field: its name, whether the name is exported, whether it is an embedded field, and its value. */
  datatype Field = Field(name: string, exported: bool, embedded: bool, value: Value)

  datatype Entry = Entry(key: string, value: Value)

  /** Go's `m[key]` on a `map[string]string`: the empty string for a missing key. */
  function Lookup(values: map<string, string>, key: string): (r: string)
    ensures key in values ==> r == values[key]
    ensures key !in values ==> r == ""
  {
    if key in values then values[key] else ""
  }

  /** The key of a `$...` reference: what follows the `$`, leading `(` and trailing `)` removed. */
  function PlaceholderKey(val: string): (key: string)
    requires |val| > 0
    ensures |key| < |val|
    ensures BareKey(key)
  {
    TrimRight(TrimLeft(val[1..], '('), ')')
  }

  /** `StructTemplater.Template`. */
  function Template(values: map<string, string>, val: string): (r: string)
    ensures r != val ==> |val| > 0 && val[0] == '$' && r != "" && r == Lookup(values, PlaceholderKey(val))
    ensures |val| > 0 && val[0] == '$' && Lookup(values, PlaceholderKey(val)) != "" ==>
              r == Lookup(values, PlaceholderKey(val))
  {
    if |val| > 0 && val[0] == '$' then
      var env := Lookup(values, PlaceholderKey(val));
      if env != "" then env else val
    else
      val
  }

  /** A key that neither starts with `(` nor ends with `)`. */
  predicate BareKey(key: string)
  {
    (|key| == 0 || key[0] != '(') && (|key| == 0 || key[|key| - 1] != ')')
  }

  /** `$name`, `$(name)`, `$((name))`, ... all name the key `name`. */
  lemma {:induction false} PlaceholderKeyOf(key: string, lefts: nat, rights: nat)
    requires BareKey(key)
    ensures PlaceholderKey("$" + Repeat('(', lefts) + key + Repeat(')', rights)) == key
  {
    var val := "$" + Repeat('(', lefts) + key + Repeat(')', rights);
    assert val[1..] == Repeat('(', lefts) + (key + Repeat(')', rights));
    var t := key + Repeat(')', rights);
    assert |t| == 0 || t[0] != '(' by {
      if |key| == 0 && rights > 0 {
        assert t[0] == ')';
      }
    }
    TrimLeftOfRun('(', lefts, t);
    TrimRightOfRun(')', rights, key);
  }

  /** A reference to a key with a non-empty value resolves to that value. */
  lemma TemplateResolves(values: map<string, string>, key: string, lefts: nat, rights: nat)
    requires BareKey(key) && key in values && values[key] != ""
    ensures Template(values, "$" + Repeat('(', lefts) + key + Repeat(')', rights)) == values[key]
  {
    PlaceholderKeyOf(key, lefts, rights);
  }

  /** A reference to a missing key, or to one whose value is empty, is left exactly as written. */
  lemma TemplateUnresolvedUnchanged(values: map<string, string>, key: string, lefts: nat, rights: nat)
    requires BareKey(key) && Lookup(values, key) == ""
    ensures Template(values, "$" + Repeat('(', lefts) + key + Repeat(')', rights))
         == "$" + Repeat('(', lefts) + key + Repeat(')', rights)
  {
    PlaceholderKeyOf(key, lefts, rights);
  }

  /** A string that does not start with `$` is never rewritten. */
  lemma TemplateIgnoresPlainStrings(values: map<string, string>, val: string)
    requires |val| == 0 || val[0] != '$'
    ensures Template(values, val) == val
  {
  }

  /** `"$(dbpass)"` with dbpass set to `"secret123"`, and `"$(missing)"` with no such key. */
  lemma TemplateExamples()
    ensures Template(map["dbpass" := "secret123"], "$(dbpass)") == "secret123"
    ensures Template(map["dbpass" := "secret123"], "$(missing)") == "$(missing)"
  {
    var values := map["dbpass" := "secret123"];
    assert "$(dbpass)" == "$" + Repeat('(', 1) + "dbpass" + Repeat(')', 1);
    TemplateResolves(values, "dbpass", 1, 1);
    assert "$(missing)" == "$" + Repeat('(', 1) + "missing" + Repeat(')', 1);
    assert "missing" !in values by { assert "missing" != "dbpass"; }
    TemplateUnresolvedUnchanged(values, "missing", 1, 1);
  }

  /** The flags Go reflection keeps on a value: `flagAddr`, `flagStickyRO` and `flagEmbedRO`. */
  datatype Access = Access(addressable: bool, stickyRO: bool, embedRO: bool)

  /** `Value.CanSet`: addressable and neither read-only flag set. */
  predicate CanSet(a: Access)
  {
    a.addressable && !a.stickyRO && !a.embedRO
  }

  /** `flag.ro`: any read-only flag becomes the sticky one for what is reached beyond a field. */
  function StickyIfReadOnly(a: Access): bool
  {
    a.stickyRO || a.embedRO
  }

  /**
   * `Value.Field`: addressability and the sticky flag are inherited, the embedded flag is not; an
   * unexported field adds the embedded flag when it is embedded and the sticky flag otherwise.
   */
  function FieldAccess(a: Access, f: Field): (r: Access)
    ensures CanSet(r) <==> a.addressable && !a.stickyRO && f.exported
  {
    Access(a.addressable, a.stickyRO || (!f.exported && !f.embedded), !f.exported && f.embedded)
  }

  /** `Value.Index`: a slice element is always addressable, an array element only when its array is. */
  function ElementAccess(kind: ListKind, a: Access): (r: Access)
    ensures CanSet(r) <==> (kind == Slice || a.addressable) && !a.stickyRO && !a.embedRO
  {
    Access(kind == Slice || a.addressable, StickyIfReadOnly(a), false)
  }

  /** `Value.Elem` on a pointer: the target is addressable and keeps the pointer's read-only flags. */
  function TargetAccess(a: Access): (r: Access)
    ensures CanSet(r) <==> !a.stickyRO && !a.embedRO
  {
    Access(true, a.stickyRO, a.embedRO)
  }

  /** `Value.MapIndex`: a map value is never addressable. */
  function MapValueAccess(a: Access): (r: Access)
    ensures !CanSet(r)
  {
    Access(false, StickyIfReadOnly(a), false)
  }

  /** Same tree with every non-string leaf, field name, map key and length kept. */
  predicate SameShape(a: Value, b: Value)
    decreases a
  {
    match a
    case Str(_) => b.Str?
    case Scalar(_) => b == a
    case Nil => b == a
    case Ptr(t) => b.Ptr? && SameShape(t, b.target)
    case Struct(fs) =>
      && b.Struct? && |b.fields| == |fs|
      && forall i :: 0 <= i < |fs| ==>
           && b.fields[i].name == fs[i].name && b.fields[i].exported == fs[i].exported
           && b.fields[i].embedded == fs[i].embedded
           && SameShape(fs[i].value, b.fields[i].value)
    case List(kind, xs) =>
      && b.List? && b.kind == kind && |b.items| == |xs|
      && forall i :: 0 <= i < |xs| ==> SameShape(xs[i], b.items[i])
    case Dict(es) =>
      && b.Dict? && |b.entries| == |es|
      && forall i :: 0 <= i < |es| ==> b.entries[i].key == es[i].key && SameShape(es[i].value, b.entries[i].value)
  }

  /**
   * The walk: every settable string-kinded struct field becomes `Template` of its value, and
   * every nested value is visited once.  `a` holds the flags `v` itself was reached with.
   */
  function Walk(values: map<string, string>, v: Value, a: Access): (r: Value)
    decreases v
    ensures SameShape(v, r)
  {
    match v
    case Str(_) => v
    case Scalar(_) => v
    case Nil => v
    case Ptr(t) => Ptr(Walk(values, t, TargetAccess(a)))
    case Struct(fs) =>
      Struct(seq(|fs|, i requires 0 <= i < |fs| => WalkField(values, fs[i], a)))
    case List(kind, xs) =>
      List(kind, seq(|xs|, i requires 0 <= i < |xs| => Walk(values, xs[i], ElementAccess(kind, a))))
    case Dict(es) =>
      Dict(seq(|es|, i requires 0 <= i < |es| => Entry(es[i].key, Walk(values, es[i].value, MapValueAccess(a)))))
  }

  /** `StructField` on one field of a struct reached with `a`, then the walk into the field's value. */
  function WalkField(values: map<string, string>, f: Field, a: Access): (r: Field)
    decreases f
    ensures r.name == f.name && r.exported == f.exported && r.embedded == f.embedded
    ensures SameShape(f.value, r.value)
  {
    if f.value.Str? && CanSet(FieldAccess(a, f)) then
      f.(value := Str(Template(values, f.value.s)))
    else
      f.(value := Walk(values, f.value, FieldAccess(a, f)))
  }

  /** A string of the tree, and whether the walk is to template it. */
  datatype Leaf = Leaf(s: string, target: bool)

  /** All strings of the tree in walk order, each marked with whether it is a settable string field. */
  function Leaves(v: Value, a: Access): seq<Leaf>
    decreases v
  {
    match v
    case Str(s) => [Leaf(s, false)]
    case Scalar(_) => []
    case Nil => []
    case Ptr(t) => Leaves(t, TargetAccess(a))
    case Struct(fs) =>
      Flatten(seq(|fs|, i requires 0 <= i < |fs| => FieldLeaves(fs[i], a)))
    case List(kind, xs) =>
      Flatten(seq(|xs|, i requires 0 <= i < |xs| => Leaves(xs[i], ElementAccess(kind, a))))
    case Dict(es) =>
      Flatten(seq(|es|, i requires 0 <= i < |es| => Leaves(es[i].value, MapValueAccess(a))))
  }

  function FieldLeaves(f: Field, a: Access): seq<Leaf>
    decreases f
  {
    if f.value.Str? then [Leaf(f.value.s, CanSet(FieldAccess(a, f)))]
    else Leaves(f.value, FieldAccess(a, f))
  }

  /** Every target string replaced by its template, every other string kept. */
  function Rewrite(values: map<string, string>, ls: seq<Leaf>): (r: seq<Leaf>)
    ensures |r| == |ls|
    ensures forall i :: 0 <= i < |ls| ==> r[i].target == ls[i].target
    ensures forall i :: 0 <= i < |ls| ==> r[i].s == if ls[i].target then Template(values, ls[i].s) else ls[i].s
  {
    seq(|ls|, i requires 0 <= i < |ls| => if ls[i].target then Leaf(Template(values, ls[i].s), true) else ls[i])
  }

  lemma {:induction false} RewriteFlatten(values: map<string, string>, xss: seq<seq<Leaf>>, yss: seq<seq<Leaf>>)
    requires |xss| == |yss|
    requires forall i :: 0 <= i < |xss| ==> yss[i] == Rewrite(values, xss[i])
    ensures Flatten(yss) == Rewrite(values, Flatten(xss))
  {
    if |xss| > 0 {
      var n := |xss| - 1;
      RewriteFlatten(values, xss[..n], yss[..n]);
      assert Rewrite(values, Flatten(xss[..n]) + xss[n]) == Rewrite(values, Flatten(xss[..n])) + Rewrite(values, xss[n]);
    }
  }

  /**
   * The walk rewrites exactly the settable string fields, each to `Template` of its old
   * value, once; every other string, and the settability of every string, stays as it was.
   */
  lemma {:induction false} WalkRewritesLeaves(values: map<string, string>, v: Value, a: Access)
    decreases v
    ensures Leaves(Walk(values, v, a), a) == Rewrite(values, Leaves(v, a))
  {
    match v
    case Str(_) =>
    case Scalar(_) =>
    case Nil =>
    case Ptr(t) =>
      WalkRewritesLeaves(values, t, TargetAccess(a));
    case Struct(fs) =>
      var w := Walk(values, v, a);
      var xss := seq(|fs|, i requires 0 <= i < |fs| => FieldLeaves(fs[i], a));
      var yss := seq(|fs|, i requires 0 <= i < |fs| => FieldLeaves(w.fields[i], a));
      forall i | 0 <= i < |fs| ensures yss[i] == Rewrite(values, xss[i]) {
        WalkFieldRewritesLeaves(values, fs[i], a);
      }
      RewriteFlatten(values, xss, yss);
    case List(kind, xs) =>
      var w := Walk(values, v, a);
      var ea := ElementAccess(kind, a);
      var xss := seq(|xs|, i requires 0 <= i < |xs| => Leaves(xs[i], ea));
      var yss := seq(|xs|, i requires 0 <= i < |xs| => Leaves(w.items[i], ea));
      forall i | 0 <= i < |xs| ensures yss[i] == Rewrite(values, xss[i]) {
        WalkRewritesLeaves(values, xs[i], ea);
      }
      RewriteFlatten(values, xss, yss);
    case Dict(es) =>
      var w := Walk(values, v, a);
      var ma := MapValueAccess(a);
      var xss := seq(|es|, i requires 0 <= i < |es| => Leaves(es[i].value, ma));
      var yss := seq(|es|, i requires 0 <= i < |es| => Leaves(w.entries[i].value, ma));
      forall i | 0 <= i < |es| ensures yss[i] == Rewrite(values, xss[i]) {
        WalkRewritesLeaves(values, es[i].value, ma);
      }
      RewriteFlatten(values, xss, yss);
  }

  lemma {:induction false} WalkFieldRewritesLeaves(values: map<string, string>, f: Field, a: Access)
    decreases f
    ensures FieldLeaves(WalkField(values, f, a), a) == Rewrite(values, FieldLeaves(f, a))
  {
    if !(f.value.Str? && CanSet(FieldAccess(a, f))) {
      WalkRewritesLeaves(values, f.value, FieldAccess(a, f));
    }
  }

  /** The string field `S` with value `$a`, before and after templating with `a` set to `X`. */
  function ExampleInner(): Value { Struct([Field("S", true, false, Str("$a"))]) }

  function ExampleWalked(): Value { Struct([Field("S", true, false, Str("X"))]) }

  lemma ExampleTemplate()
    ensures Template(map["a" := "X"], "$a") == "X"
  {
    assert "$a" == "$" + Repeat('(', 0) + "a" + Repeat(')', 0);
    TemplateResolves(map["a" := "X"], "a", 0, 0);
  }

  lemma ExampleFieldSettable(a: Access)
    requires a.addressable && !a.stickyRO
    ensures WalkField(map["a" := "X"], Field("S", true, false, Str("$a")), a) == Field("S", true, false, Str("X"))
  {
    assert CanSet(FieldAccess(a, Field("S", true, false, Str("$a"))));
    ExampleTemplate();
  }

  /** The field `S` is templated when its struct is addressable and not sticky read-only. */
  lemma ExampleInnerSettable(a: Access)
    requires a.addressable && !a.stickyRO
    ensures Walk(map["a" := "X"], ExampleInner(), a) == ExampleWalked()
  {
    var f := Field("S", true, false, Str("$a"));
    ExampleFieldSettable(a);
    var w := Walk(map["a" := "X"], Struct([f]), a);
    assert |w.fields| == 1 && w.fields[0] == Field("S", true, false, Str("X"));
    assert w.fields == [Field("S", true, false, Str("X"))];
  }

  /** Otherwise it is left as it is. */
  lemma ExampleInnerNotSettable(a: Access)
    requires !a.addressable || a.stickyRO
    ensures Walk(map["a" := "X"], ExampleInner(), a) == ExampleInner()
  {
    var f := Field("S", true, false, Str("$a"));
    assert WalkField(map["a" := "X"], f, a) == f;
    assert Walk(map["a" := "X"], ExampleInner(), a).fields == [WalkField(map["a" := "X"], f, a)];
  }

  /** A string field under a map value is templated when a slice lies in between. */
  lemma WalkSliceUnderMap()
    ensures Walk(map["a" := "X"], Dict([Entry("k", List(Slice, [ExampleInner()]))]), SpecAccess)
         == Dict([Entry("k", List(Slice, [ExampleWalked()]))])
  {
    ExampleInnerSettable(Access(true, false, false));
    assert Walk(map["a" := "X"], List(Slice, [ExampleInner()]), Access(false, false, false))
        == List(Slice, [ExampleWalked()]);
  }

  /** An array under a map value is not addressable, so neither are the fields of its elements. */
  lemma WalkArrayUnderMap()
    ensures Walk(map["a" := "X"], Dict([Entry("k", List(Array, [ExampleInner()]))]), SpecAccess)
         == Dict([Entry("k", List(Array, [ExampleInner()]))])
  {
    ExampleInnerNotSettable(Access(false, false, false));
    assert Walk(map["a" := "X"], List(Array, [ExampleInner()]), Access(false, false, false))
        == List(Array, [ExampleInner()]);
  }

  /** An exported field reached through an unexported embedded struct is templated. */
  lemma WalkThroughEmbedded()
    ensures Walk(map["a" := "X"], Struct([Field("base", false, true, ExampleInner())]), SpecAccess)
         == Struct([Field("base", false, true, ExampleWalked())])
  {
    ExampleInnerSettable(Access(true, false, true));
  }

  /** A field reached through an unexported named field is not. */
  lemma WalkThroughUnexported()
    ensures Walk(map["a" := "X"], Struct([Field("base", false, false, ExampleInner())]), SpecAccess)
         == Struct([Field("base", false, false, ExampleInner())])
  {
    ExampleInnerNotSettable(Access(true, true, false));
  }

  /**
   * A check specification: the `env` map of secret references (a map field, so its values
   * are not addressable), the evaluation interval, and the remaining fields of the spec struct,
   * the check lists.  `LoadSecrets` walks the spec through a pointer, so the spec's own fields
   * are reached addressable and writable.
   */
  datatype CanarySpec = CanarySpec(env: seq<Entry>, interval: int, checks: seq<Field>)

  /** The flags of `*(&canary.Spec)`: the target of a pointer that was itself reached writable. */
  const SpecAccess := TargetAccess(Access(false, false, false))

  /** The spec after the walk with the given resolved values. */
  function TemplateSpec(values: map<string, string>, spec: CanarySpec): (r: CanarySpec)
    ensures r.interval == spec.interval
    ensures SameShape(Dict(spec.env), Dict(r.env)) && SameShape(Struct(spec.checks), Struct(r.checks))
  {
    var env := Walk(values, Dict(spec.env), SpecAccess);
    var checks := Walk(values, Struct(spec.checks), SpecAccess);
    CanarySpec(env.entries, spec.interval, checks.fields)
  }

  /** The strings of a spec's check lists after templating are those of its walk. */
  lemma TemplateSpecRewrites(values: map<string, string>, spec: CanarySpec)
    ensures Leaves(Struct(TemplateSpec(values, spec).checks), SpecAccess)
         == Rewrite(values, Leaves(Struct(spec.checks), SpecAccess))
    ensures Leaves(Dict(TemplateSpec(values, spec).env), SpecAccess)
         == Rewrite(values, Leaves(Dict(spec.env), SpecAccess))
  {
    WalkRewritesLeaves(values, Struct(spec.checks), SpecAccess);
    WalkRewritesLeaves(values, Dict(spec.env), SpecAccess);
  }
}
