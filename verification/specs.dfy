/** The spec algebra of `Specs.java`: immutable shape descriptors with
    composable converters and member filters. */
module Specs {
  import opened Results
  import opened Values

  /** A pair of conversions for a leaf: `convertTo` reads (JSON to native),
      `convertFrom` writes (native to JSON). Either may fail. */
  datatype Converter = Converter(convertTo: Value -> Result<Value>, convertFrom: Value -> Result<Value>)

  /** The four spec variants. */
  datatype Spec =
    | ValueSpec(name: string, defaultValue: Obj, converter: Option<Converter>)
    | ObjectSpec(name: string, filter: Option<string -> bool>, layout: Layout)
    | ArraySpec(component: Spec)
    | StreamSpec(component: Spec, aggregator: seq<Obj> -> Obj)

  /** The layout of a record: its type name and its components in declaration order. */
  datatype Layout = RecordLayout(typeName: string, components: seq<Component>)

  datatype Component = Component(name: string, spec: Spec)

  /** The read direction of a value spec; no converter means the identity. */
  function ConvertTo(s: Spec, v: Value): Result<Value>
    requires s.ValueSpec?
  {
    match s.converter
    case None => Ok(v)
    case Some(c) => c.convertTo(v)
  }

  /** The write direction of a value spec; no converter means the identity. */
  function ConvertFrom(s: Spec, v: Value): Result<Value>
    requires s.ValueSpec?
  {
    match s.converter
    case None => Ok(v)
    case Some(c) => c.convertFrom(v)
  }

  /** A value spec without converter converts identically in both directions. */
  lemma NoConverterIsIdentity(s: Spec, v: Value)
    requires s.ValueSpec? && s.converter.None?
    ensures ConvertTo(s, v) == Ok(v) && ConvertFrom(s, v) == Ok(v)
  {
  }

  /** The converter installed by `convertWith` on top of an existing one:
      `outer` after `inner` when reading, `inner` after `outer` when writing. */
  function Compose(inner: Converter, outer: Converter): Converter
  {
    Converter(
      v => Then(inner.convertTo(v), outer.convertTo),
      v => Then(outer.convertFrom(v), inner.convertFrom))
  }

  /** Composition of converters is associative, in both directions. */
  lemma ComposeAssoc(a: Converter, b: Converter, c: Converter, v: Value)
    ensures Compose(Compose(a, b), c).convertTo(v) == Compose(a, Compose(b, c)).convertTo(v)
    ensures Compose(Compose(a, b), c).convertFrom(v) == Compose(a, Compose(b, c)).convertFrom(v)
  {
    ThenAssoc(a.convertTo(v), b.convertTo, c.convertTo);
    ThenAssoc(c.convertFrom(v), b.convertFrom, a.convertFrom);
  }

  /** `ValueSpec.convertWith`: a new value spec converting through `c` after the
      current converter, whose default is the old default read through the new
      converter. Fails when that conversion of the default fails. A null `c`
      always fails too: the current converter, if any, still reads the default
      first and raises what it raises; otherwise the null `c` is dereferenced. */
  function ConvertWith(s: Spec, c: Option<Converter>): (r: Result<Spec>)
    requires s.ValueSpec?
    ensures c.None? ==> r.Fail?
    ensures c.None? && ConvertTo(s, FromAny(s.defaultValue)).Fail? ==>
      r.error == ConvertTo(s, FromAny(s.defaultValue)).error
    ensures c.None? && ConvertTo(s, FromAny(s.defaultValue)).Ok? ==> r.error == NullPointer("converter")
    ensures r.Ok? ==> c.Some? && r.value.ValueSpec? && r.value.converter.Some?
    ensures s.converter.None? && r.Ok? ==> r.value.converter == c
    ensures r.Ok? ==> r.value.name == s.name + ".convert()"
    ensures r.Ok? ==> forall v :: ConvertTo(r.value, v) == Then(ConvertTo(s, v), c.value.convertTo)
    ensures r.Ok? ==> forall v :: ConvertFrom(r.value, v) ==
                        (match c.value.convertFrom(v) case Fail(e) => Fail(e) case Ok(w) => ConvertFrom(s, w))
    ensures c.Some? ==> (r.Ok? <==> Then(ConvertTo(s, FromAny(s.defaultValue)), c.value.convertTo).Ok?)
    ensures r.Ok? ==> ConvertTo(r.value, FromAny(s.defaultValue)).Ok?
    ensures r.Ok? ==> r.value.defaultValue == AsObject(ConvertTo(r.value, FromAny(s.defaultValue)).value)
  {
    match c
    case None => Then(ConvertTo(s, FromAny(s.defaultValue)), _ => Fail(NullPointer("converter")))
    case Some(c) =>
      var next := match s.converter
        case None => c
        case Some(current) => Compose(current, c);
      match next.convertTo(FromAny(s.defaultValue))
      case Fail(e) => Fail(e)
      case Ok(d) => Ok(ValueSpec(s.name + ".convert()", AsObject(d), Some(next)))
  }

  /** Two successive `convertWith` calls read through `f` then `g`, and write
      through `g` then `f`. */
  lemma ConvertWithTwice(s: Spec, f: Converter, g: Converter, v: Value)
    requires s.ValueSpec?
    ensures ConvertWith(s, Some(f)).Ok? && ConvertWith(ConvertWith(s, Some(f)).value, Some(g)).Ok? ==>
      var s2 := ConvertWith(ConvertWith(s, Some(f)).value, Some(g)).value;
      && ConvertTo(s2, v) == Then(Then(ConvertTo(s, v), f.convertTo), g.convertTo)
      && ConvertFrom(s2, v) == Then(Then(g.convertFrom(v), f.convertFrom), w => ConvertFrom(s, w))
  {
  }

  /** Whether an object spec's filter lets member `member` through; no filter lets everything through. */
  predicate Accepts(s: Spec, member: string)
    requires s.ObjectSpec?
  {
    match s.filter
    case None => true
    case Some(p) => p(member)
  }

  /** `ObjectSpec.filterWith`: a new object spec over the same layout whose filter
      is `p` ANDed with the current one. The receiver is a value and so is untouched. */
  function FilterWith(s: Spec, p: string -> bool): (r: Spec)
    requires s.ObjectSpec?
    ensures r.ObjectSpec? && r.filter.Some?
    ensures r.layout == s.layout && r.name == s.name + ".filter()"
    ensures s.filter.None? ==> r.filter == Some(p)
    ensures forall m :: Accepts(r, m) <==> p(m) && Accepts(s, m)
  {
    var newFilter := match s.filter
      case None => p
      case Some(f) => (m: string) => p(m) && f(m);
    ObjectSpec(s.name + ".filter()", Some(newFilter), s.layout)
  }

  /** `filterWith(p1).filterWith(p2)` accepts exactly the members both accept. */
  lemma FilterWithTwice(s: Spec, p1: string -> bool, p2: string -> bool, m: string)
    requires s.ObjectSpec? && s.filter.None?
    ensures Accepts(FilterWith(FilterWith(s, p1), p2), m) <==> p1(m) && p2(m)
  {
  }

  /** `filterWith` applied with each predicate of `ps` in turn. */
  function FilterAll(s: Spec, ps: seq<string -> bool>): (r: Spec)
    requires s.ObjectSpec?
    ensures r.ObjectSpec? && r.layout == s.layout
    decreases |ps|
  {
    if ps == [] then s else FilterAll(FilterWith(s, ps[0]), ps[1..])
  }

  /** However many filters are chained, a member is accepted exactly when the
      original filter and every added predicate accept it. */
  lemma {:induction false} FilterAllAccepts(s: Spec, ps: seq<string -> bool>, m: string)
    requires s.ObjectSpec?
    ensures Accepts(FilterAll(s, ps), m) <==> Accepts(s, m) && forall i :: 0 <= i < |ps| ==> ps[i](m)
    decreases |ps|
  {
    if ps != [] {
      FilterAllAccepts(FilterWith(s, ps[0]), ps[1..], m);
      assert forall i :: 1 <= i < |ps| ==> ps[1..][i - 1] == ps[i];
    }
  }

  /** `Specs.defaultValue`: the default of a value spec, null for every other spec. */
  function DefaultValue(s: Spec): (d: Obj)
    ensures !s.ValueSpec? ==> d == ONull
  {
    match s
    case ValueSpec(_, d, _) => d
    case _ => ONull
  }
}
