/** The spec finders of `SpecFinders.java`: the record finder, the enum
    finder and the catch-all finder. A native type is described by what
    reflection would report about it. */
module Finders {
  import opened Results
  import opened Values
  import opened Specs
  import opened Traces
  import Layouts
  import Replay

  /** A record component: its name and (the name of) its declared generic type. */
  datatype RecordComponent = RecordComponent(name: string, genericType: string)

  /** What the finders ask of a `Class`: its names, its record components
      (`None` when it is not a record) and its enum constant names (`None`
      when it is not an enum). */
  datatype NativeType = NativeType(
    name: string,
    simpleName: string,
    recordComponents: Option<seq<RecordComponent>>,
    enumConstants: Option<seq<string>>)

  /** The specs of the components, asked of the downward finder one by one in
      declaration order; the first failure propagates. */
  function ResolveComponents(downward: string -> Result<Spec>, rcs: seq<RecordComponent>): (r: Result<seq<Component>>)
    ensures r.Ok? <==> forall i :: 0 <= i < |rcs| ==> downward(rcs[i].genericType).Ok?
    ensures r.Ok? ==> |r.value| == |rcs|
    ensures r.Ok? ==> forall i :: 0 <= i < |rcs| ==>
      r.value[i] == Component(rcs[i].name, downward(rcs[i].genericType).value)
    ensures r.Fail? ==> exists i :: (0 <= i < |rcs| && downward(rcs[i].genericType) == Fail(r.error)
      && forall j :: 0 <= j < i ==> downward(rcs[j].genericType).Ok?)
    decreases |rcs|
  {
    if rcs == [] then Ok([])
    else match downward(rcs[0].genericType)
      case Fail(e) => Fail(e)
      case Ok(spec) =>
        match ResolveComponents(downward, rcs[1..])
        case Fail(e) => Fail(e)
        case Ok(rest) => Ok([Component(rcs[0].name, spec)] + rest)
  }

  /** `newRecordFinder`: declines a type that is not a record; otherwise an
      unfiltered object spec named after the type, whose layout lists the
      components in declaration order with the specs the downward finder gives. */
  function RecordFinder(downward: string -> Result<Spec>, t: NativeType): (r: Result<Option<Spec>>)
    ensures t.recordComponents.None? ==> r == Ok(None)
    ensures t.recordComponents.Some? ==>
      (r.Ok? <==> forall i :: 0 <= i < |t.recordComponents.value| ==>
                    downward(t.recordComponents.value[i].genericType).Ok?)
    ensures t.recordComponents.Some? && r.Ok? ==>
      && r.value.Some?
      && r.value.value.ObjectSpec?
      && r.value.value.name == t.simpleName
      && r.value.value.filter.None?
      && r.value.value.layout.typeName == t.name
      && |r.value.value.layout.components| == |t.recordComponents.value|
      && (forall i :: 0 <= i < |t.recordComponents.value| ==>
            r.value.value.layout.components[i] ==
              Component(t.recordComponents.value[i].name, downward(t.recordComponents.value[i].genericType).value))
  {
    match t.recordComponents
    case None => Ok(None)
    case Some(rcs) =>
      match ResolveComponents(downward, rcs)
      case Fail(e) => Fail(e)
      case Ok(components) => Ok(Some(ObjectSpec(t.simpleName, None, RecordLayout(t.name, components))))
  }

  /** The spec the record finder gives is the one the binder works with: with
      distinct component names, looking a component up by name finds the spec
      the downward finder gave for its type, and a fresh builder holds that
      spec's default (UNINITIALIZED when it is null). */
  lemma RecordFinderLayout(downward: string -> Result<Spec>, t: NativeType, i: nat)
    requires t.recordComponents.Some? && i < |t.recordComponents.value|
    requires forall j, k :: 0 <= j < k < |t.recordComponents.value| ==>
               t.recordComponents.value[j].name != t.recordComponents.value[k].name
    ensures var rc := t.recordComponents.value[i];
      RecordFinder(downward, t).Ok? ==>
        var layout := RecordFinder(downward, t).value.value.layout;
        && Layouts.MemberSpec(layout, rc.name) == Ok(downward(rc.genericType).value)
        && Layouts.NewBuilder(layout)[i].None? == (DefaultValue(downward(rc.genericType).value) == ONull)
        && (Layouts.NewBuilder(layout)[i].Some? ==>
              Layouts.NewBuilder(layout)[i].value == DefaultValue(downward(rc.genericType).value))
  {
  }

  /** The read direction of an enum spec: a JSON string naming a constant
      becomes that constant. */
  function EnumLookup(t: NativeType, v: Value): (r: Result<Value>)
    requires t.enumConstants.Some?
    ensures r.Ok? <==> v.JString? && v.s in t.enumConstants.value
    ensures r.Ok? ==> r.value == JOpaque(OEnum(t.name, v.s))
    ensures r.Ok? ==> EnumName(r.value) == v
    ensures !v.JString? ==> r == Fail(NotAString)
    ensures v.JString? && v.s !in t.enumConstants.value ==> r == Fail(UnknownEnumConstant(v.s))
  {
    if !v.JString? then Fail(NotAString)
    else if v.s in t.enumConstants.value then Ok(JOpaque(OEnum(t.name, v.s)))
    else Fail(UnknownEnumConstant(v.s))
  }

  /** The write direction of an enum spec: a constant is written as its name;
      anything else passes unchanged. */
  function EnumName(v: Value): (r: Value)
    ensures v.JOpaque? && v.o.OEnum? ==> r == JString(v.o.constant)
    ensures !(v.JOpaque? && v.o.OEnum?) ==> r == v
  {
    if v.JOpaque? && v.o.OEnum? then JString(v.o.constant) else v
  }

  /** `newEnumFinder`: declines a type that is not an enum; otherwise a value
      spec named after the type, with no default, that looks constants up by name. */
  function EnumFinder(t: NativeType): (r: Option<Spec>)
    ensures r.Some? <==> t.enumConstants.Some?
    ensures r.Some? ==>
      && r.value.ValueSpec?
      && r.value.name == t.simpleName
      && r.value.defaultValue == ONull
      && (forall v :: ConvertTo(r.value, v) == EnumLookup(t, v))
      && (forall v :: ConvertFrom(r.value, v) == Ok(EnumName(v)))
  {
    if t.enumConstants.None? then None
    else Some(ValueSpec(t.simpleName, ONull, Some(Converter(v => EnumLookup(t, v), v => Ok(EnumName(v))))))
  }

  /** The enum spec is a bijection between the constants and their names:
      writing a constant and reading it back gives the constant, and reading
      a name and writing it back gives the name. */
  lemma EnumRoundTrip(t: NativeType, c: string)
    requires t.enumConstants.Some? && c in t.enumConstants.value
    ensures var spec := EnumFinder(t).value;
      && ConvertFrom(spec, FromAny(OEnum(t.name, c))) == Ok(JString(c))
      && ConvertTo(spec, JString(c)) == Ok(FromAny(OEnum(t.name, c)))
      && AsObject(ConvertTo(spec, ConvertFrom(spec, FromAny(OEnum(t.name, c))).value).value) == OEnum(t.name, c)
  {
    var spec := EnumFinder(t).value;
    assert ConvertFrom(spec, JOpaque(OEnum(t.name, c))) == Ok(JString(c));
    assert ConvertTo(spec, JString(c)) == EnumLookup(t, JString(c));
  }

  /** `newAnyTypesAsStringFinder`: accepts every type, with a value spec named
      after the type, with no default, whose read direction always fails and
      whose write direction passes values unchanged. */
  function AnyTypeFinder(t: NativeType): (r: Option<Spec>)
    ensures r.Some? && r.value.ValueSpec?
    ensures r.value.name == t.name && r.value.defaultValue == ONull
    ensures forall v :: ConvertTo(r.value, v) == Fail(NoDefaultConversion)
    ensures forall v :: ConvertFrom(r.value, v) == Ok(v)
  {
    Some(ValueSpec(t.name, ONull, Some(Converter(v => Fail(NoDefaultConversion), v => Ok(v)))))
  }

  /** `convertWith(null)` on a spec that already converts raises what its
      converter raises on the default, not a NullPointerException: the
      catch-all spec refuses to read, and the enum spec cannot read its null
      default as a name. */
  lemma ConvertWithNullReadsDefaultFirst(t: NativeType)
    requires t.enumConstants.Some?
    ensures ConvertWith(AnyTypeFinder(t).value, None) == Fail(NoDefaultConversion)
    ensures ConvertWith(EnumFinder(t).value, None) == Fail(NotAString)
  {
  }

  /** What the catch-all spec does in replay: a value of a type it answers for
      is written as it is, in one value call; as a record component, such a
      type can be written but never read back. */
  lemma AnyTypeReplay(b: Replay.Binder, sink: Replay.Sink, path: Replay.Path, place: Place, t: NativeType, value: Obj)
    requires Replay.AsksBinder(value) && !value.OOptional?
    requires b.specOf(value) == AnyTypeFinder(t)
    ensures Replay.ReplayAt(b, sink, path, place, value) == Replay.Done([VisitValue(place, FromAny(value))])
    ensures ConvertTo(b.specOf(value).value, FromAny(value)) == Fail(NoDefaultConversion)
  {
  }
}
