/** The enum example of `BinderEnumTest`: `enum Policy { all, none }` and
    `record Contract(Policy policy)`, bound through the record and enum
    finders, read from members and replayed back. */
module EnumExample {
  import opened Results
  import opened Values
  import opened Specs
  import opened Traces
  import opened Finders
  import Layouts
  import Replay
  import SpecDispatch

  const PolicyType := NativeType("BinderEnumTest$Policy", "Policy", None, Some(["all", "none"]))

  const ContractType :=
    NativeType("BinderEnumTest$1Contract", "Contract", Some([RecordComponent("policy", "Policy")]), None)

  /** The downward finder: the enum finder answers for `Policy`. */
  function Downward(typeName: string): Result<Spec>
  {
    if typeName == "Policy" then Ok(EnumFinder(PolicyType).value) else Fail(UnresolvedType)
  }

  function ContractSpec(): (s: Spec)
    ensures s.ObjectSpec? && s.filter.None?
    ensures s.layout == RecordLayout(ContractType.name, [Component("policy", EnumFinder(PolicyType).value)])
  {
    RecordFinder(Downward, ContractType).value.value
  }

  /** Reading one flat JSON object into a `Contract`: each member value is read
      through its member spec and added to a fresh builder, which is then built. */
  function Read(members: seq<(string, Value)>): Result<Obj>
  {
    var spec := ContractSpec();
    match Layouts.Refill(spec.layout, Layouts.NewBuilder(spec.layout), members,
                         (name, v) => SpecDispatch.ConvertMember(spec, name, v))
    case Fail(e) => Fail(e)
    case Ok(b) => Layouts.Build(spec.layout, b)
  }

  function Contract(policy: string): Obj
  {
    OInstance(ContractType.name, [OEnum(PolicyType.name, policy)])
  }

  /** `{"policy": "none"}` reads as `Contract(none)`, and `{"policy": "all"}` as `Contract(all)`. */
  lemma ReadEnum()
    ensures Read([("policy", JString("none"))]) == Ok(Contract("none"))
    ensures Read([("policy", JString("all"))]) == Ok(Contract("all"))
  {
    var spec := ContractSpec();
    assert Layouts.IndexOf(spec.layout.components, "policy") == Some(0);
    assert Layouts.NewBuilder(spec.layout) == [None];
    forall c | c in ["none", "all"]
      ensures Read([("policy", JString(c))]) == Ok(Contract(c))
    {
      assert SpecDispatch.ConvertMember(spec, "policy", JString(c)) == Ok(JOpaque(OEnum(PolicyType.name, c)));
      var added := Layouts.AddValue(spec.layout, [None], "policy", JOpaque(OEnum(PolicyType.name, c)));
      assert added.Ok? && |added.value| == 1 && added.value[0] == Some(OEnum(PolicyType.name, c));
      assert added.value == [Some(OEnum(PolicyType.name, c))];
      assert added == Ok([Some(OEnum(PolicyType.name, c))]);
      assert ([("policy", JString(c))])[1..] == [];
      assert Layouts.Refill(spec.layout, [None], [("policy", JString(c))],
                            (name, v) => SpecDispatch.ConvertMember(spec, name, v))
             == Ok([Some(OEnum(PolicyType.name, c))]);
      var built := Layouts.Build(spec.layout, [Some(OEnum(PolicyType.name, c))]);
      assert built.Ok? && built.value.fields == [OEnum(PolicyType.name, c)];
    }
  }

  /** A name that is not a constant is refused, and so is a missing member. */
  lemma ReadRefused()
    ensures Read([("policy", JString("some"))]) == Fail(UnknownEnumConstant("some"))
    ensures Read([]) == Fail(UninitializedMember("policy"))
  {
    var spec := ContractSpec();
    assert Layouts.NewBuilder(spec.layout) == [None];
  }

  /** The JSON form replay writes for a member value: the value's own spec,
      when it is a value spec, writes it through its converter. */
  function WriteMember(name: string, o: Obj): Value
  {
    match SpecOf(o)
    case Some(s) =>
      if s.ValueSpec? then
        match ConvertFrom(s, FromAny(o))
        case Ok(w) => w
        case Fail(_) => FromAny(o)
      else FromAny(o)
    case None => FromAny(o)
  }

  /** The round trip for `Contract`: writing the members of `Contract(c)`, so
      that the policy becomes its name, and reading them back gives `Contract(c)`. */
  lemma ContractRoundTrip(c: string)
    requires c in PolicyType.enumConstants.value
    ensures WriteMember("policy", OEnum(PolicyType.name, c)) == JString(c)
    ensures Read(Layouts.Written(Layouts.Replay(ContractSpec().layout, Contract(c)).value, WriteMember))
            == Ok(Contract(c))
  {
    var spec := ContractSpec();
    var convert := (name, v) => SpecDispatch.ConvertMember(spec, name, v);
    var o := Contract(c);
    EnumRoundTrip(PolicyType, c);
    assert WriteMember("policy", OEnum(PolicyType.name, c)) == JString(c);
    assert Layouts.MemberSpec(spec.layout, "policy") == Ok(EnumFinder(PolicyType).value);
    assert convert("policy", JString(c)) == Ok(FromAny(o.fields[0]));
    assert Layouts.ReadsBack(spec.layout, o, WriteMember, convert);
    Layouts.RoundTrip(spec.layout, o, WriteMember, convert);
  }

  /** The binder for replay: records and enums resolve through the finders. */
  function SpecOf(o: Obj): Option<Spec>
  {
    if o.OInstance? && o.typeName == ContractType.name then Some(ContractSpec())
    else if o.OEnum? && o.typeName == PolicyType.name then EnumFinder(PolicyType)
    else None
  }

  /** Writing `Contract(all)` makes exactly the calls behind `{ "policy": "all" }`. */
  lemma WriteEnum(finish: (Replay.Path, seq<Event>) -> Obj)
    ensures var sink := Replay.Sink(_ => false, finish);
      Replay.ReplayRoot(Replay.Binder(SpecOf), sink, Contract("all")).events ==
        [VisitObject(AtRoot), StartObject, VisitValue(AtMember("policy"), JString("all")), EndObject]
  {
    var sink := Replay.Sink(_ => false, finish);
    var b := Replay.Binder(SpecOf);
    var spec := ContractSpec();
    var value := Contract("all");
    var members := Layouts.Replay(spec.layout, value).value;
    assert members == [Layouts.Member("policy", OEnum(PolicyType.name, "all"))];
    var at := Replay.ReplayAt(b, sink, [Replay.Key("policy")], AtMember("policy"), OEnum(PolicyType.name, "all"));
    assert SpecOf(OEnum(PolicyType.name, "all")) == EnumFinder(PolicyType);
    assert at == Replay.Done([VisitValue(AtMember("policy"), JString("all"))]);
    var body := Replay.ReplayMembers(b, sink, [], value, members, 0);
    assert Replay.ReplayMembers(b, sink, [], value, members, 1) == Replay.Done([]);
    assert at.events + [] == at.events;
    assert [] + [Replay.Key("policy")] == [Replay.Key("policy")];
    assert body == Replay.Done([VisitValue(AtMember("policy"), JString("all"))]);
    var obj := Replay.ReplayObject(b, sink, [], spec, value);
    assert obj.events == [StartObject, VisitValue(AtMember("policy"), JString("all")), EndObject];
    assert SpecOf(value) == Some(spec);
  }
}
