/** The child-visitor selection and scalar conversion of `Specs.java`: what a
    bind visitor does with a nested object, a nested array or a scalar, decided
    by the spec of the component or member. */
module SpecDispatch {
  import opened Results
  import opened Values
  import opened Specs
  import opened Layouts
  import opened Visitors

  /** The visitor for a nested object described by `component`: only an object spec has one. */
  function ObjectVisitorFor(component: Spec, postOp: PostOp): (r: Result<ObjectVisitor>)
    ensures r.Ok? <==> component.ObjectSpec?
    ensures r.Ok? ==> r.value == BindObject(component, postOp)
    ensures r.Fail? ==> r.error == InvalidSpecShape
  {
    if component.ObjectSpec? then Ok(BindObject(component, postOp)) else Fail(InvalidSpecShape)
  }

  /** The visitor for a nested array described by `component`: an array spec
      gets an array visitor, a stream spec a stream visitor, anything else fails. */
  function ArrayVisitorFor(component: Spec, postOp: PostOp): (r: Result<ArrayVisitor>)
    ensures r.Ok? <==> component.ArraySpec? || component.StreamSpec?
    ensures component.ArraySpec? ==> r == Ok(BindArray(component, postOp))
    ensures component.StreamSpec? ==> r == Ok(BindStream(component.component, component.aggregator, postOp))
    ensures r.Fail? ==> r.error == InvalidSpecShape
  {
    match component
    case ArraySpec(_) => Ok(BindArray(component, postOp))
    case StreamSpec(c, a) => Ok(BindStream(c, a, postOp))
    case _ => Fail(InvalidSpecShape)
  }

  /** Scalar conversion through `component`: only a value spec converts. */
  function ScalarFor(component: Spec, v: Value): Result<Value>
  {
    if component.ValueSpec? then ConvertTo(component, v) else Fail(InvalidSpecShape)
  }

  /** Every component spec has exactly one decoding route: nested object,
      nested array, or scalar conversion. */
  lemma OneRoutePerShape(component: Spec, postOp: PostOp, v: Value)
    ensures ObjectVisitorFor(component, postOp).Ok? ==> ArrayVisitorFor(component, postOp).Fail?
    ensures component.ValueSpec? <==>
      ObjectVisitorFor(component, postOp).Fail? && ArrayVisitorFor(component, postOp).Fail?
    ensures !component.ValueSpec? ==> ScalarFor(component, v) == Fail(InvalidSpecShape)
  {
  }

  /** `ObjectSpec.newMemberObject`: the visitor for member `name` holding an object. */
  function NewMemberObject(spec: Spec, name: string, postOp: PostOp): (r: Result<ObjectVisitor>)
    requires spec.ObjectSpec?
    ensures MemberSpec(spec.layout, name).Fail? ==> r == Fail(UnknownMember(name))
    ensures r.Ok? <==> MemberSpec(spec.layout, name).Ok? && MemberSpec(spec.layout, name).value.ObjectSpec?
    ensures r.Ok? ==> r.value == BindObject(MemberSpec(spec.layout, name).value, postOp)
  {
    Then(MemberSpec(spec.layout, name), (s: Spec) => ObjectVisitorFor(s, postOp))
  }

  /** `ObjectSpec.newMemberArray`: the visitor for member `name` holding an array. */
  function NewMemberArray(spec: Spec, name: string, postOp: PostOp): (r: Result<ArrayVisitor>)
    requires spec.ObjectSpec?
    ensures MemberSpec(spec.layout, name).Fail? ==> r == Fail(UnknownMember(name))
    ensures r.Ok? <==> (MemberSpec(spec.layout, name).Ok? &&
                        (MemberSpec(spec.layout, name).value.ArraySpec? || MemberSpec(spec.layout, name).value.StreamSpec?))
    ensures r.Ok? ==> r == ArrayVisitorFor(MemberSpec(spec.layout, name).value, postOp)
  {
    Then(MemberSpec(spec.layout, name), (s: Spec) => ArrayVisitorFor(s, postOp))
  }

  /** `ArraySpec.newObject`: the visitor for an element that is an object. */
  function NewObject(spec: Spec, postOp: PostOp): (r: Result<ObjectVisitor>)
    requires spec.ArraySpec?
    ensures r.Ok? <==> spec.component.ObjectSpec?
    ensures r.Ok? ==> r.value == BindObject(spec.component, postOp)
  {
    ObjectVisitorFor(spec.component, postOp)
  }

  /** `ArraySpec.newArray`: the visitor for an element that is an array. */
  function NewArray(spec: Spec, postOp: PostOp): (r: Result<ArrayVisitor>)
    requires spec.ArraySpec?
    ensures r.Ok? <==> spec.component.ArraySpec? || spec.component.StreamSpec?
    ensures spec.component.ArraySpec? ==> r == Ok(BindArray(spec.component, postOp))
    ensures spec.component.StreamSpec? ==>
              r == Ok(BindStream(spec.component.component, spec.component.aggregator, postOp))
  {
    ArrayVisitorFor(spec.component, postOp)
  }

  /** `StreamSpec.newObjectFrom`: as `newObject`, with the no-op post-operation. */
  function NewObjectFrom(spec: Spec): (r: Result<ObjectVisitor>)
    requires spec.StreamSpec?
    ensures r.Ok? <==> spec.component.ObjectSpec?
    ensures r.Ok? ==> r.value == BindObject(spec.component, NoOp)
  {
    ObjectVisitorFor(spec.component, NoOp)
  }

  /** `StreamSpec.newArrayFrom`: as `newArray`, with the no-op post-operation. */
  function NewArrayFrom(spec: Spec): (r: Result<ArrayVisitor>)
    requires spec.StreamSpec?
    ensures r.Ok? <==> spec.component.ArraySpec? || spec.component.StreamSpec?
    ensures spec.component.ArraySpec? ==> r == Ok(BindArray(spec.component, NoOp))
    ensures spec.component.StreamSpec? ==>
              r == Ok(BindStream(spec.component.component, spec.component.aggregator, NoOp))
  {
    ArrayVisitorFor(spec.component, NoOp)
  }

  /** `Specs.convert` for an array or a stream spec: convert an element through
      the component, which must be a value spec. */
  function ConvertElement(spec: Spec, v: Value): (r: Result<Value>)
    requires spec.ArraySpec? || spec.StreamSpec?
    ensures !spec.component.ValueSpec? ==> r == Fail(InvalidSpecShape)
    ensures spec.component.ValueSpec? ==> r == ConvertTo(spec.component, v)
  {
    ScalarFor(spec.component, v)
  }

  /** `Specs.convert` for an object spec: convert the value of member `name`
      through that member's spec, which must exist and be a value spec. */
  function ConvertMember(spec: Spec, name: string, v: Value): (r: Result<Value>)
    requires spec.ObjectSpec?
    ensures MemberSpec(spec.layout, name).Fail? ==> r == Fail(UnknownMember(name))
    ensures MemberSpec(spec.layout, name).Ok? && !MemberSpec(spec.layout, name).value.ValueSpec? ==>
      r == Fail(InvalidSpecShape)
    ensures MemberSpec(spec.layout, name).Ok? && MemberSpec(spec.layout, name).value.ValueSpec? ==>
      r == ConvertTo(MemberSpec(spec.layout, name).value, v)
  {
    Then(MemberSpec(spec.layout, name), (s: Spec) => ScalarFor(s, v))
  }
}
