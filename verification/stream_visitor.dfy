/** `BindStreamVisitor`: the array visitor that decodes a stream spec. It always
    asks for PULL_INSIDE, so the driver hands it the decoded elements as one
    sequence, which it aggregates. */
module StreamVisitor {
  import opened Results
  import opened Values
  import opened Specs
  import opened Visitors
  import opened SpecDispatch

  /** The two-argument constructor. */
  function New(spec: Spec, postOp: PostOp): (v: ArrayVisitor)
    requires spec.StreamSpec?
    ensures v.BindStream? && v.postOp == postOp
    ensures StreamSpec(v.component, v.aggregator) == spec
  {
    BindStream(spec.component, spec.aggregator, postOp)
  }

  /** The one-argument constructor: the post-operation is the no-op. */
  function NewWithoutPostOp(spec: Spec): (v: ArrayVisitor)
    requires spec.StreamSpec?
    ensures v.BindStream? && v.postOp == NoOp
    ensures StreamSpec(v.component, v.aggregator) == spec
  {
    New(spec, NoOp)
  }

  /** The visitor's answer to one call. */
  function Answer(component: Spec, aggregator: seq<Obj> -> Obj, postOp: PostOp, call: ArrayCall): (r: Response)
    ensures call.CallStartArray? ==> r == Response(ModeReply(PullInside), [])
    ensures call.CallStream? ==>
      r == Response(ResultReply(aggregator(call.elements)), [PostOpCall(postOp, aggregator(call.elements))])
    ensures call.CallEndArray? ==> r == Response(ResultReply(ONull), [])
    ensures call.CallObject? ==> (r.reply.ObjectChild? <==> component.ObjectSpec?)
    ensures call.CallArray? ==> (r.reply.ArrayChild? <==> component.ArraySpec? || component.StreamSpec?)
    ensures call.CallValue? ==> (r.reply.ResultReply? <==> ScalarFor(component, call.value).Ok?)
    ensures call.CallValue? && r.reply.ResultReply? ==>
      r.reply.result == AsObject(ConvertTo(component, call.value).value)
    ensures call.CallValue? && !component.ValueSpec? ==> r.reply == Raised(InvalidSpecShape)
    ensures !call.CallStream? ==> r.postOps == []
  {
    var spec := StreamSpec(component, aggregator);
    match call
    case CallStartArray => Response(ModeReply(PullInside), [])
    case CallStream(elements) =>
      var result := aggregator(elements);
      Response(ResultReply(result), [PostOpCall(postOp, result)])
    case CallObject =>
      (match NewObjectFrom(spec)
       case Ok(child) => Response(ObjectChild(Some(child)), [])
       case Fail(e) => Response(Raised(e), []))
    case CallArray =>
      (match NewArrayFrom(spec)
       case Ok(child) => Response(ArrayChild(Some(child)), [])
       case Fail(e) => Response(Raised(e), []))
    case CallValue(v) =>
      (match ConvertElement(spec, v)
       case Ok(w) => Response(ResultReply(AsObject(w)), [])
       case Fail(e) => Response(Raised(e), []))
    case CallEndArray => Response(ResultReply(ONull), [])
  }
}
