/** The visitor protocol: modes, the array-visitor calls and their replies,
    and the visitors of the binding core as values. */
module Visitors {
  import opened Results
  import opened Values
  import opened Specs

  /** The mode a visitor declares when it starts. */
  datatype Mode = Push | Pull | PullInside

  /** The post-operation a bind visitor hands its finished result to: a consumer
      supplied by the enclosing visitor, or the no-op of the one-argument constructors. */
  datatype PostOp = NoOp | Consumer(id: nat)

  /** Object visitors. `OutsideObject` stands for any visitor whose code is not part of this model. */
  datatype ObjectVisitor =
    | OutsideObject(id: nat)
    | BindObject(spec: Spec, postOp: PostOp)
    | FilterObject(delegate: ObjectVisitor, filter: string -> bool)

  /** Array visitors. `BindStream` keeps the two fields of its stream spec. */
  datatype ArrayVisitor =
    | OutsideArray(id: nat)
    | BindArray(spec: Spec, postOp: PostOp)
    | BindStream(component: Spec, aggregator: seq<Obj> -> Obj, postOp: PostOp)
    | FilterArray(delegate: ArrayVisitor, filter: string -> bool)

  /** The calls an array visitor receives. */
  datatype ArrayCall =
    | CallStartArray
    | CallStream(elements: seq<Obj>)
    | CallObject
    | CallArray
    | CallValue(value: Value)
    | CallEndArray

  /** What a call returns: a mode, a child visitor (`None` is null: skip the
      subtree), a result, or a raised error. */
  datatype Reply =
    | ModeReply(mode: Mode)
    | ObjectChild(objectChild: Option<ObjectVisitor>)
    | ArrayChild(arrayChild: Option<ArrayVisitor>)
    | ResultReply(result: Obj)
    | Raised(error: BindError)

  /** One invocation of a post-operation with the value handed to it. */
  datatype PostOpCall = PostOpCall(op: PostOp, value: Obj)

  /** A reply together with the post-operations run while answering. */
  datatype Response = Response(reply: Reply, postOps: seq<PostOpCall>)

  /** The behaviour of the visitors whose code is not part of this model: the
      response of an array visitor to a call given the calls it already received,
      and the mode an object visitor declares on `visitStartObject`. */
  datatype World = World(
    answer: (ArrayVisitor, seq<ArrayCall>, ArrayCall) -> Response,
    objectStart: ObjectVisitor -> Result<Mode>)
}
