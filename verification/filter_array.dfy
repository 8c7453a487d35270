/** `FilterArrayVisitor`: a decorator that forwards every array call to its
    delegate and wraps the delegate's child visitors with the same predicate. */
module FilterArray {
  import opened Results
  import opened Values
  import opened Visitors

  /** The constructor: both the delegate and the predicate must be non-null. */
  function New(delegate: Option<ArrayVisitor>, filter: Option<string -> bool>): (r: Result<ArrayVisitor>)
    ensures r.Ok? <==> delegate.Some? && filter.Some?
    ensures delegate.None? ==> r == Fail(NullPointer("delegate"))
    ensures delegate.Some? && filter.None? ==> r == Fail(NullPointer("predicate"))
    ensures r.Ok? ==> r.value == FilterArray(delegate.value, filter.value)
  {
    match (delegate, filter)
    case (None, _) => Fail(NullPointer("delegate"))
    case (_, None) => Fail(NullPointer("predicate"))
    case (Some(d), Some(p)) => Ok(FilterArray(d, p))
  }

  /** The constructor of the object decorator, with the same null check. */
  function NewObject(delegate: Option<ObjectVisitor>, filter: Option<string -> bool>): (r: Result<ObjectVisitor>)
    ensures r.Ok? <==> delegate.Some? && filter.Some?
    ensures delegate.None? ==> r == Fail(NullPointer("delegate"))
    ensures r.Ok? ==> r.value == FilterObject(delegate.value, filter.value)
  {
    match (delegate, filter)
    case (None, _) => Fail(NullPointer("delegate"))
    case (_, None) => Fail(NullPointer("predicate"))
    case (Some(d), Some(p)) => Ok(FilterObject(d, p))
  }

  /** The decorator's response, given the delegate's response to the same call:
      results, modes and errors pass unchanged; a child is wrapped with the same
      predicate, and a null child makes the wrapping constructor fail. */
  function Forward(filter: string -> bool, delegated: Response): (r: Response)
    ensures r.postOps == delegated.postOps
    ensures !delegated.reply.ObjectChild? && !delegated.reply.ArrayChild? ==> r == delegated
    ensures delegated.reply == ObjectChild(None) ==> r.reply == Raised(NullPointer("delegate"))
    ensures delegated.reply == ArrayChild(None) ==> r.reply == Raised(NullPointer("delegate"))
    ensures delegated.reply.ObjectChild? && delegated.reply.objectChild.Some? ==>
      r.reply == ObjectChild(Some(FilterObject(delegated.reply.objectChild.value, filter)))
    ensures delegated.reply.ArrayChild? && delegated.reply.arrayChild.Some? ==>
      r.reply == ArrayChild(Some(FilterArray(delegated.reply.arrayChild.value, filter)))
  {
    match delegated.reply
    case ObjectChild(child) =>
      (match NewObject(child, Some(filter))
       case Ok(v) => Response(ObjectChild(Some(v)), delegated.postOps)
       case Fail(e) => Response(Raised(e), delegated.postOps))
    case ArrayChild(child) =>
      (match New(child, Some(filter))
       case Ok(v) => Response(ArrayChild(Some(v)), delegated.postOps)
       case Fail(e) => Response(Raised(e), delegated.postOps))
    case _ => delegated
  }

  /** The forwarding the visitor protocol asks for: a null child from the
      delegate (skip this subtree) stays null; everything else as `Forward`. */
  function ForwardSkipping(filter: string -> bool, delegated: Response): (r: Response)
    ensures r.postOps == delegated.postOps
    ensures !delegated.reply.ObjectChild? && !delegated.reply.ArrayChild? ==> r == delegated
    ensures r.reply == ObjectChild(None) <==> delegated.reply == ObjectChild(None)
    ensures r.reply == ArrayChild(None) <==> delegated.reply == ArrayChild(None)
    ensures delegated.reply.ObjectChild? && delegated.reply.objectChild.Some? ==>
      r.reply == ObjectChild(Some(FilterObject(delegated.reply.objectChild.value, filter)))
    ensures delegated.reply.ArrayChild? && delegated.reply.arrayChild.Some? ==>
      r.reply == ArrayChild(Some(FilterArray(delegated.reply.arrayChild.value, filter)))
    ensures delegated.reply != ObjectChild(None) && delegated.reply != ArrayChild(None) ==>
      r == Forward(filter, delegated)
  {
    match delegated.reply
    case ObjectChild(None) => delegated
    case ArrayChild(None) => delegated
    case _ => Forward(filter, delegated)
  }

  /** The decorator as written turns a delegate's skip into a failure: a
      delegate that declines a nested array makes `visitArray` raise instead of
      returning null, where the protocol's forwarding returns null. */
  lemma SkipBecomesFailure(filter: string -> bool)
    ensures Forward(filter, Response(ArrayChild(None), [])).reply == Raised(NullPointer("delegate"))
    ensures ForwardSkipping(filter, Response(ArrayChild(None), [])).reply == ArrayChild(None)
    ensures Forward(filter, Response(ObjectChild(None), [])).reply == Raised(NullPointer("delegate"))
    ensures ForwardSkipping(filter, Response(ObjectChild(None), [])).reply == ObjectChild(None)
  {
  }
}
