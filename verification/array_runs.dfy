/** Array visitors driven by a sequence of calls: the response of any visitor
    of the model, and what a whole run of calls produces. */
module ArrayRuns {
  import opened Results
  import opened Values
  import opened Visitors
  import StreamVisitor
  import FilterArray

  /** How a filter decorator forwards its delegate's response: as
      `FilterArrayVisitor` is written (`FilterArray.Forward`), or with the
      correction that lets a skipped child through (`FilterArray.ForwardSkipping`). */
  datatype Forwarding = AsWritten | Skipping

  function Fwd(fw: Forwarding, filter: string -> bool, delegated: Response): Response
  {
    match fw
    case AsWritten => FilterArray.Forward(filter, delegated)
    case Skipping => FilterArray.ForwardSkipping(filter, delegated)
  }

  /** The response of `v` to `call`, after it already received `history`. */
  function Respond(w: World, fw: Forwarding, v: ArrayVisitor, history: seq<ArrayCall>, call: ArrayCall): Response
    decreases v
  {
    match v
    case BindStream(component, aggregator, postOp) => StreamVisitor.Answer(component, aggregator, postOp, call)
    case FilterArray(delegate, filter) => Fwd(fw, filter, Respond(w, fw, delegate, history, call))
    case _ => w.answer(v, history, call)
  }

  /** The responses of `v` to `calls`, one per call, in order. A `Raised`
      response is the exception that one call throws; the calls after it are
      answered as the caller goes on making them. */
  function Run(w: World, fw: Forwarding, v: ArrayVisitor, history: seq<ArrayCall>, calls: seq<ArrayCall>): (rs: seq<Response>)
    ensures |rs| == |calls|
    ensures forall i :: 0 <= i < |calls| ==> rs[i] == Respond(w, fw, v, history + calls[..i], calls[i])
    decreases |calls|
  {
    if calls == [] then []
    else
      ShiftHistory(history, calls);
      [Respond(w, fw, v, history, calls[0])] + Run(w, fw, v, history + [calls[0]], calls[1..])
  }

  /** After its first call, the history of a run before call `i` is the
      history before call `i - 1` of the rest of the run. */
  lemma ShiftHistory<C>(history: seq<C>, calls: seq<C>)
    requires |calls| > 0
    ensures history + calls[..0] == history
    ensures forall i :: 1 <= i < |calls| ==>
      history + [calls[0]] + calls[1..][..i - 1] == history + calls[..i] && calls[1..][i - 1] == calls[i]
  {
  }

  /** Every post-operation invocation of a run, in order. */
  function AllPostOps(rs: seq<Response>): seq<PostOpCall>
    decreases |rs|
  {
    if rs == [] then [] else rs[0].postOps + AllPostOps(rs[1..])
  }

  /** The filter's forwarding applied to each response. */
  function ForwardAll(fw: Forwarding, filter: string -> bool, rs: seq<Response>): (out: seq<Response>)
    ensures |out| == |rs|
    ensures forall i :: 0 <= i < |rs| ==> out[i] == Fwd(fw, filter, rs[i])
    decreases |rs|
  {
    if rs == [] then [] else [Fwd(fw, filter, rs[0])] + ForwardAll(fw, filter, rs[1..])
  }

  /** Trace equality for the filter decorator, as written and corrected alike:
      a run of the decorator is the run of its delegate on the very same calls,
      each response forwarded. */
  lemma FilterRunForwards(w: World, fw: Forwarding, d: ArrayVisitor, filter: string -> bool,
                           history: seq<ArrayCall>, calls: seq<ArrayCall>)
    ensures Run(w, fw, FilterArray(d, filter), history, calls) == ForwardAll(fw, filter, Run(w, fw, d, history, calls))
  {
  }

  /** Forwarding keeps every post-operation invocation. */
  lemma {:induction false} ForwardAllKeepsPostOps(fw: Forwarding, filter: string -> bool, rs: seq<Response>)
    ensures AllPostOps(ForwardAll(fw, filter, rs)) == AllPostOps(rs)
    decreases |rs|
  {
    if rs != [] {
      ForwardAllKeepsPostOps(fw, filter, rs[1..]);
    }
  }

  /** At array level the predicate is never consulted: when the delegate's
      response holds no child visitor, the decorator answers exactly that. */
  lemma FilterTransparent(w: World, fw: Forwarding, d: ArrayVisitor, filter: string -> bool,
                          history: seq<ArrayCall>, calls: seq<ArrayCall>, i: nat)
    requires i < |calls|
    requires !Respond(w, fw, d, history + calls[..i], calls[i]).reply.ObjectChild?
    requires !Respond(w, fw, d, history + calls[..i], calls[i]).reply.ArrayChild?
    ensures Run(w, fw, FilterArray(d, filter), history, calls)[i] == Run(w, fw, d, history, calls)[i]
  {
  }

  /** The decorator as written: wherever its delegate skips a nested object or
      array by answering null, the decorator raises instead. */
  lemma FilterRaisesOnSkip(w: World, d: ArrayVisitor, filter: string -> bool,
                           history: seq<ArrayCall>, calls: seq<ArrayCall>, i: nat)
    requires i < |calls|
    ensures Run(w, AsWritten, d, history, calls)[i].reply == ArrayChild(None) ==>
            Run(w, AsWritten, FilterArray(d, filter), history, calls)[i].reply == Raised(NullPointer("delegate"))
    ensures Run(w, AsWritten, d, history, calls)[i].reply == ObjectChild(None) ==>
            Run(w, AsWritten, FilterArray(d, filter), history, calls)[i].reply == Raised(NullPointer("delegate"))
  {
  }

  /** The two forwardings differ only on a skip: when the delegate does not
      answer a null child, the decorator as written and the corrected one give
      the same response. */
  lemma ForwardingsAgree(filter: string -> bool, delegated: Response)
    ensures delegated.reply != ArrayChild(None) && delegated.reply != ObjectChild(None) <==>
            Fwd(AsWritten, filter, delegated) == Fwd(Skipping, filter, delegated)
  {
  }

  /** The corrected decorator: at any point of a run, it skips a subtree
      exactly when its delegate does. */
  lemma FilterHonoursSkip(w: World, d: ArrayVisitor, filter: string -> bool,
                          history: seq<ArrayCall>, calls: seq<ArrayCall>, i: nat)
    requires i < |calls|
    ensures Run(w, Skipping, FilterArray(d, filter), history, calls)[i].reply == ArrayChild(None) <==>
            Run(w, Skipping, d, history, calls)[i].reply == ArrayChild(None)
    ensures Run(w, Skipping, FilterArray(d, filter), history, calls)[i].reply == ObjectChild(None) <==>
            Run(w, Skipping, d, history, calls)[i].reply == ObjectChild(None)
  {
  }

  /** The post-operation invocations a stream visitor owes a run of calls: one
      per `visitStream`, handing over that call's aggregate. */
  function StreamPostOps(aggregator: seq<Obj> -> Obj, postOp: PostOp, calls: seq<ArrayCall>): seq<PostOpCall>
    decreases |calls|
  {
    if calls == [] then []
    else
      (if calls[0].CallStream? then [PostOpCall(postOp, aggregator(calls[0].elements))] else [])
      + StreamPostOps(aggregator, postOp, calls[1..])
  }

  /** A stream visitor runs its post-operation exactly once per `visitStream`,
      on the value it returns, and never otherwise. */
  lemma {:induction false} StreamRunPostOps(w: World, fw: Forwarding, component: Specs.Spec, aggregator: seq<Obj> -> Obj,
                                            postOp: PostOp, history: seq<ArrayCall>, calls: seq<ArrayCall>)
    ensures AllPostOps(Run(w, fw, BindStream(component, aggregator, postOp), history, calls))
            == StreamPostOps(aggregator, postOp, calls)
    decreases |calls|
  {
    if calls != [] {
      var v := BindStream(component, aggregator, postOp);
      var rs := Run(w, fw, v, history, calls);
      assert rs[1..] == Run(w, fw, v, history + [calls[0]], calls[1..]);
      StreamRunPostOps(w, fw, component, aggregator, postOp, history + [calls[0]], calls[1..]);
    }
  }

  /** Whatever it received before, a stream visitor answers every `visitStartArray`
      with PULL_INSIDE and every `visitStream` with the aggregate of its elements. */
  lemma StreamRunReplies(w: World, fw: Forwarding, component: Specs.Spec, aggregator: seq<Obj> -> Obj,
                         postOp: PostOp, history: seq<ArrayCall>, calls: seq<ArrayCall>, i: nat)
    requires i < |calls|
    ensures calls[i].CallStartArray? ==>
      Run(w, fw, BindStream(component, aggregator, postOp), history, calls)[i].reply == ModeReply(PullInside)
    ensures calls[i].CallStream? ==>
      Run(w, fw, BindStream(component, aggregator, postOp), history, calls)[i].reply
        == ResultReply(aggregator(calls[i].elements))
  {
  }
}
