/** `BuilderConfig`: the immutable record of container factories and final
    transforms shared by the generic builders, and its mode check on delegates. */
module BuilderConfigs {
  import opened Results
  import opened Visitors
  import ArrayRuns

  /** Factories of the container for a JSON object. */
  datatype MapFactory = LinkedHashMapNew | CustomMapFactory(id: nat)

  /** Factories of the container for a JSON array. */
  datatype ListFactory = ArrayListNew | CustomListFactory(id: nat)

  /** The transform applied to a finished object container. */
  datatype MapTransform = UnmodifiableMap | IdentityMap | CustomMapTransform(id: nat)

  /** The transform applied to a finished array container. */
  datatype ListTransform = UnmodifiableList | IdentityList | CustomListTransform(id: nat)

  datatype BuilderConfig = BuilderConfig(
    mapSupplier: MapFactory,
    transformMapOp: MapTransform,
    listSupplier: ListFactory,
    transformListOp: ListTransform)

  /** The four-argument constructor: every argument must be non-null, and the
      first null one is named in the error. */
  function New(mapSupplier: Option<MapFactory>, transformMapOp: Option<MapTransform>,
               listSupplier: Option<ListFactory>, transformListOp: Option<ListTransform>): (r: Result<BuilderConfig>)
    ensures r.Ok? <==> mapSupplier.Some? && transformMapOp.Some? && listSupplier.Some? && transformListOp.Some?
    ensures r.Ok? ==> r.value == BuilderConfig(mapSupplier.value, transformMapOp.value,
                                               listSupplier.value, transformListOp.value)
    ensures mapSupplier.None? ==> r == Fail(NullPointer("mapSupplier"))
    ensures mapSupplier.Some? && transformMapOp.None? ==> r == Fail(NullPointer("transformMapOp"))
    ensures mapSupplier.Some? && transformMapOp.Some? && listSupplier.None? ==>
      r == Fail(NullPointer("listSupplier"))
    ensures mapSupplier.Some? && transformMapOp.Some? && listSupplier.Some? && transformListOp.None? ==>
      r == Fail(NullPointer("transformListOp"))
  {
    if mapSupplier.None? then Fail(NullPointer("mapSupplier"))
    else if transformMapOp.None? then Fail(NullPointer("transformMapOp"))
    else if listSupplier.None? then Fail(NullPointer("listSupplier"))
    else if transformListOp.None? then Fail(NullPointer("transformListOp"))
    else Ok(BuilderConfig(mapSupplier.value, transformMapOp.value, listSupplier.value, transformListOp.value))
  }

  /** The two-argument constructor: the given factories with the unmodifiable wrappers as transforms. */
  function NewWithFactories(mapSupplier: Option<MapFactory>, listSupplier: Option<ListFactory>): (r: Result<BuilderConfig>)
    ensures r.Ok? <==> mapSupplier.Some? && listSupplier.Some?
    ensures r.Ok? ==> r.value == BuilderConfig(mapSupplier.value, UnmodifiableMap,
                                               listSupplier.value, UnmodifiableList)
  {
    New(mapSupplier, Some(UnmodifiableMap), listSupplier, Some(UnmodifiableList))
  }

  /** `DEFAULT`, built once by the private constructor. */
  const Default: BuilderConfig := BuilderConfig(LinkedHashMapNew, UnmodifiableMap, ArrayListNew, UnmodifiableList)

  /** `defaults()`: the shared default configuration, the one the two-argument
      constructor makes from a LinkedHashMap and an ArrayList factory. */
  function Defaults(): (c: BuilderConfig)
    ensures c == Default
    ensures NewWithFactories(Some(LinkedHashMapNew), Some(ArrayListNew)) == Ok(c)
  {
    Default
  }

  /** `withTransformOps`: a new configuration with both transforms replaced and both factories kept. */
  function WithTransformOps(c: BuilderConfig, transformMapOp: Option<MapTransform>,
                            transformListOp: Option<ListTransform>): (r: Result<BuilderConfig>)
    ensures r.Ok? <==> transformMapOp.Some? && transformListOp.Some?
    ensures r.Ok? ==> r.value.mapSupplier == c.mapSupplier && r.value.listSupplier == c.listSupplier
    ensures r.Ok? ==> r.value.transformMapOp == transformMapOp.value
    ensures r.Ok? ==> r.value.transformListOp == transformListOp.value
  {
    New(Some(c.mapSupplier), transformMapOp, Some(c.listSupplier), transformListOp)
  }

  /** `withTransformMapOp`: only the object transform changes. */
  function WithTransformMapOp(c: BuilderConfig, transformMapOp: Option<MapTransform>): (r: Result<BuilderConfig>)
    ensures r.Ok? <==> transformMapOp.Some?
    ensures transformMapOp.None? ==> r == Fail(NullPointer("transformMapOp"))
    ensures r.Ok? ==> r.value == c.(transformMapOp := transformMapOp.value)
  {
    New(Some(c.mapSupplier), transformMapOp, Some(c.listSupplier), Some(c.transformListOp))
  }

  /** `withTransformListOp`: only the array transform changes. */
  function WithTransformListOp(c: BuilderConfig, transformListOp: Option<ListTransform>): (r: Result<BuilderConfig>)
    ensures r.Ok? <==> transformListOp.Some?
    ensures transformListOp.None? ==> r == Fail(NullPointer("transformListOp"))
    ensures r.Ok? ==> r.value == c.(transformListOp := transformListOp.value)
  {
    New(Some(c.mapSupplier), Some(c.transformMapOp), Some(c.listSupplier), transformListOp)
  }

  /** Replacing both transforms at once is replacing each in turn. */
  lemma WithTransformOpsIsBoth(c: BuilderConfig, m: MapTransform, l: ListTransform)
    ensures WithTransformOps(c, Some(m), Some(l)) ==
            WithTransformListOp(WithTransformMapOp(c, Some(m)).value, Some(l))
  {
  }

  /** An object builder: its configuration and its optional delegate. */
  datatype ObjectBuilder = ObjectBuilder(config: BuilderConfig, delegate: Option<ObjectVisitor>)

  /** An array builder: its configuration and its optional delegate. */
  datatype ArrayBuilder = ArrayBuilder(config: BuilderConfig, delegate: Option<ArrayVisitor>)

  /** `newObjectBuilder(delegate)`: a null delegate is fine; otherwise the
      delegate's `visitStartObject` must answer PULL. */
  function NewObjectBuilder(c: BuilderConfig, w: World, delegate: Option<ObjectVisitor>): (r: Result<ObjectBuilder>)
    ensures r.Ok? <==> delegate.None? || w.objectStart(delegate.value) == Ok(Pull)
    ensures r.Ok? ==> r.value == ObjectBuilder(c, delegate)
    ensures delegate.Some? && w.objectStart(delegate.value).Ok? && w.objectStart(delegate.value) != Ok(Pull) ==>
      r == Fail(IllegalArgument)
  {
    match delegate
    case None => Ok(ObjectBuilder(c, None))
    case Some(d) =>
      match w.objectStart(d)
      case Fail(e) => Fail(e)
      case Ok(mode) => if mode != Pull then Fail(IllegalArgument) else Ok(ObjectBuilder(c, delegate))
  }

  /** The reply of an array visitor to its first `visitStartArray`. */
  function StartReply(w: World, d: ArrayVisitor): Reply
  {
    ArrayRuns.Respond(w, ArrayRuns.AsWritten, d, [], CallStartArray).reply
  }

  /** `newArrayBuilder(delegate)`: a null delegate is fine; otherwise the
      delegate's `visitStartArray` must answer PULL. */
  function NewArrayBuilder(c: BuilderConfig, w: World, delegate: Option<ArrayVisitor>): (r: Result<ArrayBuilder>)
    ensures r.Ok? <==> delegate.None? || StartReply(w, delegate.value) == ModeReply(Pull)
    ensures r.Ok? ==> r.value == ArrayBuilder(c, delegate)
    ensures delegate.Some? && StartReply(w, delegate.value).ModeReply? && StartReply(w, delegate.value).mode != Pull ==>
      r == Fail(IllegalArgument)
  {
    match delegate
    case None => Ok(ArrayBuilder(c, None))
    case Some(d) =>
      match StartReply(w, d)
      case Raised(e) => Fail(e)
      case ModeReply(mode) => if mode != Pull then Fail(IllegalArgument) else Ok(ArrayBuilder(c, delegate))
      case _ => Fail(IllegalArgument)
  }

  /** A stream visitor, possibly under filter decorators. */
  predicate IsFilteredStream(d: ArrayVisitor)
  {
    match d
    case BindStream(_, _, _) => true
    case FilterArray(inner, _) => IsFilteredStream(inner)
    case _ => false
  }

  /** A stream visitor declares PULL_INSIDE, so it is never accepted as a
      delegate, however many filters wrap it. */
  lemma {:induction false} StreamDelegateRejected(c: BuilderConfig, w: World, d: ArrayVisitor)
    requires IsFilteredStream(d)
    ensures NewArrayBuilder(c, w, Some(d)) == Fail(IllegalArgument)
  {
    StreamStartsPullInside(w, d);
  }

  lemma {:induction false} StreamStartsPullInside(w: World, d: ArrayVisitor)
    requires IsFilteredStream(d)
    ensures StartReply(w, d) == ModeReply(PullInside)
  {
    if d.FilterArray? {
      StreamStartsPullInside(w, d.delegate);
    }
  }

  /** A filter decorator is accepted as a delegate exactly when what it decorates is. */
  lemma FilterDelegateAccepted(c: BuilderConfig, w: World, d: ArrayVisitor, filter: string -> bool)
    ensures NewArrayBuilder(c, w, Some(FilterArray(d, filter))).Ok? <==> NewArrayBuilder(c, w, Some(d)).Ok?
  {
  }
}
