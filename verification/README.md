# jsonapi typed binding, modelled in Dafny

This project models the typed-binding core of the `jsonapi` Java library (package
`fr.umlv.jsonapi`) and proves properties of that model. The core has five parts:

- **The spec algebra** (`Specs.java`). A spec describes the shape of a Java type as
  `ValueSpec`, `ObjectSpec`, `ArraySpec` or `StreamSpec`. The model covers converter
  composition (`convertWith`), member filters (`filterWith`), scalar conversion
  through a component or member spec (`convert`), and the choice of a child visitor
  (`newMemberObject`, `newMemberArray`, `newObject`, `newArray`, `newObjectFrom`,
  `newArrayFrom`). It also covers replay: walking a Java value and driving visitors
  with it (`replayRoot`, `replayValue`, `replayMember`, `replayIterable`, `replayMap`,
  `ObjectSpec.replay`).
- **The record and enum finders** (`SpecFinders.java`). The record layout is an
  ordered list of (name, spec) components. Its builder is a slot array. The layout
  looks members up by name, starts a builder from its exemplar, writes one slot per
  `add*` call, builds the record or names its first uninitialized member, and
  replays a record's components in declaration order. The enum finder looks
  constants up by name. The catch-all finder accepts every type; its spec writes values unchanged but
  never reads one back.
- **`BindStreamVisitor`**. The array visitor for a stream spec. It always declares
  PULL_INSIDE, aggregates the element sequence it is handed, and passes that result
  to its post-operation exactly once.
- **`FilterArrayVisitor`**. The decorator that forwards every array call and wraps
  child visitors with the same predicate.
- **`BuilderConfig`**. A four-field immutable configuration, with its
  `with…` operations and the PULL-mode check on builder delegates.

## Layout of the Dafny project

| file | module | contents |
|---|---|---|
| results.dfy | `Results` | `BindError`, `Option`, `Result`: each Java exception becomes a `Fail` |
| values.dfy | `Values` | native objects `Obj`, JSON values `Value`, `FromAny`/`AsObject` |
| specs.dfy | `Specs` | the spec datatype, converters, `ConvertWith`, `FilterWith`, `DefaultValue` |
| layouts.dfy | `Layouts` | the record layout: lookup, builder, `add*`, `Build`, `Replay`, round trip |
| visitors.dfy | `Visitors` | modes, array-visitor calls and replies, visitors as values |
| dispatch.dfy | `SpecDispatch` | child-visitor selection and scalar conversion by spec variant |
| stream_visitor.dfy | `StreamVisitor` | `BindStreamVisitor` |
| filter_array.dfy | `FilterArray` | `FilterArrayVisitor` |
| array_runs.dfy | `ArrayRuns` | array visitors driven by a call sequence, and trace equalities |
| builder_config.dfy | `BuilderConfigs` | `BuilderConfig` |
| traces.dfy | `Traces` | visitor events and the bracket discipline they follow (`WellNested`) |
| replay.dfy | `Replay` | replay of Java values into visitor events |
| finders.dfy | `Finders` | the record, enum and catch-all finders |
| enum_example.dfy | `EnumExample` | the `Policy`/`Contract` example, read and written |

Modelling choices:

- **Visitors.** A visitor is a datatype value. `BindObjectVisitor` and
  `BindArrayVisitor` are `BindObject`/`BindArray`, which record only their spec and
  post-operation. Any other visitor whose code is not part of this model, such as
  the `ObjectBuilder`/`ArrayBuilder` internals, is `OutsideObject`/`OutsideArray`.
  The behaviour of all of these is a `World` parameter: the response of an array
  visitor to a call, given the calls it already received, and the mode an object
  visitor declares.
- **Array runs.** An array visitor answers a sequence of calls with a sequence of
  responses (`ArrayRuns.Run`). Each response records the reply and every
  post-operation invocation made while answering. This lets "forwarding" and
  "exactly once" be stated as equalities between sequences.
- **Replay.** Replay makes calls on visitors. They are collected into one flat
  `Traces.Event` sequence. The visitors' own answers are a `Sink`: which child
  requests return null (by path) and what an end call returns.
- **Filter decorator.** A run of array visitors is parameterised by how a filter
  decorator forwards its delegate's response (`ArrayRuns.Forwarding`): `AsWritten`
  is `FilterArray.Forward`, the code as it stands, and `Skipping` is
  `FilterArray.ForwardSkipping`, the corrected forwarding (see Findings). Lemmas
  that hold for both are stated for both. The builder's delegate check uses the
  forwarding as written.
- **Errors.** Each exception is a `Fail`. In replay, an exception ends the replay:
  no call is made after it. In a run of array calls (`ArrayRuns.Run`), each call is
  answered on its own. A `Raised` response is the exception that one call throws,
  and the calls after it are answered as the caller goes on making them.

## Model

| member | source | states |
|---|---|---|
| Specs.ConvertTo | src/main/java/fr/umlv/jsonapi/bind/Specs.java:45-50 | the read direction of a value spec; `NoConverterIsIdentity` states it is the identity without a converter, and the `ConvertWith` contract states how it composes |
| Specs.ConvertFrom | src/main/java/fr/umlv/jsonapi/bind/Specs.java:38-43 | the write direction of a value spec; `NoConverterIsIdentity` states it is the identity without a converter, and the `ConvertWith` contract states that it runs the new converter before the old one |
| Specs.DefaultValue | src/main/java/fr/umlv/jsonapi/bind/Specs.java:186-191 | the default of a value spec and null for every other spec; `Layouts.NewBuilder` and `Layouts.BuildFresh` state how a fresh builder's slots come from it |
| Specs.NoConverterIsIdentity | src/main/java/fr/umlv/jsonapi/bind/Specs.java:38-50 | a value spec without converter converts every value to itself, in both directions |
| Specs.ComposeAssoc | src/main/java/fr/umlv/jsonapi/bind/Specs.java:52-65 | stacking converters by successive `convertWith` calls is associative, in the read and in the write direction |
| Specs.ConvertWith | src/main/java/fr/umlv/jsonapi/bind/Specs.java:52-67 | a null converter always fails: with whatever the current converter raises on the default, if it raises, and with a NullPointerException otherwise. Otherwise the result is a value spec named old name + ".convert()". Without an old converter it installs the new one as is. It reads through the old converter then the new one, and writes through the new one then the old one. It succeeds iff the old default converts, and its default is that conversion |
| Specs.ConvertWithTwice | src/main/java/fr/umlv/jsonapi/bind/Specs.java:52-65 | converting with `f` then `g` reads as `g` after `f` after the old converter, and writes in the inverse order |
| Specs.FilterWith | src/main/java/fr/umlv/jsonapi/bind/Specs.java:127-131 | same layout, name + ".filter()". Without an old filter the predicate is installed as is. A member is accepted iff the new predicate and the old filter both accept it |
| Specs.FilterWithTwice | src/main/java/fr/umlv/jsonapi/bind/Specs.java:127-131 | on an unfiltered spec, two filters in a row accept exactly the names both predicates accept |
| Specs.FilterAllAccepts | src/main/java/fr/umlv/jsonapi/bind/Specs.java:127-131 | after any chain of `filterWith` calls, a member is accepted iff the original filter and every added predicate accept it |
| SpecDispatch.OneRoutePerShape | src/main/java/fr/umlv/jsonapi/bind/Specs.java:140-168 | a component spec leads to an object child, an array child, or a scalar conversion, and never to two of them |
| SpecDispatch.NewMemberObject | src/main/java/fr/umlv/jsonapi/bind/Specs.java:100-106 | an unknown member fails with UnknownMember; otherwise it succeeds iff the member spec is an object spec, giving an object bind visitor with the post-operation |
| SpecDispatch.NewMemberArray | src/main/java/fr/umlv/jsonapi/bind/Specs.java:107-116 | an unknown member fails; otherwise it succeeds iff the member spec is an array or stream spec, giving the matching bind visitor |
| SpecDispatch.NewObject | src/main/java/fr/umlv/jsonapi/bind/Specs.java:140-145 | succeeds iff the element spec is an object spec |
| SpecDispatch.NewArray | src/main/java/fr/umlv/jsonapi/bind/Specs.java:146-154 | succeeds iff the element spec is an array or stream spec, with the matching visitor |
| SpecDispatch.NewObjectFrom | src/main/java/fr/umlv/jsonapi/bind/Specs.java:77-82 | succeeds iff the stream's component is an object spec, with the no-op post-operation |
| SpecDispatch.NewArrayFrom | src/main/java/fr/umlv/jsonapi/bind/Specs.java:83-91 | succeeds iff the stream's component is an array or stream spec, with the no-op post-operation |
| SpecDispatch.ConvertElement | src/main/java/fr/umlv/jsonapi/bind/Specs.java:163-176 | an element converts through the component's `convertTo` when that is a value spec, and fails with InvalidSpecShape otherwise |
| SpecDispatch.ConvertMember | src/main/java/fr/umlv/jsonapi/bind/Specs.java:177-183 | an unknown member fails with UnknownMember; a member whose spec is not a value spec fails with InvalidSpecShape; otherwise the member spec's `convertTo` |
| Layouts.IndexOf | src/main/java/fr/umlv/jsonapi/bind/SpecFinders.java:34-44 | the index found holds the name and no later component does (later puts win); absent iff no component has the name |
| Layouts.IndexOfDistinct | src/main/java/fr/umlv/jsonapi/bind/SpecFinders.java:34-44 | with distinct names, each component's name leads back to its own index |
| Layouts.MemberSpec | src/main/java/fr/umlv/jsonapi/bind/SpecFinders.java:67-78 | fails with UnknownMember iff no component has the name; otherwise it is the spec of a component with that name |
| Layouts.NewBuilder | src/main/java/fr/umlv/jsonapi/bind/SpecFinders.java:81-83 | one slot per component, holding the spec's default, or UNINITIALIZED when that default is null (always for non-value specs) |
| Layouts.BuildFresh | src/main/java/fr/umlv/jsonapi/bind/SpecFinders.java:47-48 | a fresh builder builds iff every component has a non-null default, and then builds the record of the defaults |
| Layouts.AddObject | src/main/java/fr/umlv/jsonapi/bind/SpecFinders.java:85-93 | fails iff the member is unknown; otherwise exactly the member's slot becomes the object, and every other slot is unchanged (`Layouts.AddArray` is the same operation for arrays) |
| Layouts.AddValue | src/main/java/fr/umlv/jsonapi/bind/SpecFinders.java:94-98 | fails iff the member is unknown; otherwise exactly the member's slot becomes the value's native form |
| Layouts.FirstUninitialized | src/main/java/fr/umlv/jsonapi/bind/SpecFinders.java:101-106 | the first UNINITIALIZED slot in declaration order, absent iff every slot is set |
| Layouts.Build | src/main/java/fr/umlv/jsonapi/bind/SpecFinders.java:100-115 | fails iff some slot is UNINITIALIZED, naming the first such member; otherwise the record instance whose fields are exactly the slot values in order |
| Layouts.Replay | src/main/java/fr/umlv/jsonapi/bind/SpecFinders.java:117-130 | one (name, accessor value) pair per component in declaration order; an object of another type fails before any pair |
| Layouts.RefillFrame | src/main/java/fr/umlv/jsonapi/bind/SpecFinders.java:94-98 | decoding pairs one `addValue` at a time succeeds only if every pair names a member, and a slot that no pair names keeps its value |
| Layouts.RefillFrom | src/main/java/fr/umlv/jsonapi/bind/SpecFinders.java:94-98 | writing each replayed member through a per-member write conversion and decoding the pairs from index k on, through a read conversion that turns each written form back into the member's JSON form, fills exactly the slots from k on with the record's fields and leaves the others alone |
| Layouts.RoundTrip | src/main/java/fr/umlv/jsonapi/bind/SpecFinders.java:94-130 | writing every replayed member of a record through its write conversion, decoding the pairs into a fresh builder through a read conversion that inverts it, and building gives back the same record |
| Finders.ResolveComponents | src/main/java/fr/umlv/jsonapi/bind/SpecFinders.java:36-44 | every component's spec comes from the downward finder, in order; the first failure propagates |
| Finders.RecordFinder | src/main/java/fr/umlv/jsonapi/bind/SpecFinders.java:24-66 | declines a non-record type; otherwise an unfiltered object spec named after the type, whose layout lists the components in order with their downward specs, and which fails iff some component's spec does |
| Finders.RecordFinderLayout | src/main/java/fr/umlv/jsonapi/bind/SpecFinders.java:24-83 | with distinct component names, the record spec's member lookup finds, for each component, the spec the downward finder gave for its type, and a fresh builder holds that spec's default, or UNINITIALIZED when it is null |
| Finders.EnumLookup | src/main/java/fr/umlv/jsonapi/bind/SpecFinders.java:142-149 | succeeds iff the value is a string naming a constant, giving that constant; a non-string fails with NotAString and an unknown name with UnknownEnumConstant |
| Finders.EnumFinder | src/main/java/fr/umlv/jsonapi/bind/SpecFinders.java:135-151 | declines a type that is not an enum; otherwise a value spec named after the type, with no default, reading by `EnumLookup` |
| Finders.EnumName | src/test/java/fr/umlv/jsonapi/bind/BinderEnumTest.java:24-32 | an enum constant is written as its name; anything else is written unchanged |
| Finders.EnumRoundTrip | src/main/java/fr/umlv/jsonapi/bind/SpecFinders.java:141-148 | writing a constant gives its name, reading that name gives the constant back |
| Finders.AnyTypeFinder | src/main/java/fr/umlv/jsonapi/bind/SpecFinders.java:153-158 | accepts every type, with a value spec named after the type, with no default, whose read direction always fails with NoDefaultConversion and whose write direction passes values unchanged |
| Finders.ConvertWithNullReadsDefaultFirst | src/main/java/fr/umlv/jsonapi/bind/Specs.java:52-66 | `convertWith(null)` on the catch-all spec raises "no default conversion", and on an enum spec it raises NotAString for the null default, before any NullPointerException |
| Finders.AnyTypeReplay | src/main/java/fr/umlv/jsonapi/bind/Specs.java:235-285 | a value whose class the catch-all finder answers for is replayed as one value call carrying its JSON form, and cannot be read back |
| StreamVisitor.New | src/main/java/fr/umlv/jsonapi/bind/BindStreamVisitor.java:16-19 | a stream bind visitor holding the spec's component, aggregator and the post-operation |
| StreamVisitor.NewWithoutPostOp | src/main/java/fr/umlv/jsonapi/bind/BindStreamVisitor.java:21-23 | the same with the no-op post-operation |
| StreamVisitor.Answer | src/main/java/fr/umlv/jsonapi/bind/BindStreamVisitor.java:25-55 | start answers PULL_INSIDE; a stream answers the aggregate and hands it to the post-operation; end answers null; children exist iff the component has the right shape; a value converts through the component spec; only a stream call runs the post-operation |
| ArrayRuns.StreamRunPostOps | src/main/java/fr/umlv/jsonapi/bind/BindStreamVisitor.java:30-35 | over any call sequence, the post-operation runs exactly once per stream call, on that call's aggregate, and never otherwise |
| ArrayRuns.StreamRunReplies | src/main/java/fr/umlv/jsonapi/bind/BindStreamVisitor.java:25-35 | whatever came before, a start call answers PULL_INSIDE and a stream call answers its aggregate |
| FilterArray.New | src/main/java/fr/umlv/jsonapi/internal/FilterArrayVisitor.java:16-19 | succeeds iff both delegate and predicate are non-null, naming the delegate first |
| FilterArray.NewObject | src/main/java/fr/umlv/jsonapi/internal/FilterArrayVisitor.java:31-35 | the object decorator, with the same null checks |
| FilterArray.Forward | src/main/java/fr/umlv/jsonapi/internal/FilterArrayVisitor.java:21-51 | the decorator as written: modes, results and errors pass unchanged; a child is wrapped with the same predicate; a null child makes the wrapping constructor fail; post-operations are the delegate's |
| FilterArray.ForwardSkipping | src/main/java/fr/umlv/jsonapi/internal/FilterArrayVisitor.java:31-41 | the corrected forwarding: a null child stays null (skip iff the delegate skips), and every other response is exactly what `Forward` gives |
| FilterArray.SkipBecomesFailure | src/main/java/fr/umlv/jsonapi/internal/FilterArrayVisitor.java:37-41 | a declined nested array or object makes the written decorator raise, where the corrected one returns null |
| ArrayRuns.FilterRunForwards | src/main/java/fr/umlv/jsonapi/internal/FilterArrayVisitor.java:21-51 | for the decorator as written and for the corrected one alike, over any call sequence, the decorator's responses are its delegate's responses to the same calls, each forwarded |
| ArrayRuns.ForwardAllKeepsPostOps | src/main/java/fr/umlv/jsonapi/internal/FilterArrayVisitor.java:21-51 | either forwarding keeps the sequence of post-operation invocations |
| ArrayRuns.FilterTransparent | src/main/java/fr/umlv/jsonapi/internal/FilterArrayVisitor.java:21-29 | under either forwarding, when the delegate's response holds no child visitor, the decorator's response equals the delegate's: the predicate is not consulted |
| ArrayRuns.FilterRaisesOnSkip | src/main/java/fr/umlv/jsonapi/internal/FilterArrayVisitor.java:31-41 | the decorator as written: at any point of a run where the delegate answers a null child, the decorator raises NullPointerException |
| ArrayRuns.ForwardingsAgree | src/main/java/fr/umlv/jsonapi/internal/FilterArrayVisitor.java:31-41 | the written and the corrected forwarding give the same response exactly when the delegate's reply is not a null child |
| ArrayRuns.FilterHonoursSkip | src/main/java/fr/umlv/jsonapi/internal/FilterArrayVisitor.java:31-41 | the corrected half of the Findings row: at every point of a run, the corrected decorator skips a nested object or array exactly when its delegate does |
| BuilderConfigs.New | src/main/java/fr/umlv/jsonapi/builder/BuilderConfig.java:74-82 | succeeds iff all four arguments are non-null, naming the first null one; the fields are the arguments |
| BuilderConfigs.NewWithFactories | src/main/java/fr/umlv/jsonapi/builder/BuilderConfig.java:90-93 | the factories with the unmodifiable wrappers as transforms |
| BuilderConfigs.Defaults | src/main/java/fr/umlv/jsonapi/builder/BuilderConfig.java:95-107 | always the one shared `DEFAULT`, which is what the two-argument constructor makes from the LinkedHashMap and ArrayList factories |
| BuilderConfigs.WithTransformOps | src/main/java/fr/umlv/jsonapi/builder/BuilderConfig.java:120-124 | both transforms replaced, both factories kept |
| BuilderConfigs.WithTransformMapOp | src/main/java/fr/umlv/jsonapi/builder/BuilderConfig.java:135-137 | only the object transform changes; a null transform fails |
| BuilderConfigs.WithTransformListOp | src/main/java/fr/umlv/jsonapi/builder/BuilderConfig.java:148-150 | only the array transform changes; a null transform fails |
| BuilderConfigs.WithTransformOpsIsBoth | src/main/java/fr/umlv/jsonapi/builder/BuilderConfig.java:120-150 | replacing both transforms at once equals replacing each in turn |
| BuilderConfigs.NewObjectBuilder | src/main/java/fr/umlv/jsonapi/builder/BuilderConfig.java:175-180 | succeeds iff there is no delegate or the delegate starts in PULL mode; any other mode fails with IllegalArgument |
| BuilderConfigs.NewArrayBuilder | src/main/java/fr/umlv/jsonapi/builder/BuilderConfig.java:213-218 | succeeds iff there is no delegate or the delegate's first start call answers PULL; any other mode fails with IllegalArgument |
| BuilderConfigs.StreamStartsPullInside | src/main/java/fr/umlv/jsonapi/bind/BindStreamVisitor.java:25-28 | a stream visitor under any number of filter decorators starts in PULL_INSIDE mode |
| BuilderConfigs.StreamDelegateRejected | src/main/java/fr/umlv/jsonapi/builder/BuilderConfig.java:213-218 | such a visitor is therefore never accepted as an array builder's delegate |
| BuilderConfigs.FilterDelegateAccepted | src/main/java/fr/umlv/jsonapi/internal/FilterArrayVisitor.java:21-24 | a filter decorator is accepted as a delegate exactly when what it decorates is |
| Replay.ReplayAt | src/main/java/fr/umlv/jsonapi/bind/Specs.java:235-337 | null emits a JSON null; an empty Optional emits nothing; a present Optional emits its content unconverted. A list, a map or a record asks for a child visitor: when declined, only the request is made; otherwise the request is followed by the child's replay, whose failure propagates. A class the binder cannot resolve fails with UnresolvedType; a value spec writes one value call through its `convertFrom`, or raises what it raises; any other spec writes the value as it is. The outcome is never a value |
| Replay.ReplayRoot | src/main/java/fr/umlv/jsonapi/bind/Specs.java:194-233 | null is refused. A list, a map or a record asks the root for a visitor: when declined, the result is null after that single request; otherwise the request is followed by the replay into that visitor, whose result or failure is returned. A class the binder cannot resolve fails with UnresolvedType, and a spec that is not an object spec with CannotAccept |
| Replay.AtNested | src/main/java/fr/umlv/jsonapi/bind/Specs.java:235-337 | every successful element or member replay emits a well-nested trace whose only top-level member call is the member itself, or none for an empty Optional |
| Replay.IterableNested | src/main/java/fr/umlv/jsonapi/bind/Specs.java:339-345 | a successful list replay is well nested with no top-level member call |
| Replay.ItemsNested | src/main/java/fr/umlv/jsonapi/bind/Specs.java:341-343 | the elements replay into a well-nested trace with no top-level member call |
| Replay.MapNested | src/main/java/fr/umlv/jsonapi/bind/Specs.java:361-368 | a successful map replay is well nested |
| Replay.MembersNested | src/main/java/fr/umlv/jsonapi/bind/Specs.java:287-337 | the members replay into a well-nested trace whose top-level member calls name exactly the present members, in order, declined children included |
| Replay.ObjectNested | src/main/java/fr/umlv/jsonapi/bind/Specs.java:118-125 | a successful record replay is well nested |
| Replay.PresentNamesMembership | src/main/java/fr/umlv/jsonapi/bind/Specs.java:320-323 | a member is announced iff it does not hold an empty Optional |
| Replay.PresentNamesAll | src/main/java/fr/umlv/jsonapi/bind/Specs.java:320-323 | without empty Optionals, every member is announced, in order |
| Replay.ObjectShape | src/main/java/fr/umlv/jsonapi/bind/Specs.java:118-125 | a filtered spec fails before any call; a record of the wrong type fails right after the start call; otherwise start, one member call per non-empty component in layout order, end, and the end call's value is returned |
| Replay.MapShape | src/main/java/fr/umlv/jsonapi/bind/Specs.java:361-368 | start, one member call per non-empty entry in iteration order, end, and the end call's value is returned |
| Replay.IterableShape | src/main/java/fr/umlv/jsonapi/bind/Specs.java:339-345 | start, the elements, end, and the end call's value is returned |
| Replay.RootNested | src/main/java/fr/umlv/jsonapi/bind/Specs.java:194-233 | a successful root replay is well nested, starts with the one request to the root visitor, and is just that request when the root declines |
| EnumExample.ReadEnum | src/test/java/fr/umlv/jsonapi/bind/BinderEnumTest.java:13-22 | `{"policy":"none"}` and `{"policy":"all"}` read as `Contract(none)` and `Contract(all)` |
| EnumExample.ReadRefused | src/main/java/fr/umlv/jsonapi/bind/SpecFinders.java:142-149 | an unknown constant name is refused with UnknownEnumConstant, and a missing member with UninitializedMember |
| EnumExample.ContractRoundTrip | src/test/java/fr/umlv/jsonapi/bind/BinderEnumTest.java:13-32 | for every `Policy` constant, the policy member of `Contract(c)` is written as the constant's name, and reading the written members back gives `Contract(c)`: an instance of `Layouts.RoundTrip` whose member spec converts |
| EnumExample.WriteEnum | src/test/java/fr/umlv/jsonapi/bind/BinderEnumTest.java:24-32 | writing `Contract(all)` makes exactly the calls behind `{ "policy": "all" }` |

Three behaviours of the code that the model keeps:

- `build` reports an unset member as an uninitialized member
  (SpecFinders.java:101-106), which is `UninitializedMember`.
- `ObjectSpec.replay` hands every component to `replayMember`, and `replayMember`
  makes no call at all for an empty `Optional` (Specs.java:320-323). Such a
  component is therefore not announced (`Replay.ObjectShape` states this).
- A value spec writes through its `convertFrom` (Specs.java:29-36 and 280-283), but a
  present `Optional` is written with `fromAny` and no conversion (Specs.java:268-271).

## Findings

| source | as written | input that shows it | evidently intended | confidence | as-written member | corrected member |
|---|---|---|---|---|---|---|
| src/main/java/fr/umlv/jsonapi/internal/FilterArrayVisitor.java:37-41 | `visitArray` wraps the delegate's child without a null test, and the constructor (line 17) rejects a null delegate | a delegate whose `visitArray` returns null to skip a nested array: the decorator throws a NullPointerException instead of returning null | a null child passes through as null, so the skip reaches the driver, as the visitor protocol requires of every decorator | high for `visitArray`; `visitObject` (lines 31-35) depends on `FilterObjectVisitor`'s constructor, which is not part of this model; not executed | FilterArray.SkipBecomesFailure | FilterArray.ForwardSkipping |

## Left out

- Reflection and method handles (`getRecordComponents`, `unreflect`, `findConstructor`,
  `invokeWithArguments`). A record type is a `Finders.NativeType` listing its components.
  A record instance is `Obj.OInstance` with its fields in declaration order. Failures
  to find the constructor or an accessor are not modelled, and the constructor is
  assumed to accept any arguments.
- `Iterable`, `Iterator` and `Stream` in replay all become one list case (`OList`),
  so `replayIterator` and `replayStream` are the same function as `replayIterable`.
  Laziness and early abandonment under PULL_INSIDE are not modelled. The stream
  visitor is handed the whole element sequence, and the aggregator is a function over it.
- `JsonValue` is not part of this model. `FromAny` and `AsObject` have representative
  bodies: primitives map to JSON primitives and everything else is carried opaquely.
- `Spec.newTypedValue` and `Spec.newTypedObject` are not part of this model. Three
  assumptions stand in for them. A typed value spec has a null default. Its write
  direction is the identity, except that the enum spec writes a constant as its name
  (inferred from the expected output in the enum test). A typed object spec is unfiltered.
- `Binder.spec` (finder order, caching) is not part of this model. Replay takes the
  resolution as a function, and a class with no spec fails with `UnresolvedType`.
- `BindObjectVisitor`, `BindArrayVisitor`, `FilterObjectVisitor`, `RootVisitor`,
  `ObjectBuilder` and `ArrayBuilder` are not part of this model. They appear as
  values, and their calls are the `World` or `Sink` parameter, with one exception:
  `BindObjectVisitor`'s decoding of one flat JSON object is assumed (see
  `EnumExample.Read` below).
- EnumExample.Read: `BindObjectVisitor` is not part of this model, so its decoding of a
  flat JSON object is assumed, and `Layouts.Refill` stands for it. Each member value is
  read through `Specs.convert(spec, name, value)` and added with `addValue`, in member
  order. The first failure stops decoding. At the end of the object, `build` runs,
  which is where a missing member becomes `UninitializedMember`. Nested members,
  `visitMemberObject` and `visitMemberArray` are not covered by this assumption.
- Specs.FilterWith: a null predicate is not modelled. On an unfiltered spec the code
  returns an unfiltered spec named name + ".filter()". On a filtered spec it returns
  a spec whose filter throws NullPointerException the first time it is applied. Filters here are
  total predicates, which cannot throw.
- SpecDispatch.NewObjectFrom: the one-argument `BindObjectVisitor` constructor is not
  part of this model; it is assumed to install the no-op post-operation.
- Finders.EnumLookup: `JsonValue.stringValue` is not part of this model; on a JSON
  value that is not a string it is assumed to throw, which is `NotAString`.
- Replay.ReplayAt: the visitors replay drives are assumed never to throw. A `Sink` can
  decline a child or choose an end value, but a visitor call that raises (a binding
  visitor refusing a member, a writer failing) is not modelled. The same holds for
  the stream visitor's aggregator and post-operation (`StreamVisitor.Answer`), which
  are total functions here.
- FilterArray.NewObject: does not model `FilterObjectVisitor`'s constructor, which is
  not shown; it assumes the same null checks as `FilterArrayVisitor`'s.
- Replay.ReplayRoot: the visitors' answers (null or not, end-call result) depend only
  on the path and the events the child saw. Visitor state beyond that is not modelled.
- `ArraySpec`'s `arrayLayout` is not used by the modelled code (its only use is
  commented out), so it is left out of the datatype.
- Map keys are already strings: `key.toString()` is not modelled.
- Integer widths and floating point values are not modelled. `OInt`/`OLong` hold
  unbounded integers, and nothing here does arithmetic on them.
- `toString` names beyond the ".convert()" and ".filter()" suffixes, and exception
  messages beyond the kind of error and the member or constant they name.
- The concrete map and list factories and the unmodifiable wrappers are tags
  (`MapFactory`, `MapTransform`, …), since their behaviour is in the JDK. The
  no-argument `newObjectBuilder()`/`newArrayBuilder()` and the `wrap` methods build
  `ObjectBuilder`/`ArrayBuilder` internals, which are not part of this model.
- Object identity. `defaults()` returning the same instance every time is stated as
  equality with the one constant `Default`. "Mutating a builder never changes later
  fresh builders" holds by construction, since builders are values.
