/** The record layout built by the record finder of `SpecFinders.java`:
    member lookup, the builder (a slot per component), `build` and `replay`. */
module Layouts {
  import opened Results
  import opened Values
  import opened Specs

  /** A builder: one slot per component; `None` is the UNINITIALIZED marker. */
  type Builder = seq<Option<Obj>>

  /** One (name, accessor value) pair handed to the member visitor by `replay`. */
  datatype Member = Member(name: string, value: Obj)

  /** A record's component names are pairwise distinct (the Java language guarantees it). */
  predicate DistinctNames(components: seq<Component>)
  {
    forall i, j :: 0 <= i < j < |components| ==> components[i].name != components[j].name
  }

  /** The index the component map holds for `name`: the map is filled in
      declaration order, so a repeated name keeps its last index. */
  function IndexOf(components: seq<Component>, name: string): (r: Option<nat>)
    ensures r.Some? ==> r.value < |components| && components[r.value].name == name
    ensures r.Some? ==> forall j :: r.value < j < |components| ==> components[j].name != name
    ensures r.None? <==> forall j :: 0 <= j < |components| ==> components[j].name != name
    decreases |components|
  {
    if components == [] then None
    else if components[|components| - 1].name == name then Some(|components| - 1)
    else IndexOf(components[..|components| - 1], name)
  }

  /** With distinct names, a component's own name leads back to its index. */
  lemma IndexOfDistinct(components: seq<Component>, k: nat)
    requires DistinctNames(components) && k < |components|
    ensures IndexOf(components, components[k].name) == Some(k)
  {
  }

  /** `memberSpec`: the spec of the component named `name`; an unknown name fails. */
  function MemberSpec(layout: Layout, name: string): (r: Result<Spec>)
    ensures r.Fail? <==> forall j :: 0 <= j < |layout.components| ==> layout.components[j].name != name
    ensures r.Fail? ==> r.error == UnknownMember(name)
    ensures r.Ok? ==> exists j :: 0 <= j < |layout.components| && layout.components[j] == Component(name, r.value)
  {
    match IndexOf(layout.components, name)
    case None => Fail(UnknownMember(name))
    case Some(i) => Ok(layout.components[i].spec)
  }

  /** The slot the exemplar holds for a component: its spec's default, or
      UNINITIALIZED when that default is null. */
  function InitialSlot(c: Component): Option<Obj>
  {
    var d := DefaultValue(c.spec);
    if d == ONull then None else Some(d)
  }

  /** `newBuilder`: a fresh copy of the exemplar. */
  function NewBuilder(layout: Layout): (b: Builder)
    ensures |b| == |layout.components|
    ensures forall i :: 0 <= i < |b| ==>
      (b[i].None? <==> DefaultValue(layout.components[i].spec) == ONull)
    ensures forall i :: 0 <= i < |b| && b[i].Some? ==> b[i].value == DefaultValue(layout.components[i].spec)
    ensures forall i :: 0 <= i < |b| && !layout.components[i].spec.ValueSpec? ==> b[i].None?
  {
    seq(|layout.components|, i requires 0 <= i < |layout.components| => InitialSlot(layout.components[i]))
  }

  /** `after` is `before` with exactly the slot of member `name` overwritten by `slot`. */
  ghost predicate WritesOnly(layout: Layout, before: Builder, name: string, slot: Obj, after: Builder)
  {
    && IndexOf(layout.components, name).Some?
    && |after| == |before|
    && var k := IndexOf(layout.components, name).value;
       k < |after| && after[k] == Some(slot)
       && forall j :: 0 <= j < |after| && j != k ==> after[j] == before[j]
  }

  /** The shared body of the three `add*` operations. */
  function Put(layout: Layout, builder: Builder, name: string, slot: Obj): Result<Builder>
    requires |builder| == |layout.components|
  {
    match IndexOf(layout.components, name)
    case None => Fail(UnknownMember(name))
    case Some(k) => Ok(builder[k := Some(slot)])
  }

  /** `addObject`: store a decoded nested object in the member's slot. */
  function AddObject(layout: Layout, builder: Builder, name: string, obj: Obj): (r: Result<Builder>)
    requires |builder| == |layout.components|
    ensures r.Fail? <==> IndexOf(layout.components, name).None?
    ensures r.Fail? ==> r.error == UnknownMember(name)
    ensures r.Ok? ==> WritesOnly(layout, builder, name, obj, r.value)
  {
    Put(layout, builder, name, obj)
  }

  /** `addArray`: store a decoded array (or stream result) in the member's slot. */
  function AddArray(layout: Layout, builder: Builder, name: string, arr: Obj): (r: Result<Builder>)
    requires |builder| == |layout.components|
    ensures r.Fail? <==> IndexOf(layout.components, name).None?
    ensures r.Fail? ==> r.error == UnknownMember(name)
    ensures r.Ok? ==> WritesOnly(layout, builder, name, arr, r.value)
  {
    Put(layout, builder, name, arr)
  }

  /** `addValue`: store the native form of a JSON value in the member's slot. */
  function AddValue(layout: Layout, builder: Builder, name: string, value: Value): (r: Result<Builder>)
    requires |builder| == |layout.components|
    ensures r.Fail? <==> IndexOf(layout.components, name).None?
    ensures r.Fail? ==> r.error == UnknownMember(name)
    ensures r.Ok? ==> WritesOnly(layout, builder, name, AsObject(value), r.value)
  {
    Put(layout, builder, name, AsObject(value))
  }

  /** The index of the first UNINITIALIZED slot, if any. */
  function FirstUninitialized(slots: Builder): (r: Option<nat>)
    ensures r.Some? ==> r.value < |slots| && slots[r.value].None?
    ensures r.Some? ==> forall j :: 0 <= j < r.value ==> slots[j].Some?
    ensures r.None? <==> forall j :: 0 <= j < |slots| ==> slots[j].Some?
    decreases |slots|
  {
    if slots == [] then None
    else if slots[0].None? then Some(0)
    else match FirstUninitialized(slots[1..])
      case None => None
      case Some(k) => Some(k + 1)
  }

  /** `build`: fail naming the first UNINITIALIZED member in declaration order,
      otherwise construct the record from exactly the slot values, in order. */
  function Build(layout: Layout, builder: Builder): (r: Result<Obj>)
    requires |builder| == |layout.components|
    ensures r.Fail? <==> exists i :: 0 <= i < |builder| && builder[i].None?
    ensures r.Fail? ==>
              exists i :: (&& 0 <= i < |builder| && builder[i].None?
                           && (forall j :: 0 <= j < i ==> builder[j].Some?)
                           && r.error == UninitializedMember(layout.components[i].name))
    ensures r.Ok? ==> r.value.OInstance? && r.value.typeName == layout.typeName
    ensures r.Ok? ==> |r.value.fields| == |builder|
    ensures r.Ok? ==> forall i :: 0 <= i < |builder| ==> builder[i] == Some(r.value.fields[i])
  {
    match FirstUninitialized(builder)
    case Some(i) => Fail(UninitializedMember(layout.components[i].name))
    case None => Ok(OInstance(layout.typeName, seq(|builder|, i requires 0 <= i < |builder| => builder[i].value)))
  }

  /** A fresh builder builds exactly when every component has a non-null default,
      and then yields the record of those defaults. */
  lemma BuildFresh(layout: Layout)
    ensures Build(layout, NewBuilder(layout)).Ok? <==>
      forall i :: 0 <= i < |layout.components| ==> DefaultValue(layout.components[i].spec) != ONull
    ensures Build(layout, NewBuilder(layout)).Ok? ==>
      Build(layout, NewBuilder(layout)).value.fields ==
        seq(|layout.components|, i requires 0 <= i < |layout.components| => DefaultValue(layout.components[i].spec))
  {
    var b := NewBuilder(layout);
    if Build(layout, b).Ok? {
      var fs := Build(layout, b).value.fields;
      var ds := seq(|layout.components|, i requires 0 <= i < |layout.components| => DefaultValue(layout.components[i].spec));
      assert |fs| == |ds|;
      forall i | 0 <= i < |fs| ensures fs[i] == ds[i] {
        assert b[i] == Some(fs[i]);
      }
    }
  }

  /** An object the accessors of `layout` apply to: an instance of its record type. */
  predicate Fits(layout: Layout, o: Obj)
  {
    o.OInstance? && o.typeName == layout.typeName && |o.fields| == |layout.components|
  }

  /** `replay`: the (name, accessor value) pairs handed to the member visitor,
      one per component in declaration order. An accessor applied to an object
      of another type fails before any member is visited. */
  function Replay(layout: Layout, o: Obj): (r: Result<seq<Member>>)
    ensures r.Fail? <==> |layout.components| > 0 && !Fits(layout, o)
    ensures r.Fail? ==> r.error == WrongReceiver
    ensures r.Ok? ==> |r.value| == |layout.components|
    ensures r.Ok? ==> forall i :: 0 <= i < |r.value| ==>
      r.value[i] == Member(layout.components[i].name, o.fields[i])
  {
    if |layout.components| == 0 then Ok([])
    else if !Fits(layout, o) then Fail(WrongReceiver)
    else Ok(seq(|layout.components|, i requires 0 <= i < |layout.components| =>
                  Member(layout.components[i].name, o.fields[i])))
  }

  /** The JSON form of replayed members: `wr` is the write direction of each
      member's spec, applied to the member's name and value. */
  function Written(members: seq<Member>, wr: (string, Obj) -> Value): (pairs: seq<(string, Value)>)
    ensures |pairs| == |members|
    ensures forall i :: 0 <= i < |members| ==> pairs[i] == (members[i].name, wr(members[i].name, members[i].value))
  {
    seq(|members|, i requires 0 <= i < |members| => (members[i].name, wr(members[i].name, members[i].value)))
  }

  /** Whether some pair is added to slot `j`. */
  predicate NamesSlot(layout: Layout, pairs: seq<(string, Value)>, j: nat)
  {
    exists k :: 0 <= k < |pairs| && IndexOf(layout.components, pairs[k].0) == Some(j)
  }

  /** Decoding the members of one flat JSON object: starting from `builder`,
      each (name, JSON value) pair is read through `convert` and added by name
      with `addValue`; the first failure stops decoding. */
  function Refill(layout: Layout, builder: Builder, pairs: seq<(string, Value)>,
                  convert: (string, Value) -> Result<Value>): (r: Result<Builder>)
    requires |builder| == |layout.components|
    ensures r.Ok? ==> |r.value| == |builder|
    ensures pairs == [] ==> r == Ok(builder)
    decreases |pairs|
  {
    if pairs == [] then Ok(builder)
    else match convert(pairs[0].0, pairs[0].1)
      case Fail(e) => Fail(e)
      case Ok(w) =>
        match AddValue(layout, builder, pairs[0].0, w)
        case Fail(e) => Fail(e)
        case Ok(b) => Refill(layout, b, pairs[1..], convert)
  }

  /** Decoding succeeds only when every pair names a member, and a slot that
      no pair names keeps its value. */
  lemma {:induction false} RefillFrame(layout: Layout, builder: Builder, pairs: seq<(string, Value)>,
                                       convert: (string, Value) -> Result<Value>)
    requires |builder| == |layout.components|
    ensures var r := Refill(layout, builder, pairs, convert);
      && (r.Ok? ==> forall k :: 0 <= k < |pairs| ==> IndexOf(layout.components, pairs[k].0).Some?)
      && (r.Ok? ==> forall j :: 0 <= j < |builder| && !NamesSlot(layout, pairs, j) ==> r.value[j] == builder[j])
    decreases |pairs|
  {
    var r := Refill(layout, builder, pairs, convert);
    if pairs != [] && r.Ok? {
      var w := convert(pairs[0].0, pairs[0].1).value;
      var b := AddValue(layout, builder, pairs[0].0, w).value;
      RefillFrame(layout, b, pairs[1..], convert);
      forall k | 1 <= k < |pairs| ensures pairs[1..][k - 1] == pairs[k] { }
      forall j | 0 <= j < |builder| && !NamesSlot(layout, pairs, j) ensures r.value[j] == builder[j] {
        assert !NamesSlot(layout, pairs[1..], j);
        assert IndexOf(layout.components, pairs[0].0) != Some(j);
      }
    }
  }

  /** Whether reading each component's written form through `convert` gives
      back the JSON form of the component's value. */
  predicate ReadsBack(layout: Layout, o: Obj, wr: (string, Obj) -> Value,
                      convert: (string, Value) -> Result<Value>)
    requires Fits(layout, o)
  {
    forall i :: 0 <= i < |o.fields| ==>
      convert(layout.components[i].name, wr(layout.components[i].name, o.fields[i])) == Ok(FromAny(o.fields[i]))
  }

  /** Adding the replayed members from index `k` on fills exactly the slots from `k` on. */
  lemma {:induction false} RefillFrom(layout: Layout, o: Obj, b: Builder, k: nat,
                                      wr: (string, Obj) -> Value, convert: (string, Value) -> Result<Value>)
    requires DistinctNames(layout.components) && Fits(layout, o) && ReadsBack(layout, o, wr, convert)
    requires |b| == |layout.components| && k <= |b|
    ensures var r := Refill(layout, b, Written(Replay(layout, o).value, wr)[k..], convert);
      && r.Ok?
      && (forall i :: 0 <= i < k ==> r.value[i] == b[i])
      && (forall i :: k <= i < |b| ==> r.value[i] == Some(o.fields[i]))
    decreases |b| - k
  {
    var ps := Written(Replay(layout, o).value, wr);
    if k < |b| {
      assert ps[k..][0] == ps[k] == (layout.components[k].name, wr(layout.components[k].name, o.fields[k]));
      assert ps[k..][1..] == ps[k + 1..];
      IndexOfDistinct(layout.components, k);
      AsObjectFromAny(o.fields[k]);
      var b1 := b[k := Some(o.fields[k])];
      assert AddValue(layout, b, ps[k].0, FromAny(o.fields[k])) == Ok(b1);
      RefillFrom(layout, o, b1, k + 1, wr, convert);
    }
  }

  /** The record round trip: decoding the members that `replay` hands out into
      a fresh builder and building gives back the very record that was replayed. */
  lemma RoundTrip(layout: Layout, o: Obj, wr: (string, Obj) -> Value, convert: (string, Value) -> Result<Value>)
    requires DistinctNames(layout.components) && Fits(layout, o) && ReadsBack(layout, o, wr, convert)
    ensures Refill(layout, NewBuilder(layout), Written(Replay(layout, o).value, wr), convert).Ok?
    ensures Build(layout, Refill(layout, NewBuilder(layout), Written(Replay(layout, o).value, wr), convert).value) == Ok(o)
  {
    var ps := Written(Replay(layout, o).value, wr);
    assert ps[0..] == ps;
    RefillFrom(layout, o, NewBuilder(layout), 0, wr, convert);
    var b := Refill(layout, NewBuilder(layout), ps, convert).value;
    var r := Build(layout, b);
    assert r.Ok?;
    assert r.value.fields == o.fields;
  }
}
