/** Replay: walking a Java value and driving visitors with it, as
    `Specs.replayRoot`, `replayValue`, `replayMember`, `replayIterable`,
    `replayMap` and `ObjectSpec.replay` do. The visitor calls are collected
    into one flat trace of `Traces.Event`s. */
module Replay {
  import opened Results
  import opened Values
  import opened Specs
  import opened Traces
  import Layouts

  /** One step from the root to a nested value: an element index or a member name. */
  datatype PathStep = Index(i: nat) | Key(name: string)

  type Path = seq<PathStep>

  /** The binder as replay uses it: the spec of a value's class, `None` when
      no finder answers for it (where `Binder.spec` throws). */
  datatype Binder = Binder(specOf: Obj -> Option<Spec>)

  /** The visitors replay drives, seen from outside. `declines(p)` holds when
      the request for a child visitor at `p` returns null; `finish(p, t)` is
      what the child visitor at `p` returns from its end call after seeing the
      trace `t`. The answers depend on the path only. */
  datatype Sink = Sink(declines: Path -> bool, finish: (Path, seq<Event>) -> Obj)

  /** The calls made, and the value returned or the exception raised. */
  datatype Emission = Emission(events: seq<Event>, outcome: Result<Obj>)

  function Done(events: seq<Event>): Emission
  {
    Emission(events, Ok(ONull))
  }

  /** `a`, then `b` unless `a` raised. */
  function Seq(a: Emission, b: Emission): Emission
  {
    if a.outcome.Fail? then a else Emission(a.events + b.events, b.outcome)
  }

  /** The same calls, with the returned value dropped. */
  function Void(e: Emission): Emission
  {
    if e.outcome.Fail? then e else Done(e.events)
  }

  /** The request for a child visitor of kind `k`. */
  function Request(k: Kind, place: Place): Event
  {
    match k
    case ObjectKind => VisitObject(place)
    case ArrayKind => VisitArray(place)
  }

  /** Ask for a child visitor at `path`; replay `body` into it unless the
      answer is null, in which case the outcome is null. */
  function Descend(sink: Sink, path: Path, place: Place, k: Kind, body: Emission): (r: Emission)
    ensures |r.events| > 0 && r.events[0] == Request(k, place)
    ensures sink.declines(path) ==> r == Done([Request(k, place)])
    ensures !sink.declines(path) ==> r.events[1..] == body.events && r.outcome == body.outcome
  {
    if sink.declines(path) then Done([Request(k, place)])
    else Emission([Request(k, place)] + body.events, body.outcome)
  }

  /** A child visitor's whole life: start, `body`, end; the end call's value is the outcome. */
  function Close(sink: Sink, path: Path, k: Kind, body: Emission): (r: Emission)
    ensures r.outcome.Fail? <==> body.outcome.Fail?
    ensures r.outcome.Fail? ==> r == Emission([Open(k)] + body.events, body.outcome)
    ensures r.outcome.Ok? ==>
      && r.events == [Open(k)] + body.events + [Shut(k)]
      && r.outcome == Ok(sink.finish(path, r.events))
  {
    if body.outcome.Fail? then Emission([Open(k)] + body.events, body.outcome)
    else
      var events := [Open(k)] + body.events + [Shut(k)];
      Emission(events, Ok(sink.finish(path, events)))
  }

  /** The (name, value) pairs of a map, in iteration order. */
  function EntryMembers(entries: seq<Entry>): (ms: seq<Layouts.Member>)
    ensures |ms| == |entries|
    ensures forall i :: 0 <= i < |ms| ==> ms[i].name == entries[i].key && ms[i].value == entries[i].value
  {
    seq(|entries|, i requires 0 <= i < |entries| => Layouts.Member(entries[i].key, entries[i].value))
  }

  /** A value whose replay depends on the spec the binder gives its class:
      anything but null, a list or a map. */
  predicate AsksBinder(value: Obj)
  {
    !value.ONull? && !value.OList? && !value.OMap?
  }

  /** `r` is the request for a child visitor followed by the calls `inner`
      makes on that child; `r` raises what `inner` raises and otherwise returns null. */
  predicate Nests(r: Emission, request: Event, inner: Emission)
  {
    && r.events == [request] + inner.events
    && (inner.outcome.Fail? ==> r.outcome == inner.outcome)
    && (inner.outcome.Ok? ==> r.outcome == Ok(ONull))
  }

  /** `replayValue` (place `InArray`) and `replayMember` (place `AtMember(name)`):
      one element or member of a value under `path`. A list, a map or a record
      asks for a child visitor and is replayed into it unless the request is
      declined; a value spec writes through its `convertFrom`; any other spec
      writes the value as it is. */
  function ReplayAt(b: Binder, sink: Sink, path: Path, place: Place, value: Obj): (r: Emission)
    ensures r.outcome.Ok? ==> r.outcome == Ok(ONull)
    ensures value == ONull ==> r == Done([VisitValue(place, JNull)])
    ensures value.OOptional? ==>
      r == Done(if value.content.Some? then [VisitValue(place, FromAny(value.content.value))] else [])
    ensures value.OList? && sink.declines(path) ==> r == Done([VisitArray(place)])
    ensures value.OList? && !sink.declines(path) ==> Nests(r, VisitArray(place), ReplayIterable(b, sink, path, value))
    ensures value.OMap? && sink.declines(path) ==> r == Done([VisitObject(place)])
    ensures value.OMap? && !sink.declines(path) ==> Nests(r, VisitObject(place), ReplayMap(b, sink, path, value))
    ensures AsksBinder(value) && !value.OOptional? && b.specOf(value).None? ==> r == Emission([], Fail(UnresolvedType))
    ensures AsksBinder(value) && !value.OOptional? && b.specOf(value).Some? ==>
      var spec := b.specOf(value).value;
      && (spec.ObjectSpec? && sink.declines(path) ==> r == Done([VisitObject(place)]))
      && (spec.ObjectSpec? && !sink.declines(path) ==>
            Nests(r, VisitObject(place), ReplayObject(b, sink, path, spec, value)))
      && (spec.ValueSpec? && ConvertFrom(spec, FromAny(value)).Ok? ==>
            r == Done([VisitValue(place, ConvertFrom(spec, FromAny(value)).value)]))
      && (spec.ValueSpec? && ConvertFrom(spec, FromAny(value)).Fail? ==>
            r == Emission([], Fail(ConvertFrom(spec, FromAny(value)).error)))
      && (!spec.ObjectSpec? && !spec.ValueSpec? ==> r == Done([VisitValue(place, FromAny(value))]))
    decreases value, 2
  {
    match value
    case ONull => Done([VisitValue(place, JNull)])
    case OList(_) => Void(Descend(sink, path, place, ArrayKind, ReplayIterable(b, sink, path, value)))
    case OMap(_) => Void(Descend(sink, path, place, ObjectKind, ReplayMap(b, sink, path, value)))
    case OOptional(content) =>
      if content.Some? then Done([VisitValue(place, FromAny(content.value))]) else Done([])
    case _ =>
      match b.specOf(value)
      case None => Emission([], Fail(UnresolvedType))
      case Some(spec) =>
        if spec.ObjectSpec? then
          Void(Descend(sink, path, place, ObjectKind, ReplayObject(b, sink, path, spec, value)))
        else if spec.ValueSpec? then
          match ConvertFrom(spec, FromAny(value))
          case Fail(e) => Emission([], Fail(e))
          case Ok(w) => Done([VisitValue(place, w)])
        else Done([VisitValue(place, FromAny(value))])
  }

  /** `replayIterable`: the elements of a list into an array visitor. */
  function ReplayIterable(b: Binder, sink: Sink, path: Path, value: Obj): Emission
    requires value.OList?
    decreases value, 1
  {
    Close(sink, path, ArrayKind, ReplayItems(b, sink, path, value, 0))
  }

  /** The elements of a list from index `from` on, each at its own index. */
  function ReplayItems(b: Binder, sink: Sink, path: Path, value: Obj, from: nat): Emission
    requires value.OList? && from <= |value.items|
    decreases value, 0, |value.items| - from
  {
    if from == |value.items| then Done([])
    else Seq(ReplayAt(b, sink, path + [Index(from)], InArray, value.items[from]),
             ReplayItems(b, sink, path, value, from + 1))
  }

  /** `replayMap`: the entries of a map into an object visitor. */
  function ReplayMap(b: Binder, sink: Sink, path: Path, value: Obj): Emission
    requires value.OMap?
    decreases value, 1
  {
    var ms := EntryMembers(value.entries);
    assert forall i :: 0 <= i < |ms| ==> ms[i].value < value by {
      forall i | 0 <= i < |ms| ensures ms[i].value < value {
        assert value.entries[i] in value.entries;
      }
    }
    Close(sink, path, ObjectKind, ReplayMembers(b, sink, path, value, ms, 0))
  }

  /** The members from index `from` on, each as a member of the object visitor. */
  function ReplayMembers(b: Binder, sink: Sink, path: Path, owner: Obj, members: seq<Layouts.Member>, from: nat): Emission
    requires from <= |members|
    requires forall i :: 0 <= i < |members| ==> members[i].value < owner
    decreases owner, 0, |members| - from
  {
    if from == |members| then Done([])
    else
      var m := members[from];
      Seq(ReplayAt(b, sink, path + [Key(m.name)], AtMember(m.name), m.value),
          ReplayMembers(b, sink, path, owner, members, from + 1))
  }

  /** `ObjectSpec.replay`: a record into an object visitor, one member per component. */
  function ReplayObject(b: Binder, sink: Sink, path: Path, spec: Spec, value: Obj): Emission
    requires spec.ObjectSpec?
    decreases value, 1
  {
    if spec.filter.Some? then Emission([], Fail(FilteredSpecReplay))
    else match Layouts.Replay(spec.layout, value)
      case Fail(e) => Emission([StartObject], Fail(e))
      case Ok(members) =>
        assert forall i :: 0 <= i < |members| ==> members[i].value < value by {
          forall i | 0 <= i < |members| ensures members[i].value < value {
            assert value.fields[i] in value.fields;
          }
        }
        Close(sink, path, ObjectKind, ReplayMembers(b, sink, path, value, members, 0))
  }

  /** `replayRoot`: a whole value into the root visitor; the outcome is what
      the top-level visitor returns, null when it is declined. Only a list, a
      map or a record can be replayed at the root. */
  function ReplayRoot(b: Binder, sink: Sink, value: Obj): (r: Emission)
    ensures value == ONull ==> r == Emission([], Fail(NullPointer("value")))
    ensures value.OList? && sink.declines([]) ==> r == Done([VisitArray(AtRoot)])
    ensures value.OList? && !sink.declines([]) ==>
      r == Emission([VisitArray(AtRoot)] + ReplayIterable(b, sink, [], value).events,
                    ReplayIterable(b, sink, [], value).outcome)
    ensures value.OMap? && sink.declines([]) ==> r == Done([VisitObject(AtRoot)])
    ensures value.OMap? && !sink.declines([]) ==>
      r == Emission([VisitObject(AtRoot)] + ReplayMap(b, sink, [], value).events,
                    ReplayMap(b, sink, [], value).outcome)
    ensures AsksBinder(value) && b.specOf(value).None? ==> r == Emission([], Fail(UnresolvedType))
    ensures AsksBinder(value) && b.specOf(value).Some? && !b.specOf(value).value.ObjectSpec? ==>
      r == Emission([], Fail(CannotAccept))
    ensures AsksBinder(value) && b.specOf(value).Some? && b.specOf(value).value.ObjectSpec? ==>
      var spec := b.specOf(value).value;
      && (sink.declines([]) ==> r == Done([VisitObject(AtRoot)]))
      && (!sink.declines([]) ==>
            r == Emission([VisitObject(AtRoot)] + ReplayObject(b, sink, [], spec, value).events,
                          ReplayObject(b, sink, [], spec, value).outcome))
  {
    match value
    case ONull => Emission([], Fail(NullPointer("value")))
    case OList(_) => Descend(sink, [], AtRoot, ArrayKind, ReplayIterable(b, sink, [], value))
    case OMap(_) => Descend(sink, [], AtRoot, ObjectKind, ReplayMap(b, sink, [], value))
    case _ =>
      match b.specOf(value)
      case None => Emission([], Fail(UnresolvedType))
      case Some(spec) =>
        if spec.ObjectSpec? then Descend(sink, [], AtRoot, ObjectKind, ReplayObject(b, sink, [], spec, value))
        else Emission([], Fail(CannotAccept))
  }

  /** The names of the members an object visitor is handed: every member
      except an empty `Optional`, which is skipped without a call. */
  function PresentNames(members: seq<Layouts.Member>): seq<string>
  {
    if members == [] then []
    else (if members[0].value == OOptional(None) then [] else [members[0].name]) + PresentNames(members[1..])
  }

  /** The property each replay function keeps: a successful run emits a
      well-nested trace. */
  predicate Nested(e: Emission)
  {
    e.outcome.Ok? ==> WellNested(e.events) && Members(e.events, []) == []
  }

  lemma SeqNested(a: Emission, b: Emission, names: seq<string>, more: seq<string>)
    requires a.outcome.Ok? ==> WellNested(a.events) && Members(a.events, []) == names
    requires b.outcome.Ok? ==> WellNested(b.events) && Members(b.events, []) == more
    ensures Seq(a, b).outcome.Ok? ==> WellNested(Seq(a, b).events) && Members(Seq(a, b).events, []) == names + more
  {
    if a.outcome.Ok? && b.outcome.Ok? {
      Concat(a.events, b.events);
    }
  }

  lemma CloseNested(sink: Sink, path: Path, k: Kind, body: Emission)
    requires body.outcome.Ok? ==> WellNested(body.events)
    ensures Nested(Close(sink, path, k, body))
  {
    if body.outcome.Ok? {
      Bracket(k, body.events);
    }
  }

  lemma DescendNested(sink: Sink, path: Path, place: Place, k: Kind, body: Emission)
    requires Nested(body)
    ensures var r := Descend(sink, path, place, k, body);
      r.outcome.Ok? ==> WellNested(r.events) && Members(r.events, []) == (if place.AtMember? then [place.name] else [])
  {
    var r := Descend(sink, path, place, k, body);
    if r.outcome.Ok? {
      var rest := r.events[1..];
      assert r.events == [Request(k, place)] + rest;
      assert WellNested(rest) && Members(rest, []) == [] by {
        if !sink.declines(path) {
          assert rest == body.events;
        } else {
          assert rest == [];
        }
      }
      Prefix(Request(k, place), rest);
    }
  }

  lemma SingleNested(e: Event)
    requires Neutral(e)
    ensures WellNested([e])
    ensures Members([e], []) == (if IsMember(e) then [e.place.name] else [])
  {
    assert [e] == [e] + [];
    Prefix(e, []);
  }

  /** One element or member replays into a well-nested trace whose only
      top-level member call, if any, is for the member itself. */
  lemma {:induction false} AtNested(b: Binder, sink: Sink, path: Path, place: Place, value: Obj)
    ensures var r := ReplayAt(b, sink, path, place, value);
      r.outcome.Ok? ==>
        && WellNested(r.events)
        && Members(r.events, []) == (if place.AtMember? && value != OOptional(None) then [place.name] else [])
    decreases value, 2
  {
    var r := ReplayAt(b, sink, path, place, value);
    var own := if place.AtMember? then [place.name] else [];
    match value {
      case ONull => SingleNested(VisitValue(place, JNull));
      case OList(_) =>
        IterableNested(b, sink, path, value);
        DescendNested(sink, path, place, ArrayKind, ReplayIterable(b, sink, path, value));
      case OMap(_) =>
        MapNested(b, sink, path, value);
        DescendNested(sink, path, place, ObjectKind, ReplayMap(b, sink, path, value));
      case OOptional(content) =>
        if content.Some? {
          SingleNested(VisitValue(place, FromAny(content.value)));
        }
      case _ =>
        match b.specOf(value) {
          case None =>
          case Some(spec) =>
            if spec.ObjectSpec? {
              ObjectNested(b, sink, path, spec, value);
              DescendNested(sink, path, place, ObjectKind, ReplayObject(b, sink, path, spec, value));
            } else if spec.ValueSpec? {
              match ConvertFrom(spec, FromAny(value)) {
                case Fail(_) =>
                case Ok(w) => SingleNested(VisitValue(place, w));
              }
            } else {
              SingleNested(VisitValue(place, FromAny(value)));
            }
        }
    }
  }

  lemma {:induction false} IterableNested(b: Binder, sink: Sink, path: Path, value: Obj)
    requires value.OList?
    ensures Nested(ReplayIterable(b, sink, path, value))
    decreases value, 1
  {
    ItemsNested(b, sink, path, value, 0);
    CloseNested(sink, path, ArrayKind, ReplayItems(b, sink, path, value, 0));
  }

  lemma {:induction false} ItemsNested(b: Binder, sink: Sink, path: Path, value: Obj, from: nat)
    requires value.OList? && from <= |value.items|
    ensures Nested(ReplayItems(b, sink, path, value, from))
    decreases value, 0, |value.items| - from
  {
    if from < |value.items| {
      AtNested(b, sink, path + [Index(from)], InArray, value.items[from]);
      ItemsNested(b, sink, path, value, from + 1);
      SeqNested(ReplayAt(b, sink, path + [Index(from)], InArray, value.items[from]),
                ReplayItems(b, sink, path, value, from + 1), [], []);
    }
  }

  lemma {:induction false} MapNested(b: Binder, sink: Sink, path: Path, value: Obj)
    requires value.OMap?
    ensures Nested(ReplayMap(b, sink, path, value))
    decreases value, 1
  {
    var ms := EntryMembers(value.entries);
    assert forall i :: 0 <= i < |ms| ==> ms[i].value < value by {
      forall i | 0 <= i < |ms| ensures ms[i].value < value {
        assert value.entries[i] in value.entries;
      }
    }
    MembersNested(b, sink, path, value, ms, 0);
    CloseNested(sink, path, ObjectKind, ReplayMembers(b, sink, path, value, ms, 0));
  }

  /** The members replay into a well-nested trace whose top-level member calls
      name exactly the present members, in order. */
  lemma {:induction false} MembersNested(b: Binder, sink: Sink, path: Path, owner: Obj, members: seq<Layouts.Member>, from: nat)
    requires from <= |members|
    requires forall i :: 0 <= i < |members| ==> members[i].value < owner
    ensures var r := ReplayMembers(b, sink, path, owner, members, from);
      r.outcome.Ok? ==> WellNested(r.events) && Members(r.events, []) == PresentNames(members[from..])
    decreases owner, 0, |members| - from
  {
    if from < |members| {
      var m := members[from];
      assert members[from..][0] == m && members[from..][1..] == members[from + 1..];
      AtNested(b, sink, path + [Key(m.name)], AtMember(m.name), m.value);
      MembersNested(b, sink, path, owner, members, from + 1);
      SeqNested(ReplayAt(b, sink, path + [Key(m.name)], AtMember(m.name), m.value),
                ReplayMembers(b, sink, path, owner, members, from + 1),
                if m.value != OOptional(None) then [m.name] else [],
                PresentNames(members[from + 1..]));
    }
  }

  lemma {:induction false} ObjectNested(b: Binder, sink: Sink, path: Path, spec: Spec, value: Obj)
    requires spec.ObjectSpec?
    ensures Nested(ReplayObject(b, sink, path, spec, value))
    decreases value, 1
  {
    if spec.filter.None? && Layouts.Replay(spec.layout, value).Ok? {
      var members := Layouts.Replay(spec.layout, value).value;
      assert forall i :: 0 <= i < |members| ==> members[i].value < value by {
        forall i | 0 <= i < |members| ensures members[i].value < value {
          assert value.fields[i] in value.fields;
        }
      }
      MembersNested(b, sink, path, value, members, 0);
      CloseNested(sink, path, ObjectKind, ReplayMembers(b, sink, path, value, members, 0));
    }
  }

  /** A name is handed to the object visitor exactly when some member with
      that name holds something other than an empty `Optional`. */
  lemma {:induction false} PresentNamesMembership(members: seq<Layouts.Member>, x: string)
    ensures x in PresentNames(members) <==>
      exists i :: 0 <= i < |members| && members[i].name == x && members[i].value != OOptional(None)
    decreases |members|
  {
    if members != [] {
      PresentNamesMembership(members[1..], x);
      if x in PresentNames(members[1..]) {
        var i :| 1 <= i + 1 < |members| && members[1..][i].name == x && members[1..][i].value != OOptional(None);
        assert members[i + 1] == members[1..][i];
      }
      if exists i :: 0 <= i < |members| && members[i].name == x && members[i].value != OOptional(None) {
        var i :| 0 <= i < |members| && members[i].name == x && members[i].value != OOptional(None);
        if i > 0 {
          assert members[1..][i - 1] == members[i];
        }
      }
    }
  }

  /** With no empty `Optional` among them, every member is handed over, in order. */
  lemma {:induction false} PresentNamesAll(members: seq<Layouts.Member>)
    requires forall i :: 0 <= i < |members| ==> members[i].value != OOptional(None)
    ensures PresentNames(members) == seq(|members|, i requires 0 <= i < |members| => members[i].name)
    decreases |members|
  {
    if members != [] {
      PresentNamesAll(members[1..]);
    }
  }

  /** `ObjectSpec.replay` in full: a filtered spec refuses before any call; a
      record of another type raises right after the start call; otherwise the
      object visitor sees a start call, one member call per component that is
      not an empty `Optional` in declaration order (with whatever each nests),
      and an end call whose value is returned. */
  lemma ObjectShape(b: Binder, sink: Sink, path: Path, spec: Spec, value: Obj)
    requires spec.ObjectSpec?
    ensures spec.filter.Some? ==> ReplayObject(b, sink, path, spec, value) == Emission([], Fail(FilteredSpecReplay))
    ensures spec.filter.None? && Layouts.Replay(spec.layout, value).Fail? ==>
      ReplayObject(b, sink, path, spec, value) == Emission([StartObject], Fail(WrongReceiver))
    ensures var r := ReplayObject(b, sink, path, spec, value);
      spec.filter.None? && r.outcome.Ok? ==>
        && Layouts.Replay(spec.layout, value).Ok?
        && 2 <= |r.events|
        && r.events[0] == StartObject
        && r.events[|r.events| - 1] == EndObject
        && WellNested(r.events)
        && Members(r.events[1..|r.events| - 1], []) == PresentNames(Layouts.Replay(spec.layout, value).value)
        && r.outcome == Ok(sink.finish(path, r.events))
  {
    var r := ReplayObject(b, sink, path, spec, value);
    if spec.filter.None? && r.outcome.Ok? {
      var members := Layouts.Replay(spec.layout, value).value;
      assert forall i :: 0 <= i < |members| ==> members[i].value < value by {
        forall i | 0 <= i < |members| ensures members[i].value < value {
          assert value.fields[i] in value.fields;
        }
      }
      var body := ReplayMembers(b, sink, path, value, members, 0);
      MembersNested(b, sink, path, value, members, 0);
      assert members[0..] == members;
      CloseNested(sink, path, ObjectKind, body);
      assert r.events[1..|r.events| - 1] == body.events;
    }
  }

  /** `replayMap` in full: a start call, one member call per entry in iteration
      order (an empty `Optional` skipped), and an end call whose value is returned. */
  lemma MapShape(b: Binder, sink: Sink, path: Path, value: Obj)
    requires value.OMap?
    ensures var r := ReplayMap(b, sink, path, value);
      r.outcome.Ok? ==>
        && 2 <= |r.events|
        && r.events[0] == StartObject
        && r.events[|r.events| - 1] == EndObject
        && WellNested(r.events)
        && Members(r.events[1..|r.events| - 1], []) == PresentNames(EntryMembers(value.entries))
        && r.outcome == Ok(sink.finish(path, r.events))
  {
    var r := ReplayMap(b, sink, path, value);
    if r.outcome.Ok? {
      var ms := EntryMembers(value.entries);
      assert forall i :: 0 <= i < |ms| ==> ms[i].value < value by {
        forall i | 0 <= i < |ms| ensures ms[i].value < value {
          assert value.entries[i] in value.entries;
        }
      }
      var body := ReplayMembers(b, sink, path, value, ms, 0);
      MembersNested(b, sink, path, value, ms, 0);
      assert ms[0..] == ms;
      CloseNested(sink, path, ObjectKind, body);
      assert r.events[1..|r.events| - 1] == body.events;
    }
  }

  /** `replayIterable` in full: a start call, the elements, and an end call
      whose value is returned; no element is a member call at top level. */
  lemma IterableShape(b: Binder, sink: Sink, path: Path, value: Obj)
    requires value.OList?
    ensures var r := ReplayIterable(b, sink, path, value);
      r.outcome.Ok? ==>
        && 2 <= |r.events|
        && r.events[0] == StartArray
        && r.events[|r.events| - 1] == EndArray
        && WellNested(r.events)
        && Members(r.events, []) == []
        && r.outcome == Ok(sink.finish(path, r.events))
  {
    IterableNested(b, sink, path, value);
  }

  /** `replayRoot`: whatever succeeds emits a well-nested trace that starts
      with the single request made of the root visitor. */
  lemma RootNested(b: Binder, sink: Sink, value: Obj)
    ensures var r := ReplayRoot(b, sink, value);
      r.outcome.Ok? ==>
        && WellNested(r.events)
        && (r.events[0] == VisitArray(AtRoot) || r.events[0] == VisitObject(AtRoot))
        && (sink.declines([]) ==> r == Done([r.events[0]]))
  {
    match value {
      case ONull =>
      case OList(_) =>
        IterableNested(b, sink, [], value);
        DescendNested(sink, [], AtRoot, ArrayKind, ReplayIterable(b, sink, [], value));
      case OMap(_) =>
        MapNested(b, sink, [], value);
        DescendNested(sink, [], AtRoot, ObjectKind, ReplayMap(b, sink, [], value));
      case _ =>
        match b.specOf(value) {
          case None =>
          case Some(spec) =>
            if spec.ObjectSpec? {
              ObjectNested(b, sink, [], spec, value);
              DescendNested(sink, [], AtRoot, ObjectKind, ReplayObject(b, sink, [], spec, value));
            }
        }
    }
  }
}
