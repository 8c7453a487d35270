/** Visitor event traces: the calls replay makes on the visitors it drives,
    flattened into one sequence, and the nesting discipline they follow. */
module Traces {
  import opened Results
  import opened Values

  /** Where a child visitor or a value is requested: from the root visitor,
      from an array visitor, or from an object visitor for member `name`. */
  datatype Place = AtRoot | InArray | AtMember(name: string)

  /** One visitor call. `VisitObject(AtMember(n))` is `visitMemberObject(n)`,
      `VisitValue(InArray, v)` is `visitValue(v)`, and so on. */
  datatype Event =
    | StartObject
    | EndObject
    | StartArray
    | EndArray
    | VisitObject(place: Place)
    | VisitArray(place: Place)
    | VisitValue(place: Place, value: Value)

  /** The kind of an open bracket. */
  datatype Kind = ObjectKind | ArrayKind

  /** Whether an event is an object visitor's member call. */
  predicate IsMember(e: Event)
  {
    (e.VisitObject? || e.VisitArray? || e.VisitValue?) && e.place.AtMember?
  }

  function Open(k: Kind): Event
  {
    match k
    case ObjectKind => StartObject
    case ArrayKind => StartArray
  }

  function Shut(k: Kind): Event
  {
    match k
    case ObjectKind => EndObject
    case ArrayKind => EndArray
  }

  /** Whether an event neither opens nor closes a bracket. */
  predicate Neutral(e: Event)
  {
    !(e.StartObject? || e.EndObject? || e.StartArray? || e.EndArray?)
  }

  /** Pop `k` off the stack of open brackets, if it is on top. */
  function Pop(stack: seq<Kind>, k: Kind): Option<seq<Kind>>
  {
    if |stack| > 0 && stack[|stack| - 1] == k then Some(stack[..|stack| - 1]) else None
  }

  /** The stack of open brackets after one event; `None` on a mismatched close. */
  function Step(stack: seq<Kind>, e: Event): Option<seq<Kind>>
  {
    match e
    case StartObject => Some(stack + [ObjectKind])
    case StartArray => Some(stack + [ArrayKind])
    case EndObject => Pop(stack, ObjectKind)
    case EndArray => Pop(stack, ArrayKind)
    case _ => Some(stack)
  }

  /** The stack of open brackets after a whole trace. */
  function Scan(t: seq<Event>, stack: seq<Kind>): Option<seq<Kind>>
    decreases |t|
  {
    if t == [] then Some(stack)
    else match Step(stack, t[0])
      case None => None
      case Some(s) => Scan(t[1..], s)
  }

  /** Every bracket is closed by the matching kind, in order. */
  predicate WellNested(t: seq<Event>)
  {
    Scan(t, []) == Some([])
  }

  /** The names of the member events met while no bracket is open: the members
      of the object whose body the trace is. */
  function Members(t: seq<Event>, stack: seq<Kind>): seq<string>
    decreases |t|
  {
    if t == [] then []
    else
      var here := if stack == [] && IsMember(t[0]) then [t[0].place.name] else [];
      match Step(stack, t[0])
      case None => here
      case Some(s) => here + Members(t[1..], s)
  }

  lemma {:induction false} ScanAppend(a: seq<Event>, b: seq<Event>, stack: seq<Kind>)
    ensures Scan(a + b, stack) == (match Scan(a, stack) case None => None case Some(s) => Scan(b, s))
    decreases |a|
  {
    if a != [] {
      assert (a + b)[0] == a[0];
      assert (a + b)[1..] == a[1..] + b;
      if Step(stack, a[0]).Some? {
        ScanAppend(a[1..], b, Step(stack, a[0]).value);
      }
    } else {
      assert a + b == b;
    }
  }

  lemma {:induction false} MembersAppend(a: seq<Event>, b: seq<Event>, stack: seq<Kind>)
    requires Scan(a, stack).Some?
    ensures Members(a + b, stack) == Members(a, stack) + Members(b, Scan(a, stack).value)
    decreases |a|
  {
    if a != [] {
      assert (a + b)[0] == a[0];
      assert (a + b)[1..] == a[1..] + b;
      MembersAppend(a[1..], b, Step(stack, a[0]).value);
    } else {
      assert a + b == b;
    }
  }

  /** A trace that scans from `stack` scans the same way under more open brackets. */
  lemma {:induction false} ScanLift(t: seq<Event>, stack: seq<Kind>, below: seq<Kind>)
    requires Scan(t, stack).Some?
    ensures Scan(t, below + stack) == Some(below + Scan(t, stack).value)
    decreases |t|
  {
    if t != [] {
      var s := Step(stack, t[0]).value;
      match t[0] {
        case StartObject => assert below + stack + [ObjectKind] == below + s;
        case StartArray => assert below + stack + [ArrayKind] == below + s;
        case EndObject => assert (below + stack)[..|below + stack| - 1] == below + s;
        case EndArray => assert (below + stack)[..|below + stack| - 1] == below + s;
        case _ =>
      }
      assert Step(below + stack, t[0]) == Some(below + s);
      ScanLift(t[1..], s, below);
    }
  }

  /** Under an open bracket no member event is at top level. */
  lemma {:induction false} MembersBuried(t: seq<Event>, stack: seq<Kind>, below: seq<Kind>)
    requires Scan(t, stack).Some? && below != []
    ensures Members(t, below + stack) == []
    decreases |t|
  {
    if t != [] {
      var s := Step(stack, t[0]).value;
      assert Step(below + stack, t[0]) == Some(below + s) by {
        ScanLift([t[0]], stack, below);
      }
      MembersBuried(t[1..], s, below);
    }
  }

  /** A well-nested trace between a matching pair of brackets is well nested and
      shows no member at top level. */
  lemma Bracket(k: Kind, inner: seq<Event>)
    requires WellNested(inner)
    ensures WellNested([Open(k)] + inner + [Shut(k)])
    ensures Members([Open(k)] + inner + [Shut(k)], []) == []
  {
    var t := [Open(k)] + inner + [Shut(k)];
    var rest := inner + [Shut(k)];
    assert t == [Open(k)] + rest;
    assert t[0] == Open(k) && t[1..] == rest;
    assert Step([], Open(k)) == Some([k]) by {
      match k {
        case ObjectKind => assert [] + [ObjectKind] == [ObjectKind];
        case ArrayKind => assert [] + [ArrayKind] == [ArrayKind];
      }
    }
    ScanLift(inner, [], [k]);
    assert [k] + [] == [k];
    ScanAppend(inner, [Shut(k)], [k]);
    assert Scan([Shut(k)], [k]) == Some([]);
    assert Scan(t, []) == Scan(rest, [k]) == Some([]);
    MembersAppend(inner, [Shut(k)], [k]);
    MembersBuried(inner, [], [k]);
    assert Members([Shut(k)], [k]) == [];
    assert Members(t, []) == Members(rest, [k]);
  }

  /** Two well-nested traces in a row are well nested, and their top-level members add up. */
  lemma Concat(a: seq<Event>, b: seq<Event>)
    requires WellNested(a) && WellNested(b)
    ensures WellNested(a + b)
    ensures Members(a + b, []) == Members(a, []) + Members(b, [])
  {
    ScanAppend(a, b, []);
    MembersAppend(a, b, []);
  }

  /** A neutral event in front keeps a trace well nested, and adds its name when it is a member event. */
  lemma Prefix(e: Event, t: seq<Event>)
    requires Neutral(e) && WellNested(t)
    ensures WellNested([e] + t)
    ensures Members([e] + t, []) == (if IsMember(e) then [e.place.name] else []) + Members(t, [])
  {
    assert ([e] + t)[1..] == t;
  }
}
