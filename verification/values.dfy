/** The two value worlds the binder moves between: native (Java) objects and
    JSON values. */
module Values {
  import opened Results

  /** A native object as the binder sees it. */
  datatype Obj =
    | ONull
    | OBool(b: bool)
    | OInt(i: int)                                 // java.lang.Integer
    | OLong(l: int)                                // java.lang.Long
    | OString(s: string)
    | OList(items: seq<Obj>)                       // an Iterable, Iterator or Stream
    | OMap(entries: seq<Entry>)                    // a Map, in its iteration order
    | OOptional(content: Option<Obj>)              // java.util.Optional
    | OInstance(typeName: string, fields: seq<Obj>)  // a record instance, fields in declaration order
    | OEnum(typeName: string, constant: string)    // an enum constant

  /** One map entry; the key is already the result of `key.toString()`. */
  datatype Entry = Entry(key: string, value: Obj)

  /** A JSON value: a primitive, or an opaque native object carried through unchanged. */
  datatype Value =
    | JNull
    | JBool(b: bool)
    | JInt(i: int)
    | JLong(l: int)
    | JString(s: string)
    | JOpaque(o: Obj)

  /** `JsonValue.fromAny`: primitives become JSON primitives, anything else is opaque. */
  function FromAny(o: Obj): Value
  {
    match o
    case ONull => JNull
    case OBool(b) => JBool(b)
    case OInt(i) => JInt(i)
    case OLong(l) => JLong(l)
    case OString(s) => JString(s)
    case _ => JOpaque(o)
  }

  /** `JsonValue.asObject`: the native object a JSON value stands for. */
  function AsObject(v: Value): Obj
  {
    match v
    case JNull => ONull
    case JBool(b) => OBool(b)
    case JInt(i) => OInt(i)
    case JLong(l) => OLong(l)
    case JString(s) => OString(s)
    case JOpaque(o) => o
  }

  /** Wrapping a native object as a JSON value and unwrapping it gives it back. */
  lemma AsObjectFromAny(o: Obj)
    ensures AsObject(FromAny(o)) == o
  {
  }
}
