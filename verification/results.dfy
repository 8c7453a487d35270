/** Failure-carrying results shared by every module of the binding core.

    The Java code reports every problem by throwing; here each throw becomes a
    `Fail` carrying the kind of error that was raised. */
module Results {

  /** The errors the binding core raises. */
  datatype BindError =
    | UnresolvedType                 // the binder found no spec for a value's class
    | InvalidSpecShape               // a spec variant used where another one is needed
    | UnknownMember(member: string)  // a member name absent from a record layout
    | UninitializedMember(member: string)  // `build` met a slot never written and with no default
    | UnknownEnumConstant(constant: string)
    | NotAString                     // an enum name was read from a non-string JSON value
    | NoDefaultConversion            // the catch-all finder's converter
    | FilteredSpecReplay             // replay of an object spec that carries a member filter
    | CannotAccept                   // replayRoot met a value it cannot turn into an object or array
    | WrongReceiver                  // a record accessor applied to an object of another type
    | NullPointer(what: string)      // `requireNonNull` or a call on a null reference
    | IllegalArgument                // a builder delegate that is not in PULL mode

  datatype Option<+T> = None | Some(value: T)

  datatype Result<+T> = Ok(value: T) | Fail(error: BindError)

  /** Sequencing: run `f` on the value of `r`, or propagate its failure. */
  function Then<T, U>(r: Result<T>, f: T -> Result<U>): Result<U>
  {
    match r
    case Ok(v) => f(v)
    case Fail(e) => Fail(e)
  }

  /** `Ok` is a unit of sequencing on both sides. */
  lemma ThenUnit<T, U>(x: T, f: T -> Result<U>, r: Result<T>)
    ensures Then(Ok(x), f) == f(x)
    ensures Then(r, y => Ok(y)) == r
  {
  }

  /** Sequencing is associative: running `f` then `g` on `r` is running on `r`
      the sequencing of `f` and `g`. */
  lemma ThenAssoc<T, U, V>(r: Result<T>, f: T -> Result<U>, g: U -> Result<V>)
    ensures Then(Then(r, f), g) == Then(r, x => Then(f(x), g))
  {
  }
}
