/** The optional-value sum type: `Some(value)` holds one value, `None` holds
    none. The methods of the two classes `Some` and `None` become member
    functions of one datatype, each with one case per class. */
module Options {
  import Results

  /** The error `unwrap` throws on a `None` and `ok` carries. Only its identity
      matters; its message and its `Error` ancestry are host-runtime details. */
  datatype NoneError = NoneError

  /** A value of the TypeScript type `T | undefined`. `Defined(v)` stands for
      every value that is not `undefined`, including `null` when `T` has it.
      A type parameter `T` of this module stands for a TypeScript type without
      `undefined`; a TypeScript element type that includes `undefined` is
      written `Js<X>` here, and `FlatInner` gives the `inner` of such options. */
  datatype Js<+T> = Undefined | Defined(value: T)

  /** `Option<T> = Some<T> | None`: exactly one of the two is live. The held
      value of a `Some` is `value`; the total view of the `inner` field, which a
      `None` has too, is `Inner()`. */
  datatype Option<+T> = Some(value: T) | None {

    /** The type guard `isSome()`: `true` on `Some`, `false` on `None`. */
    predicate IsSome()
      ensures IsSome() <==> this != None
    {
      match this
      case Some(_) => true
      case None => false
    }

    /** The type guard `isNone()`: `false` on `Some`, `true` on `None`. */
    predicate IsNone()
      ensures IsNone() <==> !IsSome()
    {
      match this
      case Some(_) => false
      case None => true
    }

    /** The readonly `inner` field as seen through the union: a `Some` holds its
        value, a `None` always holds `undefined`. */
    function Inner(): (j: Js<T>)
      ensures j.Defined? <==> IsSome()
      ensures j.Undefined? <==> IsNone()
    {
      match this
      case Some(v) => Defined(v)
      case None => Undefined
    }

    /** `unwrap()`: the inner value of a `Some`; on a `None` it throws
        `NoneError`, modelled as the failure result `Err(NoneError)`. */
    function Unwrap(): (r: Results.Result<T, NoneError>)
      ensures r.Ok? <==> IsSome()
      ensures r.Ok? ==> Defined(r.value) == Inner()
      ensures r.Err? ==> r.error == NoneError
    {
      match this
      case Some(v) => Results.Ok(v)
      case None => Results.Err(NoneError)
    }

    /** `unwrapOr(value)`: what `unwrap` would return, or the default where it
        would throw. */
    function UnwrapOr(default: T): (r: T)
      ensures Unwrap().Ok? ==> r == Unwrap().value
      ensures Unwrap().Err? ==> r == default
    {
      match this
      case Some(v) => v
      case None => default
    }

    /** `okOr(error)`: `Ok(inner)` on a `Some`, `Err(error)` on a `None`. */
    function OkOr<E>(error: E): (r: Results.Result<T, E>)
      ensures r.Ok? <==> IsSome()
      ensures r.Ok? ==> Defined(r.value) == Inner()
      ensures r.Err? ==> r.error == error
    {
      match this
      case Some(v) => Results.Ok(v)
      case None => Results.Err(error)
    }

    /** `ok()`: the conversion of `okOr` with a fresh `NoneError` as the error. */
    function Ok(): (r: Results.Result<T, NoneError>)
      ensures r == OkOr(NoneError)
      ensures r == Unwrap()
    {
      match this
      case Some(v) => Results.Ok(v)
      case None => Results.Err(NoneError)
    }

    /** `mapSync(mapper)`: a new `Some(mapper(inner))` on a `Some`; a `None`
        is returned as it is and the mapper is not applied. */
    function MapSync<U>(mapper: T -> U): (r: Option<U>)
      ensures r.IsSome() <==> IsSome()
      ensures r.Inner() == match Inner() case Defined(v) => Defined(mapper(v)) case Undefined => Undefined
    {
      match this
      case Some(v) => Some(mapper(v))
      case None => None
    }
  }

  /** `None.new()`: an empty option, whose `inner` is `undefined`. */
  function NewNone<T>(): (o: Option<T>)
    ensures o.IsNone() && o.Inner() == Undefined
  {
    None
  }

  /** `Some.new(inner)`: the same value as `new Some(inner)`. */
  function NewSome<T>(inner: T): (o: Option<T>)
    ensures o.IsSome() && o.Inner() == Defined(inner)
  {
    Some(inner)
  }

  /** The `inner` field of an option whose element type includes `undefined`:
      TypeScript's `T | undefined` does not nest, so `Some(undefined).inner` is
      `undefined`, the same as a `None`'s. */
  function FlatInner<X>(o: Option<Js<X>>): (j: Js<X>)
    ensures j == Undefined <==> o.IsNone() || o == Some(Undefined)
    ensures o.IsSome() && o.value.Defined? ==> j == o.value
  {
    match o.Inner()
    case Undefined => Undefined
    case Defined(v) => v
  }

  /** `Option.from(inner)`: `None` exactly when `inner === undefined`, and
      otherwise a `Some` holding `inner` unchanged. */
  function From<T>(inner: Js<T>): (o: Option<T>)
    ensures o.Inner() == inner
    ensures o.IsNone() <==> inner == Undefined
  {
    match inner
    case Undefined => None
    case Defined(v) => Some(v)
  }
}
