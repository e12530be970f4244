/** Laws of the optional-value type: how each variant answers every
    combinator, the functor laws of `mapSync`, and the case split of `from`. */
module OptionLaws {
  import Results
  import opened Options

  /** Exactly one variant is live: `isSome()` is the negation of `isNone()`,
      and, for an element type without `undefined`, the variant is visible in
      `inner` (see `SomeUndefinedHidesVariant` for the other element types). */
  lemma VariantsExclusive<T>(o: Option<T>)
    ensures o.IsSome() != o.IsNone()
    ensures o.IsSome() <==> o.Inner().Defined?
  {
  }

  /** A `None` answers every combinator as "value missing". */
  lemma NoneBehaviour<T, U, E>(o: Option<T>, d: T, e: E, f: T -> U)
    requires o.IsNone()
    ensures !o.IsSome() && o == NewNone()
    ensures o.Inner() == Undefined
    ensures o.Unwrap() == Results.Err(NoneError)
    ensures o.UnwrapOr(d) == d
    ensures o.Ok() == Results.Err(NoneError)
    ensures o.OkOr(e) == Results.Err(e)
    ensures o.MapSync(f) == None
  {
  }

  /** A `Some(x)` answers every combinator as "value exists"; the default and
      the error it is offered are ignored. */
  lemma SomeBehaviour<T, U, E>(x: T, d: T, e: E, f: T -> U)
    ensures Some(x).IsSome() && !Some(x).IsNone()
    ensures NewSome(x) == Some(x) && Some(x).Inner() == Defined(x)
    ensures Some(x).Unwrap() == Results.Ok(x)
    ensures Some(x).UnwrapOr(d) == x
    ensures Some(x).Ok() == Results.Ok(x)
    ensures Some(x).OkOr(e) == Results.Ok(x)
    ensures Some(x).MapSync(f) == Some(f(x))
  {
  }

  /** `mapSync` on a `None` returns that very value: the result is `this`. */
  lemma MapSyncNoneIsThis<T>(o: Option<T>, mapper: T -> T)
    requires o.IsNone()
    ensures o.MapSync(mapper) == o
  {
  }

  /** Functor identity: mapping the identity changes nothing. */
  lemma MapSyncIdentity<T>(o: Option<T>)
    ensures o.MapSync(x => x) == o
  {
  }

  /** Functor composition: two chained `mapSync` calls equal one call with the
      composed mapper. */
  lemma MapSyncComposition<T, U, V>(o: Option<T>, f: T -> U, g: U -> V)
    ensures o.MapSync(f).MapSync(g) == o.MapSync(x => g(f(x)))
  {
  }

  /** The mappers of a chain applied in order: `fs[0]` first. */
  function ApplyAll<T>(fs: seq<T -> T>, x: T): T
    decreases |fs|
  {
    if fs == [] then x else ApplyAll(fs[1..], fs[0](x))
  }

  /** `o.mapSync(fs[0]).mapSync(fs[1])...`: a chain of `mapSync` calls, which
      keeps the variant of the option it starts from. */
  function MapSyncChain<T>(o: Option<T>, fs: seq<T -> T>): (r: Option<T>)
    ensures r.IsSome() == o.IsSome()
    ensures o.IsNone() ==> r == o
    decreases |fs|
  {
    if fs == [] then o else MapSyncChain(o.MapSync(fs[0]), fs[1..])
  }

  /** A chain of any length is one `mapSync` with the composition of its
      mappers. */
  lemma {:induction false} MapSyncChainComposes<T>(o: Option<T>, fs: seq<T -> T>)
    ensures MapSyncChain(o, fs) == o.MapSync(x => ApplyAll(fs, x))
    decreases |fs|
  {
    if fs != [] {
      MapSyncChainComposes(o.MapSync(fs[0]), fs[1..]);
    }
  }

  /** `inner` and `from` are inverse: for an element type without `undefined`,
      every option is rebuilt from its `inner`. */
  lemma FromInnerRoundTrip<T>(o: Option<T>)
    ensures From(o.Inner()) == o
  {
  }

  /** Where the element type includes `undefined`, a `Some(undefined)` (built by
      `Some.new(undefined)` or by a mapper that returns `undefined`) is a `Some`
      whose `inner` is `undefined`, so `from` of its `inner` is `None`. */
  lemma SomeUndefinedHidesVariant<X>()
    ensures NewSome<Js<X>>(Undefined).IsSome()
    ensures FlatInner(NewSome<Js<X>>(Undefined)) == Undefined
    ensures From(FlatInner(NewSome<Js<X>>(Undefined))) == None
    ensures From(Defined(5)).MapSync((_: int) => Js<X>.Undefined).IsSome()
    ensures FlatInner(From(Defined(5)).MapSync((_: int) => Js<X>.Undefined)) == Undefined
  {
  }

  /** `from(o.inner)` at an element type that includes `undefined`: it is a
      `Some` exactly when `o` is a `Some` of a defined value, and then it holds
      that value; every option other than `Some(undefined)` is rebuilt. */
  lemma FromFlatInner<X>(o: Option<Js<X>>)
    ensures From(FlatInner(o)).IsSome() <==> o.IsSome() && o.value.Defined?
    ensures o != Some(Undefined) ==> From(FlatInner(o)).MapSync(x => Defined(x)) == o
  {
  }

  /** `unwrapOr(undefined)` read as a default of type `T | undefined` gives
      `inner`: the held value on a `Some`, `undefined` on a `None`. */
  lemma UnwrapOrUndefined<T>(o: Option<T>)
    ensures o.MapSync(x => Defined(x)).UnwrapOr(Undefined) == o.Inner()
  {
  }

  /** `from(undefined)` is `None`, and it is the same value as `None.new()`. */
  lemma FromUndefined<T>()
    ensures From<T>(Undefined) == None == NewNone<T>()
  {
  }

  /** Every input that is not `undefined` becomes a `Some` of itself. */
  lemma FromDefined<T>(x: T)
    ensures From(Defined(x)) == Some(x) == NewSome(x)
  {
  }

  /** The TypeScript type `T | null`; used to show how `from` treats `null`. */
  datatype Nullable<+T> = Null | NonNull(value: T)

  /** `from` tests only for `undefined`: `null` becomes `Some(null)`. */
  lemma FromNullIsSome<T>()
    ensures From<Nullable<T>>(Defined(Null)) == Some(Null)
    ensures From<Nullable<T>>(Defined(Null)).IsSome()
  {
  }

  /** `from(x).unwrapOr(d)` is `x` when `x` is defined and `d` otherwise. */
  lemma FromUnwrapOr<T>(x: Js<T>, d: T)
    ensures From(x).UnwrapOr(d) == match x case Defined(v) => v case Undefined => d
  {
  }

  /** `from(x).ok()` is `Ok(x)` exactly when `x` is defined, `Err(NoneError)`
      otherwise. */
  lemma FromOk<T>(x: Js<T>)
    ensures From(x).Ok().Ok? <==> x.Defined?
    ensures x.Defined? ==> From(x).Ok() == Results.Ok(x.value)
    ensures x.Undefined? ==> From(x).Ok() == Results.Err(NoneError)
  {
  }

  /** `mapSync` keeps the variant of any option built by `from`. */
  lemma FromMapSyncKeepsVariant<T, U>(x: Js<T>, f: T -> U)
    ensures From(x).MapSync(f).IsSome() == From(x).IsSome()
    ensures From(x).MapSync(f).IsSome() <==> x.Defined?
  {
  }

  /** The chained usage `option.mapSync(x => x + 2).mapSync(x => x * 2).inner`
      on an option of numbers (taken as integers). */
  lemma ChainedUsage(x: Js<int>)
    ensures From(x).MapSync(n => n + 2).MapSync(n => n * 2).Inner()
            == match x case Defined(n) => Defined((n + 2) * 2) case Undefined => Undefined
  {
  }
}
