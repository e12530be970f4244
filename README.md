# Option: a model of the `Some | None` optional-value type

This project models the core of the TypeScript library `@hazae41/option`: the
immutable sum type `Option<T> = Some<T> | None`, the synchronous methods that
the classes `Some` and `None` both implement (`isSome`, `isNone`, `unwrap`,
`unwrapOr`, `ok`, `okOr`, `mapSync`, the readonly `inner` field and the static
`new`), and the factory `Option.from`, which turns a possibly-`undefined`
value into an option.

- `result.dfy` (module `Results`): a local stand-in for `Ok` and `Err` of the
  companion result package; only their construction is used.
- `option.dfy` (module `Options`): `NoneError`; `Js<T>`, the type
  `T | undefined`; the datatype `Option<T>` whose member functions hold one
  case per class; `NewNone`, `NewSome` and `From`.
- `laws.dfy` (module `OptionLaws`): the behaviour of each variant, the functor
  laws of `mapSync` (also for a chain of any length), and the exact case split
  of `from`, including that `null` becomes `Some(null)`.

A type parameter `T` stands for a TypeScript type that does not include
`undefined`, and `Js<T>` is then `T | undefined`. An element type that does
include `undefined` is written `Js<X>`; since TypeScript's union does not nest,
the `inner` of such an option is `FlatInner`, under which `Some(undefined)` and
`None` look alike.

Throwing is modelled as a value: `unwrap` returns `Err(NoneError)` where the
source throws `NoneError`, so that the failure case can be stated and proved.

## Model

| member | source | states |
|---|---|---|
| `Options.Option.IsSome` | src/mods/option/some.ts:23-29 | `isSome()` is true on every option that is not `None` |
| `Options.Option.IsNone` | src/mods/option/none.ts:34-40 | `isNone()` is always the negation of `isSome()` |
| `Options.Option.Inner` | src/mods/option/none.ts:14-16 | for an element type without `undefined`: `inner` is defined exactly on `Some` and is always `undefined` on `None` |
| `Options.FlatInner` | src/mods/option/some.ts:10-12 | for an element type with `undefined`: `inner` is `undefined` exactly on `None` and on `Some(undefined)`, and otherwise the held value |
| `Options.Option.Unwrap` | src/mods/option/none.ts:42-49 | succeeds exactly on `Some`, returning its `inner`; on `None` always fails with `NoneError` |
| `Options.Option.UnwrapOr` | src/mods/option/none.ts:51-58 | the value `unwrap` would return, or the default exactly where `unwrap` would throw |
| `Options.Option.OkOr` | src/mods/option/none.ts:68-75 | `Ok(inner)` exactly on `Some`; on `None` exactly `Err(error)` with the supplied error |
| `Options.Option.Ok` | src/mods/option/none.ts:60-66 | equals `okOr(NoneError)` and agrees with `unwrap` |
| `Options.Option.MapSync` | src/mods/option/some.ts:83-90 | keeps the variant; the new `inner` is `mapper(inner)` on `Some` and stays `undefined` on `None` |
| `Options.NewNone` | src/mods/option/none.ts:18-24 | `None.new()` is a `None` whose `inner` is `undefined` |
| `Options.NewSome` | src/mods/option/some.ts:14-21 | `Some.new(x)` is a `Some` whose `inner` is `x` |
| `Options.From` | src/mods/option/option.ts:10-20 | the result's `inner` is the input itself, and the result is `None` exactly when the input is `undefined` |
| `OptionLaws.VariantsExclusive` | src/mods/option/option.ts:4-6 | every option is exactly one of `Some` and `None`; `isSome()` is the negation of `isNone()`; for an element type without `undefined`, `isSome()` holds exactly when `inner` is defined |
| `OptionLaws.NoneBehaviour` | src/mods/option/none.ts:30-101 | on `None`: `isSome` false, `isNone` true, `inner` undefined, `unwrap` fails with `NoneError`, `unwrapOr(d) == d`, `ok()` is `Err(NoneError)`, `okOr(e)` is `Err(e)`, `mapSync` gives `None` |
| `OptionLaws.SomeBehaviour` | src/mods/option/some.ts:19-90 | on `Some(x)`: `new(x)` equals `Some(x)`, `isSome` true, `unwrap` and `unwrapOr(d)` give `x`, `ok()` and `okOr(e)` give `Ok(x)`, `mapSync(f)` gives `Some(f(x))` |
| `OptionLaws.MapSyncNoneIsThis` | src/mods/option/none.ts:94-101 | `mapSync` on a `None` returns that same `None` |
| `OptionLaws.MapSyncIdentity` | src/mods/option/some.ts:88-90 | functor identity: mapping `x => x` returns an equal option |
| `OptionLaws.MapSyncComposition` | src/mods/option/some.ts:88-90 | functor composition: `mapSync(f).mapSync(g)` equals `mapSync(x => g(f(x)))` |
| `OptionLaws.MapSyncChain` | src/mods/option/index.test.ts:4-7 | a chain of `mapSync` calls of any length keeps the variant, and leaves a `None` unchanged |
| `OptionLaws.MapSyncChainComposes` | src/mods/option/index.test.ts:4-7 | a chain of `mapSync` calls equals one `mapSync` with the mappers composed in order |
| `OptionLaws.FromInnerRoundTrip` | src/mods/option/option.ts:15-20 | for an element type without `undefined`, `from(o.inner)` rebuilds every option `o` |
| `OptionLaws.SomeUndefinedHidesVariant` | src/mods/option/option.ts:15-17 | `Some.new(undefined)` and `from(5).mapSync(() => undefined)` are `Some`s whose `inner` is `undefined`, so `from` of that `inner` is `None` |
| `OptionLaws.FromFlatInner` | src/mods/option/option.ts:15-20 | for an element type with `undefined`, `from(o.inner)` is a `Some` exactly when `o` holds a defined value, and rebuilds every `o` other than `Some(undefined)` |
| `OptionLaws.UnwrapOrUndefined` | src/mods/option/none.ts:56-58 | `unwrapOr(undefined)` gives `inner`: the held value on `Some`, `undefined` on `None` |
| `OptionLaws.FromUndefined` | src/mods/option/option.ts:15-17 | `from(undefined)` is `None`, equal to `None.new()` |
| `OptionLaws.FromDefined` | src/mods/option/option.ts:18-19 | every input that is not `undefined` gives `Some` of itself |
| `OptionLaws.FromNullIsSome` | src/mods/option/option.ts:16 | only `undefined` is tested: `from(null)` is `Some(null)` |
| `OptionLaws.FromUnwrapOr` | src/mods/option/option.ts:15-20 | `from(x).unwrapOr(d)` is `x` when `x` is defined and `d` otherwise |
| `OptionLaws.FromOk` | src/mods/option/option.ts:15-20 | `from(x).ok()` is `Ok(x)` exactly when `x` is defined and `Err(NoneError)` otherwise |
| `OptionLaws.FromMapSyncKeepsVariant` | src/mods/option/option.ts:4-6 | `from(x).mapSync(f)` has the variant of `from(x)`, which is `Some` exactly when `x` is defined |
| `OptionLaws.ChainedUsage` | src/mods/option/index.test.ts:3-8 | `mapSync(x => x + 2).mapSync(x => x * 2).inner` is `(x + 2) * 2` for a defined `x` and `undefined` otherwise |

## Left out

- The asynchronous `map` (src/mods/option/some.ts:79-81, src/mods/option/none.ts:90-92) and `None.await` (src/mods/option/none.ts:81-83): promise plumbing with no logic beyond `mapSync`; the `Promiseable` type lives in `libs/promises`, which is not part of this model.
- `NoneError` is a plain tag: its `Error` subclassing, its message and stack traces are host-runtime behaviour.
- The result package's own behaviour: `Ok` and `Err` are only constructed, never inspected.
- Mappers that throw: a mapper is a total Dafny function, so the propagation of a mapper's exception out of `mapSync` is not modelled.
- Options.Option.MapSync: on a `None` the source returns `this`; where the element type changes the model returns a `None` of the new type (equal in variant and `inner`, not in object identity); `OptionLaws.MapSyncNoneIsThis` states the equality when the type is unchanged.
- Options.Option.Inner: the contract "defined exactly on `Some`" is stated for element types without `undefined`; in the source `Some.new(undefined).inner` is `undefined`, which the model states through `Options.FlatInner` and `OptionLaws.SomeUndefinedHidesVariant`.
- OptionLaws.VariantsExclusive: its second clause holds only for element types without `undefined`; for the others a `Some(undefined)` has an undefined `inner` (`OptionLaws.SomeUndefinedHidesVariant`).
- OptionLaws.FromInnerRoundTrip: holds only for element types without `undefined`; in the source `from(Some.new(undefined).inner)` is `None`, and `OptionLaws.FromFlatInner` states what does hold there.
- Options.Option.UnwrapOr: the default has the element type `T`; the source's `unwrapOr<U>(value: U)` accepts a default of any type and returns `T | U`. The default `undefined` is covered by `OptionLaws.UnwrapOrUndefined`; other foreign defaults (such as `null`) are covered only after mapping the option into a wider type.
- Object identity in general: options are compared as values, so `new Some(x)` and `Some.new(x)` are equal rather than distinct objects.
- TypeScript type guards (`this is Some<T>`, `never`, `false` return types) become datatype discriminators; their static narrowing has no counterpart.
- `OptionLaws.ChainedUsage` takes JavaScript numbers as unbounded integers; floating-point rounding is not modelled.
