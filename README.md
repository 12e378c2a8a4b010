# SwiftUtils helpers in Dafny

This project models `Utils.swift`, a single file of functional helpers for a
Swift application:

- the `Result` enum, with its projections, its combinators `map`, `flatMap` and `mapError`, and the operators `>>=` and `<^>`;
- `sequence`, which collapses an array of results into a result of an array;
- the `Array` extension (`all`, `any`, `span`, `takeWhile`, `takeFirst`, `pop`, `mapOptional`, `firstOptional`, `count`, `filter`);
- `zipWith`, the cartesian product `[A] * [B]`, repetition `Int * [A]` and `[A] * Int`, and the fold `/|`;
- the `Bool`, `Int` and `Dictionary` extensions;
- the application, composition and currying operators, `flip`, `fst` and `snd`.

Modules follow the parts of the file:

| file | module | part of Utils.swift |
|---|---|---|
| swift_int.dfy | `SwiftInt` | the 64-bit range of Swift's `Int`, whose arithmetic traps on overflow |
| option.dfy | `Option` | Swift's `Optional`, as used by the projections and array helpers |
| functional.dfy | `Functional` | the application, composition and currying operators, `flip`, `fst`, `snd` |
| results.dfy | `Results` | `Result`, its extension, `sequence` |
| arrays.dfy | `Arrays` | `extension Array`, `zipWith`, both array `*`, `/|` |
| logic.dfy | `Logic` | `extension Bool` |
| time_units.dfy | `TimeUnits` | `extension Int` |
| dictionaries.dfy | `Dictionaries` | `extension Dictionary` |

Modelling choices:

- Swift arrays and dictionaries are value types, so they become `seq` and `map`.
- Swift closures become Dafny's total arrow types.
- Swift's `Error` existential becomes a type parameter `E`. `mapError` keeps the error type, because in the source it returns a `Result` over the same `Error` existential. Its result on a success is the receiver itself.
- The loops in the source (`all`, `any`, `takeWhile`, `mapOptional`, `firstOptional`, `sequence`, `Int * [A]`) are Dafny methods with loop invariants. Each is proved equal to a recursive specification function (`Span`, `SomeImages`, `SequenceFold`, `Repeat`) or to a quantified statement.
- `sequence` is modelled in its two-pass form. It runs `all { $0.isSuccess }` first, scans for a failure only when that is false, and otherwise unwraps every payload. It is proved equal to a one-pass left fold in which the first failure wins.
- The source traps in some cases. These become preconditions, and nothing else does:
  - `Int * [A]` with a negative count, an invalid `0..<n` range, gets `requires n >= 0`.
  - `takeFirst(n)` with n greater than the count makes `dropLast` negative, so it gets `requires n <= |s|`.
  - `takeFirst(n)` also computes `count - n` in 64-bit `Int`, which traps when n is so negative that the difference overflows. It therefore requires that difference to fit. Any other negative n reaches `dropLast` past the end and gives an empty slice, and the model says so.
  - The time-unit conversions overflow Swift's 64-bit `Int`. Each requires that the product it computes fits in 64 bits.

## Model

| member | source | states |
|---|---|---|
| Functional.Pipe | Utils.swift:15-18 | forward application of f to x is `f(x)` |
| Functional.PipeBack | Utils.swift:20-23 | backward application of f to x is `f(x)` |
| Functional.Compose | Utils.swift:25-28 | `f >>> g` maps every x to `g(f(x))` |
| Functional.ComposeBack | Utils.swift:30-33 | `f <<< g` maps every x to `f(g(x))` |
| Functional.Curry | Utils.swift:39-44 | `curry(f)` applied to a and then to b gives `f(a, b)`, for every a and b |
| Functional.Curry2 | Utils.swift:35-37 | `curry2(f)` applied to a, b and c in turn gives `f(a, b, c)`, for every a, b and c |
| Functional.Flip | Utils.swift:46-50 | `flip(f)(b, a) == f(a, b)` for every a and b |
| Functional.Fst | Utils.swift:370-372 | `fst(t)` is the first component: t is that value paired with its second component |
| Functional.Snd | Utils.swift:373-375 | `snd(t)` is the second component: t is its first component paired with that value |
| Functional.PipeLaws | Utils.swift:15-23 | forward and backward application both give `f(x)`; applying f then g is applying `f >>> g` |
| Functional.ComposeLaws | Utils.swift:25-33 | `>>>` is associative and applies its left function first; `g <<< f` is `f >>> g` |
| Functional.CurryFlipLaws | Utils.swift:35-50 | `curry(f)(a)(b) == f(a, b)`, `curry2(h)(a)(b)(c) == h(a, b, c)`, `flip` swaps the arguments and is its own inverse, `curry(flip(f))(b)(a) == f(a, b)` |
| Functional.PairLaws | Utils.swift:370-375 | `(fst(t), snd(t)) == t`, and `fst`, `snd` give the components of a pair |
| Results.Result.IsSuccess | Utils.swift:57-64 | `isSuccess` is true exactly for the success case |
| Results.Result.IsFailure | Utils.swift:66-69 | `isFailure` is true exactly for the failure case |
| Results.Result.Value | Utils.swift:71-79 | `value` is present exactly for a success, and then the result is `success` of it |
| Results.Result.Error | Utils.swift:81-89 | `error` is present exactly for a failure, and then the result is `failure` of it |
| Results.ProjectionsAgree | Utils.swift:57-89 | `isFailure == !isSuccess`; `isSuccess`, a present `value` and the success case coincide; a present `error` is exactly the failure case; each projection gives back the payload |
| Results.Result.Map | Utils.swift:93-100 | a failure maps to the same failure; `success(v)` maps to `success(f(v))` |
| Results.Result.FlatMap | Utils.swift:102-109 | a failure stays the same failure; on `success(v)` the result is `f(v)` |
| Results.MapError | Utils.swift:111-116 | a success is returned unchanged; `failure(e)` becomes `failure(f(e))` |
| Results.Bind | Utils.swift:118-120 | `left >>= right` is `left.flatMap(right)` |
| Results.Fmap | Utils.swift:122-124 | `f <^> left` is `left.map(f)` |
| Results.FailureShortCircuits | Utils.swift:93-124 | `failure(e)` comes through `map`, `flatMap`, `>>=` and `<^>` as `failure(e)` for every function |
| Results.MonadLaws | Utils.swift:102-109 | left identity, right identity and associativity of `flatMap` with `success` as unit |
| Results.FunctorLaws | Utils.swift:93-109 | `map` preserves the identity, composes, and equals `flatMap` followed by `success` |
| Results.MapErrorLaws | Utils.swift:111-116 | `mapError` leaves a success alone, composes on failures, and never changes the case |
| Results.SequenceFold | Utils.swift:215-229 | the reference fold succeeds exactly when every element succeeds. It then holds one payload per element, in input order. Otherwise it is the failure of the leftmost failing element |
| Results.Sequence | Utils.swift:215-229 | the two-pass `sequence` (all-check, failure scan, unwrap) returns exactly the reference fold |
| Results.SequenceEmpty | Utils.swift:215-229 | `sequence([]) == success([])` |
| Results.SequenceCons | Utils.swift:215-229 | a leading failure is the answer whatever follows; a leading success prepends its payload to the answer for the rest |
| Arrays.All | Utils.swift:131-138 | `all(f)` is true iff every element satisfies f (true on the empty array) |
| Arrays.Any | Utils.swift:140-147 | `any(f)` is true iff some element satisfies f (false on the empty array) |
| Arrays.Span | Utils.swift:149-161 | `span(p) == (ys, zs)` with `ys + zs` the original array, every element of ys satisfying p, and zs empty or starting with an element that fails p |
| Arrays.SpanUnique | Utils.swift:149-161 | any prefix of p-elements followed by the end or by a non-p element is the split `span` returns |
| Arrays.TakeWhile | Utils.swift:163-172 | the accumulating loop of `takeWhile(p)` returns the first half of `span(p)` |
| Arrays.TakeFirst | Utils.swift:174-176 | `takeFirst(n)` is the first n elements for n >= 0 and empty for n < 0. It traps, so is required not to happen, for n beyond the count and for n so negative that `count - n` overflows 64-bit `Int` |
| Arrays.Pop | Utils.swift:178-180 | `pop()` is `(nil, [])` on the empty array, otherwise the first element and the rest, which put back together give the array |
| Arrays.SomeImagesAppend | Utils.swift:182-190 | the non-nil images of a concatenation are those of each part, concatenated |
| Arrays.SomeImagesOfTotal | Utils.swift:182-190 | with a function that never returns nil, `mapOptional` is `map` |
| Arrays.SomeImagesEmpty | Utils.swift:182-190 | there are no non-nil images exactly when every image is nil |
| Arrays.SomeImagesHead | Utils.swift:182-199 | the first non-nil image is the image of the first element whose image is not nil |
| Arrays.MapOptional | Utils.swift:182-190 | the loop of `mapOptional(f)` returns the non-nil images in input order |
| Arrays.FirstOptional | Utils.swift:192-199 | `firstOptional(f)` is nil iff every image is nil. Otherwise it is the image of the first element whose image is not nil, which is the head of `mapOptional(f)` |
| Arrays.Count | Utils.swift:201-203 | `count` is the number of elements, zero exactly on the empty array |
| Arrays.CountAppend | Utils.swift:201-203 | the count of a concatenation is the sum of the counts |
| Arrays.Filter | Utils.swift:205-207 | `filter` of the empty array is empty, of a one-element array is that array or empty as the element satisfies the predicate or not; the result keeps only elements that satisfy it, keeps every such element, and is no longer than the array |
| Arrays.FilterAppend | Utils.swift:205-207 | `filter` of a concatenation is the concatenation of the filters; with the one-element case this fixes order and multiplicity |
| Arrays.FilterPartition | Utils.swift:201-207 | `count(filter(p)) + count(filter(!p)) == count` |
| Arrays.ZipWith | Utils.swift:211-213 | `zipWith(a, b, f)` has the length of the shorter array and element i is `f(a[i], b[i])` |
| Arrays.Product | Utils.swift:250-256 | `lhs * rhs` has len(lhs) * len(rhs) pairs |
| Arrays.ProductAt | Utils.swift:250-256 | `lhs * rhs` has len(lhs) * len(rhs) pairs and `(lhs[i], rhs[j])` sits at index i * len(rhs) + j (row-major) |
| Arrays.RepeatLength | Utils.swift:352-358 | `n * xs` has n * len(xs) elements |
| Arrays.RepeatAt | Utils.swift:352-358 | block q of `n * xs` is xs: element q * len(xs) + j is `xs[j]` |
| Arrays.Times | Utils.swift:352-358 | the accumulating loop of `n * xs` returns xs concatenated n times |
| Arrays.TimesRight | Utils.swift:360-362 | `xs * n` is the same as `n * xs` |
| Arrays.FoldWith | Utils.swift:258-262 | the function the fold operator returns for acc and lst gives, for every reducing function f, the left fold of lst with f from acc |
| Arrays.ReduceAppend | Utils.swift:260-262 | the left fold over a concatenation continues the fold over the first part through the second |
| Arrays.FoldWithSteps | Utils.swift:260-262 | the function returned by the fold operator applied to acc and lst folds lst from acc: it gives acc on the empty list, else f applied to the fold of all but the last element and the last element |
| Logic.Implies | Utils.swift:234-236 | `a.implies(b)` is logical implication; it is false only for true, false |
| Logic.ImpliesOperator | Utils.swift:237-239 | `a ⇒ b` is `a.implies(b)` |
| Logic.Xor | Utils.swift:241-243 | `a.xOr(b)` is true exactly when a and b differ |
| Logic.XorOperator | Utils.swift:245-247 | `a ⊕ b` is `a.xOr(b)` |
| Logic.XorLaws | Utils.swift:234-247 | exclusive or is commutative and associative, false on equal inputs, and the negation of mutual implication |
| TimeUnits.Seconds | Utils.swift:292-294 | `n.seconds` is n |
| TimeUnits.Minutes | Utils.swift:295-297 | `n.minutes` is n times 60 seconds, defined when that fits a 64-bit `Int` |
| TimeUnits.Hours | Utils.swift:298-300 | `n.hours` is n times 3600 seconds, and equals `(60 * n).minutes`; defined when that fits |
| TimeUnits.Days | Utils.swift:301-303 | `n.days` is n times 86400 seconds, and equals `(24 * n).hours`; defined when that fits |
| TimeUnits.Weeks | Utils.swift:304-306 | `n.weeks` is n times 604800 seconds, and equals `(7 * n).days`; defined when that fits |
| TimeUnits.UnitsMonotone | Utils.swift:291-307 | each conversion is monotone in its count over its own domain (the counts for which it does not overflow) |
| Dictionaries.Inserting | Utils.swift:320-326 | the copy has the original keys plus the new key, maps the key to the value, and keeps every other entry |

## Left out

- `^>` (Utils.swift:126-128): it runs `map` only for the side effects of the function and returns nothing. Dafny functions have no side effects, so there is nothing to model.
- `~>` and `delay` (Utils.swift:264-289): background and main-queue dispatch and timers. This is scheduling with no result to model.
- `FileManager.file(atPath:isOlderThan:)` (Utils.swift:309-318): file-system attributes, dates and floating point.
- `String.countOccurences` and `words` (Utils.swift:328-336): they rest on Foundation's `components(separatedBy:)`, which is not part of this model.
- `IndexPath.zero` and `URLComponents.addQueryItems` (Utils.swift:338-350): thin wrappers over UIKit and Foundation types whose behaviour is not visible here.
- `CGRect.under` (Utils.swift:364-368): floating-point geometry.
- Operator and precedence declarations: they affect parsing only.
- The combinators do not call their function on a failure. A pure model cannot observe whether a function is called. It states the consequence instead: the result is the same for every function.
- Results.MapError: the source's `f` may return any `Error` type, but the result is again a `Result` over the `Error` existential. The model uses one error type E for both. It does not model the conversion between concrete error types.
- Arrays.TakeFirst: the source returns an `ArraySlice` that shares indices with the array. The model returns the elements as a sequence, so slice indices are not modelled.
- Arrays.Times: the model has no limit on array length or memory, and so has no trap for an oversized result.
- Functional.Compose, Functional.ComposeBack, Functional.Curry, Functional.Curry2, Functional.Flip: their argument types are restricted to types without references (`!new`), so that their contracts can quantify over every argument. Closures over class instances are not covered.
- Arrays.FoldWith: for the same reason, the accumulator and element types are restricted to types without references.
