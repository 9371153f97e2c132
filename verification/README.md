# Programming TypeScript playground, modelled in Dafny

The repository is a set of textbook exercises in TypeScript. Most of it
demonstrates the type checker and has no runtime behaviour. This project
models the small pure functions that do have behaviour:

- chapter 6: `parseUnit` and `parseWidth` (narrowing a width string to
  a unit), `getNextDay` and the `nextDay2` record (exhaustive weekday
  successor), `isBig`, `get2` (following a key path through nested
  values), and the `Currency.from` companion object;
- chapter 4: `greet`, `sumVariadic`, `add`, the `numbers`
  generator, `filter`, `map`, `mapNode` and `is`;
- chapter 7: the `Option`/`Some` container with `flatMap` and
  `getOrElse`, and the two birthday parsers `parse` and `parse2`.

Modules: `Nullable` (the `T | null` union), `Widths`, `Weekdays`,
`Sizes`, `Currencies`, `Paths`, `Functions`, `Generics`,
`Options`, `Birthdays`.

Modelling choices:

- TypeScript `number` is `real`: exact arithmetic, no rounding, no NaN
  and no infinities. The `numbers` generator yields `int`s.
- `null`/`undefined` returns are the `Nullable` datatype; thrown
  errors and error objects are datatype variants.
- `parseFloat`, `new Date(s)`, `isValid`, `date.getTime()` and
  `Date.now()` are foreign. They are parameters of the functions that call
  them: `parseFloat` of `Widths.ParseWidth`; a date constructor, a
  validity test, a time reader and the current time of `Birthdays.Parse`.
  `isValid` is not defined in any source file, and its definition is not
  part of this model.
- Property access (`o[k]` in `get2`) is modelled on a JSON-like value:
  objects by own property name, arrays and strings by `length` and by
  canonical index names.
  Numeric keys are turned into property names as JavaScript does, so
  `o[0]` and `o["0"]` read the same property. Reading a property of
  `null` or `undefined` throws a `TypeError`.
- Chapter 7 declares an `Option` interface implemented only by `Some`.
  The datatype adds a `None` variant so that it is closed. Every lemma
  about `Some` stands alone. `Options.NoneLaws` and
  `Options.ChainExamples` state what `None` is usually meant to do, and no
  source line backs them.

## Model

| member | source | states |
|---|---|---|
| Widths.FindUnit | books/programming-typescript/myproject/src/chapter6/chap6.ts:148-155 | Scanning a unit list returns Null exactly when the string ends with none of the units, and otherwise the first unit in list order that it ends with |
| Widths.ParseUnit | books/programming-typescript/myproject/src/chapter6/chap6.ts:145-155 | parseUnit is Null iff the input ends with none of cm, px, %; otherwise the result is a member of the unit list, a suffix of the input, and the first such unit in list order |
| Widths.ParseUnitLoop | books/programming-typescript/myproject/src/chapter6/chap6.ts:148-155 | The source's early-return for-loop over the unit list computes exactly parseUnit |
| Widths.UnitSuffixesExclusive | books/programming-typescript/myproject/src/chapter6/chap6.ts:145-146 | No string ends with two different units, so at most one unit can match |
| Widths.ParseWidth | books/programming-typescript/myproject/src/chapter6/chap6.ts:162-177 | null and undefined give null; a number n gives px with value n; a string gives null exactly when parseUnit does, and otherwise the unit parseUnit found and the parseFloat value |
| Widths.ParseWidthStringUnit | books/programming-typescript/myproject/src/chapter6/chap6.ts:171-176 | A string width parses with unit u if and only if the string ends with the text of u |
| Widths.ParseUnitExamples | books/programming-typescript/myproject/src/chapter6/chap6.ts:145-155 | "12px", "3cm" and "50%" parse to px, cm and % |
| Widths.ParseUnitNullExamples | books/programming-typescript/myproject/src/chapter6/chap6.ts:148-155 | "12em" and the empty string have no unit |
| Weekdays.Index | books/programming-typescript/myproject/src/chapter6/chap6.ts:210-211 | The calendar position of a day is below 7, and below 5 exactly for the Weekday members Mon to Fri |
| Weekdays.GetNextDay | books/programming-typescript/myproject/src/chapter6/chap6.ts:221-229 | getNextDay always returns a weekday, never Sat or Sun, and its position is the next one modulo 5, so Fri maps to Mon |
| Weekdays.NextDay2Total | books/programming-typescript/myproject/src/chapter6/chap6.ts:330-336 | The nextDay2 record has an entry for every weekday, naming the next calendar day (Fri to Sat) |
| Weekdays.GetNextDayVersusNextDay2 | books/programming-typescript/myproject/src/chapter6/chap6.ts:330-336 | getNextDay and nextDay2 agree on Mon to Thu and differ on Fri, where getNextDay gives Mon and the record gives Sat |
| Weekdays.GetNextDayInjective | books/programming-typescript/myproject/src/chapter6/chap6.ts:221-229 | Distinct weekdays have distinct successors |
| Weekdays.GetNextDayCycle | books/programming-typescript/myproject/src/chapter6/chap6.ts:221-229 | Five applications of getNextDay return to the starting day |
| Sizes.IsBig | books/programming-typescript/myproject/src/chapter6/chap6.ts:231-233 | Definition of isBig; no contract of its own, stated by Sizes.IsBigThreshold |
| Sizes.IsBigThreshold | books/programming-typescript/myproject/src/chapter6/chap6.ts:231-233 | isBig is upward closed, holds at 100 and not at 99, and is false exactly below 100 |
| Currencies.From | books/programming-typescript/myproject/src/chapter6/chap6.ts:396-403 | Currency.from(value, unit) builds the currency with that unit and that value |
| Currencies.FromRoundTrip | books/programming-typescript/myproject/src/chapter6/chap6.ts:390-403 | Every currency is Currency.from of its own fields, and from determines its arguments |
| Paths.Access | books/programming-typescript/myproject/src/chapter6/chap6.ts:319 | Reading a property throws a TypeError exactly on null and undefined; an object yields the named field, or undefined when it has none; an array or string yields its length for 'length', the element or character at a canonical in-range index, and undefined for every other key; booleans and numbers yield undefined |
| Paths.AccessByName | books/programming-typescript/myproject/src/chapter6/chap6.ts:323 | A key is read only through its property name, so o[0] and o['0'] read the same property of every value |
| Paths.Get2 | books/programming-typescript/myproject/src/chapter6/chap6.ts:317-321 | Definition of get2 as a left fold of property reads over the keys; no contract of its own, its behaviour is stated by Paths.Get2NoKeys, Paths.Get2FirstKey, Paths.Get2Append and Paths.Get2Loop |
| Paths.IndexNameRoundTrip | books/programming-typescript/myproject/src/chapter6/chap6.ts:323 | A non-negative numeric key names the array element at that index |
| Paths.NatTextRoundTrip | books/programming-typescript/myproject/src/chapter6/chap6.ts:323 | Reading back the decimal property name of an index gives the index |
| Paths.ArrayIndexCanonical | books/programming-typescript/myproject/src/chapter6/chap6.ts:323 | Every canonical index name is the decimal spelling of the index it denotes |
| Paths.Get2NoKeys | books/programming-typescript/myproject/src/chapter6/chap6.ts:317-321 | get2(o) with no keys returns o |
| Paths.Get2FirstKey | books/programming-typescript/myproject/src/chapter6/chap6.ts:317-321 | get2(o, k, ...ks) equals get2(o[k], ...ks), and a throw at o[k] ends the walk |
| Paths.Get2Append | books/programming-typescript/myproject/src/chapter6/chap6.ts:317-321 | Following a path in two parts equals following it at once |
| Paths.Get2Loop | books/programming-typescript/myproject/src/chapter6/chap6.ts:317-321 | The source's forEach loop that reassigns the running result computes get2 |
| Paths.Get2ActivityLog | books/programming-typescript/myproject/src/chapter6/chap6.ts:293-323 | get2(activityLog, 'events', 0, 'type') is "Read"; a path through a missing property then throws |
| Functions.Greet | books/programming-typescript/myproject/src/chapter4/index.ts:4-6 | greet returns "hello " followed by the whole name |
| Functions.GreetInjective | books/programming-typescript/myproject/src/chapter4/index.ts:4-6 | Different names give different greetings |
| Functions.Sum | books/programming-typescript/myproject/src/chapter4/index.ts:43-45 | Definition of the reduce left fold from 0; no contract of its own, stated by Functions.SumAppend and Functions.SumIsSumRight |
| Functions.SumAppend | books/programming-typescript/myproject/src/chapter4/index.ts:43-45 | The reduce-from-0 sum of a concatenation is the sum of the two sums |
| Functions.SumIsSumRight | books/programming-typescript/myproject/src/chapter4/index.ts:43-45 | The left fold used by reduce equals the sum taken from the right |
| Functions.SumVariadic | books/programming-typescript/myproject/src/chapter4/index.ts:43-45 | sumVariadic returns the sum of its arguments, and 0 for none |
| Functions.Add | books/programming-typescript/myproject/src/chapter4/index.ts:48-50 | Definition of add; no contract of its own, stated by Functions.AddIsPairSum |
| Functions.AddIsPairSum | books/programming-typescript/myproject/src/chapter4/index.ts:48-52 | add(a, b) is the variadic sum of [a, b], is commutative, and add(10, 20) is 30 |
| Functions.Yields | books/programming-typescript/myproject/src/chapter4/index.ts:75-81 | The generator loop from lo to hi yields hi - lo + 1 numbers, the i-th being lo + i |
| Functions.Numbers | books/programming-typescript/myproject/src/chapter4/index.ts:75-90 | Spreading the numbers iterator gives exactly 1 to 10 in increasing order |
| Functions.NumbersDestructured | books/programming-typescript/myproject/src/chapter4/index.ts:93-96 | Destructuring numbers gives one == 1, two == 2 and rest == [3..10] |
| Functions.Is | books/programming-typescript/myproject/src/chapter4/index.ts:251-256 | Definition of is as === on string, boolean and number values; no contract of its own, stated by Functions.IsIsEquality |
| Functions.IsIsEquality | books/programming-typescript/myproject/src/chapter4/index.ts:251-256 | is(a, b) holds exactly when a and b are the same primitive, and is reflexive and symmetric |
| Functions.IsExamples | books/programming-typescript/myproject/src/chapter4/index.ts:258-261 | is('string', 'otherstring') and is(true, false) are false, is(42, 42) is true, and a number never equals a string |
| Generics.Filter | books/programming-typescript/myproject/src/chapter4/index.ts:115-124 | filter's result is an order-preserving subsequence of the input, no longer than it, whose elements all pass the test, and it contains every input element that passes |
| Generics.FilterMultiset | books/programming-typescript/myproject/src/chapter4/index.ts:115-124 | Every element that passes the test occurs in filter's result exactly as often as in the input, and no other element occurs |
| Generics.FilterLoop | books/programming-typescript/myproject/src/chapter4/index.ts:115-124 | The source's push loop computes filter |
| Generics.FilterAppend | books/programming-typescript/myproject/src/chapter4/index.ts:115-124 | Filtering a concatenation concatenates the filtered parts |
| Generics.FilterIdempotent | books/programming-typescript/myproject/src/chapter4/index.ts:115-124 | Filtering an already filtered array by the same test changes nothing |
| Generics.FilterExamples | books/programming-typescript/myproject/src/chapter4/index.ts:127-129 | filter([1, 2, 3], x > 2) is [3] and filter(['a', 'b'], x != 'b') is ['a'] |
| Generics.Map | books/programming-typescript/myproject/src/chapter4/index.ts:142-148 | map's result has the input's length, and its i-th element is f of the i-th input element |
| Generics.MapLoop | books/programming-typescript/myproject/src/chapter4/index.ts:142-148 | The source's result[i] = f(array[i]) loop computes map |
| Generics.MapCompose | books/programming-typescript/myproject/src/chapter4/index.ts:142-148 | Mapping by f and then g equals mapping once by their composition |
| Generics.MapNode | books/programming-typescript/myproject/src/chapter4/index.ts:205-213 | mapNode sets the value to f of the old value and keeps the node's shape and children, so well-formed inner nodes stay well formed |
| Generics.MapNodeLaws | books/programming-typescript/myproject/src/chapter4/index.ts:205-213 | mapNode by the identity returns the node, and two mapNodes are one by the composition |
| Options.Option.FlatMap | books/programming-typescript/myproject/src/chapter7/chap7.ts:45-47 | Definition of flatMap; no contract of its own, stated by the Some lemmas below |
| Options.Option.GetOrElse | books/programming-typescript/myproject/src/chapter7/chap7.ts:48-50 | Definition of getOrElse; no contract of its own, stated by Options.SomeGetOrElse |
| Options.SomeGetOrElse | books/programming-typescript/myproject/src/chapter7/chap7.ts:48-50 | Some(v).getOrElse(d) is v for every default d |
| Options.SomeLeftIdentity | books/programming-typescript/myproject/src/chapter7/chap7.ts:45-47 | Some(v).flatMap(f) is f(v) |
| Options.SomeRightIdentity | books/programming-typescript/myproject/src/chapter7/chap7.ts:43-47 | Some(v).flatMap(x => Some(x)) is Some(v) |
| Options.SomeAssociativity | books/programming-typescript/myproject/src/chapter7/chap7.ts:45-47 | Some(v).flatMap(f).flatMap(g) equals Some(v).flatMap(x => f(x).flatMap(g)) |
| Options.NoneLaws | books/programming-typescript/myproject/src/chapter7/chap7.ts:38-41 | Completion beyond the source: None yields the default, short-circuits flatMap, and the identity and associativity laws hold for every option |
| Options.ChainExamples | books/programming-typescript/myproject/src/chapter7/chap7.ts:38-41 | Completion beyond the source: a chain doubling values above 3 gives 10 for 5, the default for 2, and the default for None |
| Birthdays.Parse | books/programming-typescript/myproject/src/chapter7/chap7.ts:9-20 | parse reports InvalidDateFormatError iff the date is invalid, DateIsInTheFutureError iff it is valid and after now, and otherwise returns the constructed date |
| Birthdays.ParseChecksFormatFirst | books/programming-typescript/myproject/src/chapter7/chap7.ts:12-19 | An invalid date yields InvalidDateFormatError even when it also lies in the future |
| Birthdays.Parse2 | books/programming-typescript/myproject/src/chapter7/chap7.ts:29-35 | parse2 returns at most one date: none exactly when the date is invalid, otherwise the constructed date |
| Birthdays.Parse2VersusParse | books/programming-typescript/myproject/src/chapter7/chap7.ts:9-35 | parse2 is empty exactly when parse reports a format error, and otherwise holds the date, including dates that parse rejects as future |

## Left out

- Floating-point arithmetic: numbers are exact reals. So `sumVariadic` is order-independent here, while doubles can round differently. NaN and the infinities are not modelled.
- Functions.IsIsEquality: reflexivity holds because NaN is not modelled; in JavaScript `is(NaN, NaN)` is false.
- Sizes.IsBigThreshold: `IsBig(a) <==> !(a < 100)` holds because NaN is not modelled; both sides differ at NaN in JavaScript.
- `parseFloat` is a parameter. The numeric value of a width is not derived from its string.
- `Date`, `Date.now`, `isValid`, `getTime`, `toLocaleTimeString`, `toISOString` and `fancyDate` are clock and date-library calls. `parse` and `parse2` take them as parameters; the others are not modelled.
- Options.SomeLeftIdentity: a pure Dafny function cannot count calls, so the promise that `flatMap` applies `f` exactly once is not stated.
- Paths.Access: inherited properties and methods read as `undefined`; only own properties and the `length` of arrays and strings are modelled. Strings are sequences of Unicode scalar values, while JavaScript indexes and measures them in UTF-16 code units, so a character outside the Basic Multilingual Plane is one element here and two in JavaScript. Numeric keys are integers spelled in plain decimal; JavaScript spells large numbers such as 1e21 in exponent notation and also accepts fractional keys.
- Paths.Get2ActivityLog: dates are objects with no own properties, which is what property access sees.
- `get2`'s `Get` type allows only one to three keys. The model, like the runtime, accepts any number.
- The single-key getter `get` is not modelled separately; `get2` with one key covers it.
- `greet2` is the same as `greet`. `greet3` and `greet4` concatenate `'hello'` without a space. `greet5` is built with `new Function`, which is dynamic evaluation. None of these variants is modelled.
- `is`: TypeScript's type checker rejects comparing two different primitive types (`is(10, 'foo')`). The model accepts that call and returns false.
- `console.log`, `log`, `log2`, `this` binding, `apply`/`call`/`bind`: these are output or calling conventions with no result to model.
- `map2` does not type-check: it declares `a` but loops on an undeclared `i`.
- These are DOM, timer or global-state code: `triggerEvent`, `closeDialog`, `removeFromDOM`, `fetchUser` and `userId`.
- These only illustrate subtyping or type inference: `deleteUser`, `chirp`, `clone`, `API`, `handle`, `logPerimeter`, `call`, `tuple` and `isString`.
- These have no runtime behaviour: type-level demonstrations (keyof, mapped types, Record aliases) and the chapter 3 and `src/` scratch files.
- `nextDay3` has the same entries as `nextDay2`, so `Weekdays.NextDay2` stands for both.
