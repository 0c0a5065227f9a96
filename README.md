# Deep snapshots, property tests and deep mocks for Jest: a Dafny model

This project models the core of a small library of Jest helpers.

- **Deep snapshot matcher** (`src/snapshot.ts`). `expect(x).toMatchDeepSnapshot(propertyMatchers, ignoreArrayOrder, name)` walks `x`. Arrays and the array-valued properties that have a truthy matcher are split into separate snapshots, and every snapshot is taken by Jest's `toMatchSnapshot`. The model treats `toMatchSnapshot` as an oracle: a total function from its positional argument list to a returned result or a thrown error. The matcher is modelled twice:
  - the specification function `Snapshot.Match`, which returns the outcome, the list of oracle calls in order, and the value as left after the in-place sorts;
  - the recursive method `Snapshot.MatchPropertiesAgainstObject`, whose loops are proved equal to `Snapshot.Match`.
- **Property-test wiring** (`src/jest.ts`):
  - the seed hash `hashCode`, as a loop over UTF-16 code units in 32-bit arithmetic;
  - the assertion options `options`, which are object spreads over entry lists;
  - the argument split `reorder`, a method that pops arguments from the end;
  - the option resolution of `patchProp`: defaults, integration-test run count and timeout, and the final spread order.
- **Deep mock** (`src/mock.ts`). The `get` trap of the proxy built by `mockObject` is a function from a target and a key to a read result: a plain value, a further proxy, or a thrown error. Reads of key paths through nested proxies are tied to a plain nested lookup on the wrapped object.
- **Arbitraries** (`src/arbitraries.ts`). The model has the filter predicate of `alphanumeric` exactly as written, a corrected twin, and the `phoneNumber` map.

JavaScript values are the datatype `JsValues.Value`. Numbers are integers. An object is the list of its own enumerable string-keyed entries in enumeration order.

## Model

| member | source | states |
|---|---|---|
| JsValues.OwnEntries | src/snapshot.ts:103 | `Object.entries` fails (TypeError) exactly on null and undefined |
| JsValues.OwnKeys | src/snapshot.ts:92-93 | `Object.keys` fails exactly on null and undefined |
| JsValues.LookupFound | src/snapshot.ts:92-94 | a key is found exactly when some entry has it, and the value found belongs to an entry with that key |
| JsValues.RemoveKeysMembers | src/snapshot.ts:45-48 | `removeKeys` keeps exactly the entries whose key is not listed, and never adds any |
| JsValues.RemoveKeysAppend | src/snapshot.ts:45-48 | `removeKeys` distributes over concatenation, so the kept entries keep their original order |
| JsValues.RemoveNoKeys | src/snapshot.ts:45-48 | removing no key gives back every entry in order |
| JsValues.AssignLookup | src/jest.ts:208-212 | after `o[k] = v`, key `k` reads `v` and every other key reads as before |
| JsValues.AssignKeys | src/jest.ts:208-212 | `o[k] = v` keeps existing keys in place and appends `k` only when it is new |
| JsValues.LastLookup | src/jest.ts:24-27 | the last value of a key exists exactly when the key occurs |
| JsValues.SpreadLookup | src/jest.ts:24-27 | after `{...base, ...extra}` a key reads its last value in `extra`, or else its value in `base` |
| JsValues.SpreadKeysPrefix | src/jest.ts:24-27 | a spread keeps the keys of `base` in front, in their order |
| Decimal.DigitChar | src/arbitraries.ts:36 | the character of a digit is a decimal digit with that value |
| Decimal.ParseIndex | src/snapshot.ts:107 | a key denotes an array index exactly when it is a canonical numeral |
| Decimal.NatToStringCanonical | src/snapshot.ts:71 | the decimal form of a number is canonical and reads back as the number |
| Decimal.ParseShow | src/snapshot.ts:103 | the key of array index `n` denotes index `n` |
| Decimal.ShowParse | src/snapshot.ts:103 | every canonical numeral is the decimal form of its value |
| Decimal.NatToStringInjective | src/snapshot.ts:71 | different indices have different decimal forms |
| Decimal.SingleDigit | src/arbitraries.ts:36 | `i.toString()` of a single digit is that one digit character |
| DefaultSort.LexLeTotal | src/snapshot.ts:70 | any two strings are ordered one way or the other |
| DefaultSort.LexLeTransitive | src/snapshot.ts:70 | the string order is transitive |
| DefaultSort.SortLeTotal | src/snapshot.ts:70 | the default sort order is total, with undefined last |
| DefaultSort.SortLeTransitive | src/snapshot.ts:70 | the default sort order is transitive |
| DefaultSort.Insert | src/snapshot.ts:70 | inserting adds exactly the element and keeps a sorted list sorted |
| DefaultSort.SortDefault | src/snapshot.ts:70 | `sort()` returns a sorted permutation of its input |
| DefaultSort.SortedUnique | src/snapshot.ts:70 | without ties, two sorted permutations of the same elements are equal |
| DefaultSort.SortPermutationInvariant | src/snapshot.ts:70 | without ties, sorting any permutation of the elements gives the same array |
| Snapshot.Traversal | src/snapshot.ts:70 | the visited elements are a permutation of the array, in the original order unless array order is ignored |
| Snapshot.FirstMissingSpec | src/snapshot.ts:92-101 | the check names a missing matcher key exactly when one exists, and then it names the first in matcher order |
| Snapshot.DeferredEntries | src/snapshot.ts:103-108 | deferred entries are entries of the received object |
| Snapshot.DeferredEntriesMembers | src/snapshot.ts:103-108 | the deferred entries are exactly the received entries with an array value and a truthy matcher |
| Snapshot.FoldRuns | src/snapshot.ts:69-90 | a fail-fast loop leaves at most one value per run |
| Snapshot.MatchPropertiesAgainstObject | src/snapshot.ts:50-138 | the recursive method's outcome, oracle calls and final value are those of `Snapshot.Match` |
| Snapshot.MatchArray | src/snapshot.ts:63-90 | the array branch's method computes `Snapshot.MatchArrayRun` |
| Snapshot.MatchElements | src/snapshot.ts:69-85 | the element loop with early return computes the fail-fast fold of the element runs |
| Snapshot.MatchProperties | src/snapshot.ts:91-134 | the object branch's method computes `Snapshot.MatchObject` |
| Snapshot.FindMissingKey | src/snapshot.ts:92-101 | the key loop finds the first matcher key the received object lacks |
| Snapshot.MatchDeferred | src/snapshot.ts:120-132 | the deferred-key loop with early return computes the fail-fast fold of the property runs |
| Snapshot.ToMatchDeepSnapshot | src/snapshot.ts:142-155 | the matcher entry passes `ignoreArrayOrder \|\| false` and the snapshot name as the hint |
| SnapshotProperties.TraversalSortedPermutation | src/snapshot.ts:70 | with `ignoreArrayOrder` the traversal is a sorted permutation of the array |
| SnapshotProperties.NoShapePassthrough | src/snapshot.ts:57-61 | without matchers there is exactly one oracle call, on `received`, with the hint only when it is defined, and its result is returned unchanged |
| SnapshotProperties.EmptyArraySnapshotted | src/snapshot.ts:65-67 | an empty array with matchers gets exactly one oracle call on the empty array and the hint |
| SnapshotProperties.PrimitiveSnapshotted | src/snapshot.ts:135-137 | a non-object with matchers gets one oracle call on `received`, the matchers and the hint |
| SnapshotProperties.FoldFailFast | src/snapshot.ts:82-84 | a fail-fast loop stops at the first failing run and makes no later run's calls |
| SnapshotProperties.FoldAllPass | src/snapshot.ts:69-85 | when no run fails, a fail-fast loop makes every run's calls in order |
| SnapshotProperties.FoldAfters | src/snapshot.ts:69-90 | the values a fail-fast loop leaves are those of the runs it made |
| SnapshotProperties.ArrayFailFast | src/snapshot.ts:82-84 | the first failing element's result is returned, and later elements cause no oracle calls |
| SnapshotProperties.ArrayAllPass | src/snapshot.ts:86-90 | when every element passes, each element's calls are made in order and the result passes |
| SnapshotProperties.ElementHintsDistinct | src/snapshot.ts:71-80 | different elements get different hints |
| SnapshotProperties.NullWithShapeThrows | src/snapshot.ts:91-93 | null with matchers throws before any oracle call |
| SnapshotProperties.MissingKeyAborts | src/snapshot.ts:92-101 | a matcher key the received object lacks throws, names a missing key, and comes before any oracle call |
| SnapshotProperties.DateObjectRun | src/snapshot.ts:91-119 | with matchers a Date takes the object branch with no own entries: null matchers throw, any matcher key is missing, and otherwise the one oracle call snapshots `{}` against the matchers |
| SnapshotProperties.DateTimeIgnored | src/snapshot.ts:91-119 | with matchers every Date makes the same oracle calls whatever its time, ends the same way up to the Date quoted in a missing-key error, and is left as it was |
| SnapshotProperties.DeferredEntriesAppend | src/snapshot.ts:103-108 | the deferred entries keep the received object's order |
| SnapshotProperties.BaseSnapshotFirst | src/snapshot.ts:110-118 | the first oracle call gets `received` and the matchers without the deferred keys, and a failing base result is returned at once |
| SnapshotProperties.ObjectFailFast | src/snapshot.ts:120-131 | the first failing deferred key's result is returned, with no calls for later keys |
| SnapshotProperties.ObjectAllPass | src/snapshot.ts:120-134 | when every deferred key passes, the base result is returned after all their calls |
| SnapshotProperties.SpliceUnchanged | src/snapshot.ts:120-132 | putting back the deferred values unchanged leaves the object as it was |
| SnapshotProperties.ArrayAfterAllKept | src/snapshot.ts:70-85 | when no element changes, the array is left in traversal order |
| SnapshotProperties.SpliceAllKept | src/snapshot.ts:120-132 | when no deferred value changes, putting them back leaves the entries as they were |
| Snapshot.SpliceSpec | src/snapshot.ts:120-132 | the recursed values go back in place: every key keeps its position, entries that are not deferred are unchanged, and the j-th deferred entry takes the j-th recursed value |
| SnapshotProperties.ObjectAfterAllKept | src/snapshot.ts:120-134 | when no deferred value changes, the object is left as it was |
| SnapshotProperties.UnchangedWithoutIgnore | src/snapshot.ts:70 | without `ignoreArrayOrder` nothing is reordered, at any depth |
| SnapshotProperties.FlatUnchanged | src/snapshot.ts:57-61 | a value that is neither array nor object is never changed |
| SnapshotProperties.SortedInPlace | src/snapshot.ts:70 | with `ignoreArrayOrder` a flat array is left sorted in place |
| SnapshotProperties.DeferredSortedInPlace | src/snapshot.ts:120-132 | with `ignoreArrayOrder`, when the object passes, each deferred array of flat elements is left sorted in place in the caller's object, and every other entry is left as it was |
| SnapshotProperties.ArrayRunSameTraversal | src/snapshot.ts:63-90 | two arrays with the same traversal give the same calls, result and final value |
| SnapshotProperties.OrderInsensitive | src/snapshot.ts:70 | without ties, with `ignoreArrayOrder` any permutation of an array gives the same calls and result |
| Jest.HashCode | src/jest.ts:6-18 | the loop computes the hash of the code units from the last to the first; the result is below 2^32 and is 5381 for the empty string |
| Jest.HashConcat | src/jest.ts:10-12 | the hash of a concatenation folds in the tail first |
| Jest.LastUnitFirst | src/jest.ts:10-11 | the last code unit is the first one mixed into 5381 |
| Jest.OptionsOf | src/jest.ts:24-27 | the seed of `options` is `hashCode` of the full name unless the supplied options carry one |
| Jest.OptionsMember | src/jest.ts:24-27 | every supplied key overrides, `seed` falls back to the hash, and `seed` is the first key |
| Jest.OptionsDefault | src/jest.ts:24 | without options the result is `{seed, numRuns: 25}` |
| Jest.Reorder | src/jest.ts:160-172 | a split succeeds exactly when the last or second-to-last argument is a function; then the callback is a function, the options are `{}` or the last argument, and the arbitraries are the rest, in order |
| Jest.DerivedOptions | src/jest.ts:209-210 | `{...options(spec, {numRuns}), timeout}` is seed, numRuns and timeout, in that order |
| Jest.ResolvedShape | src/jest.ts:181-212 | the assertion options are the derived entries with the caller's other options spread over them, and the test gets the resolved timeout |
| Jest.ResolvedMember | src/jest.ts:181-212 | caller options other than `integration`, `isolate` and `timeout` override the derived seed and numRuns; the assertion's timeout is the test's; seed, numRuns and timeout lead the keys |
| Jest.ResolvePropOf | src/jest.ts:181-212 | options of null fail to destructure; otherwise the assertion's seed is the hash of the full name unless the caller supplies one |
| Jest.LastLookupKey | src/jest.ts:185 | a key that no entry has has no last value |
| Jest.ResolveDefaults | src/jest.ts:181-193 | without options outside an integration module, numRuns and timeout are undefined and `isolate` is true; null options throw |
| Jest.IntegrationDefaults | src/jest.ts:188-193 | an integration test with no other options, flagged by its module (options undefined) or by exactly `{integration: true}`, runs 5 times with a 50000 ms timeout for the test and the assertion |
| Mock.Wrap | src/mock.ts:37-40 | an own value is wrapped exactly when it is a non-null object, and is returned as is otherwise |
| Mock.Get | src/mock.ts:12-41 | the trap never hands out an unwrapped object, only wraps objects, and throws only for the key read |
| Mock.MockObject | src/mock.ts:44-45 | an own unreserved key of `o` reads as its value, wrapped when it is an object, and any other unreserved key throws |
| Mock.MockFrom | src/mock.ts:47-48 | `mockFrom(_, o)` is `mockObject(o)`; its first argument is ignored |
| Mock.ReadPath | src/mock.ts:37-39 | nested reads never hand out an unwrapped object, and an error names a key on the path |
| Mock.ReservedUndefined | src/mock.ts:13-27 | a reserved key reads as undefined even when the target owns it |
| Mock.ReservedKeys | src/mock.ts:13-24 | the reserved keys are the six names, every `@@__IMMUTABLE_` key and the four symbols, and no other symbol |
| Mock.DeepRead | src/mock.ts:29-40 | reading a path of own unreserved keys through nested proxies gives the value of the plain nested lookup, wrapped when it is an object |
| Mock.DeepMissing | src/mock.ts:29-35 | a path read throws for the first key the object reached does not own, and reads no later key |
| Arbitraries.RunMembers | src/arbitraries.ts:7-15 | a character is in a run exactly when its code is in the run's range |
| Arbitraries.IntendedAcceptsListing | src/arbitraries.ts:4-18 | the corrected filter accepts exactly the ten digits and the 52 Latin letters |
| Arbitraries.AsWrittenAccepts | src/arbitraries.ts:4-18 | the filter as written accepts `'0'` and the letters, and rejects every other character, including the digits `'1'` to `'9'` |
| Arbitraries.DigitOneRejected | src/arbitraries.ts:7 | `'1'` is rejected as written but accepted as intended, and below `'1'` the two filters agree |
| Arbitraries.PhoneNumber | src/arbitraries.ts:33-36 | the joined string is at least as long as the number of integers |
| Arbitraries.PhoneNumberDigits | src/arbitraries.ts:33-36 | for integers 0..9 the string has one character per integer, the i-th being the digit of the i-th integer |
| Arbitraries.PhoneNumberReadBack | src/arbitraries.ts:33-36 | the digits read back from the phone number are the integers drawn |

## Left out

- Jest's `toMatchSnapshot` is an oracle. Snapshot persistence, diffing and message text are not modelled, and neither is the `message` closure of the passing result. The oracle and the ToString form that the default sort compares are fields of `Snapshot.Host`.
- Registering the matcher with `expect.extend` is not modelled. `Snapshot.ToMatchDeepSnapshot` models only the call it forwards.
- Own properties only: the prototype chain, getters, non-enumerable properties other than array and string `length`, and symbol-keyed properties are not modelled. Integer-like keys, which JavaScript enumerates first, are listed in insertion order.
- Snapshot.Match: the in-place `received.sort()` is modelled on values. The returned `after` is the value after the sorts, so aliasing between references to the same array is not captured.
- Snapshot.Match: the recursion into a deferred key uses the value of that entry. This equals `received[key]` because object keys are distinct.
- SnapshotProperties.OrderInsensitive: proved only when no two different elements tie under the default sort order. With ties, the stable sort keeps the input order, and the property does not hold in general.
- SnapshotProperties.DeferredSortedInPlace: stated when every deferred key passes and every deferred array holds no array or object. Nested arrays are sorted again by the recursion, which this lemma does not describe.
- DefaultSort.SortDefault: the ToString form supplied by the host is total. The default comparator of `sort()` converts both elements with ToString, which throws a TypeError for a symbol. So `received.sort()` throws as soon as it compares a symbol with another element that is not undefined, and no element of that array is snapshotted; snapshots taken earlier (a parent's base snapshot, earlier siblings) stay taken. The model sorts such an array and goes on to the oracle calls.
- Snapshot.Traversal: strings are compared by Dafny characters, which are Unicode code points. JavaScript compares UTF-16 code units, and the two orders differ for characters above U+FFFF.
- Numbers are integers. Floating point, NaN and `-0` are not modelled. Strings are Dafny `char` sequences, except that `hashCode` works on UTF-16 code units (`seq<bv16>`).
- The seed is a parameter of `Jest.Options` and `Jest.ResolveProp`. Its link to `hashCode` is made by the methods `Jest.OptionsOf` and `Jest.ResolvePropOf`.
- `isIntegrationTestModule` walks Node's module chain, so its answer is a boolean input.
- `jest.resetModules` is not called. `isolate` is modelled only as the resolved flag.
- Not modelled: running `fc.assert`/`fc.asyncProperty`, the async test callbacks, the `patchIt`/`patchDescribe` wrappers and the exported globals.
- Not modelled: the fast-check generators (`fc.char`, `fc.stringOf`, `fc.date`, `fc.array`) and the date defaults. Only the `alphanumeric` filter and the `phoneNumber` map are modelled.
- The `Proxy` mechanics are not modelled. A proxy is represented by the object it wraps, and only the `get` decision is modelled. `inspect` formatting of the error message is not modelled.
- Mock.ReadPath: a read that goes on past a plain value leaves the mock, and gives `None`.
- Mock.MockObject: targets are non-function objects. `new Proxy` also accepts a function target, and throws a TypeError for a primitive or null target; neither is modelled, and `Mock.MockFrom` inherits the same requirement.
- Not modelled: `makeModuleMocker` (it needs `require.resolve` and `jest.doMock`), `mockDate` (it swaps the global `Date.now`) and all of `src/postinstall.ts` (file I/O and regex rewriting).

## Findings

| source | as written | input that shows it | evidently intended | confidence | as-written member | corrected member |
|---|---|---|---|---|---|---|
| src/arbitraries.ts:7 | the digit branch tests `c >= 0x30 && c <= 0x30`, so only `'0'` passes | `"1"` (code 0x31) is rejected | `c <= 0x39`, as the comment `/* 9 */` says, so that all ten digits pass | high; not executed | Arbitraries.DigitOneRejected | Arbitraries.IntendedAcceptsListing |
