# proficient: data structures and retry helper, modelled in Dafny

This project models the core of the `proficient` TypeScript libraries:

- the `ds` package's `StringBuilder`, with `stringify` over the `CharSequenceLike` union;
- both copies of the singly-linked `SLLQueue`;
- `FrequencyTable`;
- the shared `AbstractCollection` behaviour;
- the trial loop of the `util` package's `makeRetriable`.

Each of the library's containers is a Dafny `class` whose methods update its fields (`modifies`). The abstract base class `AbstractCollection` becomes a module of the shared functions and methods, which each container calls with its own `count` and iteration.

The model keeps the source's internal representations:

- The builder keeps its characters, as the source's `string[]` does, as a sequence of one-character strings (`seq<string>`), which its methods reassign.
- The queue keeps its chain of `SLLNode`s linked by `next`. Ghost `Contents`/`Nodes` give its public view.
- The frequency table keeps a JavaScript `Map` as an insertion-ordered key sequence plus a `map`, and a running total.

Errors the library throws are returned as values:

- `Errors.Result` (`Success(value)` / `Failure(error)`) for operations that produce a value;
- `Errors.Outcome` (`Pass` / `Fail(error)`) for the others.

An error is a tag: `EmptyCollection`, `NoSuchElement`, `IndexOutOfBounds(index, bound)`, `IllegalArgument` or `Implementation`.

The two queue copies differ only in the error an empty queue raises. `Queues.QueueVariant` selects which.

`makeRetriable` is modelled as `Retriable.Run`:

- The original function's calls are given as a sequence of outcomes (`Returned(value)` / `Threw(error)`).
- The sleeps between trials are returned as a log of sleep requests.

Module `Decimal` supplies the decimal text `toString()` gives a safe integer, which `stringify` uses for numbers. It also has a parser that reads the text back, and a proof that this canonical text is the only one for its value.

Module `Scenarios` replays the library's test cases as client code proved against the contracts.

## Model

| member | source | states |
|---|---|---|
| AbstractCollection.IsEmpty | packages/ds/src/internal/AbstractCollection.ts:6-8 | a collection is empty exactly when its count is 0 |
| AbstractCollection.ToArray | packages/ds/src/internal/AbstractCollection.ts:22-29 | a new array of length `count` whose i-th element is the i-th element of iteration |
| AbstractCollection.ThrowEmptyCollectionError | packages/ds/src/internal/AbstractCollection.ts:31-33 | always fails, with the EmptyCollection kind |
| AbstractCollection.ThrowImplementationError | packages/ds/src/internal/AbstractCollection.ts:35-37 | always fails, with the Implementation kind |
| Decimal.NaturalToDecimal | packages/ds/src/internal/util/stringify.ts:7-8 | the text of a natural is non-empty, all digits, and has no leading zero except for 0 itself |
| Decimal.NaturalRoundTrip | packages/ds/src/internal/util/stringify.ts:7-8 | reading the digits of a natural's text back gives the natural |
| Decimal.IntegerToString | packages/ds/src/internal/util/stringify.ts:7-8 | `seq.toString()` of an integer is canonical (digits, a `-` exactly for negatives, no leading zero, no `-0`) and parses back to the integer |
| Decimal.CanonicalUnique | packages/ds/src/internal/util/stringify.ts:7-8 | canonical text is the text of the integer it parses to, so each integer has exactly one canonical text |
| StringBuilders.Stringify | packages/ds/src/internal/util/stringify.ts:3-15 | strings unchanged; safe integers as their canonical numeral, which parses back to them; `undefined`, `true`/`false` and `null` by name; a builder as its `toString()` |
| StringBuilders.Join | packages/ds/src/classes/StringBuilder.ts:211-213 | `join('')` of single characters has one character per element, the i-th being the i-th element's |
| StringBuilders.Split | packages/ds/src/classes/StringBuilder.ts:22-24 | `split('')` gives one one-character string per character, in order |
| StringBuilders.JoinSplit | packages/ds/src/classes/StringBuilder.ts:22-24 | joining the split of a string gives the string back |
| StringBuilders.SplitJoin | packages/ds/src/classes/StringBuilder.ts:211-213 | an array of single characters is the split of its join (the other half of the round trip) |
| StringBuilders.JoinSplice | packages/ds/src/classes/StringBuilder.ts:157-173 | splicing arrays of single characters at i splices their texts at i: `S[0:i] + X + S[i:]` |
| StringBuilders.Splice | packages/ds/src/classes/StringBuilder.ts:161-171 | the three-way index loop fills the new array with `s[..index] + x + s[index..]` |
| StringBuilders.StringBuilder.constructor | packages/ds/src/classes/StringBuilder.ts:22-24 | the empty builder has text "" and count 0 |
| StringBuilders.StringBuilder.FromString | packages/ds/src/classes/StringBuilder.ts:22-24 | a seeded builder's text is the seed and its count the seed's length |
| StringBuilders.StringBuilder.Count | packages/ds/src/classes/StringBuilder.ts:14-16 | `count` is the length of the text |
| StringBuilders.StringBuilder.ToString | packages/ds/src/classes/StringBuilder.ts:211-213 | the text has one character per stored element, the i-th being the i-th element's |
| StringBuilders.StringBuilder.Clear | packages/ds/src/classes/StringBuilder.ts:34-36 | afterwards the text is "" and count 0 |
| StringBuilders.StringBuilder.ValidateIndex | packages/ds/src/classes/StringBuilder.ts:175-179 | passes exactly when `0 <= index < count`, else out of bounds with bound `count` |
| StringBuilders.StringBuilder.ValidateIndexEndIncluded | packages/ds/src/classes/StringBuilder.ts:181-185 | passes exactly when `0 <= index <= count`, else out of bounds with bound `count + 1` |
| StringBuilders.StringBuilder.ValidateChar | packages/ds/src/classes/StringBuilder.ts:187-191 | passes exactly for a one-character string, else illegal argument |
| StringBuilders.StringBuilder.CharAt | packages/ds/src/classes/StringBuilder.ts:46-49 | succeeds exactly when `0 <= index < count`, with the character at index; otherwise out of bounds with bound `count`; reads only |
| StringBuilders.StringBuilder.SetCharAt | packages/ds/src/classes/StringBuilder.ts:59-64 | index checked first, then the one-character argument; on success only position index changes, to c; on failure nothing changes |
| StringBuilders.StringBuilder.Delete | packages/ds/src/classes/StringBuilder.ts:98-108 | the text becomes `S[0:s] + S[min(e,count):]`; fails out of bounds unless `0 <= s < count`, with illegal argument if `s > min(e,count)`, and then nothing changes |
| StringBuilders.StringBuilder.DeleteCharAt | packages/ds/src/classes/StringBuilder.ts:78-81 | removes exactly the character at index when `0 <= index < count`; otherwise out of bounds (always on an empty builder) and nothing changes |
| StringBuilders.StringBuilder.GetCharsOf | packages/ds/src/classes/StringBuilder.ts:193-195 | gives an array of single characters whose join is the value's text |
| StringBuilders.StringBuilder.PushAll | packages/ds/src/classes/StringBuilder.ts:134-137 | the push loop appends every piece to `#chars`, in order |
| StringBuilders.StringBuilder.Append | packages/ds/src/classes/StringBuilder.ts:124-140 | the text becomes old text + the value's text and count rises by that text's length ('' is a no-op) |
| StringBuilders.StringBuilder.Insert | packages/ds/src/classes/StringBuilder.ts:157-173 | for `0 <= i <= count` the text becomes `S[0:i] + X + S[i:]`; any other i fails with bound `count + 1` and no change, even when X is '' |
| Queues.EmptyAccessError | packages/ds/src/classes/SLLQueue.ts:128-132 | an empty queue raises one of the two collection-level kinds, NoSuchElement exactly in the copy under `classes/` (EmptyCollection in `packages/ds/src/SLLQueue.ts:114-118`) |
| Queues.SLLNode.constructor | packages/ds/src/classes/SLLQueue.ts:4-10 | a new node holds its element and links to nothing |
| Queues.SLLQueue.BottomReachesTop | packages/ds/src/classes/SLLQueue.ts:67-73 | in a non-empty queue `#bottom` reaches `#top` in `count - 1` links and null in `count` |
| Queues.SLLQueue.constructor | packages/ds/src/classes/SLLQueue.ts:24-29 | a new queue is empty and raises the chosen variant's error |
| Queues.SLLQueue.Count | packages/ds/src/classes/SLLQueue.ts:20-22 | `count` is the number of elements |
| Queues.SLLQueue.IsEmpty | packages/ds/src/internal/AbstractCollection.ts:6-8 | `isEmpty` (`count === 0`) holds exactly when the queue holds no element |
| Queues.SLLQueue.Iterate | packages/ds/src/classes/SLLQueue.ts:31-39 | walking from `#bottom` along `next` yields the elements oldest to newest |
| Queues.SLLQueue.ToArray | packages/ds/src/internal/AbstractCollection.ts:22-29 | a new array holding the elements in FIFO order |
| Queues.SLLQueue.Clear | packages/ds/src/classes/SLLQueue.ts:49-53 | the queue becomes empty and stays valid |
| Queues.SLLQueue.Enqueue | packages/ds/src/classes/SLLQueue.ts:65-76 | always succeeds (the `#assertNode` failure is unreachable) and appends the element at the newest end |
| Queues.SLLQueue.ValidateQueueIsNotEmpty | packages/ds/src/classes/SLLQueue.ts:128-132 | fails exactly on an empty queue, with the variant's error; the EmptyCollection copy raises it through `throwEmptyCollectionError` |
| Queues.SLLQueue.Dequeue | packages/ds/src/classes/SLLQueue.ts:92-105 | empty: fails with the variant's error, no change; otherwise returns the oldest element and removes it; `#assertNode` never fails |
| Queues.SLLQueue.Peek | packages/ds/src/classes/SLLQueue.ts:122-126 | empty: fails with the variant's error; otherwise the oldest element; nothing changes |
| FrequencyTables.FrequencyInPositive | packages/ds/src/classes/FrequencyTable.ts:105-107 | `get(key) ?? 0` over positive frequencies is never negative, is positive exactly for stored keys, and is 0 for absent ones |
| FrequencyTables.Without | packages/ds/src/classes/FrequencyTable.ts:83-85 | `Map.delete` on the insertion order drops exactly the key (every occurrence), keeps the others distinct, and shortens a list of distinct keys by one |
| FrequencyTables.WithoutKeepsOrder | packages/ds/src/classes/FrequencyTable.ts:83-85 | deleting a key that occurs only at position p cuts it out there, so the remaining keys keep their insertion order |
| FrequencyTables.SumUpdate | packages/ds/src/classes/FrequencyTable.ts:62-66 | changing one stored frequency changes the sum of all by the difference |
| FrequencyTables.SumWithout | packages/ds/src/classes/FrequencyTable.ts:83-85 | deleting a key lowers the sum of all frequencies by its frequency |
| FrequencyTables.FrequencyTable.constructor | packages/ds/src/classes/FrequencyTable.ts:25-29 | a new table is empty with total 0 |
| FrequencyTables.FrequencyTable.Count | packages/ds/src/classes/FrequencyTable.ts:21-23 | `count` is the number of stored keys |
| FrequencyTables.FrequencyTable.CountIsPositiveKeys | packages/ds/src/classes/FrequencyTable.ts:18-23 | the stored keys are exactly those with a positive frequency, so `count` counts them |
| FrequencyTables.FrequencyTable.IsEmpty | packages/ds/src/internal/AbstractCollection.ts:6-8 | `isEmpty` holds exactly when no key is stored |
| FrequencyTables.FrequencyTable.Total | packages/ds/src/classes/FrequencyTable.ts:11-16 | `total` is the sum of the stored frequencies |
| FrequencyTables.FrequencyTable.TotalAtLeastCount | packages/ds/src/classes/FrequencyTable.ts:11-23 | the total is at least the count, and zero exactly when the table is empty |
| FrequencyTables.FrequencyTable.FrequencyOf | packages/ds/src/classes/FrequencyTable.ts:105-107 | the stored frequency, 0 for an absent key, never negative, positive exactly for stored keys |
| FrequencyTables.FrequencyTable.Entries | packages/ds/src/classes/FrequencyTable.ts:31-33 | iteration yields each stored (key, frequency) pair exactly once, in insertion order |
| FrequencyTables.FrequencyTable.ToArray | packages/ds/src/internal/AbstractCollection.ts:22-29 | a new array of the pairs in iteration order |
| FrequencyTables.FrequencyTable.Clear | packages/ds/src/classes/FrequencyTable.ts:45-48 | afterwards count and total are 0 |
| FrequencyTables.FrequencyTable.Increment | packages/ds/src/classes/FrequencyTable.ts:62-66 | the key's frequency rises by 1 (a new key enters at 1, last in order), no other key changes, total rises by 1; the invariants are kept |
| FrequencyTables.FrequencyTable.Decrement | packages/ds/src/classes/FrequencyTable.ts:81-90 | frequency 1 removes the key (count and total drop by 1); above 1 it drops by 1 (total drops by 1); an absent key changes nothing; the invariants are kept |
| Retriable.SleepTimeAfter | packages/util/src/api/makeRetriable.ts:84-87 | the sleep time is the fixed number, or the callback applied to the 0-based index of the failed trial |
| Retriable.TrialLimit | packages/util/src/api/makeRetriable.ts:68-83 | the first call always happens and the loop stops at `maxTrialCount`, so at least one trial and exactly `maxTrialCount` when that is positive |
| Retriable.FirstSuccess | packages/util/src/api/makeRetriable.ts:71-75 | the index of the first trial that returns: all before it threw |
| Retriable.ErrorsOfThrown | packages/util/src/api/makeRetriable.ts:76-80 | failed trials contribute one error each, in trial order |
| Retriable.PrefixFirstSuccess | packages/util/src/api/makeRetriable.ts:71-83 | the first success is the index before which all threw and at which one returned |
| Retriable.Run | packages/util/src/api/makeRetriable.ts:65-91 | success at the first returning trial k within the limit with `trialCount == k + 1` and its value, else failure with `trialCount == maxTrialCount`; errors in order (`trialCount - 1` or `trialCount` of them) iff `returnErrors`; one sleep per failed non-final trial with index and time; never throws |
| Scenarios.QueueFifoOrder | packages/ds/test/SLLQueue.test.ts:109-128 | enqueue 1,2,3, dequeue twice, enqueue 4,5, dequeue three times gives 1..5, in both variants |
| Scenarios.QueueEmptyAccess | packages/ds/test/SLLQueue.test.ts:17-25 | dequeue on a fresh queue and peek on a drained one fail with the variant's error; after enqueuing 1,2 peek gives 1 and count stays 2 |
| Scenarios.FrequencyCounts | packages/ds/test/FrequencyTable.test.ts:51-73 | incrementing a, a, b gives total 3, count 2, frequency of a 2 |
| Scenarios.FrequencyAllDecremented | packages/ds/test/FrequencyTable.test.ts:101-111 | a table {a:1, b:2} decremented at a, b, b is empty |
| Scenarios.FrequencyDecrements | packages/ds/test/FrequencyTable.test.ts:113-123 | a table {a:4, b:6} decremented at a, a, b has total 7 |
| Scenarios.TextOfTwelve | packages/ds/test/StringBuilder.test.ts:54 | `stringify(12)` is "12", from the Stringify contract and the uniqueness of canonical text |
| Scenarios.BuilderAppendCounts | packages/ds/test/StringBuilder.test.ts:50-56 | appending undefined, '', 'a' counts 10; '', 'ab', 12, an empty builder, 'c' counts 5 |
| Scenarios.BuilderInserts | packages/ds/test/StringBuilder.test.ts:93-100 | inserting 'b' then 'cd' at 1 into "apple" gives "acdbpple"; inserting '' at 10 into that 8-character text still fails, with bound 9 |
| Scenarios.BuilderEdits | packages/ds/test/StringBuilder.test.ts:116-138 | inserting past the end of "" fails, deleting from an empty builder fails, and "abcde" deleted from 2 to 10 gives "ab" |
| Scenarios.RetryAlwaysFailing | packages/util/test/makeRetriable.test.ts:11-28 | a function that always throws never succeeds, and uses all `maxTrialCount` trials |
| Scenarios.RetrySucceedsOnNthTrial | packages/util/test/makeRetriable.test.ts:97-216 | succeeding on the n-th call: with `maxTrialCount >= n` success after n trials with its value and n - 1 errors; otherwise failure after `maxTrialCount` trials with one error each |

## Left out

- Non-integer numbers: `stringify` of a fractional or special JavaScript number (`3.4`, `NaN`) depends on floating-point formatting; `CharSequenceLike.Num` holds safe integers only.
- StringBuilders.Stringify: numbers are limited to the safe integers (magnitude at most 2^53 - 1). Larger JavaScript numbers are not exact integers: `String(2**60)` is "1152921504606847000". From 10^21 up, `toString()` writes exponent notation ("1e+21"). Neither is modelled.
- Strings are sequences of characters; JavaScript's UTF-16 code units (where one character may take two) are not modelled.
- Error messages and the error class hierarchy: errors are tags; `isEmptyCollectionError` and `isImplementationError` are `instanceof` checks and are not modelled.
- Iterators: `[Symbol.iterator]` is modelled as the sequence it yields (`Iterate`, `Entries`); laziness and restarting are not captured.
- StringBuilders.StringBuilder.Append: appending a non-empty builder to itself is excluded by a precondition; there the source's push loop reads the array it is growing and never terminates. Appending an empty builder to itself is allowed and does nothing, as in the source.
- Non-integer indices: indices are integers (`int`); JavaScript would accept fractional ones.
- `registerInterval`, `sleep` and the docs-index script: timers, concurrency and the filesystem. `await` is dropped; the sleep calls inside `makeRetriable` become a log of requests.
- Retriable.Run: requires the outcome sequence to cover every trial the limit allows; arguments to the original function are not modelled, since only the outcomes matter.
- Retriable.Run: "never throws" is captured by `Run` always returning a result; an exception thrown by a `sleepTimeBetweenTrials` callback is not modelled (the callback is a total function).
- The interface-only files (`interfaces/Queue.ts`, `api/Queue.ts`, `api/Collection.ts`, `types/Collection.ts`) only carry doc comments; the model uses `count`.
- `packages/ds/src/classes/SLLQueue.ts` calls `throwNoSuchElementError`, which `AbstractCollection` does not define; the model raises NoSuchElement there, as the test at `packages/ds/test/SLLQueue.test.ts:17-25` expects.
- The push loop of `append` and the array loop of `insert` are separate methods (`PushAll`, `Splice`) called from `Append` and `Insert`; the `insert` array is local to `Splice`, so its reassignment of `#chars` is a sequence assignment.
- StringBuilders.StringBuilder.Delete: `splice` is modelled by its effect on `#chars`, not by the element moves inside it.
