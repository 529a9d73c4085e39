# rediscpp reply layer in Dafny

This project models the reply-decoding and reply-iteration layer of
rediscpp, a C++ client over hiredis. hiredis hands the layer a decoded
reply record whose `type` tag is one of integer, string, array, status,
error or nil. The layer then does four things:

- **Tagged reply value** (`RedisReply`). The record is `Raw`: one
  constructor per hiredis tag, plus `OtherReply` for any other tag. A null
  pointer is `Option.None`. The six typed views (`integer`, `null`,
  `string`, `array`, `status`, `error`) are subset types of `Raw`, so a
  view's tag is always its own. This is the assertion in the views'
  constructor. `any` is the datatype `Any`, with `Empty` for the
  monostate. `any::from` is `From`. The `is_*` tests are `Any.Is(k)`, and
  the `as_*`/`cast`/`try_into<T>` family is `Any.As(k)`, where `k` is a
  `ResultType`, the source's `result_type` enum. `to_string(any)` is
  `ToString`. The view accessors and `release_reply`'s test are plain
  functions.
- **Flat iterator** (`ReplyIterators`). `reply_iterator` is the class
  `ReplyIterator`, with a `const current` (an optional array view) and a
  mutable `index`; `-1` is the end marker. Each transition is a function
  on the iterator's value `IterState`: `Incremented`, `Decremented`,
  `Advanced`, `IterEqual` and `Deref`. The methods `Increment`,
  `Decrement` and `Advance` are proved to perform exactly those
  transitions. The properties are lemmas about the functions.
- **Paired and keys-only iterators** (`Multimap`). `multimap_iterator`
  and `multimap_key_iterator` are classes that own a `ReplyIterator` and
  step it twice, or once, per step. Their `Advance` methods keep the
  source's loop. A loop invariant ties each `Advance` to `PairAdvanced`
  or `KeyAdvanced`, which is that many repeated steps. `dereference` is
  `PairDeref` or `KeyDeref`. The source's scratch copy `tmp` is the value
  `Incremented(s)`.
- **Reply-to-result translation** (`Commands`). These are `run_op`,
  `process<R>::run`, `process<void>::run` and `process_validate::run`. The
  endpoint's connection state and the raw reply that `redisCommand` would
  return are inputs. A thrown `connection_error` is the `ConnectionError`
  case of `Validated`.

In these places the code behaves differently from what an iterator
interface suggests; the model follows the code:

- A backward `advance` that would go below 0 is not clamped. The code's
  guard sends it into the forward branch, which moves the index to the
  negative value (`ReplyIterators.AdvanceBackward`).
- The array constructor leaves `index` uninitialised, and the model starts
  it at 0. Over an empty array `begin` therefore does not equal `end`
  (`ReplyIterators.EmptyArrayBegin`).
- A nil record decodes to the `null` view, not to the empty value.
- The paired `advance(n)` is `n` paired steps. Within range it agrees with
  a flat `advance(2n)`. Past the end it exhausts the iterator, where the
  flat advance would not move (`Multimap.PairAdvanceInRange`,
  `Multimap.PairAdvancePastEnd`).

## Model

| member | source | states |
|---|---|---|
| `RedisReply.ReleaseFrees` | rediscpp/redis_reply.cpp:14-22 | the deleter frees a record exactly when the pointer is non-null and the record is not the all-zero one |
| `RedisReply.DecodedRecordsAreFreed` | rediscpp/redis_reply.cpp:14-34 | a record that decodes to a view gets `release_reply` as its deleter and passes its test; a record that decodes to the empty value gets no deleter; the records the deleter's test would free but that are never freed are exactly the non-zero ones with an unknown tag |
| `RedisReply.HasDeleter` | rediscpp/redis_reply.cpp:93-115 | `any::from` installs a deleter exactly when it builds a view, so never for a null pointer or an unknown tag |
| `RedisReply.Released` | rediscpp/redis_reply.cpp:14-34 | a record handed to `any::from` is freed exactly when it decodes to a view |
| `RedisReply.ReleasedCorrected` | rediscpp/redis_reply.cpp:111-112 | with a deleter installed whatever the tag, every non-null, non-zero record is freed, a superset of what `Released` frees |
| `RedisReply.KindOf` | rediscpp/redis_reply.cpp:51-67 | the kind a record calls for has the tag that kind's view constructor demands; no kind means no view accepts the tag |
| `RedisReply.MakeView` | rediscpp/redis_reply.h:40-43 | a view can only be made from a non-null record whose tag is the view's tag; the view is that record |
| `RedisReply.Any.As` | rediscpp/redis_reply.h:156-178 | `as_X` succeeds exactly when `is_X` holds, gives the held record, which has kind X, and otherwise fails with "using access to the wrong type from actual type " followed by `to_string` of the value |
| `RedisReply.TryIntoDecoded` | rediscpp/redis_reply.h:255-283 | `try_into<k>(any::from(r))` succeeds iff r's tag is k's tag, gives r itself back (so message, size and integer reproduce r's fields), and otherwise names r's kind |
| `RedisReply.From` | rediscpp/redis_reply.cpp:93-115 | null gives the empty value; a known tag gives the variant of that tag holding the record; an unknown tag gives the empty value |
| `RedisReply.FromInjective` | rediscpp/redis_reply.cpp:98-114 | two records that decode to the same non-empty value are equal: decoding never conflates records |
| `RedisReply.DefaultHoldsNoKind` | rediscpp/redis_reply.h:128 | the default `any` satisfies none of the six `is_*` tests, and its text is "error" |
| `RedisReply.Any.Is` | rediscpp/redis_reply.h:132-154 | an `is_X` that holds means the value is not empty and its record has kind X |
| `RedisReply.ExactlyOneKind` | rediscpp/redis_reply.h:132-154 | at most one `is_*` holds, one holds iff the value is not empty, and the held record has that kind's tag |
| `RedisReply.ToString` | rediscpp/redis_reply.cpp:117-143 | the empty value reads "error", and every kind reads its fixed text ("array type", "error message", "integer type", "null type", "status type", "string type") |
| `RedisReply.ToStringClassifies` | rediscpp/redis_reply.cpp:117-143 | the text is "error" iff the value is empty, and equal texts mean equal kinds |
| `RedisReply.ToStringAsWrittenNeverReturns` | rediscpp/redis_reply.cpp:120 | with the `as_array()` test the source writes, `to_string` of any non-array value never returns |
| `RedisReply.ToStringAsWritten` | rediscpp/redis_reply.cpp:117-143 | the written `to_string`, which opens with `as_array()`: whenever it returns within the fuel, it returns the corrected text |
| `RedisReply.AsAsWritten` | rediscpp/redis_reply.h:227-233 | `cast` with the written `to_string`: whenever it returns within the fuel, it agrees with `Any.As` |
| `RedisReply.FailedNarrowingNeverReturns` | rediscpp/redis_reply.h:227-233 | with the written `to_string`, a failed `as_*`/`try_into` of a value that is not an array never returns |
| `RedisReply.FailedNarrowingOfArrayReturns` | rediscpp/redis_reply.h:227-233 | with the written `to_string`, a failed narrowing of an array still returns, and agrees with `Any.As` |
| `RedisReply.ToStringAsWrittenOnArray` | rediscpp/redis_reply.cpp:120-122 | with the written test, an array still returns at once, with the corrected text |
| `RedisReply.ArraySize` | rediscpp/redis_reply.cpp:38-40 | the size is the record's element count |
| `RedisReply.ArrayEmpty` | rediscpp/redis_reply.cpp:42-44 | empty holds iff the size is 0 |
| `RedisReply.ArrayAt` | rediscpp/redis_reply.cpp:46-49 | requires `at < size()`; gives the empty value iff sub-record `at` has an unknown tag, and otherwise a value holding exactly sub-record `at` |
| `RedisReply.StatusMessage` | rediscpp/redis_reply.cpp:69-71 | the message is the record's bytes, `len` of them |
| `RedisReply.ErrorMessage` | rediscpp/redis_reply.cpp:73-75 | the message is the record's bytes, `len` of them |
| `RedisReply.IntegerMessage` | rediscpp/redis_reply.cpp:77-79 | the message is the record's integer field, unchanged |
| `RedisReply.StringMessage` | rediscpp/redis_reply.cpp:81-83 | the message is the record's bytes, `len` of them |
| `RedisReply.StringEmpty` | rediscpp/redis_reply.cpp:85-87 | empty holds iff `len == 0` |
| `RedisReply.StringSize` | rediscpp/redis_reply.cpp:89-91 | the size is `len` |
| `RedisReply.StringText` | rediscpp/redis_reply.h:100-102 | `to_string(string)` is exactly the view's message bytes |
| `RedisReply.ErrorReplyScenario` | rediscpp/redis_reply.cpp:101-102 | an error reply "ERR bad command" narrows to error with that message, and narrowing it to integer fails naming "error message" |
| `ReplyIterators.Begin` | rediscpp/redis_reply_iterator.cpp:13-14 | the array constructor holds the array, and the model starts at index 0, an element when the array is not empty |
| `ReplyIterators.End` | rediscpp/redis_reply_iterator.cpp:16-18 | the default constructor has no array and the end marker |
| `ReplyIterators.Incremented` | rediscpp/redis_reply_iterator.cpp:20-31 | increment keeps the array, keeps the iterator invariant, and from an element reaches an element or the end |
| `ReplyIterators.Decremented` | rediscpp/redis_reply_iterator.cpp:33-38 | decrement keeps the array and the invariant, and from an element stays on an element |
| `ReplyIterators.Advanced` | rediscpp/redis_reply_iterator.cpp:40-51 | advance keeps the array and the invariant |
| `ReplyIterators.IterEqual` | rediscpp/redis_reply_iterator.cpp:53-57 | two exhausted iterators are equal, and an exhausted iterator never equals one that is not |
| `ReplyIterators.ValidDereferenceable` | rediscpp/redis_reply_iterator.cpp:20-67 | a valid iterator over a non-empty array, with index not below -1, is the end or at an element, so it may be dereferenced |
| `ReplyIterators.Deref` | rediscpp/redis_reply_iterator.cpp:59-67 | at the end marker dereference gives the empty value; it requires the end marker or an element |
| `ReplyIterators.ReplyIterator.FromArray` | rediscpp/redis_reply_iterator.cpp:13-14 | the new iterator's state is `Begin(a)` |
| `ReplyIterators.ReplyIterator.constructor` | rediscpp/redis_reply_iterator.cpp:16-18 | the new iterator's state is `End()` |
| `ReplyIterators.ReplyIterator.Increment` | rediscpp/redis_reply_iterator.cpp:20-31 | the new state is `Incremented` of the old |
| `ReplyIterators.ReplyIterator.Decrement` | rediscpp/redis_reply_iterator.cpp:33-38 | the new state is `Decremented` of the old |
| `ReplyIterators.ReplyIterator.Advance` | rediscpp/redis_reply_iterator.cpp:40-51 | the new state is `Advanced` of the old by n |
| `ReplyIterators.ReplyIterator.Equal` | rediscpp/redis_reply_iterator.cpp:53-57 | the object's `equal` is `IterEqual` of the two states |
| `ReplyIterators.ReplyIterator.Dereference` | rediscpp/redis_reply_iterator.cpp:59-67 | the object's `dereference` is `Deref` of its state |
| `ReplyIterators.DefaultIsEnd` | rediscpp/redis_reply_iterator.cpp:59-67 | the default iterator has no array and index -1, and dereferences to the empty value |
| `ReplyIterators.IncrementTransitions` | rediscpp/redis_reply_iterator.cpp:20-31 | from element i increment moves to i+1 if that is below the size, and from the last element to -1; with no array or at -1 it changes nothing |
| `ReplyIterators.DecrementTransitions` | rediscpp/redis_reply_iterator.cpp:33-38 | decrement moves i >= 1 to i-1 and leaves 0 and -1 unchanged |
| `ReplyIterators.ExhaustedIsAbsorbing` | rediscpp/redis_reply_iterator.cpp:20-38 | any number of increments or decrements leave an exhausted iterator unchanged |
| `ReplyIterators.AdvanceForward` | rediscpp/redis_reply_iterator.cpp:45-49 | a forward advance from an element moves by n iff index+n is below the size, and otherwise changes nothing |
| `ReplyIterators.AdvanceBackward` | rediscpp/redis_reply_iterator.cpp:43-48 | a backward advance from an element always moves by n; reaching -1 is the end marker, and below -1 is neither an element nor the end |
| `ReplyIterators.AdvanceExhausted` | rediscpp/redis_reply_iterator.cpp:42 | advance at the end marker or without an array is a no-op |
| `ReplyIterators.AdvanceOneVersusIncrement` | rediscpp/redis_reply_iterator.cpp:20-51 | advance(1) equals increment except at the last element, where advance(1) stays and increment reaches the end |
| `ReplyIterators.EqualityIsIndexOnly` | rediscpp/redis_reply_iterator.cpp:53-57 | every exhausted iterator equals the default iterator, and iterators are equal iff their indices are, whatever their arrays |
| `ReplyIterators.EmptyArrayBegin` | rediscpp/redis_reply_iterator.cpp:13-31 | over an empty array the array iterator is not the end iterator, and one increment makes it so |
| `ReplyIterators.IncrementsVisitInOrder` | rediscpp/redis_reply_iterator.cpp:20-31 | from index 0, k < size increments reach index k, where dereference gives `array[k]` |
| `ReplyIterators.IncrementsReachEnd` | rediscpp/redis_reply_iterator.cpp:20-57 | over n >= 1 elements, n increments from 0, and any number more, give a state equal to the default iterator |
| `ReplyIterators.DerefAtElement` | rediscpp/redis_reply_iterator.cpp:61-62 | at an element, dereference gives `array[index]`, holding exactly that sub-record |
| `Multimap.PairIncremented` | rediscpp/redis_multimap.cpp:18-23 | a paired increment keeps the array and the iterator invariant |
| `Multimap.PairDecremented` | rediscpp/redis_multimap.cpp:25-30 | a paired decrement keeps the array and the iterator invariant |
| `Multimap.PairAdvanced` | rediscpp/redis_multimap.cpp:32-41 | a paired advance keeps the array and the iterator invariant, and leaves the end, or any iterator advanced by 0, unchanged |
| `Multimap.KeyAdvanced` | rediscpp/redis_multimap.cpp:91-100 | a key advance keeps the array and the iterator invariant, and leaves the end, or any iterator advanced by 0, unchanged |
| `Multimap.PairDeref` | rediscpp/redis_multimap.cpp:48-69 | at the end or at an odd raw index dereference gives the empty pair |
| `Multimap.KeyDeref` | rediscpp/redis_multimap.cpp:107-117 | at the end the key is "" |
| `Multimap.MultimapIterator.FromArray` | rediscpp/redis_multimap.cpp:10-12 | wraps a fresh flat iterator at `Begin(a)` |
| `Multimap.MultimapIterator.constructor` | rediscpp/redis_multimap.cpp:14-16 | wraps a fresh flat end iterator |
| `Multimap.MultimapIterator.Increment` | rediscpp/redis_multimap.cpp:18-23 | the wrapped state becomes `PairIncremented` of the old |
| `Multimap.MultimapIterator.Decrement` | rediscpp/redis_multimap.cpp:25-30 | the wrapped state becomes `PairDecremented` of the old |
| `Multimap.MultimapIterator.Advance` | rediscpp/redis_multimap.cpp:32-41 | the loop leaves the wrapped state at `PairAdvanced` of the old: step increments when step > 0, otherwise -step decrements |
| `Multimap.MultimapIterator.Equal` | rediscpp/redis_multimap.cpp:43-46 | equal iff the wrapped flat iterators are `IterEqual` |
| `Multimap.MultimapIterator.Dereference` | rediscpp/redis_multimap.cpp:48-69 | the object's `dereference` is `PairDeref` of the wrapped state, the empty pair at the end |
| `Multimap.MultimapKeyIterator.constructor` | rediscpp/redis_multimap.cpp:73-75 | wraps a fresh flat end iterator |
| `Multimap.MultimapKeyIterator.FromArray` | rediscpp/redis_multimap.cpp:77-79 | wraps a fresh flat iterator at `Begin(a)` |
| `Multimap.MultimapKeyIterator.Increment` | rediscpp/redis_multimap.cpp:81-84 | the wrapped state becomes `Incremented` of the old |
| `Multimap.MultimapKeyIterator.Decrement` | rediscpp/redis_multimap.cpp:86-89 | the wrapped state becomes `Decremented` of the old |
| `Multimap.MultimapKeyIterator.Advance` | rediscpp/redis_multimap.cpp:91-100 | the loop leaves the wrapped state at `KeyAdvanced` of the old: step single increments, or -step single decrements |
| `Multimap.MultimapKeyIterator.Equal` | rediscpp/redis_multimap.cpp:102-105 | equal iff the wrapped flat iterators are `IterEqual` |
| `Multimap.MultimapKeyIterator.Dereference` | rediscpp/redis_multimap.cpp:107-117 | the object's `dereference` is `KeyDeref` of the wrapped state, "" at the end |
| `Multimap.PairWalk` | rediscpp/redis_multimap.cpp:18-23 | over 2n >= 2 elements, k <= n paired increments from 0 reach raw index 2k, or the end marker at k = n |
| `Multimap.PairWalkReachesEnd` | rediscpp/redis_multimap.cpp:18-46 | over 2n >= 2 elements, n paired increments from 0 equal the end iterator |
| `Multimap.PairIncrementNearEnd` | rediscpp/redis_multimap.cpp:18-23 | from index size-1 (or size-2), one paired increment reaches the end |
| `Multimap.PairDecrementTransitions` | rediscpp/redis_multimap.cpp:25-30 | a paired decrement takes 1 and 0 to 0, i >= 2 to i-2, and leaves the end at the end |
| `Multimap.AdvanceZero` | rediscpp/redis_multimap.cpp:32-41 | advance(0) changes nothing, on either wrapper |
| `Multimap.PairAdvanceInRange` | rediscpp/redis_multimap.cpp:32-41 | while index+2·step stays below the size, the paired advance(step) equals the flat advance(2·step) |
| `Multimap.PairAdvancePastEnd` | rediscpp/redis_multimap.cpp:32-41 | a paired forward advance past the size exhausts the iterator, where the flat advance(2·step) would not move |
| `Multimap.PairEqualityIsIndexOnly` | rediscpp/redis_multimap.cpp:43-46 | two paired iterators are equal iff their wrapped indices are |
| `Multimap.PairDerefAtEven` | rediscpp/redis_multimap.cpp:53-67 | at an even element i, the pair is (bytes of i, bytes of i+1) when both are strings, and the empty pair when either is not or i is the last element |
| `Multimap.PairWalkYieldsPairs` | rediscpp/redis_multimap.cpp:18-67 | over 2n strings, the k-th pair visited from index 0 is (element 2k, element 2k+1), in array order |
| `Multimap.SetOkScenario` | rediscpp/redis_multimap.cpp:48-69 | ["SET", "OK"] dereferences to ("SET", "OK"), and one paired increment reaches the end |
| `Multimap.OddLengthScenario` | rediscpp/redis_multimap.cpp:53-68 | over three strings the second pair, at index 2, is the empty pair |
| `Multimap.EmptyPairIsAmbiguous` | rediscpp/redis_multimap.cpp:68 | a pair of two empty strings reads the same as a failed dereference |
| `Multimap.KeyAdvanceInRange` | rediscpp/redis_multimap.cpp:91-100 | within range, a forward key advance equals the flat advance |
| `Multimap.KeyAdvancePastEnd` | rediscpp/redis_multimap.cpp:91-100 | a forward key advance past the end exhausts the iterator, unlike the all-or-nothing flat advance |
| `Multimap.KeyAdvanceBackward` | rediscpp/redis_multimap.cpp:91-100 | a backward key advance stops at index 0 and stays on an element |
| `Multimap.KeyDerefAtElement` | rediscpp/redis_multimap.cpp:107-117 | at an element the key is its bytes if it is a string, and "" otherwise |
| `Commands.RunOp` | rediscpp/internal/commands.h:13-32 | a closed endpoint fails with "not connected"; a server error fails with "redis error: " and its message; any other reply, null included, is returned decoded as ok, so an ok value is never an error view |
| `Commands.Process` | rediscpp/internal/commands.h:37-46 | succeeds iff connected with a reply of the requested kind other than error, giving that reply's record; passes `run_op` failures through unchanged |
| `Commands.ProcessVoid` | rediscpp/internal/commands.h:51-58 | ok(true) iff `run_op` succeeds, otherwise `run_op`'s error text |
| `Commands.ProcessValidate` | rediscpp/internal/commands.h:66-76 | returns the unwrapped value iff `process<R>` succeeds, and otherwise throws `connection_error` with its text |
| `Commands.ProcessValidateVoid` | rediscpp/internal/commands.h:66-72 | returns iff `run_op` succeeds, and otherwise throws `connection_error` with its text |
| `Commands.NotConnectedScenario` | rediscpp/internal/commands.h:16-18 | on a closed endpoint every entry point fails or throws with "not connected", whatever the reply |
| `Commands.NullReplyScenario` | rediscpp/internal/commands.h:19-31 | a null reply is ok(empty) for `run_op`, succeeds for `process<void>`, and fails every `process<R>` naming "error" |
| `Commands.ServerErrorScenario` | rediscpp/internal/commands.h:24-30 | a server error reaches every entry point as "redis error: " plus its message |
| `Commands.UnknownTagReplyLeaks` | rediscpp/internal/commands.h:19-32 | a non-zero reply with an unknown tag is returned as ok(empty) and its record is never freed, though the corrected decoding would free it |
| `Commands.WrongKindScenario` | rediscpp/internal/commands.h:41-43 | a non-error reply of another kind fails `process<R>` with the wrong-type text naming its kind |

## Findings

| source | as written | input that shows it | evidently intended | confidence | as-written member | corrected member |
|---|---|---|---|---|---|---|
| rediscpp/redis_reply.cpp:120 | the first test of `to_string` is `a.as_array()`; when the value is not an array, `as_array` builds its failure text with `to_string(*this)` (rediscpp/redis_reply.h:232), so `to_string` calls itself again on the same value and never returns (modelled by `ToStringAsWritten` with a fuel bound). Since every failing `as_*`/`try_into` builds its text the same way, every failed narrowing of a non-array value never returns either (`FailedNarrowingNeverReturns`, over `AsAsWritten`): `process<R>` on a null reply or on a wrong-kind reply that is not an array, and both multimap `dereference`s on an element that is neither a string nor an array, or past the last element. A failed narrowing of an array does return, with the text "array type" (`FailedNarrowingOfArrayReturns`). This reads `cast`'s `if (f)` (rediscpp/redis_reply.h:229) as `f()`; as literally written that test does not compile for a capturing lambda | any non-array value, for example the decoded integer reply `IntegerReply(1)` | test `a.is_array()`, as the other five tests do | not executed; high | `RedisReply.ToStringAsWrittenNeverReturns` | `RedisReply.ToString` |
| rediscpp/redis_reply.cpp:111-112 | the `default:` branch of `any::from` returns `any{}` without building a view, so no `lowlevel_access` takes the record and `release_reply` is never installed for it; `run_op` (rediscpp/internal/commands.h:19-23) then drops the only pointer to it, and the record leaks | a reply whose tag is none of the six, for example `OtherReply(7, 0, 0)`, such as a reply kind added in RESP3 | hand every non-null record to a deleter, whatever its tag | not executed; medium | `Commands.UnknownTagReplyLeaks` | `RedisReply.ReleasedCorrected` |

## Left out

- The network: `redisCommand` and the endpoint are not modelled. The connection state and the raw reply are inputs of `Commands`, so "no command is sent" shows only as the reply playing no part in the result.
- Buffer ownership and reference counting: only `release_reply`'s test is modelled. `array::operator[]` also installs `release_reply` on the child records, so the code does not ensure a single free, and no freed-once property is stated.
- `Any.As`: `try_into<T>` and the six `as_*` members are one function indexed by `ResultType`. It returns the view's record (`Raw`) instead of a C++ view type, and its ensures give the record's kind.
- `Any.As`: `cast` tests the callable `f` itself (`if (f)`) rather than calling `f()`. A capturing lambda has no conversion to bool, so the written test has no defined meaning; the model calls the predicate.
- The duplicate `any(array&&)` constructors collapse into the one `Array` variant. The `any::run_op` visitor and the `operator<<` stream operators are not modelled: they are template and output code.
- Integer widths: the iterator index, `n`, `step` and `(int)current->size()` are unbounded integers. The model does not capture overflow of `index + n` or truncation of sizes above the `int` range.
- `Any.As`, `RedisReply.TryIntoDecoded`, `RedisReply.ErrorReplyScenario`, `RedisReply.DefaultHoldsNoKind`, `Commands.Process`, `Commands.NullReplyScenario`, `Commands.WrongKindScenario`, `Multimap.PairDeref`, `Multimap.KeyDeref`, `Multimap.PairDerefAtEven`, `Multimap.OddLengthScenario`, `Multimap.EmptyPairIsAmbiguous`, `Multimap.KeyDerefAtElement`: their failure outcomes use the corrected `to_string` of the first Findings row. In the code as written, the failed narrowing that each of them goes through on a value that is not an array never returns (`RedisReply.FailedNarrowingNeverReturns`), and the written `to_string` of the empty value never returns either, so those outcomes are what the code evidently intends, not what it does.
- `RedisReply.ReleasedCorrected`: the rest of the model does not depend on ownership, so the corrected decoding changes nothing else; `Any` holds no deleter.
- `ReplyIterators.Begin`: the array constructor leaves `index` uninitialised in the source. Starting at 0 is an assumption.
- `ReplyIterators.Deref`, `Multimap.PairDeref`, `Multimap.KeyDeref`: they require the states for which the source does not fail an assertion. Dereferencing at an index that is neither -1 nor an element fails `operator[]`'s bounds assertion, and the model does not represent that failure.
- Boost's `iterator_facade` operators (`++`, `--`, `+=`, `==`, `*`) are not modelled separately; they dispatch to the members above. The scratch copy `tmp` in `multimap_iterator::dereference` is a value, not a second object.
- Bytes are modelled as `char`s in a `string`; hiredis strings are binary data, and the model does no decoding.
- `redis_messages`, `redis_channel` and `redis_endpoint` are not part of this model. Nor are `rmmap_proxy` and `rmultimap` (rediscpp/redis_multimap.cpp:122-284) or the older root `redis_multimap.cpp`. They are network call sites, pub/sub and connection management, or a superseded revision.
