# cbuff: a fixed-capacity byte FIFO in three variants

`cbuff` is a header-only C ring buffer for embedded use. It is a FIFO queue of
bytes kept in a byte array that the caller supplies; it never allocates. The
repository ships it three times, with the same operations (init, is_init,
reset, enqueue, enqueue_overwrite, dequeue, peek, capacity, count, is_full,
is_empty) on three different representations:

- **mirrored index** (`cbuff_uint8.h`, module `CbuffUint8`): `head` and `tail`
  run over `[0, 2 * capacity)`; the slot is the index modulo `capacity`, and the
  occupancy is never stored but derived from the two indices. Equal indices mean
  empty and indices `capacity` apart mean full, so no slot is left unused.
- **counted index** (`cbuff_index.h`, module `CbuffIndex`): `head` and `tail`
  are slot indices in `[0, capacity)` and a `count` field holds the occupancy.
- **pointer cursor** (`cbuff_uint8_pointer.h`, module `CbuffUint8Pointer`):
  as the counted variant, but `head` and `tail` are cursors into
  `[buffer, bufferEnd)` that go back to `buffer` on reaching `bufferEnd`. Here
  they are offsets from `buffer`, so `bufferEnd` is `capacity`.

Each C struct becomes a class whose fields are the struct's fields. The storage
the struct borrows is an `array?<uint8>`, and `null` stands for the NULL
pointer. Each class has a ghost field `Contents`, the queue oldest first, and a
predicate `Valid()`. `Valid()` ties `Contents` to the fields: it is
`Ring.Window(buffer[..capacity], start, n)`, the `n` bytes stored from slot
`start` on, wrapping round the ring. Every mutating operation is a method
whose `modifies` clause names exactly the fields and the array the C function
writes. Each such method states its new fields and its new `Contents`; the
enqueues append to `Contents` and dequeue removes its front. Peek and the
queries are functions over the fields. Module `Ring` holds what the variants
share: the byte type, `Option`, the slot reduction `Wrap`, the queue
`Window` and the lemmas about one enqueue and one dequeue of a window.

The modules `CbuffUint8Test`, `CbuffIndexTest` and `CbuffUint8PointerTest`
restate the repository's unit tests as methods. Each postcondition is the
test's expectation and follows from the operations' contracts. There is no
test file for the pointer variant, so its module replays the scenarios of
`cbuff_uint8_test.c`: the pointer header declares the same `cbuff_uint8_*`
functions.

## Model

| member | source | states |
|---|---|---|
| Ring.WrapIsMod | cbuff_index.h:96 | on a position less than two turns of the ring, `Wrap` is below `m` and equals C's `x % m`, the reduction used by the index steps and by peek |
| Ring.Window | cbuff_index.h:47-54 | the queue described by a start slot and an occupancy has exactly that many bytes |
| Ring.WindowPush | cbuff_index.h:117-121 | writing a byte into the slot just past a queue that is not full appends that byte and leaves the queued bytes as they were |
| Ring.WindowPop | cbuff_index.h:132-136 | advancing the start slot one step removes exactly the oldest byte |
| Ring.WindowRotate | cbuff_index.h:93-106 | on a full ring, writing the start slot and advancing the start drops the oldest byte and appends the new one, so the queue stays full |
| Ring.WindowOverwrite | cbuff_index.h:91-108 | one overwriting enqueue, full or not: the new queue is the old one, less its oldest byte if the ring was full, followed by the new byte |
| Ring.WindowAt | cbuff_index.h:155 | the byte at position `k` of the queue is in slot `Wrap(start + k)`; it only unfolds `Window` at one position, for the reads of dequeue and peek, where the verifier does not do so by itself |
| CbuffIndex.Next | cbuff_index.h:96 | the index step `(i + 1) % capacity` is `i + 1`, or `0` after the last slot |
| CbuffIndex.RingBuffer.Zeroed | cbuff_index_test.c:44-45 | the all-zero struct has no capacity or storage and is not initialised |
| CbuffIndex.RingBuffer.Valid | cbuff_index.h:47-54 | the invariant: both indices below `capacity`, `count` at most `capacity`, `tail` `count` slots after `head`, and the queue the `count` bytes from slot `head`; it makes the queue length the stored `count` |
| CbuffIndex.RingBuffer.Prefill | cbuff_index.h:44 | the prefill literal has the given capacity and storage, zero `count`, `head` and `tail`, an empty queue, and is valid whenever the capacity is positive and the storage holds it |
| CbuffIndex.RingBuffer.Init | cbuff_index.h:60-75 | succeeds exactly when the storage is not null; then capacity and storage are set, `count`, `head` and `tail` are zero and the queue is empty; on failure nothing changes |
| CbuffIndex.RingBuffer.IsInit | cbuff_index.h:77 | true exactly when the capacity is non-zero and storage is bound |
| CbuffIndex.RingBuffer.Reset | cbuff_index.h:79-85 | zeroes `count`, `head` and `tail` and empties the queue; writes nothing else |
| CbuffIndex.RingBuffer.EnqueueOverwrite | cbuff_index.h:91-108 | always succeeds and keeps the invariant; when full, `head` steps and `count` stays, otherwise `count` rises by one; the byte goes into slot `tail`, `tail` steps; the queue loses its oldest byte only if it was full and gains the new byte |
| CbuffIndex.RingBuffer.Enqueue | cbuff_index.h:110-123 | succeeds exactly when `count < capacity`; then writes slot `tail`, steps `tail`, raises `count` and appends to the queue; otherwise nothing changes; `head` is never written |
| CbuffIndex.RingBuffer.Dequeue | cbuff_index.h:125-138 | succeeds exactly when `count != 0`; then returns the byte in slot `head`, which is the oldest queued byte, steps `head`, lowers `count` and removes that byte; otherwise nothing changes; `tail` and the storage are never written |
| CbuffIndex.RingBuffer.Peek | cbuff_index.h:144-157 | fails exactly when the queue is empty or shorter than `offset`; below the occupancy it returns the queued byte at that position; at `offset == count` it returns the byte in slot `tail`, not a queued byte unless the buffer is full |
| CbuffIndex.RingBuffer.PeekInRange | cbuff_index.h:151 | with the bound check `offset < count` it succeeds exactly on the queued positions and returns the queued byte there |
| CbuffIndex.RingBuffer.Capacity | cbuff_index.h:163 | the capacity, positive and at least the queue length |
| CbuffIndex.RingBuffer.Count | cbuff_index.h:165 | the stored count is the queue length |
| CbuffIndex.RingBuffer.IsFull | cbuff_index.h:167 | true exactly when the queue holds `capacity` bytes |
| CbuffIndex.RingBuffer.IsEmpty | cbuff_index.h:169 | true exactly when the queue is empty |
| CbuffUint8Pointer.Advance | cbuff_uint8_pointer.h:96-97 | one cursor advance on offsets (the same two statements at lines 107-108, 122-123 and 138-139): from a cursor below `bufferEnd` it stays below `bufferEnd`, and it is back at `buffer` exactly when the step reached `bufferEnd` |
| CbuffUint8Pointer.CursorStepIsIndexStep | cbuff_uint8_pointer.h:122-123 | a cursor advance, on offsets, is the counted variant's `(i + 1) % capacity` and stays below `bufferEnd`, so the two variants make the same transitions |
| CbuffUint8Pointer.RingBuffer.Zeroed | cbuff_uint8_test.c:54-55 | the all-zero struct has no capacity or storage and is not initialised |
| CbuffUint8Pointer.RingBuffer.Valid | cbuff_uint8_pointer.h:47-55 | the invariant: `bufferEnd` is `capacity` past `buffer`, both cursors in `[buffer, bufferEnd)`, `count` at most `capacity`, the tail cursor `count` slots after the head cursor, and the queue the `count` bytes from the head cursor; it makes the queue length the stored `count` |
| CbuffUint8Pointer.RingBuffer.Prefill | cbuff_uint8_pointer.h:44 | the prefill literal sets `bufferEnd` one capacity past `buffer` and both cursors to `buffer`, with zero `count` and an empty queue |
| CbuffUint8Pointer.RingBuffer.Init | cbuff_uint8_pointer.h:61-75 | succeeds exactly when the storage is not null; then sets capacity, storage and `bufferEnd = buffer + capacity`, zero `count` and both cursors at `buffer`; on failure nothing changes |
| CbuffUint8Pointer.RingBuffer.IsInit | cbuff_uint8_pointer.h:77 | true exactly when the capacity is non-zero and storage is bound |
| CbuffUint8Pointer.RingBuffer.Reset | cbuff_uint8_pointer.h:79-85 | zeroes `count` and puts both cursors back at `buffer`; capacity, storage and `bufferEnd` stay |
| CbuffUint8Pointer.RingBuffer.EnqueueOverwrite | cbuff_uint8_pointer.h:91-110 | always succeeds and keeps the cursor invariant; when full, the head cursor advances and `count` stays, otherwise `count` rises; the byte is stored under the tail cursor, which advances; the queue changes as for the counted variant |
| CbuffUint8Pointer.RingBuffer.Enqueue | cbuff_uint8_pointer.h:112-126 | succeeds exactly when not full; then stores under the tail cursor, advances it, raises `count` and appends; otherwise nothing changes |
| CbuffUint8Pointer.RingBuffer.Dequeue | cbuff_uint8_pointer.h:128-142 | succeeds exactly when `count != 0`; then returns the byte under the head cursor, the oldest queued byte, advances the cursor, lowers `count` and removes that byte; otherwise nothing changes |
| CbuffUint8Pointer.RingBuffer.Peek | cbuff_uint8_pointer.h:148-162 | fails exactly when empty or when `count < offset`; below the occupancy it returns the queued byte at that position, at `offset == count` the byte under the tail cursor |
| CbuffUint8Pointer.RingBuffer.PeekInRange | cbuff_uint8_pointer.h:155 | with the bound check `offset < count` it succeeds exactly on the queued positions and returns the queued byte there |
| CbuffUint8Pointer.RingBuffer.Capacity | cbuff_uint8_pointer.h:168 | the capacity, positive and at least the queue length |
| CbuffUint8Pointer.RingBuffer.Count | cbuff_uint8_pointer.h:170 | the stored count is the queue length |
| CbuffUint8Pointer.RingBuffer.IsFull | cbuff_uint8_pointer.h:172 | true exactly when the queue holds `capacity` bytes |
| CbuffUint8Pointer.RingBuffer.IsEmpty | cbuff_uint8_pointer.h:174 | true exactly when the queue is empty |
| CbuffUint8.MirrorStep | cbuff_uint8.h:126 | the mirrored step `(i + 1) % (capacity * 2)` is `i + 1`, or `0` after `2 * capacity - 1` |
| CbuffUint8.Slot | cbuff_uint8.h:129 | the slot `i % capacity` of a mirrored index is below `capacity`: `i` on the first turn, `i - capacity` on the mirror |
| CbuffUint8.DerivedCount | cbuff_uint8.h:121 | the occupancy derived from the indices is below `2 * capacity` and is the forward distance from `head` to `tail` round the doubled ring |
| CbuffUint8.CountIsModDistance | cbuff_uint8.h:121 | the derived occupancy equals `(tail - head) mod 2 * capacity` |
| CbuffUint8.TailFromCount | cbuff_uint8.h:140-149 | `tail` is `head` plus the occupancy, modulo `2 * capacity`, so the indices lose nothing by not storing a count |
| CbuffUint8.EmptyIffSameIndex | cbuff_uint8.h:159 | the derived occupancy is zero exactly when the indices are equal |
| CbuffUint8.FullIsSameSlotOtherIndex | cbuff_uint8.h:54-64 | on a full buffer both indices name the same slot yet differ, which is how full is told from empty with no spare slot |
| CbuffUint8.EmptyAndFullExclusive | cbuff_uint8.h:209-217 | for a positive capacity (which indices below `2 * capacity` imply), a buffer is never both empty (`head == tail`) and full (occupancy at least `capacity`) |
| CbuffUint8.TailSlot | cbuff_uint8.h:147 | the slot under `tail` is the occupancy past the slot under `head` |
| CbuffUint8.SlotPlusOffset | cbuff_uint8.h:191 | peek's slot `(head + offset) % capacity` is `offset` slots past the slot under `head` |
| CbuffUint8.SlotAfterStep | cbuff_uint8.h:166 | stepping a mirrored index steps the slot it names |
| CbuffUint8.CountAfterTailStep | cbuff_uint8.h:149 | stepping `tail` of a buffer that is not full raises the derived occupancy by one |
| CbuffUint8.CountAfterHeadStep | cbuff_uint8.h:166 | stepping `head` of a non-empty buffer lowers the derived occupancy by one |
| CbuffUint8.CountAfterBothSteps | cbuff_uint8.h:126-131 | stepping both indices leaves the derived occupancy unchanged |
| CbuffUint8.OverwriteIndices | cbuff_uint8.h:116-133 | after an overwriting enqueue the occupancy is one more, or still `capacity` when full; the head slot advances only when full; the byte went into the slot that is the occupancy past the head slot |
| CbuffUint8.OverwriteStep | cbuff_uint8.h:116-133 | after an overwriting enqueue the indices are still at most `capacity` apart and describe the old queue, less its oldest byte when full, followed by the new byte |
| CbuffUint8.RingBuffer.Zeroed | cbuff_uint8_test.c:54-55 | the all-zero struct has no capacity or storage and is not initialised |
| CbuffUint8.RingBuffer.Valid | cbuff_uint8.h:54-81 | the invariant: both indices below `2 * capacity`, at most `capacity` apart, and the queue the bytes from the slot under `head`, as many as the derived occupancy, which is therefore the queue length |
| CbuffUint8.RingBuffer.Prefill | cbuff_uint8.h:69-72 | the prefill literal has the given capacity and storage, both indices zero and an empty queue, and is valid whenever the capacity is positive and the storage holds it |
| CbuffUint8.RingBuffer.Init | cbuff_uint8.h:87-101 | succeeds exactly when the storage is not null; then capacity and storage are set, both indices are zero and the queue is empty; on failure nothing changes |
| CbuffUint8.RingBuffer.IsInit | cbuff_uint8.h:103 | true exactly when the capacity is non-zero and storage is bound |
| CbuffUint8.RingBuffer.Reset | cbuff_uint8.h:105-110 | zeroes both indices and empties the queue; capacity and storage stay |
| CbuffUint8.RingBuffer.EnqueueOverwrite | cbuff_uint8.h:116-133 | always succeeds and keeps the invariant; when full it also writes `head`, one mirrored step on; the byte goes into slot `tail % capacity`, `tail` steps; the queue loses its oldest byte only if it was full and gains the new byte |
| CbuffUint8.RingBuffer.Enqueue | cbuff_uint8.h:135-151 | succeeds exactly when the derived occupancy is below `capacity`; then writes slot `tail % capacity`, steps `tail` and appends; otherwise nothing changes; `head` is never written |
| CbuffUint8.RingBuffer.Dequeue | cbuff_uint8.h:153-168 | succeeds exactly when the indices differ; then returns the byte in slot `head % capacity`, the oldest queued byte, steps `head` and removes that byte; otherwise nothing changes; `tail` and the storage are never written |
| CbuffUint8.RingBuffer.Peek | cbuff_uint8.h:174-193 | fails exactly when empty or when the occupancy is below `offset`; below the occupancy it returns the queued byte at that position; at `offset` equal to the occupancy it returns the byte in the slot under `tail` |
| CbuffUint8.RingBuffer.PeekInRange | cbuff_uint8.h:186 | with the bound check `offset < count` it succeeds exactly on the queued positions and returns the queued byte there |
| CbuffUint8.RingBuffer.Capacity | cbuff_uint8.h:199 | the capacity, positive and at least the queue length |
| CbuffUint8.RingBuffer.Count | cbuff_uint8.h:201-207 | the derived occupancy never exceeds `capacity` and is the queue length |
| CbuffUint8.RingBuffer.IsFull | cbuff_uint8.h:209-215 | true exactly when the queue holds `capacity` bytes, and then the buffer is not empty |
| CbuffUint8.RingBuffer.IsEmpty | cbuff_uint8.h:217 | equal indices, exactly an empty queue |
| CbuffUint8Test.PrefillScenario | cbuff_uint8_test.c:50-70 | a zeroed struct is not initialised and `init` makes it so; the prefilled buffer has capacity 4, count 0, is empty and not full, and agrees with the initialised one field for field before and after a reset |
| CbuffUint8Test.EnqueueObserved | cbuff_uint8_test.c:79-82 | one enqueue into a buffer with room: not full before, accepted, not empty after, count one more, byte appended |
| CbuffUint8Test.EnqueueFour | cbuff_uint8_test.c:76-83 | four such enqueues are all accepted and append the four bytes, with counts rising by one each time |
| CbuffUint8Test.DequeueFour | cbuff_uint8_test.c:87-92 | four dequeues of a four-byte queue all succeed and return its bytes oldest first |
| CbuffUint8Test.OverwriteFour | cbuff_uint8_test.c:105-109 | overwrite-enqueueing 1, 2, 3, 4 into a full buffer of four holding 0, 1, 2, 3 leaves 1, 2, 3, 4 |
| CbuffUint8Test.GeneralScenario | cbuff_uint8_test.c:72-94 | enqueueing 1..4 into capacity 4 is accepted each time, never full before and never empty after, with counts 1..4; a fifth is refused and the buffer is full and not empty; four dequeues succeed and return 1..4 |
| CbuffUint8Test.OverwriteScenario | cbuff_uint8_test.c:96-118 | filling with 0..3 and overwrite-enqueueing 1..4 makes four dequeues succeed with 1..4 |
| CbuffUint8Test.PeekScenario | cbuff_uint8_test.c:120-135 | at capacity 3, after overwrite-enqueueing 1..4, peeking 0, 1, 2 succeeds with 2, 3, 4 |
| CbuffUint8Test.PeekPastEndScenario | cbuff_uint8.h:186 | with one byte queued in capacity 4, `Peek(1)` succeeds with the stale zero in the next slot, while `PeekInRange(1)` fails |
| CbuffIndexTest.PrefillScenario | cbuff_index_test.c:40-62 | a zeroed struct is not initialised and `init` makes it so; the prefilled buffer has capacity 4, count 0, is empty and not full, and agrees with the initialised one field for field before and after a reset |
| CbuffIndexTest.EnqueueObserved | cbuff_index_test.c:70-73 | one enqueue into a buffer with room: not full before, accepted, not empty after, count one more, byte appended |
| CbuffIndexTest.EnqueueFour | cbuff_index_test.c:68-74 | four such enqueues are all accepted and append the four bytes, with counts rising by one each time |
| CbuffIndexTest.DequeueFour | cbuff_index_test.c:78-83 | four dequeues of a four-byte queue all succeed and return its bytes oldest first |
| CbuffIndexTest.OverwriteFour | cbuff_index_test.c:95-98 | overwrite-enqueueing 1, 2, 3, 4 into a full buffer of four holding 0, 1, 2, 3 leaves 1, 2, 3, 4 |
| CbuffIndexTest.GeneralScenario | cbuff_index_test.c:64-85 | enqueueing 0..3 into capacity 4 is accepted each time, never full before and never empty after, with counts 1..4; 0x33 is refused and the buffer is full and not empty; four dequeues succeed and return 0..3 |
| CbuffIndexTest.OverwriteScenario | cbuff_index_test.c:87-106 | filling with 0..3 and overwrite-enqueueing 1..4 makes four dequeues succeed with 1..4 |
| CbuffIndexTest.PeekScenario | cbuff_index_test.c:108-123 | at capacity 3, after overwrite-enqueueing 1..4, peeking 0, 1, 2 succeeds with 2, 3, 4 |
| CbuffIndexTest.PeekPastEndScenario | cbuff_index.h:151 | with one byte queued in capacity 4, `Peek(1)` succeeds with the stale zero in the next slot, while `PeekInRange(1)` fails |
| CbuffUint8PointerTest.PrefillScenario | cbuff_uint8_test.c:50-70 | the same prefill test on the pointer variant, comparing also `count` and `bufferEnd` |
| CbuffUint8PointerTest.EnqueueObserved | cbuff_uint8_test.c:79-82 | one enqueue into a buffer with room: not full before, accepted, not empty after, count one more, byte appended |
| CbuffUint8PointerTest.EnqueueFour | cbuff_uint8_test.c:76-83 | four such enqueues are all accepted and append the four bytes, with counts rising by one each time |
| CbuffUint8PointerTest.DequeueFour | cbuff_uint8_test.c:87-92 | four dequeues of a four-byte queue all succeed and return its bytes oldest first |
| CbuffUint8PointerTest.OverwriteFour | cbuff_uint8_test.c:105-109 | overwrite-enqueueing 1, 2, 3, 4 into a full buffer of four holding 0, 1, 2, 3 leaves 1, 2, 3, 4 |
| CbuffUint8PointerTest.GeneralScenario | cbuff_uint8_test.c:72-94 | the general FIFO test on the pointer variant |
| CbuffUint8PointerTest.OverwriteScenario | cbuff_uint8_test.c:96-118 | the overwrite test on the pointer variant |
| CbuffUint8PointerTest.PeekScenario | cbuff_uint8_test.c:120-135 | the peek test on the pointer variant |
| CbuffUint8PointerTest.PeekPastEndScenario | cbuff_uint8_pointer.h:155 | with one byte queued in capacity 4, `Peek(1)` succeeds with the stale zero in the next slot, while `PeekInRange(1)` fails |

## Left out

- Concurrency: the headers claim single-producer, single-consumer safety from `volatile` fields and local snapshots; machine atomicity is not modelled and every operation runs sequentially. The frame facts that claim rests on are kept: each `modifies` clause names only the fields and the array the C function writes, and the mirrored `EnqueueOverwrite` writes `head` when full.
- Machine words: `size_t` is an unbounded `nat`, so a `capacity * 2` that would overflow is not modelled.
- Zero capacity: `init` accepts capacity 0, and the C then misbehaves in each variant. The queries report the buffer empty and full at once, because the occupancy is 0 and `0 >= 0`. So `enqueue` refuses, while `dequeue` and `peek` fail as on an empty buffer. `enqueue_overwrite` takes the full branch. In the mirrored and counted variants it then divides by zero in `% capacity`. In the pointer variant it stores through the tail cursor, which already points at `bufferEnd`, and moves the head cursor past `bufferEnd`. The model does not cover this state. `Valid()` includes `0 < capacity`. `Enqueue`, `EnqueueOverwrite`, `Dequeue`, `Peek` and `PeekInRange` require `Valid()` in all three variants, and so do the mirrored `CbuffUint8.RingBuffer.Count` and `CbuffUint8.RingBuffer.IsFull`. `Init`, `IsInit`, `Reset` and the other queries take any state, but the queries' ensures speak only of valid ones.
- A NULL `cb`: Dafny references are never null, so only a NULL storage pointer (an `array?` that is `null`) is modelled.
- Pointers: the pointer variant's cursors and `bufferEnd` are offsets from `buffer`.
- Storage aliasing: the caller owns the array and could change it between calls; the model assumes only the buffer's own operations write it.
- The `*_struct_prefill(Buff)` macros: the `sizeof` form is the `Prefill` constructor given the array length.
- Dequeue and Peek: when the C function fails it leaves `*b` unset; `Dequeue` returns 0 there and `Peek` returns `None`.
- CbuffUint8.RingBuffer.IsFull: returns `bool` where the C function returns the comparison as a `size_t`.
- CbuffUint8.RingBuffer.Count: requires `Valid()`, because the derived count's formula is only meaningful on indices below `2 * capacity`; the C function computes it on any field values.
- CbuffUint8.RingBuffer.IsFull: requires `Valid()` for the same reason. It also excludes capacity 0, where the C function reports a buffer that is empty as full too.
- The unit-test framework: the `mu_assert`/`mu_run_test` macros, `circularBuffer_inspect` printing and `main` are I/O; only the assertions are kept, as postconditions.
- The pointer variant has no test file; its test module replays the scenarios of `cbuff_uint8_test.c`.
- Build details: the mirrored header reuses the header guard of the counted one and two headers define `cbuff_uint8_t`; each variant is its own module.

## Findings

| source | as written | input that shows it | evidently intended | confidence | as-written member | corrected member |
|---|---|---|---|---|---|---|
| cbuff_uint8.h:186 | peek fails only when the derived count is below `offset`, so `offset == count` passes and reads the slot under `tail` | capacity 4, one byte 7 enqueued into zeroed storage, peek at offset 1: succeeds and yields 0, a byte never enqueued | peek succeeds only for `offset < count`, the queued positions | medium, not executed | CbuffUint8Test.PeekPastEndScenario | CbuffUint8.RingBuffer.PeekInRange |
| cbuff_index.h:151 | peek fails only when `count < offset`, so `offset == count` passes and reads `buffer[tail]` | capacity 4, one byte 7 enqueued into zeroed storage, peek at offset 1: succeeds and yields 0 | peek succeeds only for `offset < count` | medium, not executed | CbuffIndexTest.PeekPastEndScenario | CbuffIndex.RingBuffer.PeekInRange |
| cbuff_uint8_pointer.h:155 | peek fails only when `count < offset`, so `offset == count` passes and reads the byte under the tail cursor | capacity 4, one byte 7 enqueued into zeroed storage, peek at offset 1: succeeds and yields 0 | peek succeeds only for `offset < count` | medium, not executed | CbuffUint8PointerTest.PeekPastEndScenario | CbuffUint8Pointer.RingBuffer.PeekInRange |
