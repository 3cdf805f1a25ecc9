/**
 * Concrete scenarios for the mirrored-index ring buffer, driven as in `cbuff_uint8_test.c`.
 * Each method builds a buffer over a fresh zeroed array, performs the
 * operations of one test and returns the values it reads; its postcondition
 * is the test's expectation, which follows from the operations' contracts.
 */
module CbuffUint8Test {
  import opened Ring
  import opened CbuffUint8

  /**
   * An all-zero struct is not initialised and becomes so by `Init`; a
   * prefilled buffer of four bytes is empty, not full, and agrees field for
   * field with an initialised one, before and after a reset.
   */
  method PrefillScenario() returns (zeroIsInit: bool, initIsInit: bool, cap: nat, n: nat,
                                    full: bool, empty: bool, same: bool, sameAfterReset: bool)
    ensures !zeroIsInit && initIsInit
    ensures cap == 4 && n == 0 && !full && empty
    ensures same && sameAfterReset
  {
    var cbuffer := new uint8[4](_ => 0);
    var prefilled := new RingBuffer.Prefill(cbuffer.Length, cbuffer);
    var initBuff := new RingBuffer.Zeroed();
    zeroIsInit := initBuff.IsInit();
    var _ := initBuff.Init(4, cbuffer);
    initIsInit := initBuff.IsInit();
    cap := prefilled.Capacity();
    n := prefilled.Count();
    full := prefilled.IsFull();
    empty := prefilled.IsEmpty();
    same := prefilled.capacity == initBuff.capacity &&
                 prefilled.buffer == initBuff.buffer &&
                 prefilled.head == initBuff.head &&
                 prefilled.tail == initBuff.tail;
    var _ := initBuff.Reset();
    sameAfterReset := prefilled.head == initBuff.head &&
                     prefilled.tail == initBuff.tail;
  }

  /**
   * One enqueue into a buffer with room, reporting whether it was full
   * before, whether it was accepted, and whether it is empty and what it
   * counts after.
   */
  method EnqueueObserved(cb: RingBuffer, x: uint8)
    returns (fullBefore: bool, accepted: bool, emptyAfter: bool, count: nat)
    requires cb.Valid() && |cb.Contents| < cb.capacity
    modifies cb, cb.buffer
    ensures cb.Valid() && cb.capacity == old(cb.capacity) && cb.buffer == old(cb.buffer)
    ensures cb.Contents == old(cb.Contents) + [x]
    ensures !fullBefore && accepted && !emptyAfter && count == |old(cb.Contents)| + 1
  {
    fullBefore := cb.IsFull();
    accepted := cb.Enqueue(x);
    emptyAfter := cb.IsEmpty();
    count := cb.Count();
  }

  /** Four observed enqueues in a row. */
  method EnqueueFour(cb: RingBuffer, a: uint8, b: uint8, c: uint8, d: uint8)
    returns (fullBefore: seq<bool>, accepted: seq<bool>, emptyAfter: seq<bool>, counts: seq<nat>)
    requires cb.Valid() && |cb.Contents| + 4 <= cb.capacity
    modifies cb, cb.buffer
    ensures cb.Valid() && cb.capacity == old(cb.capacity) && cb.buffer == old(cb.buffer)
    ensures cb.Contents == old(cb.Contents) + [a, b, c, d]
    ensures fullBefore == [false, false, false, false] && accepted == [true, true, true, true]
    ensures emptyAfter == [false, false, false, false]
    ensures counts == [|old(cb.Contents)| + 1, |old(cb.Contents)| + 2, |old(cb.Contents)| + 3, |old(cb.Contents)| + 4]
  {
    var f1, a1, e1, n1 := EnqueueObserved(cb, a);
    var f2, a2, e2, n2 := EnqueueObserved(cb, b);
    var f3, a3, e3, n3 := EnqueueObserved(cb, c);
    var f4, a4, e4, n4 := EnqueueObserved(cb, d);
    fullBefore, accepted, emptyAfter, counts := [f1, f2, f3, f4], [a1, a2, a3, a4], [e1, e2, e3, e4], [n1, n2, n3, n4];
  }

  /** Overwrite-enqueueing 1, 2, 3, 4 into a full buffer of four holding 0, 1, 2, 3 replaces every byte. */
  method OverwriteFour(cb: RingBuffer)
    requires cb.Valid() && cb.capacity == 4 && cb.Contents == [0, 1, 2, 3]
    modifies cb, cb.buffer
    ensures cb.Valid() && cb.Contents == [1, 2, 3, 4]
  {
    var _ := cb.EnqueueOverwrite(1);
    assert cb.Contents == [1, 2, 3, 1];
    var _ := cb.EnqueueOverwrite(2);
    assert cb.Contents == [2, 3, 1, 2];
    var _ := cb.EnqueueOverwrite(3);
    assert cb.Contents == [3, 1, 2, 3];
    var _ := cb.EnqueueOverwrite(4);
  }

  /** Four dequeues in a row all succeed and return the four queued bytes, oldest first. */
  method DequeueFour(cb: RingBuffer) returns (oks: seq<bool>, out: seq<uint8>)
    requires cb.Valid() && |cb.Contents| == 4
    modifies cb
    ensures cb.Valid() && cb.Contents == []
    ensures oks == [true, true, true, true]
    ensures out == old(cb.Contents)
  {
    var ok1, d1 := cb.Dequeue();
    var ok2, d2 := cb.Dequeue();
    var ok3, d3 := cb.Dequeue();
    var ok4, d4 := cb.Dequeue();
    oks, out := [ok1, ok2, ok3, ok4], [d1, d2, d3, d4];
  }

  /**
   * Four enqueues of 1, 2, 3, 4 into a buffer of four are accepted, the buffer
   * not full before each, not empty after each and its count rising by one
   * each time; a fifth is refused and the buffer reports full and not empty;
   * four dequeues then succeed and return the bytes in the order they went in.
   */
  method GeneralScenario() returns (fullBefore: seq<bool>, accepted: seq<bool>, emptyAfter: seq<bool>, counts: seq<nat>,
                                    fifthAccepted: bool, fullAfter: bool, emptyAtEnd: bool,
                                    dequeued: seq<bool>, out: seq<uint8>)
    ensures fullBefore == [false, false, false, false] && accepted == [true, true, true, true]
    ensures emptyAfter == [false, false, false, false]
    ensures counts == [1, 2, 3, 4]
    ensures !fifthAccepted && fullAfter && !emptyAtEnd
    ensures dequeued == [true, true, true, true] && out == [1, 2, 3, 4]
  {
    var cbuffer := new uint8[4](_ => 0);
    var cb := new RingBuffer.Prefill(cbuffer.Length, cbuffer);
    fullBefore, accepted, emptyAfter, counts := EnqueueFour(cb, 1, 2, 3, 4);
    fifthAccepted := cb.Enqueue(0x33);
    fullAfter := cb.IsFull();
    emptyAtEnd := cb.IsEmpty();
    dequeued, out := DequeueFour(cb);
  }

  /**
   * Filling a buffer of four with 0, 1, 2, 3 and then overwrite-enqueueing
   * 1, 2, 3, 4 drops every original byte: the dequeues return 1, 2, 3, 4.
   */
  method OverwriteScenario() returns (dequeued: seq<bool>, out: seq<uint8>)
    ensures dequeued == [true, true, true, true] && out == [1, 2, 3, 4]
  {
    var cbuffer := new uint8[4](_ => 0);
    var cb := new RingBuffer.Prefill(cbuffer.Length, cbuffer);
    var _, _, _, _ := EnqueueFour(cb, 0, 1, 2, 3);
    OverwriteFour(cb);
    dequeued, out := DequeueFour(cb);
  }

  /**
   * Overwrite-enqueueing 1, 2, 3, 4 into a buffer of three leaves 2, 3, 4:
   * peeking at offsets 0, 1, 2 succeeds and returns 2, 3, 4.
   */
  method PeekScenario() returns (peeked: seq<Option<uint8>>)
    ensures peeked == [Some(2), Some(3), Some(4)]
  {
    var cbuffer := new uint8[3](_ => 0);
    var cb := new RingBuffer.Prefill(cbuffer.Length, cbuffer);
    var _ := cb.EnqueueOverwrite(1);
    var _ := cb.EnqueueOverwrite(2);
    var _ := cb.EnqueueOverwrite(3);
    assert cb.Contents == [1, 2, 3];
    var _ := cb.EnqueueOverwrite(4);
    assert cb.Contents == [2, 3, 4];
    peeked := [cb.Peek(0), cb.Peek(1), cb.Peek(2)];
  }

  /**
   * The bound check of `Peek` lets through the offset equal to the count:
   * with one byte queued in a buffer of four, `Peek(1)` succeeds and returns
   * the untouched zero in the next slot, a byte that is not in the queue;
   * `PeekInRange(1)` fails.
   */
  method PeekPastEndScenario() returns (n: nat, peeked: Option<uint8>, inRange: Option<uint8>)
    ensures n == 1
    ensures peeked == Some(0)
    ensures inRange == None
  {
    var cbuffer := new uint8[4](_ => 0);
    var cb := new RingBuffer.Prefill(cbuffer.Length, cbuffer);
    var _ := cb.Enqueue(7);
    n := cb.Count();
    peeked := cb.Peek(1);
    inRange := cb.PeekInRange(1);
  }
}
