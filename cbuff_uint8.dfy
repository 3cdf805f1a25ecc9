/**
 * The mirrored-index ring buffer: `head` and `tail` count over
 * `[0, 2 * capacity)` and only their reductions modulo `capacity` name
 * storage slots.  The occupancy is never stored: it is derived from the two
 * indices, so that equal indices mean empty while indices `capacity` apart
 * mean full, without a spare slot and without a shared counter.  The
 * producer writes only `tail` (and one slot), the consumer only `head`.
 *
 * C's `cbuff_uint8_t` is a struct the caller owns and the operations update
 * in place; here it is a class whose fields are the struct's fields.  The
 * storage it borrows is an `array?<uint8>` (`null` for an unbound struct).
 * The ghost field `Contents` is the queue the fields represent.
 */
module CbuffUint8 {
  import opened Ring

  /** The step of a mirrored index, `(i + 1) % (capacity * 2)`: one on, `0` after `2 * capacity - 1`. */
  function MirrorStep(i: nat, capacity: nat): (j: nat)
    requires i < 2 * capacity
    ensures j == if i + 1 == 2 * capacity then 0 else i + 1
  {
    ModSmall(i + 1, 2 * capacity);
    (i + 1) % (capacity * 2)
  }

  /** The storage slot a mirrored index names, `i % capacity`: `i` on the first turn, `i - capacity` on the mirror. */
  function Slot(i: nat, capacity: nat): (k: nat)
    requires i < 2 * capacity
    ensures k == Wrap(i, capacity) && k < capacity
  {
    WrapIsMod(i, capacity);
    i % capacity
  }

  /**
   * The occupancy derived from the two indices, as every operation computes
   * it: `tail - head` when `tail >= head`, otherwise
   * `tail + (capacity * 2 - head)`.  It is the distance from `head` forward
   * to `tail` round the doubled ring.
   */
  function DerivedCount(head: nat, tail: nat, capacity: nat): (n: nat)
    requires head < 2 * capacity && tail < 2 * capacity
    ensures n < 2 * capacity
    ensures head + n == tail || head + n == tail + 2 * capacity
  {
    if tail >= head then tail - head else tail + (capacity * 2 - head)
  }

  /** Reduction modulo `m` of a difference that is negative by less than `m`. */
  lemma ModNegative(x: int, m: nat)
    requires 0 < m && -(m as int) <= x < 0
    ensures x % m == x + m
  {
  }

  /** The derived occupancy is `(tail - head) mod 2 * capacity`. */
  lemma {:induction false} CountIsModDistance(head: nat, tail: nat, capacity: nat)
    requires head < 2 * capacity && tail < 2 * capacity
    ensures DerivedCount(head, tail, capacity) == (tail - head) % (2 * capacity)
  {
    if tail >= head {
      ModSmall(tail - head, 2 * capacity);
    } else {
      ModNegative(tail - head, 2 * capacity);
    }
  }

  /** The pair (`head`, occupancy) determines `tail`: no information is lost by not storing a count. */
  lemma {:induction false} TailFromCount(head: nat, tail: nat, capacity: nat)
    requires head < 2 * capacity && tail < 2 * capacity
    ensures tail == (head + DerivedCount(head, tail, capacity)) % (2 * capacity)
  {
    ModSmall(head + DerivedCount(head, tail, capacity), 2 * capacity);
  }

  /** Equal indices, and only equal indices, mean an empty buffer. */
  lemma EmptyIffSameIndex(head: nat, tail: nat, capacity: nat)
    requires head < 2 * capacity && tail < 2 * capacity
    ensures DerivedCount(head, tail, capacity) == 0 <==> head == tail
  {
  }

  /**
   * Reduced modulo `capacity`, the two indices of a full buffer name the
   * same slot, just as those of an empty buffer do; the indices themselves
   * differ, which is what tells full from empty with no slot left unused.
   */
  lemma {:induction false} FullIsSameSlotOtherIndex(head: nat, tail: nat, capacity: nat)
    requires head < 2 * capacity && tail < 2 * capacity
    requires DerivedCount(head, tail, capacity) == capacity
    ensures head % capacity == tail % capacity
    ensures head != tail
  {
    ModSmall(head, capacity);
    ModSmall(tail, capacity);
  }

  /** A buffer is never both empty (`head == tail`) and full (occupancy at least `capacity`). */
  lemma EmptyAndFullExclusive(head: nat, tail: nat, capacity: nat)
    requires head < 2 * capacity && tail < 2 * capacity
    ensures !(head == tail && DerivedCount(head, tail, capacity) >= capacity)
  {
  }

  /** The slot under `tail` is the one `count` slots after the slot under `head`. */
  lemma TailSlot(head: nat, tail: nat, capacity: nat)
    requires head < 2 * capacity && tail < 2 * capacity
    requires DerivedCount(head, tail, capacity) <= capacity
    ensures Wrap(tail, capacity) == Wrap(Wrap(head, capacity) + DerivedCount(head, tail, capacity), capacity)
  {
  }

  /** An offset of at most one turn from a mirrored index lands on the same slot as from the slot it names. */
  lemma {:induction false} SlotPlusOffset(i: nat, k: nat, capacity: nat)
    requires i < 2 * capacity && k <= capacity
    ensures (i + k) % capacity == Wrap(Wrap(i, capacity) + k, capacity)
  {
    ModSmall(i + k, capacity);
  }

  /** Stepping a mirrored index steps the slot it names. */
  lemma SlotAfterStep(i: nat, capacity: nat)
    requires i < 2 * capacity
    ensures Wrap(MirrorStep(i, capacity), capacity) == Wrap(Wrap(i, capacity) + 1, capacity)
  {
  }

  /** Stepping `tail` of a buffer that is not full raises the occupancy by one. */
  lemma CountAfterTailStep(head: nat, tail: nat, capacity: nat)
    requires head < 2 * capacity && tail < 2 * capacity
    requires DerivedCount(head, tail, capacity) < capacity
    ensures DerivedCount(head, MirrorStep(tail, capacity), capacity) == DerivedCount(head, tail, capacity) + 1
  {
  }

  /** Stepping `head` of a buffer that is not empty lowers the occupancy by one. */
  lemma CountAfterHeadStep(head: nat, tail: nat, capacity: nat)
    requires head < 2 * capacity && tail < 2 * capacity
    requires 0 < DerivedCount(head, tail, capacity)
    ensures DerivedCount(MirrorStep(head, capacity), tail, capacity) == DerivedCount(head, tail, capacity) - 1
  {
  }

  /** Stepping both indices, as an overwrite of a full buffer does, leaves the occupancy as it was. */
  lemma CountAfterBothSteps(head: nat, tail: nat, capacity: nat)
    requires head < 2 * capacity && tail < 2 * capacity
    ensures DerivedCount(MirrorStep(head, capacity), MirrorStep(tail, capacity), capacity) == DerivedCount(head, tail, capacity)
  {
  }

  /**
   * The index effect of an overwriting enqueue: `tail` steps, and so does
   * `head` when the buffer is full.  Afterwards the occupancy is one more,
   * or still `capacity`; the slot under `head` is the old one, or the next
   * one when the buffer was full; and the byte went into the slot that is
   * the old occupancy past the slot under the old `head`.
   */
  lemma {:induction false} OverwriteIndices(head: nat, tail: nat, capacity: nat)
    requires head < 2 * capacity && tail < 2 * capacity
    requires DerivedCount(head, tail, capacity) <= capacity
    ensures var n := DerivedCount(head, tail, capacity);
            var head' := if n >= capacity then MirrorStep(head, capacity) else head;
            var tail' := MirrorStep(tail, capacity);
            Wrap(tail, capacity) == Wrap(Wrap(head, capacity) + n, capacity) &&
            DerivedCount(head', tail', capacity) == (if n == capacity then n else n + 1) &&
            Wrap(head', capacity) == (if n == capacity then Wrap(Wrap(head, capacity) + 1, capacity)
                                      else Wrap(head, capacity))
  {
    TailSlot(head, tail, capacity);
    if DerivedCount(head, tail, capacity) >= capacity {
      SlotAfterStep(head, capacity);
      CountAfterBothSteps(head, tail, capacity);
    } else {
      CountAfterTailStep(head, tail, capacity);
    }
  }

  /**
   * One overwriting enqueue on a storage snapshot `s`: `b` goes into the
   * tail's slot, the tail steps, and on a full ring the head steps too.  The
   * indices stay valid and the queue they describe is the old one, less its
   * oldest byte when the ring was full, followed by `b`.
   */
  lemma {:induction false} OverwriteStep(s: seq<uint8>, head: nat, tail: nat, b: uint8)
    requires 0 < |s| && head < 2 * |s| && tail < 2 * |s|
    requires DerivedCount(head, tail, |s|) <= |s|
    ensures var n := DerivedCount(head, tail, |s|);
            var head' := if n >= |s| then MirrorStep(head, |s|) else head;
            var tail' := MirrorStep(tail, |s|);
            DerivedCount(head', tail', |s|) <= |s| &&
            Window(s[Slot(tail, |s|) := b], Wrap(head', |s|), DerivedCount(head', tail', |s|))
              == (if n >= |s| then Window(s, Wrap(head, |s|), n)[1..] else Window(s, Wrap(head, |s|), n)) + [b]
  {
    OverwriteIndices(head, tail, |s|);
    WindowOverwrite(s, Wrap(head, |s|), DerivedCount(head, tail, |s|), b);
  }

  class RingBuffer {
    var capacity: nat
    var buffer: array?<uint8>
    var head: nat
    var tail: nat
    /** The queued bytes, oldest first. */
    ghost var Contents: seq<uint8>

    /** Storage is bound and holds at least `capacity` > 0 bytes. */
    ghost predicate Bound()
      reads this
    {
      buffer != null && 0 < capacity <= buffer.Length
    }

    /**
     * The invariant every operation keeps once the storage is bound: both
     * indices lie in `[0, 2 * capacity)`, they are at most `capacity` apart,
     * and the queue is the bytes stored from the slot under `head` on, as
     * many as the derived occupancy.
     */
    ghost predicate Valid()
      reads this, buffer
      ensures Valid() ==> head < 2 * capacity && tail < 2 * capacity &&
                          |Contents| == DerivedCount(head, tail, capacity) <= capacity
    {
      Bound() && head < 2 * capacity && tail < 2 * capacity &&
      DerivedCount(head, tail, capacity) <= capacity &&
      Contents == Window(buffer[..capacity], Wrap(head, capacity), DerivedCount(head, tail, capacity))
    }

    /** The all-zero struct `cbuff_uint8_t x = {0}`: nothing is bound. */
    constructor Zeroed()
      ensures capacity == 0 && buffer == null && head == 0 && tail == 0
      ensures Contents == [] && !IsInit()
    {
      capacity, buffer, head, tail := 0, null, 0, 0;
      Contents := [];
    }

    /** The `cbuff_uint8_struct_full_prefill(BuffSize, BuffPtr)` literal. */
    constructor Prefill(buffSize: nat, buffPtr: array?<uint8>)
      ensures capacity == buffSize && buffer == buffPtr && head == 0 && tail == 0
      ensures Contents == []
      ensures Bound() ==> Valid()
    {
      capacity, buffer, head, tail := buffSize, buffPtr, 0, 0;
      Contents := [];
    }

    /** `cbuff_uint8_init`: binds the storage unless it is null; does not touch its bytes. */
    method Init(capacity: nat, buffPtr: array?<uint8>) returns (ok: bool)
      modifies this
      ensures ok <==> buffPtr != null
      ensures ok ==> this.capacity == capacity && buffer == buffPtr && head == 0 && tail == 0
      ensures ok ==> Contents == []
      ensures !ok ==> unchanged(this)
      ensures ok && Bound() ==> Valid()
    {
      if buffPtr == null {
        return false;
      }
      // The struct is cleared, then filled in
      this.capacity, buffer, head, tail := 0, null, 0, 0;
      this.capacity := capacity;
      buffer := buffPtr;
      head := 0;
      tail := 0;
      Contents := [];
      return true;
    }

    /** `cbuff_uint8_is_init`: a capacity and a storage region are bound. */
    function IsInit(): (r: bool)
      reads this
      ensures r <==> capacity != 0 && buffer != null
      ensures Bound() ==> r
    {
      capacity != 0 && buffer != null
    }

    /** `cbuff_uint8_reset`: empties the queue; capacity, storage and its bytes stay. */
    method Reset() returns (ok: bool)
      modifies this`head, this`tail, this`Contents
      ensures ok && head == 0 && tail == 0 && Contents == []
      ensures Bound() ==> Valid()
    {
      head := 0;
      tail := 0;
      Contents := [];
      return true;
    }

    /**
     * `cbuff_uint8_enqueue_overwrite`: always succeeds.  On a full buffer it
     * also writes `head`, stepping it past the oldest byte, so it is the one
     * operation that writes both indices.
     */
    method EnqueueOverwrite(b: uint8) returns (ok: bool)
      requires Valid()
      modifies this`head, this`tail, this`Contents, buffer
      ensures Valid() && ok
      ensures old(|Contents|) >= capacity ==> head == MirrorStep(old(head), capacity)
      ensures old(|Contents|) < capacity ==> head == old(head)
      ensures tail == MirrorStep(old(tail), capacity)
      ensures buffer[..] == old(buffer[..])[Slot(old(tail), capacity) := b]
      ensures Contents == if old(|Contents|) >= capacity then old(Contents)[1..] + [b]
                          else old(Contents) + [b]
    {
      ghost var s := buffer[..capacity];
      // Snapshot of both indices
      var headIndex := head;
      var tailIndex := tail;
      var count := DerivedCount(headIndex, tailIndex, capacity);
      OverwriteStep(s, headIndex, tailIndex, b);
      if count >= capacity {
        // Full: discard the oldest byte
        head := MirrorStep(headIndex, capacity);
      }
      buffer[Slot(tailIndex, capacity)] := b;
      tail := MirrorStep(tailIndex, capacity);
      assert buffer[..capacity] == s[Slot(tailIndex, capacity) := b];
      Contents := (if count >= capacity then Contents[1..] else Contents) + [b];
      return true;
    }

    /** `cbuff_uint8_enqueue`: fails without any change when full; otherwise appends `b`. */
    method Enqueue(b: uint8) returns (ok: bool)
      requires Valid()
      modifies this`tail, this`Contents, buffer
      ensures Valid()
      ensures ok <==> old(|Contents|) < capacity
      ensures ok ==> tail == MirrorStep(old(tail), capacity)
      ensures ok ==> buffer[..] == old(buffer[..])[Slot(old(tail), capacity) := b]
      ensures !ok ==> tail == old(tail) && buffer[..] == old(buffer[..])
      ensures Contents == if ok then old(Contents) + [b] else old(Contents)
    {
      // Snapshot of both indices
      var headIndex := head;
      var tailIndex := tail;
      var count := DerivedCount(headIndex, tailIndex, capacity);
      if count >= capacity {
        return false;
      }
      ghost var s := buffer[..capacity];
      TailSlot(headIndex, tailIndex, capacity);
      CountAfterTailStep(headIndex, tailIndex, capacity);
      buffer[Slot(tailIndex, capacity)] := b;
      tail := MirrorStep(tailIndex, capacity);
      assert buffer[..capacity] == s[Wrap(tailIndex, capacity) := b];
      WindowPush(s, Wrap(headIndex, capacity), count, b);
      Contents := Contents + [b];
      return true;
    }

    /** `cbuff_uint8_dequeue`: fails without any change when empty; otherwise removes the oldest byte. */
    method Dequeue() returns (ok: bool, b: uint8)
      requires Valid()
      modifies this`head, this`Contents
      ensures Valid()
      ensures ok <==> old(Contents) != []
      ensures ok ==> b == buffer[Slot(old(head), capacity)] && head == MirrorStep(old(head), capacity)
      ensures ok ==> b == old(Contents)[0] && Contents == old(Contents)[1..]
      ensures !ok ==> head == old(head) && Contents == old(Contents)
    {
      // Snapshot of both indices
      var headIndex := head;
      var tailIndex := tail;
      if tailIndex == headIndex {
        // The C function leaves `*b` unset; 0 stands in for it
        return false, 0;
      }
      ghost var s := buffer[..capacity];
      ghost var n := DerivedCount(headIndex, tailIndex, capacity);
      WindowAt(s, Wrap(headIndex, capacity), n, 0);
      b := buffer[Slot(headIndex, capacity)];
      head := MirrorStep(headIndex, capacity);
      SlotAfterStep(headIndex, capacity);
      CountAfterHeadStep(headIndex, tailIndex, capacity);
      WindowPop(s, Wrap(headIndex, capacity), n);
      Contents := Contents[1..];
      return true, b;
    }

    /**
     * `cbuff_uint8_peek`: the byte `offset` places after the oldest, read at
     * `buffer[(head + offset) % capacity]` without any change.  It fails on
     * an empty buffer and when the occupancy is below `offset`, so an offset
     * equal to the occupancy is accepted and reads the slot under `tail`,
     * which holds no queued byte unless the buffer is full.
     */
    function Peek(offset: nat): (r: Option<uint8>)
      requires Valid()
      reads this, buffer
      ensures r.None? <==> |Contents| == 0 || |Contents| < offset
      ensures offset < |Contents| ==> r == Some(Contents[offset])
      ensures 0 < offset == |Contents| ==> r == Some(buffer[Slot(tail, capacity)])
      ensures offset == |Contents| == capacity ==> r == Some(Contents[0])
    {
      var headIndex := head;
      var tailIndex := tail;
      if tailIndex == headIndex then None
      else
        var count := DerivedCount(headIndex, tailIndex, capacity);
        if count < offset then None
        else
          SlotPlusOffset(headIndex, offset, capacity);
          WindowAt(buffer[..capacity], Wrap(headIndex, capacity), count, 0);
          Some(buffer[(headIndex + offset) % capacity])
    }

    /** `Peek` with the bound check `offset < count`: fails on every offset that holds no queued byte. */
    function PeekInRange(offset: nat): (r: Option<uint8>)
      requires Valid()
      reads this, buffer
      ensures r.Some? <==> offset < |Contents|
      ensures r.Some? ==> r.value == Contents[offset]
    {
      if offset < DerivedCount(head, tail, capacity) then
        SlotPlusOffset(head, offset, capacity);
        Some(buffer[(head + offset) % capacity])
      else None
    }

    /** `cbuff_uint8_capacity`. */
    function Capacity(): (r: nat)
      reads this
      ensures Valid() ==> 0 < r && |Contents| <= r
    {
      capacity
    }

    /** `cbuff_uint8_count`: the occupancy derived from the indices, never above `capacity`, is the length of the queue. */
    function Count(): (r: nat)
      requires Valid()
      reads this, buffer
      ensures r <= capacity
      ensures r == |Contents|
    {
      var headIndex := head;
      var tailIndex := tail;
      DerivedCount(headIndex, tailIndex, capacity)
    }

    /** `cbuff_uint8_is_full` (a `bool` here; the C function returns it as a `size_t`). */
    function IsFull(): (r: bool)
      requires Valid()
      reads this, buffer
      ensures r <==> |Contents| == capacity
      ensures r ==> !IsEmpty()
    {
      var headIndex := head;
      var tailIndex := tail;
      DerivedCount(headIndex, tailIndex, capacity) >= capacity
    }

    /** `cbuff_uint8_is_empty`: equal indices, which is exactly an empty queue. */
    function IsEmpty(): (r: bool)
      reads this
      ensures Valid() ==> (r <==> Contents == [])
    {
      tail == head
    }
  }
}
