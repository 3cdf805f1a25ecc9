/**
 * The pointer-cursor ring buffer: like the counted-index variant it keeps
 * an explicit `count`, but `head` and `tail` are cursors into
 * `[buffer, bufferEnd)` that are bumped by one and reset to `buffer` when
 * they reach `bufferEnd`, instead of being reduced modulo the capacity.
 *
 * Every pointer is modelled as its offset from `buffer`: `buffer` itself is
 * offset 0, `bufferEnd` is offset `capacity`, and `head` and `tail` are slot
 * indices.
 */
module CbuffUint8Pointer {
  import opened Ring
  import CbuffIndex

  /** One cursor advance, on offsets into the storage: one byte on, and back to the start on reaching `bufferEnd`. */
  function Advance(p: nat, bufferEnd: nat): (q: nat)
    ensures p < bufferEnd ==> q < bufferEnd && (q == 0 <==> p + 1 == bufferEnd)
  {
    var q := p + 1;
    if q == bufferEnd then 0 else q
  }

  /**
   * A cursor advance is the counted-index variant's index step: the two
   * variants make the same transitions on `head` and `tail`.
   */
  lemma CursorStepIsIndexStep(p: nat, capacity: nat)
    requires p < capacity
    ensures Advance(p, capacity) == CbuffIndex.Next(p, capacity)
    ensures Advance(p, capacity) < capacity
  {
  }

  class RingBuffer {
    var capacity: nat
    var count: nat
    var buffer: array?<uint8>
    var bufferEnd: nat
    var head: nat
    var tail: nat
    /** The queued bytes, oldest first. */
    ghost var Contents: seq<uint8>

    /** Storage is bound and holds at least `capacity` > 0 bytes. */
    ghost predicate Bound()
      reads this
    {
      buffer != null && 0 < capacity <= buffer.Length
    }

    /**
     * The invariant every operation keeps once the storage is bound:
     * `bufferEnd` is `capacity` slots past `buffer`, both cursors lie in
     * `[buffer, bufferEnd)`, `tail` is `count` slots after `head` round the
     * ring, and the queue is the `count` bytes stored from `head` on.
     */
    ghost predicate Valid()
      reads this, buffer
      ensures Valid() ==> |Contents| == count <= capacity && head < capacity && tail < capacity
    {
      Bound() && bufferEnd == capacity &&
      head < bufferEnd && tail < bufferEnd && count <= capacity &&
      tail == Wrap(head + count, capacity) &&
      Contents == Window(buffer[..capacity], head, count)
    }

    /** The all-zero struct `cbuff_uint8_t x = {0}`: nothing is bound. */
    constructor Zeroed()
      ensures capacity == 0 && count == 0 && buffer == null && bufferEnd == 0 && head == 0 && tail == 0
      ensures Contents == [] && !IsInit()
    {
      capacity, count, buffer, bufferEnd, head, tail := 0, 0, null, 0, 0, 0;
      Contents := [];
    }

    /** The `cbuff_uint8_struct_full_prefill(BuffSize, BuffPtr)` literal. */
    constructor Prefill(buffSize: nat, buffPtr: array?<uint8>)
      ensures capacity == buffSize && count == 0 && buffer == buffPtr
      ensures bufferEnd == buffSize && head == 0 && tail == 0
      ensures Contents == []
      ensures Bound() ==> Valid()
    {
      capacity, count, buffer, bufferEnd, head, tail := buffSize, 0, buffPtr, buffSize, 0, 0;
      Contents := [];
    }

    /** `cbuff_uint8_init`: binds the storage unless it is null; does not touch its bytes. */
    method Init(capacity: nat, buffPtr: array?<uint8>) returns (ok: bool)
      modifies this
      ensures ok <==> buffPtr != null
      ensures ok ==> this.capacity == capacity && count == 0 && buffer == buffPtr
      ensures ok ==> bufferEnd == capacity && head == 0 && tail == 0 && Contents == []
      ensures !ok ==> unchanged(this)
      ensures ok && Bound() ==> Valid()
    {
      if buffPtr == null {
        return false;
      }
      this.capacity := capacity;
      count := 0;
      buffer := buffPtr;
      bufferEnd := capacity;
      head := 0;
      tail := 0;
      Contents := [];
      return true;
    }

    /** `cbuff_uint8_is_init`: a capacity and a storage region are bound. */
    function IsInit(): (r: bool)
      reads this
      ensures r <==> capacity != 0 && buffer != null
      ensures Bound() ==> r
    {
      capacity != 0 && buffer != null
    }

    /** `cbuff_uint8_reset`: both cursors back to `buffer`; capacity, storage and `bufferEnd` stay. */
    method Reset() returns (ok: bool)
      modifies this`count, this`head, this`tail, this`Contents
      ensures ok && count == 0 && head == 0 && tail == 0 && Contents == []
      ensures Bound() && bufferEnd == capacity ==> Valid()
    {
      count := 0;
      head := 0;
      tail := 0;
      Contents := [];
      return true;
    }

    /**
     * `cbuff_uint8_enqueue_overwrite`: always succeeds; on a full buffer the
     * head cursor first steps past the oldest byte, so the queue stays full.
     */
    method EnqueueOverwrite(b: uint8) returns (ok: bool)
      requires Valid()
      modifies this`head, this`count, this`tail, this`Contents, buffer
      ensures Valid() && ok
      ensures old(count) >= capacity ==> head == Advance(old(head), bufferEnd) && count == old(count)
      ensures old(count) < capacity ==> head == old(head) && count == old(count) + 1
      ensures tail == Advance(old(tail), bufferEnd)
      ensures buffer[..] == old(buffer[..])[old(tail) := b]
      ensures Contents == if old(count) >= capacity then old(Contents)[1..] + [b]
                          else old(Contents) + [b]
    {
      ghost var s := buffer[..capacity];
      if count >= capacity {
        // Full: step the head cursor past the oldest byte
        head := Advance(head, bufferEnd);
      } else {
        count := count + 1;
      }
      buffer[tail] := b;
      tail := Advance(tail, bufferEnd);
      assert buffer[..capacity] == s[old(tail) := b];
      WindowOverwrite(s, old(head), old(count), b);
      Contents := (if old(count) >= capacity then Contents[1..] else Contents) + [b];
      return true;
    }

    /** `cbuff_uint8_enqueue`: fails without any change when full; otherwise appends `b`. */
    method Enqueue(b: uint8) returns (ok: bool)
      requires Valid()
      modifies this`count, this`tail, this`Contents, buffer
      ensures Valid()
      ensures ok <==> old(count) < capacity
      ensures ok ==> tail == Advance(old(tail), bufferEnd) && count == old(count) + 1
      ensures ok ==> buffer[..] == old(buffer[..])[old(tail) := b]
      ensures !ok ==> tail == old(tail) && count == old(count) && buffer[..] == old(buffer[..])
      ensures Contents == if ok then old(Contents) + [b] else old(Contents)
    {
      if count >= capacity {
        return false;
      }
      ghost var s := buffer[..capacity];
      buffer[tail] := b;
      tail := Advance(tail, bufferEnd);
      count := count + 1;
      assert buffer[..capacity] == s[old(tail) := b];
      WindowPush(s, head, old(count), b);
      Contents := Contents + [b];
      return true;
    }

    /** `cbuff_uint8_dequeue`: fails without any change when empty; otherwise removes the oldest byte. */
    method Dequeue() returns (ok: bool, b: uint8)
      requires Valid()
      modifies this`head, this`count, this`Contents
      ensures Valid()
      ensures ok <==> old(count) != 0
      ensures ok ==> b == buffer[old(head)] && head == Advance(old(head), bufferEnd) && count == old(count) - 1
      ensures ok ==> b == old(Contents)[0] && Contents == old(Contents)[1..]
      ensures !ok ==> head == old(head) && count == old(count) && Contents == old(Contents)
    {
      if count == 0 {
        // The C function leaves `*b` unset; 0 stands in for it
        return false, 0;
      }
      ghost var s := buffer[..capacity];
      WindowAt(s, head, count, 0);
      b := buffer[head];
      head := Advance(head, bufferEnd);
      count := count - 1;
      WindowPop(s, old(head), old(count));
      Contents := Contents[1..];
      return true, b;
    }

    /**
     * `cbuff_uint8_peek`: the byte `offset` places after the oldest, read
     * at `buffer[((head - buffer) + offset) % capacity]` without any change.
     * It fails on an empty buffer and when `count < offset`, so an offset
     * equal to `count` is accepted and reads the slot under the tail
     * cursor, which holds no queued byte unless the buffer is full.
     */
    function Peek(offset: nat): (r: Option<uint8>)
      requires Valid()
      reads this, buffer
      ensures r.None? <==> |Contents| == 0 || |Contents| < offset
      ensures offset < |Contents| ==> r == Some(Contents[offset])
      ensures 0 < offset == |Contents| ==> r == Some(buffer[tail])
      ensures offset == |Contents| == capacity ==> r == Some(Contents[0])
    {
      if count == 0 then None
      else if count < offset then None
      else
        var headIndex := head;
        WrapIsMod(headIndex + offset, capacity);
        WindowAt(buffer[..capacity], head, count, 0);
        Some(buffer[(headIndex + offset) % capacity])
    }

    /** `Peek` with the bound check `offset < count`: fails on every offset that holds no queued byte. */
    function PeekInRange(offset: nat): (r: Option<uint8>)
      requires Valid()
      reads this, buffer
      ensures r.Some? <==> offset < |Contents|
      ensures r.Some? ==> r.value == Contents[offset]
    {
      if offset < count then
        WrapIsMod(head + offset, capacity);
        Some(buffer[(head + offset) % capacity])
      else None
    }

    /** `cbuff_uint8_capacity`. */
    function Capacity(): (r: nat)
      reads this
      ensures Valid() ==> 0 < r && |Contents| <= r
    {
      capacity
    }

    /** `cbuff_uint8_count`: the stored count is the length of the queue. */
    function Count(): (r: nat)
      reads this
      ensures Valid() ==> r == |Contents|
    {
      count
    }

    /** `cbuff_uint8_is_full`. */
    function IsFull(): (r: bool)
      reads this
      ensures Valid() ==> (r <==> |Contents| == capacity)
    {
      count >= capacity
    }

    /** `cbuff_uint8_is_empty`. */
    function IsEmpty(): (r: bool)
      reads this
      ensures Valid() ==> (r <==> Contents == [])
    {
      count == 0
    }
  }
}
