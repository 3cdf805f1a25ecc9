/**
 * What the three ring-buffer variants have in common: the byte type they
 * store, an optional result for the operations that may fail to produce a
 * byte, and the abstract queue that a ring of storage slots represents.
 *
 * A queue of `n` bytes whose oldest byte sits in slot `start` of a ring of
 * `|s|` slots holds `s[start]`, `s[start + 1]`, ... wrapping round to
 * `s[0]` after the last slot; `Window(s, start, n)` is that queue.  The
 * lemmas below say what writing one slot past the end (an enqueue) and
 * stepping `start` forward (a dequeue) do to the queue.
 */
module Ring {

  /** One byte of storage, as C's `uint8_t`. */
  newtype uint8 = x: int | 0 <= x < 0x100

  /** The outcome of an operation that either yields a value or fails. */
  datatype Option<T> = None | Some(value: T)

  /**
   * A position less than two turns round a ring of `m` slots, brought back
   * to the slot it names: `x` itself on the first turn, `x - m` on the second.
   */
  function Wrap(x: nat, m: nat): nat
  {
    if x < m then x else x - m
  }

  /** Reduction of `x` modulo `m` when `x` is at most three turns of the ring. */
  lemma ModSmall(x: nat, m: nat)
    requires 0 < m && x < 3 * m
    ensures x % m == if x < m then x else if x < 2 * m then x - m else x - 2 * m
  {
  }

  /** On the positions it is meant for, `Wrap` is C's `x % m`. */
  lemma WrapIsMod(x: nat, m: nat)
    requires x < 2 * m
    ensures Wrap(x, m) < m
    ensures Wrap(x, m) == x % m
  {
    ModSmall(x, m);
  }

  /** The queue held in `n` consecutive ring slots of `s` from slot `start`, oldest first. */
  ghost function Window(s: seq<uint8>, start: nat, n: nat): (w: seq<uint8>)
    requires start < |s| && n <= |s|
    ensures |w| == n
  {
    seq(n, i requires 0 <= i < n => s[Wrap(start + i, |s|)])
  }

  /**
   * Writing `b` into the first slot past a queue that is not full appends
   * `b`, and leaves the bytes already queued where they are.
   */
  lemma {:induction false} WindowPush(s: seq<uint8>, start: nat, n: nat, b: uint8)
    requires start < |s| && n < |s|
    ensures Window(s[Wrap(start + n, |s|) := b], start, n + 1) == Window(s, start, n) + [b]
  {
    var s' := s[Wrap(start + n, |s|) := b];
    var w, w' := Window(s, start, n), Window(s', start, n + 1);
    forall i | 0 <= i < n
      ensures w'[i] == w[i]
    {
      assert Wrap(start + i, |s|) != Wrap(start + n, |s|);
    }
    assert w'[n] == b;
    assert w' == w + [b];
  }

  /** Stepping the start slot forward removes exactly the oldest byte. */
  lemma {:induction false} WindowPop(s: seq<uint8>, start: nat, n: nat)
    requires start < |s| && 0 < n <= |s|
    ensures Window(s, Wrap(start + 1, |s|), n - 1) == Window(s, start, n)[1..]
  {
    var next := Wrap(start + 1, |s|);
    var w, w' := Window(s, start, n), Window(s, next, n - 1);
    forall i | 0 <= i < n - 1
      ensures w'[i] == w[i + 1]
    {
      assert Wrap(next + i, |s|) == Wrap(start + (i + 1), |s|);
    }
    assert w' == w[1..];
  }

  /**
   * On a full ring the slot past the end is the start slot itself: writing
   * `b` there and stepping the start forward drops the oldest byte and
   * appends `b`, so the queue stays full.
   */
  lemma {:induction false} WindowRotate(s: seq<uint8>, start: nat, b: uint8)
    requires start < |s|
    ensures Window(s[start := b], Wrap(start + 1, |s|), |s|) == Window(s, start, |s|)[1..] + [b]
  {
    var next := Wrap(start + 1, |s|);
    assert Wrap(next + (|s| - 1), |s|) == start;
    WindowPush(s, next, |s| - 1, b);
    WindowPop(s, start, |s|);
  }

  /**
   * One overwriting enqueue, full or not: `b` goes into the slot past the
   * end, and on a full ring, where that slot is the start slot, the start
   * steps forward.  The queue becomes the old one, less its oldest byte
   * when the ring was full, followed by `b`.
   */
  lemma {:induction false} WindowOverwrite(s: seq<uint8>, start: nat, n: nat, b: uint8)
    requires start < |s| && n <= |s|
    ensures Window(s[Wrap(start + n, |s|) := b],
                   if n == |s| then Wrap(start + 1, |s|) else start,
                   if n == |s| then n else n + 1)
         == (if n == |s| then Window(s, start, n)[1..] else Window(s, start, n)) + [b]
  {
    if n == |s| {
      WindowRotate(s, start, b);
    } else {
      WindowPush(s, start, n, b);
    }
  }

  /**
   * The byte at position `k` of a queue is the one in slot `Wrap(start + k, |s|)`.
   * It only unfolds `Window` at one position, but the index operations call
   * it because the verifier does not instantiate the comprehension there by itself.
   */
  lemma WindowAt(s: seq<uint8>, start: nat, n: nat, k: nat)
    requires start < |s| && n <= |s| && k < n
    ensures Window(s, start, n)[k] == s[Wrap(start + k, |s|)]
  {
  }
}
