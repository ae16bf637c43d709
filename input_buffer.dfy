// The keyboard input queue: a 256-slot circular byte buffer whose `head`
// (write) and `tail` (read) cursors run modulo 256, one slot always left empty
// so that `head == tail` means empty; the non-blocking read; and the line
// reader that drains it.
module Input {
  import opened Machine

  /** `INPUT_BUFFER_SIZE`. */
  const SIZE := 256
  /** Bytes the queue can hold: one slot is sacrificed to tell full from empty. */
  const CAPACITY := SIZE - 1

  /** What `getc_nonblock` answers when the queue is empty. */
  const EMPTY := -1

  /** The queue's contents after `input_put(c)`: drop-newest when full. */
  function Enqueue(q: seq<int8>, c: int8): (r: seq<int8>)
    // nothing queued is lost or reordered, and the queue never outgrows its capacity
    ensures |q| <= |r| && r[..|q|] == q && (|q| <= CAPACITY ==> |r| <= CAPACITY)
    // the new byte is kept exactly when there is room for it
    ensures |r| == |q| + 1 <==> |q| < CAPACITY
    ensures |r| == |q| + 1 ==> r[|q|] == c
  {
    if |q| < CAPACITY then q + [c] else q
  }

  /** The queue's contents after a run of `input_put` calls. */
  function EnqueueAll(q: seq<int8>, xs: seq<int8>): seq<int8>
    decreases |xs|
  {
    if xs == [] then q else EnqueueAll(Enqueue(q, xs[0]), xs[1..])
  }

  function Min(a: int, b: int): int { if a <= b then a else b }

  /** Bytes put into a queue holding `q` are kept in arrival order until it
      is full; every byte that arrives after that is lost. */
  lemma {:induction false} EnqueueAllKeepsPrefix(q: seq<int8>, xs: seq<int8>)
    requires |q| <= CAPACITY
    ensures EnqueueAll(q, xs) == q + xs[..Min(|xs|, CAPACITY - |q|)]
    decreases |xs|
  {
    if xs != [] {
      var q' := Enqueue(q, xs[0]);
      EnqueueAllKeepsPrefix(q', xs[1..]);
      if |q| < CAPACITY {
        var k := Min(|xs|, CAPACITY - |q|);
        assert q' == q + [xs[0]] && Min(|xs| - 1, CAPACITY - |q'|) == k - 1;
        AppendAssoc(q, [xs[0]], xs[1..][..k - 1]);
        HeadThenPrefix(xs, k);
      } else {
        assert q' == q && xs[..Min(|xs|, CAPACITY - |q|)] == [];
      }
    }
  }

  lemma HeadThenPrefix<T>(xs: seq<T>, k: nat)
    requires 1 <= k <= |xs|
    ensures [xs[0]] + xs[1..][..k - 1] == xs[..k]
  {
  }

  /** Putting `SIZE` bytes (one more than the capacity) into the empty queue
      keeps the first `CAPACITY` of them, which then come out in order. */
  lemma OverflowDropsNewest(xs: seq<int8>)
    requires |xs| == SIZE
    ensures EnqueueAll([], xs) == xs[..CAPACITY]
  {
    EnqueueAllKeepsPrefix([], xs);
  }

  /** The values `readline` keeps from what it dequeues: every -1 is taken
      for "nothing yet" and skipped. */
  function Kept(vals: seq<int8>): seq<int8>
    decreases |vals|
  {
    if vals == [] then []
    else Kept(vals[..|vals| - 1]) + (if vals[|vals| - 1] == EMPTY then [] else [vals[|vals| - 1]])
  }

  /** `readline` keeps every dequeued value except -1, and no other. */
  lemma {:induction false} KeptDropsOnlyEmpty(vals: seq<int8>)
    ensures |Kept(vals)| <= |vals|
    ensures forall v :: v in Kept(vals) <==> v in vals && v != EMPTY
    // each other value is kept as often as it was dequeued
    ensures multiset(Kept(vals)) == multiset(vals)[EMPTY := 0]
    decreases |vals|
  {
    if vals != [] {
      var init := vals[..|vals| - 1];
      KeptDropsOnlyEmpty(init);
      assert vals == init + [vals[|vals| - 1]];
    }
  }

  /** Position of the first newline of `q`. */
  function NewlineIndex(q: seq<int8>): (k: nat)
    requires NEWLINE in q
    ensures k < |q| && q[k] == NEWLINE && NEWLINE !in q[..k]
    decreases |q|
  {
    if q[0] == NEWLINE then 0
    else
      var k := NewlineIndex(q[1..]);
      assert q[..k + 1] == [q[0]] + q[1..][..k];
      k + 1
  }

  /** The line `readline` assembles from the queue contents `q`, before
      truncation: the kept bytes in front of the first newline. */
  function Line(q: seq<int8>): (l: seq<int8>)
    requires NEWLINE in q
    // made of the bytes in front of the first newline, every -1 among them removed
    ensures |l| <= NewlineIndex(q)
    ensures forall v :: v in l <==> v in q[..NewlineIndex(q)] && v != EMPTY
  {
    KeptDropsOnlyEmpty(q[..NewlineIndex(q)]);
    Kept(q[..NewlineIndex(q)])
  }

  /** Each byte in front of the first newline other than -1 is in the line
      as often as it was queued. */
  lemma LineKeepsEachByte(q: seq<int8>)
    requires NEWLINE in q
    ensures multiset(Line(q)) == multiset(q[..NewlineIndex(q)])[EMPTY := 0]
  {
    KeptDropsOnlyEmpty(q[..NewlineIndex(q)]);
  }

  /** The line holds neither the newline that ends it nor a -1, and is no
      longer than the bytes in front of the first newline. */
  lemma LineExcludesTerminators(q: seq<int8>)
    requires NEWLINE in q
    ensures NEWLINE !in Line(q) && EMPTY !in Line(q)
    ensures |Line(q)| <= NewlineIndex(q)
  {
    KeptDropsOnlyEmpty(q[..NewlineIndex(q)]);
  }

  /** Only what precedes the first newline makes up the line. */
  lemma LineIgnoresLater(q: seq<int8>, rest: seq<int8>)
    requires NEWLINE in q
    ensures NEWLINE in q + rest && Line(q + rest) == Line(q)
  {
    var k := NewlineIndex(q);
    assert (q + rest)[k] == NEWLINE;
    assert (q + rest)[..k] == q[..k];
    NewlineIndexUnique(q + rest, k);
  }

  lemma NewlineIndexUnique(q: seq<int8>, m: nat)
    requires m < |q| && q[m] == NEWLINE && NEWLINE !in q[..m]
    ensures NewlineIndex(q) == m
  {
  }

  /** Number of bytes between the cursors: `(head - tail) mod SIZE`. */
  function Count(head: int, tail: int): int
  {
    if tail <= head then head - tail else head + SIZE - tail
  }

  /** The slot `i` places after `tail`, for `i < SIZE`. */
  function Slot(tail: int, i: int): int
  {
    if tail + i < SIZE then tail + i else tail + i - SIZE
  }

  /** The cursor arithmetic of input_buffer.c, in terms of the two functions above. */
  lemma CursorArithmetic(head: int, tail: int)
    requires 0 <= head < SIZE && 0 <= tail < SIZE
    ensures Count(head, tail) == (head - tail) % SIZE <= CAPACITY
    ensures (head + 1) % SIZE == Slot(head, 1)
    ensures (tail + 1) % SIZE == Slot(tail, 1)
  {
  }

  /** What one more call of `getc_nonblock` inside `readline` dequeues,
      while the first newline of the queue contents `q` is still queued. */
  lemma ReadStep(q: seq<int8>, m: nat)
    requires NEWLINE in q && m <= NewlineIndex(q)
    ensures q[m..] != [] && q[m..][0] == q[m] && q[m..][1..] == q[m + 1..]
    ensures q[m] == NEWLINE ==> Kept(q[..m]) == Line(q) && m + 1 == NewlineIndex(q) + 1
    ensures q[m] != NEWLINE ==> m + 1 <= NewlineIndex(q)
    ensures Kept(q[..m + 1]) == Kept(q[..m]) + (if q[m] == EMPTY then [] else [q[m]])
  {
    assert q[..m + 1][..m] == q[..m];
  }

  /** The input queue (`buffer`, `head`, `tail` of input_buffer.c). */
  class InputBuffer {
    var buffer: array<int8>
    var head: int
    var tail: int
    /** The queued bytes, oldest first. */
    ghost var Contents: seq<int8>

    ghost predicate Valid()
      reads this, buffer
    {
      buffer.Length == SIZE &&
      0 <= head < SIZE && 0 <= tail < SIZE &&
      |Contents| == Count(head, tail) &&
      forall i {:trigger buffer[Slot(tail, i)]} :: 0 <= i < |Contents| ==> Contents[i] == buffer[Slot(tail, i)]
    }

    /** The statically initialised queue: zeroed storage, both cursors at 0. */
    constructor ()
      ensures Valid() && fresh(buffer)
      ensures head == 0 && tail == 0 && Contents == []
    {
      buffer := new int8[SIZE](_ => 0);
      head, tail := 0, 0;
      Contents := [];
    }

    /** `input_put(c)`. */
    method Put(c: int8)
      requires Valid()
      modifies this, buffer
      ensures Valid() && buffer == old(buffer)
      ensures Contents == Enqueue(old(Contents), c)
      // the queue is full exactly when advancing head would meet tail
      ensures ((old(head) + 1) % SIZE == old(tail)) <==> |old(Contents)| == CAPACITY
      ensures (old(head) + 1) % SIZE != old(tail) ==>
        buffer[old(head)] == c && head == (old(head) + 1) % SIZE
      ensures (old(head) + 1) % SIZE == old(tail) ==> head == old(head) && buffer[..] == old(buffer[..])
      ensures tail == old(tail)
      ensures forall i :: 0 <= i < SIZE && i != old(head) ==> buffer[i] == old(buffer[i])
    {
      CursorArithmetic(head, tail);
      var next := (head + 1) % SIZE;
      if next != tail {
        buffer[head] := c;
        head := next;
        Contents := Contents + [c];
      }
    }

    /** `getc_nonblock()`: the oldest byte, promoted from signed `char` to
        `int`, or -1 when the queue is empty. */
    method GetcNonblock() returns (r: int)
      requires Valid()
      modifies this
      ensures Valid() && head == old(head) && buffer == old(buffer)
      ensures old(Contents) == [] ==> r == EMPTY && Contents == [] && tail == old(tail)
      ensures old(Contents) != [] ==>
        r == old(Contents)[0] && Contents == old(Contents)[1..] &&
        r == buffer[old(tail)] && tail == (old(tail) + 1) % SIZE
    {
      CursorArithmetic(head, tail);
      if head == tail {
        return EMPTY;
      }
      r := buffer[Slot(tail, 0)];
      forall i | 0 <= i < |Contents| - 1
        ensures Contents[1..][i] == buffer[Slot(Slot(tail, 1), i)]
      {
        assert buffer[Slot(tail, i + 1)] == Contents[i + 1];
      }
      tail := (tail + 1) % SIZE;
      Contents := Contents[1..];
    }

    /** `readline(out, max)` once the terminating newline has been queued:
        it consumes everything up to and including the first newline, keeps
        at most `max - 1` bytes of the line and ends them with a NUL. */
    method Readline(out: array<int8>, max: int) returns (count: int)
      requires Valid() && NEWLINE in Contents
      requires 1 <= max <= out.Length
      requires out != buffer
      modifies this, out
      ensures Valid() && head == old(head)
      ensures Contents == old(Contents)[NewlineIndex(old(Contents)) + 1..]
      ensures count == Min(|Line(old(Contents))|, max - 1)
      ensures out[..count] == Line(old(Contents))[..count]
      ensures out[count] == 0
      ensures forall j :: count < j < out.Length ==> out[j] == old(out[j])
    {
      ghost var q := Contents;
      ghost var n := NewlineIndex(q);
      ghost var m := 0;        // values dequeued so far
      ghost var kept := [];    // the values other than -1 among them
      count := 0;
      while true
        invariant Valid() && head == old(head) && buffer == old(buffer)
        invariant m <= n && Contents == q[m..] && kept == Kept(q[..m])
        invariant 0 <= count < max && count == Min(|kept|, max - 1)
        invariant forall j :: 0 <= j < count ==> out[j] == kept[j]
        invariant forall j :: count <= j < out.Length ==> out[j] == old(out[j])
        decreases |Contents|
      {
        ReadStep(q, m);
        var c := GetcNonblock();
        m := m + 1;
        if c == EMPTY {
          continue;
        }
        if c == NEWLINE {
          out[count] := 0;
          assert out[..count] == Line(q)[..count];
          return count;
        }
        kept := kept + [c];
        if count < max - 1 {
          out[count] := c;
          count := count + 1;
        }
      }
    }
  }

  /** `Kept` of three values. */
  lemma KeptOfLiteral(a: int8, b: int8, c: int8)
    ensures Kept([a, b, c]) ==
      (if a == EMPTY then [] else [a]) + (if b == EMPTY then [] else [b]) + (if c == EMPTY then [] else [c])
  {
    assert [a, b, c][..2] == [a, b];
    assert [a, b][..1] == [a];
    assert [a][..0] == [];
    assert Kept([a]) == if a == EMPTY then [] else [a];
  }

  /** Bytes without -1 are all kept. */
  lemma {:induction false} KeptWithoutEmpty(xs: seq<int8>)
    requires EMPTY !in xs
    ensures Kept(xs) == xs
    decreases |xs|
  {
    if xs != [] {
      KeptWithoutEmpty(xs[..|xs| - 1]);
      assert xs[|xs| - 1] in xs;
    }
  }

  /** The line of bytes queued before a single newline. */
  lemma LineOfTerminated(xs: seq<int8>)
    requires NEWLINE !in xs
    ensures NEWLINE in xs + [NEWLINE] && Line(xs + [NEWLINE]) == Kept(xs)
  {
    var q := xs + [NEWLINE];
    assert q[|xs|] == NEWLINE && q[..|xs|] == xs;
    NewlineIndexUnique(q, |xs|);
  }

  /** The bytes `readline` leaves in `out` when it returns `count`: the line
      and its terminating NUL. */
  lemma Terminated(out: seq<int8>, count: nat, l: seq<int8>)
    requires count < |out| && |l| == count && out[..count] == l && out[count] == 0
    ensures out[..count + 1] == l + [0]
  {
    assert out[..count + 1] == out[..count] + [out[count]];
  }

  /** A fresh queue after `input_put` of each of `xs` in turn. */
  method PutAll(xs: seq<int8>) returns (ib: InputBuffer)
    requires |xs| <= CAPACITY
    ensures fresh(ib) && fresh(ib.buffer) && ib.Valid() && ib.Contents == xs
  {
    ib := new InputBuffer();
    for i := 0 to |xs|
      invariant fresh(ib) && fresh(ib.buffer) && ib.Valid() && ib.Contents == xs[..i]
    {
      ib.Put(xs[i]);
      assert xs[..i + 1] == xs[..i] + [xs[i]];
    }
  }

  /** A byte 0xFF queued inside a line reads back as -1, the value that means
      "queue empty", so `readline` drops it: "h", 0xFF, "i" and a newline put
      into the queue give the line "hi". */
  method ByteFFIsLost() returns (count: int, line: seq<int8>)
    ensures count == 2 && line == ['h' as int8, 'i' as int8, 0]
  {
    var queued: seq<int8> := ['h' as int8, -1, 'i' as int8];
    var ib := PutAll(queued + [NEWLINE]);
    LineOfTerminated(queued);
    KeptOfLiteral('h' as int8, -1, 'i' as int8);
    var out := new int8[SIZE];
    count := ib.Readline(out, SIZE);
    Terminated(out[..], count, ['h' as int8, 'i' as int8]);
    line := out[..count + 1];
  }

  /** `readline` with room for `max - 1 == 2` bytes keeps the first two of
      "abcd" and still consumes the whole line: the queue is empty after. */
  method TruncatedLine() returns (count: int, line: seq<int8>, next: int)
    ensures count == 2 && line == ['a' as int8, 'b' as int8, 0] && next == EMPTY
  {
    var queued: seq<int8> := ['a' as int8, 'b' as int8, 'c' as int8, 'd' as int8];
    var ib := PutAll(queued + [NEWLINE]);
    LineOfTerminated(queued);
    KeptWithoutEmpty(queued);
    var out := new int8[3];
    count := ib.Readline(out, 3);
    Terminated(out[..], count, queued[..2]);
    line := out[..];
    next := ib.GetcNonblock();
  }
}
