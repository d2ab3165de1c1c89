/** The frame queue of ffplay.c used by one thread at a time: an array with moving indices that stands for
    an optional frame last shown and the sequence of frames not yet shown. FrameRing.dfy is about two
    threads using it at once. */
module FrameQueues {
  import opened Common

  /** `Unreferenced` is a slot whose frame has been given back. */
  datatype Frame = Unreferenced | Frame(id: int, serial: int, pos: int)

  const FRAME_QUEUE_SIZE := 16

  /** `n` consecutive slots of the ring, starting at `start`. */
  function Window(ring: seq<Frame>, start: nat, n: nat): (r: seq<Frame>)
    requires start < |ring| && n <= |ring|
    ensures |r| == n
  {
    if start + n <= |ring| then ring[start..start + n] else ring[start..] + ring[..start + n - |ring|]
  }

  function Wrap(i: int, max: int): int { if i < max then i else i - max }

  /** The source's modulo arithmetic on slots. */
  lemma ModuloWraps(start: nat, k: nat, max: nat)
    requires start < max && k <= max
    ensures (start + k) % max == Wrap(start + k, max)
  {
    var (q, m) := ((start + k) / max, (start + k) % max);
    assert start + k == q * max + m && 0 <= m < max;
    assert q >= 2 ==> q * max >= 2 * max;
    assert q == 0 || q == 1;
  }

  lemma WindowAt(ring: seq<Frame>, start: nat, n: nat, k: nat)
    requires start < |ring| && k < n <= |ring|
    ensures 0 <= Wrap(start + k, |ring|) < |ring| && Window(ring, start, n)[k] == ring[Wrap(start + k, |ring|)]
  {
  }

  lemma WindowGrows(ring: seq<Frame>, start: nat, n: nat)
    requires start < |ring| && n < |ring|
    ensures 0 <= Wrap(start + n, |ring|) < |ring|
    ensures Window(ring, start, n + 1) == Window(ring, start, n) + [ring[Wrap(start + n, |ring|)]]
  {
  }

  lemma WindowShrinks(ring: seq<Frame>, start: nat, n: nat, blank: Frame)
    requires start < |ring| && 0 < n <= |ring|
    ensures 0 <= Wrap(start + 1, |ring|) < |ring|
    ensures Window(ring[start := blank], Wrap(start + 1, |ring|), n - 1) == Window(ring, start, n)[1..]
  {
  }

  lemma WindowIgnores(ring: seq<Frame>, start: nat, n: nat, frame: Frame)
    requires start < |ring| && n < |ring|
    ensures 0 <= Wrap(start + n, |ring|) < |ring|
    ensures Window(ring[Wrap(start + n, |ring|) := frame], start, n) == Window(ring, start, n)
  {
  }

  class FrameQueue {
    const queue: array<Frame>
    var rindex: int
    var windex: int
    var size: int
    const maxSize: int
    const keepLast: bool
    var rindexShown: int

    ghost predicate Valid()
      reads this, queue
    {
      && 0 < maxSize <= queue.Length == FRAME_QUEUE_SIZE
      && 0 <= rindex < maxSize && 0 <= windex < maxSize
      && 0 <= rindexShown <= 1 && rindexShown <= size <= maxSize
      && (rindexShown == 1 ==> keepLast)
      && windex == Wrap(rindex + size, maxSize)
    }

    /** The frames in the ring, oldest first. */
    ghost function InRing(): (r: seq<Frame>)
      requires Valid()
      reads this, queue
    {
      Window(queue[..maxSize], rindex, size)
    }

    /** The frame shown last, kept in the ring so that it can be shown again. */
    ghost function LastShown(): Option<Frame>
      requires Valid()
      reads this, queue
    {
      if rindexShown == 1 then Some(InRing()[0]) else None
    }

    /** The frames not shown yet. */
    ghost function Waiting(): seq<Frame>
      requires Valid()
      reads this, queue
    {
      InRing()[rindexShown..]
    }

    constructor Init(maxSize: int, keepLast: bool)
      requires maxSize > 0
      ensures Valid() && this.keepLast == keepLast
      ensures this.maxSize == (if maxSize < FRAME_QUEUE_SIZE then maxSize else FRAME_QUEUE_SIZE)
      ensures LastShown() == None && Waiting() == [] && fresh(queue)
    {
      queue := new Frame[FRAME_QUEUE_SIZE](_ => Unreferenced);
      rindex, windex, size, rindexShown := 0, 0, 0, 0;
      this.maxSize := if maxSize < FRAME_QUEUE_SIZE then maxSize else FRAME_QUEUE_SIZE;
      this.keepLast := keepLast;
    }

    /** The slot the next frame goes into; None while the ring is full (the caller sleeps) or once the packet queue
        has been aborted. */
    method PeekWritable(abortRequest: bool) returns (slot: Option<int>)
      requires Valid()
      ensures slot.None? <==> abortRequest || |Waiting()| + (if LastShown().Some? then 1 else 0) == maxSize
      ensures slot.Some? ==> slot.value == windex
    {
      if size >= maxSize || abortRequest { return None; }
      slot := Some(windex);
    }

    /** The caller fills the slot it was given. */
    method Fill(frame: Frame)
      requires Valid() && size < maxSize
      modifies queue
      ensures Valid() && queue[windex] == frame
      ensures Waiting() == old(Waiting()) && LastShown() == old(LastShown())
    {
      ghost var before := queue[..maxSize];
      queue[windex] := frame;
      assert queue[..maxSize] == before[windex := frame];
      WindowIgnores(before, rindex, size, frame);
    }

    /** frame_queue_push appends the frame in the writable slot. */
    method Push()
      requires Valid() && size < maxSize
      modifies this`windex, this`size
      ensures Valid()
      ensures Waiting() == old(Waiting()) + [old(queue[windex])] && LastShown() == old(LastShown())
    {
      WindowGrows(queue[..maxSize], rindex, size);
      windex := windex + 1;
      if windex == maxSize { windex := 0; }
      size := size + 1;
    }

    /** frame_queue_nb_remaining counts the frames not shown yet. */
    method NbRemaining() returns (n: int)
      requires Valid()
      ensures n == |Waiting()|
    {
      n := size - rindexShown;
    }

    method Peek() returns (frame: Frame)
      requires Valid() && Waiting() != []
      ensures frame == Waiting()[0]
    {
      WindowAt(queue[..maxSize], rindex, size, rindexShown);
      ModuloWraps(rindex, rindexShown, maxSize);
      frame := queue[(rindex + rindexShown) % maxSize];
    }

    method PeekNext() returns (frame: Frame)
      requires Valid() && |Waiting()| > 1
      ensures frame == Waiting()[1]
    {
      WindowAt(queue[..maxSize], rindex, size, rindexShown + 1);
      ModuloWraps(rindex, rindexShown + 1, maxSize);
      frame := queue[(rindex + rindexShown + 1) % maxSize];
    }

    method PeekLast() returns (frame: Frame)
      requires Valid()
      ensures frame ==
        if LastShown().Some? then LastShown().value
        else if Waiting() != [] then Waiting()[0] else queue[rindex]
    {
      frame := queue[rindex];
    }

    /** frame_queue_next: the first waiting frame has been shown; with keep_last it becomes the last shown. */
    method Next()
      requires Valid() && Waiting() != []
      modifies this`rindexShown, this`rindex, this`size, queue
      ensures Valid()
      ensures Waiting() == old(Waiting())[1..]
      ensures LastShown() == if keepLast then Some(old(Waiting())[0]) else None
      ensures (keepLast && old(LastShown()) == None) || queue[old(rindex)] == Unreferenced
    {
      if keepLast && rindexShown == 0 {
        rindexShown := 1;
        return;
      }
      DropHead();
    }

    /** The head slot is given back. */
    method DropHead()
      requires Valid() && size > rindexShown
      modifies this`rindex, this`size, queue
      ensures Valid() && InRing() == old(InRing())[1..] && queue[old(rindex)] == Unreferenced
    {
      ghost var before := queue[..maxSize];
      queue[rindex] := Unreferenced;
      assert queue[..maxSize] == before[rindex := Unreferenced];
      WindowShrinks(before, rindex, size, Unreferenced);
      rindex := rindex + 1;
      if rindex == maxSize { rindex := 0; }
      size := size - 1;
    }

    /** frame_queue_prev puts the last shown frame back in front. */
    method Prev() returns (ret: int)
      requires Valid()
      modifies this`rindexShown
      ensures Valid() && LastShown() == None
      ensures ret == (if old(LastShown()).Some? then 1 else 0)
      ensures Waiting() == (if old(LastShown()).Some? then [old(LastShown()).value] else []) + old(Waiting())
    {
      ret := rindexShown;
      rindexShown := 0;
    }

    /** The file position of the last shown frame, unless a seek has made it stale. */
    method LastPos(serial: int) returns (pos: int)
      requires Valid()
      ensures pos == match LastShown()
                     case Some(Frame(_, s, p)) => if s == serial then p else -1
                     case _ => -1
    {
      match queue[rindex]
      case Frame(_, s, p) => pos := if rindexShown != 0 && s == serial then p else -1;
      case Unreferenced => pos := -1;
    }
  }
}
