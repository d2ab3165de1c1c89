/** The frame queue of ffplay.c shared by one writing thread and one reading thread, at the granularity
    of single field updates: windex moves before the locked size++, rindex before the locked size--. */
module FrameRing {

  /** `Blank` is an unreferenced frame. */
  datatype Content = Blank | Picture(id: int)

  /** The writer holds no slot, fills the slot it was given, or has moved windex but not size. `content` is a history
      variable: what it found in the slot or last put into it. */
  datatype Writer = Resting | Writing(slot: nat, content: Content) | Pushed(content: Content)

  /** The reader is between operations, or inside frame_queue_next: before the unref, before rindex++,
      before size--. */
  datatype Reader = Ready | Unref | Advance | Shrink

  /** `held` are the slots the reader keeps pointers to: those it peeked at, or the sample frame that
      audio_buf points into. `pushed` and `popped` are history variables. */
  datatype State = State(
    keepLast: bool,
    slots: seq<Content>,
    rindex: nat,
    windex: nat,
    size: int,
    shown: nat,
    writer: Writer,
    reader: Reader,
    held: set<nat>,
    pushed: seq<Content>,
    popped: nat)

  predicate Init(s: State) {
    && |s.slots| > 0
    && s == State(s.keepLast, s.slots, 0, 0, 0, 0, Resting, Ready, {}, [], 0)
  }

  function Inc(i: nat, max: nat): nat { if i + 1 == max then 0 else i + 1 }

  function Dec(i: nat, max: nat): nat
    requires max > 0
  {
    if i == 0 then max - 1 else i - 1
  }

  /** How far `slot` is ahead of `start` round the ring. */
  function Ahead(start: nat, slot: nat, max: nat): int { if slot >= start then slot - start else slot - start + max }

  /** The slots the peek functions compute lie ahead of rindex by their offset. */
  lemma ModuloIsAhead(start: nat, k: nat, max: nat)
    requires start < max && k < max
    ensures (start + k) % max < max && Ahead(start, (start + k) % max, max) == k
  {
    var (q, m) := ((start + k) / max, (start + k) % max);
    assert start + k == q * max + m && 0 <= m < max;
    assert q >= 2 ==> q * max >= 2 * max;
    assert q == 0 || q == 1;
  }

  /** `++windex == max_size` wraps to where `k + 1` places ahead is. */
  lemma IncIsAhead(start: nat, i: nat, max: nat)
    requires start < max && i < max
    ensures Inc(i, max) < max
    ensures Ahead(start, Inc(i, max), max) == (if Ahead(start, i, max) + 1 == max then 0 else Ahead(start, i, max) + 1)
  {
  }

  // ---- the writing thread ---------------------------------------------------------------------

  datatype WriterAct = PeekWritable | Fill(content: Content) | Abandon | MoveWindex | RaiseSize

  predicate WriterStep(s: State, a: WriterAct, s': State) {
    match a
    case PeekWritable =>
      && s.writer.Resting? && s.size < |s.slots| && s.windex < |s.slots|
      && s' == s.(writer := Writing(s.windex, s.slots[s.windex]))
    case Fill(content) =>
      && s.writer.Writing? && s.writer.slot < |s.slots|
      && s' == s.(slots := s.slots[s.writer.slot := content], writer := s.writer.(content := content))
    case Abandon => s.writer.Writing? && s' == s.(writer := Resting)
    case MoveWindex =>
      s.writer.Writing? && s' == s.(writer := Pushed(s.writer.content), windex := Inc(s.windex, |s.slots|))
    case RaiseSize =>
      && s.writer.Pushed? && 0 < |s.slots| && s.windex < |s.slots|
      && s' == s.(writer := Resting, size := s.size + 1, pushed := s.pushed + [s.writer.content])
  }

  // ---- the reading thread ---------------------------------------------------------------------

  /** Undisplayed frames, as frame_queue_nb_remaining computes them. */
  function Remaining(s: State): int { s.size - s.shown }

  function Last(s: State): nat { s.rindex }
  function Current(s: State): nat requires |s.slots| > 0 { (s.rindex + s.shown) % |s.slots| }
  function Following(s: State): nat requires |s.slots| > 0 { (s.rindex + s.shown + 1) % |s.slots| }

  /** `retain`: the caller goes on using the frame it has just stepped past (only done with keep_last). */
  datatype ReaderAct = Peek | PeekNext | PeekLastPos | Forget | Next(retain: bool) | Prev | GoOn

  predicate ReaderStep(s: State, a: ReaderAct, s': State)
    requires |s.slots| > 0
  {
    if !s.reader.Ready? then a.GoOn? && InsideNext(s, s')
    else
      match a
      case Peek => Remaining(s) > 0 && s' == s.(held := s.held + {Last(s), Current(s)})
      case PeekNext => Remaining(s) > 1 && s' == s.(held := s.held + {Following(s)})
      case PeekLastPos => s.shown != 0 && s' == s.(held := s.held + {Last(s)})
      case Forget => s' == s.(held := {})
      case Next(retain) =>
        && Remaining(s) > 0 && (retain ==> s.keepLast)
        && var held := if retain then {Current(s)} else {};
           s' == if s.keepLast && s.shown == 0 then s.(shown := 1, held := held) else s.(reader := Unref, held := held)
      case Prev => s' == s.(shown := 0)
      case GoOn => false
  }

  predicate InsideNext(s: State, s': State) {
    match s.reader
    case Ready => false
    case Unref => s.rindex < |s.slots| && s' == s.(reader := Advance, slots := s.slots[s.rindex := Blank])
    case Advance => s' == s.(reader := Shrink, rindex := Inc(s.rindex, |s.slots|), popped := s.popped + 1)
    case Shrink => s' == s.(reader := Ready, size := s.size - 1)
  }

  ghost predicate NextState(s: State, s': State) {
    && |s.slots| > 0
    && ((exists a: WriterAct :: WriterStep(s, a, s')) || (exists a: ReaderAct :: ReaderStep(s, a, s')))
  }

  ghost predicate Goes(run: seq<State>, i: nat)
    requires 0 < i < |run|
  {
    NextState(run[i - 1], run[i])
  }

  ghost predicate IsRun(run: seq<State>) {
    && run != []
    && Init(run[0])
    && forall i :: 0 < i < |run| ==> Goes(run, i)
  }

  // ---- the invariant --------------------------------------------------------------------------

  /** Slots in the reader's hands: between rindex++ and size--, one fewer than `size` says. */
  function Occupied(s: State): int { if s.reader.Shrink? then s.size - 1 else s.size }

  /** Frames the writer has made room for: between windex++ and size++, one more than `size` says. */
  function Committed(s: State): int { Occupied(s) + if s.writer.Pushed? then 1 else 0 }

  predicate IndexInv(s: State) {
    && 0 < |s.slots|
    && s.rindex < |s.slots| && s.windex < |s.slots|
    && s.shown <= 1 && (s.shown == 1 ==> s.keepLast)
    && 0 <= Occupied(s) && Committed(s) <= |s.slots|
    && Ahead(s.rindex, s.windex, |s.slots|) == (if Committed(s) == |s.slots| then 0 else Committed(s))
    && s.size + (if s.writer.Pushed? then 1 else 0) <= |s.slots|
    && (s.writer.Writing? ==> s.size < |s.slots| && s.writer.slot == s.windex)
    && s.shown <= Occupied(s)
    && (s.reader.Unref? || s.reader.Advance? ==> Remaining(s) > 0 && (s.keepLast ==> s.shown == 1))
  }

  /** The slot is one of the reader's, `from` places or more past its head. */
  predicate InHand(s: State, slot: nat, from: nat) {
    slot < |s.slots| && from <= Ahead(s.rindex, slot, |s.slots|) < Occupied(s)
  }

  /** Inside frame_queue_next the head slot is the one given back: no pointer to it is kept. */
  predicate HeldInv(s: State) {
    forall h :: h in s.held ==> InHand(s, h, if s.reader.Unref? || s.reader.Advance? then 1 else 0)
  }

  /** The occupied slots hold the pushed frames in order. */
  predicate OrderInv(s: State) {
    && |s.pushed| == s.popped + Occupied(s)
    && forall k: nat :: k < |s.slots| && InHand(s, k, if s.reader.Advance? then 1 else 0)
         ==> s.slots[k] == s.pushed[s.popped + Ahead(s.rindex, k, |s.slots|)]
  }

  /** The writer's slot holds what the writer put there, and the slot that is given back is unreferenced. */
  predicate ContentInv(s: State) {
    && (s.writer.Writing? ==> s.writer.slot < |s.slots| && s.slots[s.writer.slot] == s.writer.content)
    && (s.writer.Pushed? ==> s.windex < |s.slots| && s.slots[Dec(s.windex, |s.slots|)] == s.writer.content)
    && (s.reader.Advance? ==> s.rindex < |s.slots| && s.slots[s.rindex] == Blank)
  }

  predicate Inv(s: State) {
    IndexInv(s) && HeldInv(s) && OrderInv(s) && ContentInv(s)
  }

  lemma FillKeeps(s: State, content: Content, s': State)
    requires Inv(s) && WriterStep(s, Fill(content), s')
    ensures Inv(s')
  {
    assert !InHand(s, s.windex, 0);
  }

  lemma MoveWindexKeeps(s: State, s': State)
    requires Inv(s) && WriterStep(s, MoveWindex, s')
    ensures Inv(s')
  {
    IncIsAhead(s.rindex, s.windex, |s.slots|);
  }

  lemma RaiseSizeKeeps(s: State, s': State)
    requires Inv(s) && WriterStep(s, RaiseSize, s')
    ensures Inv(s')
  {
    assert IndexInv(s') && HeldInv(s');
    RaiseSizeOrder(s, s');
  }

  lemma RaiseSizeOrder(s: State, s': State)
    requires Inv(s) && WriterStep(s, RaiseSize, s')
    ensures OrderInv(s')
  {
    assert Ahead(s.rindex, Dec(s.windex, |s.slots|), |s.slots|) == Occupied(s);
    forall k: nat | k < |s.slots| && InHand(s', k, if s.reader.Advance? then 1 else 0)
      ensures s'.slots[k] == s'.pushed[s'.popped + Ahead(s.rindex, k, |s.slots|)]
    {
      assert k != Dec(s.windex, |s.slots|) ==> InHand(s, k, if s.reader.Advance? then 1 else 0);
    }
  }

  lemma WriterKeeps(s: State, a: WriterAct, s': State)
    requires Inv(s) && WriterStep(s, a, s')
    ensures Inv(s')
  {
    match a
    case Fill(content) => FillKeeps(s, content, s');
    case MoveWindex => MoveWindexKeeps(s, s');
    case RaiseSize => RaiseSizeKeeps(s, s');
    case _ =>
  }

  lemma UnrefKeeps(s: State, s': State)
    requires Inv(s) && InsideNext(s, s') && s.reader.Unref?
    ensures Inv(s')
  {
    assert forall k: nat :: InHand(s', k, 1) ==> k != s.rindex && InHand(s, k, 0);
  }

  lemma AdvanceKeeps(s: State, s': State)
    requires Inv(s) && InsideNext(s, s') && s.reader.Advance?
    ensures Inv(s')
  {
    forall k: nat | k < |s.slots| && k != s.rindex
      ensures Ahead(s'.rindex, k, |s.slots|) == Ahead(s.rindex, k, |s.slots|) - 1
    {
    }
  }

  lemma InsideNextKeeps(s: State, s': State)
    requires Inv(s) && InsideNext(s, s')
    ensures Inv(s')
  {
    match s.reader
    case Unref => UnrefKeeps(s, s');
    case Advance => AdvanceKeeps(s, s');
    case _ =>
  }

  lemma CurrentInHand(s: State)
    requires IndexInv(s) && Remaining(s) > 0
    ensures Last(s) < |s.slots| && Ahead(s.rindex, Last(s), |s.slots|) == 0
    ensures Current(s) < |s.slots| && Ahead(s.rindex, Current(s), |s.slots|) == s.shown
  {
    ModuloIsAhead(s.rindex, s.shown, |s.slots|);
  }

  lemma FollowingInHand(s: State)
    requires IndexInv(s) && Remaining(s) > 1
    ensures Following(s) < |s.slots| && Ahead(s.rindex, Following(s), |s.slots|) == s.shown + 1
  {
    ModuloIsAhead(s.rindex, s.shown + 1, |s.slots|);
  }

  lemma PeekNextKeeps(s: State, s': State)
    requires Inv(s) && s.reader.Ready? && ReaderStep(s, PeekNext, s')
    ensures Inv(s')
  {
    FollowingInHand(s);
  }

  lemma PeekKeeps(s: State, s': State)
    requires Inv(s) && s.reader.Ready? && ReaderStep(s, Peek, s')
    ensures Inv(s')
  {
    CurrentInHand(s);
  }

  lemma NextKeeps(s: State, retain: bool, s': State)
    requires Inv(s) && s.reader.Ready? && ReaderStep(s, Next(retain), s')
    ensures Inv(s')
  {
    CurrentInHand(s);
  }

  lemma ReaderKeeps(s: State, a: ReaderAct, s': State)
    requires Inv(s) && s.reader.Ready? && ReaderStep(s, a, s')
    ensures Inv(s')
  {
    match a
    case Peek => PeekKeeps(s, s');
    case PeekNext => PeekNextKeeps(s, s');
    case Next(retain) => NextKeeps(s, retain, s');
    case _ =>
  }

  lemma {:induction false} RunInv(run: seq<State>, i: nat)
    requires IsRun(run) && i < |run|
    ensures Inv(run[i])
    decreases i
  {
    if i > 0 {
      RunInv(run, i - 1);
      var s, s' := run[i - 1], run[i];
      assert Goes(run, i);
      if a: WriterAct :| WriterStep(s, a, s') {
        WriterKeeps(s, a, s');
      } else {
        var a: ReaderAct :| ReaderStep(s, a, s');
        if s.reader.Ready? { ReaderKeeps(s, a, s'); } else { InsideNextKeeps(s, s'); }
      }
    }
  }

  // ---- what the ring guarantees ---------------------------------------------------------------

  /** Every slot the reader may touch: those it points to, the one it is about to unreference, and those
      its guarded peeks would return now. */
  function ReaderMay(s: State): set<nat>
    requires |s.slots| > 0
  {
    s.held
    + (if s.reader.Unref? || s.shown != 0 then {Last(s)} else {})
    + (if s.reader.Ready? && Remaining(s) > 0 then {Last(s), Current(s)} else {})
    + (if s.reader.Ready? && Remaining(s) > 1 then {Following(s)} else {})
  }

  /** While the writer fills the slot it was given, the reader may touch every slot but that one. */
  lemma SlotIsExclusive(run: seq<State>, i: nat)
    requires IsRun(run) && i < |run| && run[i].writer.Writing?
    ensures |run[i].slots| > 0 && run[i].writer.slot !in ReaderMay(run[i])
  {
    RunInv(run, i);
    var s := run[i];
    if Remaining(s) > 0 { CurrentInHand(s); }
    if Remaining(s) > 1 { FollowingInHand(s); }
  }

  /** A frame the reader points to does not change under it, whichever thread steps. */
  lemma HeldFramesAreStable(run: seq<State>, i: nat, h: nat)
    requires IsRun(run) && i + 1 < |run| && h in run[i].held && h in run[i + 1].held
    ensures h < |run[i].slots| == |run[i + 1].slots| && run[i + 1].slots[h] == run[i].slots[h]
  {
    RunInv(run, i);
    assert Goes(run, i + 1);
  }

  /** The frame the reader peeks at is the next one in the order the writer pushed them, nothing skipped or
      repeated; with a frame last shown, it is the one right after it. */
  lemma ReaderSeesPushOrder(run: seq<State>, i: nat)
    requires IsRun(run) && i < |run| && run[i].reader.Ready? && Remaining(run[i]) > 0
    ensures var s := run[i];
            && 0 < |s.slots| && Current(s) < |s.slots| && Last(s) < |s.slots|
            && s.popped + s.shown < |s.pushed|
            && s.slots[Current(s)] == s.pushed[s.popped + s.shown]
            && s.slots[Last(s)] == s.pushed[s.popped]
  {
    RunInv(run, i);
    CurrentInHand(run[i]);
  }

  /** How many frames the reader has passed: those given back and the one it keeps as last shown. */
  function Position(s: State): nat { s.popped + s.shown }

  /** Stepping to the next frame moves the reader on by one, going back moves it back to the frame last shown, and
      nothing else moves it. */
  lemma ReaderMoves(run: seq<State>, i: nat, a: ReaderAct, s': State)
    requires IsRun(run) && i < |run| && |run[i].slots| > 0 && ReaderStep(run[i], a, s')
    ensures var s := run[i];
      Position(s') - Position(s) ==
        if s.reader.Advance? then 1
        else if s.reader.Ready? && a.Next? && s'.reader.Ready? then 1
        else if s.reader.Ready? && a.Prev? then 0 - s.shown else 0
    ensures run[i].reader.Ready? && a.Next? && !s'.reader.Ready? ==> s'.reader.Unref?
    ensures run[i].reader.Unref? ==> s'.reader.Advance? && s'.slots[run[i].rindex] == Blank
  {
    RunInv(run, i);
  }

  /** Between operations the two threads never both have to wait: the reader has a frame to show or the writer a slot
      to fill, unless the only slot of the ring holds the frame last shown. */
  lemma NobodyStarves(run: seq<State>, i: nat)
    requires IsRun(run) && i < |run| && run[i].reader.Ready? && run[i].writer.Resting?
    ensures var s := run[i];
      Remaining(s) > 0 || (exists s' :: WriterStep(s, PeekWritable, s')) <==> !(|s.slots| == 1 && s.shown == 1)
  {
    RunInv(run, i);
    var s := run[i];
    if s.size < |s.slots| { assert WriterStep(s, PeekWritable, s.(writer := Writing(s.windex, s.slots[s.windex]))); }
  }

  /** Nothing is lost: between operations the frames pushed are those popped and those in the ring. */
  lemma NothingLost(run: seq<State>, i: nat)
    requires IsRun(run) && i < |run| && run[i].reader.Ready?
    ensures |run[i].pushed| == run[i].popped + run[i].size && 0 <= run[i].size <= |run[i].slots|
  {
    RunInv(run, i);
  }
}
