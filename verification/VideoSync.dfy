/** do_video_out of ffmpeg.c: how many times a picture is encoded, with which timestamps, and what is
    counted as duplicated or dropped. Times are reals in units of the encoder time base. */
module VideoSync {
  import opened Common

  datatype SyncMode = Passthrough | Cfr | Vfr | Vscfr | DropTimestamps

  /** lrint in the default rounding mode. */
  function LRint(x: real): int {
    var f := x.Floor;
    var d := x - f as real;
    if d < 0.5 then f else if d > 0.5 then f + 1 else if f % 2 == 0 then f else f + 1
  }

  lemma LRintIsNearest(x: real)
    ensures -0.5 <= LRint(x) as real - x <= 0.5
  {
  }

  /** mid_pred. */
  function Median(a: int, b: int, c: int): int {
    if a > b then (if c > b then (if c > a then a else c) else b)
    else (if b > c then (if c > a then c else a) else b)
  }

  /** Pictures are named by numbers. `encoded` is the history of what the encoder was given. */
  datatype Emission = Emission(pts: int, picture: int)

  datatype Stream = Stream(
    syncOpts: int,
    frameNumber: int,
    maxFrames: int,
    lastDropped: bool,
    lastNb0: (int, int, int),
    lastFrame: Option<int>,
    encoded: seq<Emission>)

  /** What the duration of a picture is taken from: the filter's frame rate and the stream's, as durations in
      ticks, and the packet's duration, which counts when no filters are set and there is an input stream. */
  datatype Timing = Timing(
    filterDuration: Option<real>,
    streamDuration: Option<real>,
    unfiltered: bool,
    packetDuration: real)

  /** What the choice of the sync method depends on when it is left to ffmpeg. `soleStream`: the input is the
      only stream of a file that is read from its start. */
  datatype Format = Format(avi: bool, variableFps: bool, noTimestamps: bool, soleStream: bool, copyTs: bool)

  /** The arguments of one call and the settings it reads. `picture` is None when flushing; encoding stops
      at the recording time, which is reached once sync_opts is `stopAt`. */
  datatype Call = Call(
    picture: Option<int>,
    syncIpts: real,
    timing: Timing,
    videoSync: Option<SyncMode>,
    format: Format,
    dropThreshold: real,
    dtsErrorThreshold: real,
    stopAt: Option<int>)

  function Duration(c: Call): real {
    var t := c.timing;
    var shown := if t.filterDuration.Some? then t.filterDuration.value else 0.0;
    var limited := if t.streamDuration.Some? && t.streamDuration.value < shown then t.streamDuration.value else shown;
    if t.unfiltered && c.picture.Some? && LRint(t.packetDuration) > 0 then LRint(t.packetDuration) as real else limited
  }

  function Mode(c: Call): SyncMode {
    if c.videoSync.Some? then c.videoSync.value
    else if c.format.avi then Vfr
    else if c.format.variableFps then (if c.format.noTimestamps then Passthrough else Vfr)
    else if c.format.soleStream || c.format.copyTs then Vscfr
    else Cfr
  }

  datatype Plan = Plan(nb: int, nb0: int, syncOpts: int)

  /** The sync decision for a picture, before max_frames is applied. */
  function Decide(s: Stream, c: Call): Plan {
    var delta0 := c.syncIpts - s.syncOpts as real;
    var delta := delta0 + Duration(c);
    var clip := delta0 < 0.0 && delta > 0.0 && !Mode(c).Passthrough? && !Mode(c).DropTimestamps?;
    var ipts := if clip then s.syncOpts as real else c.syncIpts;
    var duration := if clip then Duration(c) + delta0 else Duration(c);
    var delta0 := if clip then 0.0 else delta0;
    match Mode(c)
    case Vscfr =>
      if s.frameNumber == 0 && delta0 >= 0.5 then DecideCfr(s, c, duration, 0.0, LRint(ipts))
      else DecideCfr(s, c, delta, delta0, s.syncOpts)
    case Cfr => DecideCfr(s, c, delta, delta0, s.syncOpts)
    case Vfr =>
      if delta <= -0.6 then Plan(0, 0, s.syncOpts)
      else Plan(1, 0, if delta > 0.6 then LRint(ipts) else s.syncOpts)
    case Passthrough => Plan(1, 0, LRint(ipts))
    case DropTimestamps => Plan(1, 0, LRint(ipts))
  }

  function DecideCfr(s: Stream, c: Call, delta: real, delta0: real, syncOpts: int): Plan {
    if c.dropThreshold != 0.0 && delta < c.dropThreshold && s.frameNumber != 0 then Plan(0, 0, syncOpts)
    else if delta < -1.1 then Plan(0, 0, syncOpts)
    else if delta > 1.1 then Plan(LRint(delta), if delta0 > 1.1 then LRint(delta0 - 0.6) else 0, syncOpts)
    else Plan(1, 0, syncOpts)
  }

  /** The plan the call carries out: flushing repeats the usual number of duplicates, and no plan
      exceeds max_frames. */
  function PlanOf(s: Stream, c: Call): Plan {
    var p := if c.picture.None? then
               var m := Median(s.lastNb0.0, s.lastNb0.1, s.lastNb0.2);
               Plan(m, m, s.syncOpts)
             else Decide(s, c);
    var nb := Min(p.nb, s.maxFrames - s.frameNumber);
    Plan(nb, Min(p.nb0, nb), p.syncOpts)
  }

  function One(b: bool): int { if b then 1 else 0 }

  /** Frames of the plan that need no duplicating: the dropped one made good, and the picture itself. */
  function Due(s: Stream, p: Plan): int { One(p.nb0 != 0 && s.lastDropped) + One(p.nb > p.nb0) }

  /** The duplication is taken for a timestamp error and the call gives up. */
  predicate Refused(s: Stream, c: Call) {
    var p := PlanOf(s, c);
    p.nb > Due(s, p) && p.nb as real > c.dtsErrorThreshold * 30.0
  }

  function Dups(s: Stream, c: Call): int {
    var p := PlanOf(s, c);
    if p.nb > Due(s, p) && !Refused(s, c) then p.nb - Due(s, p) else 0
  }

  function Drops(s: Stream, c: Call): int {
    One(PlanOf(s, c).nb0 == 0 && s.lastDropped) + One(Refused(s, c))
  }

  /** The stream once the plan is made and accounted for, before anything is encoded. */
  function Prepared(s: Stream, c: Call): Stream {
    var p := PlanOf(s, c);
    var s' := s.(syncOpts := p.syncOpts, lastNb0 := (p.nb0, s.lastNb0.0, s.lastNb0.1));
    if Refused(s, c) then s' else s'.(lastDropped := p.nb == p.nb0 && c.picture.Some?)
  }

  /** The encoding loop from iteration `i` on; the flag says that it ran to its end. */
  function EmitFrom(s: Stream, c: Call, p: Plan, i: int): (Stream, bool)
    decreases p.nb - i
  {
    if i >= p.nb then (s, true)
    else
      var picture := if i < p.nb0 && s.lastFrame.Some? then s.lastFrame else c.picture;
      if picture.None? || (c.stopAt.Some? && s.syncOpts >= c.stopAt.value) then (s, false)
      else
        EmitFrom(s.(encoded := s.encoded + [Emission(s.syncOpts, picture.value)],
                    syncOpts := s.syncOpts + 1, frameNumber := s.frameNumber + 1), c, p, i + 1)
  }

  /** The loop of the call ran to its end. */
  predicate Completed(s: Stream, c: Call) {
    !Refused(s, c) && EmitFrom(Prepared(s, c), c, PlanOf(s, c), 0).1
  }

  /** The stream after the call. */
  function After(s: Stream, c: Call): Stream {
    if Refused(s, c) then Prepared(s, c)
    else
      var (s', completed) := EmitFrom(Prepared(s, c), c, PlanOf(s, c), 0);
      if completed then s'.(lastFrame := c.picture) else s'
  }

  // ---- the code -------------------------------------------------------------------------------

  /** nb_frames_dup and nb_frames_drop, shared by all output streams. */
  class Counters {
    var dup: int
    var drop: int

    constructor ()
      ensures dup == 0 && drop == 0
    {
      dup, drop := 0, 0;
    }
  }

  class OutputStream {
    var syncOpts: int
    var frameNumber: int
    var maxFrames: int
    var lastDropped: bool
    var lastNb0: (int, int, int)
    var lastFrame: Option<int>
    var encoded: seq<Emission>

    ghost function State(): Stream
      reads this
    {
      Stream(syncOpts, frameNumber, maxFrames, lastDropped, lastNb0, lastFrame, encoded)
    }

    constructor (maxFrames: int)
      ensures State() == Stream(0, 0, maxFrames, false, (0, 0, 0), None, [])
    {
      syncOpts, frameNumber, this.maxFrames, lastDropped := 0, 0, maxFrames, false;
      lastNb0, lastFrame, encoded := (0, 0, 0), None, [];
    }

    method DoVideoOut(c: Call, counters: Counters)
      requires counters as object != this
      modifies this, counters
      ensures State() == After(old(State()), c)
      ensures counters.dup == old(counters.dup) + Dups(old(State()), c)
      ensures counters.drop == old(counters.drop) + Drops(old(State()), c)
    {
      ghost var s0 := State();
      var nb, nb0 := MakePlan(c);
      nb := Min(nb, maxFrames - frameNumber);
      nb0 := Min(nb0, nb);
      ghost var p := PlanOf(s0, c);
      assert p == Plan(nb, nb0, syncOpts);
      lastNb0 := (nb0, lastNb0.0, lastNb0.1);

      var refused := Account(c, nb, nb0, counters);
      if refused {
        return;
      }
      lastDropped := nb == nb0 && c.picture.Some?;

      var completed := Encode(c, nb, nb0, p);
      if completed {
        lastFrame := c.picture;
      }
    }

    /** Duplicated and dropped frames are counted; true when the duplication is refused as too large. */
    method Account(c: Call, nb: int, nb0: int, counters: Counters) returns (refused: bool)
      requires counters as object != this
      modifies counters
      ensures var due := One(nb0 != 0 && lastDropped) + One(nb > nb0);
        && refused == (nb > due && nb as real > c.dtsErrorThreshold * 30.0)
        && counters.dup == old(counters.dup) + (if nb > due && !refused then nb - due else 0)
        && counters.drop == old(counters.drop) + One(nb0 == 0 && lastDropped) + One(refused)
    {
      if nb0 == 0 && lastDropped {
        counters.drop := counters.drop + 1;
      }
      var due := One(nb0 != 0 && lastDropped) + One(nb > nb0);
      if nb > due {
        if nb as real > c.dtsErrorThreshold * 30.0 {
          counters.drop := counters.drop + 1;
          return true;
        }
        counters.dup := counters.dup + nb - due;
      }
      refused := false;
    }

    /** The encoding loop; false when it is left early. */
    method Encode(c: Call, nb: int, nb0: int, ghost p: Plan) returns (completed: bool)
      requires p.nb == nb && p.nb0 == nb0
      modifies this`syncOpts, this`frameNumber, this`encoded
      ensures (State(), completed) == EmitFrom(old(State()), c, p, 0)
    {
      var i := 0;
      while i < nb
        invariant EmitFrom(State(), c, p, i) == EmitFrom(old(State()), c, p, 0)
      {
        var picture := if i < nb0 && lastFrame.Some? then lastFrame else c.picture;
        if picture.None? {
          return false;
        }
        if c.stopAt.Some? && syncOpts >= c.stopAt.value {
          return false;
        }
        encoded := encoded + [Emission(syncOpts, picture.value)];
        syncOpts := syncOpts + 1;
        frameNumber := frameNumber + 1;
        i := i + 1;
      }
      completed := true;
    }

    method FrameDuration(c: Call) returns (duration: real)
      ensures duration == Duration(c)
    {
      duration := 0.0;
      if c.timing.filterDuration.Some? {
        duration := c.timing.filterDuration.value;
      }
      if c.timing.streamDuration.Some? {
        if duration > c.timing.streamDuration.value {
          duration := c.timing.streamDuration.value;
        }
      }
      if c.timing.unfiltered && c.picture.Some? && LRint(c.timing.packetDuration) > 0 {
        duration := LRint(c.timing.packetDuration) as real;
      }
    }

    method SyncMethod(c: Call) returns (formatVideoSync: SyncMode)
      ensures formatVideoSync == Mode(c)
    {
      if c.videoSync.Some? {
        return c.videoSync.value;
      }
      if c.format.avi {
        formatVideoSync := Vfr;
      } else {
        formatVideoSync := if c.format.variableFps then if c.format.noTimestamps then Passthrough else Vfr else Cfr;
      }
      if formatVideoSync == Cfr && c.format.soleStream {
        formatVideoSync := Vscfr;
      }
      if formatVideoSync == Cfr && c.format.copyTs {
        formatVideoSync := Vscfr;
      }
    }

    /** The sync decision; it may move sync_opts. */
    method MakePlan(c: Call) returns (nb: int, nb0: int)
      modifies this`syncOpts
      ensures c.picture.Some? ==> Plan(nb, nb0, syncOpts) == Decide(old(State()), c)
      ensures c.picture.None? ==> nb == nb0 == Median(lastNb0.0, lastNb0.1, lastNb0.2) && syncOpts == old(syncOpts)
    {
      var duration := FrameDuration(c);
      if c.picture.None? {
        nb := Median(lastNb0.0, lastNb0.1, lastNb0.2);
        nb0 := nb;
        return;
      }
      var syncIpts := c.syncIpts;
      var delta0 := syncIpts - syncOpts as real;
      var delta := delta0 + duration;
      nb0 := 0;
      nb := 1;
      var mode := SyncMethod(c);
      if delta0 < 0.0 && delta > 0.0 && mode != Passthrough && mode != DropTimestamps {
        syncIpts := syncOpts as real;
        duration := duration + delta0;
        delta0 := 0.0;
      }
      if mode == Vscfr && frameNumber == 0 && delta0 >= 0.5 {
        delta := duration;
        delta0 := 0.0;
        syncOpts := LRint(syncIpts);
      }
      if mode == Vscfr || mode == Cfr {
        if c.dropThreshold != 0.0 && delta < c.dropThreshold && frameNumber != 0 {
          nb := 0;
        } else if delta < -1.1 {
          nb := 0;
        } else if delta > 1.1 {
          nb := LRint(delta);
          if delta0 > 1.1 {
            nb0 := LRint(delta0 - 0.6);
          }
        }
      } else if mode == Vfr {
        if delta <= -0.6 {
          nb := 0;
        } else if delta > 0.6 {
          syncOpts := LRint(syncIpts);
        }
      } else {
        syncOpts := LRint(syncIpts);
      }
    }
  }

  // ---- the loop in closed form ----------------------------------------------------------------

  /** The picture the loop encodes at iteration `i`: the previous one for the first nb0. */
  function Source(s: Stream, c: Call, p: Plan, i: int): Option<int> {
    if i < p.nb0 && s.lastFrame.Some? then s.lastFrame else c.picture
  }

  /** From `s`, at iteration `i`, to `s'` only encoding happened: consecutive timestamps, each with the
      picture due at its iteration. */
  predicate Encodes(s: Stream, c: Call, p: Plan, i: int, s': Stream) {
    && |s.encoded| <= |s'.encoded| && s'.encoded[..|s.encoded|] == s.encoded
    && var n := |s'.encoded| - |s.encoded|;
       && s' == s.(encoded := s'.encoded, syncOpts := s.syncOpts + n, frameNumber := s.frameNumber + n)
       && forall k :: |s.encoded| <= k < |s'.encoded| ==>
            && s'.encoded[k].pts == s.syncOpts + (k - |s.encoded|)
            && Some(s'.encoded[k].picture) == Source(s, c, p, i + (k - |s.encoded|))
  }

  lemma EncodeOne(s: Stream, c: Call, p: Plan, i: int, s1: Stream, s': Stream)
    requires Source(s, c, p, i).Some? && Encodes(s1, c, p, i + 1, s')
    requires s1 == s.(encoded := s.encoded + [Emission(s.syncOpts, Source(s, c, p, i).value)],
                      syncOpts := s.syncOpts + 1, frameNumber := s.frameNumber + 1)
    ensures Encodes(s, c, p, i, s')
  {
    assert s'.encoded[..|s1.encoded|][|s.encoded|] == s1.encoded[|s.encoded|];
    assert s'.encoded[..|s.encoded|] == s'.encoded[..|s1.encoded|][..|s.encoded|] == s.encoded;
  }

  lemma {:induction false} LoopEncodes(s: Stream, c: Call, p: Plan, i: int)
    ensures var (s', completed) := EmitFrom(s, c, p, i);
      && Encodes(s, c, p, i, s')
      && var n := |s'.encoded| - |s.encoded|;
         if completed then n == (if i < p.nb then p.nb - i else 0) else i + n < p.nb
    decreases p.nb - i
  {
    if i < p.nb {
      var picture := Source(s, c, p, i);
      if picture.Some? && !(c.stopAt.Some? && s.syncOpts >= c.stopAt.value) {
        var s1 := s.(encoded := s.encoded + [Emission(s.syncOpts, picture.value)],
                     syncOpts := s.syncOpts + 1, frameNumber := s.frameNumber + 1);
        LoopEncodes(s1, c, p, i + 1);
        EncodeOne(s, c, p, i, s1, EmitFrom(s1, c, p, i + 1).0);
      }
    }
  }

  /** How many frames the call encodes. */
  function Out(s: Stream, c: Call): int {
    |After(s, c).encoded| - |s.encoded|
  }

  /** What a call does to the stream: it encodes all of its plan, or a part of it when it is cut short. */
  lemma CallEncodes(s: Stream, c: Call)
    ensures var p := PlanOf(s, c);
      && Encodes(Prepared(s, c), c, p, 0, After(s, c).(lastFrame := s.lastFrame))
      && (if Refused(s, c) then Out(s, c) == 0
          else if Completed(s, c) then Out(s, c) == (if p.nb > 0 then p.nb else 0)
          else 0 <= Out(s, c) < p.nb)
  {
    LoopEncodes(Prepared(s, c), c, PlanOf(s, c), 0);
  }

  // ---- conservation of frames -----------------------------------------------------------------

  /** Holds from the start on, for a non-negative max_frames. */
  predicate Sound(s: Stream) {
    s.frameNumber <= s.maxFrames && s.lastNb0.0 >= 0 && s.lastNb0.1 >= 0 && s.lastNb0.2 >= 0
  }

  lemma PlanIsNatural(s: Stream, c: Call)
    requires Sound(s)
    ensures var p := PlanOf(s, c); 0 <= p.nb0 <= p.nb <= s.maxFrames - s.frameNumber
    ensures c.picture.None? ==> PlanOf(s, c).nb == PlanOf(s, c).nb0
  {
  }

  /** frame_number never exceeds max_frames, whatever the mode. */
  lemma CallIsSound(s: Stream, c: Call)
    requires Sound(s)
    ensures Sound(After(s, c))
  {
    PlanIsNatural(s, c);
    CallEncodes(s, c);
  }

  /** Frames the books lose in one call: those of the plan that an early return leaves unencoded; and
      when the call is refused, the picture is written off, but the last one may be written off twice. */
  function Missing(s: Stream, c: Call): int {
    if Refused(s, c) then One(c.picture.Some?) - Drops(s, c)
    else PlanOf(s, c).nb - Out(s, c)
  }

  /** The books of one call. */
  lemma CallBalances(s: Stream, c: Call)
    requires Sound(s)
    ensures One(c.picture.Some?) + Dups(s, c) + One(s.lastDropped)
         == Out(s, c) + Drops(s, c) + One(After(s, c).lastDropped) + Missing(s, c)
  {
    PlanIsNatural(s, c);
    CallEncodes(s, c);
  }

  /** Every frame of the plan has a picture, and the recording time is not reached before the last one. */
  predicate CanFinish(s: Stream, c: Call) {
    var p := PlanOf(s, c);
    p.nb > 0 ==>
      && (c.picture.Some? || s.lastFrame.Some?)
      && (c.stopAt.Some? ==> p.syncOpts + p.nb <= c.stopAt.value)
  }

  lemma {:induction false} LoopFinishes(s: Stream, c: Call, p: Plan, i: int)
    requires c.picture.None? ==> p.nb <= p.nb0
    ensures EmitFrom(s, c, p, i).1 <==>
      i >= p.nb || ((c.picture.Some? || s.lastFrame.Some?)
        && (c.stopAt.Some? ==> s.syncOpts + p.nb - i <= c.stopAt.value))
    decreases p.nb - i
  {
    if i < p.nb {
      var picture := Source(s, c, p, i);
      if picture.Some? && !(c.stopAt.Some? && s.syncOpts >= c.stopAt.value) {
        var s1 := s.(encoded := s.encoded + [Emission(s.syncOpts, picture.value)],
                     syncOpts := s.syncOpts + 1, frameNumber := s.frameNumber + 1);
        LoopFinishes(s1, c, p, i + 1);
      }
    }
  }

  lemma FinishesIfItCan(s: Stream, c: Call)
    requires Sound(s)
    ensures Completed(s, c) <==> !Refused(s, c) && CanFinish(s, c)
  {
    PlanIsNatural(s, c);
    LoopFinishes(Prepared(s, c), c, PlanOf(s, c), 0);
  }

  /** A refused call must bring a picture, and must not find the one before it marked dropped with no repeat
      planned; any other call must be able to finish. */
  predicate KeepsBooks(s: Stream, c: Call) {
    if Refused(s, c) then c.picture.Some? && !(PlanOf(s, c).nb0 == 0 && s.lastDropped) else CanFinish(s, c)
  }

  /** Exactly the calls that keep the books straight. */
  lemma NothingMissing(s: Stream, c: Call)
    requires Sound(s)
    ensures Missing(s, c) == 0 <==> KeepsBooks(s, c)
  {
    PlanIsNatural(s, c);
    CallEncodes(s, c);
    FinishesIfItCan(s, c);
  }

  /** Ticks of the encoder's clock as frames: each picture lasts `duration`. */
  function Lasting(picture: int, syncIpts: real, duration: real, mode: SyncMode, dtsErrorThreshold: real): Call {
    Call(Some(picture), syncIpts, Timing(Some(duration), None, false, 0.0), Some(mode),
         Format(false, false, false, false, false), 0.0, dtsErrorThreshold, None)
  }

  /** A picture that was marked dropped is counted again when the next call is refused. */
  lemma DropCountedTwice() returns (s: Stream, c: Call)
    ensures Sound(s) && Refused(s, c) && c.picture.Some? && s.lastDropped && Drops(s, c) == 2 && Missing(s, c) == -1
  {
    s := Stream(10, 5, 100000, true, (0, 0, 0), Some(1), []);
    c := Lasting(2, 10.0, 1000.0, Cfr, 10.0);
    assert Duration(c) == 1000.0 && Decide(s, c) == Plan(1000, 0, 10);
  }

  /** All output streams, the shared counters, and how many pictures have been handed in. */
  datatype World = World(streams: seq<Stream>, dup: int, drop: int, taken: int)

  datatype Event = Event(stream: nat, call: Call)

  predicate Possible(w: World, e: Event) { e.stream < |w.streams| }

  function Happen(w: World, e: Event): World {
    if !Possible(w, e) then w
    else
      var s := w.streams[e.stream];
      World(w.streams[e.stream := After(s, e.call)], w.dup + Dups(s, e.call), w.drop + Drops(s, e.call),
            w.taken + One(e.call.picture.Some?))
  }

  function HappenAll(w: World, es: seq<Event>): World {
    if es == [] then w else Happen(HappenAll(w, es[..|es| - 1]), es[|es| - 1])
  }

  function MissingIn(w: World, e: Event): int {
    if Possible(w, e) then Missing(w.streams[e.stream], e.call) else 0
  }

  function MissingAll(w: World, es: seq<Event>): int {
    if es == [] then 0 else MissingAll(w, es[..|es| - 1]) + MissingIn(HappenAll(w, es[..|es| - 1]), es[|es| - 1])
  }

  function TotalOut(streams: seq<Stream>): int {
    if streams == [] then 0 else |streams[0].encoded| + TotalOut(streams[1..])
  }

  function TotalDropped(streams: seq<Stream>): int {
    if streams == [] then 0 else One(streams[0].lastDropped) + TotalDropped(streams[1..])
  }

  lemma {:induction false} TotalsMove(streams: seq<Stream>, i: nat, s: Stream)
    requires i < |streams|
    ensures TotalOut(streams[i := s]) == TotalOut(streams) - |streams[i].encoded| + |s.encoded|
    ensures TotalDropped(streams[i := s]) == TotalDropped(streams) - One(streams[i].lastDropped) + One(s.lastDropped)
  {
    if i == 0 {
      assert streams[0 := s][1..] == streams[1..];
    } else {
      assert streams[i := s][1..] == streams[1..][i - 1 := s];
      TotalsMove(streams[1..], i - 1, s);
    }
  }

  predicate Started(w: World) {
    && w.dup == w.drop == w.taken == 0
    && forall i :: 0 <= i < |w.streams| ==>
         w.streams[i].encoded == [] && !w.streams[i].lastDropped && Sound(w.streams[i])
  }

  lemma {:induction false} NothingOutAtStart(streams: seq<Stream>)
    requires forall i :: 0 <= i < |streams| ==> streams[i].encoded == [] && !streams[i].lastDropped
    ensures TotalOut(streams) == 0 && TotalDropped(streams) == 0
  {
    if streams != [] {
      NothingOutAtStart(streams[1..]);
    }
  }

  /** After any run of calls on any number of streams, flushing calls and max_frames cuts included:
      pictures in + duplicated = frames out + dropped + those still marked dropped + those missing. */
  lemma {:induction false} FramesConserved(w: World, es: seq<Event>)
    requires Started(w)
    ensures var w' := HappenAll(w, es);
      && w'.taken + w'.dup == TotalOut(w'.streams) + w'.drop + TotalDropped(w'.streams) + MissingAll(w, es)
      && forall i :: 0 <= i < |w'.streams| ==> Sound(w'.streams[i])
  {
    if es == [] {
      NothingOutAtStart(w.streams);
    } else {
      var init, e := es[..|es| - 1], es[|es| - 1];
      FramesConserved(w, init);
      var w1 := HappenAll(w, init);
      if Possible(w1, e) {
        var s := w1.streams[e.stream];
        CallIsSound(s, e.call);
        CallBalances(s, e.call);
        TotalsMove(w1.streams, e.stream, After(s, e.call));
      }
    }
  }

  /** Whatever stream the call is on, it keeps the books. */
  predicate Balanced(w: World, e: Event) { Possible(w, e) ==> KeepsBooks(w.streams[e.stream], e.call) }

  /** Calls that all keep the books straight: after the last report, pictures in + duplicated = out + dropped. */
  lemma BooksClose(w: World, es: seq<Event>)
    requires Started(w)
    requires forall i :: 0 <= i < |es| ==> Balanced(HappenAll(w, es[..i]), es[i])
    ensures var w' := HappenAll(w, es);
      w'.taken + w'.dup == TotalOut(w'.streams) + (w'.drop + TotalDropped(w'.streams))
  {
    FramesConserved(w, es);
    NoneMissing(w, es);
  }

  lemma {:induction false} NoneMissing(w: World, es: seq<Event>)
    requires Started(w)
    requires forall i :: 0 <= i < |es| ==> Balanced(HappenAll(w, es[..i]), es[i])
    ensures MissingAll(w, es) == 0
  {
    if es != [] {
      var (init, e) := (es[..|es| - 1], es[|es| - 1]);
      forall i | 0 <= i < |init| ensures Balanced(HappenAll(w, init[..i]), init[i]) {
        assert init[..i] == es[..i] && init[i] == es[i];
      }
      NoneMissing(w, init);
      FramesConserved(w, init);
      var w1 := HappenAll(w, init);
      assert Balanced(w1, e);
      if Possible(w1, e) { NothingMissing(w1.streams[e.stream], e.call); }
    }
  }

  /** The last report counts the frames still marked dropped. */
  method LastReport(streams: seq<OutputStream>, counters: Counters)
    requires forall i :: 0 <= i < |streams| ==> streams[i] as object != counters
    modifies counters
    ensures counters.dup == old(counters.dup)
    ensures counters.drop == old(counters.drop) + TotalDropped(States(streams))
  {
    var i := 0;
    ghost var all := States(streams);
    assert all[0..] == all;
    while i < |streams|
      invariant 0 <= i <= |streams| && all == States(streams)
      invariant counters.dup == old(counters.dup)
      invariant counters.drop + TotalDropped(all[i..]) == old(counters.drop) + TotalDropped(all)
    {
      assert all[i..][1..] == all[i + 1..];
      counters.drop := counters.drop + One(streams[i].lastDropped);
      i := i + 1;
    }
  }

  ghost function States(streams: seq<OutputStream>): seq<Stream>
    reads streams
  {
    seq(|streams|, i requires 0 <= i < |streams| reads streams => streams[i].State())
  }

  // ---- timestamps -----------------------------------------------------------------------------

  predicate Regular(m: SyncMode) { m.Cfr? || m.Vscfr? || m.Vfr? }

  /** The timestamps given to the encoder rise strictly, and the next one is above them all. */
  predicate Rising(s: Stream) {
    && (forall j, k :: 0 <= j < k < |s.encoded| ==> s.encoded[j].pts < s.encoded[k].pts)
    && (forall k :: 0 <= k < |s.encoded| ==> s.encoded[k].pts < s.syncOpts)
  }

  /** No rewrite of sync_opts moves it back. */
  lemma SyncNeverGoesBack(s: Stream, c: Call)
    requires Regular(Mode(c))
    ensures PlanOf(s, c).syncOpts >= s.syncOpts
  {
    LRintIsNearest(c.syncIpts);
    LRintIsNearest(s.syncOpts as real);
  }

  lemma CallKeepsRising(s: Stream, c: Call)
    requires Rising(s) && Regular(Mode(c))
    ensures Rising(After(s, c))
  {
    SyncNeverGoesBack(s, c);
    CallEncodes(s, c);
    var s' := After(s, c);
    assert forall k :: 0 <= k < |s.encoded| ==> s'.encoded[k] == s'.encoded[..|s.encoded|][k];
  }

  function CallAll(s: Stream, cs: seq<Call>): Stream {
    if cs == [] then s else After(CallAll(s, cs[..|cs| - 1]), cs[|cs| - 1])
  }

  /** In the CFR, VSCFR and VFR modes, also mixed, the encoder's timestamps rise strictly over the whole run. */
  lemma {:induction false} TimestampsRise(s: Stream, cs: seq<Call>)
    requires s.encoded == [] && forall i :: 0 <= i < |cs| ==> Regular(Mode(cs[i]))
    ensures Rising(CallAll(s, cs))
  {
    if cs != [] {
      TimestampsRise(s, cs[..|cs| - 1]);
      CallKeepsRising(CallAll(s, cs[..|cs| - 1]), cs[|cs| - 1]);
    }
  }

  predicate Unregulated(m: SyncMode) { m.Passthrough? || m.DropTimestamps? }

  /** In passthrough and drop mode they go on rising exactly when the picture's time, rounded, is later than all
      before it. */
  lemma PassthroughRises(s: Stream, c: Call)
    requires Rising(s) && Unregulated(Mode(c)) && c.picture.Some?
    ensures Rising(After(s, c)) <==> forall k :: 0 <= k < |s.encoded| ==> s.encoded[k].pts < LRint(c.syncIpts)
  {
    CallEncodes(s, c);
    var s' := After(s, c);
    assert forall k :: 0 <= k < |s.encoded| ==> s'.encoded[k] == s'.encoded[..|s.encoded|][k];
    var time := LRint(c.syncIpts);
    assert PlanOf(s, c).syncOpts == time;
    if Rising(s') {
      forall k | 0 <= k < |s.encoded| ensures s.encoded[k].pts < time {
        assert s'.encoded[k].pts < if |s'.encoded| > |s.encoded| then s'.encoded[|s.encoded|].pts else s'.syncOpts;
      }
    }
  }

  /** In passthrough and drop mode each picture is encoded once, with its own time rounded. */
  lemma PassthroughEncodes(s: Stream, c: Call)
    requires Unregulated(Mode(c)) && c.picture.Some? && c.stopAt.None? && s.frameNumber < s.maxFrames
    ensures After(s, c).encoded == s.encoded + [Emission(LRint(c.syncIpts), c.picture.value)]
    ensures After(s, c).frameNumber == s.frameNumber + 1 && After(s, c).maxFrames == s.maxFrames
  {
    assert PlanOf(s, c) == Plan(1, 0, LRint(c.syncIpts));
    CallEncodes(s, c);
    LoopEncodes(Prepared(s, c), c, PlanOf(s, c), 0);
    var s' := After(s, c);
    assert s'.encoded == s'.encoded[..|s.encoded|] + [s'.encoded[|s.encoded|]];
  }

  /** There is a run in which they go back. */
  lemma PassthroughMayGoBack() returns (s: Stream, first: Call, second: Call)
    ensures s.encoded == [] && Mode(first).Passthrough? && Mode(second).Passthrough?
    ensures Rising(After(s, first)) && !Rising(After(After(s, first), second))
  {
    s := Stream(0, 0, 10, false, (0, 0, 0), None, []);
    first := Lasting(0, 5.0, 1.0, Passthrough, 3600.0);
    second := Lasting(1, 3.0, 1.0, Passthrough, 3600.0);
    PassthroughRises(s, first);
    PassthroughEncodes(s, first);
    PassthroughRises(After(s, first), second);
    assert After(s, first).encoded[0].pts == 5 && LRint(3.0) == 3;
  }

  // ---- drift ----------------------------------------------------------------------------------

  /** Where the picture ends. */
  function End(c: Call): real { c.syncIpts + Duration(c) }

  /** The call is not refused, not cut short, and max_frames does not shorten its plan. */
  predicate Uncut(s: Stream, c: Call) { Completed(s, c) && PlanOf(s, c).nb == Decide(s, c).nb }

  /** In VSCFR mode the first picture may set the output clock, which is rounded once more. */
  function Ceiling(s: Stream, c: Call): real { if Mode(c).Vscfr? && s.frameNumber == 0 then 1.0 else 0.5 }

  lemma CallDrift(s: Stream, c: Call)
    requires Sound(s) && c.picture.Some? && c.dropThreshold == 0.0 && Uncut(s, c)
    requires Mode(c).Cfr? || (Mode(c).Vscfr? && Duration(c) >= 0.0)
    requires End(c) - s.syncOpts as real >= -2.1
    ensures -2.1 <= End(c) - After(s, c).syncOpts as real <= Ceiling(s, c)
  {
    PlanIsNatural(s, c);
    CallEncodes(s, c);
    LRintIsNearest(c.syncIpts);
    LRintIsNearest(End(c) - s.syncOpts as real);
    LRintIsNearest(Duration(c));
  }

  /** The bound of one frame for the first VSCFR picture is reached. */
  lemma FirstVscfrDriftsFurther() returns (s: Stream, c: Call)
    ensures Sound(s) && c.dropThreshold == 0.0 && Uncut(s, c) && Mode(c).Vscfr? && s.frameNumber == 0
    ensures End(c) - After(s, c).syncOpts as real == 1.0
  {
    s := Stream(0, 0, 10, false, (0, 0, 0), None, []);
    c := Lasting(0, 0.5, 2.5, Vscfr, 3600.0);
    assert LRint(0.5) == 0 && LRint(2.5) == 2 && Duration(c) == 2.5;
    assert Decide(s, c) == PlanOf(s, c) == Plan(2, 0, 0);
    FinishesIfItCan(s, c);
    CallEncodes(s, c);
  }

  /** Call `i` of the run is of the kind the drift bound is about, and ends no earlier than the one before. */
  predicate SteadyAt(s: Stream, cs: seq<Call>, i: nat)
    requires i < |cs|
  {
    && cs[i].picture.Some? && cs[i].dropThreshold == 0.0 && Uncut(CallAll(s, cs[..i]), cs[i])
    && (Mode(cs[i]).Cfr? || (Mode(cs[i]).Vscfr? && Duration(cs[i]) >= 0.0))
    && End(cs[i]) >= (if i == 0 then s.syncOpts as real - 2.1 else End(cs[i - 1]))
  }

  predicate Steady(s: Stream, cs: seq<Call>) { forall i: nat :: i < |cs| ==> SteadyAt(s, cs, i) }

  lemma SteadyPrefix(s: Stream, cs: seq<Call>)
    requires Steady(s, cs) && cs != []
    ensures Steady(s, cs[..|cs| - 1])
  {
    var init := cs[..|cs| - 1];
    forall i: nat | i < |init| ensures SteadyAt(s, init, i) {
      assert SteadyAt(s, cs, i) && init[..i] == cs[..i];
    }
  }

  /** The drift after the last call, if there is one. */
  predicate WithinBounds(s: Stream, cs: seq<Call>) {
    cs != [] ==>
      var c := cs[|cs| - 1];
      -2.1 <= End(c) - CallAll(s, cs).syncOpts as real <= Ceiling(CallAll(s, cs[..|cs| - 1]), c)
  }

  /** Over runs of any length the output clock stays at most 2.1 frames ahead of the end of the input and half
      a frame behind it (one frame at the start of a VSCFR run): the errors of single calls do not add up. */
  lemma {:induction false} DriftBounded(s: Stream, cs: seq<Call>)
    requires Sound(s) && Steady(s, cs)
    ensures Sound(CallAll(s, cs)) && WithinBounds(s, cs)
  {
    if cs != [] {
      var init, c := cs[..|cs| - 1], cs[|cs| - 1];
      SteadyPrefix(s, cs);
      DriftBounded(s, init);
      assert SteadyAt(s, cs, |cs| - 1);
      var s1 := CallAll(s, init);
      assert End(c) - s1.syncOpts as real >= -2.1;
      CallIsSound(s1, c);
      CallDrift(s1, c);
      assert CallAll(s, cs) == After(s1, c);
    }
  }

  /** A gap before the new picture is filled with the previous one: its repeats all end before the new
      picture starts, and the new picture is never encoded more than 1.1 frames before its start. */
  lemma GapIsFilled(s: Stream, c: Call, k: nat)
    requires Sound(s) && c.picture.Some? && Mode(c).Cfr? && c.dropThreshold == 0.0 && Uncut(s, c)
    requires s.lastFrame.Some? && s.lastFrame != c.picture
    requires Duration(c) >= 0.0 && c.syncIpts >= s.syncOpts as real
    requires |s.encoded| <= k < |After(s, c).encoded|
    ensures var e := After(s, c).encoded[k];
      if e.picture == c.picture.value then e.pts as real >= c.syncIpts - 1.1
      else e.picture == s.lastFrame.value && e.pts as real + 1.0 <= c.syncIpts - 0.1
  {
    PlanIsNatural(s, c);
    CallEncodes(s, c);
    LRintIsNearest(c.syncIpts - s.syncOpts as real - 0.6);
    var p := PlanOf(s, c);
    assert Some(After(s, c).encoded[k].picture) == Source(Prepared(s, c), c, p, k - |s.encoded|);
  }

  // ---- variable frame rate ----------------------------------------------------------------------

  /** When a VFR picture is shown: at its own time, rounded, but not before the output clock; at the clock if
      it ends close to it. */
  function VfrTime(s: Stream, c: Call): int {
    if End(c) > s.syncOpts as real + 0.6 then Max(s.syncOpts, LRint(c.syncIpts)) else s.syncOpts
  }

  /** A VFR picture is dropped exactly when it ends at least 0.6 frames before the clock, and is otherwise encoded
      once, at its time, unless the recording time has been reached. */
  lemma VfrPicture(s: Stream, c: Call)
    requires Sound(s) && s.frameNumber < s.maxFrames && Mode(c).Vfr? && c.picture.Some? && Duration(c) >= 0.0
    ensures var (s', time, late) := (After(s, c), VfrTime(s, c), End(c) <= s.syncOpts as real - 0.6);
      var stopped := c.stopAt.Some? && time >= c.stopAt.value;
      && s'.encoded == s.encoded + (if late || stopped then [] else [Emission(time, c.picture.value)])
      && s'.syncOpts == (if late then s.syncOpts else if stopped then time else time + 1)
      && s'.frameNumber == s.frameNumber + |s'.encoded| - |s.encoded| && s'.lastDropped == late
  {
    VfrPlan(s, c);
    PlanIsNatural(s, c);
    CallEncodes(s, c);
    LoopFinishes(Prepared(s, c), c, PlanOf(s, c), 0);
    var s' := After(s, c);
    assert s'.encoded == s'.encoded[..|s.encoded|] + s'.encoded[|s.encoded|..];
    if |s'.encoded| == |s.encoded| + 1 { assert s'.encoded[|s.encoded|..] == [s'.encoded[|s.encoded|]]; }
  }

  lemma VfrPlan(s: Stream, c: Call)
    requires Mode(c).Vfr? && c.picture.Some? && Duration(c) >= 0.0 && s.frameNumber < s.maxFrames
    ensures PlanOf(s, c) == if End(c) <= s.syncOpts as real - 0.6 then Plan(0, 0, s.syncOpts)
                            else Plan(1, 0, VfrTime(s, c))
    ensures !Refused(s, c)
  {
    LRintIsNearest(c.syncIpts);
    LRintIsNearest(s.syncOpts as real);
  }

  /** What has been encoded stays. */
  lemma {:induction false} EncodedStays(s: Stream, cs: seq<Call>, i: nat)
    requires i <= |cs|
    ensures CallAll(s, cs[..i]).encoded <= CallAll(s, cs).encoded
    decreases |cs|
  {
    if i == |cs| {
      assert cs[..i] == cs;
    } else {
      var init := cs[..|cs| - 1];
      assert init[..i] == cs[..i];
      EncodedStays(s, init, i);
      CallEncodes(CallAll(s, init), cs[|cs| - 1]);
    }
  }

  /** In any run, whatever the other calls are: a VFR picture that starts no earlier than the clock and ends more
      than 0.6 frames after it is encoded within half a tick of its own time. */
  lemma VfrKeepsTime(s: Stream, cs: seq<Call>, i: nat)
    requires i < |cs| && Mode(cs[i]).Vfr? && cs[i].picture.Some? && cs[i].stopAt.None? && Duration(cs[i]) >= 0.0
    requires var now := CallAll(s, cs[..i]);
      && Sound(now) && now.frameNumber < now.maxFrames
      && cs[i].syncIpts >= now.syncOpts as real && End(cs[i]) > now.syncOpts as real + 0.6
    ensures var (k, all) := (|CallAll(s, cs[..i]).encoded|, CallAll(s, cs).encoded);
      && k < |all| && all[k].picture == cs[i].picture.value && -0.5 <= all[k].pts as real - cs[i].syncIpts <= 0.5
  {
    var now := CallAll(s, cs[..i]);
    VfrPicture(now, cs[i]);
    LRintIsNearest(cs[i].syncIpts);
    assert cs[..i + 1][..i] == cs[..i];
    EncodedStays(s, cs, i + 1);
    assert CallAll(s, cs).encoded[|now.encoded|] == CallAll(s, cs[..i + 1]).encoded[|now.encoded|];
  }

  /** VFR pictures whose rounded times rise and that last more than 1.1 ticks. */
  predicate Spaced(cs: seq<Call>) {
    && (forall i :: 0 <= i < |cs| ==>
          Mode(cs[i]).Vfr? && cs[i].picture.Some? && cs[i].stopAt.None? && Duration(cs[i]) > 1.1)
    && (forall i, j :: 0 <= i < |cs| && j == i + 1 && j < |cs| ==> LRint(cs[i].syncIpts) < LRint(cs[j].syncIpts))
  }

  /** The pictures one by one at their own rounded times. */
  function AtTheirTimes(cs: seq<Call>): seq<Emission>
    requires forall i :: 0 <= i < |cs| ==> cs[i].picture.Some?
  {
    seq(|cs|, i requires 0 <= i < |cs| => Emission(LRint(cs[i].syncIpts), cs[i].picture.value))
  }

  lemma VfrOnTime(s: Stream, c: Call)
    requires Sound(s) && s.frameNumber < s.maxFrames && Mode(c).Vfr? && c.picture.Some? && c.stopAt.None?
    requires Duration(c) > 1.1 && s.syncOpts <= LRint(c.syncIpts)
    ensures var s' := After(s, c);
      && Sound(s') && s'.maxFrames == s.maxFrames && s'.frameNumber == s.frameNumber + 1
      && s'.encoded == s.encoded + [Emission(LRint(c.syncIpts), c.picture.value)]
      && s'.syncOpts == LRint(c.syncIpts) + 1
  {
    LRintIsNearest(c.syncIpts);
    VfrPicture(s, c);
    CallIsSound(s, c);
    CallEncodes(s, c);
  }

  /** Such a run is passed on as it is: every picture once, at its own time, none dropped or repeated. */
  lemma {:induction false} VfrFollowsInput(s: Stream, cs: seq<Call>)
    requires Sound(s) && s.encoded == [] && s.frameNumber + |cs| <= s.maxFrames && Spaced(cs)
    requires cs != [] ==> s.syncOpts <= LRint(cs[0].syncIpts)
    ensures var s' := CallAll(s, cs);
      && Sound(s') && s'.maxFrames == s.maxFrames && s'.frameNumber == s.frameNumber + |cs|
      && s'.encoded == AtTheirTimes(cs)
      && s'.syncOpts == if cs == [] then s.syncOpts else LRint(cs[|cs| - 1].syncIpts) + 1
    decreases |cs|
  {
    if cs != [] {
      var (init, c) := (cs[..|cs| - 1], cs[|cs| - 1]);
      VfrFollowsInput(s, init);
      VfrOnTime(CallAll(s, init), c);
      assert AtTheirTimes(cs) == AtTheirTimes(init) + [Emission(LRint(c.syncIpts), c.picture.value)];
    }
  }

  // ---- constant frame rate ----------------------------------------------------------------------

  /** How many frames a CFR picture makes, by where it ends: none when it comes too late, one when it ends about
      where the next frame should, and else as many as fit. */
  lemma CfrPicture(s: Stream, c: Call)
    requires Sound(s) && Mode(c).Cfr? && c.picture.Some? && Completed(s, c) && c.dropThreshold == 0.0
    ensures var (ahead, left) := (End(c) - s.syncOpts as real, s.maxFrames - s.frameNumber);
      Out(s, c) == Min(if ahead < -1.1 then 0 else if ahead > 1.1 then LRint(ahead) else 1, left)
    ensures After(s, c).syncOpts == s.syncOpts + Out(s, c)
  {
    PlanIsNatural(s, c);
    CallEncodes(s, c);
  }

  /** With -frame_drop_threshold a picture after the first is dropped when it ends before that; other pictures are
      treated as without. */
  lemma ThresholdDrops(s: Stream, c: Call)
    requires Mode(c).Cfr? && c.picture.Some? && c.dropThreshold != 0.0
    ensures if End(c) - s.syncOpts as real < c.dropThreshold && s.frameNumber != 0
            then Out(s, c) <= 0 && After(s, c).syncOpts == s.syncOpts
            else After(s, c) == After(s, c.(dropThreshold := 0.0))
  {
    CallEncodes(s, c);
    var c' := c.(dropThreshold := 0.0);
    assert Mode(c') == Mode(c) && Duration(c') == Duration(c);
    if !(End(c) - s.syncOpts as real < c.dropThreshold && s.frameNumber != 0) {
      assert PlanOf(s, c) == PlanOf(s, c');
      LoopIgnoresThreshold(Prepared(s, c), c, c', PlanOf(s, c), 0);
    }
  }

  lemma {:induction false} LoopIgnoresThreshold(s: Stream, c: Call, c': Call, p: Plan, i: int)
    requires c'.picture == c.picture && c'.stopAt == c.stopAt
    ensures EmitFrom(s, c, p, i) == EmitFrom(s, c', p, i)
    decreases p.nb - i
  {
    if i < p.nb {
      var picture := Source(s, c, p, i);
      if picture.Some? {
        LoopIgnoresThreshold(s.(encoded := s.encoded + [Emission(s.syncOpts, picture.value)],
                                syncOpts := s.syncOpts + 1, frameNumber := s.frameNumber + 1), c, c', p, i + 1);
      }
    }
  }

  /** In VSCFR mode the output starts where the first picture starts, however late, not at zero. */
  lemma VscfrStartsWithInput(s: Stream, c: Call)
    requires Sound(s) && s.frameNumber == 0 && s.encoded == [] && Mode(c).Vscfr? && c.picture.Some?
    requires c.syncIpts >= s.syncOpts as real + 0.5 && Duration(c) >= 0.0 && c.dropThreshold == 0.0 && Completed(s, c)
    requires s.maxFrames > 0
    ensures var all := After(s, c).encoded;
      && all != [] && all[0] == Emission(LRint(c.syncIpts), c.picture.value)
      && |all| == Min(if Duration(c) > 1.1 then LRint(Duration(c)) else 1, s.maxFrames)
  {
    PlanIsNatural(s, c);
    CallEncodes(s, c);
    LRintIsNearest(Duration(c));
  }

  // ---- the automatic choices --------------------------------------------------------------------

  /** Left to itself, ffmpeg keeps a constant rate only where the format has one, and then copies the input's start
      if timestamps are copied or come from a sole stream; a format with free timestamps never gets repeats. */
  lemma AutomaticMode(s: Stream, c: Call)
    requires c.videoSync.None?
    ensures Mode(c).Cfr? || Mode(c).Vscfr? <==> !c.format.avi && !c.format.variableFps
    ensures Mode(c).Vscfr? ==> c.format.soleStream || c.format.copyTs
    ensures Mode(c).Cfr? ==> !c.format.soleStream && !c.format.copyTs
    ensures Mode(c).Passthrough? <==> !c.format.avi && c.format.variableFps && c.format.noTimestamps
    ensures !Mode(c).DropTimestamps?
    ensures Sound(s) && c.picture.Some? && (c.format.avi || c.format.variableFps) ==> Out(s, c) <= 1 && Dups(s, c) == 0
  {
    CallEncodes(s, c);
  }

  /** The packet's duration counts before the rates, and of the rates the shorter frame. */
  lemma ShortestDuration(c: Call)
    ensures var (t, packet) := (c.timing, LRint(c.timing.packetDuration));
      if t.unfiltered && c.picture.Some? && packet > 0 then Duration(c) == packet as real
      else
        && (t.filterDuration.None? ==> Duration(c) <= 0.0)
        && (t.filterDuration.Some? ==> Duration(c) <= t.filterDuration.value)
        && (t.streamDuration.Some? ==> Duration(c) <= t.streamDuration.value)
        && (|| t.streamDuration == Some(Duration(c)) || t.filterDuration == Some(Duration(c))
            || (t.filterDuration.None? && Duration(c) == 0.0))
  {
  }

  lemma MedianIsMiddle(a: int, b: int, c: int)
    ensures var m := Median(a, b, c);
      && (m == a || m == b || m == c)
      && One(a <= m) + One(b <= m) + One(c <= m) >= 2 && One(a >= m) + One(b >= m) + One(c >= m) >= 2
  {
  }

  /** At the end of the input the last picture is repeated as often as was usual: the middle one of the numbers of
      repeats in the three calls before. */
  lemma FlushRepeats(s: Stream, c1: Call, c2: Call, c3: Call, c: Call)
    requires Sound(s) && c.picture.None? && c.stopAt.None?
    ensures var (s1, s2) := (After(s, c1), After(After(s, c1), c2));
      var s3 := After(s2, c3);
      var usual := Median(PlanOf(s, c1).nb0, PlanOf(s1, c2).nb0, PlanOf(s2, c3).nb0);
      var repeats := Min(usual, s3.maxFrames - s3.frameNumber);
      && PlanOf(s3, c) == Plan(repeats, repeats, s3.syncOpts)
      && (!Refused(s3, c) && s3.lastFrame.Some? ==>
            && Out(s3, c) == PlanOf(s3, c).nb
            && forall k :: |s3.encoded| <= k < |After(s3, c).encoded| ==>
                 After(s3, c).encoded[k].picture == s3.lastFrame.value)
  {
    var (s1, s2) := (After(s, c1), After(After(s, c1), c2));
    var s3 := After(s2, c3);
    NumbersShift(s, c1);
    NumbersShift(s1, c2);
    NumbersShift(s2, c3);
    CallIsSound(s, c1);
    CallIsSound(s1, c2);
    CallIsSound(s2, c3);
    PlanIsNatural(s3, c);
    MedianTurns(PlanOf(s, c1).nb0, PlanOf(s1, c2).nb0, PlanOf(s2, c3).nb0);
    CallEncodes(s3, c);
    FinishesIfItCan(s3, c);
  }

  lemma MedianTurns(a: int, b: int, c: int)
    ensures Median(c, b, a) == Median(a, b, c)
  {
  }

  /** The numbers of repeats of the last three calls, the latest first. */
  lemma NumbersShift(s: Stream, c: Call)
    ensures After(s, c).lastNb0 == (PlanOf(s, c).nb0, s.lastNb0.0, s.lastNb0.1)
  {
    CallEncodes(s, c);
  }

  /** A call is refused only for more than 30 times the threshold of frames, and one that is not never counts more
      frames as duplicated than that. */
  lemma DuplicationLimit(s: Stream, c: Call)
    requires Sound(s) && c.dtsErrorThreshold >= 0.0
    ensures Refused(s, c) ==> PlanOf(s, c).nb as real > 30.0 * c.dtsErrorThreshold && Dups(s, c) == 0 && Out(s, c) == 0
    ensures Dups(s, c) as real <= 30.0 * c.dtsErrorThreshold
    ensures PlanOf(s, c).nb as real <= 30.0 * c.dtsErrorThreshold ==> !Refused(s, c)
  {
    PlanIsNatural(s, c);
    CallEncodes(s, c);
  }

  /** Over two calls: the frames that fill a gap show the picture before the gap, and then the new one comes. */
  lemma GapShowsPrevious(s: Stream, c1: Call, c2: Call, k: nat)
    requires Sound(s) && Completed(s, c1) && c1.picture.Some? && c2.picture.Some? && c1.picture != c2.picture
    requires Mode(c2).Cfr? && c2.dropThreshold == 0.0 && Uncut(After(s, c1), c2)
    requires Duration(c2) >= 0.0 && c2.syncIpts >= After(s, c1).syncOpts as real
    requires |After(s, c1).encoded| <= k < |After(After(s, c1), c2).encoded|
    ensures var e := After(After(s, c1), c2).encoded[k];
      if e.picture == c2.picture.value then e.pts as real >= c2.syncIpts - 1.1
      else e.picture == c1.picture.value && e.pts as real + 1.0 <= c2.syncIpts - 0.1
  {
    CallIsSound(s, c1);
    CallEncodes(s, c1);
    GapIsFilled(After(s, c1), c2, k);
  }
}
