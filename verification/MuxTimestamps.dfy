/** Timestamp repair in write_frame of ffmpeg.c, packet after packet of one output stream. */
module MuxTimestamps {
  import opened Common

  datatype Media = Video | Audio | OtherMedia

  /** None is AV_NOPTS_VALUE. */
  datatype Packet = Packet(pts: Option<int>, dts: Option<int>)

  /** Muxer flags AVFMT_NOTIMESTAMPS and AVFMT_TS_NONSTRICT, the kind of stream, and the sync options: whether video
      is in drop mode, and audio_sync_method. */
  datatype Config = Config(noTimestamps: bool, nonStrict: bool, media: Media, dropMode: bool, audioSync: int)

  /** The sync options discard the stream's timestamps. */
  predicate Discards(cfg: Config) { (cfg.media.Video? && cfg.dropMode) || (cfg.media.Audio? && cfg.audioSync < 0) }

  const INT64_MIN := -0x8000_0000_0000_0000

  /** `last_mux_dts + 1`, which is taken even when there is no last timestamp. */
  function AfterLast(last: Option<int>): int {
    match last
    case None => INT64_MIN + 1
    case Some(v) => v + 1
  }

  /** The sum of three numbers without the smallest and the largest. */
  function Guess(a: int, b: int, c: int): int {
    a + b + c - Min(a, Min(b, c)) - Max(a, Max(b, c))
  }

  function Earliest(cfg: Config, last: int): int { last + if cfg.nonStrict then 0 else 1 }

  /** Decreasing timestamps of audio and video are checked against the last ones. */
  predicate Checked(cfg: Config) { !cfg.noTimestamps && !cfg.media.OtherMedia? }

  function Repair(cfg: Config, last: Option<int>, pkt: Packet): Packet {
    var p := if Discards(cfg) then Packet(None, None) else pkt;
    if cfg.noTimestamps then p else Monotone(cfg, last, Consistent(last, p))
  }

  /** A dts after its pts is replaced by a guess, and so is the pts. */
  function Consistent(last: Option<int>, p: Packet): Packet {
    if p.dts.Some? && p.pts.Some? && p.dts.value > p.pts.value then
      var guess := Guess(p.pts.value, p.dts.value, AfterLast(last));
      Packet(Some(guess), Some(guess))
    else p
  }

  /** A dts that is too early is moved up, and a pts that was not before it with it. */
  function Monotone(cfg: Config, last: Option<int>, p: Packet): Packet {
    if !cfg.media.OtherMedia? && p.dts.Some? && last.Some? && p.dts.value < Earliest(cfg, last.value) then
      var max := Earliest(cfg, last.value);
      Packet(if p.pts.Some? && p.pts.value >= p.dts.value then Some(Max(p.pts.value, max)) else p.pts, Some(max))
    else p
  }

  // ---- the code -------------------------------------------------------------------------------

  /** `counted`: the packets are limited by max_frames here (all but encoded video). `given` is the history
      of the packets that were not cut off by that limit. */
  class OutputStream {
    const cfg: Config
    const counted: bool
    const maxFrames: int
    var frameNumber: int
    var lastMuxDts: Option<int>
    var written: seq<Packet>
    ghost var given: seq<Packet>

    /** What has been written is the repaired run of what was given. */
    ghost predicate Valid()
      reads this
    {
      written == Written(cfg, given) && lastMuxDts == LastAfter(cfg, given)
    }

    constructor (cfg: Config, counted: bool, maxFrames: int)
      ensures this.cfg == cfg && this.counted == counted && this.maxFrames == maxFrames
      ensures Valid() && frameNumber == 0 && lastMuxDts == None && written == [] && given == []
    {
      this.cfg, this.counted, this.maxFrames := cfg, counted, maxFrames;
      frameNumber, lastMuxDts, written, given := 0, None, [], [];
    }

    method WriteFrame(packet: Packet)
      requires Valid()
      modifies this
      ensures Valid()
      ensures counted && old(frameNumber) >= maxFrames ==>
                && written == old(written) && lastMuxDts == old(lastMuxDts)
                && frameNumber == old(frameNumber) && given == old(given)
      ensures !(counted && old(frameNumber) >= maxFrames) ==>
                && given == old(given) + [packet]
                && written == old(written) + [Repair(cfg, old(lastMuxDts), packet)]
                && lastMuxDts == Repair(cfg, old(lastMuxDts), packet).dts
                && frameNumber == old(frameNumber) + if counted then 1 else 0
    {
      var pts, dts := packet.pts, packet.dts;
      if Discards(cfg) {
        pts, dts := None, None;
      }
      if counted {
        if frameNumber >= maxFrames {
          return;
        }
        frameNumber := frameNumber + 1;
      }
      if !cfg.noTimestamps {
        if dts.Some? && pts.Some? && dts.value > pts.value {
          var next := AfterLast(lastMuxDts);
          pts := Some(pts.value + dts.value + next
                      - Min(pts.value, Min(dts.value, next))
                      - Max(pts.value, Max(dts.value, next)));
          dts := pts;
        }
        if !cfg.media.OtherMedia? && dts.Some? && lastMuxDts.Some? {
          var max := lastMuxDts.value + if cfg.nonStrict then 0 else 1;
          if dts.value < max {
            if pts.Some? && pts.value >= dts.value {
              pts := Some(Max(pts.value, max));
            }
            dts := Some(max);
          }
        }
      }
      assert Packet(pts, dts) == Repair(cfg, lastMuxDts, packet);
      lastMuxDts := dts;
      written := written + [Packet(pts, dts)];
      given := given + [packet];
      assert given[..|given| - 1] == old(given);
    }
  }

  // ---- one packet -----------------------------------------------------------------------------

  predicate IsMedian(m: int, a: int, b: int, c: int) {
    && (m == a || m == b || m == c)
    && ((a <= m <= b) || (b <= m <= a) || (a <= m <= c) || (c <= m <= a) || (b <= m <= c) || (c <= m <= b))
    && (m <= a || m <= b) && (m <= a || m <= c) && (m <= b || m <= c)
    && (m >= a || m >= b) && (m >= a || m >= c) && (m >= b || m >= c)
  }

  /** A dts after its pts: unless it is then too early, both become the median of the two and the earliest
      strictly increasing timestamp. */
  lemma InvalidPairBecomesMedian(cfg: Config, last: Option<int>, pts: int, dts: int)
    requires !cfg.noTimestamps && !Discards(cfg) && dts > pts
    ensures var p := Repair(cfg, last, Packet(Some(pts), Some(dts)));
      p.pts == p.dts && p.dts.Some?
      && var m := Guess(pts, dts, AfterLast(last));
         IsMedian(m, pts, dts, AfterLast(last))
         && p.dts.value == (if Checked(cfg) && last.Some? then Max(m, Earliest(cfg, last.value)) else m)
  {
  }

  /** Before there is a last timestamp the median is the pts, so the dts gives way. */
  lemma FirstPairTakesPts(cfg: Config, pts: int, dts: int)
    requires !cfg.noTimestamps && !Discards(cfg) && INT64_MIN < pts < dts
    ensures Repair(cfg, None, Packet(Some(pts), Some(dts))) == Packet(Some(pts), Some(pts))
  {
  }

  /** A packet that already conforms passes unchanged, and repairing is done once and for all. */
  lemma ConformingUnchanged(cfg: Config, last: Option<int>, p: Packet)
    requires !Discards(cfg)
    ensures (Repair(cfg, last, p) == p) <==>
      || cfg.noTimestamps
      || ((p.dts.Some? && p.pts.Some? ==> p.dts.value <= p.pts.value)
          && (Checked(cfg) && p.dts.Some? && last.Some? ==> Earliest(cfg, last.value) <= p.dts.value))
    ensures Repair(cfg, last, Repair(cfg, last, p)) == Repair(cfg, last, p)
  {
  }

  /** Timestamps are taken away from video in drop mode and from audio with a negative audio_sync_method; all others
      stay where they are given. */
  lemma OnlyDiscarded(cfg: Config, last: Option<int>, p: Packet)
    ensures var r := Repair(cfg, last, p);
      var discarded := match cfg.media
                       case Video => cfg.dropMode
                       case Audio => cfg.audioSync < 0
                       case OtherMedia => false;
      if discarded then r == Packet(None, None)
      else (r.pts.Some? <==> p.pts.Some?) && (r.dts.Some? <==> p.dts.Some?)
  {
  }

  /** A pair in order is moved no further than it must be: the dts to the earliest one allowed, and the pts only if
      it would be before that. */
  lemma MovedNoFurther(cfg: Config, last: int, pts: int, dts: int)
    requires Checked(cfg) && !Discards(cfg) && dts <= pts
    ensures var least := if dts < Earliest(cfg, last) then Earliest(cfg, last) else dts;
      Repair(cfg, Some(last), Packet(Some(pts), Some(dts))) ==
      Packet(Some(if pts < least then least else pts), Some(least))
    ensures Earliest(cfg, last) == last + 1 || (cfg.nonStrict && Earliest(cfg, last) == last)
  {
  }

  // ---- whole runs -----------------------------------------------------------------------------

  /** last_mux_dts after the first packets. */
  function LastAfter(cfg: Config, pkts: seq<Packet>): Option<int> {
    if pkts == [] then None else Repair(cfg, LastAfter(cfg, pkts[..|pkts| - 1]), pkts[|pkts| - 1]).dts
  }

  function Written(cfg: Config, pkts: seq<Packet>): (r: seq<Packet>)
    ensures |r| == |pkts|
  {
    if pkts == [] then []
    else
      var init := pkts[..|pkts| - 1];
      Written(cfg, init) + [Repair(cfg, LastAfter(cfg, init), pkts[|pkts| - 1])]
  }

  predicate InOrder(cfg: Config, a: Packet, b: Packet) {
    a.dts.Some? && b.dts.Some? ==> if cfg.nonStrict then a.dts.value <= b.dts.value else a.dts.value < b.dts.value
  }

  /** Any run of an audio or video stream: no pts is before its dts, and neighbours are in order. */
  lemma {:induction false} NeighboursInOrder(cfg: Config, pkts: seq<Packet>)
    requires Checked(cfg) && !Discards(cfg)
    ensures var w := Written(cfg, pkts);
      && (forall i :: 0 <= i < |w| ==> (w[i].dts.Some? <==> pkts[i].dts.Some?))
      && (forall i :: 0 <= i < |w| && w[i].dts.Some? && w[i].pts.Some? ==> w[i].pts.value >= w[i].dts.value)
      && (forall i, j :: 0 <= i < |w| && j == i + 1 && j < |w| ==> InOrder(cfg, w[i], w[j]))
      && LastAfter(cfg, pkts) == (if w == [] then None else w[|w| - 1].dts)
  {
    if pkts != [] {
      NeighboursInOrder(cfg, pkts[..|pkts| - 1]);
    }
  }

  predicate GapFree(pkts: seq<Packet>, i: nat, j: nat)
    requires j < |pkts|
  {
    forall k :: i <= k <= j ==> pkts[k].dts.Some?
  }

  /** Between any two packets of such a run with no dts missing from the one to the other, dts rises strictly
      (does not fall, for a muxer that allows it). */
  lemma {:induction false} TimestampsRise(cfg: Config, pkts: seq<Packet>, i: nat, j: nat)
    requires Checked(cfg) && !Discards(cfg) && i < j < |pkts| && GapFree(pkts, i, j)
    ensures InOrder(cfg, Written(cfg, pkts)[i], Written(cfg, pkts)[j])
    decreases j - i
  {
    NeighboursInOrder(cfg, pkts);
    if i + 1 < j {
      TimestampsRise(cfg, pkts, i, j - 1);
    }
  }

  /** Right after a packet without a dts the check starts afresh: order with any earlier packet depends on
      the new packet alone, as its own pts and dts leave it. */
  lemma OrderAcrossGap(cfg: Config, pkts: seq<Packet>, i: nat, j: nat)
    requires Checked(cfg) && !Discards(cfg) && i < j < |pkts|
    requires pkts[i].dts.Some? && pkts[j - 1].dts.None? && pkts[j].dts.Some?
    ensures Written(cfg, pkts)[i].dts.Some?
    ensures InOrder(cfg, Written(cfg, pkts)[i], Written(cfg, pkts)[j]) <==>
      Consistent(None, pkts[j]).dts.value >= Earliest(cfg, Written(cfg, pkts)[i].dts.value)
  {
    NeighboursInOrder(cfg, pkts);
    var before := pkts[..j];
    WrittenAt(cfg, pkts, j);
    NeighboursInOrder(cfg, before);
    assert before[j - 1] == pkts[j - 1];
  }

  /** What is written of a packet depends on those before it. */
  lemma {:induction false} WrittenAt(cfg: Config, pkts: seq<Packet>, j: nat)
    requires j < |pkts|
    ensures Written(cfg, pkts)[j] == Repair(cfg, LastAfter(cfg, pkts[..j]), pkts[j])
    decreases |pkts|
  {
    var init := pkts[..|pkts| - 1];
    if j < |init| {
      WrittenAt(cfg, init, j);
      assert init[..j] == pkts[..j];
    }
  }

  /** The condition on the dts is needed: a packet without one makes the stream forget the last one. */
  lemma GapForgetsTheLast(cfg: Config, a: int, b: int)
    requires Checked(cfg) && !Discards(cfg) && b < a
    ensures var w := Written(cfg, [Packet(None, Some(a)), Packet(None, None), Packet(None, Some(b))]);
      !InOrder(cfg, w[0], w[2])
  {
    var p, q, r := Packet(None, Some(a)), Packet(None, None), Packet(None, Some(b));
    assert [p, q, r][..2] == [p, q] && [p, q][..1] == [p] && [p][..0] == [];
    assert Written(cfg, [p]) == [p] && LastAfter(cfg, [p]) == Some(a);
    assert Written(cfg, [p, q]) == [p, q] && LastAfter(cfg, [p, q]) == None;
    assert Written(cfg, [p, q, r]) == [p, q, r];
  }
}
