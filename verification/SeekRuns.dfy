/** Three runs of the threads of `SeekPurity`, step by step: a stream that is opened, an end that the filter
    graph reports on its own, and a `finished` that outlives its decoder. */
module SeekRuns {
  import opened QueueSpec
  import opened SeekPurity

  const EOS := Packet(false, 0, 0)
  const DATA := Packet(true, 0, 0)

  /** The outcomes used below: nothing comes out, a frame comes out, the graph has ended. */
  const NOTHING := DecoderAct(false, false, [], true, false, false, false)
  const ENDED := NOTHING.(eof := true)

  function FrameFrom(n: Node): DecoderAct { NOTHING.(got := true, made := [n]) }

  lemma Extend(run: seq<State>, s': State)
    requires IsRun(run) && Next(run[|run| - 1], s')
    ensures IsRun(run + [s'])
  {
    var more := run + [s'];
    forall i | 0 < i < |more| ensures Goes(more, i) {
      if i < |run| { assert Goes(run, i); }
    }
  }

  ghost predicate Reached(run: seq<State>, s: State) { IsRun(run) && run[|run| - 1] == s }

  lemma OwnerMoves(run: seq<State>, s: State, s': State)
    requires Reached(run, s) && OwnerStep(s, s')
    ensures Reached(run + [s'], s')
  {
    Extend(run, s');
  }

  lemma ReaderMoves(run: seq<State>, s: State, a: ReaderAct, s': State)
    requires Reached(run, s) && ReaderStep(s, a, s')
    ensures Reached(run + [s'], s')
  {
    assert Next(s, s');
    Extend(run, s');
  }

  lemma DecoderMoves(run: seq<State>, s: State, a: DecoderAct, s': State)
    requires Reached(run, s) && DecoderStep(s, a, s')
    ensures Reached(run + [s'], s')
  {
    assert Next(s, s');
    Extend(run, s');
  }

  /** A running stream whose decoder waits for its first packet, under serial 1. */
  const WAITING := State(Queue([], 1, false), Outside, Running, true,
                         Decoder(Get, false, NO_PACKET, 1, 0, [], [], -1, 1, 0, NO_END), [], 0, map[])

  lemma Opened() returns (run: seq<State>)
    ensures Reached(run, WAITING.(queue := Queue([Node(FlushPkt, 1)], 1, false), dec := NEW_DECODER.(pc := CheckAbort)))
  {
    var s0 := State(NEW_QUEUE, Outside, Closed, false, NEW_DECODER, [], 0, map[]);
    var s1 := s0.(owner := CodecOpen);
    var s2 := s1.(owner := StreamSet, open := true);
    var s3 := s2.(owner := DecoderReady);
    var s4 := s3.(owner := Running, queue := Queue([Node(FlushPkt, 1)], 1, false),
                  dec := NEW_DECODER.(pc := CheckAbort));
    run := [s0];
    assert Start(NEW_QUEUE) == s4.queue;
    OwnerMoves(run, s0, s1);
    OwnerMoves(run + [s1], s1, s2);
    OwnerMoves(run + [s1] + [s2], s2, s3);
    OwnerMoves(run + [s1] + [s2] + [s3], s3, s4);
    run := run + [s1] + [s2] + [s3] + [s4];
  }

  lemma Waiting() returns (run: seq<State>)
    ensures Reached(run, WAITING)
  {
    run := Opened();
    var s0 := run[|run| - 1];
    var s1 := s0.(dec := s0.dec.(pc := CheckPending));
    var s2 := s0.(dec := s0.dec.(pc := Get));
    var s3 := WAITING.(dec := WAITING.dec.(pc := FlushCodec));
    assert Rest(s0.queue) == s3.queue;
    DecoderMoves(run, s0, NOTHING, s1);
    DecoderMoves(run + [s1], s1, NOTHING, s2);
    DecoderMoves(run + [s1] + [s2], s2, NOTHING, s3);
    DecoderMoves(run + [s1] + [s2] + [s3], s3, NOTHING, WAITING);
    run := run + [s1] + [s2] + [s3] + [WAITING];
  }

  /** A packet is queued, taken out, and about to be decoded. */
  function AboutToDecode(pkt: Packet): State {
    WAITING.(epochOf := map[1 := 0], dec := WAITING.dec.(pc := Decode, pkt := Node(pkt, 1), pending := true))
  }

  lemma Decoding(pkt: Packet) returns (run: seq<State>)
    requires pkt.Packet? && pkt.tag == 0
    ensures Reached(run, AboutToDecode(pkt))
  {
    run := Waiting();
    var n := Node(pkt, 1);
    var s1 := WAITING.(epochOf := map[1 := 0], queue := Queue([n], 1, false));
    var s2 := WAITING.(epochOf := map[1 := 0], dec := WAITING.dec.(pc := CheckStale(n)));
    assert Put(WAITING.queue, pkt) == s1.queue && map[][1 := 0] == map[1 := 0];
    assert Rest(s1.queue) == s2.queue;
    ReaderMoves(run, WAITING, PutPacket(pkt), s1);
    DecoderMoves(run + [s1], s1, NOTHING, s2);
    DecoderMoves(run + [s1] + [s2], s2, NOTHING, AboutToDecode(pkt));
    run := run + [s1] + [s2] + [AboutToDecode(pkt)];
  }

  /** A packet that is read comes out as a frame under the current serial. */
  lemma FrameComesOut() returns (run: seq<State>)
    ensures IsRun(run)
    ensures var s := run[|run| - 1];
      s.owner.Running? && s.queue.serial == 1 && s.frames == [Frame(1, [Node(DATA, 1)])]
  {
    run := Decoding(DATA);
    var n := Node(DATA, 1);
    var s0 := AboutToDecode(DATA);
    var s1 := s0.(dec := s0.dec.(pc := Filter([n]), codec := [n], pending := false));
    var s2 := s1.(dec := s1.dec.(pc := Sink, filter := [n], filterSerial := 1));
    var s3 := s2.(frames := [Frame(1, [n])]);
    assert [] + [n] == [n] && [] + [Frame(1, [n])] == [Frame(1, [n])];
    DecoderMoves(run, s0, FrameFrom(n), s1);
    DecoderMoves(run + [s1], s1, NOTHING, s2);
    DecoderMoves(run + [s1] + [s2], s2, FrameFrom(n), s3);
    run := run + [s1] + [s2] + [s3];
  }

  /** The filter graph comes to its end although no end of the stream has been seen. */
  lemma GraphEndsAlone() returns (run: seq<State>)
    ensures IsRun(run)
    ensures var s := run[|run| - 1];
      && s.queue.serial > 0 && s.dec.finished == s.queue.serial && s.owner.Running?
      && GraphEnded(s) && !HoldsEnd(s.dec, s.queue.serial)
  {
    run := Decoding(DATA);
    var n := Node(DATA, 1);
    var s0 := AboutToDecode(DATA);
    var s1 := s0.(dec := s0.dec.(pc := Filter([n]), codec := [n], pending := false));
    var s2 := s1.(dec := s1.dec.(pc := Sink, filter := [n], filterSerial := 1));
    var s3 := s2.(dec := s2.dec.(pc := CheckAbort, finished := 1, graphEnd := GraphEnd(1, [n])));
    assert [] + [n] == [n];
    DecoderMoves(run, s0, FrameFrom(n), s1);
    DecoderMoves(run + [s1], s1, NOTHING, s2);
    DecoderMoves(run + [s1] + [s2], s2, ENDED, s3);
    run := run + [s1] + [s2] + [s3];
  }

  /** The stream has been played to its end and closed. */
  lemma PlayedAndClosed() returns (run: seq<State>)
    ensures IsRun(run)
    ensures var s := run[|run| - 1];
      s.queue == Queue([], 1, true) && s.owner.Closed? && s.dec.finished == 1 && s.reader.Outside? && s.frames == []
  {
    run := Decoding(EOS);
    var s0 := AboutToDecode(EOS);
    var s1 := s0.(dec := Decoded(s0.dec, NOTHING));
    var s2 := s1.(owner := Aborted, queue := Abort(s1.queue));
    var s3 := s2.(dec := s2.dec.(pc := Dead));
    var s4 := s3.(owner := Joined);
    var s5 := s4.(owner := Emptied, queue := Flush(s4.queue));
    var s6 := s5.(owner := CodecClosed);
    var s7 := s6.(owner := Closed, open := false);
    DecoderMoves(run, s0, NOTHING, s1);
    OwnerMoves(run + [s1], s1, s2);
    DecoderMoves(run + [s1] + [s2], s2, NOTHING, s3);
    var half := run + [s1] + [s2] + [s3];
    OwnerMoves(half, s3, s4);
    OwnerMoves(half + [s4], s4, s5);
    OwnerMoves(half + [s4] + [s5], s5, s6);
    OwnerMoves(half + [s4] + [s5] + [s6], s6, s7);
    run := half + [s4] + [s5] + [s6] + [s7];
  }

  /** While the stream is being opened again, `finished` still equals the queue's serial, and nothing has
      been given to the new codec. */
  lemma FinishedIsLeftOver() returns (run: seq<State>)
    ensures IsRun(run)
    ensures var s := run[|run| - 1];
      && s.open && s.queue.serial > 0 && s.dec.finished == s.queue.serial && Reopening(s.owner)
      && s.dec.codec == [] && !Drained(s) && !GraphEnded(s)
  {
    run := PlayedAndClosed();
    var s0 := run[|run| - 1];
    var s1 := s0.(owner := CodecOpen,
                  dec := s0.dec.(codec := [], filter := [], filterSerial := -1, drained := 0, graphEnd := NO_END));
    var s2 := s1.(owner := StreamSet, open := true);
    OwnerMoves(run, s0, s1);
    OwnerMoves(run + [s1], s1, s2);
    run := run + [s1] + [s2];
  }
}
