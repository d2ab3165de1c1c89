/** One stream of ffplay: the demuxing thread that seeks and queues packets, the thread that opens and
    closes the stream, and the decoder thread, interleaved at the granularity of critical sections and
    of unlocked reads. The seek's flush and its marker are two separate critical sections. */
module SeekPurity {
  import opened QueueSpec

  /** read_thread: outside a seek, after avformat_seek_file, about to flush, about to put the marker. */
  datatype Reader = Outside | Sought | AboutToFlush | AboutToMark

  /** stream_component_open and stream_component_close. */
  datatype Owner =
    | Closed | CodecOpen | StreamSet | DecoderReady | Running
    | Aborted | Joined | Emptied | CodecClosed

  /** decoder_decode_frame and the loop around it. The packet just taken out is local to the thread. */
  datatype Pc =
    | Dead | CheckAbort | CheckPending | Get | FlushCodec | CheckStale(got: Node)
    | Decode | Filter(decoded: seq<Node>) | Sink

  /** The end of a filter graph: the serial at which it was reported, and what the graph had been fed. */
  datatype GraphEnd = GraphEnd(serial: nat, fed: seq<Node>)

  /** `codec` and `filter` hold what went into the codec and the filter graph since they were last emptied.
      History variables: `marker` is the serial of the last packet this decoder took out, `drained` the serial
      of the last end-of-stream packet that the codec answered with nothing, and `graphEnd` the last end of a
      filter graph; both are forgotten when a codec is opened. */
  datatype Decoder = Decoder(
    pc: Pc,
    pending: bool,
    pkt: Node,
    pktSerial: nat,
    finished: nat,
    codec: seq<Node>,
    filter: seq<Node>,
    filterSerial: int,
    marker: nat,
    drained: nat,
    graphEnd: GraphEnd)

  /** A frame handed to the frame queue: its label and the packets it was made from. */
  datatype Frame = Frame(serial: nat, made: seq<Node>)

  /** `epoch` counts successful seeks; packets are tagged with the epoch they were read in.
      `epochOf` is a history variable: the epoch of the packets queued under each serial. */
  datatype State = State(
    queue: Queue,
    reader: Reader,
    owner: Owner,
    open: bool,
    dec: Decoder,
    frames: seq<Frame>,
    epoch: nat,
    epochOf: map<nat, nat>)

  const NO_PACKET := Node(FlushPkt, 0)
  const NO_END := GraphEnd(0, [])
  const NEW_DECODER := Decoder(Dead, false, NO_PACKET, 0, 0, [], [], -1, 0, 0, NO_END)

  predicate Init(s: State) {
    s == State(NEW_QUEUE, Outside, Closed, false, NEW_DECODER, [], 0, map[])
  }

  // ---- the demuxing thread --------------------------------------------------------------------

  /** `pkt` is a packet just read, or the end-of-stream packet. */
  datatype ReaderAct = Seek | CheckOpen | DoFlush | PutMarker | PutPacket(pkt: Packet)

  predicate ReaderStep(s: State, a: ReaderAct, s': State) {
    match a
    case Seek =>
      s.reader.Outside? && s' == s.(reader := Sought, epoch := s.epoch + 1)
    case CheckOpen =>
      s.reader.Sought? && s' == s.(reader := if s.open then AboutToFlush else Outside)
    case DoFlush =>
      s.reader.AboutToFlush? && s' == s.(reader := AboutToMark, queue := Flush(s.queue))
    case PutMarker =>
      s.reader.AboutToMark? && s' == s.(reader := Outside, queue := Put(s.queue, FlushPkt))
    case PutPacket(pkt) =>
      && s.reader.Outside? && pkt.Packet? && pkt.tag == s.epoch
      && s' == s.(queue := Put(s.queue, pkt),
                  epochOf := if s.queue.abort then s.epochOf else s.epochOf[s.queue.serial := s.epoch])
  }

  // ---- opening and closing --------------------------------------------------------------------

  /** The next statement of the open/close sequence; joining waits for the decoder thread to end. */
  predicate OwnerStep(s: State, s': State) {
    match s.owner
    case Closed =>
      s' == s.(owner := CodecOpen,
               dec := s.dec.(codec := [], filter := [], filterSerial := -1, drained := 0, graphEnd := NO_END))
    case CodecOpen => s' == s.(owner := StreamSet, open := true)
    case StreamSet =>
      s' == s.(owner := DecoderReady, dec := NEW_DECODER.(codec := s.dec.codec))
    case DecoderReady =>
      s' == s.(owner := Running, queue := Start(s.queue), dec := s.dec.(pc := CheckAbort))
    case Running => s' == s.(owner := Aborted, queue := Abort(s.queue))
    case Aborted => s.dec.pc.Dead? && s' == s.(owner := Joined)
    case Joined => s' == s.(owner := Emptied, queue := Flush(s.queue))
    case Emptied => s' == s.(owner := CodecClosed)
    case CodecClosed => s' == s.(owner := Closed, open := false)
  }

  // ---- the decoder thread ---------------------------------------------------------------------

  /** Outcomes the model leaves open: whether the codec fails, produces a frame and from what, whether the
      packet is used up, whether the frame is dropped early, whether the graph is rebuilt for another
      reason or fails, what it hands out, and whether it has come to its end. */
  datatype DecoderAct = DecoderAct(
    err: bool, got: bool, made: seq<Node>, usedUp: bool, drop: bool, rebuild: bool, eof: bool)

  predicate Among(part: seq<Node>, whole: seq<Node>) { forall n :: n in part ==> n in whole }

  function Decoded(d: Decoder, a: DecoderAct): Decoder {
    var next := if a.got then Filter(a.made) else CheckAbort;
    var d := d.(codec := d.codec + [d.pkt], pc := next);
    if a.err then d.(pending := false)
    else if d.pkt.pkt.Packet? && d.pkt.pkt.hasData then d.(pending := !a.usedUp)
    else if a.got then d
    else d.(pending := false, finished := d.pktSerial, drained := d.pktSerial)
  }

  predicate DecoderStep(s: State, a: DecoderAct, s': State) {
    var d := s.dec;
    match d.pc
    case Dead => false
    case CheckAbort => s' == s.(dec := d.(pc := if s.queue.abort then Dead else CheckPending))
    case CheckPending =>
      s' == s.(dec := d.(pc := if !d.pending || s.queue.serial != d.pktSerial then Get else Decode))
    case Get =>
      if s.queue.abort then s' == s.(dec := d.(pc := Dead))
      else if s.queue.nodes == [] then false
      else
        var got := s.queue.nodes[0];
        s' == s.(queue := Rest(s.queue),
                 dec := d.(pktSerial := got.serial, marker := got.serial,
                           pc := if got.pkt.FlushPkt? then FlushCodec else CheckStale(got)))
    case FlushCodec => s' == s.(dec := d.(codec := [], finished := 0, pc := Get))
    case CheckStale(got) =>
      s' == s.(dec := if s.queue.serial != d.pktSerial then d.(pc := Get)
                      else d.(pkt := got, pending := true, pc := Decode))
    case Decode => Among(a.made, d.codec + [d.pkt]) && s' == s.(dec := Decoded(d, a))
    case Filter(decoded) =>
      s' == s.(dec := if a.drop then d.(pc := CheckAbort)
                      else if a.err then d.(pc := Dead)
                      else if a.rebuild || d.filterSerial != d.pktSerial
                      then d.(pc := Sink, filter := decoded, filterSerial := d.pktSerial)
                      else d.(pc := Sink, filter := d.filter + decoded))
    case Sink =>
      if a.got then
        && Among(a.made, d.filter)
        && s' == s.(frames := s.frames + [Frame(d.pktSerial, a.made)],
                    dec := d.(pc := if s.queue.serial != d.pktSerial && a.usedUp then CheckAbort else Sink))
      else
        s' == s.(dec := if a.err then d.(pc := Dead)
                        else if a.eof then
                          d.(pc := CheckAbort, finished := d.pktSerial, graphEnd := GraphEnd(d.pktSerial, d.filter))
                        else d.(pc := CheckAbort))
  }

  ghost predicate Next(s: State, s': State) {
    || (exists a: ReaderAct :: ReaderStep(s, a, s'))
    || OwnerStep(s, s')
    || (exists a: DecoderAct :: DecoderStep(s, a, s'))
  }

  ghost predicate Goes(run: seq<State>, i: nat)
    requires 0 < i < |run|
  {
    Next(run[i - 1], run[i])
  }

  ghost predicate IsRun(run: seq<State>) {
    && run != []
    && Init(run[0])
    && forall i :: 0 < i < |run| ==> Goes(run, i)
  }

  // ---- the invariant --------------------------------------------------------------------------

  predicate AllSerial(nodes: seq<Node>, serial: int) { forall n :: n in nodes ==> n.serial == serial }

  /** The queue is a chain that continues from what the decoder took out, and its newest serial is the
      queue's own, except between a seek's flush and its marker, or while the stream is shut. */
  ghost predicate QueueInv(s: State) {
    && Chain(s.dec.marker, s.queue.nodes)
    && Latest(s.dec.marker, s.queue.nodes) <= s.queue.serial
    && (Latest(s.dec.marker, s.queue.nodes) == s.queue.serial || s.queue.abort || s.reader.AboutToMark?)
  }

  predicate Shut(o: Owner) { !o.Running? && !o.Aborted? && !o.Joined? }

  /** Between the close's flush and the next start the queue stays empty and refuses packets. */
  predicate OwnerInv(s: State) {
    && (Shut(s.owner) ==> s.queue.nodes == [])
    && (!s.owner.Running? ==> s.queue.abort)
    && (!s.owner.Running? && !s.owner.Aborted? ==> s.dec.pc.Dead?)
    && (!s.open ==> s.owner.Closed? || s.owner.CodecOpen?)
    && (s.owner.DecoderReady? ==> !s.dec.pending)
    && (s.owner.StreamSet? || s.owner.DecoderReady? || s.owner.CodecOpen? ==> s.dec.codec == [])
  }

  /** What is in the codec, the packet being decoded, and the filter graph belongs to one serial. */
  predicate DecoderInv(d: Decoder) {
    && d.pktSerial == d.marker
    && (!d.pc.FlushCodec? ==> AllSerial(d.codec, d.pktSerial))
    && (d.pending && (d.pc.CheckAbort? || d.pc.CheckPending? || d.pc.Filter? || d.pc.Sink?)
        ==> d.pkt.serial == d.pktSerial)
    && (d.pc.Decode? ==> d.pending && d.pkt.serial == d.pktSerial && d.pkt.pkt.Packet?)
    && (d.pending && !d.pc.Dead? ==> d.pkt.pkt.Packet?)
    && (d.pc.CheckStale? ==> d.pc.got.serial == d.pktSerial && d.pc.got.pkt.Packet?)
    && (d.pc.Filter? ==> AllSerial(d.pc.decoded, d.pktSerial))
    && AllSerial(d.filter, d.filterSerial)
    && (d.pc.Sink? ==> d.filterSerial == d.pktSerial)
  }

  ghost predicate FramesPure(s: State) {
    forall f :: f in s.frames ==> AllSerial(f.made, f.serial)
  }

  ghost predicate Inv(s: State) {
    QueueInv(s) && OwnerInv(s) && DecoderInv(s.dec) && FramesPure(s)
  }

  lemma ReaderKeeps(s: State, a: ReaderAct, s': State)
    requires Inv(s) && ReaderStep(s, a, s')
    ensures Inv(s')
  {
    if (a.PutMarker? || a.PutPacket?) && !s.queue.abort {
      PutChain(s.dec.marker, s.queue, if a.PutMarker? then FlushPkt else a.pkt);
    }
    if a.DoFlush? {
      ChainBounds(s.dec.marker, s.queue.nodes, 0);
    }
  }

  lemma OwnerKeeps(s: State, s': State)
    requires Inv(s) && OwnerStep(s, s')
    ensures Inv(s')
  {
    if s.owner.DecoderReady? {
      PutChain(s.dec.marker, s.queue.(abort := false), FlushPkt);
    }
    ChainBounds(s.dec.marker, s.queue.nodes, 0);
  }

  lemma DecodedKeeps(d: Decoder, a: DecoderAct)
    requires DecoderInv(d) && d.pc.Decode? && Among(a.made, d.codec + [d.pkt])
    ensures DecoderInv(Decoded(d, a))
  {
    assert AllSerial(d.codec + [d.pkt], d.pktSerial);
  }

  lemma GetKeeps(s: State, a: DecoderAct, s': State)
    requires Inv(s) && DecoderStep(s, a, s') && s.dec.pc.Get?
    ensures Inv(s')
  {
    if !s.queue.abort {
      RestChain(s.dec.marker, s.queue);
    }
  }

  lemma SinkKeeps(s: State, a: DecoderAct, s': State)
    requires Inv(s) && DecoderStep(s, a, s') && s.dec.pc.Sink?
    ensures Inv(s')
  {
  }

  lemma DecodeKeeps(s: State, a: DecoderAct, s': State)
    requires Inv(s) && DecoderStep(s, a, s') && s.dec.pc.Decode?
    ensures Inv(s')
  {
    DecodedKeeps(s.dec, a);
  }

  lemma FilterKeeps(s: State, a: DecoderAct, s': State)
    requires Inv(s) && DecoderStep(s, a, s') && s.dec.pc.Filter?
    ensures Inv(s')
  {
    assert DecoderInv(s'.dec);
  }

  lemma DecoderKeeps(s: State, a: DecoderAct, s': State)
    requires Inv(s) && DecoderStep(s, a, s')
    ensures Inv(s')
  {
    match s.dec.pc
    case Get => GetKeeps(s, a, s');
    case Sink => SinkKeeps(s, a, s');
    case Decode => DecodeKeeps(s, a, s');
    case Filter(_) => FilterKeeps(s, a, s');
    case _ =>
  }

  // ---- packets of one serial come from one seek -----------------------------------------------

  /** The packet was queued in the epoch recorded for its serial. */
  predicate Tagged(n: Node, epochOf: map<nat, nat>) {
    n.pkt.Packet? ==> n.serial in epochOf && epochOf[n.serial] == n.pkt.tag
  }

  ghost predicate AllTagged(nodes: seq<Node>, epochOf: map<nat, nat>) {
    forall n :: n in nodes ==> Tagged(n, epochOf)
  }

  ghost predicate DecoderTagged(d: Decoder, m: map<nat, nat>) {
    && AllTagged(d.codec, m) && AllTagged(d.filter, m) && Tagged(d.pkt, m)
    && (d.pc.CheckStale? ==> Tagged(d.pc.got, m))
    && (d.pc.Filter? ==> AllTagged(d.pc.decoded, m))
  }

  ghost predicate EpochInv(s: State) {
    && AllTagged(s.queue.nodes, s.epochOf)
    && DecoderTagged(s.dec, s.epochOf)
    && (forall f :: f in s.frames ==> AllTagged(f.made, s.epochOf))
    && (forall k :: k in s.epochOf ==> k <= s.queue.serial)
    && (s.reader.Outside? && !s.queue.abort && s.queue.serial in s.epochOf ==> s.epochOf[s.queue.serial] == s.epoch)
  }

  predicate Grows(m: map<nat, nat>, m': map<nat, nat>) { forall k :: k in m ==> k in m' && m'[k] == m[k] }

  lemma TaggedGrows(s: State, m: map<nat, nat>)
    requires EpochInv(s) && Grows(s.epochOf, m)
    ensures AllTagged(s.queue.nodes, m) && DecoderTagged(s.dec, m)
    ensures forall f :: f in s.frames ==> AllTagged(f.made, m)
  {
  }

  lemma ReaderKeepsEpochs(s: State, a: ReaderAct, s': State)
    requires Inv(s) && EpochInv(s) && ReaderStep(s, a, s')
    ensures EpochInv(s')
  {
    TaggedGrows(s, s'.epochOf);
  }

  lemma OwnerKeepsEpochs(s: State, s': State)
    requires Inv(s) && EpochInv(s) && OwnerStep(s, s')
    ensures EpochInv(s')
  {
  }

  lemma DecodedTagged(d: Decoder, a: DecoderAct, m: map<nat, nat>)
    requires DecoderTagged(d, m) && d.pc.Decode? && Among(a.made, d.codec + [d.pkt])
    ensures DecoderTagged(Decoded(d, a), m)
  {
    assert AllTagged(d.codec + [d.pkt], m);
  }

  lemma SinkTagged(s: State, a: DecoderAct, s': State)
    requires EpochInv(s) && DecoderStep(s, a, s') && s.dec.pc.Sink?
    ensures EpochInv(s')
  {
  }

  lemma MovedTagged(s: State, a: DecoderAct, s': State)
    requires EpochInv(s) && DecoderStep(s, a, s') && !s.dec.pc.Decode? && !s.dec.pc.Sink?
    ensures DecoderTagged(s'.dec, s.epochOf)
  {
  }

  lemma DecoderKeepsEpochs(s: State, a: DecoderAct, s': State)
    requires EpochInv(s) && DecoderStep(s, a, s')
    ensures EpochInv(s')
  {
    if s.dec.pc.Sink? {
      SinkTagged(s, a, s');
    } else if s.dec.pc.Decode? {
      DecodedTagged(s.dec, a, s.epochOf);
    } else {
      MovedTagged(s, a, s');
    }
  }

  // ---- what `finished` means --------------------------------------------------------------------

  predicate EndOf(n: Node, serial: nat) { n.pkt.Packet? && !n.pkt.hasData && n.serial == serial }

  ghost predicate HoldsEnd(d: Decoder, serial: nat) { exists n :: n in d.codec && EndOf(n, serial) }

  /** `finished` is the serial of an end that was recorded: of the codec, which then holds an end-of-stream
      packet, or of a filter graph, which had been fed with that serial only. It is never left from an older serial
      once the codec has been flushed. With a newer serial announced, all ends are older. */
  ghost predicate FinishedInv(d: Decoder) {
    && AllSerial(d.graphEnd.fed, d.graphEnd.serial)
    && (d.finished != 0 ==> d.finished == d.drained || d.finished == d.graphEnd.serial)
    && (if d.pc.FlushCodec? then d.drained < d.pktSerial && d.graphEnd.serial < d.pktSerial
        else
          && (d.finished == 0 || d.finished == d.pktSerial)
          && d.drained <= d.pktSerial && d.graphEnd.serial <= d.pktSerial
          && (d.drained == d.pktSerial || d.graphEnd.serial == d.pktSerial ==> d.finished == d.pktSerial)
          && (d.drained == d.pktSerial && d.drained != 0 ==> HoldsEnd(d, d.drained)))
  }

  /** From the opening of the codec to decoder_init, `finished` is left over from the previous decoder. */
  predicate Reopening(o: Owner) { o.CodecOpen? || o.StreamSet? }

  ghost predicate EndInv(s: State) {
    if Reopening(s.owner) then s.dec.drained == 0 && s.dec.graphEnd == NO_END else FinishedInv(s.dec)
  }

  lemma DecodedFinished(d: Decoder, a: DecoderAct)
    requires DecoderInv(d) && FinishedInv(d) && d.pc.Decode?
    ensures FinishedInv(Decoded(d, a))
  {
    var d' := Decoded(d, a);
    assert d.pkt in d'.codec;
    if d'.drained == d.drained {
      if d.drained == d.pktSerial && d.drained != 0 {
        var n :| n in d.codec && EndOf(n, d.drained);
        assert n in d'.codec;
      }
    } else {
      assert EndOf(d.pkt, d'.drained);
    }
  }

  /** A marker that is taken out announces a newer serial; any other packet has the old one. */
  lemma GetFinished(s: State, a: DecoderAct, s': State)
    requires QueueInv(s) && DecoderInv(s.dec) && FinishedInv(s.dec) && DecoderStep(s, a, s') && s.dec.pc.Get?
    ensures FinishedInv(s'.dec)
  {
    if !s.queue.abort { RestChain(s.dec.marker, s.queue); }
    assert s'.dec.codec == s.dec.codec;
  }

  lemma SinkFinished(s: State, a: DecoderAct, s': State)
    requires DecoderInv(s.dec) && FinishedInv(s.dec) && DecoderStep(s, a, s') && s.dec.pc.Sink?
    ensures FinishedInv(s'.dec)
  {
    assert s'.dec.codec == s.dec.codec && s'.dec.drained == s.dec.drained;
  }

  /** Nothing that `FinishedInv` is about. */
  predicate SameEnds(d: Decoder, d': Decoder) {
    && d'.codec == d.codec && d'.finished == d.finished && d'.pktSerial == d.pktSerial
    && d'.drained == d.drained && d'.graphEnd == d.graphEnd && !d.pc.FlushCodec? && !d'.pc.FlushCodec?
  }

  lemma OtherMoves(s: State, a: DecoderAct, s': State)
    requires DecoderStep(s, a, s')
    requires !s.dec.pc.Get? && !s.dec.pc.Decode? && !s.dec.pc.FlushCodec? && !s.dec.pc.Sink?
    ensures SameEnds(s.dec, s'.dec)
  {
  }

  lemma SameFinished(d: Decoder, d': Decoder)
    requires FinishedInv(d) && SameEnds(d, d')
    ensures FinishedInv(d')
  {
  }

  lemma DecoderKeepsFinished(s: State, a: DecoderAct, s': State)
    requires QueueInv(s) && DecoderInv(s.dec) && FinishedInv(s.dec) && DecoderStep(s, a, s')
    ensures FinishedInv(s'.dec)
  {
    if s.dec.pc.Decode? {
      DecodedFinished(s.dec, a);
    } else if s.dec.pc.Get? {
      GetFinished(s, a, s');
    } else if s.dec.pc.Sink? {
      SinkFinished(s, a, s');
    } else if !s.dec.pc.FlushCodec? {
      OtherMoves(s, a, s');
      SameFinished(s.dec, s'.dec);
    }
  }

  lemma OwnerKeepsEnd(s: State, s': State)
    requires OwnerInv(s) && EndInv(s) && OwnerStep(s, s')
    ensures EndInv(s')
  {
  }

  // ---- over whole runs ------------------------------------------------------------------------

  ghost predicate AllInv(s: State) { Inv(s) && EpochInv(s) && EndInv(s) }

  lemma ReaderKeepsAll(s: State, a: ReaderAct, s': State)
    requires AllInv(s) && ReaderStep(s, a, s')
    ensures AllInv(s')
  {
    ReaderKeeps(s, a, s');
    ReaderKeepsEpochs(s, a, s');
    assert s'.dec == s.dec && s'.owner == s.owner;
  }

  lemma OwnerKeepsAll(s: State, s': State)
    requires AllInv(s) && OwnerStep(s, s')
    ensures AllInv(s')
  {
    OwnerKeeps(s, s');
    OwnerKeepsEpochs(s, s');
    OwnerKeepsEnd(s, s');
  }

  lemma DecoderKeepsAll(s: State, a: DecoderAct, s': State)
    requires AllInv(s) && DecoderStep(s, a, s')
    ensures AllInv(s')
  {
    DecoderKeeps(s, a, s');
    DecoderKeepsEpochs(s, a, s');
    assert !Reopening(s.owner) && s'.owner == s.owner;
    DecoderKeepsFinished(s, a, s');
  }

  lemma {:induction false} RunInv(run: seq<State>, i: nat)
    requires IsRun(run) && i < |run|
    ensures AllInv(run[i])
    decreases i
  {
    if i > 0 {
      RunInv(run, i - 1);
      var s, s' := run[i - 1], run[i];
      assert Goes(run, i);
      if OwnerStep(s, s') {
        OwnerKeepsAll(s, s');
      } else if a: ReaderAct :| ReaderStep(s, a, s') {
        ReaderKeepsAll(s, a, s');
      } else {
        var a: DecoderAct :| DecoderStep(s, a, s');
        DecoderKeepsAll(s, a, s');
      }
    }
  }

  /** A frame labelled with a serial is made only from packets queued under that serial, and those were
      all read after the same seek. */
  lemma FramesArePure(run: seq<State>, i: nat, k: nat)
    requires IsRun(run) && i < |run| && k < |run[i].frames|
    ensures var f := run[i].frames[k];
            && (forall n :: n in f.made ==> n.serial == f.serial)
            && (forall n, n' :: n in f.made && n' in f.made && n.pkt.Packet? && n'.pkt.Packet? ==>
                  n.pkt.tag == n'.pkt.tag)
  {
    RunInv(run, i);
    assert run[i].frames[k] in run[i].frames;
  }

  /** Once no seek is in progress, a frame whose label is the queue's serial, which is the test made before
      it is shown or played, contains nothing read before the last seek. */
  lemma AcceptedFramesAreCurrent(run: seq<State>, i: nat, k: nat, n: Node)
    requires IsRun(run) && i < |run| && k < |run[i].frames|
    requires run[i].reader.Outside? && !run[i].queue.abort && run[i].frames[k].serial == run[i].queue.serial
    requires n in run[i].frames[k].made && n.pkt.Packet?
    ensures n.pkt.tag == run[i].epoch
  {
    RunInv(run, i);
    assert run[i].frames[k] in run[i].frames;
    assert Tagged(n, run[i].epochOf);
  }

  lemma EntersDecode(s: State, a: DecoderAct, s': State)
    requires DecoderInv(s.dec) && DecoderStep(s, a, s') && s'.dec.pc.Decode?
    ensures s'.dec.pkt.pkt.Packet? && s'.dec.pkt.serial == s.queue.serial && AllSerial(s'.dec.codec, s.queue.serial)
  {
    assert s.dec.pc.CheckPending? || s.dec.pc.CheckStale?;
  }

  /** A packet reaches the codec only when its serial was the queue's at the check, and then everything
      the codec has seen since its last flush carries that serial. */
  lemma DecodeIsCurrent(run: seq<State>, i: nat, a: DecoderAct)
    requires IsRun(run) && i + 1 < |run| && DecoderStep(run[i], a, run[i + 1]) && run[i + 1].dec.pc.Decode?
    ensures run[i + 1].dec.pkt.pkt.Packet? && run[i + 1].dec.pkt.serial == run[i].queue.serial
    ensures forall n :: n in run[i + 1].dec.codec ==> n.serial == run[i].queue.serial
  {
    RunInv(run, i);
    EntersDecode(run[i], a, run[i + 1]);
  }

  /** The codec has answered an end-of-stream packet of the current serial with nothing. */
  predicate Drained(s: State) { s.dec.drained == s.queue.serial }

  /** A filter graph that was in use under the current serial has come to its end. */
  predicate GraphEnded(s: State) { s.dec.graphEnd.serial == s.queue.serial }

  /** `finished` equals the queue's serial, as read_thread tests at the end of the file, exactly when the codec
      has been drained or the filter graph has ended under that serial, or the value is left over: while a
      stream is being reopened neither has happened to the new codec. */
  lemma FinishedMeansEnded(run: seq<State>, i: nat)
    requires IsRun(run) && i < |run| && run[i].queue.serial > 0
    ensures var s := run[i];
      Drained(s) || GraphEnded(s) <==> s.dec.finished == s.queue.serial && !Reopening(s.owner)
  {
    RunInv(run, i);
    ChainBounds(run[i].dec.marker, run[i].queue.nodes, 0);
  }

  /** A drained codec holds an end-of-stream packet of the current serial and nothing of another serial; a
      filter graph that ended had been fed with nothing of another serial. */
  lemma EndsAreGenuine(run: seq<State>, i: nat)
    requires IsRun(run) && i < |run| && run[i].queue.serial > 0
    ensures Drained(run[i]) ==>
      HoldsEnd(run[i].dec, run[i].queue.serial) && AllSerial(run[i].dec.codec, run[i].queue.serial)
    ensures GraphEnded(run[i]) ==> AllSerial(run[i].dec.graphEnd.fed, run[i].queue.serial)
  {
    RunInv(run, i);
    ChainBounds(run[i].dec.marker, run[i].queue.nodes, 0);
  }

  /** Only what is stale is skipped: a packet taken out is decoded exactly when the queue still has its serial, and a
      packet that has not been used up is decoded on exactly as long as the queue has. A packet is used up by an error
      or by the codec taking all of it; the end of the stream is, once the codec answers with nothing. Audio, for
      which `usedUp` stands at the sink, stops taking frames from the filter graph once a seek has made them stale. */
  lemma OnlyStaleIsSkipped(run: seq<State>, i: nat, a: DecoderAct, s': State)
    requires IsRun(run) && i < |run| && DecoderStep(run[i], a, s')
    ensures var (s, d) := (run[i], run[i].dec);
      && (d.pc.CheckStale? ==>
            if d.pc.got.serial == s.queue.serial then s'.dec.pc.Decode? && s'.dec.pkt == d.pc.got && s'.dec.pending
            else d.pc.got.serial < s.queue.serial && s'.dec.pc.Get?)
      && (d.pc.CheckPending? && d.pending ==>
            if d.pkt.serial == s.queue.serial then s'.dec.pc.Decode? && s'.dec.pkt == d.pkt
            else d.pkt.serial < s.queue.serial && s'.dec.pc.Get?)
      && (d.pc.Decode? ==>
            && s'.dec.codec == d.codec + [d.pkt] && s'.dec.pkt == d.pkt && d.pkt.pkt.Packet?
            && (s'.dec.pending <==> !a.err && if d.pkt.pkt.hasData then !a.usedUp else a.got))
      && (d.pc.Sink? && a.got && a.usedUp && s.queue.serial != d.pktSerial ==> s'.dec.pc.CheckAbort?)
  {
    RunInv(run, i);
    ChainBounds(run[i].dec.marker, run[i].queue.nodes, 0);
  }

  // ---- what a seek does to the queue ------------------------------------------------------------

  ghost predicate AllOfEpoch(nodes: seq<Node>, epoch: nat) {
    forall n :: n in nodes && n.pkt.Packet? ==> n.pkt.tag == epoch
  }

  /** Outside a seek the queue holds only packets read since the last one, and none between the seek's flush and its
      marker. */
  ghost predicate FreshInv(s: State) {
    && (s.reader.Outside? ==> AllOfEpoch(s.queue.nodes, s.epoch))
    && (s.reader.AboutToMark? ==> forall n :: n in s.queue.nodes ==> n.pkt.FlushPkt?)
  }

  lemma StepKeepsFresh(s: State, s': State)
    requires Inv(s) && FreshInv(s) && Next(s, s')
    ensures FreshInv(s')
  {
    if OwnerStep(s, s') {
    } else if a: ReaderAct :| ReaderStep(s, a, s') {
    } else {
      var a: DecoderAct :| DecoderStep(s, a, s');
      assert forall n :: n in s'.queue.nodes ==> n in s.queue.nodes;
    }
  }

  /** A seek throws away all packets read before it: once it is over, none of them is in the queue. */
  lemma {:induction false} SeekEmptiesQueue(run: seq<State>, i: nat)
    requires IsRun(run) && i < |run|
    ensures FreshInv(run[i])
    decreases i
  {
    if i > 0 {
      SeekEmptiesQueue(run, i - 1);
      RunInv(run, i - 1);
      assert Goes(run, i);
      StepKeepsFresh(run[i - 1], run[i]);
    }
  }
}
