# A verified model of the ffmpeg command line programs

This project models the parts of ffmpeg, ffplay and ffprobe that keep state across calls or threads, and proves
what they are relied on for.

* **ffplay's pipeline.** The packet queue is modelled as the linked list it is (`PacketQueue.dfy`) and as a sequence
  (`QueueSpec.dfy`); the methods of the list refine the operations on the sequence. On top of the sequence,
  `SeekPurity.dfy` interleaves the demuxing thread, the thread that opens and closes a stream and the decoder
  thread, one critical section or one unlocked read at a time. A seek's flush and its marker are separate steps, as
  in the code; `SeekRuns.dfy` steps through concrete runs. `FrameQueue.dfy` is the ring of decoded frames as a class;
  `FrameRing.dfy` is the same ring shared by two threads, with every update that the code makes outside the lock as a
  step of its own. `AudioCallback.dfy` cuts buffers into the pieces that the audio device asks for.
* **The condition variable of `w32pthreads.h`** for systems without a native one (`CondVar.dfy`): any number of
  threads, every statement on shared state a step. One history records for each release of the semaphore who was
  registered and who was let through, another which threads are inside the critical section of the caller's mutex.
* **ffmpeg's output timing** (`VideoSync.dfy`, `MuxTimestamps.dfy`): duplication, dropping and numbering of pictures
  in `do_video_out`, and the repair of timestamps in `write_frame`. The doubles are reals, timestamps are mathematical
  integers, and "no timestamp" is a case of its own.
* **ffprobe's writers** (`Writers.dfy`, `WriterContext.dfy`, `Validation.dfy`, `Selection.dfy`): the section stack and
  the JSON, XML and CSV printers, first as functions that say which tokens a call prints, then as a class whose
  printed text is the rendering of those tokens. `Selection.dfy` takes out of a tree what was not asked for, and proves
  that the rest is what is printed. `Tokens.dfy` holds a lexer; `JsonReader.dfy`, `XmlSyntax.dfy` and `CsvReader.dfy` hold
  parsers written after RFC 8259, XML 1.0 and RFC 4180. The one for XML keeps every blank (section 3.1 wants one
  before each attribute and none after `<`), turns tabs and line ends of attribute values into blanks (sections 2.11
  and 3.3.3) and refuses characters that XML does not have (section 2.2). `JsonReader.dfy`, `XmlReader.dfy` and
  `CsvReader.dfy` prove when the text parses back. `Escapes.dfy` inverts the escape functions, and `Documents.dfy`
  puts the class and the parsers together.
* **Command lines**: `split_commandline` (`Cmdline.dfy`) and the replacement `getopt` (`Getopt.dfy`).

`Common.dfy` holds what several of these need.

What the proofs found, beyond confirming the design:

* JSON that ffprobe prints is unreadable exactly when the first item selected in a section is not printed but a later
  one is (a string that fails validation still counts, `ffprobe.c:650`), or when a packet or frame in the mixed list
  has no printed first item after its type (`ffprobe.c:1419`). `JsonReader.JsonRoundTrip` states this as an
  if-and-only-if.
* XML that ffprobe prints is read back as the section tree exactly when attributes are printed only while the
  section's own start tag is open, no two attributes of a tag have one key, every character is an XML character, and
  no printed value or key holds a tab or a line end (`XmlReader.XmlRoundTrip`). `xml_escape_str` (`ffprobe.c:1549-1565`)
  leaves all these characters as they are, so a comment of two lines comes back as one (`XmlReader.LineEndIsLost`), and
  a control character makes the output no XML at all (`XmlReader.ControlCharacterIsFatal`). `XmlReader.ReadsOutput`
  says what a reader gets in every case.
* When the duplication in `do_video_out` is refused as too large (`ffmpeg.c:1067-1071`), a picture that was already
  marked dropped is counted as dropped twice (`VideoSync.DropCountedTwice`). `VideoSync.NothingMissing` says exactly
  which calls keep the books.
* In VSCFR mode the first picture is rounded twice, so there the drift is only bounded by one frame, not half a frame,
  and the bound is reached (`VideoSync.FirstVscfrDriftsFurther`).
* In passthrough mode, and when timestamps are dropped, the encoder's timestamps keep rising exactly when each
  picture's rounded time is later than all before it (`VideoSync.PassthroughRises`); nothing in the code sees to that
  (`VideoSync.PassthroughMayGoBack`).
* A packet without a dts makes the muxer's check forget the last one (`MuxTimestamps.GapForgetsTheLast`); order with
  packets before the gap then depends on the next packet alone (`MuxTimestamps.OrderAcrossGap`).
* In a ring with one slot that keeps the frame last shown, reader and writer of the frame queue would wait for each
  other for ever; in any larger ring never (`FrameRing.NobodyStarves`).
* The C-style escape loses information exactly when the separator is b, f, n or r.
* `finished` of a decoder equals the queue's serial exactly when, under that serial, the codec was drained or the
  filter graph came to its end, or when the value is left over from the previous stream, between the opening of the
  codec and `decoder_init` (`SeekPurity.FinishedMeansEnded`). Both exceptions to "an end-of-stream packet was decoded"
  happen: `SeekRuns.GraphEndsAlone` is a run in which only the filter graph ends (`ffplay.c:2249-2250`), and
  `SeekRuns.FinishedIsLeftOver` one in which a stream that has just been opened again is taken for finished
  (`ffplay.c:549-555`).
* An error in `audio_decode_frame` yields no sound, and no progress of the callback's loop, for sample frames larger
  than 512 bytes (`AudioCallback.SilenceIsNotEmpty`).

## Model

| member | source | states |
|---|---|---|
| CondVar.Preserved | ffmpeg/compat/w32pthreads.h:306-394 | Every statement of wait, signal and broadcast, by any thread in any state, keeps the protocol's invariant: who owns which mutex, the caller's included, the counter as the number of counted threads, what a round in progress has done so far, and that all closed rounds were exact. |
| CondVar.RunInv | ffmpeg/compat/w32pthreads.h:245-394 | The invariant holds in every state of every interleaving of any number of threads. |
| CondVar.RoundsAreExact | ffmpeg/compat/w32pthreads.h:306-394 | A signal round that is over let through exactly one of the threads registered when it started; a broadcast round exactly all of them. |
| CondVar.SignalWakesOne | ffmpeg/compat/w32pthreads.h:370-394 | In any run, from reading the counter to giving mtx_broadcast back, a call of signal lets through exactly one of the threads registered when it read the counter, and nobody when nobody was; no other round is opened meanwhile. |
| CondVar.BroadcastWakesAll | ffmpeg/compat/w32pthreads.h:306-336 | The same of broadcast: all of the threads registered when it read the counter, and nobody else. |
| CondVar.InsideExcludes | ffmpeg/compat/w32pthreads.h:352-367 | In every state of every run the caller's mutex is locked exactly when a thread is inside its critical section, as its own calls tell, or in a wait that has not unlocked it yet; there is never more than one such thread. |
| CondVar.WaitReturnsInside | ffmpeg/compat/w32pthreads.h:366-367 | A wait returns only when the mutex is free and nobody is inside, and then its thread owns the mutex and is the only one inside. |
| CondVar.NoSpuriousWakeup | ffmpeg/compat/w32pthreads.h:338-368 | No wait gets past the semaphore or returns unless a recorded round let that very thread through, and the thread was registered when the round started. |
| CondVar.WakesAreFresh | ffmpeg/compat/w32pthreads.h:356-356 | A thread that passes the semaphore belongs to the round in progress and has not been let through by it before. |
| CondVar.AtRest | ffmpeg/compat/w32pthreads.h:306-394 | With no round in progress the semaphore is 0, waiters_done unset, is_broadcast 0, and waiter_count is the number of registered threads. |
| CondVar.NoLostWakeup | ffmpeg/compat/w32pthreads.h:318-324 | A thread that has given up the external mutex inside wait is seen by any signal or broadcast that reads the counter from then on. |
| CondVar.SomeWaiterCanStep | ffmpeg/compat/w32pthreads.h:356-364 | Whoever waits for waiters_done that is unset always has a thread of the round that can take a step. |
| CondVar.NoDeadlock | ffmpeg/compat/w32pthreads.h:306-394 | While any thread is in one of the three functions, other than asleep until woken or waiting for the caller's mutex, some thread in them can step. |
| CondVar.WorkRunsOut | ffmpeg/compat/w32pthreads.h:356-364 | While somebody waits for waiters_done, the total work left to the waiting threads never grows and falls with each of their steps. |
| CondVar.RoundIsBounded | ffmpeg/compat/w32pthreads.h:356-364 | Over any stretch of a run during which somebody waits for waiters_done, the waiting threads take at most as many steps as there was work at its start, whatever other steps come between; so the event is set after boundedly many of them. |
| CondVar.BroadcastDecrements | ffmpeg/compat/w32pthreads.h:358-361 | The waiter of a broadcast that counts itself out as the last one is the only thread still to check out. |
| CondVar.SignalCloses | ffmpeg/compat/w32pthreads.h:386-390 | A signaller sees waiters_done only when its round has released exactly one thread, and leaves the protocol ready for the next round. |
| CondVar.BroadcastCloses | ffmpeg/compat/w32pthreads.h:326-331 | A broadcaster sees waiters_done only when all threads of its round have checked out. |
| SeekPurity.FramesArePure | ffmpeg/ffplay.c:557-641 | In every interleaving, a frame labelled with a serial is made only from packets queued under that serial, all read after the same seek. |
| SeekPurity.AcceptedFramesAreCurrent | ffmpeg/ffplay.c:3027-3039 | Once no seek is in progress, a frame whose label equals the queue's serial contains nothing read before the last seek. |
| SeekPurity.DecodeIsCurrent | ffmpeg/ffplay.c:566-587 | A packet reaches the codec only if its serial was the queue's at the check, and then everything in the codec since its last flush has that serial. |
| SeekPurity.FinishedMeansEnded | ffmpeg/ffplay.c:3077-3078 | What read_thread tests at the end of the file: finished equals the queue's serial, outside the reopening of a stream, if and only if under that serial the codec answered an end-of-stream packet with nothing or a filter graph came to its end; during reopening neither has happened. |
| SeekPurity.EndsAreGenuine | ffmpeg/ffplay.c:573-635 | A drained codec holds an end-of-stream packet of the current serial and only packets of it, and a graph that ended under the current serial had been fed with nothing else. |
| SeekPurity.OnlyStaleIsSkipped | ffmpeg/ffplay.c:566-637 | A packet taken out, or not used up yet, is decoded exactly when the queue still has its serial; a decoded one is kept for another turn exactly when it has not been used up; audio stops taking stale frames from the filter graph. |
| SeekPurity.SeekEmptiesQueue | ffmpeg/ffplay.c:3016-3045 | Outside a seek the queue holds only packets read after the last one, and no packets between a seek's flush and its marker. |
| SeekRuns.FrameComesOut | ffmpeg/ffplay.c:557-641 | A run in which a packet that is read comes out as a frame under the current serial. |
| SeekRuns.GraphEndsAlone | ffmpeg/ffplay.c:2249-2250 | A run in which finished equals the queue's serial because the filter graph ended, with no end-of-stream packet in the codec. |
| SeekRuns.FinishedIsLeftOver | ffmpeg/ffplay.c:549-555 | A run that plays a stream, closes it and opens it again: the stream is open, nothing has been given to its codec, and finished still equals the queue's serial. |
| SeekPurity.RunInv | ffmpeg/ffplay.c:398-424 | The invariants about queue, decoder, stream owner, frames and epochs hold in every state of every run. |
| SeekPurity.ReaderKeeps | ffmpeg/ffplay.c:3016-3051 | The demuxing thread keeps the invariant, although a seek's flush and its marker are two critical sections between which others run. |
| SeekPurity.OwnerKeeps | ffmpeg/ffplay.c:1138-1194 | Opening, starting, aborting, joining, flushing and closing a stream keep it. |
| SeekPurity.DecoderKeeps | ffmpeg/ffplay.c:557-641 | Every step of the decoder thread keeps it: the flush on a marker, the stale check, decoding, filtering, the end of the filter graph, the check after the frame queue, and the exits on errors. |
| SeekPurity.DecoderKeepsFinished | ffmpeg/ffplay.c:573-635 | finished is cleared with the codec, so it is 0 or the serial of the last packet taken out, and set only by a drained codec or by the end of a filter graph that was fed with that serial only. |
| QueueSpec.PutChain | ffmpeg/ffplay.c:398-424 | Putting keeps serials non-decreasing from head to tail, rising at flush markers and only there; the new node has the queue's serial. |
| QueueSpec.RestChain | ffmpeg/ffplay.c:512-547 | Taking the head out leaves such a chain; a packet has the serial before it and a marker a greater one. |
| QueueSpec.OperationsKeepOrder | ffmpeg/ffplay.c:398-547 | After any sequence of queue operations no serial exceeds the queue's, none decreases from head to tail, and a marker's serial is greater than every one before it. |
| PacketQueues.PacketQueue.PutPrivate | ffmpeg/ffplay.c:398-424 | The linked list becomes the sequence with the node appended, refused when aborted; last_pkt stays the tail, nb_packets the length and size the sum of packet and node sizes. |
| PacketQueues.PacketQueue.Link | ffmpeg/ffplay.c:414-418 | The new node becomes the tail of the list, and no other node's contents change. |
| PacketQueues.PacketQueue.FlushAll | ffmpeg/ffplay.c:468-483 | The walk unreferences every packet once, in order, and leaves the empty queue with the same serial. |
| PacketQueues.PacketQueue.Get | ffmpeg/ffplay.c:512-547 | Aborted, empty or the head with its serial, with exactly the head removed and the counters adjusted. |
| PacketQueues.PacketQueue.StartQueue | ffmpeg/ffplay.c:503-509 | Clears the abort flag and puts the flush marker, which raises the serial. |
| PacketQueues.PacketQueue.RequestAbort | ffmpeg/ffplay.c:492-501 | Only sets the abort flag. |
| PacketQueues.PacketQueue.Init | ffmpeg/ffplay.c:451-466 | A new queue is empty, aborted and has serial 0. |
| FrameRing.SlotIsExclusive | ffmpeg/ffplay.c:700-783 | While the writer fills the slot from frame_queue_peek_writable, the reader may touch every slot but that one: not the last shown, current or guarded next frame, nor one it still points into. |
| FrameRing.HeldFramesAreStable | ffmpeg/ffplay.c:2435-2437 | A slot the reader points to keeps its contents through any step of either thread, including the sample frame that audio_buf points into after frame_queue_next. |
| FrameRing.ReaderSeesPushOrder | ffmpeg/ffplay.c:700-713 | The peeked frame is the next one in the order of the pushes, nothing skipped or repeated, and the last shown frame is the one before it. |
| FrameRing.NothingLost | ffmpeg/ffplay.c:747-770 | Frames pushed are frames popped plus those in the ring, and size stays within the ring. |
| FrameRing.ReaderMoves | ffmpeg/ffplay.c:757-778 | Going to the next frame moves the reader on by exactly one, going back moves it to the frame last shown, nothing else moves it, and a frame passed for good is unreferenced. |
| FrameRing.NobodyStarves | ffmpeg/ffplay.c:715-745 | Between operations the reader has a frame or the writer a slot, if and only if the ring is not a single slot holding the frame last shown. |
| FrameRing.RunInv | ffmpeg/ffplay.c:700-794 | Indices, occupancy and contents agree in every interleaving, with windex raised before size and rindex before size is lowered; what is pushed is what the writer put into its slot. |
| FrameRing.WriterKeeps | ffmpeg/ffplay.c:715-755 | Every step of the writing thread keeps that, whatever the reader is in the middle of. |
| FrameQueues.FrameQueue.Init | ffmpeg/ffplay.c:659-678 | No frame shown and none waiting; at most 16 slots. |
| FrameQueues.FrameQueue.PeekWritable | ffmpeg/ffplay.c:715-729 | A slot exactly when the waiting frames and the kept one do not fill the ring and the packet queue is not aborted. |
| FrameQueues.FrameQueue.Fill | ffmpeg/ffplay.c:715-729 | Filling the writable slot changes neither the last shown frame nor those waiting. |
| FrameQueues.FrameQueue.Push | ffmpeg/ffplay.c:747-755 | Appends the filled slot to the waiting frames. |
| FrameQueues.FrameQueue.Next | ffmpeg/ffplay.c:757-770 | Removes the first waiting frame; with keep_last it becomes the last shown one, and the one before it is given back. |
| FrameQueues.FrameQueue.Prev | ffmpeg/ffplay.c:773-778 | Puts the last shown frame back in front and says whether there was one. |
| FrameQueues.FrameQueue.NbRemaining | ffmpeg/ffplay.c:780-784 | The number of waiting frames. |
| FrameQueues.FrameQueue.Peek | ffmpeg/ffplay.c:700-703 | The first waiting frame. |
| FrameQueues.FrameQueue.PeekNext | ffmpeg/ffplay.c:705-708 | The second waiting frame. |
| FrameQueues.FrameQueue.PeekLast | ffmpeg/ffplay.c:710-713 | The last shown frame if there is one, waiting frames or not; else the first waiting, or with nothing waiting the slot it will go into. |
| FrameQueues.FrameQueue.LastPos | ffmpeg/ffplay.c:786-794 | The last shown frame's position unless its serial is stale, else -1. |
| AudioCallback.Player.Callback | ffmpeg/ffplay.c:2529-2564 | The buffers are cut into pieces that continue their concatenation exactly where the last call stopped; the bytes written are those pieces as they are heard (copied at full volume, silent when muted, else mixed onto silence), and the loop ends when the buffers to come hold enough bytes. |
| AudioCallback.Player.CopySome | ffmpeg/ffplay.c:2535-2563 | One turn of the loop: what is left of the buffer or a new one, as much as fits, is passed on once and heard at the right place; it makes progress or takes another buffer. |
| AudioCallback.CutsAreNotHeard | ffmpeg/ffplay.c:2555-2561 | At full volume, and when muted, where the buffers are cut makes no difference to what is heard. |
| AudioCallback.WhatIsHeard | ffmpeg/ffplay.c:2555-2561 | Muted, the device gets as many zeros as there were bytes; at full volume the very bytes; otherwise each piece as it is mixed. |
| AudioCallback.PlayAll | ffmpeg/ffplay.c:2529-2564 | Over any sequence of callbacks of any lengths at full volume, the bytes delivered are exactly a prefix of the concatenation of the buffers (silence for errors), nothing lost or repeated across callback or buffer boundaries. |
| AudioCallback.NonEmptySuffices | ffmpeg/ffplay.c:2536-2551 | If no buffer is empty, n buffers hold enough bytes for any request of n bytes. |
| AudioCallback.SilenceIsNotEmpty | ffmpeg/ffplay.c:2541-2542 | The block of silence for an error is non-empty exactly when a sample frame has at most 512 bytes. |
| AudioCallback.SilenceIsWholeFrames | ffmpeg/ffplay.c:2541-2542 | The silence is zeros, as many whole sample frames as fit into 512 bytes. |
| VideoSync.OutputStream.DoVideoOut | ffmpeg/ffmpeg.c:947-1249 | The new state of the stream and the changes of nb_frames_dup and nb_frames_drop, for pictures, flushing, refused duplications and early returns. |
| VideoSync.OutputStream.Encode | ffmpeg/ffmpeg.c:1085-1237 | The encoding loop, with its two early returns. |
| VideoSync.OutputStream.MakePlan | ffmpeg/ffmpeg.c:966-1055 | The number of frames and of repeats decided in each sync mode, and sync_opts, from the picture's time, its duration and the mode. |
| VideoSync.OutputStream.FrameDuration | ffmpeg/ffmpeg.c:966-980 | The filter's duration, limited by the stream's, or without filters the rounded duration of the packet if it has one. |
| VideoSync.OutputStream.SyncMethod | ffmpeg/ffmpeg.c:992-1009 | The mode when it is left to ffmpeg: VFR for AVI, otherwise by the format's flags, and VSCFR instead of CFR for a sole input stream read from its start or with copied timestamps. |
| VideoSync.AutomaticMode | ffmpeg/ffmpeg.c:992-1009 | Left to itself ffmpeg keeps a constant rate exactly for formats that have one, VSCFR only with copied timestamps or a sole stream; formats with free timestamps never get repeats. |
| VideoSync.ShortestDuration | ffmpeg/ffmpeg.c:966-980 | The packet's rounded duration when it counts; otherwise no longer than the filter's frame and the stream's, and one of them. |
| VideoSync.OutputStream.Account | ffmpeg/ffmpeg.c:1066-1082 | When a call is refused, and by how much it changes nb_frames_dup and nb_frames_drop. |
| VideoSync.DuplicationLimit | ffmpeg/ffmpeg.c:1066-1080 | A call is refused only for more than 30 thresholds of frames, and then encodes nothing; no call counts more than that as duplicated. |
| VideoSync.CallEncodes | ffmpeg/ffmpeg.c:1057-1237 | A call encodes consecutive timestamps from sync_opts, the previous picture for the first nb0 frames and then the new one, as many as planned or fewer when cut short. |
| VideoSync.CallBalances | ffmpeg/ffmpeg.c:1060-1083 | The books of one call: picture in + duplicated + previously marked dropped = out + dropped + now marked dropped + missing. |
| VideoSync.NothingMissing | ffmpeg/ffmpeg.c:1066-1103 | Nothing is missing if and only if the call is refused, brings a picture and does not find the last one marked dropped with no repeat planned; or is not refused, has pictures for all its frames and does not reach the recording time before the last one. |
| VideoSync.FinishesIfItCan | ffmpeg/ffmpeg.c:1085-1108 | The encoding loop runs to its end if and only if a picture or a previous one is there, and sync_opts plus the planned frames does not exceed the recording time. |
| VideoSync.DropCountedTwice | ffmpeg/ffmpeg.c:1060-1071 | A call at which one picture is counted as dropped twice: one frame more in the books than there was. |
| VideoSync.FramesConserved | ffmpeg/ffmpeg.c:1057-1237 | Over any run on any number of streams: pictures in + dup = out + drop + streams with last_dropped + missing; flushing calls and max_frames cuts included. |
| VideoSync.BooksClose | ffmpeg/ffmpeg.c:1633-1634 | If every call meets the condition of NothingMissing, pictures in + dup = out + drop after the last report. |
| VideoSync.LastReport | ffmpeg/ffmpeg.c:1633-1634 | The last report adds one drop for each stream with last_dropped. |
| VideoSync.CallIsSound | ffmpeg/ffmpeg.c:1057-1061 | frame_number never exceeds a non-negative max_frames, in any mode. |
| VideoSync.SyncNeverGoesBack | ffmpeg/ffmpeg.c:1012-1055 | In CFR, VSCFR and VFR no rewrite of sync_opts lowers it. |
| VideoSync.TimestampsRise | ffmpeg/ffmpeg.c:1012-1232 | In those modes, also mixed, the pts given to the encoder strictly increases over the whole run. |
| VideoSync.VfrPicture | ffmpeg/ffmpeg.c:1045-1050 | A VFR picture is dropped if and only if it ends 0.6 frames or more before sync_opts; otherwise it is encoded once, at the larger of sync_opts and its rounded time when it ends more than 0.6 frames after sync_opts, else at sync_opts. |
| VideoSync.VfrKeepsTime | ffmpeg/ffmpeg.c:1045-1050 | In any run, a VFR picture that starts no earlier than sync_opts and ends more than 0.6 frames after it is encoded within half a tick of its own time. |
| VideoSync.VfrFollowsInput | ffmpeg/ffmpeg.c:1045-1050 | A run of VFR pictures of more than 1.1 ticks whose rounded times rise is passed on as it is: every picture once, at its own rounded time. |
| VideoSync.PassthroughRises | ffmpeg/ffmpeg.c:1051-1054 | In passthrough and drop mode the encoder's timestamps go on rising after a picture if and only if its rounded time is later than every timestamp before. |
| VideoSync.PassthroughEncodes | ffmpeg/ffmpeg.c:1051-1054 | In passthrough and drop mode each picture is encoded once, at its own rounded time. |
| VideoSync.PassthroughMayGoBack | ffmpeg/ffmpeg.c:1051-1054 | A run of two pictures, by the first of which they rise and by the second go back. |
| VideoSync.CallDrift | ffmpeg/ffmpeg.c:987-1044 | One picture leaves the end of the input frame between 2.1 frames behind and half a frame (first VSCFR picture: one frame) ahead of sync_opts. |
| VideoSync.FirstVscfrDriftsFurther | ffmpeg/ffmpeg.c:1023-1044 | The bound of one frame for the first VSCFR picture is reached. |
| VideoSync.DriftBounded | ffmpeg/ffmpeg.c:987-1044 | The same after every picture of a run of any length whose frame ends never go backwards, with frame_drop_threshold 0 and no early return or max_frames cut: errors do not add up. |
| VideoSync.GapIsFilled | ffmpeg/ffmpeg.c:1038-1095 | In CFR the previous picture's repeats all end before the new picture starts, and the new one is encoded at most 1.1 frames before its start. |
| VideoSync.GapShowsPrevious | ffmpeg/ffmpeg.c:1038-1240 | Over two calls, what fills the gap is the picture of the call before. |
| VideoSync.CfrPicture | ffmpeg/ffmpeg.c:1033-1044 | A CFR picture makes no frame when it ends more than 1.1 frames before sync_opts, one when it ends within 1.1 frames of it, and else the rounded distance. |
| VideoSync.ThresholdDrops | ffmpeg/ffmpeg.c:1035-1036 | With a drop threshold a picture after the first that ends before it makes no frame; all others are treated as without. |
| VideoSync.VscfrStartsWithInput | ffmpeg/ffmpeg.c:1026-1032 | In VSCFR mode a first picture that starts late is encoded at its own rounded time, with nothing before it. |
| VideoSync.FlushRepeats | ffmpeg/ffmpeg.c:982-1066 | Flushing repeats the last picture as often as the middle one of the numbers of repeats in the last three calls, up to max_frames. |
| VideoSync.MedianIsMiddle | ffmpeg/ffmpeg.c:982-986 | The median is one of the three numbers, with two at least as large and two at most as large. |
| MuxTimestamps.OutputStream.WriteFrame | ffmpeg/ffmpeg.c:643-764 | Each packet is repaired against last_mux_dts, counted and cut off at max_frames where the code does so; the whole output is the repaired run. |
| MuxTimestamps.InvalidPairBecomesMedian | ffmpeg/ffmpeg.c:730-740 | A pair with dts > pts is replaced by the median of pts, dts and last_mux_dts + 1 (raised to the earliest allowed dts if the median is too early). |
| MuxTimestamps.FirstPairTakesPts | ffmpeg/ffmpeg.c:730-740 | Without a last timestamp the dts of such a pair gives way to the pts. |
| MuxTimestamps.ConformingUnchanged | ffmpeg/ffmpeg.c:729-763 | A packet passes unchanged if and only if dts <= pts and dts is not too early; repairing twice is repairing once. |
| MuxTimestamps.MovedNoFurther | ffmpeg/ffmpeg.c:741-763 | A pair in order is moved no further than it must be: dts to the earliest one allowed, pts only if it would be before that. |
| MuxTimestamps.OnlyDiscarded | ffmpeg/ffmpeg.c:643-645 | Video in drop mode and audio with a negative audio_sync_method lose their timestamps; all others keep theirs where they have them. |
| MuxTimestamps.NeighboursInOrder | ffmpeg/ffmpeg.c:729-764 | Over a whole run every packet with pts and dts leaves with pts >= dts, and neighbours with dts are in order. |
| MuxTimestamps.TimestampsRise | ffmpeg/ffmpeg.c:741-764 | Between any two packets with no dts missing in between, dts strictly increases (does not decrease with AVFMT_TS_NONSTRICT). |
| MuxTimestamps.OrderAcrossGap | ffmpeg/ffmpeg.c:729-764 | Right after a packet without a dts: order with any earlier packet holds if and only if the new packet's own dts, made consistent with its pts, is late enough. |
| MuxTimestamps.GapForgetsTheLast | ffmpeg/ffmpeg.c:764-764 | A packet without dts in between lets dts fall: the condition is needed. |
| Escapes.JsonEscape | ffmpeg/ffprobe.c:1366-1384 | The loop computes the character-wise escape. |
| Escapes.IniEscape | ffmpeg/ffprobe.c:1250-1275 | The loop computes the character-wise escape. |
| Escapes.XmlEscape | ffmpeg/ffprobe.c:1549-1565 | The loop computes the character-wise escape. |
| Escapes.FlatEscape | ffmpeg/ffprobe.c:1159-1175 | The loop computes the character-wise escape. |
| Escapes.CEscape | ffmpeg/ffprobe.c:904-922 | The loop computes the character-wise escape. |
| Escapes.ReadsEscaped | ffmpeg/ffprobe.c:1366-1384 | Reading one character takes off exactly what escaping it put there, whatever follows: the escapes form a prefix code. |
| Escapes.DecodeEscape | ffmpeg/ffprobe.c:1159-1175 | decode(escape(s)) = s for every string in all five styles, the C style for separators other than b, f, n, r. |
| Escapes.CStyleLosesNothing | ffmpeg/ffprobe.c:904-922 | The C-style escape is injective if and only if the separator is none of b, f, n, r. |
| Escapes.EscapedIsGuarded | ffmpeg/ffprobe.c:1250-1275 | In all five styles no escaped value holds a raw character that would end it or mean something where it is read: quotes, separators, control characters, line ends, `$` and backquotes, markup. |
| Escapes.PlainStays | ffmpeg/ffprobe.c:1366-1384 | Text without such characters stays as it is. |
| Tokens.LexRender | ffmpeg/ffprobe.c:1388-1484 | Text rendered from tokens whose neighbours cannot run together lexes back to the tokens: without layout in JSON, with every blank in XML. |
| Writers.WriteRestores | ffmpeg/ffprobe.c:510-560 | Writing a whole subtree leaves the section stack as it was, one item counted in the section around it, and indent_level restored. |
| Writers.NumberedInOrder | ffmpeg/ffprobe.c:522-545 | In a mixed list the number given to a packet or frame is how many of its kind come before it in the list, whatever they contain. |
| WriterContexts.WriterContext.PrintSectionHeader | ffmpeg/ffprobe.c:510-532 | The text printed is the rendering of the header's tokens, the section is pushed with no items, and the numbers of packets and frames are updated. |
| WriterContexts.WriterContext.NumberSection | ffmpeg/ffprobe.c:522-528 | A mixed list starts the numbers afresh; a packet or frame in one gets the number of its kind. |
| WriterContexts.WriterContext.PrintSectionFooter | ffmpeg/ffprobe.c:534-548 | The text printed is the rendering of the footer's tokens, the section is popped and counted as an item, and as a packet or frame of a mixed list. |
| WriterContexts.WriterContext.PrintScalar | ffmpeg/ffprobe.c:550-654 | A selected item is counted, and printed unless validation has rejected it; others do nothing. Which items are selected: Selection.OpenScalar. |
| Selection.OpenScalar | ffmpeg/ffprobe.c:556-559 | An item whose key is not among the entries asked for, or that is optional where optional fields are not displayed, leaves no trace; every other one prints what it prints in a section that shows all entries. |
| Selection.LeftAreThoseAskedFor | ffmpeg/ffprobe.c:625-630 | What is left of a section are exactly the items with a key among the entries, or all of them, optional ones only where they are displayed. |
| Selection.WriteSelected | ffmpeg/ffprobe.c:510-654 | Writing any tree in any context prints exactly what writing its selection prints, and leaves the same context. |
| Selection.FullIsVisible | ffmpeg/ffprobe.c:556-556 | A section that shows all entries shows every item that is not optional. |
| WriterContexts.WriterContext.PrintString | ffmpeg/ffprobe.c:620-654 | Key and value are validated when that is asked for; the string is printed as validated or as given, or counted without being printed when one of them is rejected. |
| WriterContexts.WhatIsPrinted | ffmpeg/ffprobe.c:620-654 | Without validation key and value are printed as given; with it as validation returns them, and not at all exactly when it rejects one of them. |
| Validation.ValidateString | ffmpeg/ffprobe.c:562-614 | The loop keeps, replaces or rejects each undecodable sequence as the mode says, and keeps all others. |
| Validation.ValidIsKept | ffmpeg/ffprobe.c:562-614 | A valid string is never changed, nor is any string in ignore mode; a string is rejected if and only if it is not valid and the mode is fail. |
| Validation.OutcomeByChunks | ffmpeg/ffprobe.c:562-614 | Taken apart into sequences: ignoring keeps all, replacing keeps the valid ones and puts the replacement for each other, failing rejects the string if there is one. |
| WriterContexts.WriterContext.WriteTree | ffmpeg/ffprobe.c:510-654 | Header, items and footer of any tree of at most 10 levels print exactly the tokens the round trips are about. |
| WriterContexts.CsvEscaped | ffmpeg/ffprobe.c:927-943 | Quotes are put around exactly when the separator, a quote or a line end occurs, and quotes are doubled. |
| WriterContexts.WriterContext.JsonHeader | ffmpeg/ffprobe.c:1388-1424 | Comma, key, bracket and the type member as the section and its parent demand. |
| WriterContexts.WriterContext.JsonFooter | ffmpeg/ffprobe.c:1426-1446 | Closing bracket and layout. |
| WriterContexts.WriterContext.JsonScalar | ffmpeg/ffprobe.c:1448-1484 | Separator, indentation, escaped key and escaped string or number. |
| Writers.CompactIsOneLine | ffmpeg/ffprobe.c:1388-1484 | In compact JSON an object without subsections stands on one line. |
| WriterContexts.WriterContext.XmlHeader | ffmpeg/ffprobe.c:1569-1607 | The declaration and the document element, plain or fully qualified with its namespaces; inside, finishes the parent's start tag, and opens the section's own unless it has variable fields. |
| WriterContexts.WriterContext.XmlFooter | ffmpeg/ffprobe.c:1609-1626 | Ends the document element under its plain or qualified name; self-closes, closes with an end tag, or prints nothing. |
| WriterContexts.WriterContext.XmlScalar | ffmpeg/ffprobe.c:1628-1656 | An attribute, or an element of its own for a string in a section with variable fields. |
| WriterContexts.WriterContext.CsvScalar | ffmpeg/ffprobe.c:1042-1063 | The separator from the second item on, the key unless nokey is set, and the escaped value. |
| Documents.PrintJson | ffmpeg/ffprobe.c:510-654 | The text that the calls print for a whole tree, from the section stack's in-place updates on, parses back to the selection of the tree exactly when that is readable, and does not parse otherwise. |
| Documents.PrintXml | ffmpeg/ffprobe.c:510-654 | The same for XML, plain or fully qualified: what a conforming reader gets from the text, and exactly when that is the selection itself. |
| Documents.PrintCsv | ffmpeg/ffprobe.c:510-654 | The same for CSV without keys: one record a section. |
| JsonReader.JsonRoundTrip | ffmpeg/ffprobe.c:1388-1484 | For every section tree of any depth the printed text parses back to what was selected of it, members in order, if and only if no unprinted item is selected before the first printed one and no typed packet or frame starts without one; otherwise it does not parse. |
| JsonReader.ValueParses | ffmpeg/ffprobe.c:1388-1446 | The same for the value of every subsection, whatever follows it. |
| JsonReader.LateStart | ffmpeg/ffprobe.c:646-650 | An item counted but not printed makes the first printed one start with a comma. |
| XmlReader.XmlRoundTrip | ffmpeg/ffprobe.c:1549-1656 | For every tree, plain or fully qualified: an XML 1.0 reader gets what was selected of it back if and only if attributes are printed only in open start tags with different keys, all characters are XML characters, and printed values and keys hold no tab and no line end. |
| XmlReader.ReadsOutput | ffmpeg/ffprobe.c:1569-1656 | Without the condition on tabs and line ends the text is still one document, and is read as the tree with each of them turned into a blank; otherwise it is no document of elements and attributes. |
| XmlReader.RootIsFfprobe | ffmpeg/ffprobe.c:1576-1585 | The document element is ffprobe, or ffprobe:ffprobe with its three namespace attributes. |
| XmlReader.LineEndIsLost | ffmpeg/ffprobe.c:1549-1565 | A value of two lines is printed so that it is read as one line. |
| XmlReader.ControlCharacterIsFatal | ffmpeg/ffprobe.c:1549-1565 | A value with the control character 1 is printed so that the output is not XML. |
| XmlReader.WithinTagIsOwn | ffmpeg/ffprobe.c:1609-1617 | At a footer, within_tag is set if and only if the section has a start tag of its own and no section was opened inside it. |
| XmlReader.TreeParses | ffmpeg/ffprobe.c:1569-1626 | The tags of every subtree are balanced, blank by blank, and parse to its elements, whatever follows. |
| XmlReader.TagParses | ffmpeg/ffprobe.c:1628-1656 | From any point inside a start tag: each attribute printed from there on comes after a blank of its own and is read once, in order, up to the end of the element. |
| CsvReader.CsvRoundTrip | ffmpeg/ffprobe.c:1002-1063 | The whole CSV output of flat sections, printed without keys, parses to one record for each section of what was selected, in order, with its name and its field values exactly (an empty field in front where the section does not start with a printed one). |
| CsvReader.FieldReads | ffmpeg/ffprobe.c:927-943 | An escaped field is read back as it was, up to the separator or line end that follows. |
| Cmdline.FindOption | ffmpeg/cmdutils.c:198-209 | The first entry, if there is one, whose name has no colon and is the argument, or its beginning before a colon; none if and only if no entry is. |
| Cmdline.SpecifierIsRead | ffmpeg/cmdutils.c:773-812 | `-name:spec` is read as the option name with the arguments of `-name`, whatever the stream specifier. |
| Cmdline.UnknownIsTried | ffmpeg/cmdutils.c:814-829 | A name that is no separator and no option is tried on the libraries' options, which take the next word, and then as `no` and the name of a boolean; otherwise it is an error. |
| Cmdline.MatchGroupSeparator | ffmpeg/cmdutils.c:623-635 | The first group with that separator, if any. |
| Cmdline.OptionParseContext.constructor | ffmpeg/cmdutils.c:686-708 | No options and an empty list of groups for each group definition. |
| Cmdline.OptionParseContext.AddOpt | ffmpeg/cmdutils.c:674-684 | The option goes to the globals or to the open group, by its flags, and nowhere else. |
| Cmdline.OptionParseContext.FinishGroup | ffmpeg/cmdutils.c:643-669 | The open group is appended to its list with its argument, and a new one is open. |
| Cmdline.OptionParseContext.SplitCommandline | ffmpeg/cmdutils.c:734-838 | The cursor loop fails or places the items exactly as the recursive reading of the words says. |
| Cmdline.OptionParseContext.SplitOption | ffmpeg/cmdutils.c:773-829 | The same for one word that starts with a dash: separator, option, library option, negated flag, or error. |
| Cmdline.EveryItemLands | ffmpeg/cmdutils.c:643-684 | For every sequence of items: the globals are the global options in order, the k-th group of a list holds exactly the per-file options and claims between its closer and the one before it, the trailing group those after the last closer, and there are no other groups. |
| Cmdline.SplitPartitions | ffmpeg/cmdutils.c:734-838 | So every recognised item of a command line that splits lands in exactly one place, in order. |
| Cmdline.ReadRendered | ffmpeg/cmdutils.c:749-830 | Items written back as words are read as the same items. |
| Cmdline.SplitTwice | ffmpeg/cmdutils.c:734-838 | Writing the result of a split canonically (globals, groups list by list, trailing options) and splitting again gives the same result, when opt_default claims nothing and no OPT_EXIT option is used. |
| Getopt.Next | ffmpeg/compat/getopt.c:46-83 | Every call that does not return EOF strictly advances (optind, sp); EOF skips at most one `--`. |
| Getopt.Cursor.Getopt | ffmpeg/compat/getopt.c:41-84 | The call on the static variables does what `Next` says of the words from optind on: result, optarg, optopt, optind and sp. |
| Getopt.ReadAll | ffmpeg/compat/getopt.c:41-84 | Calling until EOF delivers the events and operands of the whole run. |
| Getopt.FirstDecides | ffmpeg/compat/getopt.c:57-65 | A letter is illegal if and only if it is a colon or not in the string; otherwise it takes an argument if and only if its first occurrence is followed by a colon. |
| Getopt.KindByTable | ffmpeg/compat/getopt.c:57-65 | The string made from a table of different letters says of every letter what the table says. |
| Getopt.ReadsWritten | ffmpeg/compat/getopt.c:54-83 | Options with and without arguments as a table demands, and letters not in it, written one by one and ended by `--`, are delivered as written, unknown ones as `?`, whatever arguments and operands look like. |
| Getopt.LacksArgument | ffmpeg/compat/getopt.c:66-71 | A letter whose argument is missing at the end of the line is delivered as `?`. |
| Getopt.StopsAtOperand | ffmpeg/compat/getopt.c:46-49 | The first word that is no option ends the options. |
| Getopt.ApartIsSame | ffmpeg/compat/getopt.c:54-83 | `-xyz` and `-x -y -z`, `-xoARG` and `-x -o ARG`, illegal letters included, give the same results, optarg values and operands when reached as an option. |
| Getopt.ApartAnywhere | ffmpeg/compat/getopt.c:41-84 | Anywhere in a command line, taking a cluster without dashes apart changes nothing if and only if getopt reaches it as an option (not as an argument or operand). |
| Getopt.DropLetter | ffmpeg/compat/getopt.c:54-83 | Inside a cluster only the letters from the cursor on matter. |

## Left out

- The codec and the filter graph: a codec remembers what it was given since its last flush and produces frames from that, as any outcome of the decoding call allows; a filter graph likewise, and it may end or fail at any time.
- Opening, closing and reading files, option tables, help and banners, metadata, presets, hardware acceleration, SDL rendering, the alloc_picture handshake with the main thread, waveform display, keyboard and mouse.
- The native condition variables of Windows, the one-time initialisation in w32pthreads.h, and the OS/2 wrapper: their meaning is in system calls.
- Memory exhaustion: a failing allocation in packet_queue_put_private and elsewhere is not modelled.
- IEEE rounding, and lrintf's conversion to float: the doubles of do_video_out are reals, and LRint is nearest-integer rounding with ties to even.
- Integer overflow of serials, counters, timestamps and sizes. The one case where the code relies on it, last_mux_dts + 1 without a last timestamp, is INT64_MIN + 1 here too.
- Forced key frames, raw pictures, two-pass logs and exit_on_error of do_video_out. The frame rates and durations that a picture's duration is made from are parameters, in ticks of the encoder.
- sizeof(MyAVPacketList) is a constant; nothing depends on its value.
- frame_queue_peek_readable, which waits for a frame where the others peek at one.
- Packet queue calls with a NULL serial, and the sleep inside packet_queue_get: an empty queue is an outcome of its own and a blocking caller calls again.
- SDL_MixAudio is any function of the bytes and the volume that keeps their number: what mixing onto silence does to a sample is not modelled.
- ffprobe: JSON arrays directly inside arrays, wrappers other than the root, the layouts of the default, flat and ini writers, and flat_escape_key_str, which loses information.
- The compact writer where a section is printed inside its parent's line (ffprobe.c:1011-1022).
- Case-insensitive matching of selected entries: a section's entries are a set of keys.
- Characters are Unicode characters: the encoding is not modelled, and av_utf8_decode is a parameter that says how much it reads and whether that is valid.
- The XML reader takes documents of elements and attributes as the writer prints them: text between tags, comments, processing instructions, CDATA sections, numeric character references and blanks around `=` are refused, and namespaces are not resolved.
- The JSON parser reads numbers without fraction or exponent and `\u` escapes below 256; the writers print no others.
- opt_default is a function of option and argument; the dictionaries it fills are the sequence of claims made since the last group. The messages and warnings of split_commandline are not modelled.
- prepare_app_arguments and help for option -h of the command line; an OPT_EXIT option takes its optional argument as the code does.
- VideoSync.DriftBounded: the bound on the first VSCFR picture is one frame, because the code rounds both its time and its duration.
- AudioCallback.PlayAll: the buffers to come must hold enough bytes; with empty buffers for ever the code's loop does not end.
- CsvReader.CsvRoundTrip: nokey is set, and the separator is no letter, digit or other character of a name, and no quote or line end; section names are printed unquoted.
- Getopt.ApartAnywhere: no dash among the letters of the cluster, since a word `--` of its own would end the options.
