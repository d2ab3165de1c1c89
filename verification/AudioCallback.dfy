/** sdl_audio_callback of ffplay.c: cutting the decoder's buffers into pieces of the size the audio
    device asks for. */
module AudioCallback {

  /** What audio_decode_frame returns: converted samples, or an error. */
  datatype Decoded = Samples(bytes: seq<bv8>) | Error

  const SDL_AUDIO_MIN_BUFFER_SIZE := 512

  function Silence(n: nat): seq<bv8> { seq(n, _ => 0) }

  /** The buffer that a decoding result becomes: whole frames of silence for an error. */
  function Buffer(d: Decoded, frameSize: nat): seq<bv8>
    requires frameSize > 0
  {
    match d
    case Samples(bytes) => bytes
    case Error => Silence(SDL_AUDIO_MIN_BUFFER_SIZE / frameSize * frameSize)
  }

  /** The first `n` buffers end to end. */
  function Joined(feed: nat -> Decoded, frameSize: nat, n: nat): seq<bv8>
    requires frameSize > 0
  {
    if n == 0 then [] else Joined(feed, frameSize, n - 1) + Buffer(feed(n - 1), frameSize)
  }

  lemma {:induction false} JoinedGrows(feed: nat -> Decoded, frameSize: nat, m: nat, n: nat)
    requires frameSize > 0 && m <= n
    ensures Joined(feed, frameSize, m) <= Joined(feed, frameSize, n)
    decreases n - m
  {
    if m < n {
      JoinedGrows(feed, frameSize, m, n - 1);
    }
  }

  /** When no buffer is empty there is enough for any request. */
  lemma {:induction false} NonEmptySuffices(feed: nat -> Decoded, frameSize: nat, n: nat)
    requires frameSize > 0 && forall i: nat :: Buffer(feed(i), frameSize) != []
    ensures |Joined(feed, frameSize, n)| >= n
  {
    if n > 0 {
      NonEmptySuffices(feed, frameSize, n - 1);
    }
  }

  /** Silence is only empty for frames larger than the whole silence buffer. */
  lemma SilenceIsNotEmpty(frameSize: nat)
    requires 0 < frameSize
    ensures Buffer(Error, frameSize) != [] <==> frameSize <= SDL_AUDIO_MIN_BUFFER_SIZE
  {
    if frameSize <= SDL_AUDIO_MIN_BUFFER_SIZE {
      var q := SDL_AUDIO_MIN_BUFFER_SIZE / frameSize;
      assert SDL_AUDIO_MIN_BUFFER_SIZE == q * frameSize + SDL_AUDIO_MIN_BUFFER_SIZE % frameSize;
      assert q * frameSize > 0;
    } else {
      assert SDL_AUDIO_MIN_BUFFER_SIZE / frameSize == 0;
    }
  }

  /** `n` bytes are whole sample frames. */
  predicate WholeFrames(n: int, frameSize: nat)
    requires frameSize > 0
    decreases n
  {
    n == 0 || (n >= frameSize && WholeFrames(n - frameSize, frameSize))
  }

  lemma {:induction false} MultipleIsWhole(q: nat, frameSize: nat)
    requires frameSize > 0
    ensures WholeFrames(q * frameSize, frameSize)
    decreases q
  {
    if q > 0 {
      MultipleIsWhole(q - 1, frameSize);
      assert q * frameSize - frameSize == (q - 1) * frameSize;
      assert q * frameSize >= frameSize;
    }
  }

  /** The silence for an error is as many whole sample frames as fit into the silence buffer. */
  lemma SilenceIsWholeFrames(frameSize: nat)
    requires 0 < frameSize
    ensures var n := |Buffer(Error, frameSize)|;
      WholeFrames(n, frameSize) && n <= SDL_AUDIO_MIN_BUFFER_SIZE < n + frameSize
    ensures forall b :: b in Buffer(Error, frameSize) ==> b == 0
  {
    var q := SDL_AUDIO_MIN_BUFFER_SIZE / frameSize;
    assert SDL_AUDIO_MIN_BUFFER_SIZE == q * frameSize + SDL_AUDIO_MIN_BUFFER_SIZE % frameSize;
    MultipleIsWhole(q, frameSize);
  }

  const SDL_MIX_MAXVOLUME := 128

  /** Pieces end to end. */
  function Flat(pieces: seq<seq<bv8>>): seq<bv8> {
    if pieces == [] then [] else Flat(pieces[..|pieces| - 1]) + pieces[|pieces| - 1]
  }

  lemma FlatGrows(before: seq<bv8>, pieces: seq<seq<bv8>>, piece: seq<bv8>)
    ensures Flat(pieces + [piece]) == Flat(pieces) + piece
    ensures before + Flat(pieces + [piece]) == before + Flat(pieces) + piece
  {
    assert (pieces + [piece])[..|pieces|] == pieces;
  }

  /** SDL_MixAudio onto silence: what a piece becomes at a volume. */
  type Mixer = (seq<bv8>, nat) -> seq<bv8>

  ghost predicate KeepsLength(mix: Mixer) { forall bytes, volume :: |mix(bytes, volume)| == |bytes| }

  /** How loud the player is. */
  datatype Sound = Sound(mix: Mixer, muted: bool, volume: nat)

  /** What is heard of a piece. */
  function Heard(sound: Sound, piece: seq<bv8>): seq<bv8> {
    if sound.muted then Silence(|piece|)
    else if sound.volume == SDL_MIX_MAXVOLUME then piece
    else sound.mix(piece, sound.volume)
  }

  function HeardAll(sound: Sound, pieces: seq<seq<bv8>>): seq<bv8> {
    if pieces == [] then [] else HeardAll(sound, pieces[..|pieces| - 1]) + Heard(sound, pieces[|pieces| - 1])
  }

  lemma HeardAppends(sound: Sound, pieces: seq<seq<bv8>>, piece: seq<bv8>)
    ensures HeardAll(sound, pieces + [piece]) == HeardAll(sound, pieces) + Heard(sound, piece)
  {
    assert (pieces + [piece])[..|pieces|] == pieces;
  }

  /** At full volume, and muted, it makes no difference how the bytes were cut into pieces. */
  lemma {:induction false} CutsAreNotHeard(sound: Sound, pieces: seq<seq<bv8>>)
    requires sound.muted || sound.volume == SDL_MIX_MAXVOLUME
    ensures HeardAll(sound, pieces) == Heard(sound, Flat(pieces))
    decreases |pieces|
  {
    if pieces != [] {
      CutsAreNotHeard(sound, pieces[..|pieces| - 1]);
    }
  }

  /** Muted, the device gets zeros only; at full volume the very bytes, and otherwise each piece as it is mixed. */
  lemma {:induction false} WhatIsHeard(sound: Sound, pieces: seq<seq<bv8>>)
    ensures sound.muted ==> |HeardAll(sound, pieces)| == |Flat(pieces)|
    ensures sound.muted ==> forall b :: b in HeardAll(sound, pieces) ==> b == 0
    ensures !sound.muted && sound.volume == SDL_MIX_MAXVOLUME ==> HeardAll(sound, pieces) == Flat(pieces)
    ensures !sound.muted && sound.volume != SDL_MIX_MAXVOLUME ==> HeardAll(sound, pieces) == Flat(Mixed(sound, pieces))
    decreases |pieces|
  {
    if pieces != [] {
      var init := pieces[..|pieces| - 1];
      WhatIsHeard(sound, init);
      assert Mixed(sound, pieces)[..|init|] == Mixed(sound, init);
    }
  }

  function Mixed(sound: Sound, pieces: seq<seq<bv8>>): seq<seq<bv8>> {
    seq(|pieces|, i requires 0 <= i < |pieces| => sound.mix(pieces[i], sound.volume))
  }

  /** `feed` is the sequence of decoding results, `taken` how many have been asked for, and `passed` the
      history of the bytes that have gone by. */
  class Player {
    const feed: nat -> Decoded
    const frameSize: nat
    const mix: Mixer
    var audioBuf: seq<bv8>
    var audioBufIndex: nat
    var muted: bool
    var audioVolume: nat
    var taken: nat
    ghost var passed: seq<bv8>

    /** Nothing is lost or repeated: what has gone by and what is left of the buffer are all the buffers
        taken, end to end. */
    ghost predicate Valid()
      reads this`audioBuf, this`audioBufIndex, this`taken, this`passed
    {
      && frameSize > 0 && KeepsLength(mix)
      && audioBufIndex <= |audioBuf|
      && passed + audioBuf[audioBufIndex..] == Joined(feed, frameSize, taken)
    }

    constructor (feed: nat -> Decoded, frameSize: nat, mix: Mixer)
      requires frameSize > 0 && KeepsLength(mix)
      ensures Valid() && passed == [] && !muted && audioVolume == SDL_MIX_MAXVOLUME
      ensures this.feed == feed && this.frameSize == frameSize
    {
      this.feed, this.frameSize, this.mix := feed, frameSize, mix;
      audioBuf, audioBufIndex, muted, audioVolume, taken, passed := [], 0, false, SDL_MIX_MAXVOLUME, 0, [];
    }

    ghost function Settings(): Sound
      reads this`muted, this`audioVolume
    {
      Sound(mix, muted, audioVolume)
    }

    /** Fills `stream` with what is heard of the pieces of the buffers, one after another. It returns because
        the first `enough` buffers hold enough bytes. */
    method Callback(stream: array<bv8>, ghost enough: nat) returns (ghost pieces: seq<seq<bv8>>)
      requires Valid() && |Joined(feed, frameSize, enough)| >= |passed| + stream.Length
      modifies this`audioBuf, this`audioBufIndex, this`taken, this`passed, stream
      ensures Valid() && passed == old(passed) + Flat(pieces) && |Flat(pieces)| == stream.Length
      ensures stream[..] == HeardAll(Settings(), pieces)
    {
      var pos := 0;
      ghost var sound := Settings();
      pieces := [];
      while pos < stream.Length
        invariant 0 <= pos <= stream.Length && Valid() && Settings() == sound
        invariant passed == old(passed) + Flat(pieces) && |Flat(pieces)| == pos
        invariant stream[..pos] == HeardAll(sound, pieces)
        decreases enough - taken, stream.Length - pos
      {
        var len1, piece := CopySome(stream, pos, enough);
        FlatGrows(old(passed), pieces, piece);
        HeardAppends(sound, pieces, piece);
        pieces := pieces + [piece];
        pos := pos + len1;
      }
      assert stream[..] == stream[..pos];
    }

    /** One turn of the loop: as much of the buffer as is left and fits, from a new buffer if need be. */
    method CopySome(stream: array<bv8>, pos: nat, ghost enough: nat) returns (len1: nat, ghost piece: seq<bv8>)
      requires Valid() && pos < stream.Length && |Joined(feed, frameSize, enough)| >= |passed| + stream.Length - pos
      modifies this`audioBuf, this`audioBufIndex, this`taken, this`passed, stream
      ensures Valid() && pos + len1 <= stream.Length && |piece| == len1 && passed == old(passed) + piece
      ensures stream[..pos + len1] == old(stream[..pos]) + Heard(Settings(), piece)
      ensures if taken == old(taken) then len1 > 0 else old(taken) < taken <= enough
    {
      if audioBufIndex >= |audioBuf| {
        MoreToTake(enough);
        Refill();
      }
      len1 := |audioBuf| - audioBufIndex;
      if len1 > stream.Length - pos {
        len1 := stream.Length - pos;
      }
      CopyOut(stream, pos, len1);
      piece := Pass(len1);
    }

    /** An exhausted buffer with bytes still due: some needed buffer has not been taken yet. */
    lemma MoreToTake(enough: nat)
      requires Valid() && audioBufIndex >= |audioBuf| && |Joined(feed, frameSize, enough)| > |passed|
      ensures taken < enough
    {
      if enough <= taken {
        JoinedGrows(feed, frameSize, enough, taken);
      }
    }

    /** The next buffer replaces the exhausted one. */
    method Refill()
      requires Valid() && audioBufIndex >= |audioBuf|
      modifies this`audioBuf, this`audioBufIndex, this`taken
      ensures Valid() && audioBufIndex == 0 && taken == old(taken) + 1
    {
      assert passed == Joined(feed, frameSize, taken) by {
        assert audioBuf[audioBufIndex..] == [] && passed + [] == passed;
      }
      audioBuf := Buffer(feed(taken), frameSize);
      assert audioBuf[0..] == audioBuf;
      taken := taken + 1;
      audioBufIndex := 0;
    }

    /** The index moves past a piece of the buffer. */
    method Pass(len: nat) returns (ghost piece: seq<bv8>)
      requires Valid() && audioBufIndex + len <= |audioBuf|
      modifies this`audioBufIndex, this`passed
      ensures Valid() && piece == audioBuf[old(audioBufIndex)..old(audioBufIndex) + len]
      ensures passed == old(passed) + piece && audioBufIndex == old(audioBufIndex) + len
    {
      piece := audioBuf[audioBufIndex..audioBufIndex + len];
      assert audioBuf[audioBufIndex..] == piece + audioBuf[audioBufIndex + len..];
      passed := passed + piece;
      audioBufIndex := audioBufIndex + len;
    }

    /** memcpy at full volume; otherwise memset, and SDL_MixAudio unless muted. */
    method CopyOut(stream: array<bv8>, pos: nat, len: nat)
      requires KeepsLength(mix) && pos + len <= stream.Length && audioBufIndex + len <= |audioBuf|
      modifies stream
      ensures stream[..pos + len] ==
          old(stream[..pos]) + Heard(Settings(), audioBuf[audioBufIndex..audioBufIndex + len])
    {
      var piece := audioBuf[audioBufIndex..audioBufIndex + len];
      if !muted && audioVolume == SDL_MIX_MAXVOLUME {
        forall i | pos <= i < pos + len {
          stream[i] := piece[i - pos];
        }
      } else if muted {
        forall i | pos <= i < pos + len {
          stream[i] := 0;
        }
      } else {
        var mixed := mix(piece, audioVolume);
        forall i | pos <= i < pos + len {
          stream[i] := mixed[i - pos];
        }
      }
      assert stream[..pos] == old(stream[..pos]);
      assert stream[pos..pos + len] == Heard(Settings(), piece);
      assert stream[..pos + len] == stream[..pos] + stream[pos..pos + len];
    }
  }

  function Sum(lengths: seq<nat>): nat {
    if lengths == [] then 0 else Sum(lengths[..|lengths| - 1]) + lengths[|lengths| - 1]
  }

  lemma {:induction false} SumGrows(lengths: seq<nat>, i: nat)
    requires i <= |lengths|
    ensures Sum(lengths[..i]) <= Sum(lengths)
    decreases |lengths|
  {
    if i == |lengths| {
      assert lengths[..i] == lengths;
    } else {
      assert lengths[..|lengths| - 1][..i] == lengths[..i];
      SumGrows(lengths[..|lengths| - 1], i);
    }
  }

  /** Callbacks of any lengths at full volume, on a new player: what the device gets in all is the beginning
      of the buffers end to end. */
  method PlayAll(feed: nat -> Decoded, frameSize: nat, mix: Mixer, lengths: seq<nat>, ghost enough: nat)
    returns (heard: seq<bv8>)
    requires frameSize > 0 && KeepsLength(mix) && |Joined(feed, frameSize, enough)| >= Sum(lengths)
    ensures |heard| == Sum(lengths) && heard <= Joined(feed, frameSize, enough)
  {
    var p := new Player(feed, frameSize, mix);
    heard := [];
    for i := 0 to |lengths|
      invariant p.Valid() && !p.muted && p.audioVolume == SDL_MIX_MAXVOLUME
      invariant p.feed == feed && p.frameSize == frameSize
      invariant heard == p.passed && |heard| == Sum(lengths[..i])
    {
      SumGrows(lengths, i + 1);
      assert lengths[..i + 1][..i] == lengths[..i];
      var stream := new bv8[lengths[i]];
      ghost var pieces := p.Callback(stream, enough);
      CutsAreNotHeard(p.Settings(), pieces);
      heard := heard + stream[..];
    }
    assert lengths[..|lengths|] == lengths;
    assert heard <= Joined(feed, frameSize, p.taken);
    PrefixOfBoth(feed, frameSize, p.taken, enough, heard);
  }

  lemma PrefixOfBoth(feed: nat -> Decoded, frameSize: nat, m: nat, n: nat, bytes: seq<bv8>)
    requires frameSize > 0 && bytes <= Joined(feed, frameSize, m) && |bytes| <= |Joined(feed, frameSize, n)|
    ensures bytes <= Joined(feed, frameSize, n)
  {
    if m <= n { JoinedGrows(feed, frameSize, m, n); } else { JoinedGrows(feed, frameSize, n, m); }
  }
}
