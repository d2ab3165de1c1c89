/** validate_string of ffprobe.c: what becomes of a string that is not valid UTF-8. */
module Validation {
  import opened Common

  datatype Mode = Ignore | Replace | Fail

  /** av_utf8_decode is a parameter: how many units it reads from the front of a non-empty string, and whether
      they are a valid sequence. */
  datatype Validator = Validator(mode: Mode, replacement: string, decode: string -> (nat, bool))

  ghost predicate Decodes(v: Validator) { forall s :: s != [] ==> 1 <= v.decode(s).0 <= |s| }

  /** The string that is printed, or none. */
  function Outcome(v: Validator, src: string): Option<string>
    requires Decodes(v)
    decreases |src|
  {
    if src == [] then Some([])
    else
      var (n, valid) := v.decode(src);
      if !valid && v.mode.Fail? then None
      else
        match Outcome(v, src[n..])
        case None => None
        case Some(rest) => Some((if valid || v.mode.Ignore? then src[..n] else v.replacement) + rest)
  }

  method ValidateString(v: Validator, src: string) returns (dst: Option<string>)
    requires Decodes(v)
    ensures dst == Outcome(v, src)
  {
    var p := 0;
    var buf: string := [];
    assert src[0..] == src && (Outcome(v, src).Some? ==> [] + Outcome(v, src).value == Outcome(v, src).value);
    while p < |src|
      invariant p <= |src|
      invariant Outcome(v, src) == match Outcome(v, src[p..])
                                   case None => None
                                   case Some(rest) => Some(buf + rest)
    {
      var (n, valid) := v.decode(src[p..]);
      assert src[p..][..n] == src[p..p + n] && src[p..][n..] == src[p + n..];
      if !valid && v.mode.Fail? {
        return None;
      }
      ghost var before := buf;
      if !valid && v.mode.Replace? {
        buf := buf + v.replacement;
      }
      if valid || v.mode.Ignore? {
        buf := buf + src[p..p + n];
      }
      ghost var piece := if valid || v.mode.Ignore? then src[p..p + n] else v.replacement;
      assert buf == before + piece;
      if Outcome(v, src[p + n..]).Some? {
        Assoc(before, piece, Outcome(v, src[p + n..]).value);
      }
      p := p + n;
    }
    assert buf + [] == buf;
    dst := Some(buf);
  }

  /** Every sequence in the string is valid. */
  predicate AllValid(v: Validator, src: string)
    requires Decodes(v)
    decreases |src|
  {
    src != [] ==> v.decode(src).1 && AllValid(v, src[v.decode(src).0..])
  }

  /** A valid string is never changed; another one is rejected exactly when validation is to fail. */
  lemma {:induction false} ValidIsKept(v: Validator, src: string)
    requires Decodes(v)
    ensures AllValid(v, src) || v.mode.Ignore? ==> Outcome(v, src) == Some(src)
    ensures Outcome(v, src) == None <==> !AllValid(v, src) && v.mode.Fail?
    decreases |src|
  {
    if src != [] {
      var n := v.decode(src).0;
      ValidIsKept(v, src[n..]);
      assert src[..n] + src[n..] == src;
    }
  }

  /** The string sequence by sequence, as av_utf8_decode takes it apart. */
  datatype Chunk = Chunk(text: string, valid: bool)

  function Chunks(v: Validator, src: string): seq<Chunk>
    requires Decodes(v)
    decreases |src|
  {
    if src == [] then []
    else
      var (n, valid) := v.decode(src);
      [Chunk(src[..n], valid)] + Chunks(v, src[n..])
  }

  /** The sequences end to end, with `instead` for each invalid one if it is given. */
  function Together(chunks: seq<Chunk>, instead: Option<string>): string {
    if chunks == [] then []
    else
      (if chunks[0].valid || instead.None? then chunks[0].text else instead.value) + Together(chunks[1..], instead)
  }

  /** Ignoring keeps the string, replacing puts the replacement for each invalid sequence and keeps the others, and
      failing rejects the string if any is invalid. */
  lemma {:induction false} OutcomeByChunks(v: Validator, src: string)
    requires Decodes(v)
    ensures Together(Chunks(v, src), None) == src
    ensures Outcome(v, src) == match v.mode
                               case Ignore => Some(src)
                               case Replace => Some(Together(Chunks(v, src), Some(v.replacement)))
                               case Fail => if forall c :: c in Chunks(v, src) ==> c.valid then Some(src) else None
    decreases |src|
  {
    if src != [] {
      var n := v.decode(src).0;
      OutcomeByChunks(v, src[n..]);
      assert src[..n] + src[n..] == src;
      var (first, more) := (Chunk(src[..n], v.decode(src).1), Chunks(v, src[n..]));
      assert Chunks(v, src) == [first] + more && Chunks(v, src)[1..] == more;
      assert forall c :: c in Chunks(v, src) <==> c == first || c in more;
    }
  }
}
