/** Docker's multiplexed exec stream: demuxDockerStream (pkg/dockermanage/manager.go). Each frame is an
    8-byte header, whose first byte names the stream and whose last four give the payload size in
    big-endian order, followed by the payload. */
module DockerStream {
  import opened Wrappers

  newtype byte = b: int | 0 <= b < 256

  const STREAM_STDOUT: byte := 1
  const STREAM_STDERR: byte := 2
  const HEADER_SIZE := 8

  datatype StreamError = UnexpectedEOF | EOF

  datatype Frame = Frame(kind: byte, padding: seq<byte>, payload: seq<byte>)

  /** What a frame can be: three bytes of padding and a payload whose size fits 32 bits. */
  predicate WellSized(f: Frame) {
    |f.padding| == 3 && |f.payload| < 0x1_0000_0000
  }

  function BigEndian32(b: seq<byte>): (n: nat)
    requires |b| == 4
    ensures n < 0x1_0000_0000
  {
    b[0] as nat * 0x100_0000 + b[1] as nat * 0x1_0000 + b[2] as nat * 0x100 + b[3] as nat
  }

  function ToBigEndian32(n: nat): (b: seq<byte>)
    requires n < 0x1_0000_0000
    ensures |b| == 4
  {
    [(n / 0x100 / 0x100 / 0x100) as byte, (n / 0x100 / 0x100 % 0x100) as byte, (n / 0x100 % 0x100) as byte,
     (n % 0x100) as byte]
  }

  function EncodeFrame(f: Frame): seq<byte>
    requires WellSized(f)
  {
    [f.kind] + f.padding + ToBigEndian32(|f.payload|) + f.payload
  }

  function Encode(frames: seq<Frame>): seq<byte>
    requires forall f | f in frames :: WellSized(f)
  {
    if frames == [] then [] else EncodeFrame(frames[0]) + Encode(frames[1..])
  }

  /** The payloads of the frames of the given kinds, in order. */
  function Routed(frames: seq<Frame>, kinds: set<byte>): seq<byte> {
    if frames == [] then []
    else (if frames[0].kind in kinds then frames[0].payload else []) + Routed(frames[1..], kinds)
  }

  lemma BigEndianRoundTrip(n: nat)
    requires n < 0x1_0000_0000
    ensures BigEndian32(ToBigEndian32(n)) == n
  {
  }

  lemma BigEndianInjective(b: seq<byte>)
    requires |b| == 4
    ensures ToBigEndian32(BigEndian32(b)) == b
  {
    var n := BigEndian32(b);
    assert n / 0x100 == b[0] as nat * 0x1_0000 + b[1] as nat * 0x100 + b[2] as nat;
    assert n / 0x100 / 0x100 == b[0] as nat * 0x100 + b[1] as nat;
  }

  // ----- The first frame of a stream

  predicate HasHeader(s: seq<byte>) {
    |s| >= HEADER_SIZE
  }

  function PayloadSize(s: seq<byte>): (n: nat)
    requires HasHeader(s)
    ensures n < 0x1_0000_0000
  {
    BigEndian32(s[4..8])
  }

  predicate HasFrame(s: seq<byte>) {
    HasHeader(s) && |s| >= HEADER_SIZE + PayloadSize(s)
  }

  function FirstFrame(s: seq<byte>): (f: Frame)
    requires HasFrame(s)
    ensures WellSized(f)
  {
    Frame(s[0], s[1..4], s[8..8 + PayloadSize(s)])
  }

  /** What follows the first frame. */
  function AfterFrame(s: seq<byte>): (r: seq<byte>)
    requires HasFrame(s)
    ensures |r| < |s|
  {
    s[HEADER_SIZE + PayloadSize(s)..]
  }

  lemma FirstFrameEncodes(s: seq<byte>)
    requires HasFrame(s)
    ensures s == EncodeFrame(FirstFrame(s)) + AfterFrame(s)
  {
    BigEndianInjective(s[4..8]);
    assert s == [s[0]] + s[1..4] + s[4..8] + s[8..8 + PayloadSize(s)] + s[8 + PayloadSize(s)..];
  }

  lemma EncodedFrameIsFirst(f: Frame, rest: seq<byte>)
    requires WellSized(f)
    ensures
      var s := EncodeFrame(f) + rest;
      HasFrame(s) && FirstFrame(s) == f && AfterFrame(s) == rest
  {
    var s := EncodeFrame(f) + rest;
    var size := ToBigEndian32(|f.payload|);
    assert s == [f.kind] + f.padding + size + f.payload + rest;
    assert s[4..8] == size;
    BigEndianRoundTrip(|f.payload|);
  }

  // ----- Whole streams

  /** The whole frames at the start of a stream. */
  function Frames(s: seq<byte>): (frames: seq<Frame>)
    ensures forall f | f in frames :: WellSized(f)
    decreases |s|
  {
    if HasFrame(s) then [FirstFrame(s)] + Frames(AfterFrame(s)) else []
  }

  /** What is left after them. */
  function Rest(s: seq<byte>): (r: seq<byte>)
    ensures !HasFrame(r)
    decreases |s|
  {
    if HasFrame(s) then Rest(AfterFrame(s)) else s
  }

  /** Every stream splits in one way into whole frames and a rest that begins with none. */
  lemma {:induction false} SplitsIntoFrames(s: seq<byte>)
    ensures s == Encode(Frames(s)) + Rest(s)
    decreases |s|
  {
    hide HasFrame, FirstFrame, AfterFrame, EncodeFrame;
    if HasFrame(s) {
      var tail := AfterFrame(s);
      SplitsIntoFrames(tail);
      FirstFrameEncodes(s);
      assert Frames(s)[0] == FirstFrame(s) && Frames(s)[1..] == Frames(tail);
      Regroup(EncodeFrame(FirstFrame(s)), Encode(Frames(tail)), Rest(tail));
    }
  }

  lemma Regroup(a: seq<byte>, b: seq<byte>, c: seq<byte>)
    ensures a + (b + c) == (a + b) + c
  {
  }

  lemma {:induction false} SplitIsUnique(frames: seq<Frame>, rest: seq<byte>)
    requires forall f | f in frames :: WellSized(f)
    requires !HasFrame(rest)
    ensures Frames(Encode(frames) + rest) == frames && Rest(Encode(frames) + rest) == rest
  {
    hide HasFrame, FirstFrame, AfterFrame, EncodeFrame, WellSized;
    if frames == [] {
      assert Encode(frames) + rest == rest;
    } else {
      assert frames[0] in frames;
      var tail := Encode(frames[1..]) + rest;
      Regroup(EncodeFrame(frames[0]), Encode(frames[1..]), rest);
      EncodedFrameIsFirst(frames[0], tail);
      SplitIsUnique(frames[1..], rest);
    }
  }

  /** A stream is acceptable exactly when it is a concatenation of whole frames. */
  lemma AcceptedIffWholeFrames(s: seq<byte>)
    ensures Rest(s) == [] <==>
            exists frames: seq<Frame> :: (forall f | f in frames :: WellSized(f)) && s == Encode(frames)
  {
    if Rest(s) == [] {
      SplitsIntoFrames(s);
      assert s == Encode(Frames(s));
    }
    forall frames: seq<Frame> | (forall f | f in frames :: WellSized(f)) && s == Encode(frames)
      ensures Rest(s) == []
    {
      SplitIsUnique(frames, []);
      assert Encode(frames) + [] == s;
    }
  }

  // ----- The source's loop

  class Reader {
    const data: seq<byte>
    var pos: nat

    ghost predicate Valid()
      reads this
    {
      pos <= |data|
    }

    function Remaining(): seq<byte>
      reads this
      requires Valid()
    {
      data[pos..]
    }

    constructor (data: seq<byte>)
      ensures Valid() && Remaining() == data
    {
      this.data, pos := data, 0;
    }

    /** io.ReadFull with a buffer of n bytes: no byte at all is the end of the stream. */
    method ReadFull(n: nat) returns (r: Result<seq<byte>, StreamError>)
      requires Valid() && n > 0
      modifies this
      ensures Valid()
      ensures
        var had := old(Remaining());
        if |had| >= n then r == Ok(had[..n]) && Remaining() == had[n..]
        else r == Err(if had == [] then EOF else UnexpectedEOF) && Remaining() == []
    {
      if |data| - pos >= n {
        r := Ok(data[pos..pos + n]);
        assert data[pos..][..n] == data[pos..pos + n];
        pos := pos + n;
      } else {
        r := Err(if pos == |data| then EOF else UnexpectedEOF);
        pos := |data|;
      }
    }

    /** io.CopyN to a destination, or to nowhere: a stream that is too short is copied and then
        reported. */
    method CopyN(dst: Writer?, n: nat) returns (err: Option<StreamError>)
      requires Valid()
      modifies this, dst
      ensures Valid()
      ensures
        var had := old(Remaining());
        var copied := if |had| >= n then had[..n] else had;
        && Remaining() == had[|copied|..]
        && (err.None? <==> |had| >= n)
        && (dst != null ==> dst.contents == old(dst.contents) + copied)
    {
      var size := if |data| - pos >= n then n else |data| - pos;
      err := if size == n then None else Some(EOF);
      if dst != null {
        dst.contents := dst.contents + data[pos..pos + size];
      }
      assert data[pos..][..size] == data[pos..pos + size];
      pos := pos + size;
    }
  }

  class Writer {
    var contents: seq<byte>
  }

  /** The kinds of frames that a writer receives when it serves as stdout, stderr or both. */
  ghost function KindsFor(w: Writer, stdout: Writer, stderr: Writer): set<byte> {
    (if w == stdout then {STREAM_STDOUT} else {}) + (if w == stderr then {STREAM_STDERR} else {})
  }

  /** What a rest without a whole frame still delivers: the part of a payload that did arrive. */
  ghost function Partial(rest: seq<byte>, kinds: set<byte>): seq<byte> {
    if HasHeader(rest) && rest[0] in kinds then rest[HEADER_SIZE..] else []
  }

  /** What a writer receives of a stream. */
  ghost function Delivered(s: seq<byte>, kinds: set<byte>): seq<byte> {
    Routed(Frames(s), kinds) + Partial(Rest(s), kinds)
  }

  /** What one round of the loop hands to a writer. */
  ghost function Share(s: seq<byte>, kinds: set<byte>): seq<byte> {
    if !HasFrame(s) then Partial(s, kinds)
    else if FirstFrame(s).kind in kinds then FirstFrame(s).payload
    else []
  }

  /** A stream is delivered one round at a time. */
  lemma RoundDelivers(s: seq<byte>, kinds: set<byte>)
    ensures HasFrame(s) ==>
      && Delivered(s, kinds) == Share(s, kinds) + Delivered(AfterFrame(s), kinds)
      && Rest(s) == Rest(AfterFrame(s))
    ensures !HasFrame(s) ==> Delivered(s, kinds) == Share(s, kinds) && Rest(s) == s
  {
    hide HasFrame, FirstFrame, AfterFrame, Partial;
    if HasFrame(s) {
      assert Frames(s)[0] == FirstFrame(s) && Frames(s)[1..] == Frames(AfterFrame(s));
      Regroup(Share(s, kinds), Routed(Frames(AfterFrame(s)), kinds), Partial(Rest(s), kinds));
    }
  }

  /** One round of the loop: read a header, choose the destination, copy the payload. The round is
      the last one if there was no whole frame, which is no error at the end of the stream. */
  method DemuxFrame(r: Reader, stdout: Writer, stderr: Writer) returns (done: bool, err: Option<StreamError>)
    requires r.Valid()
    modifies r, stdout, stderr
    ensures r.Valid()
    ensures
      var s := old(r.Remaining());
      && (done <==> !HasFrame(s))
      && (!done ==> err.None? && r.Remaining() == AfterFrame(s))
      && (done ==> (err.None? <==> s == []))
    ensures stdout.contents == old(stdout.contents) + Share(old(r.Remaining()), KindsFor(stdout, stdout, stderr))
    ensures stderr.contents == old(stderr.contents) + Share(old(r.Remaining()), KindsFor(stderr, stdout, stderr))
  {
    ghost var s := r.Remaining();
    var header := r.ReadFull(HEADER_SIZE);
    if header.Err? {
      return true, if header.error == EOF then None else Some(header.error);
    }
    assert header.value[4..] == s[4..8];
    var payloadSize := BigEndian32(header.value[4..]);
    var dst: Writer? := null;
    if header.value[0] == STREAM_STDOUT {
      dst := stdout;
    } else if header.value[0] == STREAM_STDERR {
      dst := stderr;
    }
    err := r.CopyN(dst, payloadSize);
    done := err.Some?;
    if !done {
      assert s[8..][..payloadSize] == s[8..8 + payloadSize];
      assert s[8..][payloadSize..] == s[8 + payloadSize..];
    }
  }

  /** The call succeeds exactly when nothing is left after the whole frames. Each writer, also one
      that serves as both, has received the payloads of its frames in order, and on failure the part
      of the last payload that did arrive. */
  method DemuxDockerStream(r: Reader, stdout: Writer, stderr: Writer) returns (err: Option<StreamError>)
    requires r.Valid()
    modifies r, stdout, stderr
    ensures err.None? <==> Rest(old(r.Remaining())) == []
    ensures stdout.contents == old(stdout.contents) + Delivered(old(r.Remaining()), KindsFor(stdout, stdout, stderr))
    ensures stderr.contents == old(stderr.contents) + Delivered(old(r.Remaining()), KindsFor(stderr, stdout, stderr))
  {
    hide Delivered, Share, Frames, Rest, HasFrame, AfterFrame, KindsFor;
    ghost var s := r.Remaining();
    ghost var outKinds, errKinds := KindsFor(stdout, stdout, stderr), KindsFor(stderr, stdout, stderr);
    var done := false;
    err := None;
    while !done
      invariant r.Valid()
      invariant !done ==> err.None? && Rest(s) == Rest(r.Remaining())
      invariant !done ==> old(stdout.contents) + Delivered(s, outKinds) ==
                          stdout.contents + Delivered(r.Remaining(), outKinds)
      invariant !done ==> old(stderr.contents) + Delivered(s, errKinds) ==
                          stderr.contents + Delivered(r.Remaining(), errKinds)
      invariant done ==> (err.None? <==> Rest(s) == [])
      invariant done ==> stdout.contents == old(stdout.contents) + Delivered(s, outKinds)
      invariant done ==> stderr.contents == old(stderr.contents) + Delivered(s, errKinds)
      decreases if done then 0 else 1, |r.Remaining()|
    {
      ghost var before := r.Remaining();
      RoundDelivers(before, outKinds);
      RoundDelivers(before, errKinds);
      ghost var out, errs := stdout.contents, stderr.contents;
      done, err := DemuxFrame(r, stdout, stderr);
      if !done {
        Regroup(out, Share(before, outKinds), Delivered(r.Remaining(), outKinds));
        Regroup(errs, Share(before, errKinds), Delivered(r.Remaining(), errKinds));
      }
    }
  }
}
