/** Frames of Docker's multiplexed stream byte by byte (pkg/dockermanage/manager.go): how large the four
    size bytes of a header say that a payload is, and what reaches stdout and stderr. */
module FrameHeaders {
  import opened Wrappers
  import opened DockerStream

  // ----- The size field

  /** The first byte in which two strings of bytes differ is smaller in the first. */
  predicate ComesBefore(a: seq<byte>, b: seq<byte>)
    requires |a| == |b|
  {
    a != [] && (a[0] < b[0] || (a[0] == b[0] && ComesBefore(a[1..], b[1..])))
  }

  lemma FirstDifference(a: seq<byte>, b: seq<byte>)
    requires |a| == |b| == 4
    ensures ComesBefore(a, b) <==>
      || a[0] < b[0]
      || (a[0] == b[0] && a[1] < b[1])
      || (a[0] == b[0] && a[1] == b[1] && a[2] < b[2])
      || (a[0] == b[0] && a[1] == b[1] && a[2] == b[2] && a[3] < b[3])
  {
    var a1, b1 := a[1..], b[1..];
    var a2, b2 := a1[1..], b1[1..];
    var a3, b3 := a2[1..], b2[1..];
    assert a1[0] == a[1] && a2[0] == a[2] && a3[0] == a[3] && b1[0] == b[1] && b2[0] == b[2] && b3[0] == b[3];
    assert ComesBefore(a3, b3) <==> a[3] < b[3];
    assert ComesBefore(a2, b2) <==> a[2] < b[2] || (a[2] == b[2] && ComesBefore(a3, b3));
    assert ComesBefore(a1, b1) <==> a[1] < b[1] || (a[1] == b[1] && ComesBefore(a2, b2));
  }

  /** One header announces a smaller payload than another exactly if its size bytes come first, the
      most significant of them being the first. */
  lemma SizesCompare(a: seq<byte>, b: seq<byte>)
    requires |a| == |b| == 4
    ensures BigEndian32(a) < BigEndian32(b) <==> ComesBefore(a, b)
  {
    FirstDifference(a, b);
  }

  /** With its bounds that order leaves one reading of the four bytes only. */
  lemma SizeIsUnique(size: seq<byte> -> nat, b: seq<byte>)
    requires forall a | |a| == 4 :: size(a) < 0x1_0000_0000
    requires forall a, c | |a| == |c| == 4 && ComesBefore(a, c) :: size(a) < size(c)
    requires |b| == 4
    ensures size(b) == BigEndian32(b)
  {
    var n := BigEndian32(b);
    BigEndianInjective(b);
    AtLeast(size, n);
    AtMost(size, n);
  }

  lemma Successor(n: nat)
    requires n + 1 < 0x1_0000_0000
    ensures ComesBefore(ToBigEndian32(n), ToBigEndian32(n + 1))
  {
    BigEndianRoundTrip(n);
    BigEndianRoundTrip(n + 1);
    SizesCompare(ToBigEndian32(n), ToBigEndian32(n + 1));
  }

  lemma {:induction false} AtLeast(size: seq<byte> -> nat, n: nat)
    requires n < 0x1_0000_0000
    requires forall a, c | |a| == |c| == 4 && ComesBefore(a, c) :: size(a) < size(c)
    ensures size(ToBigEndian32(n)) >= n
  {
    hide ToBigEndian32;
    if n > 0 {
      AtLeast(size, n - 1);
      Successor(n - 1);
    }
  }

  lemma {:induction false} AtMost(size: seq<byte> -> nat, n: nat)
    requires n < 0x1_0000_0000
    requires forall a | |a| == 4 :: size(a) < 0x1_0000_0000
    requires forall a, c | |a| == |c| == 4 && ComesBefore(a, c) :: size(a) < size(c)
    ensures size(ToBigEndian32(n)) <= n
    decreases 0x1_0000_0000 - n
  {
    hide ToBigEndian32;
    if n + 1 < 0x1_0000_0000 {
      AtMost(size, n + 1);
      Successor(n);
    }
  }

  // ----- A frame, byte by byte

  /** A frame whose first byte is its kind, whose next three say nothing, and whose payload is as long as
      the next four say, hands its payload to the writers of its kind and to no others. The stream then
      goes on behind it. */
  lemma FrameIsDelivered(
    kind: byte, pad: seq<byte>, size: seq<byte>, payload: seq<byte>, rest: seq<byte>, kinds: set<byte>)
    requires |pad| == 3 && |size| == 4
    requires |payload| ==
      size[0] as int * 256 * 256 * 256 + size[1] as int * 256 * 256 + size[2] as int * 256 + size[3] as int
    ensures
      var s := [kind] + pad + size + payload + rest;
      && Delivered(s, kinds) == (if kind in kinds then payload else []) + Delivered(rest, kinds)
      && Rest(s) == Rest(rest)
  {
    hide Delivered, Rest;
    var s := [kind] + pad + size + payload + rest;
    assert s[4..8] == size;
    assert HasFrame(s) && PayloadSize(s) == |payload|;
    assert s[8..8 + |payload|] == payload && s[8 + |payload|..] == rest;
    RoundDelivers(s, kinds);
  }

  /** A stream that stops inside the payload of a frame delivers the bytes that are there and is not
      accepted. */
  lemma CutFrameIsDelivered(
    kind: byte, pad: seq<byte>, size: seq<byte>, payload: seq<byte>, kinds: set<byte>)
    requires |pad| == 3 && |size| == 4
    requires |payload| <
      size[0] as int * 256 * 256 * 256 + size[1] as int * 256 * 256 + size[2] as int * 256 + size[3] as int
    ensures
      var s := [kind] + pad + size + payload;
      && Delivered(s, kinds) == (if kind in kinds then payload else [])
      && Rest(s) == s
  {
    hide Delivered, Rest;
    var s := [kind] + pad + size + payload;
    assert s[4..8] == size;
    assert !HasFrame(s) && s[8..] == payload;
    RoundDelivers(s, kinds);
  }

  lemma NothingIsDelivered(kinds: set<byte>)
    ensures Delivered([], kinds) == [] && Rest([]) == []
  {
  }

  /** Kind 1 goes to stdout and kind 2 to stderr, wherever these two are written; every other kind is
      thrown away. */
  lemma KindsOfWriters(stdout: Writer, stderr: Writer, kind: byte)
    ensures kind in KindsFor(stdout, stdout, stderr) <==> kind == 1 || (kind == 2 && stdout == stderr)
    ensures kind in KindsFor(stderr, stdout, stderr) <==> kind == 2 || (kind == 1 && stdout == stderr)
  {
  }

  /** The program's output "hi" and its error "!", as Docker sends them. */
  lemma OutputAndError(stdout: Writer, stderr: Writer)
    requires stdout != stderr
    ensures
      var s: seq<byte> := [1, 0, 0, 0, 0, 0, 0, 2, 104, 105, 2, 0, 0, 0, 0, 0, 0, 1, 33];
      && Delivered(s, KindsFor(stdout, stdout, stderr)) == [104, 105]
      && Delivered(s, KindsFor(stderr, stdout, stderr)) == [33]
      && Rest(s) == []
  {
    hide Delivered, Rest, KindsFor;
    var out, errs := KindsFor(stdout, stdout, stderr), KindsFor(stderr, stdout, stderr);
    KindsOfWriters(stdout, stderr, 1);
    KindsOfWriters(stdout, stderr, 2);
    var second: seq<byte> := [2, 0, 0, 0, 0, 0, 0, 1, 33];
    var s: seq<byte> := [1, 0, 0, 0, 0, 0, 0, 2, 104, 105, 2, 0, 0, 0, 0, 0, 0, 1, 33];
    assert s == [1] + [0, 0, 0] + [0, 0, 0, 2] + [104, 105] + second;
    assert second == [2] + [0, 0, 0] + [0, 0, 0, 1] + [33] + [];
    forall kinds: set<byte>
      ensures Delivered(s, kinds) == (if 1 in kinds then [104, 105] else []) + (if 2 in kinds then [33] else [])
      ensures Rest(s) == []
    {
      FrameIsDelivered(1, [0, 0, 0], [0, 0, 0, 2], [104, 105], second, kinds);
      FrameIsDelivered(2, [0, 0, 0], [0, 0, 0, 1], [33], [], kinds);
      NothingIsDelivered(kinds);
    }
  }
}
