/**
 Docker's multiplexed log framing: the batch decoder stripDockerStreamHeaders of
 internal/docker/introspect.go and the streaming decoder of internal/logs/collector.go.

 A frame is one byte of stream type, three of padding, four of big-endian size, then the payload.
 */
module LogFrames {

  type Byte = b: int | 0 <= b < 256

  const HEADER_BYTES := 8
  const SIZE_LIMIT := 0x1_0000_0000

  datatype Frame = Frame(kind: Byte, payload: seq<Byte>)

  // ---------- encoding ----------

  function SizeBytes(n: nat): seq<Byte>
    requires n < SIZE_LIMIT
  {
    [n / 256 / 256 / 256, n / 256 / 256 % 256, n / 256 % 256, n % 256]
  }

  function Header(f: Frame): seq<Byte>
    requires |f.payload| < SIZE_LIMIT
  {
    [f.kind, 0, 0, 0] + SizeBytes(|f.payload|)
  }

  predicate Encodable(frames: seq<Frame>) {
    forall i :: 0 <= i < |frames| ==> |frames[i].payload| < SIZE_LIMIT
  }

  function Encode(frames: seq<Frame>): seq<Byte>
    requires Encodable(frames)
  {
    if frames == [] then [] else Header(frames[0]) + frames[0].payload + Encode(frames[1..])
  }

  function Payloads(frames: seq<Frame>): seq<Byte> {
    if frames == [] then [] else frames[0].payload + Payloads(frames[1..])
  }

  // ---------- decoding ----------

  function BigEndian(b0: int, b1: int, b2: int, b3: int): int {
    b0 * 0x100_0000 + b1 * 0x1_0000 + b2 * 0x100 + b3
  }

  lemma SizeRoundTrip(n: nat)
    requires n < SIZE_LIMIT
    ensures var b := SizeBytes(n); BigEndian(b[0], b[1], b[2], b[3]) == n
  {
    var high := n / 256;
    var higher := high / 256;
    assert n == 256 * high + n % 256;
    assert high == 256 * higher + high % 256;
    assert higher == 256 * (higher / 256) + higher % 256;
  }

  function FrameSize(data: seq<Byte>): nat
    requires |data| >= HEADER_BYTES
  {
    BigEndian(data[4], data[5], data[6], data[7])
  }

  /** How many of the first frame's payload bytes are there. */
  function Received(data: seq<Byte>): nat
    requires |data| >= HEADER_BYTES
  {
    var size, there := FrameSize(data), |data| - HEADER_BYTES;
    if size > there then there else size
  }

  function AfterHeader(data: seq<Byte>): seq<Byte>
    requires |data| >= HEADER_BYTES
  {
    data[HEADER_BYTES..]
  }

  /** All payload bytes, the last frame possibly cut short. */
  function Body(data: seq<Byte>): seq<Byte> {
    if |data| < HEADER_BYTES then []
    else AfterHeader(data)[..Received(data)] + Body(AfterHeader(data)[Received(data)..])
  }

  /** What follows the last frame: fewer bytes than a header. */
  function Tail(data: seq<Byte>): (r: seq<Byte>)
    ensures |r| < HEADER_BYTES
  {
    if |data| < HEADER_BYTES then data else Tail(AfterHeader(data)[Received(data)..])
  }

  /** The batch result: the payload, or, when there is none, the bytes left over. */
  function Stripped(data: seq<Byte>): seq<Byte> {
    if Body(data) == [] then Tail(data) else Body(data)
  }

  /** The frames a reader that waits for whole payloads delivers; empty frames are skipped. */
  function Delivered(data: seq<Byte>): seq<Frame> {
    if |data| < HEADER_BYTES || FrameSize(data) > |AfterHeader(data)| then []
    else FirstDelivered(data) + Delivered(AfterHeader(data)[FrameSize(data)..])
  }

  function FirstDelivered(data: seq<Byte>): seq<Frame>
    requires |data| >= HEADER_BYTES && FrameSize(data) <= |AfterHeader(data)|
  {
    if FrameSize(data) == 0 then [] else [Frame(data[0], AfterHeader(data)[..FrameSize(data)])]
  }

  /** One turn of the batch decoder's loop. */
  lemma BodyStep(written: seq<Byte>, data: seq<Byte>)
    requires |data| >= HEADER_BYTES
    ensures var rest := AfterHeader(data);
            var k := Received(data);
            && k <= |rest|
            && written + Body(data) == (written + rest[..k]) + Body(rest[k..])
            && Tail(data) == Tail(rest[k..])
  {
  }

  /** stripDockerStreamHeaders. */
  method StripDockerStreamHeaders(input: seq<Byte>) returns (cleaned: seq<Byte>)
    ensures cleaned == Stripped(input)
  {
    var data := input;
    var buf := [];
    while |data| >= 8
      invariant buf + Body(data) == Body(input)
      invariant Tail(data) == Tail(input)
      decreases |data|
    {
      BodyStep(buf, data);
      var frameSize := BigEndian(data[4], data[5], data[6], data[7]);
      ghost var k := Received(data);
      data := data[8..];
      if frameSize <= 0 {
        assert data[k..] == data && buf + data[..k] == buf;
        continue;
      }
      if frameSize > |data| {
        frameSize := |data|;
      }
      assert frameSize == k;
      buf := buf + data[..frameSize];
      data := data[frameSize..];
    }
    assert buf + [] == buf;
    if |buf| == 0 && |data| > 0 {
      return data;
    }
    return buf;
  }

  /** One turn of the streaming decoder's loop that delivers or skips a frame. */
  lemma DeliveredStep(got: seq<Frame>, data: seq<Byte>)
    requires |data| >= HEADER_BYTES && FrameSize(data) <= |AfterHeader(data)|
    ensures got + Delivered(data) == (got + FirstDelivered(data)) + Delivered(AfterHeader(data)[FrameSize(data)..])
  {
  }

  /** The frame loop of tailContainer, over everything the reader will ever give. */
  method TailFrames(stream: seq<Byte>) returns (frames: seq<Frame>)
    ensures frames == Delivered(stream)
  {
    frames := [];
    var unread := stream;
    while true
      invariant frames + Delivered(unread) == Delivered(stream)
      decreases |unread|
    {
      if |unread| < 8 {
        assert frames + [] == frames;
        return;
      }
      ghost var before := unread;
      var hdr := unread[..8];
      unread := unread[8..];
      var size := BigEndian(hdr[4], hdr[5], hdr[6], hdr[7]);
      assert size == FrameSize(before) && unread == AfterHeader(before);
      if |unread| < size {
        assert frames + [] == frames;
        return;
      }
      DeliveredStep(frames, before);
      if size == 0 {
        assert unread[0..] == unread && frames + [] == frames;
        continue;
      }
      frames := frames + [Frame(hdr[0], unread[..size])];
      unread := unread[size..];
    }
  }

  // ---------- the two decoders against the encoder and against each other ----------

  /** Where the first frame of an encoding lies. */
  lemma EncodingLayout(frames: seq<Frame>)
    requires frames != [] && Encodable(frames)
    ensures var all := Encode(frames);
            var n := |frames[0].payload|;
            && |all| >= HEADER_BYTES + n && all[0] == frames[0].kind
            && FrameSize(all) == n
            && AfterHeader(all)[..n] == frames[0].payload
            && AfterHeader(all)[n..] == Encode(frames[1..])
  {
    var header, payload, rest := Header(frames[0]), frames[0].payload, Encode(frames[1..]);
    SizeRoundTrip(|payload|);
    Concatenation(header, payload, rest);
    assert header[4..] == SizeBytes(|payload|);
    assert header[4] == header[4..][0] && header[5] == header[4..][1] && header[6] == header[4..][2] && header[7] == header[4..][3];
  }

  lemma Concatenation(header: seq<Byte>, payload: seq<Byte>, rest: seq<Byte>)
    requires |header| == HEADER_BYTES
    ensures var all := header + payload + rest;
            && (forall i :: 0 <= i < HEADER_BYTES ==> all[i] == header[i])
            && AfterHeader(all)[..|payload|] == payload
            && AfterHeader(all)[|payload|..] == rest
  {
  }

  /** The first frame of an encoding that was cut after its header. */
  lemma FirstFrame(frames: seq<Frame>, cut: nat)
    requires frames != [] && Encodable(frames) && HEADER_BYTES <= cut <= |Encode(frames)|
    ensures var data := Encode(frames)[..cut];
            var n := |frames[0].payload|;
            && FrameSize(data) == n && |data| == cut
            && (cut >= HEADER_BYTES + n ==>
                  && AfterHeader(data)[..n] == frames[0].payload
                  && cut - HEADER_BYTES - n <= |Encode(frames[1..])|
                  && AfterHeader(data)[n..] == Encode(frames[1..])[..cut - HEADER_BYTES - n])
            && (cut < HEADER_BYTES + n ==> AfterHeader(data) <= frames[0].payload)
  {
    EncodingLayout(frames);
    var all := Encode(frames);
    var data := all[..cut];
    var n := |frames[0].payload|;
    assert data[4] == all[4] && data[5] == all[5] && data[6] == all[6] && data[7] == all[7];
    assert AfterHeader(data) == AfterHeader(all)[..cut - HEADER_BYTES];
    if cut >= HEADER_BYTES + n {
      assert AfterHeader(data)[..n] == AfterHeader(all)[..n];
      assert AfterHeader(data)[n..] == AfterHeader(all)[n..][..cut - HEADER_BYTES - n];
    } else {
      assert AfterHeader(data) == AfterHeader(all)[..n][..cut - HEADER_BYTES];
    }
  }

  /** A last frame that is not complete contributes what arrived of it. */
  lemma CutShort(data: seq<Byte>)
    requires |data| >= HEADER_BYTES && FrameSize(data) >= |data| - HEADER_BYTES
    ensures Body(data) == AfterHeader(data) && Tail(data) == []
  {
    var rest := AfterHeader(data);
    assert Received(data) == |rest| && rest[..|rest|] == rest && rest[|rest|..] == [];
  }

  lemma PrefixCons(first: seq<Byte>, a: seq<Byte>, b: seq<Byte>)
    requires a <= b
    ensures first + a <= first + b
  {
  }

  lemma WholeFirst(data: seq<Byte>, payload: seq<Byte>, rest: seq<Byte>)
    requires |data| >= HEADER_BYTES + |payload| && FrameSize(data) == |payload|
    requires AfterHeader(data)[..|payload|] == payload && AfterHeader(data)[|payload|..] == rest
    ensures Body(data) == payload + Body(rest) && Tail(data) == Tail(rest)
  {
  }

  /** What the batch decoder makes of `data`, the first `cut` bytes of an encoding. */
  ghost predicate DecodesCut(frames: seq<Frame>, cut: nat, data: seq<Byte>)
    requires Encodable(frames)
  {
    && Body(data) <= Payloads(frames)
    && (cut == |Encode(frames)| ==> Body(data) == Payloads(frames) && Tail(data) == [])
  }

  lemma CutInHeader(frames: seq<Frame>, cut: nat)
    requires Encodable(frames) && cut <= |Encode(frames)| && cut < HEADER_BYTES
    ensures DecodesCut(frames, cut, Encode(frames)[..cut])
  {
    if frames != [] { EncodingLayout(frames); }
  }

  lemma CutInFirst(frames: seq<Frame>, cut: nat)
    requires frames != [] && Encodable(frames) && HEADER_BYTES <= cut <= |Encode(frames)|
    requires cut < HEADER_BYTES + |frames[0].payload|
    ensures DecodesCut(frames, cut, Encode(frames)[..cut])
  {
    EncodingLayout(frames);
    FirstFrame(frames, cut);
    CutShort(Encode(frames)[..cut]);
  }

  /** The cut of the remaining frames decides the cut of all of them. */
  lemma CutAfterFirst(frames: seq<Frame>, cut: nat) returns (next: nat)
    requires frames != [] && Encodable(frames) && cut <= |Encode(frames)|
    requires cut >= HEADER_BYTES + |frames[0].payload|
    ensures Encodable(frames[1..]) && next <= |Encode(frames[1..])|
    ensures DecodesCut(frames[1..], next, Encode(frames[1..])[..next]) ==> DecodesCut(frames, cut, Encode(frames)[..cut])
  {
    EncodingLayout(frames);
    FirstFrame(frames, cut);
    next := cut - HEADER_BYTES - |frames[0].payload|;
    var rest := Encode(frames[1..])[..next];
    WholeFirst(Encode(frames)[..cut], frames[0].payload, rest);
    if Body(rest) <= Payloads(frames[1..]) {
      PrefixCons(frames[0].payload, Body(rest), Payloads(frames[1..]));
    }
  }

  lemma {:induction false} CutBody(frames: seq<Frame>, cut: nat)
    requires Encodable(frames) && cut <= |Encode(frames)|
    ensures DecodesCut(frames, cut, Encode(frames)[..cut])
  {
    if cut < HEADER_BYTES {
      CutInHeader(frames, cut);
    } else if cut < HEADER_BYTES + |frames[0].payload| {
      CutInFirst(frames, cut);
    } else {
      var next := CutAfterFirst(frames, cut);
      CutBody(frames[1..], next);
    }
  }

  /** Stripping an encoded list of frames gives back the concatenated payloads. */
  lemma StripInvertsEncode(frames: seq<Frame>)
    requires Encodable(frames)
    ensures Stripped(Encode(frames)) == Payloads(frames)
  {
    CutBody(frames, |Encode(frames)|);
    assert Encode(frames)[..|Encode(frames)|] == Encode(frames);
  }

  /** On a stream cut anywhere: a prefix of the payloads, as soon as one payload byte arrived. */
  lemma StripOfACutIsAPrefix(frames: seq<Frame>, cut: nat)
    requires Encodable(frames) && cut <= |Encode(frames)|
    ensures var data := Encode(frames)[..cut];
            && (Body(data) != [] ==> Stripped(data) <= Payloads(frames))
            && (Stripped(data) == Body(data) <==> Body(data) != [] || Tail(data) == [])
  {
    CutBody(frames, cut);
  }

  lemma {:induction false} BodyIsShorter(data: seq<Byte>)
    requires |data| >= HEADER_BYTES
    ensures |Body(data)| <= |data| - HEADER_BYTES
    decreases |data|
  {
    var k := Received(data);
    var rest := AfterHeader(data)[k..];
    BodyStep([], data);
    assert |Body(data)| == k + |Body(rest)|;
    if |rest| >= HEADER_BYTES { BodyIsShorter(rest); }
  }

  /** Data without frames comes back as it was exactly when it is shorter than a header; anything
      longer that yields no payload comes back as its last few bytes. */
  lemma OriginalIsReturnedExactlyWhen(data: seq<Byte>)
    ensures Stripped(data) == data <==> |data| < HEADER_BYTES
    ensures Body(data) == [] ==> Stripped(data) == Tail(data)
  {
    if |data| >= HEADER_BYTES { BodyIsShorter(data); }
  }

  function NonEmpty(frames: seq<Frame>): seq<Frame> {
    if frames == [] then []
    else (if frames[0].payload == [] then [] else [frames[0]]) + NonEmpty(frames[1..])
  }

  /** The streaming decoder delivers every non-empty frame, with its stream type, in order. */
  lemma {:induction false} StreamInvertsEncode(frames: seq<Frame>)
    requires Encodable(frames)
    ensures Delivered(Encode(frames)) == NonEmpty(frames)
  {
    if frames != [] {
      EncodingLayout(frames);
      StreamInvertsEncode(frames[1..]);
    }
  }

  lemma PayloadsOfCons(f: seq<Frame>, rest: seq<Frame>)
    requires |f| <= 1
    ensures Payloads(f + rest) == Payloads(f) + Payloads(rest)
  {
    if f == [] {
      assert f + rest == rest;
    } else {
      assert (f + rest)[1..] == rest && Payloads(f) == f[0].payload + Payloads(f[1..]);
    }
  }

  /** The data stop inside a payload of which at least one byte arrived. */
  predicate EndsInsideAPayload(data: seq<Byte>) {
    |data| >= HEADER_BYTES &&
    if FrameSize(data) > |AfterHeader(data)| then |data| > HEADER_BYTES
    else EndsInsideAPayload(AfterHeader(data)[FrameSize(data)..])
  }

  /** On every byte string the streaming decoder's payload is a prefix of the batch decoder's result;
      the two differ exactly by the received part of a last frame that is not complete. */
  lemma {:induction false} StreamIsAPrefixOfBatch(data: seq<Byte>)
    ensures Payloads(Delivered(data)) <= Body(data)
    ensures Payloads(Delivered(data)) <= Stripped(data)
    ensures Payloads(Delivered(data)) == Body(data) <==> !EndsInsideAPayload(data)
    decreases |data|
  {
    if |data| >= HEADER_BYTES {
      if FrameSize(data) <= |AfterHeader(data)| {
        var first, rest := FirstDelivered(data), AfterHeader(data)[FrameSize(data)..];
        StreamIsAPrefixOfBatch(rest);
        PayloadsOfCons(first, Delivered(rest));
        assert Payloads(first) == AfterHeader(data)[..FrameSize(data)];
        assert Body(data) == Payloads(first) + Body(rest);
        assert Payloads(Delivered(data)) == Payloads(first) + Payloads(Delivered(rest));
      } else {
        CutShort(data);
      }
    }
  }
}
