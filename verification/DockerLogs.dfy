/**
 The Docker log demultiplexer (services/sandbox-manager/app/docker_engine.py): frames
 of an 8-byte header (stream, three bytes of padding, big-endian length) and a
 payload, read once by stream and once in order.
*/
module DockerLogs {
  import opened Common

  type Byte = b: int | 0 <= b < 256

  datatype Frame = Frame(stream: Byte, padding: seq<Byte>, payload: seq<Byte>)

  datatype Error = Truncated | Invalid

  const HEADER := 8
  const STDERR: Byte := 2

  predicate IsFrame(f: Frame) {
    |f.padding| == 3 && |f.payload| < 0x1_0000_0000
  }

  // ---------------------------------------------------------------- the wire format

  function BigEndian(n: nat): (r: seq<Byte>)
    requires n < 0x1_0000_0000
    ensures |r| == 4
  {
    var a: int, b: int, c: int, d: int := n / 0x100_0000, n / 0x1_0000 % 256, n / 256 % 256, n % 256;
    [a, b, c, d]
  }

  /** `int.from_bytes(raw, "big")` on four bytes. */
  function FromBigEndian(b: seq<Byte>): (n: nat)
    requires |b| == 4
    ensures n < 0x1_0000_0000
  {
    b[0] as int * 0x100_0000 + b[1] as int * 0x1_0000 + b[2] as int * 256 + b[3]
  }

  lemma BigEndianRoundTrip(n: nat)
    requires n < 0x1_0000_0000
    ensures FromBigEndian(BigEndian(n)) == n
  {
    assert n / 0x1_0000 == n / 0x100_0000 * 256 + n / 0x1_0000 % 256;
    assert n / 256 == n / 0x1_0000 * 256 + n / 256 % 256;
  }

  lemma FromBigEndianRoundTrip(b: seq<Byte>)
    requires |b| == 4
    ensures BigEndian(FromBigEndian(b)) == b
  {
    var n := FromBigEndian(b);
    assert n / 256 == b[0] as int * 0x1_0000 + b[1] as int * 256 + b[2];
    assert n / 0x1_0000 == b[0] as int * 256 + b[1];
    assert n / 0x100_0000 == b[0];
  }

  function Encode(f: Frame): seq<Byte>
    requires IsFrame(f)
  {
    [f.stream] + f.padding + BigEndian(|f.payload|) + f.payload
  }

  predicate AreFrames(fs: seq<Frame>) {
    forall f :: f in fs ==> IsFrame(f)
  }

  function EncodeAll(fs: seq<Frame>): seq<Byte>
    requires AreFrames(fs)
  {
    if fs == [] then []
    else assert fs[0] in fs; Encode(fs[0]) + EncodeAll(fs[1..])
  }

  /** The frames of a log, or what is wrong with it. */
  function Parse(raw: seq<Byte>): Result<seq<Frame>, Error>
    decreases |raw|
  {
    if raw == [] then Ok([])
    else if |raw| < HEADER then Err(Invalid)
    else
      var size := FromBigEndian(raw[4..HEADER]);
      if size > |raw| - HEADER then Err(Truncated)
      else Prepend([FrameAt(raw)], Parse(raw[HEADER + size..]))
  }

  function FrameAt(raw: seq<Byte>): Frame
    requires HEADER <= |raw| && FromBigEndian(raw[4..HEADER]) <= |raw| - HEADER
  {
    Frame(raw[0], raw[1..4], raw[HEADER..HEADER + FromBigEndian(raw[4..HEADER])])
  }

  function Prepend(fs: seq<Frame>, r: Result<seq<Frame>, Error>): Result<seq<Frame>, Error> {
    if r.Ok? then Ok(fs + r.value) else r
  }

  // ---------------------------------------------------------------- round trips

  lemma EncodedShape(f: Frame, rest: seq<Byte>)
    requires IsFrame(f)
    ensures var raw := Encode(f) + rest;
      && |raw| >= HEADER && FromBigEndian(raw[4..HEADER]) == |f.payload| <= |raw| - HEADER
      && FrameAt(raw) == f && raw[HEADER + |f.payload|..] == rest
  {
    var raw := Encode(f) + rest;
    BigEndianRoundTrip(|f.payload|);
    assert raw[4..HEADER] == BigEndian(|f.payload|);
    assert raw[1..4] == f.padding;
    assert raw[HEADER..HEADER + |f.payload|] == f.payload;
  }

  lemma DecodedShape(raw: seq<Byte>)
    requires HEADER <= |raw| && FromBigEndian(raw[4..HEADER]) <= |raw| - HEADER
    ensures IsFrame(FrameAt(raw))
    ensures Encode(FrameAt(raw)) == raw[..HEADER + FromBigEndian(raw[4..HEADER])]
  {
    FromBigEndianRoundTrip(raw[4..HEADER]);
    var f := FrameAt(raw);
    assert |f.payload| == FromBigEndian(raw[4..HEADER]);
    assert raw[..HEADER] == [raw[0]] + raw[1..4] + raw[4..HEADER];
    assert raw[..HEADER + |f.payload|] == raw[..HEADER] + f.payload;
  }

  /** Reading what was written gives the frames back. */
  lemma {:induction false} ParseEncode(fs: seq<Frame>)
    requires AreFrames(fs)
    ensures Parse(EncodeAll(fs)) == Ok(fs)
  {
    if fs != [] {
      assert fs[0] in fs;
      ParseEncode(fs[1..]);
      EncodedShape(fs[0], EncodeAll(fs[1..]));
      assert EncodeAll(fs) == Encode(fs[0]) + EncodeAll(fs[1..]);
      assert [fs[0]] + fs[1..] == fs;
    }
  }

  lemma EncodeCons(f: Frame, fs: seq<Frame>)
    requires IsFrame(f) && AreFrames(fs)
    ensures AreFrames([f] + fs) && EncodeAll([f] + fs) == Encode(f) + EncodeAll(fs)
  {
    assert ([f] + fs)[1..] == fs;
  }

  /** What follows the first frame. */
  function RestOf(raw: seq<Byte>): seq<Byte>
    requires HEADER <= |raw| && FromBigEndian(raw[4..HEADER]) <= |raw| - HEADER
  {
    raw[HEADER + FromBigEndian(raw[4..HEADER])..]
  }

  /** The first frame of an accepted log, and the rest. */
  lemma ParseStep(raw: seq<Byte>)
    requires raw != [] && Parse(raw).Ok?
    ensures HEADER <= |raw| && FromBigEndian(raw[4..HEADER]) <= |raw| - HEADER && |RestOf(raw)| < |raw|
    ensures Parse(RestOf(raw)).Ok? && Parse(raw).value == [FrameAt(raw)] + Parse(RestOf(raw)).value
    ensures IsFrame(FrameAt(raw)) && Encode(FrameAt(raw)) + RestOf(raw) == raw
  {
    DecodedShape(raw);
    assert raw == raw[..HEADER + FromBigEndian(raw[4..HEADER])] + RestOf(raw);
  }

  /** A log that is accepted is, byte for byte, the frames it is read as. */
  lemma {:induction false} EncodeParse(raw: seq<Byte>)
    requires Parse(raw).Ok?
    ensures AreFrames(Parse(raw).value) && EncodeAll(Parse(raw).value) == raw
    decreases |raw|
  {
    if raw != [] {
      ParseStep(raw);
      var rest := RestOf(raw);
      EncodeParse(rest);
      EncodeCons(FrameAt(raw), Parse(rest).value);
    }
  }

  ghost predicate IsLogOf(raw: seq<Byte>, fs: seq<Frame>) {
    AreFrames(fs) && EncodeAll(fs) == raw
  }

  /** The accepted logs are exactly the concatenations of frames, each of one list of frames only. */
  lemma AcceptedAreFrames(raw: seq<Byte>)
    ensures Parse(raw).Ok? <==> exists fs :: IsLogOf(raw, fs)
    ensures forall fs, gs :: IsLogOf(raw, fs) && IsLogOf(raw, gs) ==> fs == gs
  {
    if Parse(raw).Ok? {
      EncodeParse(raw);
      assert IsLogOf(raw, Parse(raw).value);
    }
    if fs :| IsLogOf(raw, fs) {
      ParseEncode(fs);
    }
    forall fs, gs | IsLogOf(raw, fs) && IsLogOf(raw, gs) ensures fs == gs {
      ParseEncode(fs);
      ParseEncode(gs);
    }
  }

  // ---------------------------------------------------------------- the two readings

  function Payload(f: Frame): seq<Byte> {
    f.payload
  }

  function StdoutPart(f: Frame): seq<Byte> {
    if f.stream == STDERR then [] else f.payload
  }

  function StderrPart(f: Frame): seq<Byte> {
    if f.stream == STDERR then f.payload else []
  }

  /** Nothing is lost or invented between the two readings of one log. */
  lemma {:induction false} SameBytes(fs: seq<Frame>)
    ensures |FlatMap(Payload, fs)| == |FlatMap(StdoutPart, fs)| + |FlatMap(StderrPart, fs)|
    ensures multiset(FlatMap(Payload, fs)) == multiset(FlatMap(StdoutPart, fs)) + multiset(FlatMap(StderrPart, fs))
  {
    if fs != [] {
      SameBytes(fs[1..]);
    }
  }

  lemma ParseFirst(raw: seq<Byte>)
    requires |raw| >= HEADER
    ensures Parse(raw) == if FromBigEndian(raw[4..HEADER]) > |raw| - HEADER then Err(Truncated)
                          else Prepend([FrameAt(raw)], Parse(RestOf(raw)))
  {}

  /** The length of a payload: the last of the four bytes counts least. */
  lemma BigEndianValue(b: seq<Byte>)
    requires |b| == 4
    ensures FromBigEndian(b) == ((b[0] as int * 256 + b[1] as int) * 256 + b[2] as int) * 256 + b[3] as int
  {}

  lemma HeaderCut(header: seq<Byte>, payload: seq<Byte>, rest: seq<Byte>)
    requires |header| == HEADER && FromBigEndian(header[4..]) == |payload|
    ensures var raw := header + payload + rest;
      && raw[4..HEADER] == header[4..] && |payload| <= |raw| - HEADER
      && FrameAt(raw) == Frame(header[0], header[1..4], payload) && RestOf(raw) == rest
  {
    var raw := header + payload + rest;
    assert raw[4..HEADER] == header[4..] && raw[1..4] == header[1..4];
    assert raw[HEADER..HEADER + |payload|] == payload && raw[HEADER + |payload|..] == rest;
  }

  lemma PartsOfFrames(f: Frame, fs: seq<Frame>)
    ensures FlatMap(StdoutPart, [f] + fs) == StdoutPart(f) + FlatMap(StdoutPart, fs)
    ensures FlatMap(StderrPart, [f] + fs) == StderrPart(f) + FlatMap(StderrPart, fs)
    ensures FlatMap(Payload, [f] + fs) == f.payload + FlatMap(Payload, fs)
  {
    assert ([f] + fs)[1..] == fs;
  }

  /**
   A frame in bytes: one for the stream, three that say nothing, four for the length,
   then the payload. Stream 2 is standard error, every other one standard output.
  */
  lemma FrameInBytes(header: seq<Byte>, payload: seq<Byte>, rest: seq<Byte>)
    requires |header| == 8
    requires |payload|
          == ((header[4] as int * 256 + header[5] as int) * 256 + header[6] as int) * 256 + header[7] as int
    ensures var raw := header + payload + rest;
      && (Parse(raw).Ok? <==> Parse(rest).Ok?) && (Parse(raw).Err? ==> Parse(raw) == Parse(rest))
      && (Parse(rest).Ok? ==>
            var fs, more := Parse(raw).value, Parse(rest).value;
            && FlatMap(StdoutPart, fs) == (if header[0] == 2 then [] else payload) + FlatMap(StdoutPart, more)
            && FlatMap(StderrPart, fs) == (if header[0] == 2 then payload else []) + FlatMap(StderrPart, more)
            && FlatMap(Payload, fs) == payload + FlatMap(Payload, more))
  {
    var raw := header + payload + rest;
    BigEndianValue(header[4..]);
    HeaderCut(header, payload, rest);
    ParseFirst(raw);
    if Parse(rest).Ok? {
      PartsOfFrames(FrameAt(raw), Parse(rest).value);
    }
  }

  /** Where the reader is: `fs` has been read, and the rest decides the outcome. */
  ghost predicate ReadSoFar(raw: seq<Byte>, offset: nat, fs: seq<Frame>) {
    offset <= |raw| && Parse(raw) == Prepend(fs, Parse(raw[offset..]))
  }

  lemma ReadStart(raw: seq<Byte>)
    ensures ReadSoFar(raw, 0, [])
  {
    assert raw[0..] == raw;
    if Parse(raw).Ok? {
      assert [] + Parse(raw).value == Parse(raw).value;
    }
  }

  /** The frame that starts at `offset`, as the loops cut it out. */
  function FrameFrom(raw: seq<Byte>, offset: nat): Frame
    requires offset + HEADER <= |raw|
    requires FromBigEndian(raw[offset + 4..offset + HEADER]) <= |raw| - (offset + HEADER)
  {
    var size := FromBigEndian(raw[offset + 4..offset + HEADER]);
    Frame(raw[offset], raw[offset + 1..offset + 4], raw[offset + HEADER..offset + HEADER + size])
  }

  lemma FrameInRest(raw: seq<Byte>, offset: nat)
    requires offset + HEADER <= |raw|
    ensures var rest := raw[offset..];
      var size := FromBigEndian(rest[4..HEADER]);
      && rest[4..HEADER] == raw[offset + 4..offset + HEADER]
      && (size <= |rest| - HEADER ==>
            FrameAt(rest) == FrameFrom(raw, offset) && rest[HEADER + size..] == raw[offset + HEADER + size..])
  {
    var rest := raw[offset..];
    assert rest[4..HEADER] == raw[offset + 4..offset + HEADER];
    var size := FromBigEndian(rest[4..HEADER]);
    if size <= |rest| - HEADER {
      assert rest[1..4] == raw[offset + 1..offset + 4];
      assert rest[HEADER..HEADER + size] == raw[offset + HEADER..offset + HEADER + size];
    }
  }

  lemma PrependMore(fs: seq<Frame>, f: Frame, r: Result<seq<Frame>, Error>)
    ensures Prepend(fs, Prepend([f], r)) == Prepend(fs + [f], r)
  {
    if r.Ok? {
      assert fs + ([f] + r.value) == (fs + [f]) + r.value;
    }
  }

  lemma ReadNext(raw: seq<Byte>, offset: nat, fs: seq<Frame>)
    requires ReadSoFar(raw, offset, fs) && offset + HEADER <= |raw|
    ensures var size := FromBigEndian(raw[offset + 4..offset + HEADER]);
      if size > |raw| - (offset + HEADER) then Parse(raw) == Err(Truncated)
      else ReadSoFar(raw, offset + HEADER + size, fs + [FrameFrom(raw, offset)])
  {
    FrameInRest(raw, offset);
    var rest := raw[offset..];
    ParseFirst(rest);
    if FromBigEndian(rest[4..HEADER]) <= |rest| - HEADER {
      PrependMore(fs, FrameAt(rest), Parse(RestOf(rest)));
    }
  }

  lemma ReadEnd(raw: seq<Byte>, offset: nat, fs: seq<Frame>)
    requires ReadSoFar(raw, offset, fs) && offset + HEADER > |raw|
    ensures Parse(raw) == if offset == |raw| then Ok(fs) else Err(Invalid)
  {
    assert raw[offset..] == [] <==> offset == |raw|;
    assert fs + [] == fs;
  }

  /** Standard error is what came on stream 2, standard output everything else, each in order. */
  method SplitDockerLogs(raw: seq<Byte>) returns (r: Result<(seq<Byte>, seq<Byte>), Error>)
    ensures r.Ok? <==> Parse(raw).Ok?
    ensures r.Err? ==> r.error == Parse(raw).error
    ensures r.Ok? ==> r.value == (FlatMap(StdoutPart, Parse(raw).value), FlatMap(StderrPart, Parse(raw).value))
  {
    var stdout: seq<Byte>, stderr: seq<Byte>, offset := [], [], 0;
    ghost var fs: seq<Frame> := [];
    ReadStart(raw);
    while offset + HEADER <= |raw|
      invariant ReadSoFar(raw, offset, fs)
      invariant stdout == FlatMap(StdoutPart, fs) && stderr == FlatMap(StderrPart, fs)
      decreases |raw| - offset
    {
      ReadNext(raw, offset, fs);
      ghost var start := offset;
      var stream := raw[offset];
      var size := FromBigEndian(raw[offset + 4..offset + HEADER]);
      offset := offset + HEADER;
      if size > |raw| - offset {
        return Err(Truncated);
      }
      var payload := raw[offset..offset + size];
      if stream == STDERR {
        stderr := stderr + payload;
      } else {
        stdout := stdout + payload;
      }
      offset := offset + size;
      ghost var f := FrameFrom(raw, start);
      FlatMapSnoc(StdoutPart, fs, f);
      FlatMapSnoc(StderrPart, fs, f);
      fs := fs + [f];
    }
    ReadEnd(raw, offset, fs);
    if offset != |raw| {
      return Err(Invalid);
    }
    return Ok((stdout, stderr));
  }

  /** All payloads in the order of their frames. */
  method MergedDockerLogs(raw: seq<Byte>) returns (r: Result<seq<Byte>, Error>)
    ensures r.Ok? <==> Parse(raw).Ok?
    ensures r.Err? ==> r.error == Parse(raw).error
    ensures r.Ok? ==> r.value == FlatMap(Payload, Parse(raw).value)
  {
    var output: seq<Byte>, offset := [], 0;
    ghost var fs: seq<Frame> := [];
    ReadStart(raw);
    while offset + HEADER <= |raw|
      invariant ReadSoFar(raw, offset, fs)
      invariant output == FlatMap(Payload, fs)
      decreases |raw| - offset
    {
      ReadNext(raw, offset, fs);
      var size := FromBigEndian(raw[offset + 4..offset + HEADER]);
      ghost var start := offset;
      offset := offset + HEADER;
      if size > |raw| - offset {
        return Err(Truncated);
      }
      var payload := raw[offset..offset + size];
      output := output + payload;
      offset := offset + size;
      ghost var f := FrameFrom(raw, start);
      FlatMapSnoc(Payload, fs, f);
      fs := fs + [f];
    }
    ReadEnd(raw, offset, fs);
    if offset != |raw| {
      return Err(Invalid);
    }
    return Ok(output);
  }
}
