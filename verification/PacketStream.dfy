/** Reassembling length-prefixed packets from a byte stream that arrives in arbitrary pieces. */
module PacketStream {
  import opened Options

  type byte = n: int | 0 <= n < 256
  type bytes = seq<byte>

  const HEADER_SIZE := 7

  /** One packet as it stands in the stream: size, a flag byte, id, index, payload. */
  datatype Frame = Frame(raw: bytes) {
    function Id(): int
      requires |raw| >= HEADER_SIZE
    {
      BigEndian(raw[3], raw[4])
    }

    function Index(): int
      requires |raw| >= HEADER_SIZE
    {
      BigEndian(raw[5], raw[6])
    }

    function Payload(): bytes
      requires |raw| >= HEADER_SIZE
    {
      raw[HEADER_SIZE..]
    }
  }

  function BigEndian(hi: byte, lo: byte): int {
    256 * hi + lo
  }

  function FrameSize(b: bytes): int
    requires |b| >= 2
  {
    BigEndian(b[0], b[1]) + 2
  }

  // ---------- One-shot parsing ----------

  /** The parser is still waiting with these bytes left, or it died on a size below 5. */
  datatype Parse = Waiting(frames: seq<Frame>, rest: bytes) | Crashed(frames: seq<Frame>)

  /** The buffer does not yet, or never will, yield another frame. */
  ghost predicate Stalled(b: bytes) {
    |b| < HEADER_SIZE || FrameSize(b) == 2 || FrameSize(b) > |b|
  }

  ghost function Prepend(f: Frame, p: Parse): Parse {
    match p
    case Waiting(frames, rest) => Waiting([f] + frames, rest)
    case Crashed(frames) => Crashed([f] + frames)
  }

  ghost function ParseAll(b: bytes): Parse
    decreases |b|
  {
    if Stalled(b) then Waiting([], b)
    else if FrameSize(b) < HEADER_SIZE then Crashed([])
    else Prepend(Frame(b[..FrameSize(b)]), ParseAll(b[FrameSize(b)..]))
  }

  /** What the parser holds after a first piece, and does once a second piece arrives. */
  ghost function Continue(p: Parse, more: bytes): Parse {
    match p
    case Crashed(_) => p
    case Waiting(frames, rest) =>
      match ParseAll(rest + more)
      case Waiting(frames', rest') => Waiting(frames + frames', rest')
      case Crashed(frames') => Crashed(frames + frames')
  }

  /** A stream cut in two parses like the whole, wherever it is cut and whatever it holds. */
  lemma {:induction false} ParseInTwo(a: bytes, b: bytes)
    ensures Continue(ParseAll(a), b) == ParseAll(a + b)
    decreases |a|
  {
    if Stalled(a) {
    } else if FrameSize(a) < HEADER_SIZE {
    } else {
      var n := FrameSize(a);
      assert (a + b)[..n] == a[..n] && (a + b)[n..] == a[n..] + b;
      ParseInTwo(a[n..], b);
      PrependContinue(Frame(a[..n]), ParseAll(a[n..]), b);
    }
  }

  lemma PrependContinue(f: Frame, p: Parse, more: bytes)
    ensures Continue(Prepend(f, p), more) == Prepend(f, Continue(p, more))
  {
    if p.Waiting? {
      var q := ParseAll(p.rest + more);
      assert ([f] + p.frames) + q.frames == [f] + (p.frames + q.frames);
    }
  }

  /** A size field of 0 at the front jams the parser: nothing that follows is ever handed out. */
  lemma ZeroSizeJams(frames: seq<Frame>, b: bytes, more: bytes)
    requires |b| >= 2 && FrameSize(b) == 2
    ensures Continue(Waiting(frames, b), more) == Waiting(frames, b + more)
  {
    assert (b + more)[0] == b[0] && (b + more)[1] == b[1];
    assert frames + [] == frames;
  }

  ghost function Zeros(n: nat): bytes {
    seq(n, _ => 0)
  }

  /** Every other stalled buffer moves on once the right bytes follow. */
  lemma MovesOn(b: bytes) returns (more: bytes)
    requires Stalled(b) && !(|b| >= 2 && FrameSize(b) == 2)
    ensures !Stalled(b + more)
  {
    more := if |b| == 0 then [0, 1] else if |b| == 1 then [1] else [];
    var head := b + more;
    var n := FrameSize(head) + HEADER_SIZE;
    more := more + Zeros(n);
    assert b + more == head + Zeros(n);
    assert (b + more)[0] == head[0] && (b + more)[1] == head[1];
  }

  /** A stalled buffer is jammed for good exactly when its size field is there and 0. */
  lemma JammedIff(b: bytes)
    requires Stalled(b)
    ensures (forall more: bytes :: ParseAll(b + more) == Waiting([], b + more)) <==> |b| >= 2 && FrameSize(b) == 2
  {
    if |b| >= 2 && FrameSize(b) == 2 {
      forall more: bytes
        ensures ParseAll(b + more) == Waiting([], b + more)
      {
        ZeroSizeJams([], b, more);
      }
    } else {
      var more := MovesOn(b);
      assert ParseAll(b + more) != Waiting([], b + more);
    }
  }

  ghost function Concat(chunks: seq<bytes>): bytes {
    if |chunks| == 0 then [] else Concat(chunks[..|chunks| - 1]) + chunks[|chunks| - 1]
  }

  ghost function ParseChunks(chunks: seq<bytes>): Parse {
    if |chunks| == 0 then Waiting([], [])
    else Continue(ParseChunks(chunks[..|chunks| - 1]), chunks[|chunks| - 1])
  }

  /** Reading in any pieces hands out the same frames and keeps the same rest as reading at once. */
  lemma {:induction false} ChunksIrrelevant(chunks: seq<bytes>)
    ensures ParseChunks(chunks) == ParseAll(Concat(chunks))
  {
    if |chunks| != 0 {
      var n := |chunks| - 1;
      ChunksIrrelevant(chunks[..n]);
      ParseInTwo(Concat(chunks[..n]), chunks[n]);
    }
  }

  // ---------- Nothing lost, nothing made up ----------

  ghost function Bytes(frames: seq<Frame>): bytes
    decreases |frames|
  {
    if frames == [] then [] else frames[0].raw + Bytes(frames[1..])
  }

  /** A frame whose size field is its true size. */
  ghost predicate WellFormed(f: Frame) {
    |f.raw| >= HEADER_SIZE && FrameSize(f.raw) == |f.raw|
  }

  ghost predicate AllWellFormed(frames: seq<Frame>) {
    forall i :: 0 <= i < |frames| ==> WellFormed(frames[i])
  }

  lemma BytesCons(f: Frame, frames: seq<Frame>)
    ensures Bytes([f] + frames) == f.raw + Bytes(frames)
  {
    assert ([f] + frames)[1..] == frames;
  }

  /** `p` is a faithful account of `b`: what was cut off is its beginning, the rest its end. */
  ghost predicate Accounts(p: Parse, b: bytes) {
    && AllWellFormed(p.frames)
    && (match p
        case Waiting(frames, rest) => Bytes(frames) + rest == b && Stalled(rest)
        case Crashed(frames) => Bytes(frames) <= b)
  }

  lemma AccountsCons(f: Frame, p: Parse, b: bytes)
    requires WellFormed(f) && Accounts(p, b)
    ensures Accounts(Prepend(f, p), f.raw + b)
  {
    BytesCons(f, p.frames);
    if p.Waiting? {
      assert f.raw + (Bytes(p.frames) + p.rest) == (f.raw + Bytes(p.frames)) + p.rest;
    }
  }

  /** Frames and rest put together are the input, and every frame is well formed. */
  lemma {:induction false} Lossless(b: bytes)
    ensures Accounts(ParseAll(b), b)
    decreases |b|
  {
    if !Stalled(b) && FrameSize(b) >= HEADER_SIZE {
      var n := FrameSize(b);
      Lossless(b[n..]);
      AccountsCons(Frame(b[..n]), ParseAll(b[n..]), b[n..]);
      assert b == b[..n] + b[n..];
    }
  }

  /** Well-formed frames written one after another come back, and nothing else. */
  lemma {:induction false} WrittenFramesComeBack(frames: seq<Frame>)
    requires AllWellFormed(frames)
    ensures ParseAll(Bytes(frames)) == Waiting(frames, [])
    decreases |frames|
  {
    if frames != [] {
      var b, f := Bytes(frames), frames[0];
      WrittenFramesComeBack(frames[1..]);
      assert b[..|f.raw|] == f.raw && b[|f.raw|..] == Bytes(frames[1..]);
      assert b[0] == f.raw[0] && b[1] == f.raw[1];
      assert [f] + frames[1..] == frames;
    }
  }

  // ---------- Emitting ----------

  datatype Record = Record(id: int, index: int, payload: bytes)

  datatype Config = Config(packetId: int, limit: int)

  function RecordOf(f: Frame): Record
    requires |f.raw| >= HEADER_SIZE
  {
    Record(f.Id(), f.Index(), f.Payload())
  }

  predicate Selected(cfg: Config, r: Record) {
    cfg.packetId == 0 || cfg.packetId == r.id
  }

  /** The records of the selected frames, in stream order. */
  ghost function Matching(cfg: Config, frames: seq<Frame>): seq<Record>
    requires AllWellFormed(frames)
  {
    if |frames| == 0 then []
    else
      var n := |frames| - 1;
      var r := RecordOf(frames[n]);
      Matching(cfg, frames[..n]) + if Selected(cfg, r) then [r] else []
  }

  /** The first `limit` of the matching records; all of them without a positive limit. */
  ghost function Emitted(cfg: Config, frames: seq<Frame>): seq<Record>
    requires AllWellFormed(frames)
  {
    var all := Matching(cfg, frames);
    if cfg.limit > 0 && |all| > cfg.limit then all[..cfg.limit] else all
  }

  /** The decoder of one stream: its buffer, the packet counter and the lines written. */
  class Decoder {
    const cfg: Config
    var buffer: bytes
    var packetCount: nat
    var output: seq<Record>
    ghost var seen: bytes

    /** The state is what a one-shot parse of everything read so far prescribes. */
    ghost predicate Valid()
      reads this
    {
      var p := ParseAll(seen);
      && p.Waiting? && p.rest == buffer
      && AllWellFormed(p.frames)
      && output == Emitted(cfg, p.frames)
      && packetCount == |output|
    }

    constructor (cfg: Config)
      ensures Valid() && this.cfg == cfg && seen == [] && output == []
    {
      this.cfg := cfg;
      buffer, packetCount, output, seen := [], 0, [], [];
    }

    /** The filter and the limit of `emitPacket`. */
    method EmitPacket(r: Record)
      modifies `packetCount, `output
      requires packetCount == |output|
      ensures packetCount == |output|
      ensures output == old(output) +
              if Selected(cfg, r) && (cfg.limit <= 0 || old(|output|) < cfg.limit) then [r] else []
    {
      if cfg.packetId != 0 && cfg.packetId != r.id { return; }
      if cfg.limit > 0 && packetCount >= cfg.limit { return; }
      packetCount := packetCount + 1;
      output := output + [r];
    }

    /**
     One turn of `run` with `consumePackets`: append what was read, cut frames off the
     front. The result is false when a size field below 5 makes the slice bounds cross.
     */
    method Read(chunk: bytes) returns (alive: bool)
      requires Valid()
      modifies this
      ensures seen == old(seen) + chunk
      ensures alive <==> ParseAll(seen).Waiting?
      ensures alive ==> Valid()
      ensures !alive ==> AllWellFormed(ParseAll(seen).frames) && output == Emitted(cfg, ParseAll(seen).frames)
    {
      hide ParseAll, Emitted;
      ghost var frames := ParseAll(seen).frames;
      ParseInTwo(seen, chunk);
      Resume(frames, buffer, chunk);
      seen := seen + chunk;
      buffer := buffer + chunk;
      while |buffer| >= HEADER_SIZE
        invariant seen == old(seen) + chunk && packetCount == |output|
        invariant AllWellFormed(frames) && output == Emitted(cfg, frames)
        invariant ParseAll(seen) == Continue(Waiting(frames, buffer), [])
        decreases |buffer|
      {
        var packetSize := BigEndian(buffer[0], buffer[1]);
        var frameSize := packetSize + 2;
        if packetSize <= 0 || frameSize > |buffer| { break; }
        if frameSize < HEADER_SIZE {
          Halt(frames, buffer);
          return false;
        }
        Shift(cfg, frames, buffer);
        EmitPacket(Record(BigEndian(buffer[3], buffer[4]), BigEndian(buffer[5], buffer[6]),
                          buffer[HEADER_SIZE..frameSize]));
        frames := frames + [Frame(buffer[..frameSize])];
        buffer := buffer[frameSize..];
      }
      Halt(frames, buffer);
      return true;
    }
  }

  lemma Resume(frames: seq<Frame>, b: bytes, more: bytes)
    ensures Continue(Waiting(frames, b), more) == Continue(Waiting(frames, b + more), [])
  {
    assert (b + more) + [] == b + more;
  }

  /** A buffer that yields no frame is where the parse of everything read stands. */
  lemma Halt(frames: seq<Frame>, b: bytes)
    ensures Stalled(b) ==> Continue(Waiting(frames, b), []) == Waiting(frames, b)
    ensures !Stalled(b) && FrameSize(b) < HEADER_SIZE ==> Continue(Waiting(frames, b), []) == Crashed(frames)
  {
    assert b + [] == b && frames + [] == frames;
  }

  /** Cutting a frame off the front and handing it on moves along the same parse. */
  lemma Shift(cfg: Config, frames: seq<Frame>, b: bytes)
    requires AllWellFormed(frames) && !Stalled(b) && FrameSize(b) >= HEADER_SIZE
    ensures var f, tail := Frame(b[..FrameSize(b)]), b[FrameSize(b)..];
            var out, r := Emitted(cfg, frames),
                          Record(BigEndian(b[3], b[4]), BigEndian(b[5], b[6]), b[HEADER_SIZE..FrameSize(b)]);
            && Continue(Waiting(frames, b), []) == Continue(Waiting(frames + [f], tail), [])
            && AllWellFormed(frames + [f])
            && Emitted(cfg, frames + [f]) == out +
               if Selected(cfg, r) && (cfg.limit <= 0 || |out| < cfg.limit) then [r] else []
  {
    var f, tail := Frame(b[..FrameSize(b)]), b[FrameSize(b)..];
    assert b + [] == b && tail + [] == tail;
    var p := ParseAll(tail);
    assert frames + ([f] + p.frames) == (frames + [f]) + p.frames;
    assert f.raw[HEADER_SIZE..] == b[HEADER_SIZE..FrameSize(b)];
    EmitNext(cfg, frames, f);
  }

  lemma EmitNext(cfg: Config, frames: seq<Frame>, f: Frame)
    requires AllWellFormed(frames) && WellFormed(f)
    ensures AllWellFormed(frames + [f])
    ensures var out, r := Emitted(cfg, frames), RecordOf(f);
            Emitted(cfg, frames + [f]) == out +
            if Selected(cfg, r) && (cfg.limit <= 0 || |out| < cfg.limit) then [r] else []
  {
    var now := frames + [f];
    assert now[..|now| - 1] == frames;
    var all, more := Matching(cfg, frames), Matching(cfg, now);
    if cfg.limit > 0 && |all| >= cfg.limit {
      assert more[..cfg.limit] == all[..cfg.limit];
      assert all[..|all|] == all;
    }
  }

  // ---------- The other reader ----------

  /** `readSinglePacket` on a connection that delivers `stream` and then ends. */
  method ReadSinglePacket(stream: bytes) returns (packet: Option<bytes>)
    ensures packet.Some? <==> ParseAll(stream).frames != []
    ensures packet.Some? ==> packet.value == ParseAll(stream).frames[0].raw
  {
    if |stream| < 2 { return None; }
    var size: int := BigEndian(stream[0], stream[1]);
    if size < 5 { return None; }
    if |stream| < size + 2 { return None; }
    return Some(stream[..2] + stream[2..size + 2]);
  }

  // ---------- The writer ----------

  function Word16(n: int): (byte, byte) {
    (n / 256 % 256, n % 256)
  }

  /** `InjectPacketHeader`: each header field keeps the low 16 bits of its value. */
  function WithHeader(id: int, payload: bytes, index: int): bytes {
    var size, i, x := Word16(|payload| + 5), Word16(id), Word16(index);
    [size.0, size.1, 0, i.0, i.1, x.0, x.1] + payload
  }

  lemma Word16Kept(n: int)
    ensures var w := Word16(n); BigEndian(w.0, w.1) == n % 0x1_0000
  {
    var q, low := n / 256, n % 256;
    var p, high := q / 256, q % 256;
    assert n == 256 * q + low && q == 256 * p + high;
    assert n == 0x1_0000 * p + (256 * high + low);
  }

  lemma HeaderFields(id: int, payload: bytes, index: int)
    ensures var b := WithHeader(id, payload, index);
            && |b| == |payload| + HEADER_SIZE && b[HEADER_SIZE..] == payload
            && FrameSize(b) == (|payload| + 5) % 0x1_0000 + 2
            && Frame(b).Id() == id % 0x1_0000 && Frame(b).Index() == index % 0x1_0000
  {
    Word16Kept(|payload| + 5);
    Word16Kept(id);
    Word16Kept(index);
  }

  /** A stream that is one well-formed frame parses to that frame; any other does not. */
  lemma OneFrame(b: bytes)
    ensures ParseAll(b) == Waiting([Frame(b)], []) <==> WellFormed(Frame(b))
  {
    Lossless(b);
    if WellFormed(Frame(b)) {
      assert Bytes([Frame(b)]) == b;
      WrittenFramesComeBack([Frame(b)]);
    }
  }

  /** A packet with a header parses back to itself exactly when its payload has at most 65530 bytes. */
  lemma HeaderRoundTrip(id: int, payload: bytes, index: int)
    ensures var b := WithHeader(id, payload, index);
            ParseAll(b) == Waiting([Frame(b)], []) <==> |payload| <= 65530
    ensures 0 <= id < 0x1_0000 && 0 <= index < 0x1_0000 ==>
              RecordOf(Frame(WithHeader(id, payload, index))) == Record(id, index, payload)
  {
    hide ParseAll, Word16, WithHeader;
    HeaderFields(id, payload, index);
    OneFrame(WithHeader(id, payload, index));
  }

  // ---------- From the writer to the reader ----------

  /** What the writer puts on the wire for each record, one after another. */
  ghost function Wire(records: seq<Record>): bytes {
    if |records| == 0 then []
    else
      var last := records[|records| - 1];
      Wire(records[..|records| - 1]) + WithHeader(last.id, last.payload, last.index)
  }

  /** The first `limit` records with the id asked for, in order; id 0 asks for all, no positive limit for no end. */
  ghost function Wanted(records: seq<Record>, id: int, limit: int): seq<Record> {
    if |records| == 0 then []
    else
      var init, last := Wanted(records[..|records| - 1], id, limit), records[|records| - 1];
      if (id == 0 || last.id == id) && (limit <= 0 || |init| < limit) then init + [last] else init
  }

  ghost predicate Sendable(r: Record) {
    0 <= r.id < 0x1_0000 && 0 <= r.index < 0x1_0000 && |r.payload| <= 65530
  }

  lemma {:induction false} BytesAppend(frames: seq<Frame>, f: Frame)
    ensures Bytes(frames + [f]) == Bytes(frames) + f.raw
    decreases |frames|
  {
    if frames == [] {
      BytesCons(f, []);
      assert [f] + [] == [f] && [] + [f] == [f];
    } else {
      assert (frames + [f])[1..] == frames[1..] + [f];
      BytesAppend(frames[1..], f);
    }
  }

  /** The frames on the wire, and what the reader makes of them. */
  lemma {:induction false} WireFrames(records: seq<Record>, cfg: Config) returns (frames: seq<Frame>)
    requires forall i :: 0 <= i < |records| ==> Sendable(records[i])
    ensures AllWellFormed(frames) && Bytes(frames) == Wire(records)
    ensures Emitted(cfg, frames) == Wanted(records, cfg.packetId, cfg.limit)
    decreases |records|
  {
    hide Emitted, WithHeader;
    frames := [];
    if |records| == 0 {
      NothingEmitted(cfg);
    } else {
      var n := |records| - 1;
      frames := WireFrames(records[..n], cfg);
      var r := records[n];
      var f := Frame(WithHeader(r.id, r.payload, r.index));
      HeaderRoundTrip(r.id, r.payload, r.index);
      OneFrame(f.raw);
      BytesAppend(frames, f);
      EmitNext(cfg, frames, f);
      frames := frames + [f];
    }
  }

  lemma NothingEmitted(cfg: Config)
    ensures Emitted(cfg, []) == []
  {
  }

  /**
   Records sent with headers, read in any pieces: the reader is left with nothing, and
   emits exactly the records asked for, unchanged and in order.
   */
  lemma SentIsReceived(records: seq<Record>, chunks: seq<bytes>, cfg: Config)
    requires forall i :: 0 <= i < |records| ==> Sendable(records[i])
    requires Concat(chunks) == Wire(records)
    ensures var p := ParseChunks(chunks);
            && p.Waiting? && p.rest == [] && AllWellFormed(p.frames)
            && Emitted(cfg, p.frames) == Wanted(records, cfg.packetId, cfg.limit)
  {
    hide Emitted;
    var frames := WireFrames(records, cfg);
    ChunksIrrelevant(chunks);
    WrittenFramesComeBack(frames);
  }
}
