/** Types of messages passed through websockets and their wire codes. */
module MessageTypes {
  import opened Wrappers
  import opened ByteStrings

  datatype MessageType =
    | Handshake
    | Synchronize
    | FeedInit
    | InsertThread
    | InsertThreadAck
    | InsertPost
    | InsertPostAck
    | InsertImage
    | Captcha
    | NeedCaptcha
    | PatchPostBody
    | Append
    | Backspace

  function Code(t: MessageType): byte {
    match t
    case Handshake => 0
    case Synchronize => 1
    case FeedInit => 2
    case InsertThread => 3
    case InsertThreadAck => 4
    case InsertPost => 5
    case InsertPostAck => 6
    case InsertImage => 7
    case Captcha => 8
    case NeedCaptcha => 9
    case PatchPostBody => 10
    case Append => 11
    case Backspace => 12
  }

  function FromCode(b: byte): (r: Option<MessageType>)
    ensures forall t :: r == Some(t) <==> Code(t) == b
  {
    if b == 0 then Some(Handshake)
    else if b == 1 then Some(Synchronize)
    else if b == 2 then Some(FeedInit)
    else if b == 3 then Some(InsertThread)
    else if b == 4 then Some(InsertThreadAck)
    else if b == 5 then Some(InsertPost)
    else if b == 6 then Some(InsertPostAck)
    else if b == 7 then Some(InsertImage)
    else if b == 8 then Some(Captcha)
    else if b == 9 then Some(NeedCaptcha)
    else if b == 10 then Some(PatchPostBody)
    else if b == 11 then Some(Append)
    else if b == 12 then Some(Backspace)
    else None
  }
}

/** Framing, escaping, batching and splitting of message streams.

    DEFLATE is not modelled: a `Deflate` value is any pair of functions, and the
    results state which of its properties they need. */
module Codec {
  import opened Wrappers
  import opened ByteStrings
  import opened MessageTypes

  // Byte marking the start of a message
  const HEADER: byte := 174

  // Byte following a HEADER that belongs to a payload
  const ESCAPE: byte := 255

  datatype ErrorKind = UnexpectedEof | InvalidData | CorruptDeflate

  datatype Message = Message(typ: MessageType, payload: Bytes)

  /** A compressor and a decompressor that delivers its output in chunks. */
  datatype Deflate = Deflate(compress: Bytes -> Bytes, inflate: Bytes -> Option<seq<Bytes>>)

  /** Decompressing a compressed stream delivers that stream, in some chunks. */
  ghost predicate Inverse(z: Deflate) {
    forall s: Bytes {:trigger z.compress(s)} ::
      z.inflate(z.compress(s)).Some? && Flatten(z.inflate(z.compress(s)).value) == s
  }

  /** Message batches: one encoder's stream, or already encoded batches joined. */
  datatype Batch<M> = Leaf(msgs: seq<M>) | Joined(parts: seq<Batch<M>>)

  /** The messages of a batch, in order. */
  function Content<M>(b: Batch<M>): seq<M>
    decreases b, 1
  {
    match b
    case Leaf(msgs) => msgs
    case Joined(parts) => Contents(parts)
  }

  function Contents<M>(parts: seq<Batch<M>>): seq<M>
    decreases parts, 0
  {
    if parts == [] then [] else Content(parts[0]) + Contents(parts[1..])
  }

  /** The same batches with every message translated. */
  function MapBatch<M, N>(f: M -> N, b: Batch<M>): Batch<N>
    decreases b, 1
  {
    match b
    case Leaf(msgs) => Leaf(MapSeq(f, msgs))
    case Joined(parts) => Joined(MapParts(f, parts))
  }

  function MapParts<M, N>(f: M -> N, parts: seq<Batch<M>>): seq<Batch<N>>
    decreases parts, 0
  {
    if parts == [] then [] else [MapBatch(f, parts[0])] + MapParts(f, parts[1..])
  }

  function MapSeq<M, N>(f: M -> N, s: seq<M>): (r: seq<N>)
    ensures |r| == |s|
  {
    seq(|s|, i requires 0 <= i < |s| => f(s[i]))
  }

  lemma {:induction false} MapContent<M, N>(f: M -> N, b: Batch<M>)
    ensures Content(MapBatch(f, b)) == MapSeq(f, Content(b))
    decreases b, 1
  {
    if b.Joined? {
      MapContents(f, b.parts);
    }
  }

  lemma {:induction false} MapContents<M, N>(f: M -> N, parts: seq<Batch<M>>)
    ensures Contents(MapParts(f, parts)) == MapSeq(f, Contents(parts))
    decreases parts, 0
  {
    if parts == [] {
    } else {
      MapContent(f, parts[0]);
      MapContents(f, parts[1..]);
      assert MapParts(f, parts)[1..] == MapParts(f, parts[1..]);
      assert MapSeq(f, Content(parts[0]) + Contents(parts[1..])) ==
        MapSeq(f, Content(parts[0])) + MapSeq(f, Contents(parts[1..]));
    }
  }

  // ---------------------------------------------------------------- escaping

  function Escape(s: Bytes): Bytes {
    if s == [] then [] else EscapeByte(s[0]) + Escape(s[1..])
  }

  function EscapeByte(b: byte): Bytes {
    if b == HEADER then [HEADER, ESCAPE] else [b]
  }

  /** Escaping a payload in any two pieces gives the same bytes as escaping it
      whole. */
  lemma {:induction false} EscapePieces(a: Bytes, b: Bytes)
    ensures Escape(a + b) == Escape(a) + Escape(b)
  {
    if a == [] {
      assert a + b == b;
    } else {
      EscapePieces(a[1..], b);
      assert (a + b)[1..] == a[1..] + b;
      Assoc(EscapeByte(a[0]), Escape(a[1..]), Escape(b));
    }
  }

  lemma {:induction false} EscapePlain(a: Bytes)
    requires HEADER !in a
    ensures Escape(a) == a
  {
    if a == [] {
    } else {
      EscapePlain(a[1..]);
    }
  }

  lemma EscapeAtHeader(w: Bytes, buf: Bytes, i: nat)
    requires i < |buf| && buf[i] == HEADER && HEADER !in buf[..i]
    ensures w + buf[..i] + [HEADER, ESCAPE] + Escape(buf[i + 1..]) == w + Escape(buf)
  {
    EscapePlain(buf[..i]);
    EscapePieces(buf[..i], buf[i..]);
    assert buf == buf[..i] + buf[i..];
    assert buf[i..][1..] == buf[i + 1..];
    var tail := Escape(buf[i + 1..]);
    Assoc(w, buf[..i], [HEADER, ESCAPE]);
    Assoc(w, buf[..i] + [HEADER, ESCAPE], tail);
    Assoc(buf[..i], [HEADER, ESCAPE], tail);
  }

  /** Index of the first HEADER byte, if any. */
  method Position(buf: Bytes) returns (r: Option<nat>)
    ensures r.None? ==> HEADER !in buf
    ensures r.Some? ==> r.value < |buf| && buf[r.value] == HEADER && HEADER !in buf[..r.value]
  {
    var i := 0;
    while i < |buf|
      invariant 0 <= i <= |buf|
      invariant HEADER !in buf[..i]
    {
      if buf[i] == HEADER {
        return Some(i);
      }
      i := i + 1;
    }
    return None;
  }

  class Escaper {
    var w: Bytes

    constructor (w: Bytes)
      ensures this.w == w
    {
      this.w := w;
    }

    method Write(src: Bytes)
      modifies this
      ensures w == old(w) + Escape(src)
    {
      var buf := src;
      while |buf| > 0
        invariant w + Escape(buf) == old(w) + Escape(src)
      {
        var p := Position(buf);
        match p {
          case Some(i) =>
            EscapeAtHeader(w, buf, i);
            w := w + buf[..i];
            w := w + [HEADER, ESCAPE];
            buf := buf[i + 1..];
          case None =>
            EscapePlain(buf);
            w := w + buf;
            return;
        }
      }
    }
  }

  // --------------------------------------------------------------- splitting

  /** What a message splitter has accumulated. */
  datatype Split = Split(buf: Bytes, starts: seq<nat>, types: seq<MessageType>)

  const EMPTY: Split := Split([], [], [])

  /** As many starts as types, starts non-decreasing and within the buffer. */
  predicate WellFormed(s: Split) {
    && |s.starts| == |s.types|
    && (forall i :: 0 <= i < |s.starts| ==> s.starts[i] <= |s.buf|)
    && (forall i, j :: 0 <= i < j < |s.starts| ==> s.starts[i] <= s.starts[j])
  }

  function EndOf(s: Split, i: nat): nat {
    if i + 1 < |s.starts| then s.starts[i + 1] else |s.buf|
  }

  /** The messages a reader of `s` gets. */
  function Messages(s: Split): (r: seq<Message>)
    requires WellFormed(s)
  {
    seq(|s.starts|, i requires 0 <= i < |s.starts| => Message(s.types[i], s.buf[s.starts[i]..EndOf(s, i)]))
  }

  /** One `write` call of the splitter, byte by byte. */
  function Feed(s: Split, c: Bytes): Result<Split, ErrorKind>
    decreases |c|
  {
    if c == [] then Ok(s)
    else if c[0] != HEADER then Feed(s.(buf := s.buf + [c[0]]), c[1..])
    else if |c| == 1 then Err(InvalidData)
    else if c[1] == ESCAPE then Feed(s.(buf := s.buf + [HEADER]), c[2..])
    else match FromCode(c[1])
      case Some(t) => Feed(Split(s.buf, s.starts + [|s.buf|], s.types + [t]), c[2..])
      case None => Err(InvalidData)
  }

  /** Successive `write` calls. */
  function FeedChunks(s: Split, chunks: seq<Bytes>): Result<Split, ErrorKind>
    decreases |chunks|
  {
    if chunks == [] then Ok(s)
    else
      var s' :- Feed(s, chunks[0]);
      FeedChunks(s', chunks[1..])
  }

  predicate EndsInHeader(c: Bytes) {
    c != [] && c[|c| - 1] == HEADER
  }

  lemma {:induction false} FeedPlain(s: Split, a: Bytes, rest: Bytes)
    requires HEADER !in a
    ensures Feed(s, a + rest) == Feed(s.(buf := s.buf + a), rest)
    decreases |a|
  {
    if a == [] {
      assert a + rest == rest;
      assert s.buf + a == s.buf;
    } else {
      assert (a + rest)[1..] == a[1..] + rest;
      FeedPlain(s.(buf := s.buf + [a[0]]), a[1..], rest);
      assert s.buf + [a[0]] + a[1..] == s.buf + a;
    }
  }

  lemma {:induction false} FeedKeepsWellFormed(s: Split, c: Bytes)
    requires WellFormed(s)
    ensures Feed(s, c).Ok? ==> WellFormed(Feed(s, c).value)
    decreases |c|
  {
    if c == [] {
    } else if c[0] != HEADER {
      FeedKeepsWellFormed(s.(buf := s.buf + [c[0]]), c[1..]);
    } else if |c| == 1 {
    } else if c[1] == ESCAPE {
      FeedKeepsWellFormed(s.(buf := s.buf + [HEADER]), c[2..]);
    } else if FromCode(c[1]).Some? {
      FeedKeepsWellFormed(Split(s.buf, s.starts + [|s.buf|], s.types + [FromCode(c[1]).value]), c[2..]);
    }
  }

  lemma {:induction false} FeedEndingInHeaderFails(s: Split, c: Bytes)
    requires EndsInHeader(c)
    ensures Feed(s, c).Err?
    decreases |c|
  {
    if c[0] != HEADER {
      FeedEndingInHeaderFails(s.(buf := s.buf + [c[0]]), c[1..]);
    } else if |c| == 1 {
    } else if c[1] == ESCAPE {
      FeedEndingInHeaderFails(s.(buf := s.buf + [HEADER]), c[2..]);
    } else if |c| == 2 {
    } else if FromCode(c[1]).Some? {
      FeedEndingInHeaderFails(Split(s.buf, s.starts + [|s.buf|], s.types + [FromCode(c[1]).value]), c[2..]);
    }
  }

  lemma {:induction false} FeedInTwo(s: Split, a: Bytes, b: Bytes)
    requires !EndsInHeader(a)
    ensures Feed(s, a + b) == (if Feed(s, a).Ok? then Feed(Feed(s, a).value, b) else Feed(s, a))
    decreases |a|
  {
    if a == [] {
      assert a + b == b;
    } else if a[0] != HEADER {
      assert (a + b)[1..] == a[1..] + b;
      FeedInTwo(s.(buf := s.buf + [a[0]]), a[1..], b);
    } else {
      assert (a + b)[2..] == a[2..] + b;
      if a[1] == ESCAPE {
        FeedInTwo(s.(buf := s.buf + [HEADER]), a[2..], b);
      } else if FromCode(a[1]).Some? {
        FeedInTwo(Split(s.buf, s.starts + [|s.buf|], s.types + [FromCode(a[1]).value]), a[2..], b);
      }
    }
  }

  /** Feeding the same bytes in chunks has the same outcome as one write exactly
      when no chunk ends in HEADER or the bytes are rejected anyway. */
  lemma {:induction false} ChunksAgree(s: Split, chunks: seq<Bytes>)
    ensures FeedChunks(s, chunks).Ok? <==>
              Feed(s, Flatten(chunks)).Ok? && forall c :: c in chunks ==> !EndsInHeader(c)
    ensures FeedChunks(s, chunks).Ok? ==> FeedChunks(s, chunks) == Feed(s, Flatten(chunks))
    decreases |chunks|
  {
    if chunks == [] {
    } else {
      var c, rest := chunks[0], chunks[1..];
      assert chunks == [c] + rest;
      if EndsInHeader(c) {
        FeedEndingInHeaderFails(s, c);
      } else {
        FeedInTwo(s, c, Flatten(rest));
        if Feed(s, c).Ok? {
          ChunksAgree(Feed(s, c).value, rest);
        }
      }
    }
  }

  lemma {:induction false} FeedChunksKeepsWellFormed(s: Split, chunks: seq<Bytes>)
    requires WellFormed(s)
    ensures FeedChunks(s, chunks).Ok? ==> WellFormed(FeedChunks(s, chunks).value)
    decreases |chunks|
  {
    if chunks == [] {
    } else {
      FeedKeepsWellFormed(s, chunks[0]);
      if Feed(s, chunks[0]).Ok? {
        FeedChunksKeepsWellFormed(Feed(s, chunks[0]).value, chunks[1..]);
      }
    }
  }

  class MessageSplitter {
    var buf: Bytes
    var starts: seq<nat>
    var types: seq<MessageType>

    constructor ()
      ensures State() == EMPTY
    {
      buf, starts, types := [], [], [];
    }

    ghost function State(): Split
      reads this
    {
      Split(buf, starts, types)
    }

    method Write(src: Bytes) returns (ok: bool)
      modifies this
      ensures ok <==> Feed(old(State()), src).Ok?
      ensures ok ==> Ok(State()) == Feed(old(State()), src)
    {
      var c := src;
      while |c| > 0
        invariant Feed(State(), c) == Feed(old(State()), src)
      {
        var p := Position(c);
        match p {
          case Some(i) =>
            FeedPlain(State(), c[..i], c[i..]);
            assert c == c[..i] + c[i..];
            if i == |c| - 1 {
              return false;
            }
            assert c[i..][2..] == c[i + 2..];
            var next := c[i + 1];
            if next != ESCAPE {
              match FromCode(next) {
                case Some(t) =>
                  starts := starts + [|buf| + i];
                  types := types + [t];
                  buf := buf + c[..i];
                case None =>
                  return false;
              }
            } else {
              assert c[..i + 1] == c[..i] + [HEADER];
              assert buf + c[..i + 1] == buf + c[..i] + [HEADER];
              buf := buf + c[..i + 1];
            }
            c := c[i + 2..];
          case None =>
            FeedPlain(State(), c, []);
            assert c + [] == c;
            buf := buf + c;
            return true;
        }
      }
      return true;
    }
  }

  // ---------------------------------------------------------------- encoding

  /** The plain stream one encoder builds. */
  function Stream(msgs: seq<Message>): Bytes {
    if msgs == [] then []
    else [HEADER, Code(msgs[0].typ)] + Escape(msgs[0].payload) + Stream(msgs[1..])
  }

  lemma {:induction false} StreamConcat(a: seq<Message>, b: seq<Message>)
    ensures Stream(a + b) == Stream(a) + Stream(b)
  {
    if a == [] {
      assert a + b == b;
    } else {
      StreamConcat(a[1..], b);
      assert (a + b)[1..] == a[1..] + b;
      Assoc([HEADER, Code(a[0].typ)] + Escape(a[0].payload), Stream(a[1..]), Stream(b));
    }
  }

  /** `len as i32` in little-endian bytes: lengths are taken modulo 2^32. */
  function LengthBytes(n: nat): (r: Bytes)
    ensures |r| == 4
  {
    [n % 256, n / 256 % 256, n / 65536 % 256, n / 16777216 % 256]
  }

  /** `i32::from_le_bytes(..) as usize` on a 64-bit machine. */
  function ReadLength(b: Bytes): nat
    requires |b| == 4
  {
    var u: int := b[0] as int + 256 * (b[1] as int) + 65536 * (b[2] as int) + 16777216 * (b[3] as int);
    if u < 0x8000_0000 then u else u - 0x1_0000_0000 + 0x1_0000_0000_0000_0000
  }

  lemma LengthRoundTrip(n: nat)
    requires n < 0x1_0000_0000
    ensures n < 0x8000_0000 ==> ReadLength(LengthBytes(n)) == n
    ensures n >= 0x8000_0000 ==> ReadLength(LengthBytes(n)) >= 0xFFFF_FFFF_8000_0000
  {
    var q1, q2, q3 := n / 256, n / 65536, n / 16777216;
    assert q2 == q1 / 256 && q3 == q2 / 256;
    assert n == n % 256 + 256 * (q1 % 256) + 65536 * (q2 % 256) + 16777216 * q3;
  }

  function Encode(z: Deflate, b: Batch<Message>): (r: Bytes)
    ensures r != []
    decreases b, 1
  {
    match b
    case Leaf(msgs) => [0] + z.compress(Stream(msgs))
    case Joined(parts) => [1] + Frames(z, parts)
  }

  function Frames(z: Deflate, parts: seq<Batch<Message>>): Bytes
    decreases parts, 0
  {
    if parts == [] then []
    else
      var e := Encode(z, parts[0]);
      LengthBytes(|e|) + e + Frames(z, parts[1..])
  }

  function EncodeAll(z: Deflate, parts: seq<Batch<Message>>): (r: seq<Bytes>)
    ensures |r| == |parts|
  {
    seq(|parts|, i requires 0 <= i < |parts| => Encode(z, parts[i]))
  }

  class Encoder {
    const z: Deflate
    var plain: Bytes

    constructor (z: Deflate)
      ensures this.z == z && plain == Stream([])
    {
      this.z := z;
      plain := [];
    }

    method WriteMessage(m: Message, ghost written: seq<Message>)
      requires plain == Stream(written)
      modifies this
      ensures plain == Stream(written + [m])
    {
      var esc := new Escaper(plain + [HEADER, Code(m.typ)]);
      esc.Write(m.payload);
      StreamConcat(written, [m]);
      assert [m][1..] == [];
      plain := esc.w;
    }

    method Finish(ghost written: seq<Message>) returns (r: Bytes)
      requires plain == Stream(written)
      ensures r == Encode(z, Leaf(written))
    {
      r := [0] + z.compress(plain);
    }
  }

  /** Frames already encoded batches one after the other. */
  method Join(z: Deflate, encoded: seq<Bytes>, ghost parts: seq<Batch<Message>>) returns (w: Bytes)
    requires encoded == EncodeAll(z, parts)
    ensures w == Encode(z, Joined(parts))
  {
    w := [1];
    var i := 0;
    while i < |encoded|
      invariant 0 <= i <= |encoded|
      invariant w + Frames(z, parts[i..]) == [1] + Frames(z, parts)
    {
      var s := encoded[i];
      assert parts[i..][0] == parts[i] && parts[i..][1..] == parts[i + 1..];
      w := w + LengthBytes(|s|);
      w := w + s;
      i := i + 1;
    }
  }

  // ---------------------------------------------------------------- decoding

  /** Decodes a buffer into an existing splitter. */
  function Fill(z: Deflate, s: Split, r: Bytes): Result<Split, ErrorKind>
    decreases |r|, 1
  {
    if r == [] then Err(UnexpectedEof)
    else if r[0] == 0 then
      match z.inflate(r[1..])
      case Some(chunks) => FeedChunks(s, chunks)
      case None => Err(CorruptDeflate)
    else if r[0] == 1 then FillFrames(z, s, r[1..])
    else Err(InvalidData)
  }

  function FillFrames(z: Deflate, s: Split, r: Bytes): Result<Split, ErrorKind>
    decreases |r|, 0
  {
    if r == [] then Ok(s)
    else if |r| < 4 then Err(InvalidData)
    else
      var len := ReadLength(r[..4]);
      if |r| - 4 < len then Err(InvalidData)
      else
        var s' :- Fill(z, s, r[4..4 + len]);
        FillFrames(z, s', r[4 + len..])
  }

  /** Decoder construction: the messages in a received buffer. */
  function Decode(z: Deflate, r: Bytes): Result<Split, ErrorKind> {
    Fill(z, EMPTY, r)
  }

  /** Every accepted buffer leaves a well-formed splitter, whatever its bytes. */
  lemma {:induction false} FillKeepsWellFormed(z: Deflate, s: Split, r: Bytes)
    requires WellFormed(s)
    ensures Fill(z, s, r).Ok? ==> WellFormed(Fill(z, s, r).value)
    decreases |r|, 1
  {
    if r == [] {
    } else if r[0] == 0 {
      if z.inflate(r[1..]).Some? {
        FeedChunksKeepsWellFormed(s, z.inflate(r[1..]).value);
      }
    } else if r[0] == 1 {
      FillFramesKeepsWellFormed(z, s, r[1..]);
    }
  }

  lemma {:induction false} FillFramesKeepsWellFormed(z: Deflate, s: Split, r: Bytes)
    requires WellFormed(s)
    ensures FillFrames(z, s, r).Ok? ==> WellFormed(FillFrames(z, s, r).value)
    decreases |r|, 0
  {
    if |r| >= 4 {
      var len := ReadLength(r[..4]);
      if len <= |r| - 4 {
        FillKeepsWellFormed(z, s, r[4..4 + len]);
        if Fill(z, s, r[4..4 + len]).Ok? {
          FillFramesKeepsWellFormed(z, Fill(z, s, r[4..4 + len]).value, r[4 + len..]);
        }
      }
    }
  }

  /** The splitter state after receiving `msgs` on top of `s`. */
  function Received(s: Split, msgs: seq<Message>): Split
    decreases |msgs|
  {
    if msgs == [] then s
    else Received(Split(s.buf + msgs[0].payload, s.starts + [|s.buf|], s.types + [msgs[0].typ]), msgs[1..])
  }

  lemma {:induction false} ReceivedConcat(s: Split, a: seq<Message>, b: seq<Message>)
    ensures Received(s, a + b) == Received(Received(s, a), b)
    decreases |a|
  {
    if a == [] {
      assert a + b == b;
    } else {
      assert (a + b)[1..] == a[1..] + b;
      ReceivedConcat(Split(s.buf + a[0].payload, s.starts + [|s.buf|], s.types + [a[0].typ]), a[1..], b);
    }
  }

  /** Receiving messages appends exactly them to what the reader gets. */
  lemma {:induction false} ReceivedMessages(s: Split, msgs: seq<Message>)
    requires WellFormed(s)
    ensures WellFormed(Received(s, msgs))
    ensures Messages(Received(s, msgs)) == Messages(s) + msgs
    decreases |msgs|
  {
    if msgs == [] {
      assert Messages(s) + msgs == Messages(s);
    } else {
      var m := msgs[0];
      var s' := Split(s.buf + m.payload, s.starts + [|s.buf|], s.types + [m.typ]);
      ReceivedOne(s, m);
      ReceivedMessages(s', msgs[1..]);
      assert Messages(s) + [m] + msgs[1..] == Messages(s) + msgs;
    }
  }

  lemma ReceivedOne(s: Split, m: Message)
    requires WellFormed(s)
    ensures var s' := Split(s.buf + m.payload, s.starts + [|s.buf|], s.types + [m.typ]);
            WellFormed(s') && Messages(s') == Messages(s) + [m]
  {
    var s' := Split(s.buf + m.payload, s.starts + [|s.buf|], s.types + [m.typ]);
    var n := |s.starts|;
    assert s'.buf[|s.buf|..] == m.payload;
    forall i | 0 <= i < n
      ensures Messages(s')[i] == Messages(s)[i]
    {
      assert EndOf(s', i) == EndOf(s, i);
      SliceOfPrefix(s.buf, m.payload, s.starts[i], EndOf(s, i));
    }
    OneMore(Messages(s'), Messages(s), m);
  }

  lemma SliceOfPrefix(a: Bytes, b: Bytes, i: nat, j: nat)
    requires i <= j <= |a|
    ensures (a + b)[i..j] == a[i..j]
  {
  }

  lemma OneMore(all: seq<Message>, prev: seq<Message>, m: Message)
    requires |all| == |prev| + 1 && all[|prev|] == m && forall i :: 0 <= i < |prev| ==> all[i] == prev[i]
    ensures all == prev + [m]
  {
  }

  lemma {:induction false} FeedEscaped(s: Split, payload: Bytes, rest: Bytes)
    ensures Feed(s, Escape(payload) + rest) == Feed(s.(buf := s.buf + payload), rest)
    decreases |payload|
  {
    if payload == [] {
      assert Escape(payload) + rest == rest;
      assert s.buf + payload == s.buf;
    } else {
      var s1 := s.(buf := s.buf + [payload[0]]);
      var tail := Escape(payload[1..]) + rest;
      Assoc(EscapeByte(payload[0]), Escape(payload[1..]), rest);
      FeedEscapedByte(s, payload[0], tail);
      FeedEscaped(s1, payload[1..], rest);
      assert payload == [payload[0]] + payload[1..];
      Assoc(s.buf, [payload[0]], payload[1..]);
    }
  }

  lemma FeedEscapedByte(s: Split, b: byte, tail: Bytes)
    ensures Feed(s, EscapeByte(b) + tail) == Feed(s.(buf := s.buf + [b]), tail)
  {
    if b == HEADER {
      assert ([HEADER, ESCAPE] + tail)[2..] == tail;
    } else {
      assert ([b] + tail)[1..] == tail;
    }
  }

  /** Splitting an encoder's stream in one write receives its messages. */
  lemma {:induction false} FeedStream(s: Split, msgs: seq<Message>)
    ensures Feed(s, Stream(msgs)) == Ok(Received(s, msgs))
    decreases |msgs|
  {
    if msgs == [] {
    } else {
      var m := msgs[0];
      var tail := Escape(m.payload) + Stream(msgs[1..]);
      var s1 := Split(s.buf, s.starts + [|s.buf|], s.types + [m.typ]);
      assert Stream(msgs) == [HEADER, Code(m.typ)] + tail;
      assert Stream(msgs)[2..] == tail;
      assert FromCode(Code(m.typ)) == Some(m.typ);
      assert Feed(s, Stream(msgs)) == Feed(s1, tail);
      FeedEscaped(s1, m.payload, Stream(msgs[1..]));
      FeedStream(s1.(buf := s1.buf + m.payload), msgs[1..]);
    }
  }

  // -------------------------------------------------------------- round trip

  /** Every joined part is shorter than 2^31 bytes, at any depth. */
  predicate PartsFit(z: Deflate, b: Batch<Message>)
    decreases b, 1
  {
    b.Joined? ==> AllFit(z, b.parts)
  }

  predicate AllFit(z: Deflate, parts: seq<Batch<Message>>)
    decreases parts, 0
  {
    parts != [] ==>
      && |Encode(z, parts[0])| < 0x8000_0000
      && PartsFit(z, parts[0])
      && AllFit(z, parts[1..])
  }

  /** Every joined part is shorter than 2^32 bytes, at any depth, so that its
      length prefix does not wrap around. */
  predicate PartsUnwrapped(z: Deflate, b: Batch<Message>)
    decreases b, 1
  {
    b.Joined? ==> AllUnwrapped(z, b.parts)
  }

  predicate AllUnwrapped(z: Deflate, parts: seq<Batch<Message>>)
    decreases parts, 0
  {
    parts != [] ==>
      && |Encode(z, parts[0])| < 0x1_0000_0000
      && PartsUnwrapped(z, parts[0])
      && AllUnwrapped(z, parts[1..])
  }

  /** The longest slice of bytes there is, `isize::MAX`. */
  const MAX_SLICE: nat := 0x7FFF_FFFF_FFFF_FFFF

  /** What can be sent: parts fit, or at least their lengths do not wrap around
      and the whole is a slice. */
  predicate Sendable(z: Deflate, b: Batch<Message>) {
    PartsFit(z, b) || (PartsUnwrapped(z, b) && |Encode(z, b)| <= MAX_SLICE)
  }

  predicate AllSendable(z: Deflate, parts: seq<Batch<Message>>) {
    AllFit(z, parts) || (AllUnwrapped(z, parts) && |Frames(z, parts)| <= MAX_SLICE)
  }

  /** No chunk the decompressor delivers for any leaf ends in HEADER. */
  predicate ChunkSafe(z: Deflate, b: Batch<Message>)
    decreases b, 1
  {
    match b
    case Leaf(msgs) =>
      var chunks := z.inflate(z.compress(Stream(msgs)));
      chunks.Some? ==> forall c :: c in chunks.value ==> !EndsInHeader(c)
    case Joined(parts) => AllChunkSafe(z, parts)
  }

  predicate AllChunkSafe(z: Deflate, parts: seq<Batch<Message>>)
    decreases parts, 0
  {
    parts != [] ==> ChunkSafe(z, parts[0]) && AllChunkSafe(z, parts[1..])
  }

  lemma {:induction false} FillEncoded(z: Deflate, s: Split, b: Batch<Message>)
    requires Inverse(z) && Sendable(z, b)
    ensures Fill(z, s, Encode(z, b)).Ok? <==> PartsFit(z, b) && ChunkSafe(z, b)
    ensures PartsFit(z, b) && ChunkSafe(z, b) ==> Fill(z, s, Encode(z, b)) == Ok(Received(s, Content(b)))
    decreases b, 1
  {
    match b
    case Leaf(msgs) =>
      assert Encode(z, b)[1..] == z.compress(Stream(msgs));
      ChunksAgree(s, z.inflate(z.compress(Stream(msgs))).value);
      FeedStream(s, msgs);
    case Joined(parts) =>
      assert Encode(z, b)[1..] == Frames(z, parts);
      FillEncodedFrames(z, s, parts);
  }

  lemma {:induction false} FillEncodedFrames(z: Deflate, s: Split, parts: seq<Batch<Message>>)
    requires Inverse(z) && AllSendable(z, parts)
    ensures FillFrames(z, s, Frames(z, parts)).Ok? <==> AllFit(z, parts) && AllChunkSafe(z, parts)
    ensures AllFit(z, parts) && AllChunkSafe(z, parts) ==>
            FillFrames(z, s, Frames(z, parts)) == Ok(Received(s, Contents(parts)))
    decreases parts, 0
  {
    if parts == [] {
    } else if |Encode(z, parts[0])| >= 0x8000_0000 {
      OversizedFrame(z, s, parts);
    } else {
      var e, rest := Encode(z, parts[0]), Frames(z, parts[1..]);
      FrameHead(e, rest);
      LengthRoundTrip(|e|);
      FillEncoded(z, s, parts[0]);
      if PartsFit(z, parts[0]) && ChunkSafe(z, parts[0]) {
        var s' := Received(s, Content(parts[0]));
        FillEncodedFrames(z, s', parts[1..]);
        ReceivedConcat(s, Content(parts[0]), Contents(parts[1..]));
      }
    }
  }

  /** A part of 2^31 bytes or more is read as longer than any slice. */
  lemma OversizedFrame(z: Deflate, s: Split, parts: seq<Batch<Message>>)
    requires parts != [] && 0x8000_0000 <= |Encode(z, parts[0])| < 0x1_0000_0000 && |Frames(z, parts)| <= MAX_SLICE
    ensures FillFrames(z, s, Frames(z, parts)) == Err(InvalidData)
  {
    var e := Encode(z, parts[0]);
    FrameHead(e, Frames(z, parts[1..]));
    LengthRoundTrip(|e|);
  }

  lemma FrameHead(e: Bytes, rest: Bytes)
    ensures var r := LengthBytes(|e|) + e + rest;
            r[..4] == LengthBytes(|e|) && r[4..4 + |e|] == e && r[4 + |e|..] == rest
  {
  }

  /** The wire round trip. Any tree of encoder batches joined to any depth is
      decoded to exactly its messages, in order, if and only if every part is
      shorter than 2^31 bytes and no chunk that decompression delivers ends in
      HEADER. */
  lemma RoundTrip(z: Deflate, b: Batch<Message>)
    requires Inverse(z) && Sendable(z, b)
    ensures Decode(z, Encode(z, b)).Ok? <==> PartsFit(z, b) && ChunkSafe(z, b)
    ensures PartsFit(z, b) && ChunkSafe(z, b) ==>
              && WellFormed(Decode(z, Encode(z, b)).value)
              && Messages(Decode(z, Encode(z, b)).value) == Content(b)
  {
    FillEncoded(z, EMPTY, b);
    ReceivedMessages(EMPTY, Content(b));
    assert Messages(EMPTY) + Content(b) == Content(b);
  }

  /** Chunking matters: a stream one write accepts is rejected when a chunk
      border falls between a HEADER and its ESCAPE. */
  lemma ChunkBorderRejected()
    ensures Feed(EMPTY, Stream([Message(Handshake, [HEADER])])).Ok?
    ensures FeedChunks(EMPTY, [[HEADER, 0, HEADER], [ESCAPE]]).Err?
    ensures Flatten([[HEADER, 0, HEADER], [ESCAPE]]) == Stream([Message(Handshake, [HEADER])])
  {
    FeedStream(EMPTY, [Message(Handshake, [HEADER])]);
    var chunks: seq<Bytes> := [[HEADER, 0, HEADER], [ESCAPE]];
    assert EndsInHeader(chunks[0]);
    ChunksAgree(EMPTY, chunks);
    assert chunks[1..] == [[ESCAPE]] && chunks[1..][1..] == [];
    var p: Bytes := [HEADER];
    assert Escape(p) == [HEADER, ESCAPE] by { assert p[1..] == []; }
    assert [Message(Handshake, p)][1..] == [];
    assert Flatten(chunks[1..]) == [ESCAPE] + Flatten(chunks[1..][1..]);
    assert Stream([Message(Handshake, p)]) == [HEADER, 0, HEADER, ESCAPE];
  }

  /** A joined part of 2^31 up to 2^32 bytes, wherever it is in a tree of batches,
      makes the whole undecodable. */
  lemma OversizedPartRejected(z: Deflate, b: Batch<Message>)
    requires Inverse(z) && PartsUnwrapped(z, b) && |Encode(z, b)| <= MAX_SLICE && !PartsFit(z, b)
    ensures Decode(z, Encode(z, b)).Err?
  {
    FillEncoded(z, EMPTY, b);
  }

  // ----------------------------------------------------------------- reading

  class Decoder {
    const split: Split
    var off: nat

    constructor (split: Split)
      requires WellFormed(split)
      ensures Valid() && this.split == split && off == 0
    {
      this.split := split;
      off := 0;
    }

    ghost predicate Valid() {
      WellFormed(split)
    }

    /** The messages not read yet. */
    ghost function Rest(): seq<Message>
      reads this
      requires Valid()
    {
      if off <= |Messages(split)| then Messages(split)[off..] else []
    }

    method PeekType() returns (t: Option<MessageType>)
      requires Valid()
      ensures t == if Rest() == [] then None else Some(Rest()[0].typ)
    {
      t := if off < |split.types| then Some(split.types[off]) else None;
    }

    method SkipNext()
      requires Valid()
      modifies this
      ensures Rest() == if old(Rest()) == [] then [] else old(Rest())[1..]
    {
      off := off + 1;
    }

    /** The next payload; `None` is the source's `NotFound`. */
    method ReadNext() returns (payload: Option<Bytes>)
      requires Valid()
      modifies this
      ensures old(Rest()) == [] ==> payload.None? && Rest() == []
      ensures old(Rest()) != [] ==> payload == Some(old(Rest())[0].payload) && Rest() == old(Rest())[1..]
    {
      if off >= |split.starts| {
        return None;
      }
      var to := if off + 1 < |split.starts| then split.starts[off + 1] else |split.buf|;
      payload := Some(split.buf[split.starts[off]..to]);
      off := off + 1;
    }
  }

  /** `fill_splitter` in its own form: recursion into frames, each refilling the
      one splitter. */
  method FillSplitter(z: Deflate, dst: MessageSplitter, src: Bytes) returns (ok: bool)
    modifies dst
    ensures ok <==> Fill(z, old(dst.State()), src).Ok?
    ensures ok ==> Ok(dst.State()) == Fill(z, old(dst.State()), src)
    decreases |src|
  {
    if |src| == 0 {
      return false;
    }
    if src[0] == 0 {
      var inflated := z.inflate(src[1..]);
      if inflated.None? {
        return false;
      }
      var chunks := inflated.value;
      while |chunks| > 0
        invariant FeedChunks(dst.State(), chunks) == Fill(z, old(dst.State()), src)
        decreases |chunks|
      {
        ok := dst.Write(chunks[0]);
        if !ok {
          return;
        }
        chunks := chunks[1..];
      }
      return true;
    }
    if src[0] == 1 {
      var r := src[1..];
      while |r| > 0
        invariant |r| < |src|
        invariant FillFrames(z, dst.State(), r) == Fill(z, old(dst.State()), src)
        decreases |r|
      {
        if |r| < 4 {
          return false;
        }
        var len := ReadLength(r[..4]);
        if |r| - 4 < len {
          return false;
        }
        ok := FillSplitter(z, dst, r[4..4 + len]);
        if !ok {
          return;
        }
        r := r[4 + len..];
      }
      return true;
    }
    return false;
  }

  /** Decoder construction over a received buffer; `null` is an error. */
  method NewDecoder(z: Deflate, src: Bytes) returns (d: Decoder?)
    ensures d == null <==> Decode(z, src).Err?
    ensures Decode(z, src).Ok? ==> WellFormed(Decode(z, src).value)
    ensures d != null ==> d.Valid() && fresh(d) && d.Rest() == Messages(Decode(z, src).value)
  {
    var splitter := new MessageSplitter();
    var ok := FillSplitter(z, splitter, src);
    if !ok {
      return null;
    }
    FillKeepsWellFormed(z, EMPTY, src);
    d := new Decoder(Split(splitter.buf, splitter.starts, splitter.types));
  }
}
