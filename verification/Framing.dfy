/**
 Peer frames on a byte stream: a magic prefix, a length, a payload and an authentication
 tag. However the stream is cut into chunks, the same messages come out in the same order.
 */
module Framing {
  import opened Bytes
  import opened Consensus
  import opened Codec

  const NETWORK_MAGIC: seq<Byte> := [0x42, 0x43, 0x43, 0x4E]
  const HEADER_SIZE: nat := 8
  const AUTH_TAG_SIZE: nat := 32
  const MAX_MESSAGE_SIZE: nat := 2_000_000

  /**
   What framing takes from outside: the JSON text of a message, its decoder with payload
   validation, the keyed digest, and whether the key is not empty.
   */
  datatype Link<!M> = Link(encode: M -> seq<Byte>, decode: seq<Byte> -> Option<M>, tag: seq<Byte> -> Hash, keyed: bool)

  /** The message survives its own text and fits in a frame. */
  ghost predicate Sendable<M>(l: Link<M>, m: M)
  {
    l.keyed && |l.encode(m)| <= MAX_MESSAGE_SIZE && l.decode(l.encode(m)) == Some(m)
  }

  function Head(payload: seq<Byte>): seq<Byte>
  {
    NETWORK_MAGIC + BE(|payload|, 4) + payload
  }

  function ToFrame<M>(l: Link<M>, m: M): Option<seq<Byte>>
  {
    var payload := l.encode(m);
    if |payload| > MAX_MESSAGE_SIZE || !l.keyed then None
    else Some(Head(payload) + l.tag(Head(payload)))
  }

  function SizeField(buffer: seq<Byte>): nat
    requires |buffer| >= HEADER_SIZE
  {
    FromBE(buffer[4..HEADER_SIZE])
  }

  function FromFrame<M>(l: Link<M>, frame: seq<Byte>): Option<M>
  {
    if |frame| < HEADER_SIZE || frame[..4] != NETWORK_MAGIC then None else
    var size := SizeField(frame);
    var end := HEADER_SIZE + size;
    if size > MAX_MESSAGE_SIZE || |frame| != end + AUTH_TAG_SIZE then None
    else if !l.keyed || l.tag(frame[..end]) != frame[end..] then None
    else l.decode(frame[HEADER_SIZE..end])
  }

  /** Whether a whole frame is buffered; `None` where the header already breaks the rules. */
  function HasCompleteFrame(data: seq<Byte>): Option<bool>
  {
    if |data| < HEADER_SIZE then Some(false)
    else if data[..4] != NETWORK_MAGIC || SizeField(data) > MAX_MESSAGE_SIZE then None
    else Some(|data| >= HEADER_SIZE + SizeField(data) + AUTH_TAG_SIZE)
  }

  /** One complete frame and the bytes after it. */
  function ReadFrame<M>(l: Link<M>, buffer: seq<Byte>): Option<(M, seq<Byte>)>
  {
    if |buffer| < HEADER_SIZE || buffer[..4] != NETWORK_MAGIC then None else
    var end := HEADER_SIZE + SizeField(buffer) + AUTH_TAG_SIZE;
    if SizeField(buffer) > MAX_MESSAGE_SIZE || |buffer| < end then None else
    match FromFrame(l, buffer[..end])
    case None => None
    case Some(m) => Some((m, buffer[end..]))
  }

  datatype Extracted<+M> = Broken | Clean(messages: seq<M>, rest: seq<Byte>)

  function After<M>(ms: seq<M>, e: Extracted<M>): Extracted<M>
  {
    match e
    case Broken => Broken
    case Clean(more, rest) => Clean(ms + more, rest)
  }

  /** All complete frames at the front of the buffer. */
  function Extract<M>(l: Link<M>, data: seq<Byte>): Extracted<M>
    decreases |data|
  {
    match HasCompleteFrame(data)
    case None => Broken
    case Some(complete) =>
      if !complete then Clean([], data) else
      match ReadFrame(l, data)
      case None => Broken
      case Some((m, rest)) => After([m], Extract(l, rest))
  }

  /** The buffer from the first frame on that is unfinished or cannot be read. */
  function LeftBehind<M>(l: Link<M>, data: seq<Byte>): seq<Byte>
    decreases |data|
  {
    if HasCompleteFrame(data) == Some(true) && ReadFrame(l, data).Some? then LeftBehind(l, ReadFrame(l, data).value.1)
    else data
  }

  class ConnectionBuffer<M(!new)> {
    const link: Link<M>
    var data: seq<Byte>

    constructor (l: Link<M>)
      ensures link == l && data == []
    {
      link, data := l, [];
    }

    /** Buffers a chunk and returns every message that is now complete. */
    method Feed(chunk: seq<Byte>) returns (res: Result<seq<M>>)
      modifies this
      ensures match Extract(link, old(data) + chunk)
              case Broken => res.Err?
              case Clean(ms, rest) => res == Ok(ms) && data == rest
      ensures data == LeftBehind(link, old(data) + chunk)
    {
      hide ReadFrame;
      if chunk == [] {
        assert data + chunk == data;
        if data == [] {
          return Ok([]);
        }
      } else {
        data := data + chunk;
      }
      ghost var all := old(data) + chunk;
      var messages: seq<M> := [];
      AfterNil(Extract(link, data));
      while true
        invariant Extract(link, all) == After(messages, Extract(link, data))
        invariant LeftBehind(link, all) == LeftBehind(link, data)
        decreases |data|
      {
        var complete := HasCompleteFrame(data);
        if complete.None? {
          return Err("network magic or message size is invalid");
        }
        if !complete.value {
          break;
        }
        var next := ReadFrame(link, data);
        if next.None? {
          return Err("frame is invalid");
        }
        ReadShrinks(link, data);
        AfterSnoc(messages, next.value.0, Extract(link, next.value.1));
        messages := messages + [next.value.0];
        data := next.value.1;
      }
      assert messages + [] == messages;
      return Ok(messages);
    }
  }

  lemma ReadShrinks<M>(l: Link<M>, data: seq<Byte>)
    requires ReadFrame(l, data).Some?
    ensures |ReadFrame(l, data).value.1| < |data|
  {
  }

  lemma AfterNil<M>(e: Extracted<M>)
    ensures After([], e) == e
  {
    assert e.Clean? ==> [] + e.messages == e.messages;
  }

  lemma AfterSnoc<M>(ms: seq<M>, m: M, e: Extracted<M>)
    ensures After(ms, After([m], e)) == After(ms + [m], e)
  {
    assert e.Clean? ==> ms + ([m] + e.messages) == ms + [m] + e.messages;
  }

  lemma AfterAfter<M>(a: seq<M>, b: seq<M>, e: Extracted<M>)
    ensures After(a, After(b, e)) == After(a + b, e)
  {
    assert e.Clean? ==> a + (b + e.messages) == a + b + e.messages;
  }

  // ---- cutting the stream ---------------------------------------------------------------------

  /** Bytes that arrive later do not change how the first frame is read. */
  lemma HeaderStays(a: seq<Byte>, b: seq<Byte>)
    requires |a| >= HEADER_SIZE
    ensures (a + b)[..4] == a[..4] && SizeField(a + b) == SizeField(a)
  {
    assert (a + b)[4..HEADER_SIZE] == a[4..HEADER_SIZE];
  }

  lemma FrameStays<M>(l: Link<M>, a: seq<Byte>, b: seq<Byte>)
    requires HasCompleteFrame(a) == Some(true)
    ensures HasCompleteFrame(a + b) == Some(true)
    ensures match ReadFrame(l, a)
            case None => ReadFrame(l, a + b).None?
            case Some((m, rest)) => ReadFrame(l, a + b) == Some((m, rest + b))
  {
    HeaderStays(a, b);
    var end := HEADER_SIZE + SizeField(a) + AUTH_TAG_SIZE;
    assert (a + b)[..end] == a[..end] && (a + b)[end..] == a[end..] + b;
  }

  /** Extracting, then extracting what is left with more bytes, is extracting everything. */
  lemma {:induction false} ExtractAppend<M>(l: Link<M>, a: seq<Byte>, b: seq<Byte>)
    ensures match Extract(l, a)
            case Broken => Extract(l, a + b).Broken?
            case Clean(ms, rest) => Extract(l, a + b) == After(ms, Extract(l, rest + b))
    decreases |a|
  {
    hide ReadFrame, SizeField;
    match HasCompleteFrame(a)
    case None =>
      HeaderStays(a, b);
    case Some(complete) =>
      if complete {
        FrameStays(l, a, b);
        match ReadFrame(l, a)
        case None =>
        case Some((m, rest)) =>
          ReadShrinks(l, a);
          ExtractAppend(l, rest, b);
          if Extract(l, rest).Clean? {
            AfterAfter([m], Extract(l, rest).messages, Extract(l, Extract(l, rest).rest + b));
          }
      } else {
        AfterNil(Extract(l, a + b));
      }
  }

  function Concat(chunks: seq<seq<Byte>>): seq<Byte>
  {
    if chunks == [] then [] else chunks[0] + Concat(chunks[1..])
  }

  /** Successive `feed` calls, collecting what they return. */
  function FeedAll<M>(l: Link<M>, data: seq<Byte>, chunks: seq<seq<Byte>>): Extracted<M>
    decreases |chunks|
  {
    if chunks == [] then Clean([], data) else
    match Extract(l, data + chunks[0])
    case Broken => Broken
    case Clean(ms, rest) => After(ms, FeedAll(l, rest, chunks[1..]))
  }

  lemma {:induction false} RestIsSettled<M>(l: Link<M>, data: seq<Byte>)
    requires Extract(l, data).Clean?
    ensures Extract(l, Extract(l, data).rest) == Clean([], Extract(l, data).rest)
    decreases |data|
  {
    hide ReadFrame;
    if HasCompleteFrame(data) == Some(true) {
      ReadShrinks(l, data);
      RestIsSettled(l, ReadFrame(l, data).value.1);
    }
  }

  /**
   For every stream and every way of cutting it, feeding the chunks one by one yields what
   the whole stream yields at once: the same messages and the same unfinished tail, and it
   breaks exactly when the whole stream does.
   */
  lemma {:induction false} ChunkingDoesNotMatter<M>(l: Link<M>, data: seq<Byte>, chunks: seq<seq<Byte>>)
    requires Extract(l, data) == Clean([], data)
    ensures FeedAll(l, data, chunks) == Extract(l, data + Concat(chunks))
    decreases |chunks|
  {
    hide Extract;
    if chunks == [] {
      assert data + [] == data;
    } else {
      var first, rest := data + chunks[0], Concat(chunks[1..]);
      assert data + Concat(chunks) == first + rest;
      ExtractAppend(l, first, rest);
      if Extract(l, first).Clean? {
        RestIsSettled(l, first);
        ChunkingDoesNotMatter(l, Extract(l, first).rest, chunks[1..]);
      }
    }
  }

  // ---- streams of valid messages ----------------------------------------------------------------

  ghost predicate AllSendable<M>(l: Link<M>, ms: seq<M>)
  {
    forall i | 0 <= i < |ms| :: Sendable(l, ms[i])
  }

  ghost function Stream<M>(l: Link<M>, ms: seq<M>): seq<Byte>
    requires AllSendable(l, ms)
  {
    if ms == [] then [] else ToFrame(l, ms[0]).value + Stream(l, ms[1..])
  }

  lemma FrameExists<M>(l: Link<M>, m: M)
    requires Sendable(l, m)
    ensures ToFrame(l, m).Some?
  {
  }

  /** The parts of a frame sit where the reader looks for them. */
  lemma FrameParts<M>(l: Link<M>, m: M)
    requires Sendable(l, m)
    ensures var f, n := ToFrame(l, m).value, |l.encode(m)|;
            |f| == HEADER_SIZE + n + AUTH_TAG_SIZE && f[..4] == NETWORK_MAGIC && SizeField(f) == n &&
            f[..HEADER_SIZE + n] == Head(l.encode(m)) && f[HEADER_SIZE..HEADER_SIZE + n] == l.encode(m) &&
            f[HEADER_SIZE + n..] == l.tag(Head(l.encode(m)))
  {
    var payload := l.encode(m);
    var f := ToFrame(l, m).value;
    Powers();
    ReadsBack(|payload|, 4);
    assert f[4..HEADER_SIZE] == BE(|payload|, 4);
  }

  lemma FrameReadsBack<M>(l: Link<M>, m: M, more: seq<Byte>)
    requires Sendable(l, m)
    ensures HasCompleteFrame(ToFrame(l, m).value + more) == Some(true)
    ensures ReadFrame(l, ToFrame(l, m).value + more) == Some((m, more))
  {
    var f := ToFrame(l, m).value;
    FrameParts(l, m);
    assert FromFrame(l, f) == Some(m);
    var end := |f|;
    assert f[..end] == f && f[end..] == [];
    FrameStays(l, f, more);
    assert [] + more == more;
  }

  /** A proper prefix of a frame is neither complete nor broken. */
  lemma PartialFrameWaits<M>(l: Link<M>, m: M, part: seq<Byte>)
    requires Sendable(l, m) && part <= ToFrame(l, m).value && |part| < |ToFrame(l, m).value|
    ensures HasCompleteFrame(part) == Some(false)
  {
    FrameParts(l, m);
    var f := ToFrame(l, m).value;
    if |part| >= HEADER_SIZE {
      assert f == part + f[|part|..];
      HeaderStays(part, f[|part|..]);
    }
  }

  /**
   After any prefix of a stream of frames, exactly the messages of the complete frames have
   come out, and what is buffered is the unfinished beginning of the next frame.
   */
  lemma {:induction false} PrefixYields<M>(l: Link<M>, ms: seq<M>, d: seq<Byte>) returns (j: nat, t: seq<Byte>)
    requires AllSendable(l, ms) && d <= Stream(l, ms)
    ensures j <= |ms| && Extract(l, d) == Clean(ms[..j], t) && AllSendable(l, ms[..j]) && d == Stream(l, ms[..j]) + t
    ensures j == |ms| ==> t == []
    ensures j < |ms| ==> t <= ToFrame(l, ms[j]).value && |t| < |ToFrame(l, ms[j]).value|
    decreases |ms|
  {
    hide HasCompleteFrame, ReadFrame, ToFrame, Extract, Stream, AllSendable, Sendable;
    if ms == [] {
      j, t := 0, [];
      StreamEmpty(l);
      assert d == [] && ms[..0] == [];
      EmptyExtract(l);
    } else {
      StreamStep(l, ms, |ms|);
      var f, rest := ToFrame(l, ms[0]).value, Stream(l, ms[1..]);
      SplitPrefix(f, rest, d);
      if |d| < |f| {
        j, t := 0, d;
        PartialFrameWaits(l, ms[0], d);
        ExtractWaits(l, d);
        StreamEmpty(l);
        assert ms[..0] == [] && [] + d == d;
      } else {
        var d' := d[|f|..];
        var k, u := PrefixYields(l, ms[1..], d');
        j, t := k + 1, u;
        FrameReadsBack(l, ms[0], d');
        ExtractStep(l, d, ms[0], d');
        StreamStep(l, ms, j);
        var front := ms[1..][..k];
        assert f + (Stream(l, front) + t) == f + Stream(l, front) + t;
        assert j < |ms| ==> ms[1..][k] == ms[j];
      }
    }
  }

  lemma StreamEmpty<M>(l: Link<M>)
    ensures AllSendable(l, []) && Stream(l, []) == []
  {
  }

  /** The first `j` frames are the first frame and the first `j - 1` of the rest. */
  lemma StreamStep<M>(l: Link<M>, ms: seq<M>, j: nat)
    requires AllSendable(l, ms) && 0 < j <= |ms|
    ensures Sendable(l, ms[0]) && ToFrame(l, ms[0]).Some? && AllSendable(l, ms[1..])
    ensures AllSendable(l, ms[..j]) && AllSendable(l, ms[1..][..j - 1])
    ensures ms[..j] == [ms[0]] + ms[1..][..j - 1]
    ensures Stream(l, ms[..j]) == ToFrame(l, ms[0]).value + Stream(l, ms[1..][..j - 1])
    ensures j == |ms| ==> ms[..j] == ms && ms[1..][..j - 1] == ms[1..]
  {
    hide ToFrame, Sendable;
    assert Sendable(l, ms[0]);
    FrameExists(l, ms[0]);
    var front := ms[..j];
    assert front[0] == ms[0] && front[1..] == ms[1..][..j - 1];
  }

  lemma SplitPrefix(f: seq<Byte>, rest: seq<Byte>, d: seq<Byte>)
    requires d <= f + rest
    ensures |d| < |f| ==> d <= f
    ensures |d| >= |f| ==> d == f + d[|f|..] && d[|f|..] <= rest
  {
    assert d == (f + rest)[..|d|];
    if |d| >= |f| {
      assert d[..|f|] == f;
      assert d[|f|..] == rest[..|d| - |f|];
    }
  }

  lemma ExtractWaits<M>(l: Link<M>, d: seq<Byte>)
    requires HasCompleteFrame(d) == Some(false)
    ensures Extract(l, d) == Clean([], d)
  {
  }

  lemma ExtractStep<M>(l: Link<M>, d: seq<Byte>, m: M, rest: seq<Byte>)
    requires HasCompleteFrame(d) == Some(true) && ReadFrame(l, d) == Some((m, rest))
    ensures Extract(l, d) == After([m], Extract(l, rest))
  {
    hide HasCompleteFrame, ReadFrame;
  }

  lemma EmptyExtract<M>(l: Link<M>)
    ensures Extract(l, []) == Clean([], [])
  {
  }

  /** Every cut of a stream of valid messages yields exactly those messages, with nothing left. */
  lemma StreamYieldsMessages<M>(l: Link<M>, ms: seq<M>, chunks: seq<seq<Byte>>)
    requires AllSendable(l, ms) && Concat(chunks) == Stream(l, ms)
    ensures FeedAll(l, [], chunks) == Clean(ms, [])
  {
    hide Extract, Stream;
    EmptyExtract(l);
    ChunkingDoesNotMatter(l, [], chunks);
    assert [] + Concat(chunks) == Stream(l, ms);
    var j, t := PrefixYields(l, ms, Stream(l, ms));
    WholeStream(l, ms, j, t);
    assert ms[..|ms|] == ms;
  }

  lemma {:induction false} WholeStream<M>(l: Link<M>, ms: seq<M>, j: nat, t: seq<Byte>)
    requires AllSendable(l, ms) && j <= |ms| && AllSendable(l, ms[..j]) && Stream(l, ms) == Stream(l, ms[..j]) + t
    requires j < |ms| ==> |t| < |ToFrame(l, ms[j]).value|
    ensures j == |ms|
    decreases |ms|
  {
    hide ToFrame, Stream, AllSendable, Sendable;
    if j == 0 {
      assert ms[..0] == [];
      StreamEmpty(l);
      if ms != [] {
        StreamStep(l, ms, |ms|);
      }
    } else {
      StreamStep(l, ms, j);
      StreamStep(l, ms, |ms|);
      var f := ToFrame(l, ms[0]).value;
      var a, b := Stream(l, ms[1..]), Stream(l, ms[1..][..j - 1]);
      assert f + a == f + (b + t);
      assert a == (f + a)[|f|..] && b + t == (f + (b + t))[|f|..];
      assert j < |ms| ==> ms[1..][j - 1] == ms[j];
      WholeStream(l, ms[1..], j - 1, t);
    }
  }

  // ---- nothing else comes out -------------------------------------------------------------------

  /** The buffer starts with an authenticated frame around `payload`, and `rest` follows. */
  ghost predicate Framed<M>(l: Link<M>, data: seq<Byte>, payload: seq<Byte>, rest: seq<Byte>)
  {
    l.keyed && |payload| <= MAX_MESSAGE_SIZE &&
    data == NETWORK_MAGIC + BE(|payload|, 4) + payload + l.tag(NETWORK_MAGIC + BE(|payload|, 4) + payload) + rest
  }

  /**
   A frame is read as a message exactly when magic, length, payload and the tag over all of
   them stand at the front and the payload decodes to it.
   */
  lemma FrameIsAuthentic<M>(l: Link<M>, data: seq<Byte>, m: M, rest: seq<Byte>)
    ensures ReadFrame(l, data) == Some((m, rest)) <==>
            exists payload :: Framed(l, data, payload, rest) && l.decode(payload) == Some(m)
  {
    if ReadFrame(l, data) == Some((m, rest)) {
      var payload := ReadIsFramed(l, data);
    }
    if payload :| Framed(l, data, payload, rest) && l.decode(payload) == Some(m) {
      FramedIsRead(l, data, payload, rest);
    }
  }

  lemma ReadIsFramed<M>(l: Link<M>, data: seq<Byte>) returns (payload: seq<Byte>)
    requires ReadFrame(l, data).Some?
    ensures Framed(l, data, payload, ReadFrame(l, data).value.1) && l.decode(payload) == Some(ReadFrame(l, data).value.0)
  {
    hide FromBE, BE;
    var size := SizeField(data);
    var end := HEADER_SIZE + size;
    var frame := data[..end + AUTH_TAG_SIZE];
    payload := frame[HEADER_SIZE..end];
    assert frame[4..HEADER_SIZE] == data[4..HEADER_SIZE];
    assert SizeField(frame) == size;
    WritesBack(data[4..HEADER_SIZE]);
    assert frame[..end] == NETWORK_MAGIC + BE(|payload|, 4) + payload;
    assert data == frame[..end] + frame[end..] + data[end + AUTH_TAG_SIZE..];
  }

  lemma FramedIsRead<M>(l: Link<M>, data: seq<Byte>, payload: seq<Byte>, rest: seq<Byte>)
    requires Framed(l, data, payload, rest) && l.decode(payload).Some?
    ensures ReadFrame(l, data) == Some((l.decode(payload).value, rest))
  {
    hide FromBE, BE;
    var n := |payload|;
    var end := HEADER_SIZE + n;
    var head := NETWORK_MAGIC + BE(n, 4) + payload;
    var tag := l.tag(head);
    assert |tag| == 32 && data == head + tag + rest;
    assert data[4..HEADER_SIZE] == BE(n, 4) && data[..4] == NETWORK_MAGIC;
    SizeFits(n);
    assert SizeField(data) == n;
    var frame := data[..end + AUTH_TAG_SIZE];
    assert frame == head + tag;
    assert frame[..4] == NETWORK_MAGIC && frame[4..HEADER_SIZE] == BE(n, 4) && frame[..end] == head && frame[end..] == tag;
    assert frame[HEADER_SIZE..end] == payload && data[end + AUTH_TAG_SIZE..] == rest;
  }

  lemma SizeFits(n: nat)
    requires n <= MAX_MESSAGE_SIZE
    ensures FromBE(BE(n, 4)) == n
  {
    assert Pow256(4) == 256 * 256 * 256 * 256 by {
      assert Pow256(2) == 65536;
    }
    ReadsBack(n, 4);
  }

  /** The bytes of a list of payloads, each in its authenticated frame. */
  ghost function Frames<M>(l: Link<M>, payloads: seq<seq<Byte>>): seq<Byte>
  {
    if payloads == [] then [] else
    var head := NETWORK_MAGIC + BE(|payloads[0]|, 4) + payloads[0];
    head + l.tag(head) + Frames(l, payloads[1..])
  }

  /**
   Whatever comes out of a byte stream was in it: the stream is a sequence of authenticated
   frames, whose payloads decode to the messages in their order, and the unread rest.
   */
  lemma {:induction false} OnlyFramesComeOut<M>(l: Link<M>, data: seq<Byte>) returns (payloads: seq<seq<Byte>>)
    requires Extract(l, data).Clean?
    ensures var out := Extract(l, data);
            |payloads| == |out.messages| && data == Frames(l, payloads) + out.rest &&
            forall i | 0 <= i < |payloads| :: l.decode(payloads[i]) == Some(out.messages[i])
    decreases |data|
  {
    hide ReadFrame, HasCompleteFrame, Framed, Frames;
    NoFrames(l);
    if HasCompleteFrame(data) == Some(true) {
      var first := ReadIsFramed(l, data);
      ReadShrinks(l, data);
      var rest := ReadFrame(l, data).value.1;
      var more := OnlyFramesComeOut(l, rest);
      payloads := [first] + more;
      FramesStep(l, data, first, more, rest, Extract(l, rest).rest);
    } else {
      payloads := [];
      assert [] + data == data;
    }
  }

  lemma NoFrames<M>(l: Link<M>)
    ensures Frames(l, []) == []
  {
  }

  lemma FramesStep<M>(l: Link<M>, data: seq<Byte>, first: seq<Byte>, more: seq<seq<Byte>>, rest: seq<Byte>, left: seq<Byte>)
    requires Framed(l, data, first, rest) && rest == Frames(l, more) + left
    ensures data == Frames(l, [first] + more) + left
  {
    hide BE;
    assert ([first] + more)[1..] == more;
    var head := NETWORK_MAGIC + BE(|first|, 4) + first;
    assert data == head + l.tag(head) + (Frames(l, more) + left);
    assert Frames(l, [first] + more) == head + l.tag(head) + Frames(l, more);
    Regroup(head + l.tag(head), Frames(l, more), left);
  }

  lemma Regroup(a: seq<Byte>, b: seq<Byte>, c: seq<Byte>)
    ensures a + (b + c) == a + b + c
  {
  }
}
