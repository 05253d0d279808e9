/**
  Framing of whole messages: lists of well-formed HTTP/1.1 requests, with any header lines and with bodies
  of announced length, in chunks or none, are parsed into exactly the callbacks of their parts, one message
  after the other.
 */
module HttpMessages {
  import opened Common
  import opened Events
  import opened HttpTypes
  import opened HttpSwitch
  import opened HttpSpec
  import opened HttpHeaders
  import opened HttpLengths
  import opened HttpLines
  import opened HttpRequests

  // ---- the end of the headers ------------------------------------------------------

  /** A request of HTTP version 1.1. */
  predicate RequestOf11(f: Fields) { f.typ.Request? && f.httpMajor > 0 && f.httpMinor > 0 }

  /** on_headers_complete returns 0. */
  ghost predicate Accepting(hc: Fields -> int) { forall g :: hc(g) == 0 }

  lemma EmptyLineFirst(hc: Fields -> int, c: Conf)
    requires c.run.Going? && AtLine(c.f.state) && Room(c.f, 1)
    ensures OnByte(hc, c, CR) == Reached(c, c.f.(state := HeadersAlmostDone, nread := c.f.nread + 1), c.log, 1)
  {
    hide Push, Dispatch, StartSwitch, RequestSwitch, BodySwitch, FieldArm, ValueStartArm, ValueArm,
      HeaderAlmostDoneArm, HeadersAlmostDoneArm, HeadersDoneArm;
    OnByteSwitch(hc, c, CR);
    if c.f.state.HeaderValueLws? {
      DispatchSwitch(hc, Count(c.f).(state := HeaderFieldStart), c.log, CR);
    }
  }

  /** The headers say that there is no body. */
  predicate NoBody(f: Fields) {
    !f.flags.chunked && (f.contentLength == 0 || (f.contentLength == UINT32_MAX && !NeedsEof(f)))
  }

  /** Where the machine goes after the headers of a message. */
  function BodyState(f: Fields): State {
    if NoBody(f) then NewMessage(f)
    else if f.flags.chunked then ChunkSizeStart
    else if f.contentLength != UINT32_MAX then BodyIdentity
    else BodyIdentityEof
  }

  /** What the end of a message depends on, and the rest of the message does not change. */
  predicate SameMessage(f: Fields, g: Fields) {
    && g.typ == f.typ && g.verb == f.verb && g.statusCode == f.statusCode
    && g.httpMajor == f.httpMajor && g.httpMinor == f.httpMinor && g.flags.close == f.flags.close
  }

  lemma HeadersDoneByte(hc: Fields -> int, f: Fields, log: HttpLog)
    requires f.state.HeadersDone? && !f.upgrade && !f.flags.skipBody
    ensures Dispatch(hc, f, log, LF)
            == Byte(f.(state := BodyState(f), nread := 0),
                    if NoBody(f) then Push(log, Notice(MessageComplete)) else log, Next)
  {
    hide Push, StartSwitch, RequestSwitch, BodySwitch, FieldStartArm, FieldArm, ValueStartArm, ValueArm,
      HeaderAlmostDoneArm, LwsArm, HeadersAlmostDoneArm;
    DispatchSwitch(hc, f, log, LF);
  }

  lemma EmptyLineLast(hc: Fields -> int, c: Conf)
    requires c.run.Going? && c.f.state.HeadersAlmostDone? && Room(c.f, 1) && Accepting(hc)
    requires !c.f.flags.trailing && !c.f.flags.upgrade && !c.f.flags.skipBody && c.f.verb != CONNECT_METHOD
    ensures var log := Push(c.log, Notice(HeadersComplete));
            OnByte(hc, c, LF)
            == Reached(c, c.f.(state := BodyState(c.f), upgrade := false, nread := 0),
                       if NoBody(c.f) then Push(log, Notice(MessageComplete)) else log, 1)
  {
    hide Push, Dispatch, StartSwitch, RequestSwitch, BodySwitch, FieldStartArm, FieldArm, ValueStartArm, ValueArm,
      HeaderAlmostDoneArm, LwsArm, HeadersDoneArm;
    OnByteSwitch(hc, c, LF);
    HeadersDoneByte(hc, Count(c.f).(state := HeadersDone, upgrade := false), Push(c.log, Notice(HeadersComplete)));
  }

  /** The empty line that ends the headers. */
  lemma HeadersEnd(hc: Fields -> int, c: Conf)
    requires c.run.Going? && AtLine(c.f.state) && Room(c.f, 2) && Accepting(hc)
    requires !c.f.flags.trailing && !c.f.flags.upgrade && !c.f.flags.skipBody && c.f.verb != CONNECT_METHOD
    ensures var d := Feed(hc, c, [13, 10]);
            d == Reached(c, c.f.(state := BodyState(c.f), upgrade := false, nread := 0),
                         c.log + if NoBody(c.f) then [Notice(HeadersComplete), Notice(MessageComplete)]
                                 else [Notice(HeadersComplete)], 2)
  {
    hide Push, OnByte, Feed;
    assert [13] + [10] == [13, 10];
    FeedCons(hc, c, 13, [10]);
    EmptyLineFirst(hc, c);
    FeedOne(hc, OnByte(hc, c, 13), 10);
    EmptyLineLast(hc, OnByte(hc, c, 13));
    PushNotices(c.log);
  }

  lemma PushNotices(log: HttpLog)
    ensures Push(log, Notice(HeadersComplete)) == log + [Notice(HeadersComplete)]
    ensures Push(log, Notice(MessageComplete)) == log + [Notice(MessageComplete)]
    ensures Push(log, Notice(MessageBegin)) == log + [Notice(MessageBegin)]
    ensures Push(Push(log, Notice(HeadersComplete)), Notice(MessageComplete))
            == log + [Notice(HeadersComplete), Notice(MessageComplete)]
  {
  }

  // ---- bodies ----------------------------------------------------------------------

  /** A message is over; NEW_MESSAGE() has chosen what comes next. */
  predicate Over(f: Fields) { f.state == NewMessage(f) }

  /** Ready for a request. */
  predicate Ready(f: Fields) { f.state.StartReq? && f.typ.Request? }

  lemma OverIsReady(f: Fields, g: Fields)
    requires RequestOf11(f) && SameMessage(f, g) && Over(g)
    ensures if f.flags.close then g.state.Dead? else Ready(g)
  {
  }

  /** A body of announced length. */
  lemma SizedBody(hc: Fields -> int, c: Conf, body: seq<byte>)
    requires c.run.Going? && c.f.state.BodyIdentity? && |body| == c.f.contentLength > 0
    requires Closed(c.log, KBody)
    ensures var d := Feed(hc, c, body);
            && d == Reached(c, d.f, c.log + [Body(body), Notice(MessageComplete)], |body|)
            && Over(d.f) && SameMessage(c.f, d.f) && d.f.nread == c.f.nread && d.f.contentLength == 0
  {
    hide Push, OnByte, Feed;
    IdentityLast(hc, c, body);
    var f := Shortened(c.f, |body|).(state := MessageDone);
    MessageEnds(hc, f, Push(c.log, Body(body)), body[|body| - 1]);
    PushClosed(c.log, KBody, body);
    PushNotices(c.log + [Body(body)]);
    assert c.log + [Body(body)] + [Notice(MessageComplete)] == c.log + [Body(body), Notice(MessageComplete)];
  }

  lemma MessageEnds(hc: Fields -> int, f: Fields, log: HttpLog, ch: byte)
    requires f.state.MessageDone?
    ensures Dispatch(hc, f, log, ch) == Byte(f.(state := NewMessage(f)), Push(log, Notice(MessageComplete)), Next)
  {
    hide Push, StartSwitch, RequestSwitch, HeaderSwitch, ChunkSizeStartArm, ChunkSizeArm, ChunkParametersArm,
      ChunkSizeAlmostDoneArm, ChunkDataAlmostDoneArm, ChunkDataDoneArm;
    DispatchSwitch(hc, f, log, ch);
  }

  /** A chunk size and the extension that may follow it. */
  datatype Size = Size(digits: seq<byte>, extension: seq<byte>)

  /** Chunk extensions are skipped, whatever they are. */
  predicate Extension(s: seq<byte>) { (s != [] ==> s[0] == ';' as int || s[0] == SP) && CR !in s }

  predicate GoodSize(z: Size, n: nat) {
    ChunkDigits(z.digits) && Extension(z.extension) && |SizeLine(z)| <= MAX_HEADER_SIZE && Value(16, z.digits) == n
  }

  function SizeLine(z: Size): seq<byte> { z.digits + (z.extension + [13, 10]) }

  datatype Chunk = Chunk(size: Size, data: seq<byte>)

  predicate GoodChunk(k: Chunk) { 0 < |k.data| < UINT32_MAX && GoodSize(k.size, |k.data|) }

  function ChunkText(k: Chunk): seq<byte> { SizeLine(k.size) + (k.data + [13, 10]) }

  function ChunksText(ks: seq<Chunk>): seq<byte> {
    if ks == [] then [] else ChunksText(ks[..|ks| - 1]) + ChunkText(ks[|ks| - 1])
  }

  function ChunksData(ks: seq<Chunk>): seq<byte> {
    if ks == [] then [] else ChunksData(ks[..|ks| - 1]) + ks[|ks| - 1].data
  }

  lemma SizeLineEnd(hc: Fields -> int, c: Conf)
    requires c.run.Going? && (c.f.state.ChunkSize? || c.f.state.ChunkParameters?) && Room(c.f, 2)
    ensures Feed(hc, c, [13, 10])
            == Reached(c, if c.f.contentLength == 0
                          then c.f.(state := HeaderFieldStart, flags := c.f.flags.(trailing := true), nread := 0)
                          else c.f.(state := ChunkData, nread := 0), c.log, 2)
  {
    hide Feed, OnByte;
    assert [13] + [10] == [13, 10];
    FeedCons(hc, c, 13, [10]);
    SizeCr(hc, c);
    FeedOne(hc, OnByte(hc, c, 13), 10);
    SizeLf(hc, OnByte(hc, c, 13));
  }

  lemma ExtensionByte(hc: Fields -> int, c: Conf, ch: byte)
    requires c.run.Going? && Room(c.f, 1) && ch != CR
    requires c.f.state.ChunkParameters? || (c.f.state.ChunkSize? && (ch == ';' as int || ch == SP))
    ensures OnByte(hc, c, ch) == Reached(c, c.f.(state := ChunkParameters, nread := c.f.nread + 1), c.log, 1)
  {
    hide Push, Dispatch, StartSwitch, RequestSwitch, HeaderSwitch, ChunkSizeStartArm, ChunkSizeAlmostDoneArm,
      ChunkDataAlmostDoneArm, ChunkDataDoneArm, MessageDoneArm;
    OnByteSwitch(hc, c, ch);
  }

  lemma ExtensionSnoc(s: seq<byte>)
    requires s != [] && Extension(s)
    ensures var init, last := s[..|s| - 1], s[|s| - 1];
            && s == init + [last] && last != CR && Extension(init)
            && (init == [] ==> last == ';' as int || last == SP)
  {
    assert s[|s| - 1] in s && forall b <- s[..|s| - 1] :: b in s;
  }

  lemma {:induction false} ExtensionRun(hc: Fields -> int, c: Conf, s: seq<byte>)
    requires c.run.Going? && c.f.state.ChunkSize? && Room(c.f, |s|) && s != [] && Extension(s)
    ensures Feed(hc, c, s) == Reached(c, c.f.(state := ChunkParameters, nread := c.f.nread + |s|), c.log, |s|)
    decreases |s|
  {
    hide OnByte, Extension, Feed;
    var init, last := s[..|s| - 1], s[|s| - 1];
    ExtensionSnoc(s);
    if init == [] {
      assert s == [last];
      FeedOne(hc, c, last);
      ExtensionByte(hc, c, last);
    } else {
      ExtensionRun(hc, c, init);
      FeedSnoc(hc, c, init, last);
      ExtensionByte(hc, Feed(hc, c, init), last);
    }
  }

  /** A size line: an ordinary chunk follows, or the trailers. */
  lemma SizeLineRun(hc: Fields -> int, c: Conf, z: Size, n: nat)
    requires c.run.Going? && c.f.state.ChunkSizeStart? && c.f.nread == 0 && GoodSize(z, n) && n < UINT32_MAX
    ensures Feed(hc, c, SizeLine(z))
            == Reached(c, if n == 0
                          then c.f.(state := HeaderFieldStart, flags := c.f.flags.(trailing := true),
                                    contentLength := 0, nread := 0)
                          else c.f.(state := ChunkData, contentLength := n, nread := 0), c.log, |SizeLine(z)|)
  {
    hide Push, OnByte, Feed, Value, ChunkDigits;
    var d := Feed(hc, c, z.digits);
    FeedConcat(hc, c, z.digits, z.extension + [13, 10]);
    SizeRecognised(hc, c, z.digits);
    FeedConcat(hc, d, z.extension, [13, 10]);
    if z.extension == [] {
      FeedNothing(hc, d);
    } else {
      ExtensionRun(hc, d, z.extension);
    }
    SizeLineEnd(hc, Feed(hc, d, z.extension));
  }

  lemma SizeCr(hc: Fields -> int, c: Conf)
    requires c.run.Going? && (c.f.state.ChunkSize? || c.f.state.ChunkParameters?) && Room(c.f, 1)
    ensures OnByte(hc, c, CR) == Reached(c, c.f.(state := ChunkSizeAlmostDone, nread := c.f.nread + 1), c.log, 1)
  {
    hide Push, Dispatch, StartSwitch, RequestSwitch, HeaderSwitch, ChunkSizeStartArm, ChunkSizeAlmostDoneArm,
      ChunkDataAlmostDoneArm, ChunkDataDoneArm, MessageDoneArm;
    OnByteSwitch(hc, c, CR);
  }

  lemma SizeLf(hc: Fields -> int, c: Conf)
    requires c.run.Going? && c.f.state.ChunkSizeAlmostDone? && Room(c.f, 1)
    ensures OnByte(hc, c, LF)
            == Reached(c, if c.f.contentLength == 0
                          then c.f.(state := HeaderFieldStart, flags := c.f.flags.(trailing := true), nread := 0)
                          else c.f.(state := ChunkData, nread := 0), c.log, 1)
  {
    hide Push, Dispatch, StartSwitch, RequestSwitch, HeaderSwitch, ChunkSizeStartArm, ChunkSizeArm,
      ChunkParametersArm, ChunkDataAlmostDoneArm, ChunkDataDoneArm, MessageDoneArm;
    OnByteSwitch(hc, c, LF);
  }

  lemma DataLineEnd(hc: Fields -> int, c: Conf)
    requires c.run.Going? && c.f.state.ChunkDataAlmostDone? && Room(c.f, 0)
    ensures Feed(hc, c, [13, 10]) == Reached(c, c.f.(state := ChunkSizeStart, nread := 0), c.log, 2)
  {
    hide Feed, OnByte;
    assert [13] + [10] == [13, 10];
    FeedCons(hc, c, 13, [10]);
    DataCr(hc, c);
    FeedOne(hc, OnByte(hc, c, 13), 10);
    DataLf(hc, OnByte(hc, c, 13));
  }

  lemma DataCr(hc: Fields -> int, c: Conf)
    requires c.run.Going? && c.f.state.ChunkDataAlmostDone?
    ensures OnByte(hc, c, CR) == Reached(c, c.f.(state := ChunkDataDone), c.log, 1)
  {
    hide Push, Dispatch, StartSwitch, RequestSwitch, HeaderSwitch, ChunkSizeStartArm, ChunkSizeArm,
      ChunkParametersArm, ChunkSizeAlmostDoneArm, ChunkDataDoneArm, MessageDoneArm;
    DispatchSwitch(hc, c.f, c.log, CR);
  }

  lemma DataLf(hc: Fields -> int, c: Conf)
    requires c.run.Going? && c.f.state.ChunkDataDone?
    ensures OnByte(hc, c, LF) == Reached(c, c.f.(state := ChunkSizeStart, nread := 0), c.log, 1)
  {
    hide Push, Dispatch, StartSwitch, RequestSwitch, HeaderSwitch, ChunkSizeStartArm, ChunkSizeArm,
      ChunkParametersArm, ChunkSizeAlmostDoneArm, ChunkDataAlmostDoneArm, MessageDoneArm;
    DispatchSwitch(hc, c.f, c.log, LF);
  }

  lemma ChunkPart(hc: Fields -> int, c: Conf, k: Chunk)
    requires c.run.Going? && c.f.state.ChunkSizeStart? && c.f.nread == 0 && GoodChunk(k)
    ensures Feed(hc, c, ChunkText(k))
            == Reached(c, c.f.(contentLength := 0), Push(c.log, Body(k.data)), |ChunkText(k)|)
  {
    hide Feed, OnByte, Push, GoodSize, SizeLine;
    var head, tail := SizeLine(k.size), k.data + [13, 10];
    FeedConcat(hc, c, head, tail);
    SizeLineRun(hc, c, k.size, |k.data|);
    var d := Feed(hc, c, head);
    FeedConcat(hc, d, k.data, [13, 10]);
    ChunkRun(hc, d, k.data);
    DataLineEnd(hc, Feed(hc, d, k.data));
  }

  lemma {:induction false} ChunksRun(hc: Fields -> int, c: Conf, ks: seq<Chunk>)
    requires c.run.Going? && c.f.state.ChunkSizeStart? && c.f.nread == 0 && Closed(c.log, KBody)
    requires forall k <- ks :: GoodChunk(k)
    ensures var d := Feed(hc, c, ChunksText(ks));
            d == Reached(c, c.f.(contentLength := d.f.contentLength),
                         if ks == [] then c.log else c.log + [Body(ChunksData(ks))], |ChunksText(ks)|)
    decreases |ks|
  {
    hide Feed, OnByte, Push, GoodChunk, ChunkText;
    if ks == [] {
      FeedNothing(hc, c);
    } else {
      var init, last := ks[..|ks| - 1], ks[|ks| - 1];
      assert last in ks && forall k <- init :: k in ks;
      ChunksRun(hc, c, init);
      FeedConcat(hc, c, ChunksText(init), ChunkText(last));
      ChunkPart(hc, Feed(hc, c, ChunksText(init)), last);
      PushClosed(c.log, KBody, ChunksData(ks));
      PushClosed(c.log, KBody, ChunksData(init));
      PushTwice(c.log, KBody, ChunksData(init), last.data);
      if init == [] {
        assert ChunksData(ks) == [] + last.data == last.data;
      }
    }
  }

  /** Trailer lines and the empty line that ends a chunked message. */
  lemma TrailerEnd(hc: Fields -> int, c: Conf)
    requires c.run.Going? && AtLine(c.f.state) && Room(c.f, 2) && c.f.flags.trailing
    ensures Feed(hc, c, [13, 10])
            == Reached(c, c.f.(state := NewMessage(c.f), nread := c.f.nread + 2), c.log + [Notice(MessageComplete)], 2)
  {
    hide Push, OnByte, Feed;
    assert [13] + [10] == [13, 10];
    FeedCons(hc, c, 13, [10]);
    EmptyLineFirst(hc, c);
    FeedOne(hc, OnByte(hc, c, 13), 10);
    TrailerLf(hc, OnByte(hc, c, 13));
    PushNotices(c.log);
  }

  lemma TrailerLf(hc: Fields -> int, c: Conf)
    requires c.run.Going? && c.f.state.HeadersAlmostDone? && Room(c.f, 1) && c.f.flags.trailing
    ensures OnByte(hc, c, LF)
            == Reached(c, c.f.(state := NewMessage(c.f), nread := c.f.nread + 1),
                       Push(c.log, Notice(MessageComplete)), 1)
  {
    hide Push, Dispatch, StartSwitch, RequestSwitch, BodySwitch, FieldStartArm, FieldArm, ValueStartArm, ValueArm,
      HeaderAlmostDoneArm, LwsArm, HeadersDoneArm;
    OnByteSwitch(hc, c, LF);
  }

  function ChunkedText(ks: seq<Chunk>, zero: Size, trailers: seq<Header>): seq<byte> {
    ChunksText(ks) + SizeLine(zero) + (Lines(trailers) + [13, 10])
  }

  function ChunkedEvents(ks: seq<Chunk>, trailers: seq<Header>): HttpLog {
    (if ks == [] then [] else [Body(ChunksData(ks))]) + HeadersEvents(trailers) + [Notice(MessageComplete)]
  }

  lemma TrailersRun(hc: Fields -> int, c: Conf, trailers: seq<Header>)
    requires c.run.Going? && c.f.state.HeaderFieldStart? && c.f.nread == 0 && c.f.flags.trailing
    requires Closed(c.log, KField) && (forall h <- trailers :: Ordinary(h)) && |Lines(trailers)| + 2 <= MAX_HEADER_SIZE
    ensures var d := Feed(hc, c, Lines(trailers) + [13, 10]);
            && d == Reached(c, d.f, c.log + HeadersEvents(trailers) + [Notice(MessageComplete)], |Lines(trailers)| + 2)
            && Over(d.f) && SameMessage(c.f, d.f) && d.f.nread == |Lines(trailers)| + 2
            && d.f.contentLength == c.f.contentLength
  {
    hide Push, OnByte, Feed, Lines, HeadersEvents, Ordinary;
    FeedConcat(hc, c, Lines(trailers), [13, 10]);
    OrdinaryTell(c.f, trailers);
    LinesRun(hc, c, trailers);
    TrailerEnd(hc, Feed(hc, c, Lines(trailers)));
  }

  /** A chunked body: its data arrives as one run of body bytes, whatever the chunks. */
  lemma ChunkedBody(hc: Fields -> int, c: Conf, ks: seq<Chunk>, zero: Size, trailers: seq<Header>)
    requires c.run.Going? && c.f.state.ChunkSizeStart? && c.f.nread == 0
    requires Closed(c.log, KBody) && Closed(c.log, KField)
    requires (forall k <- ks :: GoodChunk(k)) && GoodSize(zero, 0) && (forall h <- trailers :: Ordinary(h))
    requires |Lines(trailers)| + 2 <= MAX_HEADER_SIZE
    ensures var d := Feed(hc, c, ChunkedText(ks, zero, trailers));
            && d == Reached(c, d.f, c.log + ChunkedEvents(ks, trailers), |ChunkedText(ks, zero, trailers)|)
            && Over(d.f) && SameMessage(c.f, d.f) && d.f.nread == |Lines(trailers)| + 2 && d.f.contentLength == 0
  {
    hide Push, OnByte, Feed, Lines, ChunksText, ChunksData, HeadersEvents, GoodChunk, GoodSize, SizeLine, Ordinary;
    var a, b, e := ChunksText(ks), SizeLine(zero), Lines(trailers) + [13, 10];
    FeedConcat(hc, c, a + b, e);
    FeedConcat(hc, c, a, b);
    ChunksRun(hc, c, ks);
    var d := Feed(hc, c, a);
    SizeLineRun(hc, d, zero, 0);
    var t := Feed(hc, d, b);
    assert t.log == c.log + if ks == [] then [] else [Body(ChunksData(ks))];
    TrailersRun(hc, t, trailers);
    var body := if ks == [] then [] else [Body(ChunksData(ks))];
    var h, end := HeadersEvents(trailers), [Notice(MessageComplete)];
    assert c.log + [] == c.log;
    Regrouped(c.log, body, h);
    Regrouped(c.log, body + h, end);
  }

  // ---- requests --------------------------------------------------------------------

  /** A body: none, one of announced length, or one in chunks. */
  datatype Framing =
    | Unframed
    | Sized(body: seq<byte>)
    | Chunked(chunks: seq<Chunk>, zero: Size, trailers: seq<Header>)

  datatype Request = Request(verb: nat, target: seq<byte>, headers: seq<Header>, framing: Framing)

  predicate GoodFraming(fr: Framing) {
    match fr
    case Unframed => true
    case Sized(body) => |body| < UINT32_MAX
    case Chunked(chunks, zero, trailers) =>
      && (forall k <- chunks :: GoodChunk(k)) && GoodSize(zero, 0)
      && (forall t <- trailers :: Ordinary(t)) && |Lines(trailers)| + 2 <= MAX_HEADER_SIZE
  }

  /**
    The body is the one that the headers announce: in chunks if any of them says so, whatever lengths are
    announced as well, and otherwise of the last announced length.
   */
  predicate Announced(hs: seq<Header>, fr: Framing) {
    match fr
    case Unframed => !AnyChunks(hs) && LastLength(hs).None?
    case Sized(body) => !AnyChunks(hs) && LastLength(hs) == Some(|body|)
    case Chunked(_, _, _) => AnyChunks(hs)
  }

  /** A well-formed request up to the empty line after its headers. */
  predicate Headed(r: Request) {
    r.verb < METHODS && Target(r.verb, r.target) && forall h <- r.headers :: Lawful(h)
  }

  /** What follows the headers is not HTTP. */
  predicate Leaves(r: Request) { r.verb == CONNECT_METHOD || AnyUpgrades(r.headers) }

  /** A well-formed request that HTTP follows. */
  predicate Good(r: Request) { Headed(r) && !Leaves(r) && GoodFraming(r.framing) && Announced(r.headers, r.framing) }

  /** The connection is closed after this request. */
  predicate Last(r: Request) { AnyCloses(r.headers) }

  /** Everything up to the empty line after the headers. */
  function HeadText(r: Request): seq<byte> { RequestLine(r.verb, r.target) + Lines(r.headers) + [13, 10] }

  function BodyText(fr: Framing): seq<byte> {
    match fr
    case Unframed => []
    case Sized(body) => body
    case Chunked(chunks, zero, trailers) => ChunkedText(chunks, zero, trailers)
  }

  function BodyEvents(fr: Framing): HttpLog {
    match fr
    case Unframed => [Notice(MessageComplete)]
    case Sized(body) => if body == [] then [Notice(MessageComplete)] else [Body(body), Notice(MessageComplete)]
    case Chunked(chunks, _, trailers) => ChunkedEvents(chunks, trailers)
  }

  function RequestText(r: Request): seq<byte> { HeadText(r) + BodyText(r.framing) }

  /** The callbacks up to the headers of a request. */
  function HeadEvents(r: Request): HttpLog {
    [Notice(MessageBegin), UrlData(r.target)] + HeadersEvents(r.headers) + [Notice(HeadersComplete)]
  }

  /** The callbacks of one request, adjacent data merged. */
  function RequestEvents(r: Request): HttpLog { HeadEvents(r) + BodyEvents(r.framing) }

  /** How many bytes of the header limit the end of a message has already used up for the next one. */
  function Leftover(fr: Framing): nat { if fr.Chunked? then |Lines(fr.trailers)| + 2 else 0 }

  /** What the headers of a message have left in the fields that decide about its body. */
  predicate HeadersRead(f: Fields, hs: seq<Header>) {
    && f.contentLength == (match LastLength(hs) case Some(n) => n case None => UINT32_MAX)
    && f.flags == NO_FLAGS.(keepAlive := f.flags.keepAlive, chunked := AnyChunks(hs), close := AnyCloses(hs),
                            upgrade := AnyUpgrades(hs))
  }

  /** The headers of a message, from fields that its first line has reset. */
  lemma HeadersRun(hc: Fields -> int, c: Conf, hs: seq<Header>)
    requires c.run.Going? && AtLine(c.f.state) && Room(c.f, |Lines(hs)|) && Closed(c.log, KField)
    requires c.f.flags == NO_FLAGS && c.f.contentLength == UINT32_MAX && forall h <- hs :: Lawful(h)
    ensures var d := Feed(hc, c, Lines(hs));
            && d == Reached(c, d.f, c.log + HeadersEvents(hs), |Lines(hs)|)
            && AtLine(d.f.state) && d.f.nread == c.f.nread + |Lines(hs)|
            && HeadersRead(d.f, hs) && SameLine(c.f, d.f)
  {
    hide Feed, Lawful, LastLength, AnyChunks, AnyCloses, AnyUpgrades, HeadersEvents, Lines, AtLine, Closed;
    LinesLeave(hc, c, hs);
  }

  /** What the first line of a message has left, and its headers do not change. */
  predicate SameLine(f: Fields, g: Fields) {
    && g.typ == f.typ && g.verb == f.verb && g.statusCode == f.statusCode
    && g.httpMajor == f.httpMajor && g.httpMinor == f.httpMinor
  }

  /** A request up to the empty line after its headers. */
  lemma HeadRun(hc: Fields -> int, c: Conf, r: Request)
    requires c.run.Going? && Ready(c.f) && Headed(r) && Room(c.f, |HeadText(r)|)
    ensures var s := RequestLine(r.verb, r.target) + Lines(r.headers);
            var d := Feed(hc, c, s);
            && d == Reached(c, d.f, c.log + [Notice(MessageBegin), UrlData(r.target)] + HeadersEvents(r.headers), |s|)
            && AtLine(d.f.state) && Room(d.f, 2) && RequestOf11(d.f) && d.f.verb == r.verb
            && HeadersRead(d.f, r.headers)
  {
    hide Feed, Push, OnByte, RequestLine, Lines, HeadersEvents, Target, Lawful, AnyCloses, AnyChunks, AnyUpgrades,
      LastLength;
    var l, a := RequestLine(r.verb, r.target), Lines(r.headers);
    FeedConcat(hc, c, l, a);
    RequestLineRun(hc, c, r.verb, r.target);
    PushNotices(c.log);
    PushClosed(c.log + [Notice(MessageBegin)], KUrl, r.target);
    Regrouped(c.log, [Notice(MessageBegin)], [UrlData(r.target)]);
    HeadersRun(hc, Feed(hc, c, l), r.headers);
  }

  lemma GoodParts(r: Request)
    requires Good(r)
    ensures Headed(r) && GoodFraming(r.framing) && Announced(r.headers, r.framing)
    ensures r.verb != CONNECT_METHOD && !AnyUpgrades(r.headers)
  {
  }

  /** One request, from one start state to the next. */
  lemma RequestRun(hc: Fields -> int, c: Conf, r: Request)
    requires c.run.Going? && Ready(c.f) && Good(r) && Room(c.f, |HeadText(r)|) && Accepting(hc)
    ensures var d := Feed(hc, c, RequestText(r));
            && d == Reached(c, d.f, c.log + RequestEvents(r), |RequestText(r)|)
            && (if Last(r) then d.f.state.Dead? else Ready(d.f)) && d.f.nread == Leftover(r.framing)
  {
    hide Feed, Push, OnByte, RequestLine, Lines, HeadersEvents, Headed, AnyCloses, AnyChunks, AnyUpgrades, LastLength,
      BodyEvents, BodyText, RequestEvents, GoodFraming, Good, Announced, BodyState, NoBody, AtLine, NeedsEof, Over;
    GoodParts(r);
    var s := RequestLine(r.verb, r.target) + Lines(r.headers);
    FeedConcat(hc, c, HeadText(r), BodyText(r.framing));
    FeedConcat(hc, c, s, [13, 10]);
    HeadRun(hc, c, r);
    var d := Feed(hc, c, s);
    HeadersEnd(hc, d);
    var e := Feed(hc, c, HeadText(r));
    NoEofOf11(d.f);
    BodyRun(hc, d, e, r.headers, r.framing);
    OverIsReady(d.f, Feed(hc, e, BodyText(r.framing)).f);
    LogSoFar(c.log, r);
  }

  lemma NoEofOf11(f: Fields)
    requires RequestOf11(f)
    ensures !NeedsEof(f)
  {
  }

  /** The events of a request, in the order in which they are made. */
  lemma LogSoFar(log: HttpLog, r: Request)
    ensures log + [Notice(MessageBegin), UrlData(r.target)] + HeadersEvents(r.headers) + [Notice(HeadersComplete)]
            + BodyEvents(r.framing)
            == log + RequestEvents(r)
  {
    hide HeadersEvents, BodyEvents;
    var first := [Notice(MessageBegin), UrlData(r.target)];
    Regrouped(log, first, HeadersEvents(r.headers));
    Regrouped(log, first + HeadersEvents(r.headers), [Notice(HeadersComplete)]);
    Regrouped(log, HeadEvents(r), BodyEvents(r.framing));
  }

  /** The body, from the end of the headers `e` that `d` led to. */
  lemma BodyRun(hc: Fields -> int, d: Conf, e: Conf, hs: seq<Header>, fr: Framing)
    requires e == Reached(d, d.f.(state := BodyState(d.f), upgrade := false, nread := 0),
                          d.log + if NoBody(d.f) then [Notice(HeadersComplete), Notice(MessageComplete)]
                                  else [Notice(HeadersComplete)], 2)
    requires HeadersRead(d.f, hs) && GoodFraming(fr) && Announced(hs, fr) && (fr.Unframed? ==> !NeedsEof(d.f))
    ensures var g := Feed(hc, e, BodyText(fr));
            && g == Reached(e, g.f, d.log + [Notice(HeadersComplete)] + BodyEvents(fr), |BodyText(fr)|)
            && Over(g.f) && SameMessage(d.f, g.f) && g.f.nread == Leftover(fr)
            && (fr.Unframed? || g.f.contentLength == 0)
            && (fr.Unframed? ==> g.f == e.f)
  {
    hide Feed, Push, OnByte, Lines, HeadersEvents, Ordinary, ChunkedEvents, ChunkedText, GoodChunk, GoodSize, Value,
      DecimalValue;
    match fr
    case Unframed =>
      FeedNothing(hc, e);
    case Sized(body) =>
      if body == [] {
        FeedNothing(hc, e);
      } else {
        SizedBody(hc, e, body);
        assert e.log + BodyEvents(fr) == d.log + [Notice(HeadersComplete)] + BodyEvents(fr);
      }
    case Chunked(chunks, zero, trailers) =>
      ChunkedBody(hc, e, chunks, zero, trailers);
  }

  // ---- requests that leave HTTP ------------------------------------------------------

  lemma LeavesByte(hc: Fields -> int, f: Fields, log: HttpLog)
    requires f.state.HeadersDone? && f.upgrade
    ensures Dispatch(hc, f, log, LF)
            == Byte(f.(state := NewMessage(f), nread := 0), Push(log, Notice(MessageComplete)), Exit)
  {
    hide Push, StartSwitch, RequestSwitch, BodySwitch, FieldStartArm, FieldArm, ValueStartArm, ValueArm,
      HeaderAlmostDoneArm, LwsArm, HeadersAlmostDoneArm;
    DispatchSwitch(hc, f, log, LF);
  }

  lemma LeavesLf(hc: Fields -> int, c: Conf)
    requires c.run.Going? && c.f.state.HeadersAlmostDone? && Room(c.f, 1) && Accepting(hc)
    requires !c.f.flags.trailing && (c.f.flags.upgrade || c.f.verb == CONNECT_METHOD)
    ensures OnByte(hc, c, LF)
            == Conf(c.f.(state := NewMessage(c.f), upgrade := true, nread := 0),
                    Push(Push(c.log, Notice(HeadersComplete)), Notice(MessageComplete)), c.used + 1, Exited)
  {
    hide Push, Dispatch, StartSwitch, RequestSwitch, BodySwitch, FieldStartArm, FieldArm, ValueStartArm, ValueArm,
      HeaderAlmostDoneArm, LwsArm, HeadersDoneArm;
    OnByteSwitch(hc, c, LF);
    LeavesByte(hc, Count(c.f).(state := HeadersDone, upgrade := true), Push(c.log, Notice(HeadersComplete)));
  }

  /** The empty line of a message after which the bytes are not HTTP: the message is complete, and the call is left. */
  lemma HeadersLeave(hc: Fields -> int, c: Conf)
    requires c.run.Going? && AtLine(c.f.state) && Room(c.f, 2) && Accepting(hc)
    requires !c.f.flags.trailing && (c.f.flags.upgrade || c.f.verb == CONNECT_METHOD)
    ensures Feed(hc, c, [13, 10])
            == Conf(c.f.(state := NewMessage(c.f), upgrade := true, nread := 0),
                    c.log + [Notice(HeadersComplete), Notice(MessageComplete)], c.used + 2, Exited)
  {
    hide Push, OnByte, Feed;
    assert [13] + [10] == [13, 10];
    FeedCons(hc, c, 13, [10]);
    EmptyLineFirst(hc, c);
    FeedOne(hc, OnByte(hc, c, 13), 10);
    LeavesLf(hc, OnByte(hc, c, 13));
    PushNotices(c.log);
  }

  /** A CONNECT request, or one that upgrades: whatever follows its headers is not consumed. */
  lemma LeavingRun(hc: Fields -> int, c: Conf, r: Request, tail: seq<byte>)
    requires c.run.Going? && Ready(c.f) && Headed(r) && Leaves(r) && Room(c.f, |HeadText(r)|) && Accepting(hc)
    ensures var d := Feed(hc, c, HeadText(r) + tail);
            && d.run.Exited? && d.used == c.used + |HeadText(r)| && d.f.upgrade
            && (if Last(r) then d.f.state.Dead? else Ready(d.f))
            && d.log == c.log + HeadEvents(r) + [Notice(MessageComplete)]
  {
    hide Feed, Push, OnByte, RequestLine, Lines, HeadersEvents, Headed, AnyCloses, AnyChunks, AnyUpgrades, LastLength,
      AtLine;
    var s := RequestLine(r.verb, r.target) + Lines(r.headers);
    FeedConcat(hc, c, HeadText(r), tail);
    FeedConcat(hc, c, s, [13, 10]);
    HeadRun(hc, c, r);
    HeadersLeave(hc, Feed(hc, c, s));
    FeedStopped(hc, Feed(hc, c, HeadText(r)), tail);
    LeavingLog(c.log, r);
  }

  lemma LeavingLog(log: HttpLog, r: Request)
    ensures log + [Notice(MessageBegin), UrlData(r.target)] + HeadersEvents(r.headers)
            + [Notice(HeadersComplete), Notice(MessageComplete)]
            == log + HeadEvents(r) + [Notice(MessageComplete)]
  {
    hide HeadersEvents;
    var first := [Notice(MessageBegin), UrlData(r.target)];
    Regrouped(log, first, HeadersEvents(r.headers));
    Regrouped(log, first + HeadersEvents(r.headers), [Notice(HeadersComplete)]);
    Regrouped(log + (first + HeadersEvents(r.headers)), [Notice(HeadersComplete)], [Notice(MessageComplete)]);
  }

  // ---- pipelines -------------------------------------------------------------------

  function PipelineText(rs: seq<Request>): seq<byte> {
    if rs == [] then [] else RequestText(rs[0]) + PipelineText(rs[1..])
  }

  function PipelineEvents(rs: seq<Request>): HttpLog {
    if rs == [] then [] else RequestEvents(rs[0]) + PipelineEvents(rs[1..])
  }

  /** Every request is well-formed and stays within the header limit, of which `used` bytes are gone. */
  ghost predicate GoodPipeline(rs: seq<Request>, used: nat) {
    rs == [] || (Good(rs[0]) && used + |HeadText(rs[0])| <= MAX_HEADER_SIZE && (Last(rs[0]) ==> |rs| == 1)
                 && GoodPipeline(rs[1..], Leftover(rs[0].framing)))
  }

  /** Pipelined requests are told apart: each gets its own callbacks and its own body. */
  lemma {:induction false} PipelineRun(hc: Fields -> int, c: Conf, rs: seq<Request>)
    requires c.run.Going? && Ready(c.f) && GoodPipeline(rs, c.f.nread) && Accepting(hc)
    ensures var d := Feed(hc, c, PipelineText(rs));
            && d == Reached(c, d.f, c.log + PipelineEvents(rs), |PipelineText(rs)|)
            && if rs != [] && Last(rs[|rs| - 1]) then d.f.state.Dead? else Ready(d.f)
    decreases |rs|
  {
    hide Feed, Push, OnByte, RequestText, RequestEvents, HeadText, Good, Leftover, Last;
    if rs == [] {
      FeedNothing(hc, c);
      assert c.log + [] == c.log;
    } else {
      var text, rest := RequestText(rs[0]), PipelineText(rs[1..]);
      FeedConcat(hc, c, text, rest);
      RequestRun(hc, c, rs[0]);
      if Last(rs[0]) {
        assert rs[1..] == [] && PipelineEvents(rs) == RequestEvents(rs[0]) + [];
        FeedNothing(hc, Feed(hc, c, text));
      } else {
        PipelineRun(hc, Feed(hc, c, text), rs[1..]);
        assert c.log + RequestEvents(rs[0]) + PipelineEvents(rs[1..]) == c.log + PipelineEvents(rs);
      }
    }
  }

  /** After the last message of a connection only line ends are let through. */
  lemma NothingFollows(hc: Fields -> int, c: Conf, ch: byte)
    requires c.run.Going? && c.f.state.Dead? && Room(c.f, 1)
    ensures var d := OnByte(hc, c, ch);
            if ch == CR || ch == LF then d == Reached(c, c.f.(nread := c.f.nread + 1), c.log, 1)
            else d.run.Failed? && d.f.errno == ClosedConnection && d.used == c.used && d.log == c.log
  {
    hide Push, Dispatch, RequestSwitch, HeaderSwitch, BodySwitch, StartReqOrResArm, ResOrRespHArm, StartResArm,
      Expect, FirstMajorArm, MajorArm, FirstMinorArm, ResMinorArm, FirstStatusArm, StatusCodeArm, StatusArm,
      ResLineAlmostDoneArm;
    OnByteSwitch(hc, c, ch);
  }
}
