/** Responses: the status line, the four ways in which a body can be framed, and the end by EOF. */
module HttpResponses {
  import opened Common
  import opened Events
  import opened HttpTypes
  import opened HttpSwitch
  import opened HttpSpec
  import opened HttpHeaders
  import opened HttpLengths
  import opened HttpLines
  import opened HttpRequests
  import opened HttpMessages
  import opened HttpParser

  // ---- the status line -----------------------------------------------------------------

  /** "HTTP/1.1 " */
  function StatusByte(i: nat): byte { if i < 8 then VersionByte(i) else SP }

  function StatusState(i: nat): State {
    if i == 0 then StartRes else if i == 1 then ResH else if i == 2 then ResHT else if i == 3 then ResHTT
    else if i == 4 then ResHTTP else if i == 5 then ResFirstHttpMajor else if i == 6 then ResHttpMajor
    else if i == 7 then ResFirstHttpMinor else if i == 8 then ResHttpMinor else ResFirstStatusCode
  }

  const STATUS_BYTES := 9

  function StatusVersion(n: nat): (s: seq<byte>)
    ensures |s| == n
  {
    if n == 0 then [] else StatusVersion(n - 1) + [StatusByte(n - 1)]
  }

  /** The fields and the log when `n` bytes of the version have been read. */
  function StatusConf(c: Conf, n: nat): Conf {
    if n == 0 then c
    else
      Reached(c, Fresh(c.f).(state := StatusState(n), httpMajor := if n > 5 then 1 else c.f.httpMajor,
                             httpMinor := if n > 7 then 1 else c.f.httpMinor, nread := c.f.nread + n),
              Push(c.log, Notice(MessageBegin)), n)
  }

  lemma StatusFacts(i: nat)
    requires i <= STATUS_BYTES
    ensures CountsBytes(StatusState(i)) && !Swallows(StatusState(i)) && Live(StatusState(i)).None?
  {
  }

  lemma StatusStart(hc: Fields -> int, f: Fields)
    requires f.state.StartRes?
    ensures Switch(hc, f, StatusByte(0)) == Notify(Fresh(f).(state := ResH), MessageBegin)
  {
    hide RequestSwitch, HeaderSwitch, BodySwitch, DeadArm, StartReqOrResArm, ResOrRespHArm, Expect, FirstMajorArm,
      MajorArm, FirstMinorArm, ResMinorArm, FirstStatusArm, StatusCodeArm, StatusArm, ResLineAlmostDoneArm;
  }

  lemma StatusNameArm(hc: Fields -> int, f: Fields, i: nat)
    requires 0 < i < 5 && f.state == StatusState(i)
    ensures Switch(hc, f, StatusByte(i)) == To(f, StatusState(i + 1))
  {
    hide RequestSwitch, HeaderSwitch, BodySwitch, DeadArm, StartReqOrResArm, ResOrRespHArm, StartResArm,
      FirstMajorArm, MajorArm, FirstMinorArm, ResMinorArm, FirstStatusArm, StatusCodeArm, StatusArm,
      ResLineAlmostDoneArm;
  }

  lemma StatusNumberArm(hc: Fields -> int, f: Fields, i: nat)
    requires 5 <= i < STATUS_BYTES && f.state == StatusState(i)
    ensures Switch(hc, f, StatusByte(i))
         == To(f.(httpMajor := if i == 5 then 1 else f.httpMajor, httpMinor := if i == 7 then 1 else f.httpMinor),
               StatusState(i + 1))
  {
    hide RequestSwitch, HeaderSwitch, BodySwitch, DeadArm, StartReqOrResArm, ResOrRespHArm, StartResArm, Expect, U16,
      MinorDigit, FirstStatusArm, StatusCodeArm, StatusArm, ResLineAlmostDoneArm;
  }

  lemma StatusStep(hc: Fields -> int, c: Conf, n: nat)
    requires c.run.Going? && c.f.state.StartRes? && n < STATUS_BYTES && Room(c.f, n + 1)
    ensures OnByte(hc, StatusConf(c, n), StatusByte(n)) == StatusConf(c, n + 1)
  {
    hide Push, Dispatch, Switch, OnByte, StatusByte, StatusState, Swallows, CountsBytes, Live;
    var d := StatusConf(c, n);
    StatusFacts(n);
    StatusFacts(n + 1);
    StatusStates();
    if n == 0 {
      StatusStart(hc, Count(d.f));
    } else if n < 5 {
      StatusNameArm(hc, Count(d.f), n);
    } else {
      StatusNumberArm(hc, Count(d.f), n);
    }
    OnByteSwitch(hc, d, StatusByte(n));
  }

  lemma StatusStates()
    ensures StatusState(0).StartRes? && StatusState(1).ResH? && StatusState(STATUS_BYTES).ResFirstStatusCode?
  {
  }

  lemma {:induction false} StatusVersionRun(hc: Fields -> int, c: Conf, n: nat)
    requires c.run.Going? && c.f.state.StartRes? && n <= STATUS_BYTES && Room(c.f, n)
    ensures Feed(hc, c, StatusVersion(n)) == StatusConf(c, n)
    decreases n
  {
    hide OnByte, StatusByte, StatusConf;
    if n == 0 {
      FeedNothing(hc, c);
      StatusNothing(c);
    } else {
      StatusVersionRun(hc, c, n - 1);
      FeedSnoc(hc, c, StatusVersion(n - 1), StatusByte(n - 1));
      StatusStep(hc, c, n - 1);
    }
  }

  lemma StatusNothing(c: Conf)
    ensures StatusConf(c, 0) == c
  {
  }

  /** `n` calls of message_begin. */
  function Beginnings(n: nat): HttpLog { if n == 0 then [] else Beginnings(n - 1) + [Notice(MessageBegin)] }

  lemma LineEndByte(hc: Fields -> int, c: Conf, ch: byte)
    requires c.run.Going? && c.f.state.StartRes? && Room(c.f, 1) && (ch == CR || ch == LF)
    ensures OnByte(hc, c, ch)
         == Reached(c, Fresh(c.f).(nread := c.f.nread + 1), c.log + [Notice(MessageBegin)], 1)
  {
    hide Dispatch, RequestSwitch, HeaderSwitch, BodySwitch, DeadArm, StartReqOrResArm, ResOrRespHArm, Expect,
      FirstMajorArm, MajorArm, FirstMinorArm, ResMinorArm, FirstStatusArm, StatusCodeArm, StatusArm,
      ResLineAlmostDoneArm;
    OnByteSwitch(hc, c, ch);
    PushNotices(c.log);
  }

  predicate LineEnds(s: seq<byte>) { forall i :: 0 <= i < |s| ==> s[i] == CR || s[i] == LF }

  /** The configuration when `n` line ends in front of a response have been read. */
  function Begun(c: Conf, n: nat): Conf {
    if n == 0 then c else Reached(c, Fresh(c.f).(nread := c.f.nread + n), c.log + Beginnings(n), n)
  }

  lemma NextLineEnd(hc: Fields -> int, c: Conf, n: nat, ch: byte)
    requires c.run.Going? && c.f.state.StartRes? && Room(c.f, n + 1) && (ch == CR || ch == LF)
    ensures OnByte(hc, Begun(c, n), ch) == Begun(c, n + 1)
  {
    hide OnByte, Beginnings;
    LineEndByte(hc, Begun(c, n), ch);
    NoBegins(c.log);
    NextBegin(c.log, n);
  }

  /** The line ends in front of a response are skipped, and each calls message_begin once more. */
  lemma {:induction false} LeadingLineEnds(hc: Fields -> int, c: Conf, s: seq<byte>)
    requires c.run.Going? && c.f.state.StartRes? && Room(c.f, |s|) && LineEnds(s)
    ensures Feed(hc, c, s) == Begun(c, |s|)
    decreases |s|
  {
    hide OnByte, Feed, Begun, LineEnds;
    if s == [] {
      FeedNothing(hc, c);
      NotBegun(c);
    } else {
      var init, last := s[..|s| - 1], s[|s| - 1];
      LineEndsSnoc(s);
      LeadingLineEnds(hc, c, init);
      FeedSnoc(hc, c, init, last);
      NextLineEnd(hc, c, |init|, last);
    }
  }

  lemma NotBegun(c: Conf)
    ensures Begun(c, 0) == c
  {
  }

  lemma LineEndsSnoc(s: seq<byte>)
    requires s != [] && LineEnds(s)
    ensures var init, last := s[..|s| - 1], s[|s| - 1];
            s == init + [last] && (last == CR || last == LF) && LineEnds(init)
  {
  }

  lemma NoBegins(log: HttpLog)
    ensures log + Beginnings(0) == log
  {
  }

  lemma NextBegin(log: HttpLog, n: nat)
    ensures log + Beginnings(n) + [Notice(MessageBegin)] == log + Beginnings(n + 1)
  {
    Regrouped(log, Beginnings(n), [Notice(MessageBegin)]);
  }

  // ---- the status code -----------------------------------------------------------------

  predicate AllDigits(s: seq<byte>) { forall b <- s :: IsNum(b) }

  lemma CodeFirst(hc: Fields -> int, c: Conf, ch: byte)
    requires c.run.Going? && c.f.state.ResFirstStatusCode? && Room(c.f, 1) && IsNum(ch)
    ensures OnByte(hc, c, ch)
            == Reached(c, c.f.(statusCode := Unhex(ch), state := ResStatusCode, nread := c.f.nread + 1), c.log, 1)
  {
    hide Push, Dispatch, RequestSwitch, HeaderSwitch, BodySwitch, DeadArm, StartReqOrResArm, ResOrRespHArm,
      StartResArm, Expect, FirstMajorArm, MajorArm, FirstMinorArm, ResMinorArm, StatusCodeArm, StatusArm,
      ResLineAlmostDoneArm;
    OnByteSwitch(hc, c, ch);
  }

  lemma CodeNext(hc: Fields -> int, c: Conf, ch: byte)
    requires c.run.Going? && c.f.state.ResStatusCode? && Room(c.f, 1) && IsNum(ch) && c.f.statusCode <= 999
    ensures var n, d := 10 * c.f.statusCode + Unhex(ch), OnByte(hc, c, ch);
            if n > 999 then d.run.Failed? && d.f.errno == InvalidStatus
            else d == Reached(c, c.f.(statusCode := n, nread := c.f.nread + 1), c.log, 1)
  {
    hide Push, Dispatch, RequestSwitch, HeaderSwitch, BodySwitch, DeadArm, StartReqOrResArm, ResOrRespHArm,
      StartResArm, Expect, FirstMajorArm, MajorArm, FirstMinorArm, ResMinorArm, FirstStatusArm, StatusArm,
      ResLineAlmostDoneArm;
    OnByteSwitch(hc, c, ch);
  }

  /** What the digits of a status code leave behind. */
  ghost predicate CodeRead(c: Conf, s: seq<byte>, d: Conf) {
    && (d.run.Going? <==> Value(10, s) <= 999)
    && (d.run.Going? ==>
          d == Reached(c, c.f.(statusCode := Value(10, s), state := ResStatusCode, nread := c.f.nread + |s|),
                       c.log, |s|))
    && (!d.run.Going? ==> d.run.Failed? && d.f.errno == InvalidStatus)
  }

  lemma CodeReadNext(hc: Fields -> int, c: Conf, init: seq<byte>, d: Conf, last: byte)
    requires CodeRead(c, init, d) && IsNum(last) && Room(c.f, |init| + 1)
    ensures CodeRead(c, init + [last], if d.run.Going? then OnByte(hc, d, last) else d)
  {
    hide OnByte, Unhex, IsNum, Value;
    CodeValue(init, last);
    if d.run.Going? {
      CodeNext(hc, d, last);
    }
  }

  lemma CodeValue(init: seq<byte>, last: byte)
    requires IsNum(last)
    ensures Value(10, init + [last]) == 10 * Value(10, init) + Unhex(last) >= Value(10, init)
    ensures Value(10, [last]) == Unhex(last) <= 999
  {
    hide IsNum, Unhex;
    DigitValue(last);
    assert (init + [last])[..|init|] == init;
    assert [last][..0] == [] && Value(10, []) == 0;
  }

  /** A status code is read right if and only if it is at most 999; otherwise it is refused. */
  lemma {:induction false} CodeRecognised(hc: Fields -> int, c: Conf, s: seq<byte>)
    requires c.run.Going? && c.f.state.ResFirstStatusCode? && Room(c.f, |s|) && s != [] && AllDigits(s)
    ensures CodeRead(c, s, Feed(hc, c, s))
    decreases |s|
  {
    hide OnByte, Unhex, IsNum, Value, Feed;
    var init, last := s[..|s| - 1], s[|s| - 1];
    assert s == init + [last] && last in s;
    CodeValue(init, last);
    if init == [] {
      assert s == [last];
      FeedOne(hc, c, last);
      CodeFirst(hc, c, last);
    } else {
      assert forall b <- init :: b in s;
      CodeRecognised(hc, c, init);
      var d := Feed(hc, c, init);
      FeedConcat(hc, c, init, [last]);
      FeedOne(hc, d, last);
      CodeReadNext(hc, c, init, d, last);
      if !d.run.Going? {
        FeedStopped(hc, d, [last]);
      }
    }
  }

  lemma DigitValue(ch: byte)
    requires IsNum(ch)
    ensures 0 <= Unhex(ch) <= 9
  {
  }

  // ---- the reason phrase ---------------------------------------------------------------

  lemma ReasonByte(hc: Fields -> int, c: Conf, ch: byte)
    requires c.run.Going? && c.f.state.ResStatus? && Room(c.f, 1) && ch != CR && ch != LF
    ensures OnByte(hc, c, ch) == Reached(c, c.f.(nread := c.f.nread + 1), c.log, 1)
  {
    hide Push, Dispatch, RequestSwitch, HeaderSwitch, BodySwitch, DeadArm, StartReqOrResArm, ResOrRespHArm,
      StartResArm, Expect, FirstMajorArm, MajorArm, FirstMinorArm, ResMinorArm, FirstStatusArm, StatusCodeArm,
      ResLineAlmostDoneArm;
    OnByteSwitch(hc, c, ch);
  }

  lemma {:induction false} ReasonRun(hc: Fields -> int, c: Conf, s: seq<byte>)
    requires c.run.Going? && c.f.state.ResStatus? && Room(c.f, |s|) && CR !in s && LF !in s
    ensures Feed(hc, c, s) == Reached(c, c.f.(nread := c.f.nread + |s|), c.log, |s|)
    decreases |s|
  {
    hide OnByte;
    if s == [] {
      FeedNothing(hc, c);
    } else {
      var init, last := s[..|s| - 1], s[|s| - 1];
      ReasonRun(hc, c, init);
      assert s == init + [last] && last in s;
      FeedSnoc(hc, c, init, last);
      ReasonByte(hc, Feed(hc, c, init), last);
    }
  }

  lemma CodeEnd(hc: Fields -> int, c: Conf)
    requires c.run.Going? && c.f.state.ResStatusCode? && Room(c.f, 1)
    ensures OnByte(hc, c, SP) == Reached(c, c.f.(state := ResStatus, nread := c.f.nread + 1), c.log, 1)
  {
    hide Push, Dispatch, RequestSwitch, HeaderSwitch, BodySwitch, DeadArm, StartReqOrResArm, ResOrRespHArm,
      StartResArm, Expect, FirstMajorArm, MajorArm, FirstMinorArm, ResMinorArm, FirstStatusArm, StatusArm,
      ResLineAlmostDoneArm;
    OnByteSwitch(hc, c, SP);
  }

  lemma StatusCr(hc: Fields -> int, c: Conf)
    requires c.run.Going? && (c.f.state.ResStatus? || c.f.state.ResStatusCode?) && Room(c.f, 1)
    ensures OnByte(hc, c, CR) == Reached(c, c.f.(state := ResLineAlmostDone, nread := c.f.nread + 1), c.log, 1)
  {
    hide Push, Dispatch, RequestSwitch, HeaderSwitch, BodySwitch, DeadArm, StartReqOrResArm, ResOrRespHArm,
      StartResArm, Expect, FirstMajorArm, MajorArm, FirstMinorArm, ResMinorArm, FirstStatusArm, ResLineAlmostDoneArm;
    OnByteSwitch(hc, c, CR);
  }

  lemma StatusLf(hc: Fields -> int, c: Conf)
    requires c.run.Going? && c.f.state.ResLineAlmostDone? && Room(c.f, 1)
    ensures OnByte(hc, c, LF)
         == Reached(c, c.f.(state := HeaderFieldStart, nread := c.f.nread + 1), Push(c.log, Notice(StatusComplete)), 1)
  {
    hide Push, Dispatch, RequestSwitch, HeaderSwitch, BodySwitch, DeadArm, StartReqOrResArm, ResOrRespHArm,
      StartResArm, Expect, FirstMajorArm, MajorArm, FirstMinorArm, ResMinorArm, FirstStatusArm, StatusCodeArm,
      StatusArm;
    OnByteSwitch(hc, c, LF);
  }

  lemma StatusLineEnd(hc: Fields -> int, c: Conf)
    requires c.run.Going? && (c.f.state.ResStatus? || c.f.state.ResStatusCode?) && Room(c.f, 2)
    ensures Feed(hc, c, [13, 10])
         == Reached(c, c.f.(state := HeaderFieldStart, nread := c.f.nread + 2), Push(c.log, Notice(StatusComplete)), 2)
  {
    hide OnByte, Push, Feed;
    assert [13] + [10] == [13, 10];
    FeedCons(hc, c, 13, [10]);
    StatusCr(hc, c);
    FeedOne(hc, OnByte(hc, c, 13), 10);
    StatusLf(hc, OnByte(hc, c, 13));
  }

  /** What follows the code: nothing, or a space and a reason phrase. */
  function ReasonText(reason: Option<seq<byte>>): seq<byte> {
    match reason
    case None => []
    case Some(s) => [SP] + s
  }

  lemma ReasonPart(hc: Fields -> int, c: Conf, reason: Option<seq<byte>>)
    requires c.run.Going? && c.f.state.ResStatusCode? && Room(c.f, |ReasonText(reason)|)
    requires CR !in ReasonText(reason) && LF !in ReasonText(reason)
    ensures var n := |ReasonText(reason)|;
            Feed(hc, c, ReasonText(reason))
            == Reached(c, c.f.(state := if reason.Some? then ResStatus else ResStatusCode, nread := c.f.nread + n),
                       c.log, n)
  {
    hide OnByte, Feed;
    match reason {
      case None =>
        FeedNothing(hc, c);
      case Some(s) =>
        assert forall b <- s :: b in [SP] + s;
        FeedCons(hc, c, SP, s);
        CodeEnd(hc, c);
        ReasonRun(hc, OnByte(hc, c, SP), s);
    }
  }

  function StatusLine(code: seq<byte>, reason: Option<seq<byte>>): seq<byte> {
    StatusVersion(STATUS_BYTES) + (code + (ReasonText(reason) + [13, 10]))
  }

  predicate GoodStatus(code: seq<byte>, reason: Option<seq<byte>>) {
    code != [] && AllDigits(code) && Value(10, code) <= 999 && CR !in ReasonText(reason) && LF !in ReasonText(reason)
  }

  /** A status line of HTTP version 1.1. */
  lemma StatusLineRun(hc: Fields -> int, c: Conf, code: seq<byte>, reason: Option<seq<byte>>)
    requires c.run.Going? && c.f.state.StartRes? && GoodStatus(code, reason) && Room(c.f, |StatusLine(code, reason)|)
    ensures var n := |StatusLine(code, reason)|;
            Feed(hc, c, StatusLine(code, reason))
            == Reached(c, Fresh(c.f).(statusCode := Value(10, code), state := HeaderFieldStart, httpMajor := 1,
                                      httpMinor := 1,
                                      nread := c.f.nread + n),
                       Push(Push(c.log, Notice(MessageBegin)), Notice(StatusComplete)), n)
  {
    hide OnByte, Feed, Push, Value, StatusVersion, AllDigits, ReasonText;
    var end := ReasonText(reason) + [13, 10];
    var c1 := StatusConf(c, STATUS_BYTES);
    StatusVersionRun(hc, c, STATUS_BYTES);
    FeedConcat(hc, c, StatusVersion(STATUS_BYTES), code + end);
    CodeRecognised(hc, c1, code);
    FeedConcat(hc, c1, code, end);
    var c2 := Feed(hc, c1, code);
    FeedConcat(hc, c2, ReasonText(reason), [13, 10]);
    ReasonPart(hc, c2, reason);
    StatusLineEnd(hc, Feed(hc, c2, ReasonText(reason)));
  }

  // ---- whole responses -----------------------------------------------------------------

  datatype Response = Response(code: seq<byte>, reason: Option<seq<byte>>, headers: seq<Header>, framing: Framing)

  /** A well-formed response up to the empty line after its headers. */
  predicate HeadedResponse(r: Response) { GoodStatus(r.code, r.reason) && forall h <- r.headers :: Lawful(h) }

  /** A well-formed response that HTTP follows. */
  predicate GoodResponse(r: Response) {
    HeadedResponse(r) && !AnyUpgrades(r.headers) && GoodFraming(r.framing) && Announced(r.headers, r.framing)
  }

  /** The connection is closed after this response. */
  predicate LastResponse(r: Response) { AnyCloses(r.headers) }

  /** RFC 7230, section 3.3.3: statuses of which a response has no body. */
  predicate Bodyless(code: nat) { code / 100 == 1 || code == 204 || code == 304 }

  /** The body lasts until the connection is closed. */
  predicate UntilEof(r: Response) { r.framing.Unframed? && !Bodyless(Value(10, r.code)) }

  function ResponseHead(r: Response): seq<byte> { StatusLine(r.code, r.reason) + Lines(r.headers) + [13, 10] }

  function ResponseText(r: Response): seq<byte> { ResponseHead(r) + BodyText(r.framing) }

  function ResponseHeadEvents(r: Response): HttpLog {
    [Notice(MessageBegin), Notice(StatusComplete)] + HeadersEvents(r.headers)
  }

  function ResponseEvents(r: Response): HttpLog {
    ResponseHeadEvents(r) + [Notice(HeadersComplete)] + if UntilEof(r) then [] else BodyEvents(r.framing)
  }

  /** Ready for a response. */
  predicate Awaiting(f: Fields) { f.state.StartRes? && f.typ.Response? && f.verb != CONNECT_METHOD }

  /** The fields at the end of the headers of `r`. */
  predicate HeadRead(f: Fields, r: Response) {
    && f.typ.Response? && f.verb != CONNECT_METHOD && f.httpMajor == 1 && f.httpMinor == 1
    && f.statusCode == Value(10, r.code) && HeadersRead(f, r.headers)
  }

  /** http_message_needs_eof, in terms of the response. */
  lemma HeadMeans(f: Fields, r: Response)
    requires HeadRead(f, r) && GoodFraming(r.framing) && Announced(r.headers, r.framing)
    ensures NeedsEof(f) <==> UntilEof(r)
    ensures UntilEof(r) ==> BodyState(f).BodyIdentityEof? && !NoBody(f)
  {
    hide Value, AnyChunks, AnyCloses, AnyUpgrades, LastLength;
  }

  /** What comes after a response: nothing, if the connection is closed, or the next one. */
  predicate Onward(f: Fields, r: Response) { if LastResponse(r) then f.state.Dead? else Awaiting(f) }

  lemma BodyOver(f: Fields, g: Fields, r: Response)
    requires HeadRead(f, r) && !UntilEof(r)
    requires SameMessage(f, g) && Over(g) && if r.framing.Unframed? then !NeedsEof(g) else g.contentLength == 0
    ensures Onward(g, r)
  {
    hide Value, AnyCloses;
  }

  lemma StatusNotices(log: HttpLog)
    ensures Push(Push(log, Notice(MessageBegin)), Notice(StatusComplete))
            == log + [Notice(MessageBegin), Notice(StatusComplete)]
  {
  }

  /** A response up to the empty line after its headers. */
  lemma ResponseHeadRun(hc: Fields -> int, c: Conf, r: Response)
    requires c.run.Going? && Awaiting(c.f) && HeadedResponse(r) && Room(c.f, |ResponseHead(r)|)
    ensures var s := StatusLine(r.code, r.reason) + Lines(r.headers);
            var d := Feed(hc, c, s);
            && d == Reached(c, d.f, c.log + ResponseHeadEvents(r), |s|)
            && AtLine(d.f.state) && Room(d.f, 2) && HeadRead(d.f, r)
  {
    hide Feed, Push, OnByte, StatusLine, Lines, HeadersEvents, Lawful, AnyChunks, AnyCloses, AnyUpgrades, LastLength,
      Value, GoodStatus;
    var l, a := StatusLine(r.code, r.reason), Lines(r.headers);
    FeedConcat(hc, c, l, a);
    StatusLineRun(hc, c, r.code, r.reason);
    StatusNotices(c.log);
    HeadersRun(hc, Feed(hc, c, l), r.headers);
    Regrouped(c.log, [Notice(MessageBegin), Notice(StatusComplete)], HeadersEvents(r.headers));
  }

  /**
    One response.  A status without a body ends with the headers, unless these announce one all the same;
    without a length every other response lasts until EOF.
   */
  lemma ResponseRun(hc: Fields -> int, c: Conf, r: Response)
    requires c.run.Going? && Awaiting(c.f) && GoodResponse(r) && Room(c.f, |ResponseHead(r)|) && Accepting(hc)
    ensures var d := Feed(hc, c, ResponseText(r));
            && d == Reached(c, d.f, c.log + ResponseEvents(r), |ResponseText(r)|)
            && d.f.statusCode == Value(10, r.code)
            && if UntilEof(r) then d.f.state.BodyIdentityEof?
               else Onward(d.f, r) && d.f.nread == Leftover(r.framing)
  {
    hide Feed, Push, OnByte, StatusLine, Lines, HeadersEvents, Lawful, AnyChunks, AnyCloses, AnyUpgrades, LastLength,
      BodyEvents, BodyText, ResponseHeadEvents, GoodFraming, Value, GoodStatus, NeedsEof, NoBody, BodyState, UntilEof,
      Awaiting, Onward, NewMessage, LastResponse;
    var s := StatusLine(r.code, r.reason) + Lines(r.headers);
    FeedConcat(hc, c, ResponseHead(r), BodyText(r.framing));
    FeedConcat(hc, c, s, [13, 10]);
    ResponseHeadRun(hc, c, r);
    var d := Feed(hc, c, s);
    HeadersEnd(hc, d);
    var e := Feed(hc, c, ResponseHead(r));
    HeadMeans(d.f, r);
    if UntilEof(r) {
      NoText(r);
      FeedNothing(hc, e);
      assert ResponseEvents(r) == ResponseHeadEvents(r) + [Notice(HeadersComplete)];
      assert c.log + ResponseHeadEvents(r) + [Notice(HeadersComplete)]
             == c.log + (ResponseHeadEvents(r) + [Notice(HeadersComplete)]);
    } else {
      BodyRun(hc, d, e, r.headers, r.framing);
      StillNoEof(d.f, e.f);
      BodyOver(d.f, Feed(hc, e, BodyText(r.framing)).f, r);
      assert c.log + ResponseHeadEvents(r) + [Notice(HeadersComplete)] + BodyEvents(r.framing)
          == c.log + (ResponseHeadEvents(r) + [Notice(HeadersComplete)] + BodyEvents(r.framing));
    }
  }

  lemma NoText(r: Response)
    requires UntilEof(r)
    ensures BodyText(r.framing) == []
  {
  }

  lemma StillNoEof(f: Fields, g: Fields)
    requires g == f.(state := g.state, upgrade := g.upgrade, nread := g.nread)
    ensures NeedsEof(g) == NeedsEof(f)
  {
  }

  /**
    RFC 7230, section 3.3.3, ends a response of these statuses with its empty line.  The machine does so if
    and only if the headers announce no chunks and no bytes.
   */
  lemma BodylessComplete(hc: Fields -> int, c: Conf, r: Response)
    requires c.run.Going? && Awaiting(c.f) && GoodResponse(r) && Room(c.f, |ResponseHead(r)|) && Accepting(hc)
    requires Bodyless(Value(10, r.code))
    ensures var d := Feed(hc, c, ResponseHead(r));
            && d.run.Going? && d.log != []
            && (d.log[|d.log| - 1] == Notice(MessageComplete)
                <==> r.framing.Unframed? || (r.framing.Sized? && r.framing.body == []))
  {
    hide Feed, Push, OnByte, StatusLine, Lines, HeadersEvents, Lawful, AnyChunks, AnyCloses, AnyUpgrades, LastLength,
      ResponseHeadEvents, GoodFraming, Value, GoodStatus, NeedsEof, Bodyless, BodyState;
    var s := StatusLine(r.code, r.reason) + Lines(r.headers);
    FeedConcat(hc, c, s, [13, 10]);
    ResponseHeadRun(hc, c, r);
    HeadMeans(Feed(hc, c, s).f, r);
    HeadersEnd(hc, Feed(hc, c, s));
    SizeFits(r.framing);
  }

  lemma SizeFits(fr: Framing)
    requires GoodFraming(fr)
    ensures fr.Sized? ==> |fr.body| < UINT32_MAX
  {
    hide Value, DecimalValue;
  }

  function FiveBytes(): Header { Header(Text("content-length"), [SP], Text("5"), [CR, LF]) }

  /** A 304 response with five bytes announced. */
  function NotModified(body: seq<byte>): Response {
    Response.Response(Text("304"), None, [FiveBytes()], Sized(body))
  }

  /** It is not complete at its empty line: the next five bytes are taken for its body. */
  lemma NotModifiedHasBody(hc: Fields -> int, c: Conf, body: seq<byte>)
    requires c.run.Going? && Awaiting(c.f) && Room(c.f, |ResponseHead(NotModified(body))|) && Accepting(hc)
             && |body| == 5
    ensures var r := NotModified(body);
            var d := Feed(hc, c, ResponseHead(r));
            && GoodResponse(r) && Bodyless(Value(10, r.code))
            && d.log != [] && d.log[|d.log| - 1] != Notice(MessageComplete)
            && Feed(hc, c, ResponseText(r)).log
               == c.log + ResponseHeadEvents(r) + [Notice(HeadersComplete), Body(body), Notice(MessageComplete)]
  {
    hide Feed, OnByte, ResponseHead, ResponseText, ResponseHeadEvents, GoodStatus, GoodFraming, Value, Text, Bodyless;
    var r := NotModified(body);
    NotModifiedGood(body);
    BodylessComplete(hc, c, r);
    ResponseRun(hc, c, r);
    assert ResponseHeadEvents(r) + [Notice(HeadersComplete)] + [Body(body), Notice(MessageComplete)]
        == ResponseHeadEvents(r) + [Notice(HeadersComplete), Body(body), Notice(MessageComplete)];
  }

  lemma NotModifiedGood(body: seq<byte>)
    requires |body| == 5
    ensures GoodResponse(NotModified(body)) && Bodyless(Value(10, Text("304")))
  {
    hide Value, EqualFold, TokenString, IsNum, Lawful, LastLength, AnyChunks, AnyUpgrades, Text;
    Digits304();
    FiveBytesLawful();
    OneHeader(FiveBytes());
  }

  lemma FiveBytesLawful()
    ensures var h := FiveBytes(); Lawful(h) && IsLength(h) && Value(10, h.value) == 5 && !IsCoding(h) && !IsUpgrade(h)
    ensures FiveBytes().value != []
  {
    hide Value, EqualFold, TokenString, IsNum;
    Digits5();
    LengthName();
    NamesDiffer(Text("content-length"));
  }

  /** A list of one Content-Length. */
  lemma OneHeader(h: Header)
    requires Lawful(h) && IsLength(h) && h.value != [] && !IsCoding(h) && !IsUpgrade(h)
    ensures LastLength([h]) == Some(Value(10, h.value)) && !AnyChunks([h]) && !AnyUpgrades([h])
  {
    hide Value, EqualFold, TokenString, PlainValue, DecimalValue;
  }

  lemma Digits304()
    ensures AllDigits(Text("304")) && Value(10, Text("304")) == 304
  {
    var s := Text("304");
    assert s[..2][..1] == s[..1] && s[..1][..0] == [];
    assert Value(10, s[..1]) == 3;
    assert Value(10, s[..2]) == 30;
  }

  lemma Digits5()
    ensures DecimalValue(Text("5")) && Value(10, Text("5")) == 5
  {
    assert Text("5")[..0] == [];
  }

  lemma LengthName()
    ensures TokenString(Text("content-length")) && EqualFold(Text("content-length"), "content-length")
  {
    hide Text, TokenString, EqualFold;
    PatternsLowerCase(MatchingContentLength);
    ConstantName("content-length");
  }

  /** A constant is a token and is itself. */
  lemma ConstantName(x: string)
    requires LowerCase(x) && x != []
    ensures TokenString(Text(x)) && EqualFold(Text(x), x)
  {
    hide Text, Token;
    forall i | 0 <= i < |x|
      ensures Token(Text(x)[i]) != 0 && SameFold(Text(x)[i], x[i])
    {
      ConstantByte(x[i]);
    }
  }

  lemma ConstantByte(ch: char)
    requires 'a' <= ch <= 'z' || ch == '-'
    ensures var b := ch as int % 256; Token(b) != 0 && SameFold(b, ch)
  {
  }

  // ---- responses whose body the application skips ------------------------------------------

  /** on_headers_complete returns 1, as a client does after a HEAD request. */
  ghost predicate Skipping(hc: Fields -> int) { forall g :: hc(g) == 1 }

  function Skipped(f: Fields): Fields { f.(flags := f.flags.(skipBody := true), upgrade := false) }

  lemma HeadersDoneSkipped(hc: Fields -> int, f: Fields, log: HttpLog)
    requires f.state.HeadersDone? && !f.upgrade && f.flags.skipBody
    ensures Dispatch(hc, f, log, LF)
            == Byte(f.(state := NewMessage(f), nread := 0), Push(log, Notice(MessageComplete)), Next)
  {
    hide Push, StartSwitch, RequestSwitch, BodySwitch, FieldStartArm, FieldArm, ValueStartArm, ValueArm,
      HeaderAlmostDoneArm, LwsArm, HeadersAlmostDoneArm;
    DispatchSwitch(hc, f, log, LF);
  }

  lemma EmptyLineSkipped(hc: Fields -> int, c: Conf)
    requires c.run.Going? && c.f.state.HeadersAlmostDone? && Room(c.f, 1) && Skipping(hc)
    requires !c.f.flags.trailing && !c.f.flags.upgrade && c.f.verb != CONNECT_METHOD
    ensures OnByte(hc, c, LF)
         == Reached(c, Skipped(c.f).(state := NewMessage(Skipped(c.f)), nread := 0),
                    Push(Push(c.log, Notice(HeadersComplete)), Notice(MessageComplete)), 1)
  {
    hide Push, Dispatch, StartSwitch, RequestSwitch, BodySwitch, FieldStartArm, FieldArm, ValueStartArm, ValueArm,
      HeaderAlmostDoneArm, LwsArm, HeadersDoneArm;
    OnByteSwitch(hc, c, LF);
    HeadersDoneSkipped(hc, Skipped(Count(c.f)).(state := HeadersDone), Push(c.log, Notice(HeadersComplete)));
  }

  /** Whatever the headers announce, the message is complete with its empty line. */
  lemma HeadersEndSkipped(hc: Fields -> int, c: Conf)
    requires c.run.Going? && AtLine(c.f.state) && Room(c.f, 2) && Skipping(hc)
    requires !c.f.flags.trailing && !c.f.flags.upgrade && c.f.verb != CONNECT_METHOD
    ensures Feed(hc, c, [13, 10])
         == Reached(c, Skipped(c.f).(state := NewMessage(Skipped(c.f)), nread := 0),
                    c.log + [Notice(HeadersComplete), Notice(MessageComplete)], 2)
  {
    hide Push, OnByte, Feed;
    assert [13] + [10] == [13, 10];
    FeedCons(hc, c, 13, [10]);
    EmptyLineFirst(hc, c);
    FeedOne(hc, OnByte(hc, c, 13), 10);
    EmptyLineSkipped(hc, OnByte(hc, c, 13));
    PushNotices(c.log);
  }

  /** A response without its body, as it answers HEAD: whatever its headers announce. */
  lemma SkippedRun(hc: Fields -> int, c: Conf, r: Response)
    requires c.run.Going? && Awaiting(c.f) && HeadedResponse(r) && !AnyUpgrades(r.headers)
             && Room(c.f, |ResponseHead(r)|) && Skipping(hc)
    ensures var d := Feed(hc, c, ResponseHead(r));
            && d == Reached(c, d.f, c.log + ResponseHeadEvents(r) + [Notice(HeadersComplete), Notice(MessageComplete)],
                            |ResponseHead(r)|)
            && Onward(d.f, r) && d.f.nread == 0
  {
    hide Feed, Push, OnByte, StatusLine, Lines, HeadersEvents, Lawful, AnyChunks, AnyCloses, AnyUpgrades, LastLength,
      ResponseHeadEvents, GoodFraming, Value, GoodStatus;
    var s := StatusLine(r.code, r.reason) + Lines(r.headers);
    FeedConcat(hc, c, s, [13, 10]);
    ResponseHeadRun(hc, c, r);
    HeadersEndSkipped(hc, Feed(hc, c, s));
  }

  // ---- responses that leave HTTP -----------------------------------------------------------

  /** A response that upgrades: whatever follows its headers is not consumed. */
  lemma LeavingResponse(hc: Fields -> int, c: Conf, r: Response, tail: seq<byte>)
    requires c.run.Going? && Awaiting(c.f) && HeadedResponse(r) && AnyUpgrades(r.headers)
    requires Room(c.f, |ResponseHead(r)|) && Accepting(hc)
    ensures var d := Feed(hc, c, ResponseHead(r) + tail);
            && d.run.Exited? && d.used == c.used + |ResponseHead(r)| && d.f.upgrade
            && d.log == c.log + ResponseHeadEvents(r) + [Notice(HeadersComplete), Notice(MessageComplete)]
  {
    hide Feed, OnByte, StatusLine, Lines, Lawful, AnyChunks, AnyCloses, AnyUpgrades, LastLength, ResponseHeadEvents,
      Value, GoodStatus, AtLine;
    var s := StatusLine(r.code, r.reason) + Lines(r.headers);
    FeedConcat(hc, c, ResponseHead(r), tail);
    FeedConcat(hc, c, s, [13, 10]);
    ResponseHeadRun(hc, c, r);
    HeadersLeave(hc, Feed(hc, c, s));
    FeedStopped(hc, Feed(hc, c, ResponseHead(r)), tail);
  }

  // ---- the responses of a connection ---------------------------------------------------------

  function ResponsesText(rs: seq<Response>): seq<byte> {
    if rs == [] then [] else ResponseText(rs[0]) + ResponsesText(rs[1..])
  }

  function ResponsesEvents(rs: seq<Response>): HttpLog {
    if rs == [] then [] else ResponseEvents(rs[0]) + ResponsesEvents(rs[1..])
  }

  /** Responses on one connection; only the last may last until EOF, or close it. */
  ghost predicate GoodResponses(rs: seq<Response>, used: nat) {
    rs == [] || (GoodResponse(rs[0]) && used + |ResponseHead(rs[0])| <= MAX_HEADER_SIZE
                 && (UntilEof(rs[0]) || LastResponse(rs[0]) ==> |rs| == 1)
                 && GoodResponses(rs[1..], Leftover(rs[0].framing)))
  }

  /** The responses of a connection are told apart. */
  lemma {:induction false} ResponsesRun(hc: Fields -> int, c: Conf, rs: seq<Response>)
    requires c.run.Going? && Awaiting(c.f) && GoodResponses(rs, c.f.nread) && Accepting(hc)
    ensures var d := Feed(hc, c, ResponsesText(rs));
            && d == Reached(c, d.f, c.log + ResponsesEvents(rs), |ResponsesText(rs)|)
            && (if rs == [] then Awaiting(d.f)
                else if UntilEof(rs[|rs| - 1]) then d.f.state.BodyIdentityEof?
                else Onward(d.f, rs[|rs| - 1]))
    decreases |rs|
  {
    hide Feed, Push, OnByte, ResponseText, ResponseEvents, ResponseHead, GoodResponse, Leftover, UntilEof, LastResponse;
    if rs == [] {
      FeedNothing(hc, c);
      assert c.log + [] == c.log;
    } else {
      var text, rest := ResponseText(rs[0]), ResponsesText(rs[1..]);
      FeedConcat(hc, c, text, rest);
      ResponseRun(hc, c, rs[0]);
      var d := Feed(hc, c, text);
      if UntilEof(rs[0]) || LastResponse(rs[0]) {
        assert rs[1..] == [];
        FeedNothing(hc, d);
        assert rest == [] && ResponsesEvents(rs) == ResponseEvents(rs[0]) + [] == ResponseEvents(rs[0]);
      } else {
        ResponsesRun(hc, d, rs[1..]);
        assert c.log + ResponseEvents(rs[0]) + ResponsesEvents(rs[1..]) == c.log + ResponsesEvents(rs);
      }
    }
  }

  /**
    The responses of a connection, cut into buffers in any way, and its end: the parser makes exactly
    their callbacks, takes what follows a response without a length as its body, and completes that one
    at EOF.
   */
  method ParseResponses(parser: HttpParser, parts: seq<seq<byte>>, ghost rs: seq<Response>, ghost tail: seq<byte>)
    returns (used: nat)
    requires parser.Valid() && parser.f.errno.OK? && Awaiting(parser.f) && Accepting(parser.hc)
    requires rs != [] && GoodResponses(rs, parser.f.nread) && UntilEof(rs[|rs| - 1])
    requires Flatten(parts) == ResponsesText(rs) + tail && [] !in parts
    modifies parser
    ensures parser.Valid() && parser.f.errno.OK? && used == |ResponsesText(rs) + tail|
    ensures Merged(parser.log) == old(Merged(parser.log)) + ResponsesEvents(rs)
                                  + (if tail == [] then [] else [Body(tail)]) + [Notice(MessageComplete)]
  {
    hide Feed, OnByte, Merged, PushAll, GoodResponses, ResponsesText, ResponsesEvents, UntilEof, Push;
    ghost var hc, start := parser.hc, parser.Now();
    ResponsesRun(hc, start, rs);
    ghost var d := Feed(hc, start, ResponsesText(rs));
    FeedConcat(hc, start, ResponsesText(rs), tail);
    EndsWithHeaders(rs, parser.f.nread);
    TailRun(hc, d, tail, start.log, ResponsesEvents(rs));
    ghost var lost;
    used, lost := ExecuteAll(parser, parts);
    PushAllNothing(Merged(parser.log));
    MergedSnoc(parser.log, Notice(MessageComplete));
    PushNotices(Merged(parser.log));
    var n;
    n, lost := parser.Execute([]);
  }

  /** What follows the headers of a response without a length. */
  lemma TailRun(hc: Fields -> int, d: Conf, tail: seq<byte>, log: HttpLog, es: HttpLog)
    requires d.run.Going? && d.f.state.BodyIdentityEof? && d.log == log + es
    requires es != [] && es[|es| - 1] == Notice(HeadersComplete)
    ensures Feed(hc, d, tail) == Reached(d, d.f, log + es + (if tail == [] then [] else [Body(tail)]), |tail|)
  {
    hide OnByte, Push, Feed;
    if tail == [] {
      FeedNothing(hc, d);
      assert log + es + [] == log + es;
    } else {
      EofRun(hc, d, tail);
      PushClosed(d.log, KBody, tail);
    }
  }

  lemma {:induction false} EndsWithHeaders(rs: seq<Response>, used: nat)
    requires rs != [] && GoodResponses(rs, used) && UntilEof(rs[|rs| - 1])
    ensures ResponsesEvents(rs) != [] && ResponsesEvents(rs)[|ResponsesEvents(rs)| - 1] == Notice(HeadersComplete)
    decreases |rs|
  {
    hide ResponseHeadEvents, BodyEvents, GoodResponse, UntilEof, ResponseHead, Leftover, LastResponse;
    if |rs| == 1 {
      assert rs[1..] == [] && ResponsesEvents(rs) == ResponseEvents(rs[0]) + [];
      LastEvent(rs[0]);
    } else {
      EndsWithHeaders(rs[1..], Leftover(rs[0].framing));
    }
  }

  lemma LastEvent(r: Response)
    requires UntilEof(r)
    ensures var es := ResponseEvents(r); es != [] && es[|es| - 1] == Notice(HeadersComplete)
  {
    hide ResponseHeadEvents;
  }
}
