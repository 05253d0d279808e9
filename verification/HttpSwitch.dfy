/**
  The switch inside http_parser_execute, one pass over one byte.  Each case says which fields change,
  whether a mark is set at the byte, which callback is made, and how control leaves the switch.
  The three cases that swallow a whole run of body bytes are in HttpParser.Execute itself.
 */
module HttpSwitch {
  import opened Common
  import opened HttpTypes

  /** `break`, `goto reexecute_byte`, `goto error`, and the return after an upgrade. */
  datatype Go = Next | Again | Stop | Exit

  datatype Call = NoCall | DataCall(kind: Kind) | NoteCall(note: Note)

  datatype Arm = Arm(f: Fields, mark: Option<Kind>, call: Call, go: Go)

  function Keep(f: Fields): Arm { Arm(f, None, NoCall, Next) }

  function To(f: Fields, s: State): Arm { Keep(f.(state := s)) }

  function ToAgain(f: Fields, s: State): Arm { Arm(f.(state := s), None, NoCall, Again) }

  function Fail(f: Fields, e: Errno): Arm { Arm(f.(errno := e), None, NoCall, Stop) }

  function Notify(f: Fields, n: Note): Arm { Arm(f, None, NoteCall(n), Next) }

  /** CALLBACK_DATA, leaving the state given. */
  function Close(f: Fields, s: State, k: Kind): Arm { Arm(f.(state := s), None, DataCall(k), Next) }

  /** STRICT_CHECK(ch != want) */
  function Expect(f: Fields, ch: byte, want: byte, s: State): Arm {
    if ch != want then Fail(f, Strict) else To(f, s)
  }

  function U16(x: nat): u16 { x % 0x1_0000 }

  function U32(x: nat): u32 { x % 0x1_0000_0000 }

  function NextIndex(f: Fields): byte { if f.index == 255 then 0 else f.index + 1 }

  function Digit(ch: byte): nat
    requires IsNum(ch)
  {
    ch - '0' as int
  }

  // ---- start states ----------------------------------------------------------------

  function Fresh(f: Fields): Fields { f.(flags := NO_FLAGS, contentLength := UINT32_MAX) }

  function DeadArm(f: Fields, ch: byte): Arm {
    if ch == CR || ch == LF then Keep(f) else Fail(f, ClosedConnection)
  }

  function StartReqOrResArm(f: Fields, ch: byte): Arm {
    if ch == CR || ch == LF then Keep(f)
    else if ch == 'H' as int then Notify(Fresh(f).(state := ResOrRespH), MessageBegin)
    else ToAgain(Fresh(f).(typ := Request), StartReq)
  }

  function ResOrRespHArm(f: Fields, ch: byte): Arm {
    if ch == 'T' as int then To(f.(typ := Response), ResHT)
    else if ch != 'E' as int then Fail(f, InvalidConstant)
    else To(f.(typ := Request, verb := HEAD_METHOD, index := 2), ReqMethod)
  }

  /** on_message_begin is also called for the line ends that may precede a response. */
  function StartResArm(f: Fields, ch: byte): Arm {
    if ch == 'H' as int then Notify(Fresh(f).(state := ResH), MessageBegin)
    else if ch == CR || ch == LF then Notify(Fresh(f), MessageBegin)
    else Fail(Fresh(f), InvalidConstant)
  }

  /** The method guessed from the first letter. */
  function FirstMethod(ch: byte): Option<nat> {
    if ch == 'C' as int then Some(CONNECT_METHOD)
    else if ch == 'D' as int then Some(0)
    else if ch == 'G' as int then Some(1)
    else if ch == 'H' as int then Some(HEAD_METHOD)
    else if ch == 'L' as int then Some(9)
    else if ch == 'M' as int then Some(MKCOL_METHOD)
    else if ch == 'N' as int then Some(21)
    else if ch == 'O' as int then Some(6)
    else if ch == 'P' as int then Some(POST_METHOD)
    else if ch == 'R' as int then Some(16)
    else if ch == 'S' as int then Some(SUBSCRIBE_METHOD)
    else if ch == 'T' as int then Some(7)
    else if ch == 'U' as int then Some(UNLOCK_METHOD)
    else None
  }

  function StartReqArm(f: Fields, ch: byte): Arm {
    if ch == CR || ch == LF then Keep(f)
    else if !IsAlpha(ch) then Fail(Fresh(f), InvalidMethod)
    else
      var m := FirstMethod(ch);
      if m.None? then Fail(Fresh(f).(verb := 0, index := 1), InvalidMethod)
      else Notify(Fresh(f).(verb := m.value, index := 1, state := ReqMethod), MessageBegin)
  }

  // ---- request line ----------------------------------------------------------------

  datatype MethodStep = Done | Same | Become(verb: nat) | Bad(e: Errno)

  /** The case s_req_method; at index 2 any byte is let through. */
  function StepMethod(verb: nat, index: nat, ch: byte): (step: MethodStep)
    ensures step.Bad? ==> !step.e.OK?
  {
    var m := At(MethodString(verb), index);
    if ch == 0 then Bad(InvalidMethod)
    else if ch == SP && m == 0 then Done
    else if ch == m then Same
    else if verb == CONNECT_METHOD then
      if index == 1 && ch == 'H' as int then Become(CHECKOUT_METHOD)
      else if index == 2 && ch == 'P' as int then Become(COPY_METHOD)
      else Bad(Unknown)
    else if verb == MKCOL_METHOD then
      if index == 1 && ch == 'O' as int then Become(MOVE_METHOD)
      else if index == 1 && ch == 'E' as int then Become(MERGE_METHOD)
      else if index == 1 && ch == '-' as int then Become(MSEARCH_METHOD)
      else if index == 2 && ch == 'A' as int then Become(MKACTIVITY_METHOD)
      else Bad(Unknown)
    else if verb == SUBSCRIBE_METHOD then
      if index == 1 && ch == 'E' as int then Become(SEARCH_METHOD) else Bad(Unknown)
    else if index == 1 && verb == POST_METHOD then
      if ch == 'R' as int then Become(PROPFIND_METHOD)
      else if ch == 'U' as int then Become(PUT_METHOD)
      else if ch == 'A' as int then Become(PATCH_METHOD)
      else Bad(Unknown)
    else if index == 2 then
      if verb == PUT_METHOD && ch == 'R' as int then Become(PURGE_METHOD)
      else if verb == UNLOCK_METHOD && ch == 'S' as int then Become(UNSUBSCRIBE_METHOD)
      else Same
    else if index == 4 && verb == PROPFIND_METHOD && ch == 'P' as int then Become(PROPPATCH_METHOD)
    else Bad(InvalidMethod)
  }

  function ReqMethodArm(f: Fields, ch: byte): Arm {
    var g := f.(index := NextIndex(f));
    match StepMethod(f.verb, f.index, ch)
    case Done => To(g, ReqSpacesBeforeUrl)
    case Same => Keep(g)
    case Become(m) => Keep(g.(verb := m))
    case Bad(e) => Fail(f, e)
  }

  /** parse_url_char */
  function UrlChar(s: State, ch: byte): State {
    if ch == SP || ch == CR || ch == LF || ch == HT || ch == FF then Dead
    else if s.ReqSpacesBeforeUrl? then
      if ch == '/' as int || ch == '*' as int then ReqPath else if IsAlpha(ch) then ReqSchema else Dead
    else if s.ReqSchema? then
      if IsAlpha(ch) then ReqSchema else if ch == ':' as int then ReqSchemaSlash else Dead
    else if s.ReqSchemaSlash? then
      if ch == '/' as int then ReqSchemaSlashSlash else Dead
    else if s.ReqSchemaSlashSlash? then
      if ch == '/' as int then ReqServerStart else Dead
    else if s.ReqServerWithAt? && ch == '@' as int then Dead
    else if s.ReqServerWithAt? || s.ReqServerStart? || s.ReqServer? then ServerChar(ch)
    else if s.ReqPath? then
      if IsUrlChar(ch) then ReqPath
      else if ch == '?' as int then ReqQueryStringStart
      else if ch == '#' as int then ReqFragmentStart
      else Dead
    else if s.ReqQueryStringStart? || s.ReqQueryString? then
      if IsUrlChar(ch) || ch == '?' as int then ReqQueryString
      else if ch == '#' as int then ReqFragmentStart
      else Dead
    else if s.ReqFragmentStart? then
      if IsUrlChar(ch) || ch == '?' as int then ReqFragment
      else if ch == '#' as int then ReqFragmentStart
      else Dead
    else if s.ReqFragment? then
      if IsUrlChar(ch) || ch == '?' as int || ch == '#' as int then ReqFragment else Dead
    else Dead
  }

  function ServerChar(ch: byte): State {
    if ch == '/' as int then ReqPath
    else if ch == '?' as int then ReqQueryStringStart
    else if ch == '@' as int then ReqServerWithAt
    else if IsUserinfoChar(ch) || ch == '[' as int || ch == ']' as int then ReqServer
    else Dead
  }

  function UrlStep(f: Fields, from: State, ch: byte): Arm {
    if UrlChar(from, ch) == Dead then Fail(f.(state := Dead), InvalidUrl) else To(f, UrlChar(from, ch))
  }

  function SpacesBeforeUrlArm(f: Fields, ch: byte): Arm {
    if ch == SP then Keep(f)
    else
      var from := if f.verb == CONNECT_METHOD then ReqServerStart else ReqSpacesBeforeUrl;
      UrlStep(f, from, ch).(mark := Some(KUrl))
  }

  /** The URL states in which no space or line end is allowed. */
  function UrlStrictArm(f: Fields, ch: byte): Arm {
    if ch == SP || ch == CR || ch == LF then Fail(f, InvalidUrl) else UrlStep(f, f.state, ch)
  }

  function UrlArm(f: Fields, ch: byte): Arm {
    if ch == SP then Close(f, ReqHttpStart, KUrl)
    else if ch == CR then Close(f.(httpMajor := 0, httpMinor := 9), ReqLineAlmostDone, KUrl)
    else if ch == LF then Close(f.(httpMajor := 0, httpMinor := 9), HeaderFieldStart, KUrl)
    else UrlStep(f, f.state, ch)
  }

  function HttpStartArm(f: Fields, ch: byte): Arm {
    if ch == 'H' as int then To(f, ReqHttpH) else if ch == SP then Keep(f) else Fail(f, InvalidConstant)
  }

  function FirstMajorArm(f: Fields, ch: byte, least: byte, s: State): Arm {
    if !IsNum(ch) || ch < least then Fail(f, InvalidVersion) else To(f.(httpMajor := Digit(ch)), s)
  }

  function MajorArm(f: Fields, ch: byte, dot: State): Arm {
    if ch == '.' as int then To(f, dot)
    else if !IsNum(ch) then Fail(f, InvalidVersion)
    else
      var g := f.(httpMajor := U16(10 * f.httpMajor + Digit(ch)));
      if g.httpMajor > 999 then Fail(g, InvalidVersion) else Keep(g)
  }

  function FirstMinorArm(f: Fields, ch: byte, s: State): Arm {
    if !IsNum(ch) then Fail(f, InvalidVersion) else To(f.(httpMinor := Digit(ch)), s)
  }

  function MinorDigit(f: Fields, ch: byte): Arm {
    if !IsNum(ch) then Fail(f, InvalidVersion)
    else
      var g := f.(httpMinor := U16(10 * f.httpMinor + Digit(ch)));
      if g.httpMinor > 999 then Fail(g, InvalidVersion) else Keep(g)
  }

  function ResMinorArm(f: Fields, ch: byte): Arm {
    if ch == SP then To(f, ResFirstStatusCode) else MinorDigit(f, ch)
  }

  function ReqMinorArm(f: Fields, ch: byte): Arm {
    if ch == CR then To(f, ReqLineAlmostDone) else if ch == LF then To(f, HeaderFieldStart) else MinorDigit(f, ch)
  }

  function ReqLineAlmostDoneArm(f: Fields, ch: byte): Arm {
    if ch != LF then Fail(f, LfExpected) else To(f, HeaderFieldStart)
  }

  // ---- status line -----------------------------------------------------------------

  function FirstStatusArm(f: Fields, ch: byte): Arm {
    if IsNum(ch) then To(f.(statusCode := Digit(ch)), ResStatusCode)
    else if ch == SP then Keep(f)
    else Fail(f, InvalidStatus)
  }

  function StatusCodeArm(f: Fields, ch: byte): Arm {
    if IsNum(ch) then
      var g := f.(statusCode := U16(10 * f.statusCode + Digit(ch)));
      if g.statusCode > 999 then Fail(g, InvalidStatus) else Keep(g)
    else if ch == SP then To(f, ResStatus)
    else if ch == CR then To(f, ResLineAlmostDone)
    else if ch == LF then To(f, HeaderFieldStart)
    else Fail(f, InvalidStatus)
  }

  function StatusArm(f: Fields, ch: byte): Arm {
    if ch == CR then To(f, ResLineAlmostDone) else if ch == LF then To(f, HeaderFieldStart) else Keep(f)
  }

  function ResLineAlmostDoneArm(f: Fields, ch: byte): Arm {
    if ch != LF then Fail(f, Strict) else Notify(f.(state := HeaderFieldStart), StatusComplete)
  }

  // ---- header names ----------------------------------------------------------------

  /** The constant that a matching state compares with. */
  function Pattern(h: HeaderState): string {
    if h.MatchingConnection? then "connection"
    else if h.MatchingProxyConnection? then "proxy-connection"
    else if h.MatchingContentLength? then "content-length"
    else if h.MatchingTransferEncoding? then "transfer-encoding"
    else if h.MatchingUpgrade? then "upgrade"
    else if h.MatchingChunked? then "chunked"
    else if h.MatchingKeepAlive? then "keep-alive"
    else if h.MatchingClose? then "close"
    else ""
  }

  /** The state a matching state turns into at the last byte of its constant. */
  function Matched(h: HeaderState): HeaderState {
    if h.MatchingConnection? || h.MatchingProxyConnection? then HeaderState.Connection
    else if h.MatchingContentLength? then HeaderState.ContentLength
    else if h.MatchingTransferEncoding? then HeaderState.TransferEncoding
    else if h.MatchingUpgrade? then HeaderState.Upgrade
    else if h.MatchingChunked? then HeaderState.Chunked
    else if h.MatchingKeepAlive? then HeaderState.KeepAlive
    else if h.MatchingClose? then HeaderState.Close
    else General
  }

  /** One more byte `c` against the constant of `h`, of which byte `i` is due. */
  function Matching(h: HeaderState, i: nat, c: byte): HeaderState {
    if i > |Pattern(h)| || c != At(Pattern(h), i) then General
    else if i == |Pattern(h)| - 1 then Matched(h)
    else h
  }

  function FirstHeaderState(c: byte): HeaderState {
    if c == 'c' as int then HeaderState.C
    else if c == 'p' as int then MatchingProxyConnection
    else if c == 't' as int then MatchingTransferEncoding
    else if c == 'u' as int then MatchingUpgrade
    else General
  }

  function FieldStartArm(f: Fields, ch: byte): Arm {
    if ch == CR then To(f, HeadersAlmostDone)
    else if ch == LF then ToAgain(f, HeadersAlmostDone)
    else if Token(ch) == 0 then Fail(f, InvalidHeaderToken)
    else
      Arm(f.(index := 0, state := State.HeaderField, headerState := FirstHeaderState(Token(ch))), Some(KField),
          NoCall, Next)
  }

  /** The states in which a name is compared with a constant. */
  predicate MatchesName(h: HeaderState) {
    h.MatchingConnection? || h.MatchingProxyConnection? || h.MatchingContentLength?
    || h.MatchingTransferEncoding? || h.MatchingUpgrade?
  }

  /** The nested switch on header_state for a name byte, given the index already advanced. */
  function StepName(h: HeaderState, i: nat, c: byte): HeaderState {
    if h.C? then if c == 'o' as int then CO else General
    else if h.CO? then if c == 'n' as int then CON else General
    else if h.CON? then
      if c == 'n' as int then MatchingConnection else if c == 't' as int then MatchingContentLength else General
    else if MatchesName(h) then Matching(h, i, c)
    else if h.Connection? || h.ContentLength? || h.TransferEncoding? || h.Upgrade? then General
    else h
  }

  /** The header states in which a name byte advances the index. */
  predicate NameCounts(h: HeaderState) { h.C? || h.CO? || h.CON? || MatchesName(h) }

  function FieldArm(f: Fields, ch: byte): Arm {
    if Token(ch) != 0 then
      var i := if NameCounts(f.headerState) then NextIndex(f) else f.index;
      Keep(f.(index := i, headerState := StepName(f.headerState, i, Token(ch))))
    else if ch == ':' as int then Close(f, HeaderValueStart, KField)
    else if ch == CR then Close(f, HeaderAlmostDone, KField)
    else if ch == LF then Close(f, HeaderFieldStart, KField)
    else Fail(f, InvalidHeaderToken)
  }

  // ---- header values ---------------------------------------------------------------

  function ValueStartArm(f: Fields, ch: byte): Arm {
    if ch == SP || ch == HT then Keep(f)
    else ValueStartByte(f.(state := State.HeaderValue, index := 0), ch).(mark := Some(KValue))
  }

  function ValueStartByte(f: Fields, ch: byte): Arm {
    if ch == CR then Close(f.(headerState := General), HeaderAlmostDone, KValue)
    else if ch == LF then Close(f, HeaderFieldStart, KValue)
    else
      var c := Lower(ch);
      var h := f.headerState;
      if h.Upgrade? then Keep(f.(flags := f.flags.(upgrade := true), headerState := General))
      else if h.TransferEncoding? then
        Keep(f.(headerState := if c == 'c' as int then MatchingChunked else General))
      else if h.ContentLength? then
        if !IsNum(ch) then Fail(f, InvalidContentLength) else Keep(f.(contentLength := Digit(ch)))
      else if h.Connection? then
        Keep(f.(headerState := if c == 'k' as int then MatchingKeepAlive
                               else if c == 'c' as int then MatchingClose
                               else General))
      else Keep(f.(headerState := General))
  }

  /** Appending a digit to a length in 32-bit arithmetic; None is the overflow error. */
  function Accumulate(length: u32, base: nat, digit: nat): Option<u32> {
    var t := U32(base * length + digit);
    if t < length || t == UINT32_MAX then None else Some(t)
  }

  function ValueArm(f: Fields, ch: byte): Arm {
    if ch == CR then Close(f, HeaderAlmostDone, KValue)
    else if ch == LF then Arm(f.(state := HeaderAlmostDone), None, DataCall(KValue), Again)
    else
      var h := f.headerState;
      var i := NextIndex(f);
      if h.General? || h.Connection? || h.TransferEncoding? then Keep(f)
      else if h.ContentLength? then
        if ch == SP then Keep(f)
        else if !IsNum(ch) then Fail(f, InvalidContentLength)
        else
          var t := Accumulate(f.contentLength, 10, Digit(ch));
          if t.None? then Fail(f, InvalidContentLength) else Keep(f.(contentLength := t.value))
      else if h.MatchingChunked? || h.MatchingKeepAlive? || h.MatchingClose? then
        Keep(f.(index := i, headerState := Matching(h, i, Lower(ch))))
      else if h.Chunked? || h.KeepAlive? || h.Close? then
        if ch != SP then Keep(f.(headerState := General)) else Keep(f)
      else Keep(f.(headerState := General))
  }

  function HeaderAlmostDoneArm(f: Fields, ch: byte): Arm {
    if ch != LF then Fail(f, Strict)
    else
      To(if f.headerState.KeepAlive? then f.(flags := f.flags.(keepAlive := true))
         else if f.headerState.Close? then f.(flags := f.flags.(close := true))
         else if f.headerState.Chunked? then f.(flags := f.flags.(chunked := true))
         else f,
         HeaderValueLws)
  }

  function LwsArm(f: Fields, ch: byte): Arm {
    if ch == SP || ch == HT then To(f, HeaderValueStart) else ToAgain(f, HeaderFieldStart)
  }

  // ---- end of the headers ----------------------------------------------------------

  /** `hc` is what on_headers_complete returns: 0, 1 for "there is no body", or an error. */
  function HeadersAlmostDoneArm(hc: Fields -> int, f: Fields, ch: byte): Arm {
    if ch != LF then Fail(f, Strict)
    else if f.flags.trailing then Notify(f.(state := NewMessage(f)), MessageComplete)
    else
      var g := f.(state := HeadersDone, upgrade := f.flags.upgrade || f.verb == CONNECT_METHOD);
      if hc(g) == 0 then Arm(g, None, NoteCall(HeadersComplete), Again)
      else if hc(g) == 1 then Arm(g.(flags := g.flags.(skipBody := true)), None, NoteCall(HeadersComplete), Again)
      else Arm(g.(errno := CbHeadersComplete), None, NoteCall(HeadersComplete), Stop)
  }

  function HeadersDoneArm(f0: Fields, ch: byte): Arm {
    if ch != LF then Fail(f0, Strict)
    else
      var f := f0.(nread := 0);
      if f.upgrade then Notify(f.(state := NewMessage(f)), MessageComplete).(go := Exit)
      else if f.flags.skipBody then Notify(f.(state := NewMessage(f)), MessageComplete)
      else if f.flags.chunked then To(f, ChunkSizeStart)
      else if f.contentLength == 0 then Notify(f.(state := NewMessage(f)), MessageComplete)
      else if f.contentLength != UINT32_MAX then To(f, BodyIdentity)
      else if f.typ == Request || !NeedsEof(f) then Notify(f.(state := NewMessage(f)), MessageComplete)
      else To(f, BodyIdentityEof)
  }

  // ---- bodies ----------------------------------------------------------------------

  function MessageDoneArm(f: Fields): Arm { Notify(f.(state := NewMessage(f)), MessageComplete) }

  function ChunkSizeStartArm(f: Fields, ch: byte): Arm {
    if Unhex(ch) == -1 then Fail(f, InvalidChunkSize) else To(f.(contentLength := Unhex(ch)), ChunkSize)
  }

  function ChunkSizeArm(f: Fields, ch: byte): Arm {
    if ch == CR then To(f, ChunkSizeAlmostDone)
    else if Unhex(ch) == -1 then
      if ch == ';' as int || ch == SP then To(f, ChunkParameters) else Fail(f, InvalidChunkSize)
    else
      var t := Accumulate(f.contentLength, 16, Unhex(ch));
      if t.None? then Fail(f, InvalidContentLength) else Keep(f.(contentLength := t.value))
  }

  function ChunkParametersArm(f: Fields, ch: byte): Arm {
    if ch == CR then To(f, ChunkSizeAlmostDone) else Keep(f)
  }

  function ChunkSizeAlmostDoneArm(f: Fields, ch: byte): Arm {
    if ch != LF then Fail(f, Strict)
    else
      var g := f.(nread := 0);
      if g.contentLength == 0 then To(g.(flags := g.flags.(trailing := true)), HeaderFieldStart)
      else To(g, ChunkData)
  }

  function ChunkDataAlmostDoneArm(f: Fields, ch: byte): Arm {
    if ch != CR then Fail(f, Strict) else Close(f, ChunkDataDone, KBody)
  }

  function ChunkDataDoneArm(f: Fields, ch: byte): Arm {
    if ch != LF then Fail(f, Strict) else To(f.(nread := 0), ChunkSizeStart)
  }

  // ---- the switch ------------------------------------------------------------------

  /** The cases that take a run of body bytes at once. */
  predicate Swallows(s: State) { s.BodyIdentity? || s.BodyIdentityEof? || s.ChunkData? }

  function StartSwitch(f: Fields, ch: byte): Arm {
    if f.state.Dead? then DeadArm(f, ch)
    else if f.state.StartReqOrRes? then StartReqOrResArm(f, ch)
    else if f.state.ResOrRespH? then ResOrRespHArm(f, ch)
    else if f.state.StartRes? then StartResArm(f, ch)
    else if f.state.ResH? then Expect(f, ch, 'T' as int, ResHT)
    else if f.state.ResHT? then Expect(f, ch, 'T' as int, ResHTT)
    else if f.state.ResHTT? then Expect(f, ch, 'P' as int, ResHTTP)
    else if f.state.ResHTTP? then Expect(f, ch, '/' as int, ResFirstHttpMajor)
    else if f.state.ResFirstHttpMajor? then FirstMajorArm(f, ch, '0' as int, ResHttpMajor)
    else if f.state.ResHttpMajor? then MajorArm(f, ch, ResFirstHttpMinor)
    else if f.state.ResFirstHttpMinor? then FirstMinorArm(f, ch, ResHttpMinor)
    else if f.state.ResHttpMinor? then ResMinorArm(f, ch)
    else if f.state.ResFirstStatusCode? then FirstStatusArm(f, ch)
    else if f.state.ResStatusCode? then StatusCodeArm(f, ch)
    else if f.state.ResStatus? then StatusArm(f, ch)
    else ResLineAlmostDoneArm(f, ch)
  }

  function RequestSwitch(f: Fields, ch: byte): Arm {
    if f.state.StartReq? then StartReqArm(f, ch)
    else if f.state.ReqMethod? then ReqMethodArm(f, ch)
    else if f.state.ReqSpacesBeforeUrl? then SpacesBeforeUrlArm(f, ch)
    else if f.state.ReqSchema? then UrlStrictArm(f, ch)
    else if f.state.ReqSchemaSlash? then UrlStrictArm(f, ch)
    else if f.state.ReqSchemaSlashSlash? then UrlStrictArm(f, ch)
    else if f.state.ReqServerStart? then UrlStrictArm(f, ch)
    else if f.state.ReqHttpStart? then HttpStartArm(f, ch)
    else if f.state.ReqHttpH? then Expect(f, ch, 'T' as int, ReqHttpHT)
    else if f.state.ReqHttpHT? then Expect(f, ch, 'T' as int, ReqHttpHTT)
    else if f.state.ReqHttpHTT? then Expect(f, ch, 'P' as int, ReqHttpHTTP)
    else if f.state.ReqHttpHTTP? then Expect(f, ch, '/' as int, ReqFirstHttpMajor)
    else if f.state.ReqFirstHttpMajor? then FirstMajorArm(f, ch, '1' as int, ReqHttpMajor)
    else if f.state.ReqHttpMajor? then MajorArm(f, ch, ReqFirstHttpMinor)
    else if f.state.ReqFirstHttpMinor? then FirstMinorArm(f, ch, ReqHttpMinor)
    else if f.state.ReqHttpMinor? then ReqMinorArm(f, ch)
    else if f.state.ReqLineAlmostDone? then ReqLineAlmostDoneArm(f, ch)
    else UrlArm(f, ch)
  }

  function HeaderSwitch(hc: Fields -> int, f: Fields, ch: byte): Arm {
    if f.state.HeaderFieldStart? then FieldStartArm(f, ch)
    else if f.state.HeaderField? then FieldArm(f, ch)
    else if f.state.HeaderValueStart? then ValueStartArm(f, ch)
    else if f.state.HeaderValue? then ValueArm(f, ch)
    else if f.state.HeaderAlmostDone? then HeaderAlmostDoneArm(f, ch)
    else if f.state.HeaderValueLws? then LwsArm(f, ch)
    else if f.state.HeadersAlmostDone? then HeadersAlmostDoneArm(hc, f, ch)
    else HeadersDoneArm(f, ch)
  }

  function BodySwitch(f: Fields, ch: byte): Arm {
    if f.state.ChunkSizeStart? then ChunkSizeStartArm(f, ch)
    else if f.state.ChunkSize? then ChunkSizeArm(f, ch)
    else if f.state.ChunkParameters? then ChunkParametersArm(f, ch)
    else if f.state.ChunkSizeAlmostDone? then ChunkSizeAlmostDoneArm(f, ch)
    else if f.state.ChunkDataAlmostDone? then ChunkDataAlmostDoneArm(f, ch)
    else if f.state.ChunkDataDone? then ChunkDataDoneArm(f, ch)
    else MessageDoneArm(f)
  }

  predicate InHeaders(s: State) {
    s.HeaderFieldStart? || s.HeaderField? || s.HeaderValueStart? || s.HeaderValue? || s.HeaderAlmostDone?
    || s.HeaderValueLws? || s.HeadersAlmostDone? || s.HeadersDone?
  }

  predicate InBody(s: State) {
    s.ChunkSizeStart? || s.ChunkSize? || s.ChunkParameters? || s.ChunkSizeAlmostDone? || s.ChunkData?
    || s.ChunkDataAlmostDone? || s.ChunkDataDone? || s.BodyIdentity? || s.BodyIdentityEof? || s.MessageDone?
  }

  predicate InRequestLine(s: State) {
    UrlState(s) || s.StartReq? || s.ReqMethod? || s.ReqSpacesBeforeUrl? || s.ReqHttpStart? || s.ReqHttpH?
    || s.ReqHttpHT? || s.ReqHttpHTT? || s.ReqHttpHTTP? || s.ReqFirstHttpMajor? || s.ReqHttpMajor?
    || s.ReqFirstHttpMinor? || s.ReqHttpMinor? || s.ReqLineAlmostDone?
  }

  function Switch(hc: Fields -> int, f: Fields, ch: byte): Arm
    requires !Swallows(f.state)
  {
    if InHeaders(f.state) then HeaderSwitch(hc, f, ch)
    else if InBody(f.state) then BodySwitch(f, ch)
    else if InRequestLine(f.state) then RequestSwitch(f, ch)
    else StartSwitch(f, ch)
  }
}
