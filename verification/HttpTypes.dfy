/** The data of httparser.h and the tables and character classes of httparser.c. */
module HttpTypes {
  import opened Common
  import opened Events

  const MAX_HEADER_SIZE := 8 * 1024
  const UINT32_MAX: u32 := 0xFFFF_FFFF

  const HT: byte := 9
  const LF: byte := 10
  const FF: byte := 12
  const CR: byte := 13
  const SP: byte := 32

  datatype ParserType = Request | Response | Both

  datatype State =
    | Dead | StartReqOrRes | ResOrRespH | StartRes | ResH | ResHT | ResHTT | ResHTTP
    | ResFirstHttpMajor | ResHttpMajor | ResFirstHttpMinor | ResHttpMinor
    | ResFirstStatusCode | ResStatusCode | ResStatus | ResLineAlmostDone
    | StartReq | ReqMethod | ReqSpacesBeforeUrl
    | ReqSchema | ReqSchemaSlash | ReqSchemaSlashSlash | ReqServerStart | ReqServer | ReqServerWithAt
    | ReqPath | ReqQueryStringStart | ReqQueryString | ReqFragmentStart | ReqFragment
    | ReqHttpStart | ReqHttpH | ReqHttpHT | ReqHttpHTT | ReqHttpHTTP
    | ReqFirstHttpMajor | ReqHttpMajor | ReqFirstHttpMinor | ReqHttpMinor | ReqLineAlmostDone
    | HeaderFieldStart | HeaderField | HeaderValueStart | HeaderValue | HeaderValueLws | HeaderAlmostDone
    | ChunkSizeStart | ChunkSize | ChunkParameters | ChunkSizeAlmostDone
    | HeadersAlmostDone | HeadersDone
    | ChunkData | ChunkDataAlmostDone | ChunkDataDone | BodyIdentity | BodyIdentityEof | MessageDone

  datatype HeaderState =
    | General | C | CO | CON
    | MatchingConnection | MatchingProxyConnection | MatchingContentLength
    | MatchingTransferEncoding | MatchingUpgrade
    | Connection | ContentLength | TransferEncoding | Upgrade
    | MatchingChunked | MatchingKeepAlive | MatchingClose
    | Chunked | KeepAlive | Close

  /** The F_* bits of http_parser.flags. */
  datatype Flags = Flags(chunked: bool, keepAlive: bool, close: bool, trailing: bool, upgrade: bool, skipBody: bool)

  const NO_FLAGS := Flags(false, false, false, false, false, false)

  datatype Errno =
    | OK | CbHeadersComplete | InvalidEofState | HeaderOverflow | ClosedConnection
    | InvalidVersion | InvalidStatus | InvalidMethod | InvalidUrl | LfExpected
    | InvalidHeaderToken | InvalidContentLength | InvalidChunkSize | InvalidConstant | Strict | Unknown

  /** struct http_parser */
  datatype Fields = Fields(
    typ: ParserType, state: State, headerState: HeaderState, flags: Flags, errno: Errno, upgrade: bool,
    verb: nat, index: byte, nread: nat, contentLength: u32,
    httpMajor: u16, httpMinor: u16, statusCode: u16)

  datatype Kind = KUrl | KField | KValue | KBody

  datatype Note = MessageBegin | StatusComplete | HeadersComplete | MessageComplete

  type HttpEvent = Event<Kind, Note>
  type HttpLog = Log<Kind, Note>

  // ---- methods ---------------------------------------------------------------------

  const HEAD_METHOD := 2
  const POST_METHOD := 3
  const PUT_METHOD := 4
  const CONNECT_METHOD := 5
  const COPY_METHOD := 8
  const MKCOL_METHOD := 10
  const MOVE_METHOD := 11
  const PROPFIND_METHOD := 12
  const PROPPATCH_METHOD := 13
  const SEARCH_METHOD := 14
  const UNLOCK_METHOD := 15
  const MKACTIVITY_METHOD := 17
  const CHECKOUT_METHOD := 18
  const MERGE_METHOD := 19
  const MSEARCH_METHOD := 20
  const SUBSCRIBE_METHOD := 22
  const UNSUBSCRIBE_METHOD := 23
  const PATCH_METHOD := 24
  const PURGE_METHOD := 25

  const METHODS := 26

  /** method_strings */
  function MethodString(m: nat): string {
    if m == 0 then "DELETE"
    else if m == 1 then "GET"
    else if m == 2 then "HEAD"
    else if m == 3 then "POST"
    else if m == 4 then "PUT"
    else if m == 5 then "CONNECT"
    else if m == 6 then "OPTIONS"
    else if m == 7 then "TRACE"
    else if m == 8 then "COPY"
    else if m == 9 then "LOCK"
    else if m == 10 then "MKCOL"
    else if m == 11 then "MOVE"
    else if m == 12 then "PROPFIND"
    else if m == 13 then "PROPPATCH"
    else if m == 14 then "SEARCH"
    else if m == 15 then "UNLOCK"
    else if m == 16 then "REPORT"
    else if m == 17 then "MKACTIVITY"
    else if m == 18 then "CHECKOUT"
    else if m == 19 then "MERGE"
    else if m == 20 then "M-SEARCH"
    else if m == 21 then "NOTIFY"
    else if m == 22 then "SUBSCRIBE"
    else if m == 23 then "UNSUBSCRIBE"
    else if m == 24 then "PATCH"
    else if m == 25 then "PURGE"
    else ""
  }

  /** Byte `i` of a C string literal, whose terminator is 0. */
  function At(s: string, i: nat): int { if i < |s| then s[i] as int else 0 }

  // ---- character classes -----------------------------------------------------------

  predicate IsNum(b: byte) { '0' as int <= b <= '9' as int }

  /** c | 0x20 */
  function Lower(b: byte): byte { if b / 32 % 2 == 0 then b + 32 else b }

  predicate IsAlpha(b: byte) { 'a' as int <= Lower(b) <= 'z' as int }

  predicate IsUpper(b: byte) { 'A' as int <= b <= 'Z' as int }

  /** The `tokens` table: 0 for bytes that cannot stand in a header name, else the lower-cased byte. */
  function Token(b: byte): byte {
    if IsUpper(b) then b + 32
    else if b <= 32 || b >= 127 || b in [34, 40, 41, 44, 47, 58, 59, 60, 61, 62, 63, 64, 91, 92, 93, 123, 125] then 0
    else b
  }

  /** The `unhex` table, of which only the first 128 entries are given; the others are 0. */
  function Unhex(b: byte): int {
    if IsNum(b) then b - '0' as int
    else if 'A' as int <= b <= 'F' as int then b - 'A' as int + 10
    else if 'a' as int <= b <= 'f' as int then b - 'a' as int + 10
    else if b >= 128 then 0
    else -1
  }

  /** The `normal_url_char` bit set. */
  predicate IsUrlChar(b: byte) { b == HT || b == FF || (33 <= b <= 126 && b != '#' as int && b != '?' as int) }

  predicate IsUserinfoChar(b: byte) {
    IsAlpha(b) || IsNum(b) || b in [45, 95, 46, 33, 126, 42, 39, 40, 41, 37, 59, 58, 38, 61, 43, 36, 44]
  }

  // ---- questions about a parser ----------------------------------------------------

  /** http_message_needs_eof */
  predicate NeedsEof(f: Fields) {
    && f.typ != Request
    && !(f.statusCode / 100 == 1 || f.statusCode == 204 || f.statusCode == 304 || f.flags.skipBody)
    && !(f.flags.chunked || f.contentLength != UINT32_MAX)
  }

  /** http_should_keep_alive */
  predicate ShouldKeepAlive(f: Fields) {
    && (if f.httpMajor > 0 && f.httpMinor > 0 then !f.flags.close else f.flags.keepAlive)
    && !NeedsEof(f)
  }

  /** NEW_MESSAGE() */
  function NewMessage(f: Fields): State {
    if !ShouldKeepAlive(f) then Dead else if f.typ == Request then StartReq else StartRes
  }

  /** The states up to s_headers_done, in which every byte counts against the header limit. */
  predicate CountsBytes(s: State) {
    !(s.ChunkData? || s.ChunkDataAlmostDone? || s.ChunkDataDone?
      || s.BodyIdentity? || s.BodyIdentityEof? || s.MessageDone?)
  }

  predicate UrlState(s: State) {
    s.ReqSchema? || s.ReqSchemaSlash? || s.ReqSchemaSlashSlash? || s.ReqServerStart? || s.ReqServer?
    || s.ReqServerWithAt? || s.ReqPath? || s.ReqQueryStringStart? || s.ReqQueryString?
    || s.ReqFragmentStart? || s.ReqFragment?
  }

  /** http_parser_init */
  function Init(t: ParserType): Fields {
    Fields(t, match t { case Request => StartReq case Response => StartRes case Both => StartReqOrRes },
           General, NO_FLAGS, OK, false, 0, 0, 0, 0, 0, 0, 0)
  }
}
