/**
  Printing a body in the layout of RFC 2046, section 5.1.1, without a preamble, and parsing it again.
 */
module MultipartRoundTrip {
  import opened Common
  import opened Events
  import opened Multipart
  import opened MultipartCuts
  import opened MultipartParts

  datatype Header = Header(name: seq<byte>, value: seq<byte>)

  datatype Part = Part(headers: seq<Header>, body: seq<byte>)

  // ---- the layout and the callbacks it must make -----------------------------------------

  predicate PlainName(n: seq<byte>) { forall ch :: ch in n ==> ch == HYPHEN || IsLetter(ch) }

  predicate PlainValue(v: seq<byte>) { CR !in v && (v != [] ==> v[0] != SP) }

  predicate PlainHeader(h: Header) { PlainName(h.name) && PlainValue(h.value) }

  predicate PlainPart(b: seq<byte>, p: Part) {
    (forall h :: h in p.headers ==> PlainHeader(h)) && !Occurs(Delimiter(b), p.body)
  }

  function HeaderText(h: Header): seq<byte> { h.name + ([COLON, SP] + (h.value + [CR, LF])) }

  function HeadersText(hs: seq<Header>): seq<byte> {
    if hs == [] then [] else HeaderText(hs[0]) + HeadersText(hs[1..])
  }

  function PartText(b: seq<byte>, p: Part): seq<byte> {
    HeadersText(p.headers) + ([CR, LF] + (p.body + Delimiter(b)))
  }

  function PartsText(b: seq<byte>, ps: seq<Part>): seq<byte>
    requires ps != []
  {
    if |ps| == 1 then PartText(b, ps[0]) + [HYPHEN, HYPHEN]
    else PartText(b, ps[0]) + ([CR, LF] + PartsText(b, ps[1..]))
  }

  function BodyText(b: seq<byte>, ps: seq<Part>): seq<byte>
    requires ps != []
  {
    b + ([CR, LF] + PartsText(b, ps))
  }

  function HeaderEvents(hs: seq<Header>): PartLog {
    if hs == [] then [] else [Emit(KField, hs[0].name), Emit(KValue, hs[0].value)] + HeaderEvents(hs[1..])
  }

  function PartEvents(p: Part): PartLog {
    HeaderEvents(p.headers) + [Notice(HeadersComplete), Emit(KData, p.body), Notice(PartDataEnded)]
  }

  function PartsEvents(ps: seq<Part>): PartLog
    requires ps != []
  {
    [Notice(PartDataBegin)] + PartEvents(ps[0]) + if |ps| == 1 then [Notice(BodyEnd)] else PartsEvents(ps[1..])
  }

  // ---- reading the callbacks back ---------------------------------------------------------

  function ReadHeaders(log: PartLog): seq<Header> {
    if |log| >= 2 && log[0].Data? && log[1].Data? then [Header(log[0].bytes, log[1].bytes)] + ReadHeaders(log[2..])
    else []
  }

  function ReadParts(log: PartLog): seq<Part> {
    if log == [] || log[0] != Notice(PartDataBegin) then []
    else
      var hs := ReadHeaders(log[1..]);
      var n := 1 + 2 * |hs|;
      if n + 2 >= |log| || !log[n + 1].Data? then []
      else [Part(hs, log[n + 1].bytes)] + ReadParts(log[n + 3..])
  }

  lemma HeaderReadsBack(h: Header, rest: PartLog)
    ensures ReadHeaders([Emit(KField, h.name), Emit(KValue, h.value)] + rest) == [h] + ReadHeaders(rest)
  {
    var log := [Emit(KField, h.name), Emit(KValue, h.value)] + rest;
    assert log[2..] == rest;
  }

  lemma {:induction false} HeadersReadBack(hs: seq<Header>, rest: PartLog)
    requires rest != [] && rest[0].Notice?
    ensures ReadHeaders(HeaderEvents(hs) + rest) == hs && |HeaderEvents(hs)| == 2 * |hs|
    decreases |hs|
  {
    if hs == [] {
      assert HeaderEvents(hs) + rest == rest;
    } else {
      hide ReadHeaders;
      var more := HeaderEvents(hs[1..]) + rest;
      HeadersReadBack(hs[1..], rest);
      HeaderReadsBack(hs[0], more);
      assert HeaderEvents(hs) + rest == [Emit(KField, hs[0].name), Emit(KValue, hs[0].value)] + more;
      assert hs == [hs[0]] + hs[1..];
    }
  }

  lemma PartReadsBack(p: Part, more: PartLog)
    ensures ReadParts([Notice(PartDataBegin)] + PartEvents(p) + more) == [p] + ReadParts(more)
  {
    hide HeaderEvents, ReadHeaders;
    var log := [Notice(PartDataBegin)] + PartEvents(p) + more;
    var tail := [Notice(HeadersComplete), Emit(KData, p.body), Notice(PartDataEnded)];
    HeadersReadBack(p.headers, tail + more);
    var n := 1 + 2 * |p.headers|;
    assert log[1..] == HeaderEvents(p.headers) + (tail + more);
    assert log[n..] == tail + more;
    assert log[n + 1] == log[n..][1] && log[n + 3..] == log[n..][3..] == more;
  }

  /** The callbacks determine the parts. */
  lemma {:induction false} PartsReadBack(ps: seq<Part>)
    requires ps != []
    ensures ReadParts(PartsEvents(ps)) == ps
    decreases |ps|
  {
    hide ReadParts, PartEvents;
    assert ps == [ps[0]] + ps[1..];
    if |ps| == 1 {
      PartReadsBack(ps[0], [Notice(BodyEnd)]);
      NothingToRead();
    } else {
      PartReadsBack(ps[0], PartsEvents(ps[1..]));
      PartsReadBack(ps[1..]);
    }
  }

  lemma NothingToRead()
    ensures ReadParts([Notice(BodyEnd)]) == []
  {
  }

  // ---- the run over one header ------------------------------------------------------------

  lemma NameByte(b: seq<byte>, c: Conf, ch: byte)
    requires c.ok && c.state.HeaderField? && (ch == HYPHEN || IsLetter(ch))
    ensures OnByte(b, c, ch) == c.(pend := c.pend + [ch], used := c.used + 1)
  {
    hide Push;
  }

  lemma {:induction false} NameRuns(b: seq<byte>, c: Conf, n: seq<byte>)
    requires c.ok && c.state.HeaderField? && PlainName(n)
    ensures Feed(b, c, n) == c.(pend := c.pend + n, used := c.used + |n|)
    decreases |n|
  {
    hide OnByte, IsLetter;
    if n != [] {
      NameByte(b, c, n[0]);
      NameRuns(b, OnByte(b, c, n[0]), n[1..]);
      assert c.pend + [n[0]] + n[1..] == c.pend + n;
    }
  }

  lemma {:induction false} ValueRuns(b: seq<byte>, c: Conf, v: seq<byte>)
    requires c.ok && c.state.HeaderValue? && CR !in v
    ensures Feed(b, c, v) == c.(pend := c.pend + v, used := c.used + |v|)
    decreases |v|
  {
    hide OnByte;
    if v != [] {
      ValueStep(b, c, v[0]);
      ValueRuns(b, OnByte(b, c, v[0]), v[1..]);
      assert c.pend + [v[0]] + v[1..] == c.pend + v;
    }
  }

  /** The first byte of a name, and of a value, is looked at in the state it starts. */
  lemma StartsName(b: seq<byte>, c: Conf, s: seq<byte>)
    requires c.ok && c.state.HeaderFieldStart? && s != []
    ensures Feed(b, c, s) == Feed(b, c.(state := HeaderField, pend := []), s)
  {
    hide Push, FieldByte;
  }

  lemma StartsValue(b: seq<byte>, c: Conf, s: seq<byte>)
    requires c.ok && c.state.HeaderValueStart? && s != [] && s[0] != SP
    ensures Feed(b, c, s) == Feed(b, c.(state := HeaderValue, pend := []), s)
  {
    hide Push, ValueByte;
  }

  lemma ColonByte(b: seq<byte>, c: Conf)
    requires c.ok && c.state.HeaderField?
    ensures OnByte(b, c, COLON) == Took(Heard(c, Emit(KField, c.pend)).(pend := []), HeaderValueStart)
  {
    hide Push;
  }

  lemma SpaceByte(b: seq<byte>, c: Conf)
    requires c.ok && c.state.HeaderValueStart?
    ensures OnByte(b, c, SP) == Took(c, HeaderValueStart)
  {
    hide Push;
  }

  lemma LineEnd(b: seq<byte>, c: Conf)
    requires c.ok && c.state.HeaderValue?
    ensures Feed(b, c, [CR, LF])
            == Took(Took(Heard(c, Emit(KValue, c.pend)), HeaderValueAlmostDone), HeaderFieldStart).(pend := [])
  {
    hide Push;
    assert [CR, LF] == [CR] + [LF];
    FeedCons(b, c, CR, [LF]);
    FeedOne(b, OnByte(b, c, CR), LF);
  }

  /** `log` does not end with a header name. */
  predicate Between(log: PartLog) { log == [] || log[|log| - 1].Notice? || log[|log| - 1].kind == KValue }

  lemma HeaderRuns(b: seq<byte>, c: Conf, h: Header)
    requires c.ok && c.state.HeaderFieldStart? && Between(c.log) && PlainHeader(h)
    ensures Feed(b, c, HeaderText(h))
            == c.(used := c.used + |HeaderText(h)|, pend := [], log := c.log + HeaderEvents([h]))
    ensures Between(c.log + HeaderEvents([h]))
  {
    hide OnByte, Feed, PlainName;
    var t2 := h.value + [CR, LF];
    var t1 := [COLON, SP] + t2;
    var c1 := c.(state := HeaderField, pend := []);
    var c2 := c1.(pend := h.name, used := c1.used + |h.name|);
    var c3 := c2.(state := HeaderValueStart, pend := [], used := c2.used + 2, log := c.log + [Emit(KField, h.name)]);
    var c4 := c3.(state := HeaderValue);
    var c5 := c4.(pend := h.value, used := c4.used + |h.value|);
    StartsName(b, c, h.name + t1);
    NameRuns(b, c1, h.name);
    FeedConcat(b, c1, h.name, t1);
    assert t1 == [COLON] + ([SP] + t2);
    ColonByte(b, c2);
    SpaceByte(b, OnByte(b, c2, COLON));
    FeedCons(b, c2, COLON, [SP] + t2);
    FeedCons(b, OnByte(b, c2, COLON), SP, t2);
    StartsValue(b, c3, t2);
    ValueRuns(b, c4, h.value);
    FeedConcat(b, c4, h.value, [CR, LF]);
    LineEnd(b, c5);
    assert [] + h.name == h.name && [] + h.value == h.value && HeaderEvents([h][1..]) == [];
    assert c.log + HeaderEvents([h]) == c.log + [Emit(KField, h.name)] + [Emit(KValue, h.value)];
  }

  lemma HeadersSplit(hs: seq<Header>)
    requires hs != []
    ensures HeadersText(hs) == HeaderText(hs[0]) + HeadersText(hs[1..])
    ensures HeaderEvents(hs) == HeaderEvents([hs[0]]) + HeaderEvents(hs[1..])
  {
    hide HeaderText;
    assert [hs[0]][1..] == [];
  }

  lemma {:induction false} HeadersRun(b: seq<byte>, c: Conf, hs: seq<Header>)
    requires c.ok && c.state.HeaderFieldStart? && c.pend == [] && Between(c.log)
    requires forall h :: h in hs ==> PlainHeader(h)
    ensures Feed(b, c, HeadersText(hs)) == c.(used := c.used + |HeadersText(hs)|, log := c.log + HeaderEvents(hs))
    decreases |hs|
  {
    hide Feed, OnByte, PlainHeader, HeaderText, HeadersText, HeaderEvents, Between;
    if hs == [] {
      NoHeaders(b, c);
    } else {
      var first, rest := hs[0], hs[1..];
      var d := c.(used := c.used + |HeaderText(first)|, log := c.log + HeaderEvents([first]));
      HeadersSplit(hs);
      HeaderRuns(b, c, first);
      FeedConcat(b, c, HeaderText(first), HeadersText(rest));
      HeadersRun(b, d, rest);
      assert c.log + HeaderEvents(hs) == d.log + HeaderEvents(rest);
    }
  }

  lemma NoHeaders(b: seq<byte>, c: Conf)
    ensures HeadersText([]) == [] && HeaderEvents([]) == [] && Feed(b, c, []) == c && c.log + [] == c.log
  {
  }

  // ---- the run over a part and a body --------------------------------------------------------

  lemma EmptyLine(b: seq<byte>, c: Conf)
    requires c.ok && c.state.HeaderFieldStart? && c.pend == []
    ensures Feed(b, c, [CR, LF]) == c.(state := PartDataStart, used := c.used + 2)
  {
    hide Push;
    assert [CR, LF] == [CR] + [LF];
    FeedCons(b, c, CR, [LF]);
    FeedOne(b, OnByte(b, c, CR), LF);
  }

  lemma StartsData(b: seq<byte>, c: Conf, s: seq<byte>)
    requires c.ok && c.state.PartDataStart? && s != []
    ensures Feed(b, c, s) == Feed(b, Heard(c, Notice(HeadersComplete)).(state := PartData), s)
  {
    hide Push, DataByte;
  }

  /** Headers and the empty line. */
  lemma PartHeadRuns(b: seq<byte>, c: Conf, hs: seq<Header>, rest: seq<byte>)
    requires c.ok && c.state.HeaderFieldStart? && c.pend == [] && Between(c.log)
    requires forall h :: h in hs ==> PlainHeader(h)
    ensures Feed(b, c, HeadersText(hs) + ([CR, LF] + rest))
            == Feed(b, c.(state := PartDataStart, used := c.used + |HeadersText(hs)| + 2,
                          log := c.log + HeaderEvents(hs)), rest)
  {
    hide OnByte, Feed, HeadersText, HeaderEvents, PlainHeader;
    var d := c.(used := c.used + |HeadersText(hs)|, log := c.log + HeaderEvents(hs));
    HeadersRun(b, c, hs);
    FeedConcat(b, c, HeadersText(hs), [CR, LF] + rest);
    EmptyLine(b, d);
    FeedConcat(b, d, [CR, LF], rest);
  }

  lemma PartRuns(b: seq<byte>, c: Conf, p: Part)
    requires b != [] && CR !in b && PlainPart(b, p)
    requires c.ok && c.state.HeaderFieldStart? && c.pend == [] && Between(c.log)
    ensures Feed(b, c, PartText(b, p))
            == c.(state := PartDataAlmostEnd, index := |b|, used := c.used + |PartText(b, p)|,
                  log := c.log + PartEvents(p))
  {
    hide OnByte, Feed, HeadersText, HeaderEvents, Occurs, Delimiter, PlainHeader, Between;
    var rest := p.body + Delimiter(b);
    var events := c.log + HeaderEvents(p.headers);
    var d := c.(state := PartDataStart, used := c.used + |HeadersText(p.headers)| + 2, log := events);
    PartHeadRuns(b, c, p.headers, rest);
    DelimiterLength(b);
    StartsData(b, d, rest);
    DelimiterFound(b, Heard(d, Notice(HeadersComplete)).(state := PartData), p.body);
    var x, y, z := [Notice(HeadersComplete)], [Emit(KData, p.body)], [Notice(PartDataEnded)];
    assert [Notice(HeadersComplete), Emit(KData, p.body), Notice(PartDataEnded)] == x + y + z;
    Regrouped(c.log, HeaderEvents(p.headers), x + y + z);
    Regrouped(events, x + y, z);
    Regrouped(events, x, y);
  }

  lemma DelimiterLength(b: seq<byte>)
    ensures |Delimiter(b)| == |b| + 2
  {
  }

  lemma LastHyphens(b: seq<byte>, c: Conf)
    requires c.ok && c.state.PartDataAlmostEnd?
    ensures Feed(b, c, [HYPHEN, HYPHEN]) == c.(state := End, used := c.used + 2, log := c.log + [Notice(BodyEnd)])
  {
    assert [HYPHEN, HYPHEN] == [HYPHEN] + [HYPHEN];
    FeedCons(b, c, HYPHEN, [HYPHEN]);
    FeedOne(b, OnByte(b, c, HYPHEN), HYPHEN);
  }

  lemma NextPart(b: seq<byte>, c: Conf)
    requires c.ok && c.state.PartDataAlmostEnd?
    ensures Feed(b, c, [CR, LF])
            == c.(state := HeaderFieldStart, used := c.used + 2, log := c.log + [Notice(PartDataBegin)])
  {
    assert [CR, LF] == [CR] + [LF];
    FeedCons(b, c, CR, [LF]);
    FeedOne(b, OnByte(b, c, CR), LF);
  }

  /** The last part and the two hyphens behind it. */
  lemma LastPartRuns(b: seq<byte>, c: Conf, p: Part)
    requires b != [] && CR !in b && PlainPart(b, p)
    requires c.ok && c.state.HeaderFieldStart? && c.pend == [] && Between(c.log)
    ensures Feed(b, c, PartText(b, p) + [HYPHEN, HYPHEN])
            == c.(state := End, index := |b|, used := c.used + |PartText(b, p)| + 2,
                  log := c.log + PartEvents(p) + [Notice(BodyEnd)])
  {
    hide OnByte, Feed, PartText, PartEvents, PlainPart, Between;
    PartRuns(b, c, p);
    FeedConcat(b, c, PartText(b, p), [HYPHEN, HYPHEN]);
    LastHyphens(b, Feed(b, c, PartText(b, p)));
  }

  /** A part and the line end that announces the next one. */
  lemma PartAndNextRuns(b: seq<byte>, c: Conf, p: Part, rest: seq<byte>)
    requires b != [] && CR !in b && PlainPart(b, p)
    requires c.ok && c.state.HeaderFieldStart? && c.pend == [] && Between(c.log)
    ensures Feed(b, c, PartText(b, p) + ([CR, LF] + rest))
            == Feed(b, c.(index := |b|, used := c.used + |PartText(b, p)| + 2,
                          log := c.log + PartEvents(p) + [Notice(PartDataBegin)]), rest)
  {
    hide OnByte, Feed, PartText, PartEvents, PlainPart, Between;
    var d := Feed(b, c, PartText(b, p));
    PartRuns(b, c, p);
    FeedConcat(b, c, PartText(b, p), [CR, LF] + rest);
    NextPart(b, d);
    FeedConcat(b, d, [CR, LF], rest);
  }

  lemma BeginsBetween(before: PartLog)
    ensures Between(before + [Notice(PartDataBegin)])
  {
  }

  lemma PartsSplit(before: PartLog, ps: seq<Part>)
    requires ps != []
    ensures var log := before + [Notice(PartDataBegin)] + PartEvents(ps[0]);
            before + PartsEvents(ps) == if |ps| == 1 then log + [Notice(BodyEnd)] else log + PartsEvents(ps[1..])
  {
    hide PartEvents;
    var begin, p := [Notice(PartDataBegin)], PartEvents(ps[0]);
    var more := if |ps| == 1 then [Notice(BodyEnd)] else PartsEvents(ps[1..]);
    Regrouped(before, begin, p);
    Regrouped(before, begin + p, more);
  }

  /** The events of parts whose first part_data_begin has been made. */
  lemma {:induction false} PartsRun(b: seq<byte>, c: Conf, before: PartLog, ps: seq<Part>)
    requires b != [] && CR !in b && ps != [] && forall p :: p in ps ==> PlainPart(b, p)
    requires c.ok && c.state.HeaderFieldStart? && c.pend == [] && c.log == before + [Notice(PartDataBegin)]
    ensures Feed(b, c, PartsText(b, ps))
            == c.(state := End, index := |b|, used := c.used + |PartsText(b, ps)|, log := before + PartsEvents(ps))
    decreases |ps|
  {
    hide OnByte, Feed, PartText, PartEvents, PartsEvents, PlainPart, Between;
    var p := ps[0];
    assert p in ps;
    BeginsBetween(before);
    PartsSplit(before, ps);
    if |ps| == 1 {
      LastPartRuns(b, c, p);
    } else {
      var log := c.log + PartEvents(p);
      var d := c.(index := |b|, used := c.used + |PartText(b, p)| + 2, log := log + [Notice(PartDataBegin)]);
      PartAndNextRuns(b, c, p, PartsText(b, ps[1..]));
      PartsRun(b, d, log, ps[1..]);
    }
  }

  // ---- the first boundary -------------------------------------------------------------------

  lemma StartByte(b: seq<byte>, c: Conf, ch: byte)
    requires c.ok && c.state.StartBoundary? && c.index < |b| && ch == b[c.index]
    ensures OnByte(b, c, ch) == c.(index := c.index + 1, used := c.used + 1)
  {
    hide Push;
  }

  lemma {:induction false} StartRuns(b: seq<byte>, c: Conf, k: nat)
    requires k <= |b| && c.ok && c.state.StartBoundary? && c.index == 0
    ensures Feed(b, c, b[..k]) == c.(index := k, used := c.used + k)
    decreases k
  {
    hide OnByte;
    if k > 0 {
      var d := c.(index := k - 1, used := c.used + k - 1);
      assert b[..k] == b[..k - 1] + [b[k - 1]];
      StartRuns(b, c, k - 1);
      FeedConcat(b, c, b[..k - 1], [b[k - 1]]);
      FeedOne(b, d, b[k - 1]);
      StartByte(b, d, b[k - 1]);
    }
  }

  lemma Starts(b: seq<byte>, c: Conf, s: seq<byte>)
    requires c.ok && c.state.Start? && s != []
    ensures Feed(b, c, s) == Feed(b, c.(state := StartBoundary, index := 0), s)
  {
    hide Push, BoundaryByte;
  }

  lemma FirstLine(b: seq<byte>, c: Conf)
    requires c.ok && c.state.StartBoundary? && c.index == |b|
    ensures Feed(b, c, [CR, LF])
            == c.(state := HeaderFieldStart, index := 0, used := c.used + 2, log := Push(c.log, Notice(PartDataBegin)))
  {
    hide Push;
    assert [CR, LF] == [CR] + [LF];
    FeedCons(b, c, CR, [LF]);
    FeedOne(b, OnByte(b, c, CR), LF);
  }

  /** A parser as multipart_parser_init leaves it. */
  function Fresh(): Conf { Conf(Start, 0, [], [], 0, true) }

  /**
    The round trip: parsing what was printed reports every name, value and body, and the end of the body
    once, and so gives the parts back.
   */
  lemma RoundTrip(b: seq<byte>, ps: seq<Part>)
    requires b != [] && CR !in b && ps != [] && forall p :: p in ps ==> PlainPart(b, p)
    ensures Call(b, Fresh(), BodyText(b, ps)) == Conf(End, |b|, [], PartsEvents(ps), |BodyText(b, ps)|, true)
    ensures ReadParts(Call(b, Fresh(), BodyText(b, ps)).log) == ps
  {
    hide OnByte, Feed, PartsText, PartsEvents, PlainPart, ReadParts;
    var c, text := Fresh(), PartsText(b, ps);
    var d := c.(state := StartBoundary);
    var e := d.(index := |b|, used := |b|);
    var f := e.(state := HeaderFieldStart, index := 0, used := |b| + 2, log := [Notice(PartDataBegin)]);
    Starts(b, c, BodyText(b, ps));
    StartRuns(b, d, |b|);
    assert b[..|b|] == b;
    FeedConcat(b, d, b, [CR, LF] + text);
    FirstLine(b, e);
    FeedConcat(b, e, [CR, LF], text);
    PartsRun(b, f, [], ps);
    PartsReadBack(ps);
    assert [] + PartsEvents(ps) == PartsEvents(ps);
  }

  /** A parser reads back what was printed, from any buffers cut at clean cuts. */
  method ParseParts(boundary: seq<byte>, ps: seq<Part>, pieces: seq<seq<byte>>)
    returns (parser: MultipartParser, used: nat)
    requires boundary != [] && CR !in boundary && ps != [] && forall p :: p in ps ==> PlainPart(boundary, p)
    requires [] !in pieces && Flatten(pieces) == BodyText(boundary, ps) && CleanCuts(boundary, Fresh(), pieces)
    ensures parser.state == End && used == |BodyText(boundary, ps)|
    ensures Merged(parser.log) == PartsEvents(ps) && ReadParts(Merged(parser.log)) == ps
  {
    hide Call, Calls, CleanCuts, BodyText, Push, PartsEvents, ReadParts, PlainPart;
    parser := new MultipartParser(boundary);
    assert parser.Now() == Fresh();
    used := ExecuteAll(parser, pieces);
    RoundTrip(boundary, ps);
    FieldsAgree(boundary, Fresh(), pieces);
    CallbacksAgree(boundary, Fresh(), pieces);
  }
}
