/**
  Lists of header lines: what they are delivered as, and what they leave in the fields that decide how the
  message goes on.
 */
module HttpLines {
  import opened Common
  import opened Events
  import opened HttpTypes
  import opened HttpSwitch
  import opened HttpSpec
  import opened HttpHeaders
  import opened HttpLengths

  const COLON: byte := 58

  /** A header line: name, colon, `gap`, value, and a line end. */
  datatype Header = Header(name: seq<byte>, gap: seq<byte>, value: seq<byte>, eol: seq<byte>)

  function Line(h: Header): seq<byte> { (h.name + [COLON]) + (h.gap + (h.value + h.eol)) }

  function Lines(hs: seq<Header>): seq<byte> {
    if hs == [] then [] else Lines(hs[..|hs| - 1]) + Line(hs[|hs| - 1])
  }

  // ---- kinds of headers ------------------------------------------------------------

  predicate IsLength(h: Header) { EqualFold(h.name, "content-length") }

  predicate IsCoding(h: Header) { EqualFold(h.name, "transfer-encoding") }

  predicate IsUpgrade(h: Header) { EqualFold(h.name, "upgrade") }

  /** A line in which the length, if it is one, is a number that fits. */
  predicate Lawful(h: Header) {
    && TokenString(h.name) && Blank(h.gap) && Eol(h.eol)
    && if IsLength(h) && h.value != [] then DecimalValue(h.value) && Value(10, h.value) < UINT32_MAX
       else PlainValue(h.value)
  }

  predicate Blank(s: seq<byte>) { forall i :: 0 <= i < |s| ==> s[i] == SP || s[i] == HT }

  /** A header that closes the connection after its message. */
  predicate Closes(h: Header) {
    (EqualFold(h.name, "connection") || EqualFold(h.name, "proxy-connection")) && Means(h.value, "close")
  }

  predicate Chunks(h: Header) { IsCoding(h) && Means(h.value, "chunked") }

  predicate Upgrades(h: Header) { IsUpgrade(h) && h.value != [] }

  /** A line that says nothing about the body, the protocol or closing the connection. */
  predicate Ordinary(h: Header) { Lawful(h) && !IsLength(h) && !IsCoding(h) && !IsUpgrade(h) && !Closes(h) }

  // ---- what a list of headers says -------------------------------------------------

  /** The length that the last Content-Length gives. */
  function LastLength(hs: seq<Header>): Option<nat> {
    if hs == [] then None
    else
      var h := hs[|hs| - 1];
      if IsLength(h) && h.value != [] then Some(Value(10, h.value)) else LastLength(hs[..|hs| - 1])
  }

  predicate AnyCloses(hs: seq<Header>) { exists h <- hs :: Closes(h) }

  predicate AnyChunks(hs: seq<Header>) { exists h <- hs :: Chunks(h) }

  predicate AnyUpgrades(hs: seq<Header>) { exists h <- hs :: Upgrades(h) }

  /** What a header makes of the fields that decide how the message goes on. */
  function Told(f: Fields, h: Header): Fields {
    f.(contentLength := if IsLength(h) && h.value != [] && Value(10, h.value) < UINT32_MAX then Value(10, h.value)
                        else f.contentLength,
       flags := f.flags.(chunked := f.flags.chunked || Chunks(h), close := f.flags.close || Closes(h),
                         upgrade := f.flags.upgrade || Upgrades(h)))
  }

  function AllTold(f: Fields, hs: seq<Header>): Fields {
    if hs == [] then f else Told(AllTold(f, hs[..|hs| - 1]), hs[|hs| - 1])
  }

  /** `g` is `f` but for the recogniser's own fields and the flag of keep-alive. */
  predicate SameButRead(f: Fields, g: Fields) {
    g == f.(state := g.state, headerState := g.headerState, index := g.index, nread := g.nread,
            flags := f.flags.(keepAlive := g.flags.keepAlive))
  }

  lemma ListSnoc(hs: seq<Header>)
    requires hs != []
    ensures var init, h := hs[..|hs| - 1], hs[|hs| - 1];
            && (AnyCloses(hs) <==> AnyCloses(init) || Closes(h))
            && (AnyChunks(hs) <==> AnyChunks(init) || Chunks(h))
            && (AnyUpgrades(hs) <==> AnyUpgrades(init) || Upgrades(h))
  {
    hide Closes, Chunks, Upgrades;
    assert hs == hs[..|hs| - 1] + [hs[|hs| - 1]];
  }

  /** The last length counts, and a flag is set if and only if some line sets it. */
  lemma {:induction false} AllToldMeans(f: Fields, hs: seq<Header>)
    requires forall h <- hs :: Lawful(h)
    ensures LastLength(hs).Some? ==> LastLength(hs).value < UINT32_MAX
    ensures AllTold(f, hs)
         == f.(contentLength := if LastLength(hs).Some? then LastLength(hs).value else f.contentLength,
               flags := f.flags.(chunked := f.flags.chunked || AnyChunks(hs), close := f.flags.close || AnyCloses(hs),
                                 upgrade := f.flags.upgrade || AnyUpgrades(hs)))
    decreases |hs|
  {
    hide Closes, Chunks, Upgrades, IsLength, Value, PlainValue, DecimalValue, TokenString, AnyCloses, AnyChunks,
      AnyUpgrades;
    if hs == [] {
      NoneTold();
    } else {
      var init, h := hs[..|hs| - 1], hs[|hs| - 1];
      assert h in hs && forall k <- init :: k in hs;
      ListSnoc(hs);
      AllToldMeans(f, init);
    }
  }

  lemma NoneTold()
    ensures !AnyCloses([]) && !AnyChunks([]) && !AnyUpgrades([])
  {
  }

  lemma {:induction false} OrdinaryTell(f: Fields, hs: seq<Header>)
    requires forall h <- hs :: Ordinary(h)
    ensures AllTold(f, hs) == f && forall h <- hs :: Lawful(h)
    decreases |hs|
  {
    hide Lawful, Closes, IsLength, IsCoding, IsUpgrade, Means, Value;
    if hs != [] {
      var init, h := hs[..|hs| - 1], hs[|hs| - 1];
      assert hs == init + [h];
      assert h in hs && forall k <- init :: k in hs;
      OrdinaryTell(f, init);
    }
  }

  // ---- callbacks -------------------------------------------------------------------

  function HeaderEvents(h: Header): HttpLog { [FieldData(h.name), ValueData(h.value)] }

  function HeadersEvents(hs: seq<Header>): HttpLog {
    if hs == [] then [] else HeadersEvents(hs[..|hs| - 1]) + HeaderEvents(hs[|hs| - 1])
  }

  /** No merging with data of kind `k` happens at the end of this log. */
  predicate Closed(log: HttpLog, k: Kind) { log == [] || log[|log| - 1].Notice? || log[|log| - 1].kind != k }

  lemma PushClosed(log: HttpLog, k: Kind, s: seq<byte>)
    requires Closed(log, k)
    ensures Push(log, Data(k, s)) == log + [Data(k, s)]
    ensures forall j: Kind :: j != k ==> Closed(log + [Data(k, s)], j)
  {
  }

  // ---- the run over a line ---------------------------------------------------------

  lemma GapByte(hc: Fields -> int, c: Conf, ch: byte)
    requires c.run.Going? && c.f.state.HeaderValueStart? && Room(c.f, 1) && (ch == SP || ch == HT)
    ensures OnByte(hc, c, ch) == Reached(c, c.f.(nread := c.f.nread + 1), c.log, 1)
  {
    hide Push, Dispatch, StartSwitch, RequestSwitch, BodySwitch, FieldStartArm, FieldArm, ValueArm,
      HeaderAlmostDoneArm, LwsArm, HeadersAlmostDoneArm, HeadersDoneArm;
    OnByteSwitch(hc, c, ch);
  }

  lemma {:induction false} GapRun(hc: Fields -> int, c: Conf, s: seq<byte>)
    requires c.run.Going? && c.f.state.HeaderValueStart? && Blank(s) && Room(c.f, |s|)
    ensures Feed(hc, c, s) == Reached(c, c.f.(nread := c.f.nread + |s|), c.log, |s|)
    decreases |s|
  {
    hide OnByte, Feed;
    if s == [] {
      FeedNothing(hc, c);
    } else {
      var init, last := s[..|s| - 1], s[|s| - 1];
      assert s == init + [last];
      GapRun(hc, c, init);
      FeedSnoc(hc, c, init, last);
      GapByte(hc, Feed(hc, c, init), last);
    }
  }

  /** Name, colon and gap. */
  lemma NamePart(hc: Fields -> int, c: Conf, h: Header, rest: seq<byte>) returns (e: Conf)
    requires c.run.Going? && AtLine(c.f.state) && TokenString(h.name) && Blank(h.gap)
    requires Room(c.f, |h.name| + 1 + |h.gap|)
    ensures var n := |h.name| + 1 + |h.gap|;
            && e == Reached(c, c.f.(state := HeaderValueStart, headerState := NameMeaning(h.name), index := e.f.index,
                                    nread := c.f.nread + n),
                            Push(c.log, FieldData(h.name)), n)
            && Feed(hc, c, (h.name + [COLON]) + (h.gap + rest)) == Feed(hc, e, rest)
  {
    hide OnByte, Feed, Push, NameMeaning, EqualFold, Blank, Token;
    NameRecognised(hc, c, h.name);
    var d := Feed(hc, c, h.name + [COLON]);
    FeedConcat(hc, c, h.name + [COLON], h.gap + rest);
    FeedConcat(hc, d, h.gap, rest);
    GapRun(hc, d, h.gap);
    e := Feed(hc, d, h.gap);
  }

  /** The value of a line, from the configuration behind its gap. */
  predicate ValueTold(c: Conf, h: Header, d: Conf) {
    var n := |h.value| + |h.eol|;
    && d == Reached(c, d.f, Push(c.log, ValueData(h.value)), n)
    && AtLine(d.f.state) && SameButRead(Told(c.f, h), d.f) && d.f.nread == c.f.nread + n
  }

  lemma ComparedValue(hc: Fields -> int, c: Conf, h: Header)
    requires c.run.Going? && c.f.state.HeaderValueStart? && Lawful(h) && c.f.headerState == NameMeaning(h.name)
    requires !IsLength(h) && !IsUpgrade(h) && Room(c.f, |h.value| + |h.eol|)
    ensures ValueTold(c, h, Feed(hc, c, h.value + h.eol))
  {
    hide OnByte, Feed, Push, NameMeaning, TokenString, PlainValue, EqualFold, Means, Eol, Blank, Value;
    NameMeaningFold(h.name);
    NamesDiffer(h.name);
    ValueRecognised(hc, c, h.value, h.eol);
  }

  lemma NamesDiffer(name: seq<byte>)
    ensures EqualFold(name, "transfer-encoding") ==>
              !EqualFold(name, "connection") && !EqualFold(name, "proxy-connection")
              && !EqualFold(name, "content-length")
    ensures EqualFold(name, "upgrade") || EqualFold(name, "content-length") ==>
              !EqualFold(name, "connection") && !EqualFold(name, "proxy-connection")
              && !EqualFold(name, "transfer-encoding")
    ensures EqualFold(name, "upgrade") ==> !EqualFold(name, "content-length")
  {
  }

  lemma LengthValue(hc: Fields -> int, c: Conf, h: Header)
    requires c.run.Going? && c.f.state.HeaderValueStart? && Lawful(h) && c.f.headerState == NameMeaning(h.name)
    requires IsLength(h) && h.value != [] && Room(c.f, |h.value| + |h.eol|)
    ensures ValueTold(c, h, Feed(hc, c, h.value + h.eol))
  {
    hide OnByte, Feed, Push, NameMeaning, TokenString, EqualFold, DecimalValue, Value, Means, Eol, Blank;
    NameMeaningFold(h.name);
    NamesDiffer(h.name);
    LengthRecognised(hc, c, h.value);
    FeedConcat(hc, c, h.value, h.eol);
    LineEnd(hc, Feed(hc, c, h.value), h.eol);
    PushTwice(c.log, KValue, h.value, []);
    assert h.value + [] == h.value;
  }

  lemma EmptyTold(hc: Fields -> int, c: Conf, h: Header)
    requires c.run.Going? && c.f.state.HeaderValueStart? && Lawful(h) && h.value == [] && Room(c.f, |h.eol|)
    ensures ValueTold(c, h, Feed(hc, c, h.value + h.eol))
  {
    hide OnByte, Feed, Push, TokenString, EqualFold, Value, Means, Eol, Blank;
    assert h.value + h.eol == h.eol;
    NothingMeant();
    EmptyValue(hc, c, h.eol);
  }

  lemma UpgradeFirst(hc: Fields -> int, c: Conf, ch: byte)
    requires c.run.Going? && c.f.state.HeaderValueStart? && c.f.headerState.Upgrade? && Room(c.f, 1) && PlainValue([ch])
    ensures OnByte(hc, c, ch)
            == Reached(c, c.f.(state := State.HeaderValue, headerState := General, index := 0, nread := c.f.nread + 1,
                               flags := c.f.flags.(upgrade := true)),
                       Push(c.log, ValueData([ch])), 1)
  {
    hide Push, Dispatch, StartSwitch, RequestSwitch, BodySwitch, FieldStartArm, FieldArm, ValueArm,
      HeaderAlmostDoneArm, LwsArm, HeadersAlmostDoneArm, HeadersDoneArm;
    assert ch in [ch];
    OnByteSwitch(hc, c, ch);
  }

  /** The value of an upgrade header: only that there is one matters. */
  lemma {:induction false} UpgradeRun(hc: Fields -> int, c: Conf, v: seq<byte>)
    requires c.run.Going? && c.f.state.HeaderValueStart? && c.f.headerState.Upgrade? && Room(c.f, |v|)
    requires v != [] && PlainValue(v)
    ensures Feed(hc, c, v)
            == Reached(c, c.f.(state := State.HeaderValue, headerState := General, index := 0, nread := c.f.nread + |v|,
                               flags := c.f.flags.(upgrade := true)),
                       Push(c.log, ValueData(v)), |v|)
    decreases |v|
  {
    hide OnByte, Feed, Push, PlainValue;
    var init, last := v[..|v| - 1], v[|v| - 1];
    assert v == init + [last];
    PlainSnoc(v);
    if init == [] {
      assert v == [last];
      FeedOne(hc, c, last);
      UpgradeFirst(hc, c, last);
    } else {
      UpgradeRun(hc, c, init);
      FeedSnoc(hc, c, init, last);
      ValueNext(hc, Feed(hc, c, init), last);
      PushSnoc(c.log, KValue, init, last);
    }
  }

  lemma PlainSnoc(v: seq<byte>)
    requires v != [] && PlainValue(v)
    ensures var init, last := v[..|v| - 1], v[|v| - 1];
            last != CR && last != LF && PlainValue(init) && (init == [] ==> PlainValue([last]))
  {
    var init, last := v[..|v| - 1], v[|v| - 1];
    assert last in v;
    forall b <- init
      ensures b in v && b != CR && b != LF
    {
    }
  }

  lemma UpgradeValue(hc: Fields -> int, c: Conf, h: Header)
    requires c.run.Going? && c.f.state.HeaderValueStart? && Lawful(h) && c.f.headerState == NameMeaning(h.name)
    requires IsUpgrade(h) && h.value != [] && Room(c.f, |h.value| + |h.eol|)
    ensures ValueTold(c, h, Feed(hc, c, h.value + h.eol))
  {
    hide OnByte, Feed, Push, NameMeaning, TokenString, PlainValue, EqualFold, Value, Means, Eol, Blank;
    NameMeaningFold(h.name);
    NamesDiffer(h.name);
    UpgradeRun(hc, c, h.value);
    FeedConcat(hc, c, h.value, h.eol);
    LineEnd(hc, Feed(hc, c, h.value), h.eol);
    PushTwice(c.log, KValue, h.value, []);
    assert h.value + [] == h.value;
  }

  lemma ValuePart(hc: Fields -> int, c: Conf, h: Header)
    requires c.run.Going? && c.f.state.HeaderValueStart? && Lawful(h) && c.f.headerState == NameMeaning(h.name)
    requires Room(c.f, |h.value| + |h.eol|)
    ensures ValueTold(c, h, Feed(hc, c, h.value + h.eol))
  {
    hide Feed, Lawful, ValueTold, IsLength, IsUpgrade, NameMeaning;
    if h.value == [] {
      EmptyTold(hc, c, h);
    } else if IsLength(h) {
      LengthValue(hc, c, h);
    } else if IsUpgrade(h) {
      UpgradeValue(hc, c, h);
    } else {
      ComparedValue(hc, c, h);
    }
  }

  lemma LawfulParts(h: Header)
    requires Lawful(h)
    ensures TokenString(h.name) && Blank(h.gap)
  {
  }

  lemma RoomParts(f: Fields, h: Header)
    requires Room(f, |Line(h)|)
    ensures Room(f, |h.name| + 1 + |h.gap|)
  {
  }

  lemma RoomLater(f: Fields, g: Fields, h: Header)
    requires Room(f, |Line(h)|) && g.nread == f.nread + |h.name| + 1 + |h.gap|
    ensures Room(g, |h.value| + |h.eol|)
  {
  }

  lemma ToldLater(f: Fields, g: Fields, h: Header)
    requires SameButRead(f, g)
    ensures forall k: Fields :: SameButRead(Told(g, h), k) ==> SameButRead(Told(f, h), k)
  {
    hide IsLength, Chunks, Closes, Upgrades, Value;
  }

  lemma HeaderLog(log: HttpLog, h: Header)
    requires Closed(log, KField)
    ensures Push(Push(log, FieldData(h.name)), ValueData(h.value)) == log + HeaderEvents(h)
    ensures Closed(log + HeaderEvents(h), KField)
  {
    PushClosed(log, KField, h.name);
    PushClosed(log + [FieldData(h.name)], KValue, h.value);
    Regrouped(log, [FieldData(h.name)], [ValueData(h.value)]);
  }

  /** A header line yields its name and value, and leaves what it says. */
  lemma LineRun(hc: Fields -> int, c: Conf, h: Header)
    requires c.run.Going? && AtLine(c.f.state) && Lawful(h) && Room(c.f, |Line(h)|) && Closed(c.log, KField)
    ensures var d := Feed(hc, c, Line(h));
            && d == Reached(c, d.f, c.log + HeaderEvents(h), |Line(h)|)
            && AtLine(d.f.state) && SameButRead(Told(c.f, h), d.f) && d.f.nread == c.f.nread + |Line(h)|
    ensures Closed(c.log + HeaderEvents(h), KField)
  {
    hide Feed, Push, NameMeaning, Lawful, AtLine, Room, Told, Closed;
    LawfulParts(h);
    RoomParts(c.f, h);
    var e := NamePart(hc, c, h, h.value + h.eol);
    RoomLater(c.f, e.f, h);
    ValuePart(hc, e, h);
    ToldLater(c.f, e.f, h);
    HeaderLog(c.log, h);
  }

  /** Any list of header lines. */
  lemma {:induction false} LinesRun(hc: Fields -> int, c: Conf, hs: seq<Header>)
    requires c.run.Going? && AtLine(c.f.state) && Room(c.f, |Lines(hs)|) && Closed(c.log, KField)
    requires forall h <- hs :: Lawful(h)
    ensures var d := Feed(hc, c, Lines(hs));
            && d == Reached(c, d.f, c.log + HeadersEvents(hs), |Lines(hs)|)
            && AtLine(d.f.state) && SameButRead(AllTold(c.f, hs), d.f) && d.f.nread == c.f.nread + |Lines(hs)|
    ensures Closed(c.log + HeadersEvents(hs), KField)
    decreases |hs|
  {
    hide OnByte, Feed, Push, Lawful, HeaderEvents, Line, Closed, AtLine, Told;
    if hs == [] {
      FeedNothing(hc, c);
      assert c.log + [] == c.log;
    } else {
      var init, last := hs[..|hs| - 1], hs[|hs| - 1];
      assert last in hs && forall h <- init :: h in hs;
      LinesRun(hc, c, init);
      var d := Feed(hc, c, Lines(init));
      FeedConcat(hc, c, Lines(init), Line(last));
      LineRun(hc, d, last);
      ToldLater(AllTold(c.f, init), d.f, last);
      Regrouped(c.log, HeadersEvents(init), HeaderEvents(last));
    }
  }

  /** What any list of header lines leaves: the last length, and the flags that some line sets. */
  lemma LinesLeave(hc: Fields -> int, c: Conf, hs: seq<Header>)
    requires c.run.Going? && AtLine(c.f.state) && Room(c.f, |Lines(hs)|) && Closed(c.log, KField)
    requires forall h <- hs :: Lawful(h)
    ensures LastLength(hs).Some? ==> LastLength(hs).value < UINT32_MAX
    ensures var d := Feed(hc, c, Lines(hs));
            && d == Reached(c, d.f, c.log + HeadersEvents(hs), |Lines(hs)|)
            && AtLine(d.f.state) && Closed(d.log, KField)
            && d.f == c.f.(state := d.f.state, headerState := d.f.headerState, index := d.f.index,
                           nread := c.f.nread + |Lines(hs)|,
                           contentLength := if LastLength(hs).Some? then LastLength(hs).value else c.f.contentLength,
                           flags := c.f.flags.(chunked := c.f.flags.chunked || AnyChunks(hs),
                                               close := c.f.flags.close || AnyCloses(hs),
                                               upgrade := c.f.flags.upgrade || AnyUpgrades(hs),
                                               keepAlive := d.f.flags.keepAlive))
  {
    hide Feed, Lawful, AllTold, LastLength, AnyChunks, AnyCloses, AnyUpgrades, HeadersEvents, Lines, AtLine, Closed;
    LinesRun(hc, c, hs);
    AllToldMeans(c.f, hs);
  }
}
