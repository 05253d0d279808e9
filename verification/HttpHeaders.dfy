/**
  The two nested recognisers of http_parser_execute.  Running one byte after the other, they are shown
  to compare the header name, and the value of the two headers that matter, with fixed strings.
 */
module HttpHeaders {
  import opened Common
  import opened Events
  import opened HttpTypes
  import opened HttpSwitch
  import opened HttpSpec

  predicate Same(b: byte, c: char) { b == c as int }

  /** `s` is the beginning, or all, of the string `x`. */
  predicate Begins(s: seq<byte>, x: string) {
    |s| <= |x| && forall i :: 0 <= i < |s| ==> Same(s[i], x[i])
  }

  predicate Spells(s: seq<byte>, x: string) { |s| == |x| && Begins(s, x) }

  /** A header name as the recogniser reads it. */
  function Lowered(name: seq<byte>): (r: seq<byte>)
    ensures |r| == |name|
    ensures forall i :: 0 <= i < |name| ==> r[i] == Token(name[i])
  {
    if name == [] then [] else Lowered(name[..|name| - 1]) + [Token(name[|name| - 1])]
  }

  predicate TokenString(name: seq<byte>) { name != [] && forall b <- name :: Token(b) != 0 }

  /** The header state for a constant of which `n` bytes have matched. */
  function Progress(h: HeaderState, n: nat): HeaderState { if n < |Pattern(h)| then h else Matched(h) }

  /** The header state after the name bytes `t`, in closed form. */
  function NameState(t: seq<byte>): HeaderState
    requires t != []
  {
    if Begins(t, Pattern(MatchingConnection)) then
      if |t| == 1 then HeaderState.C else if |t| == 2 then CO else if |t| == 3 then CON
      else Progress(MatchingConnection, |t|)
    else if Begins(t, Pattern(MatchingContentLength)) then Progress(MatchingContentLength, |t|)
    else if Begins(t, Pattern(MatchingProxyConnection)) then Progress(MatchingProxyConnection, |t|)
    else if Begins(t, Pattern(MatchingTransferEncoding)) then Progress(MatchingTransferEncoding, |t|)
    else if Begins(t, Pattern(MatchingUpgrade)) then Progress(MatchingUpgrade, |t|)
    else General
  }

  lemma BeginsSnoc(t: seq<byte>, c: byte, x: string)
    ensures Begins(t + [c], x) <==> Begins(t, x) && |t| < |x| && c == At(x, |t|)
  {
    var u := t + [c];
    if Begins(t, x) && |t| < |x| && Same(c, x[|t|]) {
      assert forall i :: 0 <= i < |u| ==> Same(u[i], x[i]);
    }
    if Begins(u, x) {
      assert forall i :: 0 <= i < |t| ==> t[i] == u[i];
      assert Same(u[|t|], x[|t|]);
    }
  }

  /** Lengths of the name constants, and the bytes that tell them apart. */
  lemma NamePatterns()
    ensures var p := Pattern(MatchingConnection);
            |p| == 10 && At(p, 0) == 99 && At(p, 1) == 111 && At(p, 2) == 110 && At(p, 3) == 110
    ensures var p := Pattern(MatchingContentLength);
            |p| == 14 && At(p, 0) == 99 && At(p, 1) == 111 && At(p, 2) == 110 && At(p, 3) == 116
    ensures var p := Pattern(MatchingProxyConnection); |p| == 16 && At(p, 0) == 112
    ensures var p := Pattern(MatchingTransferEncoding); |p| == 17 && At(p, 0) == 116
    ensures var p := Pattern(MatchingUpgrade); |p| == 7 && At(p, 0) == 117
  {
  }

  lemma BeginsShort(t: seq<byte>, x: string)
    requires |x| >= 4 && t != []
    ensures Begins(t, x) ==> t[0] == At(x, 0) && (|t| > 3 ==> t[3] == At(x, 3))
    ensures |t| == 1 ==> (Begins(t, x) <==> t[0] == At(x, 0))
    ensures |t| == 2 ==> (Begins(t, x) <==> t[0] == At(x, 0) && t[1] == At(x, 1))
    ensures |t| == 3 ==> (Begins(t, x) <==> t[0] == At(x, 0) && t[1] == At(x, 1) && t[2] == At(x, 2))
    ensures Begins(t, x) ==> |t| <= |x|
  {
  }

  lemma BeginsBoth(t: seq<byte>, c: byte, x: string)
    requires |x| >= 4 && t != []
    ensures Begins(t + [c], x) <==> Begins(t, x) && |t| < |x| && c == At(x, |t|)
    ensures Begins(t, x) ==> t[0] == At(x, 0) && (|t| > 3 ==> t[3] == At(x, 3)) && |t| <= |x|
    ensures |t| == 1 ==> (Begins(t, x) <==> t[0] == At(x, 0))
    ensures |t| == 2 ==> (Begins(t, x) <==> t[0] == At(x, 0) && t[1] == At(x, 1))
    ensures |t| == 3 ==> (Begins(t, x) <==> t[0] == At(x, 0) && t[1] == At(x, 1) && t[2] == At(x, 2))
  {
    hide Begins;
    BeginsSnoc(t, c, x);
    BeginsShort(t, x);
  }

  lemma NameStateFirst(c: byte)
    ensures NameState([c]) == FirstHeaderState(c)
  {
    hide Pattern, Begins;
    NamePatterns();
    BeginsShort([c], Pattern(MatchingConnection));
    BeginsShort([c], Pattern(MatchingContentLength));
    BeginsShort([c], Pattern(MatchingProxyConnection));
    BeginsShort([c], Pattern(MatchingTransferEncoding));
    BeginsShort([c], Pattern(MatchingUpgrade));
  }

  /** The recogniser's step keeps to the closed form. */
  lemma NameStateStep(t: seq<byte>, c: byte)
    requires t != [] && c != 0
    ensures NameState(t + [c]) == StepName(NameState(t), |t|, c)
    ensures NameCounts(NameState(t)) ==> |t| < 17
  {
    hide Pattern, Begins;
    NamePatterns();
    BeginsBoth(t, c, Pattern(MatchingConnection));
    BeginsBoth(t, c, Pattern(MatchingContentLength));
    BeginsBoth(t, c, Pattern(MatchingProxyConnection));
    BeginsBoth(t, c, Pattern(MatchingTransferEncoding));
    BeginsBoth(t, c, Pattern(MatchingUpgrade));
  }

  // ---- a name, byte after byte -----------------------------------------------------

  /** A new header line is due; after a complete one the machine first looks for a continuation. */
  predicate AtLine(s: State) { s.HeaderFieldStart? || s.HeaderValueLws? }

  function FieldData(s: seq<byte>): HttpEvent { Data(KField, s) }

  function ValueData(s: seq<byte>): HttpEvent { Data(KValue, s) }

  lemma PushSnoc(log: HttpLog, k: Kind, s: seq<byte>, ch: byte)
    ensures Push(Push(log, Data(k, s)), Data(k, [ch])) == Push(log, Data(k, s + [ch]))
  {
    PushTwice(log, k, s, [ch]);
  }

  lemma NameFirst(hc: Fields -> int, c: Conf, ch: byte)
    requires c.run.Going? && AtLine(c.f.state) && Token(ch) != 0 && Room(c.f, 1)
    ensures OnByte(hc, c, ch)
            == Reached(c, c.f.(state := State.HeaderField, headerState := FirstHeaderState(Token(ch)), index := 0,
                               nread := c.f.nread + 1),
                       Push(c.log, FieldData([ch])), 1)
  {
    hide FirstHeaderState, Push, Dispatch, StartSwitch, RequestSwitch, BodySwitch, FieldArm, ValueStartArm, ValueArm,
      HeaderAlmostDoneArm, HeadersAlmostDoneArm, HeadersDoneArm;
    OnByteSwitch(hc, c, ch);
    if c.f.state.HeaderValueLws? {
      var g := Count(c.f).(state := HeaderFieldStart);
      DispatchSwitch(hc, g, c.log, ch);
    }
  }

  lemma NameNext(hc: Fields -> int, c: Conf, ch: byte)
    requires c.run.Going? && c.f.state.HeaderField? && Token(ch) != 0 && Room(c.f, 1)
    ensures var i := if NameCounts(c.f.headerState) then NextIndex(c.f) else c.f.index;
            OnByte(hc, c, ch)
            == Reached(c, c.f.(headerState := StepName(c.f.headerState, i, Token(ch)), index := i,
                               nread := c.f.nread + 1),
                       Push(c.log, FieldData([ch])), 1)
  {
    hide StepName, NameCounts, Push, Dispatch, StartSwitch, RequestSwitch, BodySwitch, FieldStartArm, ValueStartArm,
      ValueArm, HeaderAlmostDoneArm, LwsArm, HeadersAlmostDoneArm, HeadersDoneArm;
    OnByteSwitch(hc, c, ch);
  }

  lemma StepNameIgnores(h: HeaderState, i: nat, j: nat, c: byte)
    requires !NameCounts(h)
    ensures StepName(h, i, c) == StepName(h, j, c)
  {
  }

  lemma LoweredSnoc(init: seq<byte>, ch: byte)
    ensures Lowered(init + [ch]) == Lowered(init) + [Token(ch)]
  {
    hide Token;
    assert (init + [ch])[..|init|] == init;
  }

  lemma TokenSnoc(init: seq<byte>, ch: byte)
    requires TokenString(init + [ch])
    ensures Token(ch) != 0 && (init != [] ==> TokenString(init))
  {
    hide Token;
    var s := init + [ch];
    assert s[|init|] == ch && ch in s;
    forall b | b in init
      ensures Token(b) != 0
    {
      assert b in s;
    }
  }

  /** What a name leaves behind. */
  ghost predicate NameRead(c: Conf, name: seq<byte>, d: Conf)
    requires name != []
  {
    var h := NameState(Lowered(name));
    && d == Reached(c, c.f.(state := State.HeaderField, headerState := h, index := d.f.index,
                            nread := c.f.nread + |name|),
                    Push(c.log, FieldData(name)), |name|)
    && (NameCounts(h) ==> d.f.index == |name| - 1)
  }

  lemma NameReadNext(hc: Fields -> int, c: Conf, init: seq<byte>, d: Conf, ch: byte)
    requires init != [] && NameRead(c, init, d) && Token(ch) != 0 && Room(d.f, 1)
    ensures NameRead(c, init + [ch], OnByte(hc, d, ch))
  {
    hide OnByte, FirstHeaderState, StepName, NameState, NameCounts, Push, Token;
    var h := NameState(Lowered(init));
    NameNext(hc, d, ch);
    NameStateStep(Lowered(init), Token(ch));
    LoweredSnoc(init, ch);
    PushSnoc(c.log, KField, init, ch);
    if !NameCounts(h) {
      StepNameIgnores(h, d.f.index, |init|, Token(ch));
      NameSettled(h, |init|, Token(ch));
    }
  }

  lemma NameSettled(h: HeaderState, i: nat, c: byte)
    requires !NameCounts(h)
    ensures !NameCounts(StepName(h, i, c))
  {
  }

  /** The header-name recogniser computes NameState. */
  lemma {:induction false} NameRun(hc: Fields -> int, c: Conf, name: seq<byte>)
    requires c.run.Going? && AtLine(c.f.state) && TokenString(name) && Room(c.f, |name|)
    ensures NameRead(c, name, Feed(hc, c, name))
    decreases |name|
  {
    hide OnByte, NameRead, FirstHeaderState, Token, Push, NameState;
    var init, last := name[..|name| - 1], name[|name| - 1];
    assert name == init + [last];
    TokenSnoc(init, last);
    if init == [] {
      FeedOne(hc, c, last);
      NameFirstRead(hc, c, last);
    } else {
      NameRun(hc, c, init);
      NameReadRoom(c, init, Feed(hc, c, init));
      NameReadNext(hc, c, init, Feed(hc, c, init), last);
    }
  }

  lemma NameReadRoom(c: Conf, init: seq<byte>, d: Conf)
    requires init != [] && NameRead(c, init, d) && Room(c.f, |init| + 1)
    ensures Room(d.f, 1)
  {
    hide NameState, Push;
  }

  lemma NameFirstRead(hc: Fields -> int, c: Conf, ch: byte)
    requires c.run.Going? && AtLine(c.f.state) && Token(ch) != 0 && Room(c.f, 1)
    ensures NameRead(c, [ch], OnByte(hc, c, ch))
  {
    hide OnByte, FirstHeaderState, NameState, Push, Token;
    NameFirst(hc, c, ch);
    NameStateFirst(Token(ch));
    assert Lowered([]) == [];
    LoweredSnoc([], ch);
    assert [] + [ch] == [ch] && [] + [Token(ch)] == [Token(ch)];
  }

  // ---- names are compared without regard to case ------------------------------------

  predicate SameFold(b: byte, c: char) { Same(b, c) || (IsUpper(b) && Same(b + 32, c)) }

  predicate EqualFold(s: seq<byte>, x: string) {
    |s| == |x| && forall i :: 0 <= i < |s| ==> SameFold(s[i], x[i])
  }

  /** The constants are written in lower-case letters and hyphens. */
  predicate LowerCase(x: string) { forall i :: 0 <= i < |x| ==> 'a' <= x[i] <= 'z' || x[i] == '-' }

  predicate IsMatching(h: HeaderState) {
    MatchesName(h) || h.MatchingChunked? || h.MatchingKeepAlive? || h.MatchingClose?
  }

  lemma PatternsLowerCase(h: HeaderState)
    ensures LowerCase(Pattern(h))
    ensures IsMatching(h) ==> |Pattern(h)| >= 4
  {
  }

  lemma SpellsName(name: seq<byte>, x: string)
    requires LowerCase(x) && TokenString(name)
    ensures Spells(Lowered(name), x) <==> EqualFold(name, x)
  {
    var t := Lowered(name);
    if |name| == |x| {
      forall i | 0 <= i < |x|
        ensures Same(t[i], x[i]) <==> SameFold(name[i], x[i])
      {
        assert name[i] in name;
      }
    }
  }

  /** What the closed form says when the whole name has been read. */
  lemma NameStateWhole(t: seq<byte>)
    requires t != []
    ensures NameState(t).ContentLength? <==> Spells(t, Pattern(MatchingContentLength))
    ensures NameState(t).TransferEncoding? <==> Spells(t, Pattern(MatchingTransferEncoding))
    ensures NameState(t).Upgrade? <==> Spells(t, Pattern(MatchingUpgrade))
    ensures NameState(t).Connection?
            <==> Spells(t, Pattern(MatchingConnection)) || Spells(t, Pattern(MatchingProxyConnection))
  {
    hide Pattern, Begins;
    NamePatterns();
    BeginsShort(t, Pattern(MatchingConnection));
    BeginsShort(t, Pattern(MatchingContentLength));
    BeginsShort(t, Pattern(MatchingProxyConnection));
    BeginsShort(t, Pattern(MatchingTransferEncoding));
    BeginsShort(t, Pattern(MatchingUpgrade));
  }

  /** The header state in which a value starts, after the name and the colon. */
  function NameMeaning(name: seq<byte>): HeaderState
    requires name != []
  {
    NameState(Lowered(name))
  }

  lemma NameMeaningFold(name: seq<byte>)
    requires TokenString(name)
    ensures NameMeaning(name).ContentLength? <==> EqualFold(name, "content-length")
    ensures NameMeaning(name).TransferEncoding? <==> EqualFold(name, "transfer-encoding")
    ensures NameMeaning(name).Upgrade? <==> EqualFold(name, "upgrade")
    ensures NameMeaning(name).Connection? <==> EqualFold(name, "connection") || EqualFold(name, "proxy-connection")
  {
    hide NameState, EqualFold, Spells, LowerCase;
    NameStateWhole(Lowered(name));
    PatternsLowerCase(MatchingContentLength);
    PatternsLowerCase(MatchingTransferEncoding);
    PatternsLowerCase(MatchingUpgrade);
    PatternsLowerCase(MatchingConnection);
    PatternsLowerCase(MatchingProxyConnection);
    SpellsName(name, Pattern(MatchingContentLength));
    SpellsName(name, Pattern(MatchingTransferEncoding));
    SpellsName(name, Pattern(MatchingUpgrade));
    SpellsName(name, Pattern(MatchingConnection));
    SpellsName(name, Pattern(MatchingProxyConnection));
  }

  /**
    After a header name and its colon the machine knows the four names it acts on, whatever their
    letter case, and takes no other name for one of them.
   */
  lemma NameRecognised(hc: Fields -> int, c: Conf, name: seq<byte>)
    requires c.run.Going? && AtLine(c.f.state) && TokenString(name) && Room(c.f, |name| + 1)
    ensures var d := Feed(hc, c, name + [58]);
            && d == Reached(c, c.f.(state := HeaderValueStart, headerState := NameMeaning(name), index := d.f.index,
                                    nread := c.f.nread + |name| + 1),
                            Push(c.log, FieldData(name)), |name| + 1)
            && (d.f.headerState.ContentLength? <==> EqualFold(name, "content-length"))
            && (d.f.headerState.TransferEncoding? <==> EqualFold(name, "transfer-encoding"))
            && (d.f.headerState.Upgrade? <==> EqualFold(name, "upgrade"))
            && (d.f.headerState.Connection? <==> EqualFold(name, "connection") || EqualFold(name, "proxy-connection"))
  {
    hide OnByte, NameState, Token, Push, EqualFold, TokenString;
    NameRun(hc, c, name);
    FeedSnoc(hc, c, name, 58);
    ColonByte(hc, Feed(hc, c, name));
    NameMeaningFold(name);
    PushTwice(c.log, KField, name, []);
    assert name + [] == name;
  }

  lemma ColonByte(hc: Fields -> int, c: Conf)
    requires c.run.Going? && c.f.state.HeaderField? && Room(c.f, 1)
    ensures OnByte(hc, c, 58)
            == Reached(c, c.f.(state := HeaderValueStart, nread := c.f.nread + 1), Push(c.log, FieldData([])), 1)
  {
    hide Push, Dispatch, StartSwitch, RequestSwitch, BodySwitch, FieldStartArm, ValueStartArm, ValueArm,
      HeaderAlmostDoneArm, LwsArm, HeadersAlmostDoneArm, HeadersDoneArm;
    OnByteSwitch(hc, c, 58);
  }

  // ---- values ----------------------------------------------------------------------

  function Folded(v: seq<byte>): (r: seq<byte>)
    ensures |r| == |v|
    ensures forall i :: 0 <= i < |v| ==> r[i] == Lower(v[i])
  {
    if v == [] then [] else Folded(v[..|v| - 1]) + [Lower(v[|v| - 1])]
  }

  predicate Spaces(s: seq<byte>) { forall b <- s :: b == SP }

  /** Whether `v` is `x`, in any letter case, with or without spaces behind it. */
  predicate Means(v: seq<byte>, x: string) {
    |v| >= |x| && EqualFold(v[..|x|], x) && Spaces(v[|x|..])
  }

  /** A one-line value, perhaps empty, without leading white space. */
  predicate PlainValue(v: seq<byte>) {
    (v != [] ==> v[0] != SP && v[0] != HT) && forall b <- v :: b != CR && b != LF
  }

  /** The header state of a value `v` being compared with the constant of `h`, in closed form. */
  function MatchState(h: HeaderState, v: seq<byte>): HeaderState {
    if Begins(Folded(v), Pattern(h)) then Progress(h, |v|)
    else if |v| > |Pattern(h)| && Begins(Folded(v[..|Pattern(h)|]), Pattern(h)) && Spaces(v[|Pattern(h)|..]) then
      Matched(h)
    else General
  }

  /** The header state after the value bytes `v` of a header recognised as `h`. */
  function ValueState(h: HeaderState, v: seq<byte>): HeaderState
    requires v != []
  {
    if h.TransferEncoding? then MatchState(MatchingChunked, v)
    else if h.Connection? then
      if Lower(v[0]) == 'k' as int then MatchState(MatchingKeepAlive, v) else MatchState(MatchingClose, v)
    else General
  }

  /** The nested switch on header_state for a value byte. */
  function StepValue(h: HeaderState, i: nat, ch: byte): HeaderState {
    if h.MatchingChunked? || h.MatchingKeepAlive? || h.MatchingClose? then Matching(h, i, Lower(ch))
    else if h.Chunked? || h.KeepAlive? || h.Close? then if ch != SP then General else h
    else General
  }

  lemma FoldedSnoc(v: seq<byte>, ch: byte)
    ensures Folded(v + [ch]) == Folded(v) + [Lower(ch)]
  {
    hide Lower;
    assert (v + [ch])[..|v|] == v;
  }

  lemma MatchStateStep(h: HeaderState, v: seq<byte>, ch: byte)
    requires h.MatchingChunked? || h.MatchingKeepAlive? || h.MatchingClose?
    requires v != []
    ensures MatchState(h, v + [ch]) == StepValue(MatchState(h, v), |v|, ch)
    ensures MatchState(h, v) == h ==> |v| < 10
  {
    hide Pattern, Begins, Lower, MatchState, StepValue;
    ValuePatterns();
    if |v| < |Pattern(h)| {
      MatchStateShort(h, v, ch);
    } else {
      MatchStateLong(h, v, ch);
    }
  }

  lemma MatchStateShort(h: HeaderState, v: seq<byte>, ch: byte)
    requires h.MatchingChunked? || h.MatchingKeepAlive? || h.MatchingClose?
    requires v != [] && |v| < |Pattern(h)|
    ensures MatchState(h, v + [ch]) == StepValue(MatchState(h, v), |v|, ch)
    ensures MatchState(h, v) == h ==> |v| < 10
  {
    hide Pattern, Begins, Lower;
    ValuePatterns();
    FoldedSnoc(v, ch);
    BeginsBoth(Folded(v), Lower(ch), Pattern(h));
  }

  lemma MatchStateLong(h: HeaderState, v: seq<byte>, ch: byte)
    requires h.MatchingChunked? || h.MatchingKeepAlive? || h.MatchingClose?
    requires v != [] && |v| >= |Pattern(h)|
    ensures MatchState(h, v + [ch]) == StepValue(MatchState(h, v), |v|, ch)
    ensures MatchState(h, v) == h ==> |v| < 10
  {
    hide Pattern, Begins, Lower;
    var x, w := Pattern(h), v + [ch];
    ValuePatterns();
    FoldedSnoc(v, ch);
    BeginsBoth(Folded(v), Lower(ch), x);
    SliceSnoc(v, ch, |x|);
    SpacesSnoc(v[|x|..], ch);
    if |v| == |x| {
      assert v[..|x|] == v && v[|x|..] == [];
    } else {
      BeginsNot(Folded(v), x);
    }
  }

  lemma SliceSnoc(v: seq<byte>, ch: byte, n: nat)
    requires n <= |v|
    ensures (v + [ch])[..n] == v[..n] && (v + [ch])[n..] == v[n..] + [ch]
  {
  }

  lemma BeginsNot(t: seq<byte>, x: string)
    requires |t| > |x|
    ensures !Begins(t, x)
  {
  }

  lemma SpacesSnoc(s: seq<byte>, ch: byte)
    ensures Spaces(s + [ch]) <==> Spaces(s) && ch == SP
  {
    var t := s + [ch];
    if Spaces(t) {
      assert t[|s|] == ch && ch in t;
      assert forall b <- s :: b in t;
    }
  }

  lemma ValuePatterns()
    ensures |Pattern(MatchingChunked)| == 7 && At(Pattern(MatchingChunked), 0) == 99
    ensures |Pattern(MatchingKeepAlive)| == 10 && At(Pattern(MatchingKeepAlive), 0) == 107
    ensures |Pattern(MatchingClose)| == 5 && At(Pattern(MatchingClose), 0) == 99
  {
  }

  /** The closed form of a whole value: it matched exactly when it means the constant. */
  lemma MatchStateWhole(h: HeaderState, v: seq<byte>)
    requires h.MatchingChunked? || h.MatchingKeepAlive? || h.MatchingClose?
    requires CR !in v
    ensures MatchState(h, v) == Matched(h) <==> Means(v, Pattern(h))
    ensures MatchState(h, v) == h || MatchState(h, v) == Matched(h) || MatchState(h, v).General?
  {
    hide Pattern, Lower, EqualFold;
    var x := Pattern(h);
    ValuePatterns();
    PatternsLowerCase(h);
    if |v| >= |x| {
      var w := v[..|x|];
      assert forall i :: 0 <= i < |w| ==> w[i] == v[i];
      FoldedEqual(w, x);
      if |v| == |x| {
        assert w == v && v[|x|..] == [];
      }
    }
  }

  lemma FoldedEqual(w: seq<byte>, x: string)
    requires LowerCase(x) && |w| == |x| && CR !in w
    ensures Begins(Folded(w), x) <==> EqualFold(w, x)
  {
    forall i | 0 <= i < |x|
      ensures Same(Folded(w)[i], x[i]) <==> SameFold(w[i], x[i])
    {
      assert w[i] in w;
      LowerFold(w[i], x[i]);
    }
  }

  /** c | 0x20 folds case, except that it also maps a carriage return to a hyphen. */
  lemma LowerFold(b: byte, c: char)
    requires 'a' <= c <= 'z' || c == '-'
    requires b != CR
    ensures Same(Lower(b), c) <==> SameFold(b, c)
  {
  }

  // ---- a value, byte after byte ----------------------------------------------------

  /** The header states whose values only the value recogniser looks at. */
  predicate Compared(h: HeaderState) { !h.ContentLength? && !h.Upgrade? }

  /** The case s_header_value_start on the first byte of a compared value. */
  lemma ValueStartStep(f: Fields, ch: byte)
    requires Compared(f.headerState) && PlainValue([ch])
    ensures ValueStartArm(f, ch)
            == Keep(f.(state := State.HeaderValue, headerState := ValueState(f.headerState, [ch]),
                       index := 0)).(mark := Some(KValue))
  {
    assert ch in [ch];
    MatchFirst(MatchingChunked, ch);
    MatchFirst(MatchingKeepAlive, ch);
    MatchFirst(MatchingClose, ch);
    hide MatchState, Lower;
  }

  lemma ValueFirst(hc: Fields -> int, c: Conf, ch: byte)
    requires c.run.Going? && c.f.state.HeaderValueStart? && Room(c.f, 1) && Compared(c.f.headerState)
    requires PlainValue([ch])
    ensures OnByte(hc, c, ch)
            == Reached(c, c.f.(state := State.HeaderValue, headerState := ValueState(c.f.headerState, [ch]), index := 0,
                               nread := c.f.nread + 1),
                       Push(c.log, ValueData([ch])), 1)
  {
    hide Push, Dispatch, StartSwitch, RequestSwitch, BodySwitch, ValueState, FieldStartArm, FieldArm, ValueStartArm,
      ValueArm, HeaderAlmostDoneArm, LwsArm, HeadersAlmostDoneArm, HeadersDoneArm, PlainValue;
    ValueStartStep(Count(c.f), ch);
    OnByteSwitch(hc, c, ch);
  }

  lemma MatchFirst(h: HeaderState, ch: byte)
    requires h.MatchingChunked? || h.MatchingKeepAlive? || h.MatchingClose?
    ensures MatchState(h, [ch]) == if Lower(ch) == At(Pattern(h), 0) then h else General
    ensures At(Pattern(h), 0) == if h.MatchingKeepAlive? then 107 else 99
  {
    hide Pattern, Begins, Lower;
    ValuePatterns();
    assert Folded([ch]) == [Lower(ch)];
    BeginsShort(Folded([ch]), Pattern(h));
  }

  lemma ValueNext(hc: Fields -> int, c: Conf, ch: byte)
    requires c.run.Going? && c.f.state.HeaderValue? && Room(c.f, 1) && ch != CR && ch != LF
    requires var h := c.f.headerState; IsMatching(h) || h.General? || h.Chunked? || h.KeepAlive? || h.Close?
    requires !MatchesName(c.f.headerState)
    ensures var h := c.f.headerState;
            var i := if IsMatching(h) then NextIndex(c.f) else c.f.index;
            OnByte(hc, c, ch)
            == Reached(c, c.f.(headerState := StepValue(h, i, ch), index := i, nread := c.f.nread + 1),
                       Push(c.log, ValueData([ch])), 1)
  {
    hide Push, Dispatch, StartSwitch, RequestSwitch, BodySwitch, Matching, Lower, FieldStartArm, FieldArm,
      ValueStartArm, HeaderAlmostDoneArm, LwsArm, HeadersAlmostDoneArm, HeadersDoneArm;
    OnByteSwitch(hc, c, ch);
  }

  /** What a compared value leaves behind. */
  ghost predicate ValueRead(c: Conf, v: seq<byte>, d: Conf)
    requires v != []
  {
    var h := ValueState(c.f.headerState, v);
    && d == Reached(c, c.f.(state := State.HeaderValue, headerState := h, index := d.f.index, nread := c.f.nread + |v|),
                    Push(c.log, ValueData(v)), |v|)
    && (IsMatching(h) ==> d.f.index == |v| - 1)
  }

  lemma ValueStateStep(h: HeaderState, v: seq<byte>, ch: byte)
    requires v != []
    ensures ValueState(h, v + [ch]) == StepValue(ValueState(h, v), |v|, ch)
    ensures IsMatching(ValueState(h, v)) ==> |v| < 10
    ensures var s := ValueState(h, v);
            s.General? || s.Chunked? || s.KeepAlive? || s.Close? || (IsMatching(s) && !MatchesName(s))
  {
    hide Lower, MatchState, Matching;
    MatchStateStep(MatchingChunked, v, ch);
    MatchStateStep(MatchingKeepAlive, v, ch);
    MatchStateStep(MatchingClose, v, ch);
    MatchStateKinds(MatchingChunked, v);
    MatchStateKinds(MatchingKeepAlive, v);
    MatchStateKinds(MatchingClose, v);
    assert (v + [ch])[0] == v[0];
  }

  lemma MatchStateKinds(h: HeaderState, v: seq<byte>)
    ensures MatchState(h, v) == h || MatchState(h, v) == Matched(h) || MatchState(h, v).General?
  {
    hide Begins, Pattern, Lower;
  }

  lemma ValueReadNext(hc: Fields -> int, c: Conf, init: seq<byte>, d: Conf, ch: byte)
    requires init != [] && ValueRead(c, init, d) && Room(d.f, 1) && ch != CR && ch != LF
    ensures ValueRead(c, init + [ch], OnByte(hc, d, ch))
  {
    hide OnByte, ValueState, Push;
    ValueStateStep(c.f.headerState, init, ch);
    ValueNext(hc, d, ch);
    PushSnoc(c.log, KValue, init, ch);
    StepValueKinds(ValueState(c.f.headerState, init), |init|, d.f.index, ch);
  }

  lemma StepValueKinds(h: HeaderState, i: nat, j: nat, ch: byte)
    ensures !IsMatching(h) ==> StepValue(h, i, ch) == StepValue(h, j, ch) && !IsMatching(StepValue(h, i, ch))
  {
  }

  /** The header-value recogniser computes ValueState. */
  lemma {:induction false} ValueRun(hc: Fields -> int, c: Conf, v: seq<byte>)
    requires c.run.Going? && c.f.state.HeaderValueStart? && Compared(c.f.headerState)
    requires v != [] && PlainValue(v) && Room(c.f, |v|)
    ensures ValueRead(c, v, Feed(hc, c, v))
    decreases |v|
  {
    hide OnByte, ValueState, Push;
    var init, last := v[..|v| - 1], v[|v| - 1];
    assert v == init + [last] && last in v;
    if init == [] {
      assert v == [last];
      FeedOne(hc, c, last);
      ValueFirst(hc, c, last);
    } else {
      assert forall b <- init :: b in v;
      ValueRun(hc, c, init);
      ValueReadNext(hc, c, init, Feed(hc, c, init), last);
    }
  }

  /** The end of a line: what the header state does to the flags. */
  function LineFlags(flags: Flags, h: HeaderState): Flags {
    if h.KeepAlive? then flags.(keepAlive := true)
    else if h.Close? then flags.(close := true)
    else if h.Chunked? then flags.(chunked := true)
    else flags
  }

  /** A line ends with CR LF, or with a bare LF. */
  predicate Eol(e: seq<byte>) { e == [CR, LF] || e == [LF] }

  lemma LineEnd(hc: Fields -> int, c: Conf, e: seq<byte>)
    requires c.run.Going? && c.f.state.HeaderValue? && Eol(e) && Room(c.f, |e|)
    ensures Feed(hc, c, e)
            == Reached(c, c.f.(state := HeaderValueLws, flags := LineFlags(c.f.flags, c.f.headerState),
                               nread := c.f.nread + |e|),
                       Push(c.log, ValueData([])), |e|)
  {
    hide Push, OnByte, Feed, LineFlags;
    if e == [LF] {
      FeedOne(hc, c, LF);
      BareLf(hc, c);
    } else {
      FeedCons(hc, c, CR, [LF]);
      assert [CR] + [LF] == [CR, LF];
      LineCr(hc, c);
      FeedOne(hc, OnByte(hc, c, CR), LF);
      LineLf(hc, OnByte(hc, c, CR));
    }
  }

  lemma BareLf(hc: Fields -> int, c: Conf)
    requires c.run.Going? && c.f.state.HeaderValue? && Room(c.f, 1)
    ensures OnByte(hc, c, LF)
            == Reached(c, c.f.(state := HeaderValueLws, flags := LineFlags(c.f.flags, c.f.headerState),
                               nread := c.f.nread + 1),
                       Push(c.log, ValueData([])), 1)
  {
    hide Push, Dispatch, StartSwitch, RequestSwitch, BodySwitch, FieldStartArm, FieldArm, ValueStartArm, LwsArm,
      HeadersAlmostDoneArm, HeadersDoneArm;
    OnByteSwitch(hc, c, LF);
    DispatchSwitch(hc, Count(c.f).(state := State.HeaderAlmostDone), Push(c.log, ValueData([])), LF);
  }

  lemma LineCr(hc: Fields -> int, c: Conf)
    requires c.run.Going? && c.f.state.HeaderValue? && Room(c.f, 1)
    ensures OnByte(hc, c, CR)
            == Reached(c, c.f.(state := State.HeaderAlmostDone, nread := c.f.nread + 1), Push(c.log, ValueData([])), 1)
  {
    hide Push, Dispatch, StartSwitch, RequestSwitch, BodySwitch, FieldStartArm, FieldArm, ValueStartArm,
      HeaderAlmostDoneArm, LwsArm, HeadersAlmostDoneArm, HeadersDoneArm;
    OnByteSwitch(hc, c, CR);
  }

  lemma LineLf(hc: Fields -> int, c: Conf)
    requires c.run.Going? && c.f.state.HeaderAlmostDone? && Room(c.f, 1)
    ensures OnByte(hc, c, LF)
            == Reached(c, c.f.(state := HeaderValueLws, flags := LineFlags(c.f.flags, c.f.headerState),
                               nread := c.f.nread + 1),
                       c.log, 1)
  {
    hide Push, Dispatch, StartSwitch, RequestSwitch, BodySwitch, FieldStartArm, FieldArm, ValueStartArm, ValueArm,
      LwsArm, HeadersAlmostDoneArm, HeadersDoneArm;
    OnByteSwitch(hc, c, LF);
  }

  /** A value and its line end: the flags follow what the value means. */
  lemma ValueRecognised(hc: Fields -> int, c: Conf, v: seq<byte>, e: seq<byte>)
    requires c.run.Going? && c.f.state.HeaderValueStart? && Compared(c.f.headerState)
    requires PlainValue(v) && Eol(e) && Room(c.f, |v| + |e|)
    ensures var d, h := Feed(hc, c, v + e), c.f.headerState;
            && d == Reached(c, c.f.(state := d.f.state, headerState := d.f.headerState, index := d.f.index,
                                    flags := d.f.flags, nread := c.f.nread + |v| + |e|),
                            Push(c.log, ValueData(v)), |v| + |e|)
            && AtLine(d.f.state)
            && d.f.flags == c.f.flags.(chunked := c.f.flags.chunked || (h.TransferEncoding? && Means(v, "chunked")),
                                       keepAlive := c.f.flags.keepAlive || (h.Connection? && Means(v, "keep-alive")),
                                       close := c.f.flags.close || (h.Connection? && Means(v, "close")))
  {
    hide OnByte, ValueState, Push, Means, Feed, Eol;
    if v == [] {
      assert v + e == e;
      NothingMeant();
      EmptyValue(hc, c, e);
    } else {
      ValueRun(hc, c, v);
      FeedConcat(hc, c, v, e);
      LineEnd(hc, Feed(hc, c, v), e);
      ValueMeaning(c.f.headerState, v, c.f.flags);
      PushTwice(c.log, KValue, v, []);
      assert v + [] == v;
    }
  }

  lemma NothingMeant()
    ensures !Means([], "chunked") && !Means([], "keep-alive") && !Means([], "close")
  {
  }

  /** A line that ends where its value should begin. */
  lemma EmptyValue(hc: Fields -> int, c: Conf, e: seq<byte>)
    requires c.run.Going? && c.f.state.HeaderValueStart? && Eol(e) && Room(c.f, |e|)
    ensures var d := Feed(hc, c, e);
            && d == Reached(c, c.f.(state := d.f.state, headerState := d.f.headerState, index := 0,
                                    nread := c.f.nread + |e|),
                            Push(c.log, ValueData([])), |e|)
            && AtLine(d.f.state)
  {
    hide Push, OnByte, Feed;
    if e == [LF] {
      FeedOne(hc, c, LF);
      EmptyLf(hc, c);
    } else {
      FeedCons(hc, c, CR, [LF]);
      assert [CR] + [LF] == [CR, LF];
      EmptyCr(hc, c);
      FeedOne(hc, OnByte(hc, c, CR), LF);
      LineLf(hc, OnByte(hc, c, CR));
    }
  }

  lemma EmptyLf(hc: Fields -> int, c: Conf)
    requires c.run.Going? && c.f.state.HeaderValueStart? && Room(c.f, 1)
    ensures OnByte(hc, c, LF)
            == Reached(c, c.f.(state := HeaderFieldStart, index := 0, nread := c.f.nread + 1),
                       Push(c.log, ValueData([])), 1)
  {
    hide Push, Dispatch, StartSwitch, RequestSwitch, BodySwitch, FieldStartArm, FieldArm, ValueArm,
      HeaderAlmostDoneArm, LwsArm, HeadersAlmostDoneArm, HeadersDoneArm;
    OnByteSwitch(hc, c, LF);
  }

  lemma EmptyCr(hc: Fields -> int, c: Conf)
    requires c.run.Going? && c.f.state.HeaderValueStart? && Room(c.f, 1)
    ensures OnByte(hc, c, CR)
            == Reached(c, c.f.(state := State.HeaderAlmostDone, headerState := General, index := 0,
                               nread := c.f.nread + 1),
                       Push(c.log, ValueData([])), 1)
  {
    hide Push, Dispatch, StartSwitch, RequestSwitch, BodySwitch, FieldStartArm, FieldArm, ValueArm,
      HeaderAlmostDoneArm, LwsArm, HeadersAlmostDoneArm, HeadersDoneArm;
    OnByteSwitch(hc, c, CR);
  }

  lemma ValueMeaning(h: HeaderState, v: seq<byte>, flags: Flags)
    requires v != [] && PlainValue(v) && Compared(h)
    ensures LineFlags(flags, ValueState(h, v))
            == flags.(chunked := flags.chunked || (h.TransferEncoding? && Means(v, "chunked")),
                      keepAlive := flags.keepAlive || (h.Connection? && Means(v, "keep-alive")),
                      close := flags.close || (h.Connection? && Means(v, "close")))
  {
    ValueStateMeans(h, v);
    hide ValueState, Means;
  }

  /** The header states of a value that count at the end of the line. */
  lemma ValueStateMeans(h: HeaderState, v: seq<byte>)
    requires v != [] && PlainValue(v) && Compared(h)
    ensures ValueState(h, v).Chunked? <==> h.TransferEncoding? && Means(v, "chunked")
    ensures ValueState(h, v).KeepAlive? <==> h.Connection? && Means(v, "keep-alive")
    ensures ValueState(h, v).Close? <==> h.Connection? && Means(v, "close")
  {
    hide Lower, MatchState, Means, PlainValue;
    PlainFirst(v);
    MatchStateWhole(MatchingChunked, v);
    MatchStateWhole(MatchingKeepAlive, v);
    MatchStateWhole(MatchingClose, v);
    PatternsLowerCase(MatchingKeepAlive);
    PatternsLowerCase(MatchingClose);
    if Means(v, "keep-alive") {
      MeansFirst(v, "keep-alive");
    }
    if Means(v, "close") {
      MeansFirst(v, "close");
    }
  }

  lemma PlainFirst(v: seq<byte>)
    requires v != [] && PlainValue(v)
    ensures v[0] != CR && CR !in v
  {
    assert v[0] in v;
  }

  lemma MeansFirst(v: seq<byte>, x: string)
    requires Means(v, x) && |x| > 0 && v != [] && v[0] != CR && LowerCase(x)
    ensures Lower(v[0]) == x[0] as int
  {
    assert v[..|x|][0] == v[0];
    LowerFold(v[0], x[0]);
  }
}
