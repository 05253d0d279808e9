/**
  What the parser means, one byte at a time: no marks, no buffers, no bulk moves.  A byte that is
  still inside a URL, header name, header value or body when the switch is done with it belongs to
  the data of that kind.  HttpParser proves that the buffered machine agrees with this one, so that
  the theorems about `Feed` hold of it however its input is cut.
 */
module HttpSpec {
  import opened Common
  import opened Events
  import opened HttpTypes
  import opened HttpSwitch

  /** How many more times a byte may be re-executed from a state. */
  function Rank(s: State): nat {
    if s.HeaderValueLws? then 3
    else if s.HeaderFieldStart? then 2
    else if s.HeadersAlmostDone? || s.StartReqOrRes? || s.HeaderValue? || s.BodyIdentity? then 1
    else 0
  }

  predicate Descends(a: Arm, from: State) {
    a.go.Again? ==> Rank(a.f.state) < Rank(from) && !Swallows(a.f.state)
  }

  lemma HeaderDescends(hc: Fields -> int, f: Fields, ch: byte)
    requires InHeaders(f.state)
    ensures Descends(HeaderSwitch(hc, f, ch), f.state)
  {
  }

  lemma BodyDescends(f: Fields, ch: byte)
    requires InBody(f.state)
    ensures Descends(BodySwitch(f, ch), f.state)
  {
  }

  lemma RequestDescends(f: Fields, ch: byte)
    requires InRequestLine(f.state)
    ensures Descends(RequestSwitch(f, ch), f.state)
  {
  }

  lemma StartDescends(f: Fields, ch: byte)
    requires !InHeaders(f.state) && !InBody(f.state) && !InRequestLine(f.state)
    ensures Descends(StartSwitch(f, ch), f.state)
  {
  }

  /** Every chain of re-executions is finite. */
  lemma AgainDescends(hc: Fields -> int, f: Fields, ch: byte)
    requires !Swallows(f.state)
    ensures Descends(Switch(hc, f, ch), f.state)
  {
    hide HeaderSwitch, BodySwitch, RequestSwitch, StartSwitch, Descends, InHeaders, InBody, InRequestLine;
    if InHeaders(f.state) {
      HeaderDescends(hc, f, ch);
    } else if InBody(f.state) {
      BodyDescends(f, ch);
    } else if InRequestLine(f.state) {
      RequestDescends(f, ch);
    } else {
      StartDescends(f, ch);
    }
  }

  /** The data a byte belongs to when the machine is in state `s` after it. */
  function Live(s: State): Option<Kind> {
    if UrlState(s) then Some(KUrl)
    else if s.HeaderField? then Some(KField)
    else if s.HeaderValue? then Some(KValue)
    else None
  }

  /** What one pass through the switch adds to the log. */
  function Heard(log: HttpLog, a: Arm, ch: byte): HttpLog {
    var called :=
      match a.call
      case NoCall => log
      case NoteCall(n) => Push(log, Notice(n))
      case DataCall(k) => if k == KBody then log else Push(log, Data(k, []));
    if a.go.Next? && Live(a.f.state).Some? then Push(called, Data(Live(a.f.state).value, [ch])) else called
  }

  datatype Byte = Byte(f: Fields, log: HttpLog, go: Go)

  /** One byte, with all its re-executions. */
  function Dispatch(hc: Fields -> int, f: Fields, log: HttpLog, ch: byte): (r: Byte)
    ensures !r.go.Again?
    decreases Rank(f.state)
  {
    if f.state.BodyIdentity? then
      var g := f.(contentLength := Max(f.contentLength - 1, 0));
      var heard := Push(log, Data(KBody, [ch]));
      if g.contentLength == 0 then Dispatch(hc, g.(state := MessageDone), heard, ch) else Byte(g, heard, Next)
    else if f.state.BodyIdentityEof? then Byte(f, Push(log, Data(KBody, [ch])), Next)
    else if f.state.ChunkData? then
      var g := f.(contentLength := Max(f.contentLength - 1, 0));
      Byte(if g.contentLength == 0 then g.(state := ChunkDataAlmostDone) else g, Push(log, Data(KBody, [ch])), Next)
    else
      AgainDescends(hc, f, ch);
      var a := Switch(hc, f, ch);
      var heard := Heard(log, a, ch);
      if a.go.Again? then Dispatch(hc, a.f, heard, ch) else Byte(a.f, heard, a.go)
  }

  datatype Run = Going | Failed | Exited

  /** A parser with its callback log in normal form and the number of bytes it has consumed. */
  datatype Conf = Conf(f: Fields, log: HttpLog, used: nat, run: Run)

  /** The header limit, checked before the switch. */
  function Count(f: Fields): Fields { if CountsBytes(f.state) then f.(nread := f.nread + 1) else f }

  predicate Overflows(f: Fields) { CountsBytes(f.state) && f.nread > MAX_HEADER_SIZE }

  /** The configuration after a byte that the switch is done with; `used` bytes came before it. */
  function After(r: Byte, used: nat): Conf {
    if r.go.Stop? then Conf(r.f, r.log, used, Failed)
    else Conf(r.f, r.log, used + 1, if r.go.Exit? then Exited else Going)
  }

  function OnByte(hc: Fields -> int, c: Conf, ch: byte): Conf {
    var f := Count(c.f);
    if !c.run.Going? then c
    else if Overflows(f) then Conf(f.(errno := HeaderOverflow), c.log, c.used, Failed)
    else After(Dispatch(hc, f, c.log, ch), c.used)
  }

  function Feed(hc: Fields -> int, c: Conf, s: seq<byte>): Conf {
    if s == [] then c else OnByte(hc, Feed(hc, c, s[..|s| - 1]), s[|s| - 1])
  }

  lemma FeedNothing(hc: Fields -> int, c: Conf)
    ensures Feed(hc, c, []) == c
  {
    hide OnByte;
  }

  lemma FeedOne(hc: Fields -> int, c: Conf, ch: byte)
    ensures Feed(hc, c, [ch]) == OnByte(hc, c, ch)
  {
    hide OnByte;
    assert [ch][..0] == [];
  }

  lemma FeedSnoc(hc: Fields -> int, c: Conf, s: seq<byte>, ch: byte)
    ensures Feed(hc, c, s + [ch]) == OnByte(hc, Feed(hc, c, s), ch)
  {
    hide OnByte;
    assert (s + [ch])[..|s|] == s;
  }

  lemma {:induction false} FeedConcat(hc: Fields -> int, c: Conf, a: seq<byte>, b: seq<byte>)
    ensures Feed(hc, c, a + b) == Feed(hc, Feed(hc, c, a), b)
    decreases |b|
  {
    hide OnByte;
    if b == [] {
      assert a + b == a;
    } else {
      assert (a + b)[..|a + b| - 1] == a + b[..|b| - 1];
      FeedConcat(hc, c, a, b[..|b| - 1]);
    }
  }

  lemma FeedCons(hc: Fields -> int, c: Conf, ch: byte, s: seq<byte>)
    ensures Feed(hc, c, [ch] + s) == Feed(hc, OnByte(hc, c, ch), s)
  {
    hide OnByte;
    FeedConcat(hc, c, [ch], s);
    FeedOne(hc, c, ch);
  }

  lemma {:induction false} FeedStopped(hc: Fields -> int, c: Conf, s: seq<byte>)
    requires !c.run.Going?
    ensures Feed(hc, c, s) == c
  {
    hide Dispatch, Count, Overflows;
    if s != [] {
      FeedStopped(hc, c, s[..|s| - 1]);
    }
  }

  /** While the machine runs, it consumes exactly what it is fed, and never more. */
  lemma {:induction false} FeedUsed(hc: Fields -> int, c: Conf, s: seq<byte>)
    ensures c.used <= Feed(hc, c, s).used <= c.used + |s|
    ensures Feed(hc, c, s).run.Going? ==> c.run.Going? && Feed(hc, c, s).used == c.used + |s|
  {
    hide Dispatch, Count, Overflows;
    if s != [] {
      FeedUsed(hc, c, s[..|s| - 1]);
    }
  }

  /** The bytes consumed earlier only count. */
  lemma {:induction false} FeedShift(hc: Fields -> int, c: Conf, now: Conf, s: seq<byte>)
    requires now == c.(used := 0)
    ensures Feed(hc, c, s) == Feed(hc, now, s).(used := c.used + Feed(hc, now, s).used)
  {
    hide Dispatch, Count, Overflows;
    if s != [] {
      FeedShift(hc, c, now, s[..|s| - 1]);
    }
  }

  // ---- what every step keeps -------------------------------------------------------

  /** Reads of method_strings stay in bounds, and a body state always has bytes to come. */
  predicate WellFormed(f: Fields) {
    && f.verb < METHODS
    && (f.state.ReqMethod? ==> f.index <= |MethodString(f.verb)|)
    && (f.state.BodyIdentity? || f.state.ChunkData? ==> f.contentLength > 0)
  }

  lemma FirstMethodFits(ch: byte)
    requires FirstMethod(ch).Some?
    ensures FirstMethod(ch).value < METHODS && |MethodString(FirstMethod(ch).value)| >= 3
  {
  }

  /** The index never runs past the terminator of the method string being matched. */
  lemma StepMethodFits(verb: nat, index: nat, ch: byte)
    requires verb < METHODS && index <= |MethodString(verb)|
    ensures var step := StepMethod(verb, index, ch);
            && (step.Same? ==> index < |MethodString(verb)| <= 11)
            && (step.Become? ==> step.verb < METHODS && index < |MethodString(step.verb)| <= 11)
  {
  }

  predicate InVersion(s: State) {
    s.ReqHttpStart? || s.ReqHttpH? || s.ReqHttpHT? || s.ReqHttpHTT? || s.ReqHttpHTTP? || s.ReqFirstHttpMajor?
    || s.ReqHttpMajor? || s.ReqFirstHttpMinor? || s.ReqHttpMinor? || s.ReqLineAlmostDone?
  }

  lemma VersionWellFormed(f: Fields, ch: byte)
    requires WellFormed(f) && InVersion(f.state)
    ensures WellFormed(RequestSwitch(f, ch).f)
  {
    hide MethodString, U16, StartReqArm, ReqMethodArm, SpacesBeforeUrlArm, UrlStrictArm, UrlArm;
  }

  lemma RequestWellFormed(f: Fields, ch: byte)
    requires WellFormed(f) && InRequestLine(f.state)
    ensures WellFormed(RequestSwitch(f, ch).f)
  {
    hide MethodString, StepMethod, FirstMethod, Lower, UrlChar, HttpStartArm, FirstMajorArm, MajorArm, FirstMinorArm,
      ReqMinorArm, ReqLineAlmostDoneArm, Expect;
    if InVersion(f.state) {
      VersionWellFormed(f, ch);
    } else if f.state.ReqMethod? {
      StepMethodFits(f.verb, f.index, ch);
    } else if f.state.StartReq? {
      if FirstMethod(ch).Some? {
        FirstMethodFits(ch);
      }
    } else {
      UrlCharStays(f.state, ch);
      UrlCharStays(ReqServerStart, ch);
    }
  }

  lemma UrlCharStays(s: State, ch: byte)
    ensures UrlState(UrlChar(s, ch)) || UrlChar(s, ch).Dead?
  {
    hide Lower, IsUrlChar, IsUserinfoChar;
  }

  lemma HeaderWellFormed(hc: Fields -> int, f: Fields, ch: byte)
    requires WellFormed(f) && InHeaders(f.state)
    ensures WellFormed(HeaderSwitch(hc, f, ch).f)
  {
    hide MethodString, Matching, StepName, MatchesName, Accumulate, Lower, Token, NeedsEof;
  }

  lemma BodyWellFormed(f: Fields, ch: byte)
    requires WellFormed(f) && InBody(f.state) && !Swallows(f.state)
    ensures WellFormed(BodySwitch(f, ch).f)
  {
    hide MethodString, Accumulate, NeedsEof;
  }

  lemma StartWellFormed(f: Fields, ch: byte)
    requires WellFormed(f) && !InHeaders(f.state) && !InBody(f.state) && !InRequestLine(f.state)
    ensures WellFormed(StartSwitch(f, ch).f)
  {
    hide U16;
  }

  lemma SwitchWellFormed(hc: Fields -> int, f: Fields, ch: byte)
    requires WellFormed(f) && !Swallows(f.state)
    ensures WellFormed(Switch(hc, f, ch).f)
  {
    hide RequestSwitch, HeaderSwitch, BodySwitch, StartSwitch, InHeaders, InBody, InRequestLine, WellFormed;
    if InHeaders(f.state) {
      HeaderWellFormed(hc, f, ch);
    } else if InBody(f.state) {
      BodyWellFormed(f, ch);
    } else if InRequestLine(f.state) {
      RequestWellFormed(f, ch);
    } else {
      StartWellFormed(f, ch);
    }
  }

  lemma {:induction false} DispatchWellFormed(hc: Fields -> int, f: Fields, log: HttpLog, ch: byte)
    requires WellFormed(f)
    ensures WellFormed(Dispatch(hc, f, log, ch).f)
    decreases Rank(f.state)
  {
    hide Switch, MethodString, Heard, Push, Descends;
    if f.state.BodyIdentity? {
      var g := f.(contentLength := f.contentLength - 1);
      if g.contentLength == 0 {
        DispatchWellFormed(hc, g.(state := MessageDone), Push(log, Data(KBody, [ch])), ch);
      }
    } else if !Swallows(f.state) {
      SwitchWellFormed(hc, f, ch);
      var a := Switch(hc, f, ch);
      if a.go.Again? {
        AgainRank(hc, f, ch);
        DispatchWellFormed(hc, a.f, Heard(log, a, ch), ch);
      }
    }
  }

  lemma AgainRank(hc: Fields -> int, f: Fields, ch: byte)
    requires !Swallows(f.state) && Switch(hc, f, ch).go.Again?
    ensures Rank(Switch(hc, f, ch).f.state) < Rank(f.state) && !Swallows(Switch(hc, f, ch).f.state)
  {
    hide Switch;
    AgainDescends(hc, f, ch);
  }

  /** The bounds hold throughout any run. */
  lemma {:induction false} FeedWellFormed(hc: Fields -> int, c: Conf, s: seq<byte>)
    requires WellFormed(c.f)
    ensures WellFormed(Feed(hc, c, s).f)
  {
    hide Dispatch, MethodString;
    if s != [] {
      FeedWellFormed(hc, c, s[..|s| - 1]);
      var d := Feed(hc, c, s[..|s| - 1]);
      DispatchWellFormed(hc, Count(d.f), d.log, s[|s| - 1]);
    }
  }

  // ---- runs of body bytes ----------------------------------------------------------

  function Body(s: seq<byte>): HttpEvent { Data(KBody, s) }

  lemma PushBody(log: HttpLog, s: seq<byte>)
    requires |s| > 1
    ensures Push(Push(log, Body(s[..|s| - 1])), Body([s[|s| - 1]])) == Push(log, Body(s))
  {
    PushTwice(log, KBody, s[..|s| - 1], [s[|s| - 1]]);
    assert s[..|s| - 1] + [s[|s| - 1]] == s;
  }

  /** What a run of body bytes leaves of the length. */
  function Shortened(f: Fields, n: nat): Fields
    requires n <= f.contentLength
  {
    f.(contentLength := f.contentLength - n)
  }

  /** Bytes short of the announced length. */
  lemma {:induction false} IdentityRun(hc: Fields -> int, c: Conf, s: seq<byte>)
    requires c.run.Going? && c.f.state.BodyIdentity? && 0 < |s| < c.f.contentLength
    ensures Feed(hc, c, s) == Conf(Shortened(c.f, |s|), Push(c.log, Body(s)), c.used + |s|, Going)
  {
    hide Switch, Push;
    if |s| == 1 {
      assert s == [s[0]];
      FeedOne(hc, c, s[0]);
    } else {
      IdentityRun(hc, c, s[..|s| - 1]);
      PushBody(c.log, s);
    }
  }

  /** All the announced bytes: the last one is re-executed in s_message_done. */
  lemma IdentityLast(hc: Fields -> int, c: Conf, s: seq<byte>)
    requires c.run.Going? && c.f.state.BodyIdentity? && 0 < |s| == c.f.contentLength
    ensures Feed(hc, c, s)
            == After(Dispatch(hc, Shortened(c.f, |s|).(state := MessageDone), Push(c.log, Body(s)), s[|s| - 1]),
                     c.used + |s| - 1)
  {
    hide Switch, Push;
    if |s| == 1 {
      assert s == [s[0]];
      FeedOne(hc, c, s[0]);
    } else {
      IdentityRun(hc, c, s[..|s| - 1]);
      PushBody(c.log, s);
    }
  }

  lemma {:induction false} EofRun(hc: Fields -> int, c: Conf, s: seq<byte>)
    requires c.run.Going? && c.f.state.BodyIdentityEof? && 0 < |s|
    ensures Feed(hc, c, s) == Conf(c.f, Push(c.log, Body(s)), c.used + |s|, Going)
  {
    hide Switch, Push;
    if |s| == 1 {
      assert s == [s[0]];
      FeedOne(hc, c, s[0]);
    } else {
      EofRun(hc, c, s[..|s| - 1]);
      PushBody(c.log, s);
    }
  }

  lemma {:induction false} ChunkRun(hc: Fields -> int, c: Conf, s: seq<byte>)
    requires c.run.Going? && c.f.state.ChunkData? && 0 < |s| <= c.f.contentLength
    ensures var g := Shortened(c.f, |s|);
            Feed(hc, c, s)
            == Conf(if |s| == c.f.contentLength then g.(state := ChunkDataAlmostDone) else g,
                    Push(c.log, Body(s)), c.used + |s|, Going)
  {
    hide Switch, Push;
    if |s| == 1 {
      assert s == [s[0]];
      FeedOne(hc, c, s[0]);
    } else {
      ChunkRun(hc, c, s[..|s| - 1]);
      PushBody(c.log, s);
    }
  }

  /** The header limit is not in the way of `n` more bytes. */
  predicate Room(f: Fields, n: nat) { f.nread + n <= MAX_HEADER_SIZE }

  /** The configuration `f`, `log` reached from `c` after `n` more bytes. */
  function Reached(c: Conf, f: Fields, log: HttpLog, n: nat): Conf { Conf(f, log, c.used + n, Going) }

  // ---- unfolding the byte machine --------------------------------------------------

  lemma DispatchSwitch(hc: Fields -> int, f: Fields, log: HttpLog, ch: byte)
    requires !Swallows(f.state)
    ensures var a := Switch(hc, f, ch);
            && (a.go.Again? ==> !Swallows(a.f.state) && Rank(a.f.state) < Rank(f.state))
            && Dispatch(hc, f, log, ch)
               == if a.go.Again? then Dispatch(hc, a.f, Heard(log, a, ch), ch)
                  else Byte(a.f, Heard(log, a, ch), a.go)
  {
    hide Switch, Heard;
    AgainDescends(hc, f, ch);
  }

  /** s_message_done does not look at the byte. */
  lemma MessageDoneIgnores(hc: Fields -> int, f: Fields, ch: byte, other: byte)
    ensures f.state.MessageDone? ==> Switch(hc, f, ch) == Switch(hc, f, other)
  {
    hide HeaderSwitch, RequestSwitch, StartSwitch, MessageDoneArm, NewMessage;
  }

  lemma OnByteSwitch(hc: Fields -> int, c: Conf, ch: byte)
    requires c.run.Going? && !Swallows(c.f.state) && Room(c.f, 1)
    ensures var a := Switch(hc, Count(c.f), ch);
            OnByte(hc, c, ch)
            == After(if a.go.Again? then Dispatch(hc, a.f, Heard(c.log, a, ch), ch)
                     else Byte(a.f, Heard(c.log, a, ch), a.go), c.used)
  {
    hide Switch, Heard, Dispatch;
    DispatchSwitch(hc, Count(c.f), c.log, ch);
  }
}
