/**
  Whole requests: how a well-formed HTTP/1.1 request is written, and what the machine makes of its
  request line and header lines.
 */
module HttpRequests {
  import opened Common
  import opened Events
  import opened HttpTypes
  import opened HttpSwitch
  import opened HttpSpec
  import opened HttpHeaders

  /** The bytes of a string of single-byte characters. */
  function Text(x: string): (s: seq<byte>)
    ensures |s| == |x| && forall i :: 0 <= i < |x| ==> s[i] == x[i] as int % 256
  {
    if x == [] then [] else Text(x[..|x| - 1]) + [x[|x| - 1] as int % 256]
  }

  // ---- the method ------------------------------------------------------------------

  /** The method being matched when byte `i` of the method string of `v` is due. */
  function Guess(v: nat, i: nat): nat {
    if v == COPY_METHOD then if i <= 2 then CONNECT_METHOD else v
    else if v == CHECKOUT_METHOD then if i <= 1 then CONNECT_METHOD else v
    else if v == MOVE_METHOD || v == MERGE_METHOD || v == MSEARCH_METHOD then if i <= 1 then MKCOL_METHOD else v
    else if v == MKACTIVITY_METHOD then if i <= 2 then MKCOL_METHOD else v
    else if v == SEARCH_METHOD then if i <= 1 then SUBSCRIBE_METHOD else v
    else if v == PROPFIND_METHOD || v == PUT_METHOD || v == PATCH_METHOD then if i <= 1 then POST_METHOD else v
    else if v == PURGE_METHOD then if i <= 1 then POST_METHOD else if i <= 2 then PUT_METHOD else v
    else if v == PROPPATCH_METHOD then if i <= 1 then POST_METHOD else if i <= 4 then PROPFIND_METHOD else v
    else if v == UNSUBSCRIBE_METHOD then if i <= 2 then UNLOCK_METHOD else v
    else v
  }

  predicate GuessStep(v: nat, i: nat) {
    var ch := At(MethodString(v), i);
    0 < ch < 128 && ch != SP
    && var step := StepMethod(Guess(v, i), i, ch);
       (step.Same? && Guess(v, i + 1) == Guess(v, i)) || step == Become(Guess(v, i + 1))
  }

  lemma GuessStepLow(v: nat, i: nat)
    requires v < 9 && 1 <= i < |MethodString(v)|
    ensures GuessStep(v, i)
  {
  }

  lemma GuessStepMid(v: nat, i: nat)
    requires 9 <= v < 17 && 1 <= i < |MethodString(v)|
    ensures GuessStep(v, i)
  {
  }

  lemma GuessStepHigh(v: nat, i: nat)
    requires 17 <= v < METHODS && 1 <= i < |MethodString(v)|
    ensures GuessStep(v, i)
  {
  }

  lemma MethodEnds(v: nat)
    requires v < METHODS
    ensures 3 <= |MethodString(v)| <= 11 && Guess(v, |MethodString(v)|) == v
  {
  }

  lemma MethodStarts(v: nat)
    requires v < METHODS
    ensures var ch := At(MethodString(v), 0);
            0 < ch < 128 && IsAlpha(ch) && FirstMethod(ch) == Some(Guess(v, 1)) && ch != CR && ch != LF
  {
  }

  lemma GuessSteps(v: nat, i: nat)
    requires v < METHODS && 1 <= i < |MethodString(v)|
    ensures GuessStep(v, i)
  {
    hide GuessStep, MethodString;
    if v < 9 {
      GuessStepLow(v, i);
    } else if v < 17 {
      GuessStepMid(v, i);
    } else {
      GuessStepHigh(v, i);
    }
  }

  function MethodText(v: nat): seq<byte> { Text(MethodString(v)) }

  /** The method strings are strings of ASCII characters. */
  lemma MethodAscii(v: nat, i: nat)
    requires v < METHODS && i < |MethodString(v)|
    ensures 0 < At(MethodString(v), i) < 128
  {
    hide MethodString, IsAlpha, FirstMethod, StepMethod, Guess;
    if i == 0 {
      MethodStarts(v);
    } else {
      GuessSteps(v, i);
    }
  }

  lemma MethodByte(v: nat, i: nat)
    requires v < METHODS && i < |MethodString(v)|
    ensures MethodText(v)[i] == At(MethodString(v), i)
  {
    hide MethodString, Text;
    MethodAscii(v, i);
  }

  lemma MethodFirst(hc: Fields -> int, c: Conf, v: nat)
    requires c.run.Going? && c.f.state.StartReq? && v < METHODS && Room(c.f, 1)
    ensures |MethodText(v)| >= 3
    ensures OnByte(hc, c, MethodText(v)[0])
            == Reached(c, Fresh(c.f).(verb := Guess(v, 1), index := 1, state := ReqMethod, nread := c.f.nread + 1),
                       Push(c.log, Notice(MessageBegin)), 1)
  {
    hide MethodString, MethodText, IsAlpha, FirstMethod, Push, Dispatch, StartSwitch, HeaderSwitch, BodySwitch, Guess,
      ReqMethodArm, SpacesBeforeUrlArm, UrlStrictArm, UrlArm, HttpStartArm, FirstMajorArm, MajorArm, FirstMinorArm,
      ReqMinorArm, ReqLineAlmostDoneArm;
    MethodEnds(v);
    MethodStarts(v);
    MethodByte(v, 0);
    MethodLength(v);
    OnByteSwitch(hc, c, MethodText(v)[0]);
  }

  lemma MethodLength(v: nat)
    ensures |MethodText(v)| == |MethodString(v)|
  {
    hide MethodString;
  }

  lemma MethodNext(hc: Fields -> int, c: Conf, v: nat, i: nat, ch: byte)
    requires c.run.Going? && c.f.state.ReqMethod? && v < METHODS && Room(c.f, 1)
    requires 1 <= i < |MethodString(v)| && c.f.verb == Guess(v, i) && c.f.index == i && ch == At(MethodString(v), i)
    ensures OnByte(hc, c, ch)
            == Reached(c, c.f.(verb := Guess(v, i + 1), index := i + 1, nread := c.f.nread + 1), c.log, 1)
  {
    hide MethodString, StepMethod, Push, Dispatch, StartSwitch, HeaderSwitch, BodySwitch, Guess, StartReqArm,
      SpacesBeforeUrlArm, UrlStrictArm, UrlArm, HttpStartArm, FirstMajorArm, MajorArm, FirstMinorArm, ReqMinorArm,
      ReqLineAlmostDoneArm;
    MethodEnds(v);
    GuessSteps(v, i);
    OnByteSwitch(hc, c, ch);
  }

  lemma MethodSpace(hc: Fields -> int, c: Conf)
    requires c.run.Going? && c.f.state.ReqMethod? && Room(c.f, 1)
    requires c.f.index == |MethodString(c.f.verb)| && c.f.index < 255
    ensures OnByte(hc, c, SP)
            == Reached(c, c.f.(state := ReqSpacesBeforeUrl, index := c.f.index + 1, nread := c.f.nread + 1), c.log, 1)
  {
    hide MethodString, Push, Dispatch, StartSwitch, HeaderSwitch, BodySwitch, StartReqArm, SpacesBeforeUrlArm,
      UrlStrictArm, UrlArm, HttpStartArm, FirstMajorArm, MajorArm, FirstMinorArm, ReqMinorArm, ReqLineAlmostDoneArm;
    OnByteSwitch(hc, c, SP);
  }

  lemma {:induction false} MethodPrefix(hc: Fields -> int, c: Conf, v: nat, i: nat)
    requires c.run.Going? && c.f.state.StartReq? && v < METHODS && Room(c.f, 12)
    requires 1 <= i <= |MethodText(v)|
    ensures i <= 11
    ensures Feed(hc, c, MethodText(v)[..i])
            == Reached(c, Fresh(c.f).(verb := Guess(v, i), index := i, state := ReqMethod, nread := c.f.nread + i),
                       Push(c.log, Notice(MessageBegin)), i)
    decreases i
  {
    hide MethodString, MethodText, OnByte, Push, Guess;
    MethodEnds(v);
    MethodLength(v);
    var t := MethodText(v);
    if i == 1 {
      assert t[..1] == [t[0]];
      FeedOne(hc, c, t[0]);
      MethodFirst(hc, c, v);
    } else {
      MethodPrefix(hc, c, v, i - 1);
      assert t[..i] == t[..i - 1] + [t[i - 1]];
      FeedSnoc(hc, c, t[..i - 1], t[i - 1]);
      MethodByte(v, i - 1);
      MethodNext(hc, Feed(hc, c, t[..i - 1]), v, i - 1, t[i - 1]);
    }
  }

  /** Any of the 26 methods and a space. */
  lemma MethodRun(hc: Fields -> int, c: Conf, v: nat)
    requires c.run.Going? && c.f.state.StartReq? && v < METHODS && Room(c.f, 12)
    ensures var n := |MethodText(v)| + 1;
            var d := Feed(hc, c, MethodText(v) + [SP]);
            n <= 12 &&
            d == Reached(c, Fresh(c.f).(verb := v, index := d.f.index, state := ReqSpacesBeforeUrl,
                                        nread := c.f.nread + n),
                         Push(c.log, Notice(MessageBegin)), n)
  {
    hide MethodString, MethodText, OnByte, Push, Guess, Feed;
    MethodEnds(v);
    MethodLength(v);
    var t := MethodText(v);
    assert t[..|t|] == t;
    MethodPrefix(hc, c, v, |t|);
    FeedSnoc(hc, c, t, SP);
    MethodSpace(hc, Feed(hc, c, t));
  }

  // ---- the target ------------------------------------------------------------------

  /** parse_url_char, run over a string. */
  function UrlAfter(s: State, t: seq<byte>): State {
    if t == [] then s else UrlChar(UrlAfter(s, t[..|t| - 1]), t[|t| - 1])
  }

  /** The state in which the URL automaton starts; the target of CONNECT begins with the host. */
  function UrlStart(verb: nat): State { if verb == CONNECT_METHOD then ReqServerStart else ReqSpacesBeforeUrl }

  /** A request target: the URL automaton accepts it and a space may follow. */
  predicate Target(verb: nat, t: seq<byte>) {
    t != [] && MayEnd(UrlAfter(UrlStart(verb), t))
  }

  /** The URL states in which a space ends the URL. */
  predicate MayEnd(s: State) {
    UrlState(s) && !s.ReqSchema? && !s.ReqSchemaSlash? && !s.ReqSchemaSlashSlash? && !s.ReqServerStart?
  }

  function UrlData(s: seq<byte>): HttpEvent { Data(KUrl, s) }

  lemma UrlNotDead(s: State, ch: byte)
    ensures UrlChar(s, ch) != Dead ==> UrlState(UrlChar(s, ch)) && (UrlState(s) || s.ReqSpacesBeforeUrl?)
    ensures UrlChar(s, ch) != Dead ==> ch != SP && ch != CR && ch != LF
  {
    hide Lower, IsUrlChar, IsUserinfoChar;
  }

  lemma UrlFirst(hc: Fields -> int, c: Conf, ch: byte)
    requires c.run.Going? && Room(c.f, 1) && c.f.state.ReqSpacesBeforeUrl?
    requires UrlChar(UrlStart(c.f.verb), ch) != Dead
    ensures OnByte(hc, c, ch)
            == Reached(c, c.f.(state := UrlChar(UrlStart(c.f.verb), ch), nread := c.f.nread + 1),
                       Push(c.log, UrlData([ch])), 1)
  {
    hide UrlChar, Push, Dispatch, StartSwitch, HeaderSwitch, BodySwitch, StartReqArm, ReqMethodArm, UrlStrictArm,
      UrlArm, HttpStartArm, FirstMajorArm, MajorArm, FirstMinorArm, ReqMinorArm, ReqLineAlmostDoneArm, Expect;
    UrlNotDead(UrlStart(c.f.verb), ch);
    OnByteSwitch(hc, c, ch);
  }

  /** The cases of the URL states, one byte inside the URL. */
  lemma UrlInside(hc: Fields -> int, f: Fields, ch: byte)
    requires UrlState(f.state) && UrlChar(f.state, ch) != Dead
    ensures Switch(hc, f, ch) == To(f, UrlChar(f.state, ch))
  {
    hide UrlChar, StartSwitch, HeaderSwitch, BodySwitch, StartReqArm, ReqMethodArm, SpacesBeforeUrlArm, HttpStartArm,
      FirstMajorArm, MajorArm, FirstMinorArm, ReqMinorArm, ReqLineAlmostDoneArm, Expect;
    UrlNotDead(f.state, ch);
  }

  lemma UrlByte(hc: Fields -> int, c: Conf, ch: byte)
    requires c.run.Going? && Room(c.f, 1) && UrlState(c.f.state) && UrlChar(c.f.state, ch) != Dead
    ensures OnByte(hc, c, ch)
            == Reached(c, c.f.(state := UrlChar(c.f.state, ch), nread := c.f.nread + 1), Push(c.log, UrlData([ch])), 1)
  {
    hide UrlChar, Push, Dispatch, Switch;
    UrlNotDead(c.f.state, ch);
    UrlInside(hc, Count(c.f), ch);
    OnByteSwitch(hc, c, ch);
  }

  lemma {:induction false} UrlRun(hc: Fields -> int, c: Conf, t: seq<byte>)
    requires c.run.Going? && c.f.state.ReqSpacesBeforeUrl? && Room(c.f, |t|)
    requires t != [] && UrlAfter(UrlStart(c.f.verb), t) != Dead
    ensures UrlState(UrlAfter(UrlStart(c.f.verb), t))
    ensures Feed(hc, c, t)
            == Reached(c, c.f.(state := UrlAfter(UrlStart(c.f.verb), t), nread := c.f.nread + |t|),
                       Push(c.log, UrlData(t)), |t|)
    decreases |t|
  {
    hide OnByte, UrlChar, UrlState, Push, UrlStart;
    var s, init, last := UrlStart(c.f.verb), t[..|t| - 1], t[|t| - 1];
    UrlNotDead(UrlAfter(s, init), last);
    assert t == init + [last];
    if init == [] {
      FeedOne(hc, c, last);
      UrlFirst(hc, c, last);
    } else {
      DeadStays(last);
      UrlRun(hc, c, init);
      UrlByte(hc, Feed(hc, c, init), last);
      PushSnoc(c.log, KUrl, init, last);
    }
  }

  lemma DeadStays(ch: byte)
    ensures UrlChar(Dead, ch) == Dead
  {
  }

  // ---- the version -----------------------------------------------------------------

  const VERSION_BYTES := 10

  /** "HTTP/1.1" and its line end, byte by byte with the states between. */
  function VersionByte(i: nat): byte {
    if i == 0 then 'H' as int else if i == 1 then 'T' as int else if i == 2 then 'T' as int
    else if i == 3 then 'P' as int
    else if i == 4 then '/' as int else if i == 5 then '1' as int else if i == 6 then '.' as int
    else if i == 7 then '1' as int else if i == 8 then CR else LF
  }

  function VersionState(i: nat): State {
    if i == 0 then ReqHttpStart else if i == 1 then ReqHttpH else if i == 2 then ReqHttpHT
    else if i == 3 then ReqHttpHTT
    else if i == 4 then ReqHttpHTTP else if i == 5 then ReqFirstHttpMajor else if i == 6 then ReqHttpMajor
    else if i == 7 then ReqFirstHttpMinor else if i == 8 then ReqHttpMinor else if i == 9 then ReqLineAlmostDone
    else HeaderFieldStart
  }

  function Version(n: nat): (s: seq<byte>)
    ensures |s| == n
  {
    if n == 0 then [] else Version(n - 1) + [VersionByte(n - 1)]
  }

  /** The fields after byte `i` of the version. */
  function VersionFields(f: Fields, i: nat): Fields {
    f.(state := VersionState(i + 1), httpMajor := if i == 5 then 1 else f.httpMajor,
       httpMinor := if i == 7 then 1 else f.httpMinor, nread := f.nread + 1)
  }

  lemma VersionFacts(i: nat)
    requires i < VERSION_BYTES
    ensures CountsBytes(VersionState(i)) && !Swallows(VersionState(i)) && Live(VersionState(i + 1)).None?
  {
  }

  lemma VersionName(hc: Fields -> int, c: Conf, i: nat)
    requires c.run.Going? && i < 5 && c.f.state == VersionState(i) && Room(c.f, 1)
    ensures OnByte(hc, c, VersionByte(i)) == Reached(c, VersionFields(c.f, i), c.log, 1)
  {
    hide Push, Dispatch, Switch, OnByte, VersionByte, VersionState, Swallows, CountsBytes, Live;
    VersionFacts(i);
    VersionNameArm(hc, Count(c.f), i);
    OnByteSwitch(hc, c, VersionByte(i));
  }

  lemma VersionNameArm(hc: Fields -> int, f: Fields, i: nat)
    requires i < 5 && f.state == VersionState(i)
    ensures Switch(hc, f, VersionByte(i)) == To(f, VersionState(i + 1)) && !Swallows(f.state)
  {
    hide StartReqArm, ReqMethodArm, SpacesBeforeUrlArm, UrlStrictArm, UrlArm, FirstMajorArm, MajorArm, FirstMinorArm,
      ReqMinorArm, ReqLineAlmostDoneArm, StartSwitch, HeaderSwitch, BodySwitch;
  }

  lemma VersionNumber(hc: Fields -> int, c: Conf, i: nat)
    requires c.run.Going? && 5 <= i < 8 && c.f.state == VersionState(i) && Room(c.f, 1)
    ensures OnByte(hc, c, VersionByte(i)) == Reached(c, VersionFields(c.f, i), c.log, 1)
  {
    hide Push, Dispatch, Switch, OnByte, VersionByte, VersionState, Swallows, CountsBytes, Live;
    VersionFacts(i);
    VersionNumberArm(hc, Count(c.f), i);
    OnByteSwitch(hc, c, VersionByte(i));
  }

  lemma VersionNumberArm(hc: Fields -> int, f: Fields, i: nat)
    requires 5 <= i < 8 && f.state == VersionState(i)
    ensures Switch(hc, f, VersionByte(i))
         == To(f.(httpMajor := if i == 5 then 1 else f.httpMajor, httpMinor := if i == 7 then 1 else f.httpMinor),
               VersionState(i + 1))
  {
    hide StartReqArm, ReqMethodArm, SpacesBeforeUrlArm, UrlStrictArm, UrlArm, HttpStartArm, Expect, ReqMinorArm,
      ReqLineAlmostDoneArm, StartSwitch, HeaderSwitch, BodySwitch, U16;
  }

  lemma VersionLineEnd(hc: Fields -> int, c: Conf, i: nat)
    requires c.run.Going? && 8 <= i < VERSION_BYTES && c.f.state == VersionState(i) && Room(c.f, 1)
    ensures OnByte(hc, c, VersionByte(i)) == Reached(c, VersionFields(c.f, i), c.log, 1)
  {
    hide Push, Dispatch, Switch, OnByte, VersionByte, VersionState, Swallows, CountsBytes, Live;
    VersionFacts(i);
    VersionLineArm(hc, Count(c.f), i);
    OnByteSwitch(hc, c, VersionByte(i));
  }

  lemma VersionLineArm(hc: Fields -> int, f: Fields, i: nat)
    requires 8 <= i < VERSION_BYTES && f.state == VersionState(i)
    ensures Switch(hc, f, VersionByte(i)) == To(f, VersionState(i + 1)) && !Swallows(f.state)
  {
    hide StartReqArm, ReqMethodArm, SpacesBeforeUrlArm, UrlStrictArm, UrlArm, HttpStartArm, Expect, FirstMajorArm,
      MajorArm, FirstMinorArm, MinorDigit, StartSwitch, HeaderSwitch, BodySwitch;
  }

  lemma VersionStep(hc: Fields -> int, c: Conf, i: nat)
    requires c.run.Going? && i < VERSION_BYTES && c.f.state == VersionState(i) && Room(c.f, 1)
    ensures OnByte(hc, c, VersionByte(i)) == Reached(c, VersionFields(c.f, i), c.log, 1)
  {
    hide OnByte, VersionByte, VersionState, VersionFields;
    if i < 5 {
      VersionName(hc, c, i);
    } else if i < 8 {
      VersionNumber(hc, c, i);
    } else {
      VersionLineEnd(hc, c, i);
    }
  }

  lemma VersionStart()
    ensures VersionState(0).ReqHttpStart?
  {
  }

  lemma {:induction false} VersionRun(hc: Fields -> int, c: Conf, n: nat)
    requires c.run.Going? && c.f.state.ReqHttpStart? && n <= VERSION_BYTES && Room(c.f, n)
    ensures Feed(hc, c, Version(n))
            == Reached(c, c.f.(state := VersionState(n), httpMajor := if n > 5 then 1 else c.f.httpMajor,
                               httpMinor := if n > 7 then 1 else c.f.httpMinor, nread := c.f.nread + n), c.log, n)
    decreases n
  {
    hide OnByte, VersionByte, VersionState;
    if n == 0 {
      VersionStart();
    } else {
      VersionRun(hc, c, n - 1);
      FeedSnoc(hc, c, Version(n - 1), VersionByte(n - 1));
      VersionStep(hc, Feed(hc, c, Version(n - 1)), n - 1);
    }
  }

  lemma UrlSpace(hc: Fields -> int, c: Conf)
    requires c.run.Going? && MayEnd(c.f.state) && Room(c.f, 1)
    ensures OnByte(hc, c, SP)
            == Reached(c, c.f.(state := ReqHttpStart, nread := c.f.nread + 1), Push(c.log, UrlData([])), 1)
  {
    hide Push, Dispatch, StartSwitch, HeaderSwitch, BodySwitch, UrlChar, StartReqArm, ReqMethodArm,
      SpacesBeforeUrlArm, UrlStrictArm, HttpStartArm, FirstMajorArm, MajorArm, FirstMinorArm, ReqMinorArm,
      ReqLineAlmostDoneArm;
    OnByteSwitch(hc, c, SP);
  }

  function RequestLine(verb: nat, target: seq<byte>): seq<byte> {
    (MethodText(verb) + [SP]) + (target + [SP]) + Version(VERSION_BYTES)
  }

  /** A whole request line of HTTP version 1.1. */
  lemma RequestLineRun(hc: Fields -> int, c: Conf, verb: nat, target: seq<byte>)
    requires c.run.Going? && c.f.state.StartReq? && verb < METHODS && Target(verb, target)
    requires Room(c.f, |RequestLine(verb, target)|)
    ensures var d, n := Feed(hc, c, RequestLine(verb, target)), |RequestLine(verb, target)|;
            d == Reached(c, Fresh(c.f).(verb := verb, index := d.f.index, state := HeaderFieldStart,
                                        httpMajor := 1, httpMinor := 1, nread := c.f.nread + n),
                         Push(Push(c.log, Notice(MessageBegin)), UrlData(target)), n)
  {
    hide OnByte, Feed, Push, MethodText, Version, UrlAfter, MayEnd, UrlStart;
    var m, u, w := MethodText(verb) + [SP], target + [SP], Version(VERSION_BYTES);
    FeedConcat(hc, c, m + u, w);
    FeedConcat(hc, c, m, u);
    MethodSize(verb);
    MethodRun(hc, c, verb);
    var d := Feed(hc, c, m);
    FeedSnoc(hc, d, target, SP);
    MayEndLives(UrlAfter(UrlStart(verb), target));
    UrlRun(hc, d, target);
    UrlSpace(hc, Feed(hc, d, target));
    PushTwice(d.log, KUrl, target, []);
    assert target + [] == target;
    VersionRun(hc, Feed(hc, d, u), VERSION_BYTES);
  }

  lemma MayEndLives(s: State)
    requires MayEnd(s)
    ensures s != Dead
  {
  }

  lemma MethodSize(verb: nat)
    requires verb < METHODS
    ensures 3 <= |MethodText(verb)| <= 11
  {
    MethodEnds(verb);
    MethodLength(verb);
  }
}
