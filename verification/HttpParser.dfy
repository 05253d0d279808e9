/**
  http_parser_execute as it runs: over a buffer, with four marks and bulk moves over body bytes.
  It is proved to agree with HttpSpec.Feed, which knows nothing of buffers.
 */
module HttpParser {
  import opened Common
  import opened Events
  import opened HttpTypes
  import opened HttpSwitch
  import opened HttpSpec
  import opened HttpUpgrades

  /** header_field_mark, header_value_mark, url_mark and body_mark, as offsets into the buffer. */
  datatype Marks = Marks(field: Option<nat>, value: Option<nat>, url: Option<nat>, body: Option<nat>)

  function Get(m: Marks, k: Kind): Option<nat> {
    match k
    case KField => m.field
    case KValue => m.value
    case KUrl => m.url
    case KBody => m.body
  }

  function Set(m: Marks, k: Kind, at: Option<nat>): Marks {
    match k
    case KField => m.(field := at)
    case KValue => m.(value := at)
    case KUrl => m.(url := at)
    case KBody => m.(body := at)
  }

  const NO_MARKS := Marks(None, None, None, None)

  /** The marks that a call sets from the state it finds. */
  function Rebuilt(s: State): Marks {
    if Live(s).Some? then Set(NO_MARKS, Live(s).value, Some(0)) else NO_MARKS
  }

  /** The one mark that may be live in a state. */
  function Marked(s: State): Option<Kind> {
    if s.BodyIdentity? || s.BodyIdentityEof? || s.ChunkData? || s.ChunkDataAlmostDone? then Some(KBody) else Live(s)
  }

  /** A mark is behind the data pointer, except for those that a call sets before its first byte. */
  predicate Before(k: Kind, at: nat, p: nat) { at < p || (at == p == 0 && k != KBody) }

  /** At most one mark is live, it is the one of the state, and a URL or header mark is always there. */
  predicate Fits(s: State, m: Marks, p: nat) {
    && (forall k: Kind :: Get(m, k).Some? ==> Marked(s) == Some(k) && Before(k, Get(m, k).value, p))
    && (Live(s).Some? ==> Get(m, Live(s).value).Some?)
  }

  lemma LiveMarked(s: State)
    ensures Live(s).Some? ==> Marked(s) == Live(s) && Live(s) != Some(KBody)
    ensures Marked(s) == Some(KBody) ==> Live(s).None?
    ensures Marked(s).Some? && Marked(s) != Some(KBody) ==> Live(s) == Marked(s)
  {
  }

  lemma FitsAt(s: State, m: Marks, p: nat)
    requires Fits(s, m, p)
    ensures forall k: Kind :: Get(m, k).Some? ==> Marked(s) == Some(k) && Before(k, Get(m, k).value, p)
    ensures Live(s).Some? ==> Get(m, Live(s).value).Some?
  {
    hide Live, Marked;
  }

  /** The pending piece of kind `k` that starts at `at`. */
  function Piece(k: Kind, at: nat, data: seq<byte>, p: nat): (r: HttpLog)
    requires at <= p <= |data|
    ensures |r| <= 1
  {
    if at == p then [] else [Data(k, data[at..p])]
  }

  /** The bytes between a live mark and `p`, which no callback has delivered yet. */
  function Pending(m: Marks, s: State, data: seq<byte>, p: nat): HttpLog
    requires p <= |data| && Fits(s, m, p)
  {
    if Marked(s).None? || Get(m, Marked(s).value).None? then []
    else Piece(Marked(s).value, Get(m, Marked(s).value).value, data, p)
  }

  /** MARK: set the mark unless it is set already. */
  function MarkAt(m: Marks, k: Option<Kind>, p: nat): Marks {
    if k.Some? && Get(m, k.value).None? then Set(m, k.value, Some(p)) else m
  }

  /** The callbacks that one pass through the switch makes. */
  function Calls(call: Call, m: Marks, data: seq<byte>, end: nat): HttpLog
    requires end <= |data|
    requires call.DataCall? && Get(m, call.kind).Some? ==> Get(m, call.kind).value <= end
  {
    match call
    case NoCall => []
    case NoteCall(n) => [Notice(n)]
    case DataCall(k) => if Get(m, k).None? then [] else [Data(k, data[Get(m, k).value..end])]
  }

  /** A data callback clears its mark. */
  function Cleared(call: Call, m: Marks): Marks { if call.DataCall? then Set(m, call.kind, None) else m }

  /** How the cases of the switch treat marks. */
  predicate MarkLaw(s: State, a: Arm) {
    match a.call
    case DataCall(k) =>
      Marked(a.f.state).None? && !a.go.Stop?
      && (if a.mark.Some? then a.mark == Some(k) && Marked(s).None? && k != KBody else Marked(s) == Some(k))
    case NoteCall(_) => a.mark.None? && Marked(s).None? && Marked(a.f.state).None?
    case NoCall =>
      a.go.Stop?
      || (a.go.Next? && Live(s).Some? && Live(a.f.state) == Live(s) && a.mark.None?)
      || (Marked(s).None? && Live(a.f.state) == a.mark && (a.mark.Some? ==> a.go.Next?) && !a.go.Exit?)
  }

  /** An error number is set exactly when the switch is left through `error`. */
  predicate ErrnoLaw(f: Fields, a: Arm) { f.errno.OK? ==> (a.go.Stop? <==> !a.f.errno.OK?) }

  lemma FieldMarkLaw(hc: Fields -> int, f: Fields, ch: byte)
    requires f.state.HeaderFieldStart? || f.state.HeaderField?
    ensures MarkLaw(f.state, HeaderSwitch(hc, f, ch))
    ensures ErrnoLaw(f, HeaderSwitch(hc, f, ch))
  {
    hide StepName, NameCounts, FirstHeaderState, Token, ValueStartArm, ValueArm, HeaderAlmostDoneArm, LwsArm,
      HeadersAlmostDoneArm, HeadersDoneArm;
  }

  lemma ValueMarkLaw(hc: Fields -> int, f: Fields, ch: byte)
    requires f.state.HeaderValueStart? || f.state.HeaderValue?
    ensures MarkLaw(f.state, HeaderSwitch(hc, f, ch))
    ensures ErrnoLaw(f, HeaderSwitch(hc, f, ch))
  {
    hide Matching, Accumulate, Lower, FieldStartArm, FieldArm, HeaderAlmostDoneArm, LwsArm, HeadersAlmostDoneArm,
      HeadersDoneArm;
  }

  lemma HeaderMarkLaw(hc: Fields -> int, f: Fields, ch: byte)
    requires InHeaders(f.state)
    ensures MarkLaw(f.state, HeaderSwitch(hc, f, ch))
    ensures ErrnoLaw(f, HeaderSwitch(hc, f, ch))
  {
    hide FieldStartArm, FieldArm, ValueStartArm, ValueArm, NeedsEof;
    if f.state.HeaderFieldStart? || f.state.HeaderField? {
      FieldMarkLaw(hc, f, ch);
    } else if f.state.HeaderValueStart? || f.state.HeaderValue? {
      ValueMarkLaw(hc, f, ch);
    }
  }

  lemma VersionMarkLaw(f: Fields, ch: byte)
    requires InVersion(f.state)
    ensures MarkLaw(f.state, RequestSwitch(f, ch))
    ensures ErrnoLaw(f, RequestSwitch(f, ch))
  {
    hide U16, StartReqArm, ReqMethodArm, SpacesBeforeUrlArm, UrlStrictArm, UrlArm;
  }

  lemma RequestMarkLaw(f: Fields, ch: byte)
    requires InRequestLine(f.state)
    ensures MarkLaw(f.state, RequestSwitch(f, ch))
    ensures ErrnoLaw(f, RequestSwitch(f, ch))
  {
    hide StepMethod, FirstMethod, Lower, UrlChar, HttpStartArm, FirstMajorArm, MajorArm, FirstMinorArm, ReqMinorArm,
      ReqLineAlmostDoneArm, Expect, MarkLaw, ErrnoLaw;
    if InVersion(f.state) {
      VersionMarkLaw(f, ch);
    } else if UrlState(f.state) || f.state.ReqSpacesBeforeUrl? {
      UrlMarkLaw(f, ch);
    } else {
      MethodMarkLaw(f, ch);
    }
  }

  lemma UrlMarkLaw(f: Fields, ch: byte)
    requires UrlState(f.state) || f.state.ReqSpacesBeforeUrl?
    ensures MarkLaw(f.state, RequestSwitch(f, ch))
    ensures ErrnoLaw(f, RequestSwitch(f, ch))
  {
    hide UrlChar, UrlArm, UrlStrictArm, SpacesBeforeUrlArm, MarkLaw, ErrnoLaw;
    if f.state.ReqSpacesBeforeUrl? {
      SpacesMarkLaw(f, ch);
    } else {
      StrictMarkLaw(f, ch);
      PlainMarkLaw(f, ch);
    }
  }

  lemma SpacesMarkLaw(f: Fields, ch: byte)
    requires f.state.ReqSpacesBeforeUrl?
    ensures MarkLaw(f.state, SpacesBeforeUrlArm(f, ch)) && ErrnoLaw(f, SpacesBeforeUrlArm(f, ch))
  {
    hide UrlChar;
    UrlCharStays(ReqServerStart, ch);
    UrlCharStays(ReqSpacesBeforeUrl, ch);
  }

  lemma StrictMarkLaw(f: Fields, ch: byte)
    requires UrlState(f.state)
    ensures MarkLaw(f.state, UrlStrictArm(f, ch)) && ErrnoLaw(f, UrlStrictArm(f, ch))
  {
    hide UrlChar;
    UrlCharStays(f.state, ch);
  }

  lemma PlainMarkLaw(f: Fields, ch: byte)
    requires UrlState(f.state)
    ensures MarkLaw(f.state, UrlArm(f, ch)) && ErrnoLaw(f, UrlArm(f, ch))
  {
    hide UrlChar;
    UrlCharStays(f.state, ch);
  }

  lemma MethodMarkLaw(f: Fields, ch: byte)
    requires InRequestLine(f.state) && !InVersion(f.state) && !UrlState(f.state) && !f.state.ReqSpacesBeforeUrl?
    ensures MarkLaw(f.state, RequestSwitch(f, ch))
    ensures ErrnoLaw(f, RequestSwitch(f, ch))
  {
    hide StepMethod, FirstMethod, Lower, UrlChar, HttpStartArm, FirstMajorArm, MajorArm, FirstMinorArm, ReqMinorArm,
      ReqLineAlmostDoneArm, Expect;
  }

  lemma BodyMarkLaw(f: Fields, ch: byte)
    requires InBody(f.state) && !Swallows(f.state)
    ensures MarkLaw(f.state, BodySwitch(f, ch))
    ensures ErrnoLaw(f, BodySwitch(f, ch))
  {
    hide Accumulate, NeedsEof, Unhex;
  }

  predicate InStatusLine(s: State) {
    s.ResFirstHttpMajor? || s.ResHttpMajor? || s.ResFirstHttpMinor? || s.ResHttpMinor?
    || s.ResFirstStatusCode? || s.ResStatusCode? || s.ResStatus?
  }

  lemma StatusMarkLaw(f: Fields, ch: byte)
    requires InStatusLine(f.state)
    ensures MarkLaw(f.state, StartSwitch(f, ch))
    ensures ErrnoLaw(f, StartSwitch(f, ch))
  {
    hide U16, DeadArm, StartReqOrResArm, ResOrRespHArm, StartResArm, Expect, ResLineAlmostDoneArm;
  }

  lemma StartMarkLaw(f: Fields, ch: byte)
    requires !InHeaders(f.state) && !InBody(f.state) && !InRequestLine(f.state)
    ensures MarkLaw(f.state, StartSwitch(f, ch))
    ensures ErrnoLaw(f, StartSwitch(f, ch))
  {
    hide FirstMajorArm, MajorArm, FirstMinorArm, ResMinorArm, FirstStatusArm, StatusCodeArm, StatusArm;
    if InStatusLine(f.state) {
      StatusMarkLaw(f, ch);
    }
  }

  lemma SwitchMarkLaw(hc: Fields -> int, f: Fields, ch: byte)
    requires !Swallows(f.state)
    ensures MarkLaw(f.state, Switch(hc, f, ch))
    ensures ErrnoLaw(f, Switch(hc, f, ch))
  {
    hide HeaderSwitch, RequestSwitch, BodySwitch, StartSwitch, MarkLaw, ErrnoLaw, InHeaders, InBody, InRequestLine;
    if InHeaders(f.state) {
      HeaderMarkLaw(hc, f, ch);
    } else if InBody(f.state) {
      BodyMarkLaw(f, ch);
    } else if InRequestLine(f.state) {
      RequestMarkLaw(f, ch);
    } else {
      StartMarkLaw(f, ch);
    }
  }

  /** Log, delivered and pending. */
  ghost function Whole(log: HttpLog, m: Marks, s: State, data: seq<byte>, p: nat): HttpLog
    requires p <= |data| && Fits(s, m, p)
  {
    PushAll(Merged(log), Pending(m, s, data, p))
  }

  /** Where the data pointer stands for the next round of the switch. */
  function Stand(go: Go, p: nat): nat { if go.Next? || go.Exit? then p + 1 else p }

  /** A pending piece grows with the data pointer. */
  lemma PieceGrows(log: HttpLog, k: Kind, at: nat, data: seq<byte>, p: nat, q: nat)
    requires at <= p < q <= |data|
    ensures PushAll(log, Piece(k, at, data, q)) == Push(PushAll(log, Piece(k, at, data, p)), Data(k, data[p..q]))
  {
    hide Push;
    PushAllOne(log, Data(k, data[at..q]));
    if at < p {
      PushAllOne(log, Data(k, data[at..p]));
      PushTwice(log, k, data[at..p], data[p..q]);
      assert data[at..p] + data[p..q] == data[at..q];
    }
  }

  /** Delivering a pending piece is the same as leaving it pending and then closing it. */
  lemma PieceCloses(log: HttpLog, k: Kind, at: nat, data: seq<byte>, p: nat)
    requires at <= p <= |data|
    ensures Push(log, Data(k, data[at..p])) == Push(PushAll(log, Piece(k, at, data, p)), Data(k, []))
    ensures at < p ==> Push(log, Data(k, data[at..p])) == PushAll(log, Piece(k, at, data, p))
  {
    hide Push;
    if at < p {
      PushAllOne(log, Data(k, data[at..p]));
      PushTwice(log, k, data[at..p], []);
      assert data[at..p] + [] == data[at..p];
    } else {
      assert data[at..p] == [];
    }
  }

  /** One pass through the switch keeps the marks in step with the state. */
  lemma PassFits(m: Marks, s: State, a: Arm, p: nat)
    requires Fits(s, m, p) && MarkLaw(s, a) && !a.go.Stop?
    ensures var m1 := MarkAt(m, a.mark, p);
            && (a.call.DataCall? && Get(m1, a.call.kind).Some? ==> Get(m1, a.call.kind).value <= p)
            && Fits(a.f.state, Cleared(a.call, m1), Stand(a.go, p))
  {
    hide Live, Marked;
    LiveMarked(s);
    LiveMarked(a.f.state);
  }

  /** One pass of the buffered machine through the switch is heard as one pass of the byte machine. */
  lemma PassHeard(log: HttpLog, m: Marks, s: State, a: Arm, data: seq<byte>, p: nat, m1: Marks, m2: Marks)
    requires p < |data| && Fits(s, m, p) && MarkLaw(s, a) && !a.go.Stop?
    requires m1 == MarkAt(m, a.mark, p) && m2 == Cleared(a.call, m1)
    ensures a.call.DataCall? && Get(m1, a.call.kind).Some? ==> Get(m1, a.call.kind).value <= p
    ensures Fits(a.f.state, m2, Stand(a.go, p))
    ensures Whole(log + Calls(a.call, m1, data, p), m2, a.f.state, data, Stand(a.go, p))
            == Heard(Whole(log, m, s, data, p), a, data[p])
    ensures a.go.Exit? ==> Pending(m2, a.f.state, data, Stand(a.go, p)) == []
  {
    hide Live, Marked, Push, Merged, Piece, Fits;
    LiveMarked(s);
    LiveMarked(a.f.state);
    FitsAt(s, m, p);
    PassFits(m, s, a, p);
    var calls := Calls(a.call, m1, data, p);
    if calls != [] {
      MergedSnoc(log, calls[0]);
    } else {
      assert log + calls == log;
    }
    PieceEmpty(p, data);
    match a.call
    case DataCall(k) =>
      if Get(m1, k).Some? {
        PieceCloses(Merged(log), k, Get(m1, k).value, data, p);
      }
    case NoteCall(n) =>
    case NoCall =>
      var k := Live(a.f.state);
      assert data[p..p + 1] == [data[p]];
      if a.go.Next? && k.Some? {
        PieceGrows(Merged(log), k.value, Get(m1, k.value).value, data, p, p + 1);
      }
  }

  /** When a pass fails, what was pending is never delivered. */
  lemma PassFails(log: HttpLog, m: Marks, s: State, a: Arm, data: seq<byte>, p: nat)
    requires p < |data| && Fits(s, m, p) && MarkLaw(s, a) && a.go.Stop?
    ensures !a.call.DataCall?
    ensures PushAll(Merged(log + Calls(a.call, m, data, p)), Pending(m, s, data, p))
            == Heard(Whole(log, m, s, data, p), a, data[p])
  {
    hide Live, Marked, Push, Merged, Piece;
    if a.call.NoteCall? {
      MergedSnoc(log, Notice(a.call.note));
    } else {
      assert log + Calls(a.call, m, data, p) == log;
    }
  }

  lemma FailedCalls(a: Arm, m: Marks, m1: Marks, data: seq<byte>, p: nat)
    requires p <= |data| && !a.call.DataCall?
    ensures Calls(a.call, m, data, p) == Calls(a.call, m1, data, p)
  {
  }

  /** Together the four flush callbacks make. */
  function FlushCalls(m: Marks, data: seq<byte>): HttpLog
    requires forall k: Kind :: Get(m, k).Some? ==> Get(m, k).value <= |data|
  {
    Calls(DataCall(KField), m, data, |data|) + Calls(DataCall(KValue), m, data, |data|)
    + Calls(DataCall(KUrl), m, data, |data|) + Calls(DataCall(KBody), m, data, |data|)
  }

  /** The flush callbacks deliver exactly what is pending. */
  lemma FlushHeard(log: HttpLog, m: Marks, s: State, data: seq<byte>)
    requires Fits(s, m, |data|) && |data| > 0
    ensures forall k: Kind :: Get(m, k).Some? ==> Get(m, k).value <= |data|
    ensures FlushCalls(m, data) == Pending(m, s, data, |data|)
    ensures Merged(log + FlushCalls(m, data)) == Whole(log, m, s, data, |data|)
  {
    hide Live, Marked, Push;
    var rest := Pending(m, s, data, |data|);
    assert FlushCalls(m, data) == rest;
    PushAllConcat([], log, rest);
  }

  /** The flush callbacks, one after the other. */
  lemma FlushInTurn(log: HttpLog, m: Marks, data: seq<byte>)
    requires forall k: Kind :: Get(m, k).Some? ==> Get(m, k).value <= |data|
    ensures log + Calls(DataCall(KField), m, data, |data|) + Calls(DataCall(KValue), m, data, |data|)
            + Calls(DataCall(KUrl), m, data, |data|) + Calls(DataCall(KBody), m, data, |data|)
            == log + FlushCalls(m, data)
  {
    var a, b := Calls(DataCall(KField), m, data, |data|), Calls(DataCall(KValue), m, data, |data|);
    var c, d := Calls(DataCall(KUrl), m, data, |data|), Calls(DataCall(KBody), m, data, |data|);
    Regrouped(log, a, b);
    Regrouped(log, a + b, c);
    Regrouped(log, a + b + c, d);
  }

  /** The marks rebuilt on entry stand for nothing pending. */
  lemma RebuiltAgrees(log: HttpLog, s: State, data: seq<byte>)
    ensures Fits(s, Rebuilt(s), 0) && Whole(log, Rebuilt(s), s, data, 0) == Merged(log)
  {
    hide Live, Marked, Push, Merged;
    LiveMarked(s);
  }

  lemma WholePending(log: HttpLog, m: Marks, s: State, data: seq<byte>, p: nat)
    requires p <= |data| && Fits(s, m, p)
    ensures Whole(log, m, s, data, p) == PushAll(Merged(log), Pending(m, s, data, p))
  {
  }

  lemma PieceEmpty(p: nat, data: seq<byte>)
    requires p <= |data|
    ensures forall k: Kind :: Piece(k, p, data, p) == []
  {
  }

  lemma NoPiece(k: Kind, p: nat, data: seq<byte>)
    requires p <= |data|
    ensures Piece(k, p, data, p) == []
  {
  }

  /** What is pending in a body, given the mark that MARK(body) leaves. */
  lemma PendingBody(m: Marks, s: State, data: seq<byte>, p: nat, m1: Marks)
    requires p <= |data| && Fits(s, m, p) && Marked(s) == Some(KBody) && m1 == MarkAt(m, Some(KBody), p)
    ensures Get(m1, KBody).Some? && Get(m1, KBody).value <= p
    ensures Pending(m, s, data, p) == Piece(KBody, Get(m1, KBody).value, data, p)
  {
    hide Live, Marked, Piece;
    NoPiece(KBody, p, data);
  }

  lemma MarkedStates(s: State)
    requires Swallows(s)
    ensures Marked(s) == Marked(ChunkDataAlmostDone) == Some(KBody) && Marked(MessageDone).None?
  {
  }

  /** MARK(body) and a move of the data pointer from `p` to `q`, into a state that goes on with the body. */
  lemma SwallowOpen(log: HttpLog, m: Marks, s: State, t: State, data: seq<byte>, p: nat, q: nat, m1: Marks)
    requires p < q <= |data| && Fits(s, m, p) && Marked(s) == Marked(t) == Some(KBody)
    requires m1 == MarkAt(m, Some(KBody), p)
    ensures Get(m1, KBody).Some? && Get(m1, KBody).value <= p
    ensures Fits(t, m1, q)
    ensures Whole(log, m1, t, data, q) == Push(Whole(log, m, s, data, p), Body(data[p..q]))
  {
    hide Live, Marked, Push, Merged, Piece;
    LiveMarked(s);
    LiveMarked(t);
    PendingBody(m, s, data, p, m1);
    PieceGrows(Merged(log), KBody, Get(m1, KBody).value, data, p, q);
    assert Pending(m1, t, data, q) == Piece(KBody, Get(m1, KBody).value, data, q);
  }

  /** The same into a state without data, after the callback with the bytes up to `q`. */
  lemma SwallowShut(log: HttpLog, m: Marks, s: State, t: State, data: seq<byte>, p: nat, q: nat, m1: Marks, r: nat)
    requires p < q <= |data| && Fits(s, m, p) && Marked(s) == Some(KBody) && Marked(t).None? && r <= |data|
    requires m1 == MarkAt(m, Some(KBody), p)
    ensures Get(m1, KBody).Some? && Get(m1, KBody).value <= p
    ensures Fits(t, Set(m1, KBody, None), r)
    ensures Whole(log + Calls(DataCall(KBody), m1, data, q), Set(m1, KBody, None), t, data, r)
            == Push(Whole(log, m, s, data, p), Body(data[p..q]))
  {
    hide Live, Marked, Push, Merged, Piece;
    LiveMarked(s);
    LiveMarked(t);
    PendingBody(m, s, data, p, m1);
    var at := Get(m1, KBody).value;
    PieceGrows(Merged(log), KBody, at, data, p, q);
    PieceCloses(Merged(log), KBody, at, data, q);
    MergedSnoc(log, Calls(DataCall(KBody), m1, data, q)[0]);
  }

  class HttpParser {
    var f: Fields
    const hc: Fields -> int  // what on_headers_complete returns
    ghost var log: HttpLog   // the callbacks made so far

    /** http_parser_init */
    constructor (t: ParserType, hc: Fields -> int)
      ensures f == Init(t) && this.hc == hc && log == [] && Valid()
    {
      f := HttpTypes.Init(t);
      this.hc := hc;
      log := [];
    }

    ghost predicate Valid()
      reads this
    {
      WellFormed(f)
    }

    /** The byte machine at the start of a call. */
    ghost function Now(): Conf
      reads this
    {
      Conf(f, Merged(log), 0, Going)
    }

    /** The buffered machine, with the marks `m` and the data pointer `p`, has come as far as `c`. */
    ghost predicate Agrees(c: Conf, m: Marks, data: seq<byte>, p: nat)
      reads this
    {
      && p <= |data| && Valid() && f.errno.OK? && Fits(f.state, m, p)
      && c == Conf(f, Whole(log, m, f.state, data, p), p, Going)
    }

    /** CALLBACK_DATA_ */
    method CallbackData(k: Kind, m: Marks, data: seq<byte>, end: nat) returns (m': Marks)
      requires end <= |data| && (Get(m, k).Some? ==> Get(m, k).value <= end)
      modifies `log
      ensures log == old(log) + Calls(DataCall(k), m, data, end) && m' == Cleared(DataCall(k), m)
    {
      m' := m;
      if Get(m, k).Some? {
        log := log + [Data(k, data[Get(m, k).value..end])];
        m' := Set(m, k, None);
      }
    }

    /** The case s_body_identity; `again` is the re-execution of the byte. */
    method SwallowIdentity(data: seq<byte>, p: nat, m: Marks, ghost c: Conf) returns (q: nat, m': Marks, again: bool)
      requires f.state.BodyIdentity? && p < |data| && Agrees(c, m, data, p)
      modifies `f, `log
      ensures p <= q < |data|
      ensures !again ==> Agrees(Feed(hc, c, data[p..q + 1]), m', data, q + 1)
      ensures again ==> && Valid() && f.errno.OK? && f.state.MessageDone? && Fits(f.state, m', q)
                        && Feed(hc, c, data[p..q + 1])
                           == After(Dispatch(hc, f, Whole(log, m', f.state, data, q), data[q]), q)
    {
      hide Feed, Push, Dispatch, Live, Marked, Merged, Piece, Fits, Whole, MethodString, After, Calls;
      MarkedStates(f.state);
      m' := MarkAt(m, Some(KBody), p);
      var toRead := Min(f.contentLength, |data| - p);
      q := p + toRead - 1;
      again := toRead == f.contentLength;
      if again {
        SwallowShut(log, m, f.state, MessageDone, data, p, q + 1, m', q);
        IdentityLast(hc, c, data[p..q + 1]);
      } else {
        SwallowOpen(log, m, f.state, f.state, data, p, q + 1, m');
        IdentityRun(hc, c, data[p..q + 1]);
      }
      f := f.(contentLength := f.contentLength - toRead);
      if f.contentLength == 0 {
        f := f.(state := MessageDone);
        m' := CallbackData(KBody, m', data, q + 1);
      }
    }

    /** The case s_body_identity_eof. */
    method SwallowEof(data: seq<byte>, p: nat, m: Marks, ghost c: Conf) returns (q: nat, m': Marks)
      requires f.state.BodyIdentityEof? && p < |data| && Agrees(c, m, data, p)
      modifies `f, `log
      ensures p <= q < |data| && Agrees(Feed(hc, c, data[p..q + 1]), m', data, q + 1)
    {
      hide Feed, Push, Dispatch, Live, Marked, Merged, Piece, Fits, Whole, MethodString, Calls;
      MarkedStates(f.state);
      m' := MarkAt(m, Some(KBody), p);
      q := |data| - 1;
      SwallowOpen(log, m, f.state, f.state, data, p, q + 1, m');
      EofRun(hc, c, data[p..q + 1]);
    }

    /** The case s_chunk_data. */
    method SwallowChunk(data: seq<byte>, p: nat, m: Marks, ghost c: Conf) returns (q: nat, m': Marks)
      requires f.state.ChunkData? && p < |data| && Agrees(c, m, data, p)
      modifies `f, `log
      ensures p <= q < |data| && Agrees(Feed(hc, c, data[p..q + 1]), m', data, q + 1)
    {
      hide Feed, Push, Dispatch, Live, Marked, Merged, Piece, Fits, Whole, MethodString, Calls;
      MarkedStates(f.state);
      m' := MarkAt(m, Some(KBody), p);
      var toRead := Min(f.contentLength, |data| - p);
      q := p + toRead - 1;
      var next := if toRead < f.contentLength then f.state else ChunkDataAlmostDone;
      SwallowOpen(log, m, f.state, next, data, p, q + 1, m');
      ChunkRun(hc, c, data[p..q + 1]);
      f := f.(contentLength := f.contentLength - toRead);
      if f.contentLength == 0 {
        f := f.(state := ChunkDataAlmostDone);
      }
    }

    /** One pass through the switch at the byte at `q`; `lost` is what a failure leaves undelivered. */
    method Pass(data: seq<byte>, q: nat, m: Marks, ch: byte) returns (m': Marks, go: Go, ghost lost: HttpLog)
      requires q < |data| && Valid() && f.errno.OK? && Fits(f.state, m, q) && !Swallows(f.state)
      requires ch == data[q] || f.state.MessageDone?
      modifies `f, `log
      ensures Valid() && (f.errno.OK? <==> !go.Stop?)
      ensures var was := Dispatch(hc, old(f), old(Whole(log, m, f.state, data, q)), data[q]);
              match go
              case Next => Fits(f.state, m', q + 1) && was == Byte(f, Whole(log, m', f.state, data, q + 1), Next)
              case Exit => was == Byte(f, Merged(log), Exit)
              case Stop => |lost| <= 1 && was == Byte(f, PushAll(Merged(log), lost), Stop)
              case Again => && !Swallows(f.state) && Rank(f.state) < Rank(old(f.state)) && Fits(f.state, m', q)
                            && was == Dispatch(hc, f, Whole(log, m', f.state, data, q), data[q])
    {
      hide Push, Live, Marked, Merged, Piece, Fits, MethodString, Switch, MarkLaw, Dispatch, Heard;
      MessageDoneIgnores(hc, f, ch, data[q]);
      SwitchWellFormed(hc, f, ch);
      SwitchMarkLaw(hc, f, ch);
      DispatchSwitch(hc, f, Whole(log, m, f.state, data, q), data[q]);
      var a := Switch(hc, f, ch);
      lost := Pending(m, f.state, data, q);
      m' := MarkAt(m, a.mark, q);
      if a.go.Stop? {
        PassFails(log, m, f.state, a, data, q);
        FailedCalls(a, m, m', data, q);
      } else {
        PassHeard(log, m, f.state, a, data, q, m', Cleared(a.call, m'));
      }
      f := a.f;
      ghost var marks, before := m', log;
      if a.call.NoteCall? {
        log := log + [Notice(a.call.note)];
      } else if a.call.DataCall? {
        m' := CallbackData(a.call.kind, m', data, q);
      }
      assert log == before + Calls(a.call, marks, data, q);
      go := a.go;
    }

    /** One round of the loop over the buffer: the byte at `p` and its re-executions, or a run of body bytes. */
    method Round(data: seq<byte>, p: nat, m: Marks, ghost c: Conf)
      returns (q: nat, m': Marks, run: Run, ghost lost: HttpLog)
      requires p < |data| && Agrees(c, m, data, p)
      modifies `f, `log
      ensures p <= q < |data| && Valid()
      ensures f.errno.OK? <==> !run.Failed?
      ensures run.Going? ==> Agrees(Feed(hc, c, data[p..q + 1]), m', data, q + 1)
      ensures run.Exited? ==> Feed(hc, c, data[p..q + 1]) == Conf(f, Merged(log), q + 1, Exited)
      ensures run.Failed? ==> |lost| <= 1
                              && Feed(hc, c, data[p..q + 1]) == Conf(f, PushAll(Merged(log), lost), q, Failed)
    {
      hide Feed, Push, PushAll, Live, Marked, Merged, Piece, Fits, MethodString, Dispatch, Whole;
      var ch := data[p];
      q, m', run, lost := p, m, Going, [];
      assert data[p..p + 1] == [ch];
      FeedOne(hc, c, ch);
      WholePending(log, m, f.state, data, p);
      if CountsBytes(f.state) {
        f := f.(nread := f.nread + 1);
        if f.nread > MAX_HEADER_SIZE {
          f := f.(errno := HeaderOverflow);
          run, lost := Failed, Pending(m, f.state, data, p);
          return;
        }
      }
      var go := Go.Again;
      while go.Again?
        invariant p <= q < |data| && Valid() && run.Going?
        invariant f.errno.OK? <==> !go.Stop?
        invariant go.Again? ==> && Fits(f.state, m', q) && (ch == data[q] || f.state.MessageDone?)
                                && (Swallows(f.state) ==> q == p && Agrees(c, m', data, p))
                                && Feed(hc, c, data[p..q + 1])
                                   == After(Dispatch(hc, f, Whole(log, m', f.state, data, q), data[q]), q)
        invariant go.Next? ==> Agrees(Feed(hc, c, data[p..q + 1]), m', data, q + 1)
        invariant go.Exit? ==> Feed(hc, c, data[p..q + 1]) == Conf(f, Merged(log), q + 1, Exited)
        invariant go.Stop? ==> |lost| <= 1
                               && Feed(hc, c, data[p..q + 1]) == Conf(f, PushAll(Merged(log), lost), q, Failed)
        decreases go.Again?, Rank(f.state)
      {
        if f.state.BodyIdentity? {
          var again;
          q, m', again := SwallowIdentity(data, p, m', c);
          if !again {
            go := Next;
          }
        } else if f.state.BodyIdentityEof? {
          q, m' := SwallowEof(data, p, m', c);
          go := Next;
        } else if f.state.ChunkData? {
          q, m' := SwallowChunk(data, p, m', c);
          go := Next;
        } else {
          m', go, lost := Pass(data, q, m', ch);
        }
      }
      run := if go.Next? then Going else if go.Stop? then Failed else Exited;
    }

    /** The flush at the end of a buffer. */
    method Flush(data: seq<byte>, m: Marks, ghost c: Conf)
      requires Agrees(c, m, data, |data|) && data != []
      modifies `log
      ensures c == Conf(f, Merged(log), |data|, Going)
    {
      hide Push, PushAll, Live, Marked, Merged, Fits, MethodString, Valid, Whole, Pending;
      FlushHeard(log, m, f.state, data);
      FlushInTurn(log, m, data);
      var m1 := CallbackData(KField, m, data, |data|);
      var m2 := CallbackData(KValue, m1, data, |data|);
      var m3 := CallbackData(KUrl, m2, data, |data|);
      var m4 := CallbackData(KBody, m3, data, |data|);
    }

    /**
      http_parser_execute.  `lost` is the piece of data, if any, that was pending when the parse failed:
      it is the only difference between the callbacks made and those of the byte machine.
     */
    method Execute(data: seq<byte>) returns (used: nat, ghost lost: HttpLog)
      requires Valid()
      modifies `f, `log
      ensures Valid()
      ensures !old(f.errno).OK? ==> used == 0 && f == old(f) && log == old(log)
      ensures old(f.errno).OK? && data == [] ==>
                match old(f.state)
                case BodyIdentityEof => used == 0 && f == old(f) && log == old(log) + [Notice(MessageComplete)]
                case _ =>
                  && log == old(log)
                  && if old(f.state).Dead? || old(f.state).StartReqOrRes? || old(f.state).StartRes?
                     || old(f.state).StartReq?
                     then used == 0 && f == old(f)
                     else used == 1 && f == old(f).(errno := InvalidEofState)
      ensures old(f.errno).OK? && data != [] ==>
                var d := Feed(hc, old(Now()), data);
                && f == d.f && used == d.used <= |data|
                && (f.errno.OK? <==> !d.run.Failed?)
                && d.log == PushAll(Merged(log), lost) && |lost| <= 1
                && (f.errno.OK? ==> lost == [])
    {
      hide Feed, Push, Live, Marked, Merged, Fits, MethodString, Dispatch, OnByte;
      used, lost := 0, [];
      if !f.errno.OK? {
        return;
      }
      if data == [] {
        if f.state.BodyIdentityEof? {
          log := log + [Notice(MessageComplete)];
        } else if !(f.state.Dead? || f.state.StartReqOrRes? || f.state.StartRes? || f.state.StartReq?) {
          f := f.(errno := InvalidEofState);
          used := 1;
        }
        return;
      }
      ghost var start, c := Now(), Now();
      FeedUsed(hc, start, data);
      var m := Rebuilt(f.state);
      RebuiltAgrees(log, f.state, data);
      assert data[..0] == [];
      FeedNothing(hc, start);
      var p := 0;
      while p < |data|
        invariant p <= |data| && c == Feed(hc, start, data[..p]) && Agrees(c, m, data, p)
      {
        ghost var done := data[..p];
        var q, m', run;
        q, m', run, lost := Round(data, p, m, c);
        FeedConcat(hc, start, done, data[p..q + 1]);
        assert done + data[p..q + 1] == data[..q + 1];
        c := Feed(hc, c, data[p..q + 1]);
        if !run.Going? {
          used := if run.Failed? then q else q + 1;
          FeedConcat(hc, start, data[..q + 1], data[q + 1..]);
          FeedStopped(hc, c, data[q + 1..]);
          assert data[..q + 1] + data[q + 1..] == data;
          if run.Exited? {
            lost := [];
          }
          return;
        }
        m := m';
        p := q + 1;
      }
      assert data[..p] == data;
      Flush(data, m, c);
      used, lost := |data|, [];
    }
  }

  // ---- fragmentation ---------------------------------------------------------------

  /** What the caller of one parser sees of the machine `d`, after the log `log` and the pieces `lost`. */
  ghost predicate Sees(parser: HttpParser, d: Conf, used: nat, lost: HttpLog)
    reads parser
  {
    && parser.f == d.f && used == d.used
    && (parser.f.errno.OK? <==> !d.run.Failed?)
    && d.log == PushAll(Merged(parser.log), lost) && |lost| <= 1
    && (parser.f.errno.OK? ==> lost == [])
  }

  /**
    Buffers handed over one after the other, until one is refused or the machine leaves HTTP, which shows
    in bytes not consumed or in `upgrade` having been set.  Fields, bytes consumed and callbacks depend only
    on the concatenation of the buffers.  An `upgrade` that is set from the start hides the exit.
   */
  method ExecuteAll(parser: HttpParser, parts: seq<seq<byte>>) returns (used: nat, ghost lost: HttpLog)
    requires parser.Valid() && parser.f.errno.OK? && [] !in parts
    modifies parser
    ensures parser.Valid()
    ensures var d := Feed(parser.hc, old(parser.Now()), Flatten(parts));
            !old(parser.f.upgrade) || !d.run.Exited? ==> Sees(parser, d, used, lost)
  {
    hide Feed, PushAll, Merged, WellFormed, OnByte;
    ghost var hc, start := parser.hc, parser.Now();
    ghost var all, c, done := Feed(hc, start, Flatten(parts)), start, [];
    ghost var shows := !start.f.upgrade || !all.run.Exited?;
    var i, open := 0, true;
    used, lost := 0, [];
    FeedNothing(hc, start);
    PushAllNothing(start.log);
    assert parts[..0] == [] && parts[0..] == parts;
    while i < |parts| && open
      invariant i <= |parts| && parser.Valid() && parser.hc == hc && done + Flatten(parts[i..]) == Flatten(parts)
      invariant c == Feed(hc, start, done)
      invariant shows ==> Sees(parser, c, used, lost) && (open <==> c.run.Going?)
      invariant shows && !start.f.upgrade && open ==> !c.f.upgrade
    {
      ghost var now, rest := parser.Now(), Flatten(parts[i + 1..]);
      var was := parser.f.upgrade;
      PushAllNothing(now.log);
      var n;
      n, lost := parser.Execute(parts[i]);
      used := used + n;
      open := parser.f.errno.OK? && n == |parts[i]| && (was || !parser.f.upgrade);
      assert parts[i..] == [parts[i]] + parts[i + 1..];
      if shows {
        Onwards(hc, start, done, parts[i], rest, now);
      }
      assert done + parts[i] + rest == Flatten(parts);
      done, c := done + parts[i], Feed(hc, c, parts[i]);
      FeedConcat(hc, start, done[..|done| - |parts[i]|], parts[i]);
      i := i + 1;
    }
    FeedConcat(hc, start, done, Flatten(parts[i..]));
    if i == |parts| {
      assert done == Flatten(parts);
    } else if shows {
      FeedStopped(hc, c, Flatten(parts[i..]));
    }
  }

  /** One more buffer: the call `now` runs as the stream does, and what comes after a stop is not looked at. */
  lemma Onwards(hc: Fields -> int, start: Conf, done: seq<byte>, part: seq<byte>, rest: seq<byte>, now: Conf)
    requires start.run.Going? && now.run.Going? && part != []
    requires var c := Feed(hc, start, done); c.run.Going? && now.f == c.f && now.log == c.log && now.used == 0
    ensures var c := Feed(hc, start, done);
            var d, e := Feed(hc, c, part), Feed(hc, now, part);
            && d == e.(used := c.used + e.used) && e.used <= |part| && (d.run.Going? ==> e.used == |part|)
            && (!d.run.Going? ==> Feed(hc, start, done + part + rest) == d)
            && (!c.f.upgrade && !d.run.Failed? ==> (d.run.Exited? <==> d.f.upgrade))
  {
    hide Feed, OnByte;
    var c := Feed(hc, start, done);
    FeedShift(hc, c, now, part);
    FeedUsed(hc, now, part);
    FeedConcat(hc, start, done, part);
    FeedConcat(hc, start, done + part, rest);
    if !c.f.upgrade {
      FeedClear(hc, c, part);
    }
    if !Feed(hc, c, part).run.Going? {
      FeedStopped(hc, Feed(hc, c, part), rest);
    }
  }

  /**
    Fragmentation independence: cutting an input anywhere gives the same fields and the same number of
    bytes consumed, and, when nothing fails, the same callbacks up to the merging of adjacent pieces.
    That holds of inputs that leave HTTP as well, if `upgrade` was clear, so that the caller can see it.
   */
  method CutAnywhere(whole: HttpParser, cut: HttpParser, parts: seq<seq<byte>>) returns (n: nat, m: nat)
    requires whole != cut && whole.hc == cut.hc && whole.f == cut.f && Merged(whole.log) == Merged(cut.log)
    requires whole.Valid() && whole.f.errno.OK? && parts != [] && [] !in parts
    requires !whole.f.upgrade || !Feed(whole.hc, whole.Now(), Flatten(parts)).run.Exited?
    modifies whole, cut
    ensures whole.f == cut.f && n == m
    ensures whole.f.errno.OK? ==> Merged(whole.log) == Merged(cut.log)
  {
    hide Feed, PushAll, Merged, WellFormed, OnByte;
    assert Flatten(parts) != [];
    ghost var lost1, lost2;
    n, lost1 := whole.Execute(Flatten(parts));
    m, lost2 := ExecuteAll(cut, parts);
    PushAllNothing(Merged(whole.log));
    PushAllNothing(Merged(cut.log));
  }
}
