/**
  The streaming multipart parser of muparser.c: a byte machine that says what one call does, the
  buffered parser with its mark and its look-behind buffer, and the proof that they agree.
 */
module Multipart {
  import opened Common
  import opened Events

  const LF: byte := 10
  const CR: byte := 13
  const SP: byte := 32
  const HYPHEN: byte := 45
  const COLON: byte := 58

  datatype State =
    | Start | StartBoundary
    | HeaderFieldStart | HeaderField | HeadersAlmostDone | HeaderValueStart | HeaderValue | HeaderValueAlmostDone
    | PartDataStart | PartData | PartDataAlmostBoundary | PartDataBoundary
    | PartDataAlmostEnd | PartDataEnd | PartDataFinalHyphen | End

  datatype Kind = KField | KValue | KData

  datatype Note = PartDataBegin | HeadersComplete | PartDataEnded | BodyEnd

  type PartEvent = Event<Kind, Note>
  type PartLog = Log<Kind, Note>

  /** tolower(c) in 'a'..'z' */
  predicate IsLetter(b: byte) { 'a' as int <= b <= 'z' as int || 'A' as int <= b <= 'Z' as int }

  function Emit(k: Kind, s: seq<byte>): PartEvent { Data(k, s) }

  /**
    The parser between two bytes: `pend` is the part of a header name or value that the call has passed
    and not yet delivered, `log` the callbacks with adjacent data merged, `used` the bytes the call has
    consumed, and `ok` is false once the call has returned early.
   */
  datatype Conf = Conf(state: State, index: nat, pend: seq<byte>, log: PartLog, used: nat, ok: bool)

  /** The bytes of a delimiter of which `index` boundary bytes have matched. */
  function Held(b: seq<byte>, index: nat): seq<byte>
    requires index <= |b|
  {
    [CR, LF] + b[..index]
  }

  function Took(c: Conf, s: State): Conf { c.(state := s, used := c.used + 1) }

  function Stop(c: Conf): Conf { c.(ok := false) }

  function Heard(c: Conf, e: PartEvent): Conf { c.(log := Push(c.log, e)) }

  // ---- the cases of the switch, one byte each ----------------------------------------

  function BoundaryByte(b: seq<byte>, c: Conf, ch: byte): Conf {
    if c.index == |b| then if ch != CR then Stop(c) else Took(c.(index := c.index + 1), StartBoundary)
    else if c.index == |b| + 1 then
      if ch != LF then Stop(c) else Took(Heard(c.(index := 0), Notice(PartDataBegin)), HeaderFieldStart)
    else if c.index > |b| || ch != b[c.index] then Stop(c)
    else Took(c.(index := c.index + 1), StartBoundary)
  }

  function FieldByte(c: Conf, ch: byte): Conf {
    if ch == CR then Took(c.(pend := []), HeadersAlmostDone)
    else if ch == HYPHEN then Took(c.(pend := c.pend + [ch]), HeaderField)
    else if ch == COLON then Took(Heard(c, Emit(KField, c.pend)).(pend := []), HeaderValueStart)
    else if !IsLetter(ch) then Stop(c)
    else Took(c.(pend := c.pend + [ch]), HeaderField)
  }

  function ValueByte(c: Conf, ch: byte): Conf {
    if ch == CR then Took(Heard(c, Emit(KValue, c.pend)), HeaderValueAlmostDone)
    else Took(c.(pend := c.pend + [ch]), HeaderValue)
  }

  function DataByte(c: Conf, ch: byte): Conf {
    if ch == CR then Took(Heard(c, Emit(KData, [])), PartDataAlmostBoundary)
    else Took(Heard(c, Emit(KData, [ch])), PartData)
  }

  function DelimiterByte(b: seq<byte>, c: Conf, ch: byte): Conf {
    if c.index >= |b| || b[c.index] != ch then
      DataByte(Heard(c, Emit(KData, Held(b, Min(c.index, |b|)))).(state := PartData), ch)
    else if c.index + 1 == |b| then
      Took(Heard(c.(index := c.index + 1), Notice(PartDataEnded)), PartDataAlmostEnd)
    else Took(c.(index := c.index + 1), PartDataBoundary)
  }

  function OnByte(b: seq<byte>, c: Conf, ch: byte): Conf {
    var s := c.state;
    if !c.ok then c
    else if s.Start? then BoundaryByte(b, c.(index := 0, state := StartBoundary), ch)
    else if s.StartBoundary? then BoundaryByte(b, c, ch)
    else if s.HeaderFieldStart? then FieldByte(c.(state := HeaderField, pend := []), ch)
    else if s.HeaderField? then FieldByte(c, ch)
    else if s.HeadersAlmostDone? then if ch != LF then Stop(c) else Took(c, PartDataStart)
    else if s.HeaderValueStart? then
      if ch == SP then Took(c, HeaderValueStart) else ValueByte(c.(state := HeaderValue, pend := []), ch)
    else if s.HeaderValue? then ValueByte(c, ch)
    else if s.HeaderValueAlmostDone? then if ch != LF then Stop(c) else Took(c.(pend := []), HeaderFieldStart)
    else if s.PartDataStart? then DataByte(Heard(c, Notice(HeadersComplete)).(state := PartData), ch)
    else if s.PartData? then DataByte(c, ch)
    else if s.PartDataAlmostBoundary? then
      if ch == LF then Took(c.(index := 0), PartDataBoundary)
      else DataByte(Heard(c, Emit(KData, [CR])).(state := PartData), ch)
    else if s.PartDataBoundary? then DelimiterByte(b, c, ch)
    else if s.PartDataAlmostEnd? then
      if ch == HYPHEN then Took(c, PartDataFinalHyphen) else if ch == CR then Took(c, PartDataEnd) else Stop(c)
    else if s.PartDataFinalHyphen? then
      if ch == HYPHEN then Took(Heard(c, Notice(BodyEnd)), End) else Stop(c)
    else if s.PartDataEnd? then
      if ch == LF then Took(Heard(c, Notice(PartDataBegin)), HeaderFieldStart) else Stop(c)
    else Took(c, End)
  }

  function Feed(b: seq<byte>, c: Conf, s: seq<byte>): Conf
    decreases |s|
  {
    if s == [] then c else Feed(b, OnByte(b, c, s[0]), s[1..])
  }

  // ---- one call --------------------------------------------------------------------

  /** A call forgets where the last one was in a name or value. */
  function Enter(c: Conf): Conf { c.(pend := [], used := 0, ok := true) }

  /**
    What the last byte of a buffer, `last`, adds: the name or value so far is delivered.  After a hyphen
    inside a name it is not, and the CR after a value delivers the value a second time, with the CR.
   */
  function Leave(c: Conf, last: byte): Conf {
    if !c.ok then c
    else if c.state.HeaderField? then if last == HYPHEN then c else Heard(c, Emit(KField, c.pend))
    else if c.state.HeaderValue? then Heard(c, Emit(KValue, c.pend))
    else if c.state.HeaderValueAlmostDone? then Heard(c, Emit(KValue, c.pend + [CR]))
    else c
  }

  /** multipart_parser_execute on a buffer. */
  function Call(b: seq<byte>, c: Conf, buf: seq<byte>): Conf {
    if buf == [] then Enter(c) else Leave(Feed(b, Enter(c), buf), buf[|buf| - 1])
  }

  lemma {:induction false} FeedConcat(b: seq<byte>, c: Conf, x: seq<byte>, y: seq<byte>)
    ensures Feed(b, c, x + y) == Feed(b, Feed(b, c, x), y)
    decreases |x|
  {
    hide OnByte;
    if x == [] {
      assert x + y == y;
    } else {
      assert (x + y)[1..] == x[1..] + y;
      FeedConcat(b, OnByte(b, c, x[0]), x[1..], y);
    }
  }

  lemma FeedOne(b: seq<byte>, c: Conf, ch: byte)
    ensures Feed(b, c, [ch]) == OnByte(b, c, ch)
  {
    hide OnByte;
    assert Feed(b, OnByte(b, c, ch), [ch][1..]) == OnByte(b, c, ch);
  }

  lemma FeedCons(b: seq<byte>, c: Conf, ch: byte, s: seq<byte>)
    ensures Feed(b, c, [ch] + s) == Feed(b, OnByte(b, c, ch), s)
  {
    FeedConcat(b, c, [ch], s);
    FeedOne(b, c, ch);
  }

  lemma {:induction false} FeedStopped(b: seq<byte>, c: Conf, s: seq<byte>)
    requires !c.ok
    ensures Feed(b, c, s) == c
    decreases |s|
  {
    if s != [] {
      FeedStopped(b, c, s[1..]);
    }
  }

  // ---- the buffered parser ---------------------------------------------------------

  /** Part data between the mark and the current byte, not delivered yet. */
  function Pending(log: PartLog, buf: seq<byte>, mark: nat, i: nat): PartLog
    requires mark <= i <= |buf|
  {
    if mark == i then log else Push(log, Emit(KData, buf[mark..i]))
  }

  lemma PendingGrows(log: PartLog, buf: seq<byte>, mark: nat, i: nat)
    requires mark <= i < |buf|
    ensures Pending(log, buf, mark, i + 1) == Push(Pending(log, buf, mark, i), Emit(KData, [buf[i]]))
    ensures Push(log, Emit(KData, buf[mark..i])) == Push(Pending(log, buf, mark, i), Emit(KData, []))
  {
    hide Push;
    assert buf[mark..i + 1] == buf[mark..i] + [buf[i]];
    if mark < i {
      PushTwice(log, KData, buf[mark..i], [buf[i]]);
      PushTwice(log, KData, buf[mark..i], []);
      assert buf[mark..i] + [] == buf[mark..i];
    } else {
      assert buf[mark..i] == [] && buf[mark..i + 1] == [buf[i]];
    }
  }

  /** What the look-behind buffer holds in the states that use it. */
  predicate LooksBehind(b: seq<byte>, s: State, index: nat, held: seq<byte>) {
    && (s.PartDataAlmostBoundary? ==> |held| > 0 && held[0] == CR)
    && (s.PartDataBoundary? ==> index < |b| && |held| >= index + 2 && held[..index + 2] == Held(b, index))
    && (s.StartBoundary? ==> index <= |b| + 1)
  }

  class MultipartParser {
    const boundary: seq<byte>
    var index: nat
    var state: State
    const lookbehind: array<byte>
    ghost var log: PartLog

    /** multipart_parser_init */
    constructor (boundary: seq<byte>)
      requires boundary != []
      ensures Valid() && fresh(lookbehind) && this.boundary == boundary
      ensures state == Start && index == 0 && log == []
    {
      this.boundary := boundary;
      lookbehind := new byte[|boundary| + 9](_ => 0);
      index := 0;
      state := Start;
      log := [];
    }

    ghost predicate Valid()
      reads this, lookbehind
    {
      && boundary != [] && lookbehind.Length == |boundary| + 9
      && LooksBehind(boundary, state, index, lookbehind[..])
    }

    ghost function Now(): Conf
      reads this
    {
      Conf(state, index, [], Merged(log), 0, true)
    }

    /** The buffered parser before byte `i` of `buf`, with its mark, has come as far as `now`. */
    ghost predicate At(now: Conf, buf: seq<byte>, i: nat, mark: nat)
      reads this
    {
      && mark <= i <= |buf| && now.ok && now.used == i && now.state == state && now.index == index
      && (state.HeaderField? || state.HeaderValue? ==> now.pend == buf[mark..i])
      && now.log == if state.PartData? then Pending(Merged(log), buf, mark, i) else Merged(log)
    }

    /** The buffered parser after the last byte of `buf`. */
    ghost predicate Done(now: Conf, buf: seq<byte>)
      reads this
    {
      && buf != [] && now.ok && now.used == |buf| && now.state == state && now.index == index
      && Leave(now, buf[|buf| - 1]).log == Merged(log)
    }

    /** The buffered parser when it returns early, at byte `i`. */
    ghost predicate Stopped(now: Conf, i: nat)
      reads this
    {
      !now.ok && now.used == i && now.state == state && now.index == index && now.log == Merged(log)
    }

    /** A callback. */
    ghost method Note(e: PartEvent)
      modifies `log
      ensures log == old(log) + [e] && Merged(log) == Push(old(Merged(log)), e)
    {
      MergedSnoc(log, e);
      log := log + [e];
    }

    /** The cases s_start and s_start_boundary. */
    method StepStart(buf: seq<byte>, i: nat, mark: nat, ghost now: Conf) returns (stop: bool)
      requires Valid() && i < |buf| && At(now, buf, i, mark) && (state.Start? || state.StartBoundary?)
      modifies `index, `state, `log
      ensures Valid()
      ensures var d := OnByte(boundary, now, buf[i]);
              if stop then Stopped(d, i)
              else if i + 1 < |buf| then At(d, buf, i + 1, mark)
              else Done(d, buf)
    {
      hide Push, Merged;
      var c := buf[i];
      stop := false;
      if state.Start? {
        index := 0;
        state := StartBoundary;
      }
      if index == |boundary| {
        if c != CR {
          return true;
        }
        index := index + 1;
      } else if index == |boundary| + 1 {
        if c != LF {
          return true;
        }
        index := 0;
        Note(Notice(PartDataBegin));
        state := HeaderFieldStart;
      } else {
        if c != boundary[index] {
          return true;
        }
        index := index + 1;
      }
    }

    /** The cases s_header_field_start and s_header_field. */
    method StepField(buf: seq<byte>, i: nat, mark: nat, ghost now: Conf) returns (mark': nat, stop: bool)
      requires Valid() && i < |buf| && At(now, buf, i, mark) && (state.HeaderFieldStart? || state.HeaderField?)
      modifies `state, `log
      ensures Valid()
      ensures var d := OnByte(boundary, now, buf[i]);
              if stop then Stopped(d, i)
              else if i + 1 < |buf| then At(d, buf, i + 1, mark')
              else Done(d, buf)
    {
      hide Push, Merged, IsLetter;
      var c := buf[i];
      var isLast := i == |buf| - 1;
      mark', stop := mark, false;
      if state.HeaderFieldStart? {
        mark' := i;
        state := HeaderField;
      }
      assert buf[mark'..i + 1] == buf[mark'..i] + [c];
      if c == CR {
        state := HeadersAlmostDone;
      } else if c == HYPHEN {
      } else if c == COLON {
        Note(Emit(KField, buf[mark'..i]));
        state := HeaderValueStart;
      } else if !IsLetter(c) {
        stop := true;
      } else if isLast {
        Note(Emit(KField, buf[mark'..i + 1]));
      }
    }

    /** The cases from s_headers_almost_done to s_header_value_almost_done. */
    method StepValue(buf: seq<byte>, i: nat, mark: nat, ghost now: Conf) returns (mark': nat, stop: bool)
      requires Valid() && i < |buf| && At(now, buf, i, mark)
      requires state.HeadersAlmostDone? || state.HeaderValueStart? || state.HeaderValue? || state.HeaderValueAlmostDone?
      modifies `state, `log
      ensures Valid()
      ensures var d := OnByte(boundary, now, buf[i]);
              if stop then Stopped(d, i)
              else if i + 1 < |buf| then At(d, buf, i + 1, mark')
              else Done(d, buf)
    {
      hide Push, Merged;
      var c := buf[i];
      var isLast := i == |buf| - 1;
      mark', stop := mark, false;
      if state.HeadersAlmostDone? {
        if c != LF {
          return mark, true;
        }
        state := PartDataStart;
      } else if state.HeaderValueAlmostDone? {
        if c != LF {
          return mark, true;
        }
        state := HeaderFieldStart;
      } else if state.HeaderValueStart? && c == SP {
      } else {
        if state.HeaderValueStart? {
          mark' := i;
          state := HeaderValue;
        }
        assert buf[mark'..i + 1] == buf[mark'..i] + [c];
        if c == CR {
          Note(Emit(KValue, buf[mark'..i]));
          state := HeaderValueAlmostDone;
        }
        if isLast {
          Note(Emit(KValue, buf[mark'..i + 1]));
        }
      }
    }

    /** The cases s_part_data_start and s_part_data. */
    method StepData(buf: seq<byte>, i: nat, mark: nat, ghost now: Conf) returns (mark': nat)
      requires Valid() && i < |buf| && At(now, buf, i, mark) && (state.PartDataStart? || state.PartData?)
      modifies `state, `log, lookbehind
      ensures Valid()
      ensures var d := OnByte(boundary, now, buf[i]);
              if i + 1 < |buf| then At(d, buf, i + 1, mark') else Done(d, buf)
    {
      hide Push, Merged;
      var c := buf[i];
      var isLast := i == |buf| - 1;
      mark' := mark;
      if state.PartDataStart? {
        Note(Notice(HeadersComplete));
        mark' := i;
        state := PartData;
      }
      PendingGrows(Merged(log), buf, mark', i);
      if c == CR {
        Note(Emit(KData, buf[mark'..i]));
        mark' := i;
        state := PartDataAlmostBoundary;
        lookbehind[0] := CR;
      } else if isLast {
        Note(Emit(KData, buf[mark'..i + 1]));
      }
    }

    /**
      The cases s_part_data_almost_boundary and s_part_data_boundary.  When the delimiter breaks off, what
      was held back is delivered and the byte is looked at again (`again`) as part data.
     */
    method StepDelimiter(buf: seq<byte>, i: nat, mark: nat, ghost now: Conf)
      returns (mark': nat, again: bool, ghost now': Conf)
      requires Valid() && i < |buf| && At(now, buf, i, mark)
      requires state.PartDataAlmostBoundary? || state.PartDataBoundary?
      modifies `index, `state, `log, lookbehind
      ensures Valid()
      ensures again ==> && state.PartData? && At(now', buf, i, mark')
                        && OnByte(boundary, now', buf[i]) == OnByte(boundary, now, buf[i])
      ensures !again ==> && now' == OnByte(boundary, now, buf[i])
                         && if i + 1 < |buf| then At(now', buf, i + 1, mark') else Done(now', buf)
    {
      hide Push, Merged;
      var c := buf[i];
      mark', again := mark, false;
      now' := OnByte(boundary, now, c);
      if state.PartDataAlmostBoundary? {
        if c == LF {
          state := PartDataBoundary;
          lookbehind[1] := LF;
          index := 0;
          assert lookbehind[..2] == Held(boundary, 0);
          return;
        }
        now' := Heard(now, Emit(KData, [CR])).(state := PartData);
        assert lookbehind[..1] == [CR];
        Note(Emit(KData, lookbehind[..1]));
      } else {
        if boundary[index] == c {
          lookbehind[2 + index] := c;
          assert lookbehind[..index + 3] == Held(boundary, index + 1);
          index := index + 1;
          if index == |boundary| {
            Note(Notice(PartDataEnded));
            state := PartDataAlmostEnd;
          }
          return;
        }
        now' := Heard(now, Emit(KData, Held(boundary, index))).(state := PartData);
        Note(Emit(KData, lookbehind[..2 + index]));
      }
      state := PartData;
      mark' := i;
      again := true;
    }

    /** The cases after a delimiter, and s_end. */
    method StepEnd(buf: seq<byte>, i: nat, mark: nat, ghost now: Conf) returns (stop: bool)
      requires Valid() && i < |buf| && At(now, buf, i, mark)
      requires state.PartDataAlmostEnd? || state.PartDataEnd? || state.PartDataFinalHyphen? || state.End?
      modifies `state, `log
      ensures Valid()
      ensures var d := OnByte(boundary, now, buf[i]);
              if stop then Stopped(d, i)
              else if i + 1 < |buf| then At(d, buf, i + 1, mark)
              else Done(d, buf)
    {
      hide Push, Merged;
      var c := buf[i];
      stop := false;
      if state.PartDataAlmostEnd? {
        if c == HYPHEN {
          state := PartDataFinalHyphen;
        } else if c == CR {
          state := PartDataEnd;
        } else {
          stop := true;
        }
      } else if state.PartDataFinalHyphen? {
        if c == HYPHEN {
          Note(Notice(BodyEnd));
          state := End;
        } else {
          stop := true;
        }
      } else if state.PartDataEnd? {
        if c == LF {
          state := HeaderFieldStart;
          Note(Notice(PartDataBegin));
        } else {
          stop := true;
        }
      }
    }

    /** multipart_parser_execute */
    method Execute(buf: seq<byte>) returns (used: nat)
      requires Valid()
      modifies `index, `state, `log, lookbehind
      ensures Valid()
      ensures var d := Call(boundary, old(Now()), buf);
              && state == d.state && index == d.index && Merged(log) == d.log
              && used == d.used <= |buf| && (d.ok <==> used == |buf|)
    {
      hide Push, Merged, OnByte, Pending;
      ghost var start := Now();
      ghost var now := start;
      var i, mark := 0, 0;
      EmptyPending(Merged(log), buf);
      assert buf[0..] == buf && buf[0..0] == [];
      while i < |buf|
        invariant i <= |buf| && Valid()
        invariant Feed(boundary, now, buf[i..]) == Feed(boundary, start, buf)
        invariant if i < |buf| then At(now, buf, i, mark)
                  else if buf == [] then now == start == Now()
                  else Done(now, buf)
        decreases |buf| - i, if state.PartData? then 0 else 1
      {
        assert buf[i..] == [buf[i]] + buf[i + 1..];
        FeedCons(boundary, now, buf[i], buf[i + 1..]);
        var stop, again := false, false;
        ghost var now' := OnByte(boundary, now, buf[i]);
        var s := state;
        if s.Start? || s.StartBoundary? {
          stop := StepStart(buf, i, mark, now);
        } else if s.HeaderFieldStart? || s.HeaderField? {
          mark, stop := StepField(buf, i, mark, now);
        } else if s.HeadersAlmostDone? || s.HeaderValueStart? || s.HeaderValue? || s.HeaderValueAlmostDone? {
          mark, stop := StepValue(buf, i, mark, now);
        } else if s.PartDataStart? || s.PartData? {
          mark := StepData(buf, i, mark, now);
        } else if s.PartDataAlmostBoundary? || s.PartDataBoundary? {
          mark, again, now' := StepDelimiter(buf, i, mark, now);
          if again {
            FeedCons(boundary, now', buf[i], buf[i + 1..]);
          }
        } else {
          stop := StepEnd(buf, i, mark, now);
        }
        if stop {
          FeedStopped(boundary, now', buf[i + 1..]);
          return i;
        }
        now := now';
        if !again {
          i := i + 1;
        }
      }
      used := |buf|;
      assert buf[i..] == [];
    }
  }

  lemma EmptyPending(log: PartLog, buf: seq<byte>)
    ensures Pending(log, buf, 0, 0) == log
  {
  }
}
