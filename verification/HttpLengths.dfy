/**
  Content-Length and chunk sizes: digit strings accumulated in 32-bit arithmetic behind an overflow
  guard.  The guard does not catch every wrap, but what comes out is the number written exactly when
  that number is below 2^32 - 1.
 */
module HttpLengths {
  import opened Common
  import opened Events
  import opened HttpTypes
  import opened HttpSwitch
  import opened HttpSpec
  import opened HttpHeaders

  /** The number that a digit string denotes; spaces, which a Content-Length may contain, do not count. */
  function Value(base: nat, s: seq<byte>): nat {
    if s == [] then 0
    else
      var init, last := s[..|s| - 1], s[|s| - 1];
      if Unhex(last) == -1 then Value(base, init) else base * Value(base, init) + Unhex(last)
  }

  /** The length that the accumulating steps leave, None after an overflow error. */
  function Accumulated(base: nat, s: seq<byte>): Option<u32>
    requires s != []
  {
    var init, last := s[..|s| - 1], s[|s| - 1];
    if Unhex(last) == -1 then if init == [] then Some(0) else Accumulated(base, init)
    else if init == [] then Some(Unhex(last))
    else
      var before := Accumulated(base, init);
      if before.None? then None else Accumulate(before.value, base, Unhex(last))
  }

  /** One step is right exactly when the number it is to yield fits; otherwise it fails or wraps. */
  lemma AccumulateExact(length: u32, base: nat, digit: nat)
    requires base >= 1
    ensures Accumulate(length, base, digit) == Some(base * length + digit) <==> base * length + digit < UINT32_MAX
    ensures Accumulate(length, base, digit).Some? ==>
              && Accumulate(length, base, digit).value == (base * length + digit) % 0x1_0000_0000
              && length <= Accumulate(length, base, digit).value != UINT32_MAX
  {
    assert base * length >= length;
  }

  /** A wrap that the overflow guard lets pass. */
  lemma GuardMissesWrap()
    ensures Accumulate(500000000, 10, 0) == Some(705032704)
  {
  }

  /** Every digit string is read right if and only if its number is below 2^32 - 1. */
  lemma {:induction false} AccumulatedExact(base: nat, s: seq<byte>)
    requires s != [] && base >= 1
    ensures Accumulated(base, s) == Some(Value(base, s)) <==> Value(base, s) < UINT32_MAX
    ensures Accumulated(base, s).Some? ==> Accumulated(base, s).value != UINT32_MAX
    decreases |s|
  {
    hide Accumulate, Unhex;
    var init, last := s[..|s| - 1], s[|s| - 1];
    if init == [] {
      assert Value(base, init) == 0;
      UnhexSmall(last);
    } else {
      AccumulatedExact(base, init);
      if Unhex(last) != -1 {
        UnhexSmall(last);
        NeverShrinks(base, Value(base, init), Unhex(last));
        if Accumulated(base, init).Some? {
          AccumulateExact(Accumulated(base, init).value, base, Unhex(last));
        }
      }
    }
  }

  lemma UnhexSmall(b: byte)
    ensures -1 <= Unhex(b) <= 15
  {
  }

  lemma NeverShrinks(base: nat, v: nat, d: nat)
    requires base >= 1
    ensures base * v + d >= v
  {
  }

  // ---- Content-Length --------------------------------------------------------------

  /** A digit, and then digits and spaces. */
  predicate DecimalValue(s: seq<byte>) { s != [] && IsNum(s[0]) && forall b <- s :: IsNum(b) || b == SP }

  /** What a Content-Length value leaves behind. */
  ghost predicate LengthRead(c: Conf, s: seq<byte>, d: Conf)
    requires s != []
  {
    match Accumulated(10, s)
    case Some(n) =>
      d == Reached(c, c.f.(state := State.HeaderValue, index := 0, contentLength := n, nread := c.f.nread + |s|),
                   Push(c.log, ValueData(s)), |s|)
    case None => d.run.Failed? && d.f.errno == InvalidContentLength
  }

  lemma LengthFirst(hc: Fields -> int, c: Conf, ch: byte)
    requires c.run.Going? && c.f.state.HeaderValueStart? && c.f.headerState.ContentLength? && Room(c.f, 1) && IsNum(ch)
    ensures LengthRead(c, [ch], OnByte(hc, c, ch))
  {
    hide Push, Dispatch, StartSwitch, RequestSwitch, BodySwitch, Lower, FieldStartArm, FieldArm, ValueArm,
      HeaderAlmostDoneArm, LwsArm, HeadersAlmostDoneArm, HeadersDoneArm;
    OnByteSwitch(hc, c, ch);
    assert [ch][..0] == [];
  }

  lemma LengthNext(hc: Fields -> int, c: Conf, ch: byte)
    requires c.run.Going? && c.f.state.HeaderValue? && c.f.headerState.ContentLength? && Room(c.f, 1)
    requires IsNum(ch) || ch == SP
    ensures var n := if ch == SP then Some(c.f.contentLength) else Accumulate(c.f.contentLength, 10, Unhex(ch));
            var d := OnByte(hc, c, ch);
            if n.None? then d.run.Failed? && d.f.errno == InvalidContentLength
            else d == Reached(c, c.f.(contentLength := n.value, nread := c.f.nread + 1),
                              Push(c.log, ValueData([ch])), 1)
  {
    hide Push, Dispatch, StartSwitch, RequestSwitch, BodySwitch, Accumulate, FieldStartArm, FieldArm, ValueStartArm,
      HeaderAlmostDoneArm, LwsArm, HeadersAlmostDoneArm, HeadersDoneArm;
    OnByteSwitch(hc, c, ch);
  }

  lemma {:induction false} LengthRun(hc: Fields -> int, c: Conf, s: seq<byte>)
    requires c.run.Going? && c.f.state.HeaderValueStart? && c.f.headerState.ContentLength?
    requires DecimalValue(s) && Room(c.f, |s|)
    ensures LengthRead(c, s, Feed(hc, c, s))
    decreases |s|
  {
    hide OnByte, Push, Accumulate;
    var init, last := s[..|s| - 1], s[|s| - 1];
    assert s == init + [last] && last in s;
    if init == [] {
      FeedOne(hc, c, last);
      LengthFirst(hc, c, last);
    } else {
      assert forall b <- init :: b in s;
      LengthRun(hc, c, init);
      var d := Feed(hc, c, init);
      if d.run.Going? {
        LengthNext(hc, d, last);
        PushSnoc(c.log, KValue, init, last);
      } else {
        FeedOne(hc, d, last);
        FeedStopped(hc, d, [last]);
      }
    }
  }

  /** A Content-Length is taken for what it says if and only if that is below 2^32 - 1. */
  lemma LengthRecognised(hc: Fields -> int, c: Conf, s: seq<byte>)
    requires c.run.Going? && c.f.state.HeaderValueStart? && c.f.headerState.ContentLength?
    requires DecimalValue(s) && Room(c.f, |s|)
    ensures var d := Feed(hc, c, s);
            d.run.Going? && d.f.contentLength == Value(10, s) <==> Value(10, s) < UINT32_MAX
    ensures Value(10, s) < UINT32_MAX ==>
              Feed(hc, c, s)
              == Reached(c, c.f.(state := State.HeaderValue, index := 0, contentLength := Value(10, s),
                                 nread := c.f.nread + |s|),
                         Push(c.log, ValueData(s)), |s|)
  {
    hide Feed, Push, Accumulated, Value;
    LengthRun(hc, c, s);
    AccumulatedExact(10, s);
  }

  /** A five and `k` zeros. */
  function Billions(k: nat): (s: seq<byte>)
    ensures |s| == k + 1
  {
    if k == 0 then [53] else Billions(k - 1) + [48]
  }

  function Power10(k: nat): nat { if k == 0 then 1 else 10 * Power10(k - 1) }

  lemma {:induction false} BillionsValue(k: nat)
    ensures Value(10, Billions(k)) == 5 * Power10(k)
    ensures Billions(k)[0] == 53 && forall b <- Billions(k) :: b == 53 || b == 48
    decreases k
  {
    if k == 0 {
      assert [53 as byte][..0] == [];
    } else {
      BillionsValue(k - 1);
      assert (Billions(k - 1) + [48])[..k] == Billions(k - 1);
    }
  }

  /** A wrap on the machine: Content-Length 5000000000 is accepted, and read as 705032704. */
  lemma LengthWraps(hc: Fields -> int, c: Conf)
    requires c.run.Going? && c.f.state.HeaderValueStart? && c.f.headerState.ContentLength? && Room(c.f, 10)
    ensures Value(10, Billions(9)) == 5000000000
    ensures var d := Feed(hc, c, Billions(9)); d.run.Going? && d.f.contentLength == 705032704
  {
    hide Feed, Value, Accumulate, Unhex, Billions;
    BillionsValue(8);
    BillionsValue(9);
    assert Power10(8) == 100000000 && Power10(9) == 1000000000;
    AccumulatedExact(10, Billions(8));
    BillionsWrap();
    LengthRun(hc, c, Billions(9));
  }

  lemma BillionsWrap()
    requires Accumulated(10, Billions(8)) == Some(500000000)
    ensures Accumulated(10, Billions(9)) == Some(705032704)
  {
    hide Accumulate, Accumulated;
    var s := Billions(8) + [48];
    assert Billions(9) == s && s[..9] == Billions(8) && s[9] == 48;
    assert Unhex(48) == 0;
    GuardMissesWrap();
    AccumulatedNext(Billions(8), 48);
  }

  lemma AccumulatedNext(s: seq<byte>, ch: byte)
    requires s != [] && Accumulated(10, s).Some? && Unhex(ch) != -1
    ensures Accumulated(10, s + [ch]) == Accumulate(Accumulated(10, s).value, 10, Unhex(ch))
  {
    hide Accumulate, Unhex;
    assert (s + [ch])[..|s|] == s;
  }

  // ---- chunk sizes -----------------------------------------------------------------

  /** A hexadecimal digit. */
  predicate HexDigit(b: byte) {
    IsNum(b) || 'a' as int <= b <= 'f' as int || 'A' as int <= b <= 'F' as int
  }

  /** What may follow the digits of a chunk size. */
  predicate EndsSize(b: byte) { b == CR || b == ';' as int || b == SP }

  /** Bytes that the machine takes for the digits of a chunk size; those of 128 and more count as the digit 0. */
  predicate ChunkDigits(s: seq<byte>) { s != [] && forall b <- s :: Unhex(b) != -1 }

  /** In a chunk size a byte of 128 or more does what the digit 0 does. */
  lemma HighBytesAreZeros(hc: Fields -> int, c: Conf, b: byte)
    requires c.run.Going? && Room(c.f, 1) && (c.f.state.ChunkSizeStart? || c.f.state.ChunkSize?) && b >= 128
    ensures OnByte(hc, c, b) == OnByte(hc, c, 48)
    ensures ChunkDigits([b]) && Value(16, [b]) == Value(16, [48]) == 0
  {
    hide Push, Dispatch, StartSwitch, RequestSwitch, HeaderSwitch, Accumulate, ChunkParametersArm,
      ChunkSizeAlmostDoneArm, ChunkDataAlmostDoneArm, ChunkDataDoneArm, MessageDoneArm, OnByte;
    OnByteSwitch(hc, c, b);
    OnByteSwitch(hc, c, 48);
    assert [b][..0] == [] && [48 as byte][..0] == [];
  }

  ghost predicate SizeRead(c: Conf, s: seq<byte>, d: Conf)
    requires s != []
  {
    match Accumulated(16, s)
    case Some(n) =>
      d == Reached(c, c.f.(state := ChunkSize, contentLength := n, nread := c.f.nread + |s|), c.log, |s|)
    case None => d.run.Failed? && d.f.errno == InvalidContentLength
  }

  lemma SizeFirst(hc: Fields -> int, c: Conf, ch: byte)
    requires c.run.Going? && c.f.state.ChunkSizeStart? && Room(c.f, 1) && Unhex(ch) != -1
    ensures SizeRead(c, [ch], OnByte(hc, c, ch))
  {
    hide Push, Dispatch, StartSwitch, RequestSwitch, HeaderSwitch, ChunkSizeArm, ChunkParametersArm,
      ChunkSizeAlmostDoneArm, ChunkDataAlmostDoneArm, ChunkDataDoneArm, MessageDoneArm;
    OnByteSwitch(hc, c, ch);
    assert [ch][..0] == [];
  }

  lemma SizeNext(hc: Fields -> int, c: Conf, ch: byte)
    requires c.run.Going? && c.f.state.ChunkSize? && Room(c.f, 1) && Unhex(ch) != -1
    ensures var n := Accumulate(c.f.contentLength, 16, Unhex(ch));
            var d := OnByte(hc, c, ch);
            if n.None? then d.run.Failed? && d.f.errno == InvalidContentLength
            else d == Reached(c, c.f.(contentLength := n.value, nread := c.f.nread + 1), c.log, 1)
  {
    hide Push, Dispatch, StartSwitch, RequestSwitch, HeaderSwitch, Accumulate, ChunkSizeStartArm, ChunkParametersArm,
      ChunkSizeAlmostDoneArm, ChunkDataAlmostDoneArm, ChunkDataDoneArm, MessageDoneArm;
    OnByteSwitch(hc, c, ch);
  }

  lemma {:induction false} SizeRun(hc: Fields -> int, c: Conf, s: seq<byte>)
    requires c.run.Going? && c.f.state.ChunkSizeStart? && ChunkDigits(s) && Room(c.f, |s|)
    ensures SizeRead(c, s, Feed(hc, c, s))
    decreases |s|
  {
    hide OnByte, Push, Accumulate, Unhex;
    var init, last := s[..|s| - 1], s[|s| - 1];
    assert s == init + [last] && last in s;
    if init == [] {
      FeedOne(hc, c, last);
      SizeFirst(hc, c, last);
    } else {
      assert forall b <- init :: b in s;
      SizeRun(hc, c, init);
      var d := Feed(hc, c, init);
      if d.run.Going? {
        SizeNext(hc, d, last);
      } else {
        FeedOne(hc, d, last);
        FeedStopped(hc, d, [last]);
      }
    }
  }

  /** A chunk size is taken for what it says if and only if that is below 2^32 - 1. */
  lemma SizeRecognised(hc: Fields -> int, c: Conf, s: seq<byte>)
    requires c.run.Going? && c.f.state.ChunkSizeStart? && ChunkDigits(s) && Room(c.f, |s|)
    ensures var d := Feed(hc, c, s);
            d.run.Going? && d.f.contentLength == Value(16, s) <==> Value(16, s) < UINT32_MAX
    ensures Value(16, s) < UINT32_MAX ==>
              Feed(hc, c, s)
              == Reached(c, c.f.(state := ChunkSize, contentLength := Value(16, s), nread := c.f.nread + |s|),
                         c.log, |s|)
  {
    hide Feed, Push, Accumulated, Value;
    SizeRun(hc, c, s);
    AccumulatedExact(16, s);
  }

  /**
    Of the bytes that are neither a hexadecimal digit nor, behind the first digit, the end of a size, the
    machine refuses those below 128, and only those.
   */
  lemma SizeByteRefused(hc: Fields -> int, c: Conf, ch: byte)
    requires c.run.Going? && Room(c.f, 1) && (c.f.state.ChunkSizeStart? || c.f.state.ChunkSize?)
    requires !HexDigit(ch) && (c.f.state.ChunkSize? ==> !EndsSize(ch))
    ensures var d := OnByte(hc, c, ch);
            && (d.run.Failed? && d.f.errno == InvalidChunkSize <==> ch < 128)
            && (d.run.Failed? ==> d.used == c.used)
  {
    hide Push, Dispatch, StartSwitch, RequestSwitch, HeaderSwitch, Accumulate, ChunkParametersArm,
      ChunkSizeAlmostDoneArm, ChunkDataAlmostDoneArm, ChunkDataDoneArm, MessageDoneArm;
    OnByteSwitch(hc, c, ch);
  }

  /** The number of bytes in front of the first one that can be refused. */
  function Acceptable(s: seq<byte>): (k: nat)
    ensures k <= |s| && forall i :: 0 <= i < k ==> s[i] >= 128 || HexDigit(s[i])
    ensures k < |s| ==> s[k] < 128 && !HexDigit(s[k])
  {
    if s == [] || (s[0] < 128 && !HexDigit(s[0])) then 0 else 1 + Acceptable(s[1..])
  }

  lemma AcceptableDigits(s: seq<byte>)
    requires s != [] && forall b <- s :: b >= 128 || HexDigit(b)
    ensures ChunkDigits(s)
  {
  }

  /**
    A chunk size, up to what ends it, is refused as such exactly when it has a byte below 128 that is no
    hexadecimal digit and the digits in front of it have not overflowed; it is refused at its first such byte.
   */
  lemma SizeRefused(hc: Fields -> int, c: Conf, s: seq<byte>)
    requires c.run.Going? && c.f.state.ChunkSizeStart? && Room(c.f, |s|)
    requires forall i :: 0 < i < |s| ==> !EndsSize(s[i])
    ensures var k, d := Acceptable(s), Feed(hc, c, s);
            && (d.run.Failed? && d.f.errno == InvalidChunkSize
                <==> k < |s| && (k > 0 ==> Accumulated(16, s[..k]).Some?))
            && (k < |s| && d.f.errno == InvalidChunkSize && d.run.Failed? ==> d.used == c.used + k)
  {
    hide Feed, OnByte, Push, Accumulated, Unhex, HexDigit;
    var k := Acceptable(s);
    var x, y := s[..k], s[k..];
    assert s == x + y;
    FeedConcat(hc, c, x, y);
    if k > 0 {
      AcceptableDigits(x);
      SizeRun(hc, c, x);
    } else {
      FeedNothing(hc, c);
    }
    var d := Feed(hc, c, x);
    if k == |s| {
      FeedNothing(hc, d);
    } else if d.run.Going? {
      assert y == [y[0]] + y[1..];
      FeedCons(hc, d, y[0], y[1..]);
      SizeByteRefused(hc, d, y[0]);
      FeedStopped(hc, OnByte(hc, d, y[0]), y[1..]);
    } else {
      FeedStopped(hc, d, y);
    }
  }
}
