/**
  What cutting a multipart stream between two calls does: the parser fields never notice, and the
  callbacks are the same, adjacent data merged, exactly at the cuts that `CleanCut` names.
 */
module MultipartCuts {
  import opened Common
  import opened Events
  import opened Multipart

  // ---- what a run does not depend on --------------------------------------------------

  /** The number of bytes that a log delivers. */
  function Bytes(log: PartLog): nat {
    if log == [] then 0
    else Bytes(log[..|log| - 1]) + if log[|log| - 1].Data? then |log[|log| - 1].bytes| else 0
  }

  function Weight(e: PartEvent): nat { if e.Data? then |e.bytes| else 0 }

  lemma BytesPush(log: PartLog, e: PartEvent)
    ensures Bytes(Push(log, e)) == Bytes(log) + Weight(e)
  {
    assert Push(log, e)[..|Push(log, e)| - 1] == log[..|Push(log, e)| - 1];
    assert log[..|log|] == log;
  }

  /** `d` is `c` with `log` for its log and `used` bytes less on its count. */
  predicate Shadows(d: Conf, c: Conf, used: nat) {
    d.state == c.state && d.index == c.index && d.ok == c.ok && d.used + used == c.used
  }

  lemma ByteTracks(b: seq<byte>, c: Conf, d: Conf, used: nat, ch: byte)
    requires Shadows(d, c, used)
    ensures Shadows(OnByte(b, d, ch), OnByte(b, c, ch), used)
  {
    hide Push, Held, IsLetter, FieldByte, ValueByte, DelimiterByte, BoundaryByte;
    if c.state.HeaderFieldStart? || c.state.HeaderField? {
      FieldTracks(c, d, used, ch);
      FieldTracks(c.(state := HeaderField, pend := []), d.(state := HeaderField, pend := []), used, ch);
    } else if c.state.HeaderValueStart? || c.state.HeaderValue? {
      ValueTracks(c, d, used, ch);
      ValueTracks(c.(state := HeaderValue, pend := []), d.(state := HeaderValue, pend := []), used, ch);
    } else if c.state.PartDataBoundary? {
      DelimiterTracks(b, c, d, used, ch);
    } else if c.state.Start? || c.state.StartBoundary? {
      BoundaryTracks(b, c, d, used, ch);
      BoundaryTracks(b, c.(index := 0, state := StartBoundary), d.(index := 0, state := StartBoundary), used, ch);
    }
  }

  lemma FieldTracks(c: Conf, d: Conf, used: nat, ch: byte)
    requires Shadows(d, c, used)
    ensures Shadows(FieldByte(d, ch), FieldByte(c, ch), used)
  {
    hide Push, IsLetter;
  }

  lemma ValueTracks(c: Conf, d: Conf, used: nat, ch: byte)
    requires Shadows(d, c, used)
    ensures Shadows(ValueByte(d, ch), ValueByte(c, ch), used)
  {
    hide Push;
  }

  lemma DelimiterTracks(b: seq<byte>, c: Conf, d: Conf, used: nat, ch: byte)
    requires Shadows(d, c, used)
    ensures Shadows(DelimiterByte(b, d, ch), DelimiterByte(b, c, ch), used)
  {
    hide Push, Held;
  }

  lemma BoundaryTracks(b: seq<byte>, c: Conf, d: Conf, used: nat, ch: byte)
    requires Shadows(d, c, used)
    ensures Shadows(BoundaryByte(b, d, ch), BoundaryByte(b, c, ch), used)
  {
    hide Push;
  }

  lemma ByteShadows(b: seq<byte>, c: Conf, d: Conf, used: nat, ch: byte)
    requires Shadows(d, c, used) && c.pend == d.pend
    ensures OnByte(b, c, ch).pend == OnByte(b, d, ch).pend
    ensures c.log == d.log ==> OnByte(b, c, ch).log == OnByte(b, d, ch).log
  {
    hide Push, Held, IsLetter;
  }

  lemma ByteBytes(b: seq<byte>, c: Conf, d: Conf, used: nat, ch: byte)
    requires Shadows(d, c, used) && c.pend == d.pend
    ensures Bytes(OnByte(b, c, ch).log) - Bytes(c.log) == Bytes(OnByte(b, d, ch).log) - Bytes(d.log)
  {
    hide Push, Bytes, IsLetter;
    forall l: PartLog, e: PartEvent ensures Bytes(Push(l, e)) == Bytes(l) + Weight(e) {
      BytesPush(l, e);
    }
  }

  /** The parser fields do not depend on the names and values passed or delivered. */
  lemma {:induction false} FeedTracks(b: seq<byte>, c: Conf, d: Conf, used: nat, s: seq<byte>)
    requires Shadows(d, c, used)
    ensures Shadows(Feed(b, d, s), Feed(b, c, s), used)
    decreases |s|
  {
    hide OnByte;
    if s != [] {
      ByteTracks(b, c, d, used, s[0]);
      FeedTracks(b, OnByte(b, c, s[0]), OnByte(b, d, s[0]), used, s[1..]);
    }
  }

  /** A run delivers the same bytes whatever was delivered before. */
  lemma {:induction false} FeedShadows(b: seq<byte>, c: Conf, d: Conf, used: nat, s: seq<byte>)
    requires Shadows(d, c, used) && c.pend == d.pend
    ensures Shadows(Feed(b, d, s), Feed(b, c, s), used) && Feed(b, c, s).pend == Feed(b, d, s).pend
    ensures c.log == d.log ==> Feed(b, c, s).log == Feed(b, d, s).log
    ensures Bytes(Feed(b, c, s).log) - Bytes(c.log) == Bytes(Feed(b, d, s).log) - Bytes(d.log)
    decreases |s|
  {
    hide OnByte, Bytes;
    if s != [] {
      ByteTracks(b, c, d, used, s[0]);
      ByteShadows(b, c, d, used, s[0]);
      ByteBytes(b, c, d, used, s[0]);
      FeedShadows(b, OnByte(b, c, s[0]), OnByte(b, d, s[0]), used, s[1..]);
    }
  }

  /** The callbacks of the rest of a buffer make two logs neither equal nor different. */
  lemma Rest(b: seq<byte>, c: Conf, d: Conf, used: nat, s: seq<byte>, last: byte)
    requires Shadows(d, c, used) && c.pend == d.pend
    requires c.log == d.log || Bytes(c.log) != Bytes(d.log)
    ensures Leave(Feed(b, c, s), last).log == Leave(Feed(b, d, s), last).log <==> c.log == d.log
  {
    hide OnByte, Bytes, Push;
    FeedShadows(b, c, d, used, s);
    forall l: PartLog, e: PartEvent ensures Bytes(Push(l, e)) == Bytes(l) + Weight(e) {
      BytesPush(l, e);
    }
  }

  // ---- where names and values are held back ------------------------------------------

  /** Bytes are passed and not delivered only inside a header. */
  predicate Neat(c: Conf) {
    c.state.HeaderField? || c.state.HeaderValue? || c.state.HeaderValueAlmostDone? || c.pend == []
  }

  /** Inside a name the last byte is one of a name's, inside a value it is no CR; both are still held back. */
  predicate HoldsLast(c: Conf, last: byte) {
    && (c.ok && c.state.HeaderField? ==> c.pend != [] && (last == HYPHEN || IsLetter(last)))
    && (c.ok && c.state.HeaderValue? ==> c.pend != [])
  }

  lemma ByteNeat(b: seq<byte>, c: Conf, ch: byte)
    requires Neat(c)
    ensures Neat(OnByte(b, c, ch))
    ensures HoldsLast(OnByte(b, c, ch), ch)
  {
    hide Push, Held, IsLetter;
  }

  lemma {:induction false} FeedNeat(b: seq<byte>, c: Conf, s: seq<byte>)
    requires Neat(c)
    ensures Neat(Feed(b, c, s))
    ensures s != [] ==> HoldsLast(Feed(b, c, s), s[|s| - 1])
    decreases |s|
  {
    hide OnByte, Neat, HoldsLast;
    if s != [] {
      var front, last := s[..|s| - 1], s[|s| - 1];
      assert s == front + [last];
      FeedNeat(b, c, front);
      FeedConcat(b, c, front, [last]);
      FeedOne(b, Feed(b, c, front), last);
      ByteNeat(b, Feed(b, c, front), last);
    }
  }

  // ---- cuts ------------------------------------------------------------------------

  /** A buffer that begins inside a name delivers the name: at its colon, or because it ends after a letter of it. */
  predicate DeliversName(y: seq<byte>)
    decreases |y|
  {
    && y != [] && y[0] != CR
    && (y[0] == COLON || if |y| == 1 then y[0] != HYPHEN else DeliversName(y[1..]))
  }

  /** A buffer that begins inside a value ends with the value's CR. */
  predicate EndsAtCr(y: seq<byte>)
    decreases |y|
  {
    y != [] && if y[0] == CR then |y| == 1 else EndsAtCr(y[1..])
  }

  /**
    Two calls, the first of which ends in `state` with the byte `last`, make the callbacks of one call.
    Inside a name the two must agree on delivering it; inside a value the second must not end at its CR;
    between the CR and the LF of a value no cut is good.
   */
  predicate CleanCut(state: State, last: byte, y: seq<byte>) {
    if state.HeaderField? then (last != HYPHEN) == DeliversName(y)
    else if state.HeaderValue? then !EndsAtCr(y)
    else !state.HeaderValueAlmostDone?
  }

  lemma {:induction false} NameCut(b: seq<byte>, c: Conf, d: Conf, used: nat, v: seq<byte>, said: bool, y: seq<byte>)
    requires y != [] && Feed(b, c, y).ok && c.ok && c.state.HeaderField? && Shadows(d, c, used)
    requires v != [] && c.pend == v + d.pend && d.log == if said then Push(c.log, Emit(KField, v)) else c.log
    ensures var last := y[|y| - 1];
            Leave(Feed(b, c, y), last).log == Leave(Feed(b, d, y), last).log <==> said == DeliversName(y)
    decreases |y|
  {
    hide Push, Bytes, OnByte, IsLetter;
    var ch, last := y[0], y[|y| - 1];
    var c', d' := OnByte(b, c, ch), OnByte(b, d, ch);
    assert c'.ok by {
      if !c'.ok {
        FeedStopped(b, c', y[1..]);
      }
    }
    BytesPush(c.log, Emit(KField, v));
    BytesPush(c.log, Emit(KField, v + d.pend));
    BytesPush(c.log, Emit(KField, d.pend));
    PushTwice(c.log, KField, v, d.pend);
    ByteTracks(b, c, d, used, ch);
    NameByte(b, c, ch);
    NameByte(b, d, ch);
    if ch == CR || ch == COLON {
      Rest(b, c', d', used, y[1..], last);
    } else {
      assert v + (d.pend + [ch]) == c.pend + [ch];
      if |y| == 1 {
        PushTwice(c.log, KField, v, d.pend + [ch]);
        BytesPush(c.log, Emit(KField, v + (d.pend + [ch])));
        BytesPush(c.log, Emit(KField, d.pend + [ch]));
      } else {
        NameCut(b, c', d', used, v, said, y[1..]);
      }
    }
  }

  lemma NameByte(b: seq<byte>, c: Conf, ch: byte)
    requires c.ok && c.state.HeaderField?
    ensures var d := OnByte(b, c, ch);
            if ch == CR then d == Took(c.(pend := []), HeadersAlmostDone)
            else if ch == COLON then d == Took(Heard(c, Emit(KField, c.pend)).(pend := []), HeaderValueStart)
            else d.ok ==> d == Took(c.(pend := c.pend + [ch]), HeaderField)
  {
    hide Push, Held, IsLetter;
  }

  lemma ValueStep(b: seq<byte>, c: Conf, ch: byte)
    requires c.ok && c.state.HeaderValue?
    ensures OnByte(b, c, ch) == ValueByte(c, ch)
  {
    hide Push, Held, IsLetter;
  }

  lemma {:induction false} ValueCut(b: seq<byte>, c: Conf, d: Conf, used: nat, v: seq<byte>, y: seq<byte>)
    requires y != [] && Feed(b, c, y).ok && c.ok && c.state.HeaderValue? && Shadows(d, c, used)
    requires v != [] && c.pend == v + d.pend && d.log == Push(c.log, Emit(KValue, v))
    ensures var last := y[|y| - 1];
            Leave(Feed(b, c, y), last).log == Leave(Feed(b, d, y), last).log <==> !EndsAtCr(y)
    decreases |y|
  {
    hide Push, Bytes, OnByte;
    var ch, last := y[0], y[|y| - 1];
    var c', d' := OnByte(b, c, ch), OnByte(b, d, ch);
    ValueStep(b, c, ch);
    ValueStep(b, d, ch);
    ByteTracks(b, c, d, used, ch);
    if ch == CR {
      PushTwice(c.log, KValue, v, d.pend);
      if |y| == 1 {
        BytesPush(c'.log, Emit(KValue, c.pend + [CR]));
        BytesPush(d'.log, Emit(KValue, d.pend + [CR]));
      } else {
        CrCut(b, c', d', used, y[1..], last);
      }
    } else {
      assert v + (d.pend + [ch]) == c.pend + [ch];
      if |y| == 1 {
        PushTwice(c.log, KValue, v, d.pend + [ch]);
      } else {
        ValueCut(b, c', d', used, v, y[1..]);
      }
    }
  }

  /** After the CR of a value only the log counts. */
  lemma CrCut(b: seq<byte>, c: Conf, d: Conf, used: nat, y: seq<byte>, last: byte)
    requires y != [] && Feed(b, c, y).ok && c.ok && c.state.HeaderValueAlmostDone? && Shadows(d, c, used)
    requires c.log == d.log || Bytes(c.log) != Bytes(d.log)
    ensures Leave(Feed(b, c, y), last).log == Leave(Feed(b, d, y), last).log <==> c.log == d.log
  {
    hide Push, Bytes, Feed, Held;
    var c', d' := OnByte(b, c, y[0]), OnByte(b, d, y[0]);
    assert Feed(b, c, y) == Feed(b, c', y[1..]) && Feed(b, d, y) == Feed(b, d', y[1..]) by {
      assert [y[0]] + y[1..] == y;
      FeedCons(b, c, y[0], y[1..]);
      FeedCons(b, d, y[0], y[1..]);
    }
    if !c'.ok {
      FeedStopped(b, c', y[1..]);
    }
    Rest(b, c', d', used, y[1..], last);
  }

  /** Cutting a buffer in two: always the same fields and the same count, and the same callbacks at a clean cut only. */
  lemma CutCall(b: seq<byte>, c: Conf, x: seq<byte>, y: seq<byte>)
    requires x != [] && y != [] && Call(b, c, x + y).ok
    ensures var whole, first := Call(b, c, x + y), Call(b, c, x);
            var second := Call(b, first, y);
            && first.ok && second.ok
            && second.state == whole.state && second.index == whole.index
            && first.used == |x| && second.used == |y| && whole.used == |x| + |y|
            && (second.log == whole.log <==> CleanCut(first.state, x[|x| - 1], y))
  {
    hide Push, Bytes, OnByte, DeliversName, EndsAtCr;
    var e, lx, ly := Enter(c), x[|x| - 1], y[|y| - 1];
    var m := Feed(b, e, x);
    var n := Enter(Leave(m, lx));
    FeedConcat(b, e, x, y);
    assert (x + y)[|x + y| - 1] == ly;
    assert Call(b, c, x + y) == Leave(Feed(b, m, y), ly);
    if !m.ok {
      FeedStopped(b, m, y);
    }
    FeedNeat(b, e, x);
    FeedCount(b, e, x);
    FeedCount(b, m, y);
    FeedTracks(b, m, n, m.used, y);
    if m.state.HeaderField? {
      NameCut(b, m, n, m.used, m.pend, lx != HYPHEN, y);
    } else if m.state.HeaderValue? {
      ValueCut(b, m, n, m.used, m.pend, y);
    } else if m.state.HeaderValueAlmostDone? {
      BytesPush(m.log, Emit(KValue, m.pend + [CR]));
      CrCut(b, m, n, m.used, y, ly);
    } else {
      Rest(b, m, n, m.used, y, ly);
    }
  }

  /**
    A cut behind a hyphen of a name: the calls are accepted, and what they deliver is not what one call for
    the same bytes does.
   */
  lemma UncleanName(b: seq<byte>, c: Conf, x: seq<byte>, y: seq<byte>)
    requires c.state.HeaderFieldStart? && x == [97, HYPHEN] && y == [98, COLON]
    ensures Call(b, c, x + y).ok && !CleanCut(Call(b, c, x).state, HYPHEN, y)
    ensures Call(b, Call(b, c, x), y).log != Call(b, c, x + y).log
  {
    hide Push, Bytes;
    var e := Enter(c);
    assert x == [97] + [HYPHEN] && y == [98] + [COLON];
    FeedCons(b, e, 97, [HYPHEN]);
    FeedOne(b, OnByte(b, e, 97), HYPHEN);
    var m := Feed(b, e, x);
    FeedConcat(b, e, x, y);
    FeedCons(b, m, 98, [COLON]);
    FeedOne(b, OnByte(b, m, 98), COLON);
    assert DeliversName([98] + [COLON]) by {
      assert y[1..] == [COLON];
    }
    CutCall(b, c, x, y);
  }

  /** A value cut in two, the second buffer ending at its CR: the first half is delivered once less. */
  lemma UncleanValue(b: seq<byte>, c: Conf, x: seq<byte>, y: seq<byte>)
    requires c.state.HeaderValueStart? && x == [97] && y == [98, CR]
    ensures Call(b, c, x + y).ok && !CleanCut(Call(b, c, x).state, 97, y)
    ensures Call(b, Call(b, c, x), y).log != Call(b, c, x + y).log
  {
    hide Push, Bytes;
    var e := Enter(c);
    assert y == [98] + [CR];
    FeedOne(b, e, 97);
    var m := Feed(b, e, x);
    FeedConcat(b, e, x, y);
    FeedCons(b, m, 98, [CR]);
    FeedOne(b, OnByte(b, m, 98), CR);
    assert EndsAtCr(y) by {
      assert y[1..] == [CR];
    }
    CutCall(b, c, x, y);
  }

  lemma {:induction false} FeedCount(b: seq<byte>, c: Conf, s: seq<byte>)
    requires Feed(b, c, s).ok
    ensures Feed(b, c, s).used == c.used + |s|
    decreases |s|
  {
    hide OnByte;
    if s != [] {
      FeedCount(b, OnByte(b, c, s[0]), s[1..]);
      if !OnByte(b, c, s[0]).ok {
        FeedStopped(b, OnByte(b, c, s[0]), s[1..]);
      }
      ByteCount(b, c, s[0]);
    }
  }

  lemma ByteCount(b: seq<byte>, c: Conf, ch: byte)
    requires OnByte(b, c, ch).ok
    ensures c.ok && OnByte(b, c, ch).used == c.used + 1
  {
    hide Push, Held, IsLetter;
  }

  // ---- a stream in any number of buffers ----------------------------------------------

  /** One call for every piece, as long as no call returns early; `used` is the total. */
  function Calls(b: seq<byte>, c: Conf, pieces: seq<seq<byte>>): Conf
    decreases |pieces|
  {
    if pieces == [] then Enter(c)
    else
      var d := Calls(b, c, pieces[..|pieces| - 1]);
      if !d.ok then d else var e := Call(b, d, pieces[|pieces| - 1]); e.(used := d.used + e.used)
  }

  predicate SameFields(d: Conf, c: Conf) {
    d.state == c.state && d.index == c.index && d.ok == c.ok && d.used == c.used
  }

  lemma FlattenLast(pieces: seq<seq<byte>>)
    requires pieces != []
    ensures Flatten(pieces) == Flatten(pieces[..|pieces| - 1]) + pieces[|pieces| - 1]
  {
    assert pieces == pieces[..|pieces| - 1] + [pieces[|pieces| - 1]];
    FlattenSnoc(pieces[..|pieces| - 1], pieces[|pieces| - 1]);
  }

  /** One call for the stream so far and one more call, against one call for both. */
  lemma OneMoreCall(b: seq<byte>, c: Conf, x: seq<byte>, d: Conf, y: seq<byte>)
    requires SameFields(d, Call(b, c, x))
    ensures var e := Call(b, d, y);
            SameFields(if d.ok then e.(used := d.used + e.used) else d, Call(b, c, x + y))
  {
    hide OnByte, Push, Feed;
    var m := Feed(b, Enter(c), x);
    FeedConcat(b, Enter(c), x, y);
    LeaveKeeps(b, c, x);
    LeaveKeeps(b, c, x + y);
    LeaveKeeps(b, d, y);
    if d.ok {
      FeedTracks(b, m, Enter(d), m.used, y);
    } else {
      FeedStopped(b, m, y);
    }
  }

  lemma LeaveKeeps(b: seq<byte>, c: Conf, s: seq<byte>)
    ensures SameFields(Call(b, c, s), Feed(b, Enter(c), s))
  {
    hide OnByte, Push;
  }

  /** The parser fields, the number of bytes consumed and the verdict never depend on the cuts. */
  lemma {:induction false} FieldsAgree(b: seq<byte>, c: Conf, pieces: seq<seq<byte>>)
    ensures SameFields(Calls(b, c, pieces), Call(b, c, Flatten(pieces)))
    decreases |pieces|
  {
    hide Call, Flatten;
    if pieces == [] {
      NoCalls(b, c);
    } else {
      var front, last := pieces[..|pieces| - 1], pieces[|pieces| - 1];
      FieldsAgree(b, c, front);
      FlattenLast(pieces);
      OneMoreCall(b, c, Flatten(front), Calls(b, c, front), last);
    }
  }

  lemma NoCalls(b: seq<byte>, c: Conf)
    ensures Flatten<byte>([]) == [] && Call(b, c, []) == Enter(c)
  {
  }

  /** The stream is cut at clean cuts only. */
  predicate CleanCuts(b: seq<byte>, c: Conf, pieces: seq<seq<byte>>)
    requires [] !in pieces
  {
    forall k :: 0 < k < |pieces| ==>
      var last := pieces[k - 1];
      CleanCut(Calls(b, c, pieces[..k]).state, last[|last| - 1], pieces[k])
  }

  /** Nor do the callbacks, when every cut is clean. */
  lemma {:induction false} CallbacksAgree(b: seq<byte>, c: Conf, pieces: seq<seq<byte>>)
    requires [] !in pieces && Call(b, c, Flatten(pieces)).ok && CleanCuts(b, c, pieces)
    ensures Calls(b, c, pieces).log == Call(b, c, Flatten(pieces)).log
    decreases |pieces|
  {
    hide OnByte, Push, CleanCut, Feed, Leave;
    FieldsAgree(b, c, pieces);
    if pieces != [] {
      var front, last := pieces[..|pieces| - 1], pieces[|pieces| - 1];
      var d, all := Calls(b, c, front), Flatten(front);
      FlattenLast(pieces);
      if front == [] {
        assert all == [] && all + last == last;
        EnterTwice(b, c, last);
      } else {
        FlattenLast(front);
        assert all != [] && all[|all| - 1] == front[|front| - 1][|front[|front| - 1]| - 1];
        CutCall(b, c, all, last);
        forall k | 0 < k < |front|
          ensures CleanCut(Calls(b, c, front[..k]).state, front[k - 1][|front[k - 1]| - 1], front[k])
        {
          assert front[..k] == pieces[..k];
        }
        CallbacksAgree(b, c, front);
        FieldsAgree(b, c, front);
        var x := Call(b, c, all);
        assert Enter(d) == Enter(x);
        EnterTwice(b, d, last);
        EnterTwice(b, x, last);
      }
    }
  }

  lemma EnterTwice(b: seq<byte>, c: Conf, s: seq<byte>)
    ensures Call(b, Enter(c), s) == Call(b, c, s)
  {
    hide OnByte, Push;
  }

  /** multipart_parser_execute on every piece, until a call returns early. */
  method ExecuteAll(parser: MultipartParser, pieces: seq<seq<byte>>) returns (used: nat)
    requires parser.Valid()
    modifies parser, parser.lookbehind
    ensures parser.Valid()
    ensures var d := Calls(parser.boundary, old(parser.Now()), pieces);
            && parser.state == d.state && parser.index == d.index && Merged(parser.log) == d.log && used == d.used
            && (d.ok <==> used == |Flatten(pieces)|)
  {
    hide Push, OnByte, Merged, Feed;
    ghost var b, start := parser.boundary, parser.Now();
    used := 0;
    for i := 0 to |pieces|
      invariant parser.Valid()
      invariant Calls(b, start, pieces[..i]).ok && SameFields(Calls(b, start, pieces[..i]), parser.Now().(used := used))
      invariant Calls(b, start, pieces[..i]).log == Merged(parser.log) && used == |Flatten(pieces[..i])|
    {
      ghost var d, now := Calls(b, start, pieces[..i]), parser.Now();
      assert pieces[..i + 1][..i] == pieces[..i];
      FlattenLast(pieces[..i + 1]);
      EnterTwice(b, d, pieces[i]);
      EnterTwice(b, now, pieces[i]);
      var n := parser.Execute(pieces[i]);
      used := used + n;
      if n < |pieces[i]| {
        CallsStopped(b, start, pieces, i + 1);
        FlattenPrefix(pieces, i + 1);
        return;
      }
    }
    assert pieces[..|pieces|] == pieces;
  }

  lemma FlattenPrefix(pieces: seq<seq<byte>>, k: nat)
    requires k <= |pieces|
    ensures |Flatten(pieces[..k])| <= |Flatten(pieces)|
    decreases |pieces|
  {
    if k < |pieces| {
      FlattenLast(pieces);
      assert pieces[..|pieces| - 1][..k] == pieces[..k];
      FlattenPrefix(pieces[..|pieces| - 1], k);
    } else {
      assert pieces[..k] == pieces;
    }
  }

  lemma CallsStopped(b: seq<byte>, c: Conf, pieces: seq<seq<byte>>, k: nat)
    requires k <= |pieces| && !Calls(b, c, pieces[..k]).ok
    ensures Calls(b, c, pieces) == Calls(b, c, pieces[..k])
    decreases |pieces|
  {
    hide Call;
    if k < |pieces| {
      assert pieces[..|pieces| - 1][..k] == pieces[..k];
      CallsStopped(b, c, pieces[..|pieces| - 1], k);
    } else {
      assert pieces[..k] == pieces;
    }
  }
}
