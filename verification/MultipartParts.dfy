/**
  What the multipart parser finds: part data ends exactly at the first delimiter, wherever the stream is
  cut, and a body printed in the layout of RFC 2046, section 5.1.1, comes back as it was.
 */
module MultipartParts {
  import opened Common
  import opened Events
  import opened Multipart
  import opened MultipartCuts

  // ---- the delimiter search -----------------------------------------------------------

  /** A CRLF and the boundary. */
  function Delimiter(b: seq<byte>): seq<byte> { [CR, LF] + b }

  predicate At(d: seq<byte>, s: seq<byte>, i: nat) { i + |d| <= |s| && s[i..i + |d|] == d }

  predicate Occurs(d: seq<byte>, s: seq<byte>) { exists i: nat :: i <= |s| && At(d, s, i) }

  predicate InData(s: State) { s.PartData? || s.PartDataAlmostBoundary? || s.PartDataBoundary? }

  /** What has been consumed of part data and not delivered. */
  function LookBehind(b: seq<byte>, c: Conf): seq<byte> {
    if c.state.PartDataAlmostBoundary? then [CR]
    else if c.state.PartDataBoundary? then Held(b, Min(c.index, |b|))
    else []
  }

  /**
    From `c`, with the part data `s` consumed: what was delivered and what is held back are `s`.
   */
  predicate Searching(b: seq<byte>, c: Conf, s: seq<byte>, d: Conf) {
    var held := LookBehind(b, d);
    && d.ok && InData(d.state) && d.used == c.used + |s| && d.pend == c.pend
    && (d.state.PartDataBoundary? ==> d.index < |b|)
    && |held| <= |s| && s[|s| - |held|..] == held
    && d.log == if s == [] then c.log else Push(c.log, Emit(KData, s[..|s| - |held|]))
  }

  /** The byte `ch` as part data, with nothing held back. */
  lemma DataSearch(b: seq<byte>, c: Conf, s: seq<byte>, d: Conf, ch: byte)
    requires Searching(b, c, s, d) && d.state.PartData?
    ensures Searching(b, c, s + [ch], DataByte(d, ch))
  {
    hide Push;
    assert s[..|s|] == s;
    PushTwice(c.log, KData, s, [ch]);
    PushTwice(c.log, KData, s, []);
    assert s + [] == s && [] + [ch] == [ch];
    var t := s + [ch];
    assert t[..|t| - 1] == s && t[..|t|] == t && t[|t| - 1..] == [ch];
  }

  /** When a delimiter breaks off, what was held back is delivered. */
  lemma BreaksOff(b: seq<byte>, c: Conf, s: seq<byte>, d: Conf)
    requires Searching(b, c, s, d) && s != []
    ensures Searching(b, c, s, Heard(d, Emit(KData, LookBehind(b, d))).(state := PartData))
  {
    hide Push, Held;
    var held := LookBehind(b, d);
    var t := s[..|s| - |held|];
    assert t + held == s == s[..|s|];
    PushTwice(c.log, KData, t, held);
  }

  /** The delimiter goes on. */
  lemma GoesOn(b: seq<byte>, c: Conf, s: seq<byte>, d: Conf, ch: byte, e: Conf)
    requires Searching(b, c, s, d) && s != [] && InData(e.state) && (e.state.PartDataBoundary? ==> e.index < |b|)
    requires LookBehind(b, e) == LookBehind(b, d) + [ch]
             && e == d.(state := e.state, index := e.index, used := d.used + 1)
    ensures Searching(b, c, s + [ch], e)
  {
    hide Push, Held, LookBehind;
    var held, t := LookBehind(b, d), s + [ch];
    assert t[..|t| - |held + [ch]|] == s[..|s| - |held|];
    assert t[|t| - |held + [ch]|..] == s[|s| - |held|..] + [ch];
  }

  /** The byte `ch` is the last of a delimiter. */
  predicate Completes(b: seq<byte>, d: Conf, ch: byte) {
    d.state.PartDataBoundary? && d.index + 1 == |b| && ch == b[d.index]
  }

  lemma SearchState(b: seq<byte>, c: Conf, s: seq<byte>, d: Conf)
    requires Searching(b, c, s, d)
    ensures InData(d.state) && d.ok && d.pend == c.pend && d.used == c.used + |s|
    ensures (d.state.PartDataBoundary? ==> d.index < |b|) && (s == [] ==> d.state.PartData?)
    ensures |LookBehind(b, d)| <= |s| && s[|s| - |LookBehind(b, d)|..] == LookBehind(b, d)
  {
  }

  /** One more byte of part data. */
  lemma SearchByte(b: seq<byte>, c: Conf, s: seq<byte>, d: Conf, ch: byte)
    requires b != [] && Searching(b, c, s, d)
    ensures if Completes(b, d, ch) then
              OnByte(b, d, ch) == Took(Heard(d.(index := |b|), Notice(PartDataEnded)), PartDataAlmostEnd)
            else Searching(b, c, s + [ch], OnByte(b, d, ch))
  {
    hide Push, Searching, DataByte;
    var e := OnByte(b, d, ch);
    assert InData(d.state) && d.ok && (d.state.PartDataBoundary? ==> d.index < |b|)
           && (s == [] ==> d.state.PartData?) by {
      SearchState(b, c, s, d);
    }
    if d.state.PartData? {
      DataSearch(b, c, s, d, ch);
    } else if d.state.PartDataAlmostBoundary? && ch == LF {
      assert Held(b, 0) == [CR] + [LF];
      GoesOn(b, c, s, d, ch, e);
    } else if d.state.PartDataBoundary? && ch == b[d.index] {
      if d.index + 1 < |b| {
        assert Held(b, d.index + 1) == Held(b, d.index) + [ch];
        GoesOn(b, c, s, d, ch, e);
      }
    } else {
      var r := Heard(d, Emit(KData, LookBehind(b, d))).(state := PartData);
      BreaksOff(b, c, s, d);
      DataSearch(b, c, s, r, ch);
      assert e == DataByte(r, ch);
    }
  }

  lemma OccursLater(d: seq<byte>, s: seq<byte>, t: seq<byte>)
    ensures Occurs(d, s) ==> Occurs(d, s + t)
  {
    if Occurs(d, s) {
      var i: nat :| i <= |s| && At(d, s, i);
      assert (s + t)[i..i + |d|] == s[i..i + |d|];
      assert At(d, s + t, i);
    }
  }

  lemma OccursAtEnd(d: seq<byte>, s: seq<byte>, n: nat)
    requires n <= |s| && s[n..] == d
    ensures Occurs(d, s)
  {
    assert s[n..n + |d|] == d;
    assert At(d, s, n);
  }

  /**
    Part data in which the delimiter does not occur: every byte is delivered or held back, and only a
    beginning of the delimiter is.
   */
  lemma {:induction false} Searches(b: seq<byte>, c: Conf, s: seq<byte>)
    requires b != [] && c.ok && c.state.PartData? && !Occurs(Delimiter(b), s)
    ensures Searching(b, c, s, Feed(b, c, s))
    decreases |s|
  {
    hide OnByte, Searching, Push;
    if s == [] {
      assert Searching(b, c, s, c) by {
        Nothing(b, c);
      }
    } else {
      var t, ch := s[..|s| - 1], s[|s| - 1];
      assert s == t + [ch];
      OccursLater(Delimiter(b), t, [ch]);
      Searches(b, c, t);
      var d := Feed(b, c, t);
      FeedConcat(b, c, t, [ch]);
      FeedOne(b, d, ch);
      SearchState(b, c, t, d);
      SearchByte(b, c, t, d, ch);
      if Completes(b, d, ch) {
        var n := |s| - |b| - 2;
        assert s[n..] == t[n..] + [ch];
        assert Held(b, d.index) + [ch] == Delimiter(b);
        OccursAtEnd(Delimiter(b), s, n);
      }
    }
  }

  lemma Nothing(b: seq<byte>, c: Conf)
    requires c.ok && c.state.PartData?
    ensures Searching(b, c, [], c)
  {
  }

  /** A CR always starts the delimiter over, with all that went before delivered. */
  lemma CrRestarts(b: seq<byte>, c: Conf, s: seq<byte>, d: Conf)
    requires Searching(b, c, s, d) && CR !in b
    ensures OnByte(b, d, CR) == d.(state := PartDataAlmostBoundary, used := d.used + 1,
                                   log := Push(c.log, Emit(KData, s)))
  {
    hide Push, Held;
    var held := LookBehind(b, d);
    var t := s[..|s| - |held|];
    assert t + held == s && s[..|s|] == s && s + [] == s && t + [] == t;
    PushTwice(c.log, KData, t, held);
    PushTwice(c.log, KData, s, []);
  }

  /** The boundary, byte by byte. */
  lemma {:induction false} BoundaryRuns(b: seq<byte>, c: Conf, k: nat)
    requires k < |b| && c.ok && c.state.PartDataBoundary? && c.index == 0
    ensures Feed(b, c, b[..k]) == c.(index := k, used := c.used + k)
    decreases k
  {
    hide OnByte;
    if k == 0 {
      assert b[..0] == [];
    } else {
      assert b[..k] == b[..k - 1] + [b[k - 1]];
      BoundaryRuns(b, c, k - 1);
      FeedConcat(b, c, b[..k - 1], [b[k - 1]]);
      FeedOne(b, c.(index := k - 1, used := c.used + k - 1), b[k - 1]);
      DelimiterStep(b, c.(index := k - 1, used := c.used + k - 1), b[k - 1]);
    }
  }

  lemma DelimiterStep(b: seq<byte>, c: Conf, ch: byte)
    requires c.ok && c.state.PartDataBoundary? && c.index < |b| && ch == b[c.index]
    ensures OnByte(b, c, ch) ==
            if c.index + 1 == |b| then Took(Heard(c.(index := |b|), Notice(PartDataEnded)), PartDataAlmostEnd)
            else c.(index := c.index + 1, used := c.used + 1)
  {
    hide Push;
  }

  /**
    The delimiter search is exact: from the first byte of part data, the part ends with the last byte of
    the first delimiter, not before, and what was delivered is the text in front of it.
   */
  lemma DelimiterFound(b: seq<byte>, c: Conf, s: seq<byte>)
    requires b != [] && CR !in b && c.ok && c.state.PartData? && !Occurs(Delimiter(b), s)
    ensures Feed(b, c, s + Delimiter(b))
            == c.(state := PartDataAlmostEnd, index := |b|, used := c.used + |s| + |b| + 2,
                  log := Push(Push(c.log, Emit(KData, s)), Notice(PartDataEnded)))
  {
    hide OnByte, Searching, Push, Occurs, Delimiter, Feed, LookBehind;
    var d := Feed(b, c, s);
    Searches(b, c, s);
    SearchState(b, c, s, d);
    CrRestarts(b, c, s, d);
    var e := d.(state := PartDataAlmostBoundary, used := d.used + 1, log := Push(c.log, Emit(KData, s)));
    FeedConcat(b, c, s, Delimiter(b));
    DelimiterRuns(b, d, e);
  }

  /** The delimiter, from a byte at which all before it is delivered. */
  lemma DelimiterRuns(b: seq<byte>, d: Conf, e: Conf)
    requires b != [] && OnByte(b, d, CR) == e && e.ok && e.state.PartDataAlmostBoundary?
    ensures Feed(b, d, Delimiter(b))
            == e.(state := PartDataAlmostEnd, index := |b|, used := e.used + |b| + 1,
                  log := Push(e.log, Notice(PartDataEnded)))
  {
    hide OnByte, Push, Feed;
    var n := |b| - 1;
    var f := e.(state := PartDataBoundary, index := 0, used := e.used + 1);
    var g := f.(index := n, used := f.used + n);
    LfStep(b, e);
    assert Delimiter(b) == [CR] + ([LF] + b);
    FeedCons(b, d, CR, [LF] + b);
    FeedCons(b, e, LF, b);
    assert b == b[..n] + [b[n]];
    BoundaryRuns(b, f, n);
    FeedConcat(b, f, b[..n], [b[n]]);
    FeedOne(b, g, b[n]);
    DelimiterStep(b, g, b[n]);
  }

  lemma LfStep(b: seq<byte>, c: Conf)
    requires c.ok && c.state.PartDataAlmostBoundary?
    ensures OnByte(b, c, LF) == c.(state := PartDataBoundary, index := 0, used := c.used + 1)
  {
  }

  /** The same, of the first delimiter of a stream: at no byte before its last does the part end. */
  lemma FirstDelimiter(b: seq<byte>, c: Conf, t: seq<byte>, i: nat, k: nat)
    requires b != [] && CR !in b && c.ok && c.state.PartData?
    requires At(Delimiter(b), t, i) && forall j: nat :: j < i ==> !At(Delimiter(b), t, j)
    requires k <= i + |b| + 2
    ensures k < i + |b| + 2 ==> Searching(b, c, t[..k], Feed(b, c, t[..k]))
    ensures var d := Feed(b, c, t[..i + |b| + 2]);
            d.state.PartDataAlmostEnd? && d.log == Push(Push(c.log, Emit(KData, t[..i])), Notice(PartDataEnded))
  {
    hide OnByte, Searching, Push, Feed;
    forall n: nat | n < i + |b| + 2
      ensures !Occurs(Delimiter(b), t[..n])
    {
      if Occurs(Delimiter(b), t[..n]) {
        var j: nat :| j <= n && At(Delimiter(b), t[..n], j);
        StillAt(Delimiter(b), t, n, j);
      }
    }
    if k < i + |b| + 2 {
      Searches(b, c, t[..k]);
    }
    assert t[..i + |b| + 2] == t[..i] + Delimiter(b);
    DelimiterFound(b, c, t[..i]);
  }

  lemma StillAt(d: seq<byte>, t: seq<byte>, n: nat, j: nat)
    requires n <= |t| && At(d, t[..n], j)
    ensures At(d, t, j)
  {
    assert t[..n][j..j + |d|] == t[j..j + |d|];
  }

  /** Cuts in part data are clean. */
  lemma DataCutsClean(b: seq<byte>, c: Conf, pieces: seq<seq<byte>>)
    requires b != [] && c.state.PartData? && [] !in pieces
    requires forall k :: 0 < k < |pieces| ==> !Occurs(Delimiter(b), Flatten(pieces[..k]))
    ensures CleanCuts(b, c, pieces)
  {
    hide OnByte, Searching, Push, Feed, Calls, Flatten, Occurs, EndsAtCr, DeliversName;
    forall k | 0 < k < |pieces|
      ensures InData(Calls(b, c, pieces[..k]).state)
    {
      var s := Flatten(pieces[..k]);
      FieldsAgree(b, c, pieces[..k]);
      Searches(b, Enter(c), s);
      SearchState(b, Enter(c), s, Feed(b, Enter(c), s));
    }
  }

  /** Part data cut anywhere: what the calls so far delivered and what the parser holds back are the data. */
  lemma {:induction false} DataInPieces(b: seq<byte>, c: Conf, pieces: seq<seq<byte>>)
    requires b != [] && c.state.PartData? && [] !in pieces && !Occurs(Delimiter(b), Flatten(pieces))
    ensures var d := Calls(b, c, pieces);
            var s, held := Flatten(pieces), LookBehind(b, d);
            && d.ok && InData(d.state) && d.used == |s|
            && |held| <= |s| && s[|s| - |held|..] == held
            && d.log == if s == [] then c.log else Push(c.log, Emit(KData, s[..|s| - |held|]))
  {
    hide OnByte, Push, Feed, Calls, Flatten, Occurs;
    var s := Flatten(pieces);
    Searches(b, Enter(c), s);
    forall k | 0 < k < |pieces|
      ensures !Occurs(Delimiter(b), Flatten(pieces[..k]))
    {
      assert pieces == pieces[..k] + pieces[k..];
      FlattenConcat(pieces[..k], pieces[k..]);
      OccursLater(Delimiter(b), Flatten(pieces[..k]), Flatten(pieces[k..]));
    }
    FieldsAgree(b, c, pieces);
    DataCutsClean(b, c, pieces);
    CallbacksAgree(b, c, pieces);
  }

  /** Part data and its delimiter, cut anywhere. */
  lemma {:induction false} PartInPieces(b: seq<byte>, c: Conf, s: seq<byte>, pieces: seq<seq<byte>>)
    requires b != [] && CR !in b && c.state.PartData? && [] !in pieces
    requires Flatten(pieces) == s + Delimiter(b) && !Occurs(Delimiter(b), s)
    ensures var d := Calls(b, c, pieces);
            && d.ok && d.state.PartDataAlmostEnd? && d.used == |s| + |b| + 2
            && d.log == Push(Push(c.log, Emit(KData, s)), Notice(PartDataEnded))
  {
    hide OnByte, Push, Feed, Calls, Flatten, Occurs;
    DelimiterFound(b, Enter(c), s);
    forall k | 0 < k < |pieces|
      ensures !Occurs(Delimiter(b), Flatten(pieces[..k]))
    {
      var x, y := Flatten(pieces[..k]), Flatten(pieces[k..]);
      assert pieces == pieces[..k] + pieces[k..];
      FlattenConcat(pieces[..k], pieces[k..]);
      FlattenNonEmpty(pieces[k..]);
      if Occurs(Delimiter(b), x) {
        EarlierEnd(b, c, s, x, y);
      }
    }
    FieldsAgree(b, c, pieces);
    DataCutsClean(b, c, pieces);
    CallbacksAgree(b, c, pieces);
  }

  /** No proper beginning of `s` and its delimiter holds a delimiter. */
  lemma EarlierEnd(b: seq<byte>, c: Conf, s: seq<byte>, x: seq<byte>, y: seq<byte>)
    requires CR !in b && x + y == s + Delimiter(b) && y != [] && Occurs(Delimiter(b), x)
    ensures Occurs(Delimiter(b), s)
  {
    var i: nat :| i <= |x| && At(Delimiter(b), x, i);
    var n, w := i + |b| + 2, s + Delimiter(b);
    assert x == (x + y)[..|x|];
    assert w[i..n] == x[i..n];
    assert forall m | i <= m < n :: w[m] == w[i..n][m - i];
    assert forall m | 0 < m < |b| + 2 :: Delimiter(b)[m] != CR;
    assert w[|s|] == CR;
    assert n <= |s|;
    assert w[i..n] == s[i..n];
    assert At(Delimiter(b), s, i);
  }

  lemma FlattenConcat(x: seq<seq<byte>>, y: seq<seq<byte>>)
    ensures Flatten(x + y) == Flatten(x) + Flatten(y)
  {
    if x == [] {
      assert x + y == y;
    } else {
      assert (x + y)[1..] == x[1..] + y;
    }
  }

  lemma FlattenNonEmpty(x: seq<seq<byte>>)
    requires x != [] && [] !in x
    ensures Flatten(x) != []
  {
    assert x[0] in x;
  }
}
