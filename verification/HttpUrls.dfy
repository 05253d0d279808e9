/** What the URL automaton of parse_url_char accepts, as a grammar. */
module HttpUrls {
  import opened Common
  import opened HttpTypes
  import opened HttpSwitch
  import opened HttpRequests

  /** A printable byte other than the space. */
  predicate Graphic(b: byte) { 33 <= b <= 126 }

  predicate AllGraphic(t: seq<byte>) { forall b <- t :: Graphic(b) }

  predicate HostByte(b: byte) { IsUserinfoChar(b) || b == '[' as int || b == ']' as int || b == '@' as int }

  /** User information, host and port, without two at-signs in a row, and then a path or a query. */
  predicate Authority(prev: byte, t: seq<byte>)
    decreases |t|
  {
    || t == []
    || ((t[0] == '/' as int || t[0] == '?' as int) && AllGraphic(t))
    || (HostByte(t[0]) && !(prev == '@' as int && t[0] == '@' as int) && Authority(t[0], t[1..]))
  }

  /** The rest of a scheme, "://", and at least one byte of what follows. */
  predicate AfterScheme(t: seq<byte>)
    decreases |t|
  {
    if t != [] && IsAlpha(t[0]) then AfterScheme(t[1..])
    else |t| > 3 && t[0] == ':' as int && t[1] == '/' as int && t[2] == '/' as int && Authority(0, t[3..])
  }

  /** The targets of a request: a path, an asterisk, or an absolute URL; with CONNECT, an authority. */
  predicate UrlText(verb: nat, t: seq<byte>) {
    && t != []
    && if verb == CONNECT_METHOD then Authority(0, t)
       else ((t[0] == '/' as int || t[0] == '*' as int) && AllGraphic(t)) || (IsAlpha(t[0]) && AfterScheme(t[1..]))
  }

  lemma {:induction false} AfterCons(s: State, ch: byte, t: seq<byte>)
    ensures UrlAfter(s, [ch] + t) == UrlAfter(UrlChar(s, ch), t)
    decreases |t|
  {
    hide UrlChar;
    if t == [] {
      assert [ch] + t == [ch] && [ch][..0] == [];
      assert UrlAfter(s, []) == s;
    } else {
      var init, last := t[..|t| - 1], t[|t| - 1];
      AfterCons(s, ch, init);
      assert ([ch] + t)[..|t|] == [ch] + init;
    }
  }

  /** The automaton on a text by its first byte. */
  lemma AfterFirst(s: State, t: seq<byte>)
    requires t != []
    ensures UrlAfter(s, t) == UrlAfter(UrlChar(s, t[0]), t[1..])
  {
    assert t == [t[0]] + t[1..];
    AfterCons(s, t[0], t[1..]);
  }

  lemma {:induction false} DeadRun(t: seq<byte>)
    ensures UrlAfter(Dead, t) == Dead
    decreases |t|
  {
    hide UrlChar;
    if t != [] {
      DeadRun(t[..|t| - 1]);
      DeadStays(t[|t| - 1]);
    }
  }

  /** Path, query and fragment. */
  predicate InRest(s: State) {
    s.ReqPath? || s.ReqQueryStringStart? || s.ReqQueryString? || s.ReqFragmentStart? || s.ReqFragment?
  }

  lemma RestStep(s: State, ch: byte)
    requires InRest(s)
    ensures if Graphic(ch) then InRest(UrlChar(s, ch)) else UrlChar(s, ch) == Dead
  {
    hide ServerChar, IsAlpha;
  }

  lemma {:induction false} RestRun(s: State, t: seq<byte>)
    requires InRest(s)
    ensures MayEnd(UrlAfter(s, t)) <==> AllGraphic(t)
    decreases |t|
  {
    hide UrlChar, Graphic;
    if t != [] {
      AfterFirst(s, t);
      RestStep(s, t[0]);
      assert t == [t[0]] + t[1..];
      if Graphic(t[0]) {
        RestRun(UrlChar(s, t[0]), t[1..]);
      } else {
        DeadRun(t[1..]);
      }
    }
  }

  predicate AtHost(s: State, prev: byte) {
    (s.ReqServerWithAt? && prev == '@' as int) || ((s.ReqServerStart? || s.ReqServer?) && prev != '@' as int)
  }

  lemma HostStep(s: State, prev: byte, ch: byte)
    requires AtHost(s, prev)
    ensures var next := UrlChar(s, ch);
            if ch == '/' as int || ch == '?' as int then InRest(next) && Graphic(ch) && !HostByte(ch)
            else if HostByte(ch) && !(prev == '@' as int && ch == '@' as int) then
              AtHost(next, ch) && !next.ReqServerStart?
            else next == Dead
  {
    hide IsUrlChar, IsUserinfoChar, IsAlpha;
    NoHostBytes();
  }

  lemma NoHostBytes()
    ensures forall b: byte <- [SP, CR, LF, HT, FF, 47, 63, 64] :: !IsUserinfoChar(b)
  {
  }

  lemma {:induction false} HostRun(s: State, prev: byte, t: seq<byte>)
    requires AtHost(s, prev) && (t == [] ==> !s.ReqServerStart?)
    ensures MayEnd(UrlAfter(s, t)) <==> Authority(prev, t)
    decreases |t|
  {
    hide UrlChar, Graphic, HostByte, AllGraphic;
    if t != [] {
      var next := UrlChar(s, t[0]);
      AfterFirst(s, t);
      HostStep(s, prev, t[0]);
      if t[0] == '/' as int || t[0] == '?' as int {
        RestRun(next, t[1..]);
        GraphicCons(t);
      } else if next == Dead {
        DeadRun(t[1..]);
      } else {
        HostRun(next, t[0], t[1..]);
      }
    }
  }

  lemma GraphicCons(t: seq<byte>)
    requires t != []
    ensures AllGraphic(t) <==> Graphic(t[0]) && AllGraphic(t[1..])
  {
    hide Graphic;
    assert t == [t[0]] + t[1..];
  }

  lemma SchemeStep(ch: byte)
    ensures UrlChar(ReqSchema, ch)
            == if IsAlpha(ch) then ReqSchema else if ch == ':' as int then ReqSchemaSlash else Dead
    ensures UrlChar(ReqSchemaSlash, ch) == if ch == '/' as int then ReqSchemaSlashSlash else Dead
    ensures UrlChar(ReqSchemaSlashSlash, ch) == if ch == '/' as int then ReqServerStart else Dead
  {
    hide IsUrlChar, ServerChar;
  }

  lemma {:induction false} SchemeRun(t: seq<byte>)
    ensures MayEnd(UrlAfter(ReqSchema, t)) <==> AfterScheme(t)
    decreases |t|
  {
    hide UrlChar, IsAlpha, Authority;
    if t != [] {
      AfterFirst(ReqSchema, t);
      SchemeStep(t[0]);
      if IsAlpha(t[0]) {
        SchemeRun(t[1..]);
      } else if t[0] == ':' as int {
        SlashesRun(t[1..]);
      } else {
        DeadRun(t[1..]);
      }
    }
  }

  lemma SlashesRun(t: seq<byte>)
    ensures MayEnd(UrlAfter(ReqSchemaSlash, t))
       <==> |t| > 2 && t[0] == '/' as int && t[1] == '/' as int && Authority(0, t[2..])
  {
    hide UrlChar, Authority;
    if t != [] {
      AfterFirst(ReqSchemaSlash, t);
      SchemeStep(t[0]);
      if t[0] != '/' as int {
        DeadRun(t[1..]);
      } else if |t| > 1 {
        AfterFirst(ReqSchemaSlashSlash, t[1..]);
        SchemeStep(t[1]);
        if t[1] != '/' as int {
          DeadRun(t[1..][1..]);
        } else {
          assert t[1..][1..] == t[2..];
          if |t| > 2 {
            HostRun(ReqServerStart, 0, t[2..]);
          }
        }
      }
    }
  }

  lemma FirstStep(ch: byte)
    ensures UrlChar(ReqSpacesBeforeUrl, ch)
         == if ch == '/' as int || ch == '*' as int then ReqPath else if IsAlpha(ch) then ReqSchema else Dead
  {
  }

  /** The automaton accepts exactly the texts of the grammar. */
  lemma TargetIff(verb: nat, t: seq<byte>)
    ensures Target(verb, t) <==> UrlText(verb, t)
  {
    hide UrlChar, IsAlpha, AfterScheme, AllGraphic, MayEnd, Authority;
    if t != [] {
      if verb == CONNECT_METHOD {
        HostRun(ReqServerStart, 0, t);
      } else {
        AfterFirst(ReqSpacesBeforeUrl, t);
        FirstStep(t[0]);
        GraphicCons(t);
        if t[0] == '/' as int || t[0] == '*' as int {
          RestRun(ReqPath, t[1..]);
          PathStarts(t[0]);
        } else if IsAlpha(t[0]) {
          SchemeRun(t[1..]);
        } else {
          DeadRun(t[1..]);
          NotDead();
        }
      }
    }
  }

  lemma PathStarts(ch: byte)
    requires ch == '/' as int || ch == '*' as int
    ensures Graphic(ch) && !IsAlpha(ch)
  {
  }

  lemma NotDead()
    ensures !MayEnd(Dead)
  {
  }

  /** "a:///": a target of GET without a host. */
  lemma HostlessTarget(t: seq<byte>)
    requires t == [97, 58, 47, 47, 47]
    ensures Target(1, t)
  {
    var s := t[1..];
    var rest := s[3..];
    assert rest == [47] && AllGraphic(rest);
    assert Authority(0, rest);
    assert AfterScheme(s);
    TargetIff(1, t);
  }
}
