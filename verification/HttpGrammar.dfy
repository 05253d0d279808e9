/**
  The order of the callbacks of a request parser and of a response parser, as a finite automaton over its
  log: begin, URL or status, names and values, headers complete, body, trailer names and values, message
  complete.
 */
module HttpGrammar {
  import opened Common
  import opened Events
  import opened HttpTypes
  import opened HttpSwitch
  import opened HttpSpec
  import opened HttpParser

  datatype Phase = Idle | Begun | AtUrl | AtStatus | AtFields | AtBody | AtTrailer | Wrong

  /** A response may begin several times, and needs no status_complete; a request begins once, with its URL. */
  function NextPhase(resp: bool, q: Phase, e: HttpEvent): Phase {
    match e
    case Notice(n) =>
      if n.MessageBegin? && (q.Idle? || (resp && q.Begun?)) then Begun
      else if n.StatusComplete? && resp && q.Begun? then AtStatus
      else if n.HeadersComplete? && (AfterLine(resp, q) || q.AtFields?) then AtBody
      else if n.MessageComplete? && (q.AtBody? || q.AtTrailer?) then Idle
      else Wrong
    case Data(k, _) =>
      if k.KUrl? && !resp && (q.Begun? || q.AtUrl?) then AtUrl
      else if k.KField? && (AfterLine(resp, q) || q.AtFields?) then AtFields
      else if k.KValue? && q.AtFields? then AtFields
      else if k.KBody? && q.AtBody? then AtBody
      else if k.KField? && (q.AtBody? || q.AtTrailer?) then AtTrailer
      else if k.KValue? && q.AtTrailer? then AtTrailer
      else Wrong
  }

  /** Headers may follow: the request line, or the status line, is over. */
  predicate AfterLine(resp: bool, q: Phase) { if resp then q.Begun? || q.AtStatus? else q.AtUrl? }

  /** The phase that a log of callbacks, oldest first, leads to. */
  function PhaseOf(resp: bool, log: HttpLog): Phase {
    if log == [] then Idle else NextPhase(resp, PhaseOf(resp, log[..|log| - 1]), log[|log| - 1])
  }

  /** The automaton does not see how data is cut into pieces. */
  lemma PhasePush(resp: bool, log: HttpLog, e: HttpEvent)
    ensures PhaseOf(resp, Push(log, e)) == NextPhase(resp, PhaseOf(resp, log), e)
  {
    var pushed := Push(log, e);
    if log != [] && pushed != log + [e] {
      var init := log[..|log| - 1];
      assert pushed[..|pushed| - 1] == init;
    } else {
      assert (log + [e])[..|log|] == log;
    }
  }

  lemma WrongStays(resp: bool, e: HttpEvent)
    ensures NextPhase(resp, Wrong, e).Wrong?
  {
  }

  lemma {:induction false} PhasePushAll(resp: bool, log: HttpLog, es: HttpLog)
    ensures PhaseOf(resp, log).Wrong? ==> PhaseOf(resp, PushAll(log, es)).Wrong?
    decreases |es|
  {
    hide Push, NextPhase;
    if es != [] {
      PhasePushAll(resp, log, es[..|es| - 1]);
      PhasePush(resp, PushAll(log, es[..|es| - 1]), es[|es| - 1]);
      WrongStays(resp, es[|es| - 1]);
    }
  }

  lemma {:induction false} PhaseMerged(resp: bool, log: HttpLog)
    ensures PhaseOf(resp, Merged(log)) == PhaseOf(resp, log)
    decreases |log|
  {
    hide Push, NextPhase;
    if log != [] {
      var init, last := log[..|log| - 1], log[|log| - 1];
      PhaseMerged(resp, init);
      assert log == init + [last];
      MergedSnoc(init, last);
      PhasePush(resp, Merged(init), last);
    }
  }

  // ---- the automaton and the machine -----------------------------------------------

  predicate InResponseLine(s: State) {
    s.ResH? || s.ResHT? || s.ResHTT? || s.ResHTTP? || s.ResFirstHttpMajor? || s.ResHttpMajor? || s.ResFirstHttpMinor?
    || s.ResHttpMinor? || s.ResFirstStatusCode? || s.ResStatusCode? || s.ResStatus? || s.ResLineAlmostDone?
  }

  /** The phases in which a machine can be in a state that only requests, or only responses, have. */
  predicate LineSuits(f: Fields, q: Phase) {
    var s := f.state;
    if f.typ.Response? then
      (s.StartRes? && (q.Idle? || q.Begun?)) || (InResponseLine(s) && q.Begun? && !f.flags.trailing)
    else
      || (s.StartReq? && q.Idle?)
      || ((s.ReqMethod? || s.ReqSpacesBeforeUrl?) && q.Begun? && !f.flags.trailing)
      || (InRequestLine(s) && !s.StartReq? && !s.ReqMethod? && !s.ReqSpacesBeforeUrl? && q.AtUrl? && !f.flags.trailing)
  }

  /** The phases in which a machine can be in its state. */
  predicate Suits(f: Fields, q: Phase) {
    var s := f.state;
    && !f.typ.Both?
    && if s.Dead? then q.Idle?
       else if s.HeaderFieldStart? || s.HeadersAlmostDone? then
         if f.flags.trailing then q.AtBody? || q.AtTrailer? else AfterLine(f.typ.Response?, q) || q.AtFields?
       else if s.HeaderField? || s.HeaderValueStart? || s.HeaderValue? || s.HeaderAlmostDone? || s.HeaderValueLws? then
         if f.flags.trailing then q.AtTrailer? else q.AtFields?
       else if s.HeadersDone? || InBody(s) then q.AtBody? && (s.BodyIdentityEof? ==> f.typ.Response?)
       else LineSuits(f, q)
  }

  /** `Suits`, spelled out for the states of the first line and the one behind it. */
  lemma SuitsLine(f: Fields, q: Phase)
    ensures f.state.StartRes? || InResponseLine(f.state) ==>
              && Live(f.state).None? && !f.state.HeaderFieldStart? && !InRequestLine(f.state)
              && (Suits(f, q) <==>
                    && f.typ.Response?
                    && if f.state.StartRes? then q.Idle? || q.Begun? else q.Begun? && !f.flags.trailing)
    ensures InRequestLine(f.state) ==>
              && (Live(f.state) == if UrlState(f.state) then Some(KUrl) else None) && !f.state.HeaderFieldStart?
              && (Suits(f, q) <==>
                    && f.typ.Request?
                    && if f.state.StartReq? then q.Idle?
                       else !f.flags.trailing
                            && if f.state.ReqMethod? || f.state.ReqSpacesBeforeUrl? then q.Begun? else q.AtUrl?)
    ensures f.state.HeaderFieldStart? && !f.flags.trailing ==>
              Live(f.state).None? && (Suits(f, q) <==> !f.typ.Both? && (AfterLine(f.typ.Response?, q) || q.AtFields?))
  {
  }

  lemma RequestLineStates(s: State)
    ensures InVersion(s) ==> InRequestLine(s) && !UrlState(s) && !s.StartReq? && !s.ReqMethod? && !s.ReqSpacesBeforeUrl?
    ensures UrlState(s) ==> InRequestLine(s) && !s.StartReq? && !s.ReqMethod? && !s.ReqSpacesBeforeUrl?
    ensures s.StartReq? || s.ReqMethod? || s.ReqSpacesBeforeUrl? ==> InRequestLine(s) && !UrlState(s)
    ensures s.ReqHttpStart? || s.ReqLineAlmostDone? ==> InVersion(s)
  {
  }

  /** The phase after what one pass through the switch is heard as. */
  function PhaseHeard(resp: bool, q: Phase, a: Arm): Phase {
    var called :=
      match a.call
      case NoCall => q
      case NoteCall(n) => NextPhase(resp, q, Notice(n))
      case DataCall(k) => if k == KBody then q else NextPhase(resp, q, Data(k, []));
    if a.go.Next? && Live(a.f.state).Some? then NextPhase(resp, called, Data(Live(a.f.state).value, [])) else called
  }

  lemma PhaseOfHeard(resp: bool, log: HttpLog, a: Arm, ch: byte)
    ensures PhaseOf(resp, Heard(log, a, ch)) == PhaseHeard(resp, PhaseOf(resp, log), a)
  {
    hide Push, Live, PhaseOf;
    var called :=
      match a.call
      case NoCall => log
      case NoteCall(n) => Push(log, Notice(n))
      case DataCall(k) => if k == KBody then log else Push(log, Data(k, []));
    if a.call.NoteCall? {
      PhasePush(resp, log, Notice(a.call.note));
    } else if a.call.DataCall? {
      PhasePush(resp, log, Data(a.call.kind, []));
    }
    if a.go.Next? && Live(a.f.state).Some? {
      PhasePush(resp, called, Data(Live(a.f.state).value, [ch]));
    }
  }

  predicate StepSuits(resp: bool, q: Phase, a: Arm) {
    var r := PhaseHeard(resp, q, a);
    r != Wrong && (!a.go.Stop? ==> Suits(a.f, r) && a.f.typ.Response? == resp)
  }

  lemma FieldSuits(hc: Fields -> int, f: Fields, ch: byte, q: Phase)
    requires Suits(f, q) && (f.state.HeaderFieldStart? || f.state.HeaderField?)
    ensures StepSuits(f.typ.Response?, q, HeaderSwitch(hc, f, ch))
  {
    hide StepName, NameCounts, FirstHeaderState, Token, ValueStartArm, ValueArm, HeaderAlmostDoneArm, LwsArm,
      HeadersAlmostDoneArm, HeadersDoneArm;
  }

  lemma ValueSuits(hc: Fields -> int, f: Fields, ch: byte, q: Phase)
    requires Suits(f, q) && (f.state.HeaderValueStart? || f.state.HeaderValue?)
    ensures StepSuits(f.typ.Response?, q, HeaderSwitch(hc, f, ch))
  {
    hide FieldStartArm, FieldArm, ValueStartArm, ValueArm, HeaderAlmostDoneArm, LwsArm, HeadersAlmostDoneArm,
      HeadersDoneArm, Suits, StepSuits;
    if f.state.HeaderValueStart? {
      ValueStartSuits(f, ch, q);
    } else {
      ValueByteSuits(f, ch, q);
    }
  }

  lemma ValueStartSuits(f: Fields, ch: byte, q: Phase)
    requires Suits(f, q) && f.state.HeaderValueStart?
    ensures StepSuits(f.typ.Response?, q, ValueStartArm(f, ch))
  {
    hide Matching, Accumulate, Lower;
  }

  lemma ValueByteSuits(f: Fields, ch: byte, q: Phase)
    requires Suits(f, q) && f.state.HeaderValue?
    ensures StepSuits(f.typ.Response?, q, ValueArm(f, ch))
  {
    hide Matching, Accumulate, Lower;
  }

  lemma LineEndSuits(hc: Fields -> int, f: Fields, ch: byte, q: Phase)
    requires Suits(f, q) && (f.state.HeaderAlmostDone? || f.state.HeaderValueLws?)
    ensures StepSuits(f.typ.Response?, q, HeaderSwitch(hc, f, ch))
  {
    hide FieldStartArm, FieldArm, ValueStartArm, ValueArm, HeadersAlmostDoneArm, HeadersDoneArm;
  }

  lemma HeaderSuits(hc: Fields -> int, f: Fields, ch: byte, q: Phase)
    requires Suits(f, q) && InHeaders(f.state)
    ensures StepSuits(f.typ.Response?, q, HeaderSwitch(hc, f, ch))
  {
    hide FieldStartArm, FieldArm, ValueStartArm, ValueArm, HeaderAlmostDoneArm, LwsArm;
    if f.state.HeaderFieldStart? || f.state.HeaderField? {
      FieldSuits(hc, f, ch, q);
    } else if f.state.HeaderValueStart? || f.state.HeaderValue? {
      ValueSuits(hc, f, ch, q);
    } else if f.state.HeaderAlmostDone? || f.state.HeaderValueLws? {
      LineEndSuits(hc, f, ch, q);
    }
  }

  /** An arm that reads a line on, or is left through `error`. */
  predicate ReadsOn(f: Fields, a: Arm) {
    a.f.typ == f.typ && a.f.flags == f.flags && (a.go.Next? || a.go.Stop?) && (a.go.Stop? ==> a.call.NoCall?)
  }

  lemma VersionArms(f: Fields, ch: byte)
    requires InVersion(f.state)
    ensures var a := RequestSwitch(f, ch);
            && ReadsOn(f, a) && a.call.NoCall?
            && (a.go.Next? ==> InVersion(a.f.state) || a.f.state.HeaderFieldStart?)
  {
    hide U16, StartReqArm, ReqMethodArm, SpacesBeforeUrlArm, UrlStrictArm, UrlArm;
  }

  lemma VersionSuits(f: Fields, ch: byte, q: Phase)
    requires Suits(f, q) && InVersion(f.state)
    ensures StepSuits(f.typ.Response?, q, RequestSwitch(f, ch))
  {
    hide RequestSwitch, Suits, Live, UrlState, InVersion, InRequestLine;
    var a := RequestSwitch(f, ch);
    SuitsLine(f, q);
    SuitsLine(a.f, PhaseHeard(f.typ.Response?, q, a));
    RequestLineStates(f.state);
    RequestLineStates(a.f.state);
    VersionArms(f, ch);
  }

  lemma UrlArms(f: Fields, ch: byte)
    requires UrlState(f.state)
    ensures var a := RequestSwitch(f, ch);
            && ReadsOn(f, a)
            && (a.go.Next? && a.call.NoCall? ==> UrlState(a.f.state))
            && (a.call.NoCall?
                || (a.call == DataCall(KUrl)
                    && (a.f.state.ReqHttpStart? || a.f.state.ReqLineAlmostDone? || a.f.state.HeaderFieldStart?)))
  {
    hide UrlChar;
    UrlCharStays(f.state, ch);
  }

  lemma UrlSuits(f: Fields, ch: byte, q: Phase)
    requires Suits(f, q) && UrlState(f.state)
    ensures StepSuits(f.typ.Response?, q, RequestSwitch(f, ch))
  {
    hide RequestSwitch, Suits, Live, UrlState, InVersion, InRequestLine;
    var a := RequestSwitch(f, ch);
    SuitsLine(f, q);
    SuitsLine(a.f, PhaseHeard(f.typ.Response?, q, a));
    RequestLineStates(f.state);
    RequestLineStates(a.f.state);
    UrlArms(f, ch);
  }

  lemma MethodArms(f: Fields, ch: byte)
    requires f.state.StartReq? || f.state.ReqMethod? || f.state.ReqSpacesBeforeUrl?
    ensures var a := RequestSwitch(f, ch);
            && a.f.typ == f.typ && (a.f.flags == f.flags || a.f.flags == NO_FLAGS) && (a.go.Next? || a.go.Stop?)
            && (a.call.NoCall? || (f.state.StartReq? && a.call == NoteCall(MessageBegin) && a.go.Next?))
            && (a.go.Next? ==>
                  || (a.call.NoCall? && a.f.state == f.state)
                  || (a.call.NoteCall? && a.f.state.ReqMethod? && a.f.flags == NO_FLAGS)
                  || (a.call.NoCall? && f.state.ReqMethod? && a.f.state.ReqSpacesBeforeUrl? && a.f.flags == f.flags)
                  || (a.call.NoCall? && f.state.ReqSpacesBeforeUrl? && UrlState(a.f.state) && a.f.flags == f.flags))
            && (a.go.Next? && !f.state.StartReq? ==> a.f.flags == f.flags)
  {
    hide StepMethod, FirstMethod, Lower, UrlChar;
    UrlCharStays(ReqSpacesBeforeUrl, ch);
    UrlCharStays(ReqServerStart, ch);
  }

  lemma MethodSuits(f: Fields, ch: byte, q: Phase)
    requires Suits(f, q) && (f.state.StartReq? || f.state.ReqMethod? || f.state.ReqSpacesBeforeUrl?)
    ensures StepSuits(f.typ.Response?, q, RequestSwitch(f, ch))
  {
    hide RequestSwitch, Suits, Live, UrlState, InVersion, InRequestLine;
    var a := RequestSwitch(f, ch);
    SuitsLine(f, q);
    SuitsLine(a.f, PhaseHeard(f.typ.Response?, q, a));
    RequestLineStates(f.state);
    RequestLineStates(a.f.state);
    MethodArms(f, ch);
  }

  lemma RequestSuits(f: Fields, ch: byte, q: Phase)
    requires Suits(f, q) && InRequestLine(f.state)
    ensures StepSuits(f.typ.Response?, q, RequestSwitch(f, ch))
  {
    hide RequestSwitch, StepSuits, Suits;
    if InVersion(f.state) {
      VersionSuits(f, ch, q);
    } else if UrlState(f.state) {
      UrlSuits(f, ch, q);
    } else {
      MethodSuits(f, ch, q);
    }
  }

  lemma BodySuits(f: Fields, ch: byte, q: Phase)
    requires Suits(f, q) && InBody(f.state) && !Swallows(f.state)
    ensures StepSuits(f.typ.Response?, q, BodySwitch(f, ch))
  {
    hide ChunkSizeStartArm, ChunkSizeArm, ChunkParametersArm, ChunkSizeAlmostDoneArm, MessageDoneArm, Suits, StepSuits;
    if f.state.ChunkSizeAlmostDone? {
      ChunkLineSuits(f, ch, q);
    } else if f.state.MessageDone? {
      DoneSuits(f, q);
    } else {
      ChunkSuits(f, ch, q);
    }
  }

  lemma ChunkLineSuits(f: Fields, ch: byte, q: Phase)
    requires Suits(f, q) && f.state.ChunkSizeAlmostDone?
    ensures StepSuits(f.typ.Response?, q, ChunkSizeAlmostDoneArm(f, ch))
  {
  }

  lemma DoneSuits(f: Fields, q: Phase)
    requires Suits(f, q) && f.state.MessageDone?
    ensures StepSuits(f.typ.Response?, q, MessageDoneArm(f))
  {
  }

  lemma ChunkSuits(f: Fields, ch: byte, q: Phase)
    requires Suits(f, q) && InBody(f.state) && !Swallows(f.state) && !f.state.ChunkSizeAlmostDone?
             && !f.state.MessageDone?
    ensures StepSuits(f.typ.Response?, q, BodySwitch(f, ch))
  {
    hide Accumulate, Unhex, ChunkSizeAlmostDoneArm, MessageDoneArm;
  }

  lemma SwitchSuits(hc: Fields -> int, f: Fields, ch: byte, q: Phase)
    requires Suits(f, q) && !Swallows(f.state)
    ensures StepSuits(f.typ.Response?, q, Switch(hc, f, ch))
  {
    hide HeaderSwitch, RequestSwitch, BodySwitch, StepSuits;
    if InHeaders(f.state) {
      HeaderSuits(hc, f, ch, q);
    } else if InBody(f.state) {
      BodySuits(f, ch, q);
    } else if InRequestLine(f.state) {
      RequestSuits(f, ch, q);
    } else {
      StatusSuits(f, ch, q);
    }
  }

  lemma StatusArms(f: Fields, ch: byte)
    requires f.state.StartRes? || InResponseLine(f.state)
    ensures var a := StartSwitch(f, ch);
            && a.f.typ == f.typ && (a.go.Next? || a.go.Stop?) && (a.go.Stop? ==> a.call.NoCall?)
            && (a.go.Next? && f.state.StartRes? ==>
                  a.call == NoteCall(MessageBegin) && (a.f.state.StartRes? || a.f.state.ResH?) && a.f.flags == NO_FLAGS)
            && (a.go.Next? && InResponseLine(f.state) ==>
                  && a.f.flags == f.flags && (InResponseLine(a.f.state) || a.f.state.HeaderFieldStart?)
                  && (a.call.NoCall? || (a.call == NoteCall(StatusComplete) && a.f.state.HeaderFieldStart?)))
  {
    hide StartSwitch, StatusArm, StatusCodeArm, FirstStatusArm;
    if f.state.StartRes? {
      StartArms(f, ch);
    } else if f.state.ResFirstStatusCode? || f.state.ResStatusCode? || f.state.ResStatus?
              || f.state.ResLineAlmostDone? {
      CodeArms(f, ch);
    } else {
      NameArms(f, ch);
    }
  }

  lemma StartArms(f: Fields, ch: byte)
    requires f.state.StartRes?
    ensures StartSwitch(f, ch) == StartResArm(f, ch)
  {
  }

  lemma NameArms(f: Fields, ch: byte)
    requires InResponseLine(f.state)
    requires !f.state.ResFirstStatusCode? && !f.state.ResStatusCode? && !f.state.ResStatus?
             && !f.state.ResLineAlmostDone?
    ensures var a := StartSwitch(f, ch);
            && ReadsOn(f, a) && a.call.NoCall? && (a.go.Next? ==> InResponseLine(a.f.state))
  {
    hide U16, StatusArm, StatusCodeArm, FirstStatusArm, StartResArm, StartReqOrResArm, ResOrRespHArm, DeadArm,
      ResLineAlmostDoneArm;
  }

  lemma CodeArms(f: Fields, ch: byte)
    requires f.state.ResFirstStatusCode? || f.state.ResStatusCode? || f.state.ResStatus? || f.state.ResLineAlmostDone?
    ensures var a := StartSwitch(f, ch);
            && ReadsOn(f, a)
            && (a.go.Next? ==>
                  && (InResponseLine(a.f.state) || a.f.state.HeaderFieldStart?)
                  && (a.call.NoCall? || (a.call == NoteCall(StatusComplete) && a.f.state.HeaderFieldStart?)))
  {
    hide U16, StartResArm, StartReqOrResArm, ResOrRespHArm, DeadArm, Expect, FirstMajorArm, MajorArm, FirstMinorArm,
      ResMinorArm;
  }

  lemma StatusSuits(f: Fields, ch: byte, q: Phase)
    requires Suits(f, q) && (f.state.Dead? || f.state.StartRes? || InResponseLine(f.state))
    ensures StepSuits(f.typ.Response?, q, StartSwitch(f, ch))
  {
    if f.state.Dead? {
      DeadSuits(f, ch, q);
    } else {
      hide StartSwitch, Suits, Live, InResponseLine, InRequestLine;
      var a := StartSwitch(f, ch);
      SuitsLine(f, q);
      SuitsLine(a.f, PhaseHeard(f.typ.Response?, q, a));
      StatusArms(f, ch);
    }
  }

  lemma DeadSuits(f: Fields, ch: byte, q: Phase)
    requires Suits(f, q) && f.state.Dead?
    ensures StepSuits(f.typ.Response?, q, StartSwitch(f, ch))
  {
  }

  lemma {:induction false} DispatchSuits(hc: Fields -> int, f: Fields, log: HttpLog, ch: byte)
    requires Suits(f, PhaseOf(f.typ.Response?, log))
    ensures var r := Dispatch(hc, f, log, ch);
            && PhaseOf(f.typ.Response?, r.log) != Wrong
            && (!r.go.Stop? ==> Suits(r.f, PhaseOf(f.typ.Response?, r.log)) && r.f.typ.Response? == f.typ.Response?)
    decreases Rank(f.state)
  {
    hide Switch, Heard, Push, PhaseOf, PhaseHeard;
    PhasePush(f.typ.Response?, log, Data(KBody, [ch]));
    if f.state.BodyIdentity? {
      var g := f.(contentLength := Max(f.contentLength - 1, 0));
      if g.contentLength == 0 {
        DispatchSuits(hc, g.(state := MessageDone), Push(log, Data(KBody, [ch])), ch);
      }
    } else if !Swallows(f.state) {
      var a := Switch(hc, f, ch);
      SwitchSuits(hc, f, ch, PhaseOf(f.typ.Response?, log));
      PhaseOfHeard(f.typ.Response?, log, a, ch);
      DispatchSwitch(hc, f, log, ch);
      if a.go.Again? {
        DispatchSuits(hc, a.f, Heard(log, a, ch), ch);
      }
    }
  }

  lemma CountSuits(f: Fields, q: Phase)
    requires Suits(f, q)
    ensures Suits(Count(f), q) && q != Wrong && Count(f).typ == f.typ
  {
  }

  /** Whatever is fed, the log stays a prefix of a sequence of whole messages. */
  lemma {:induction false} FeedSuits(hc: Fields -> int, c: Conf, s: seq<byte>)
    requires c.run.Going? && Suits(c.f, PhaseOf(c.f.typ.Response?, c.log))
    ensures var d, resp := Feed(hc, c, s), c.f.typ.Response?;
            && PhaseOf(resp, d.log) != Wrong
            && (!d.run.Failed? ==> Suits(d.f, PhaseOf(resp, d.log)) && d.f.typ.Response? == resp)
    decreases |s|
  {
    hide Dispatch, PhaseOf, Suits, Count;
    CountSuits(c.f, PhaseOf(c.f.typ.Response?, c.log));
    if s != [] {
      FeedSuits(hc, c, s[..|s| - 1]);
      var d := Feed(hc, c, s[..|s| - 1]);
      if d.run.Going? {
        CountSuits(d.f, PhaseOf(c.f.typ.Response?, d.log));
        DispatchSuits(hc, Count(d.f), d.log, s[|s| - 1]);
      }
    }
  }

  // ---- what the automaton means ----------------------------------------------------

  function Times(log: HttpLog, n: Note): nat {
    if log == [] then 0 else Times(log[..|log| - 1], n) + if log[|log| - 1] == Notice(n) then 1 else 0
  }

  /**
    Each message begins once, completes its headers once and completes once, in this order; a response
    begins at least once, and completes its status once at most.
   */
  lemma {:induction false} NotesAlternate(resp: bool, log: HttpLog)
    requires PhaseOf(resp, log) != Wrong
    ensures var q, done := PhaseOf(resp, log), Times(log, MessageComplete);
            && (!resp ==> Times(log, MessageBegin) == done + (if q.Idle? then 0 else 1))
            && Times(log, MessageBegin) >= done + (if q.Idle? then 0 else 1)
            && Times(log, HeadersComplete) == done + (if q.AtBody? || q.AtTrailer? then 1 else 0)
            && Times(log, StatusComplete) <= done + (if q.Idle? || q.Begun? || !resp then 0 else 1)
            && (!resp ==> Times(log, StatusComplete) == 0)
    decreases |log|
  {
    if log != [] {
      NotesAlternate(resp, log[..|log| - 1]);
    }
  }

  /** No data of a message's headers, and no headers_complete, comes after body data of that message. */
  lemma {:induction false} BodyIsLast(resp: bool, log: HttpLog, i: nat, j: nat)
    requires PhaseOf(resp, log) != Wrong && i < j < |log|
    requires log[i].Data? && log[i].kind.KBody?
    requires forall k :: i < k < j ==> log[k] != Notice(MessageComplete)
    ensures log[j] != Notice(HeadersComplete) && log[j] != Notice(MessageBegin) && !(log[j].Data? && log[j].kind.KUrl?)
  {
    PhasePrefix(resp, log, j);
    PhasePrefix(resp, log, j + 1);
    assert log[..j + 1][..j] == log[..j];
    AfterBody(resp, log, i, j);
  }

  lemma {:induction false} PhasePrefix(resp: bool, log: HttpLog, n: nat)
    requires n <= |log|
    ensures PhaseOf(resp, log) != Wrong ==> PhaseOf(resp, log[..n]) != Wrong
    decreases |log| - n
  {
    if n == |log| {
      assert log[..n] == log;
    } else {
      PhasePrefix(resp, log, n + 1);
      assert log[..n + 1][..n] == log[..n];
    }
  }

  lemma {:induction false} AfterBody(resp: bool, log: HttpLog, i: nat, j: nat)
    requires i < j <= |log| && PhaseOf(resp, log[..j]) != Wrong
    requires log[i].Data? && log[i].kind.KBody?
    requires forall k :: i < k < j ==> log[k] != Notice(MessageComplete)
    ensures PhaseOf(resp, log[..j]).AtBody? || PhaseOf(resp, log[..j]).AtTrailer?
    decreases j
  {
    assert log[..j][..j - 1] == log[..j - 1];
    if j - 1 > i {
      PhasePrefix(resp, log[..j], j - 1);
      AfterBody(resp, log, i, j - 1);
    }
  }

  // ---- the buffered parser ---------------------------------------------------------

  /** The log of a parser is in step with its state. */
  ghost predicate InStep(parser: HttpParser)
    reads parser
  {
    Suits(parser.f, PhaseOf(parser.f.typ.Response?, parser.log))
  }

  /** A new parser is in step, and every call keeps it so or fails; even then the log is in order. */
  method NewParser(t: ParserType, hc: Fields -> int) returns (parser: HttpParser)
    requires !t.Both?
    ensures fresh(parser) && parser.Valid() && parser.f.errno.OK? && parser.hc == hc && parser.f.typ == t
    ensures InStep(parser)
  {
    parser := new HttpParser(t, hc);
  }

  /** The end of the input completes a body that lasts until then; the parser is not to be used after that. */
  method ExecuteInStep(parser: HttpParser, data: seq<byte>) returns (used: nat)
    requires parser.Valid() && parser.f.errno.OK? && InStep(parser)
    modifies parser
    ensures parser.Valid() && PhaseOf(old(parser.f.typ.Response?), parser.log) != Wrong
    ensures parser.f.errno.OK? && (data != [] || !old(parser.f.state.BodyIdentityEof?)) ==>
              InStep(parser) && parser.f.typ.Response? == old(parser.f.typ.Response?)
  {
    hide Feed, PhaseOf, OnByte, Merged, PushAll, WellFormed, NextPhase;
    ghost var resp, start := parser.f.typ.Response?, parser.Now();
    PhaseMerged(resp, parser.log);
    CountSuits(parser.f, PhaseOf(resp, parser.log));
    if data != [] {
      FeedSuits(parser.hc, start, data);
    }
    if parser.f.state.BodyIdentityEof? {
      EndSuits(parser.f, resp, parser.log);
    }
    ghost var lost;
    used, lost := parser.Execute(data);
    PhaseMerged(resp, parser.log);
    PhasePushAll(resp, Merged(parser.log), lost);
    PushAllNothing(Merged(parser.log));
  }

  lemma EndSuits(f: Fields, resp: bool, log: HttpLog)
    requires Suits(f, PhaseOf(resp, log)) && f.state.BodyIdentityEof?
    ensures PhaseOf(resp, log + [Notice(MessageComplete)]) != Wrong
  {
    assert (log + [Notice(MessageComplete)])[..|log|] == log;
  }
}
