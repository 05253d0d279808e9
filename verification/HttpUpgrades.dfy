/**
  The field `upgrade` tells a caller that a call has returned before the end of its buffer, because what
  follows is not HTTP: it is clear while messages are read, and set when the machine leaves for good.
 */
module HttpUpgrades {
  import opened Common
  import opened Events
  import opened HttpTypes
  import opened HttpSwitch
  import opened HttpSpec

  /** What a pass of the switch does to a clear `upgrade`. */
  predicate StaysClear(a: Arm, ch: byte) {
    && !a.go.Exit? && (a.go.Next? ==> !a.f.upgrade)
    && (a.go.Again? && a.f.upgrade ==> a.f.state.HeadersDone? && ch == LF)
  }

  lemma StartClear(f: Fields, ch: byte)
    requires !f.upgrade
    ensures StaysClear(StartSwitch(f, ch), ch)
  {
    hide FirstMethod;
  }

  lemma RequestClear(f: Fields, ch: byte)
    requires !f.upgrade
    ensures StaysClear(RequestSwitch(f, ch), ch)
  {
    hide StepMethod, UrlChar, FirstMethod;
  }

  lemma HeaderClear(hc: Fields -> int, f: Fields, ch: byte)
    requires !f.upgrade
    ensures StaysClear(HeaderSwitch(hc, f, ch), ch)
  {
    hide StepName, Matching, Accumulate, Lower, Token, NeedsEof, FirstHeaderState, NewMessage;
  }

  lemma BodyClear(f: Fields, ch: byte)
    requires !f.upgrade
    ensures StaysClear(BodySwitch(f, ch), ch)
  {
    hide Accumulate, Unhex, NewMessage;
  }

  lemma SwitchClear(hc: Fields -> int, f: Fields, ch: byte)
    requires !f.upgrade && !Swallows(f.state)
    ensures StaysClear(Switch(hc, f, ch), ch)
  {
    hide HeaderSwitch, RequestSwitch, BodySwitch, StartSwitch, StaysClear;
    StartClear(f, ch);
    RequestClear(f, ch);
    HeaderClear(hc, f, ch);
    BodyClear(f, ch);
  }

  lemma DoneLeaves(hc: Fields -> int, f: Fields)
    requires f.state.HeadersDone? && f.upgrade
    ensures var a := Switch(hc, f, LF); a.go.Exit? && a.f.upgrade
  {
    hide StartSwitch, RequestSwitch, BodySwitch, FieldStartArm, FieldArm, ValueStartArm, ValueArm,
      HeaderAlmostDoneArm, LwsArm, HeadersAlmostDoneArm;
  }

  lemma {:induction false} DispatchClear(hc: Fields -> int, f: Fields, log: HttpLog, ch: byte)
    requires f.upgrade ==> f.state.HeadersDone? && ch == LF
    ensures var r := Dispatch(hc, f, log, ch);
            (r.go.Next? ==> !r.f.upgrade) && (r.go.Exit? ==> r.f.upgrade)
    decreases Rank(f.state)
  {
    hide Switch, Heard, Push;
    if f.state.BodyIdentity? {
      var g := f.(contentLength := Max(f.contentLength - 1, 0));
      if g.contentLength == 0 {
        DispatchClear(hc, g.(state := MessageDone), Push(log, Data(KBody, [ch])), ch);
      }
    } else if !Swallows(f.state) {
      var a := Switch(hc, f, ch);
      DispatchSwitch(hc, f, log, ch);
      if f.upgrade {
        DoneLeaves(hc, f);
      } else {
        SwitchClear(hc, f, ch);
        if a.go.Again? {
          AgainRank(hc, f, ch);
          DispatchClear(hc, a.f, Heard(log, a, ch), ch);
        }
      }
    }
  }

  /** From a clear `upgrade`, it is set exactly when the machine has left. */
  lemma {:induction false} FeedClear(hc: Fields -> int, c: Conf, s: seq<byte>)
    requires c.run.Going? && !c.f.upgrade
    ensures var d := Feed(hc, c, s); !d.run.Failed? ==> (d.run.Exited? <==> d.f.upgrade)
    decreases |s|
  {
    hide Dispatch;
    if s != [] {
      FeedClear(hc, c, s[..|s| - 1]);
      var d := Feed(hc, c, s[..|s| - 1]);
      if d.run.Going? {
        DispatchClear(hc, Count(d.f), d.log, s[|s| - 1]);
      }
    }
  }
}
