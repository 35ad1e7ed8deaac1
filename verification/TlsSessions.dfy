// What the clients of server_tls_final.c do and what the server makes of it: who is let in, and
// that every message broadcast, logged and delivered is what its author's client sent.
module TlsSessions {
  import opened TlsModel
  import opened TlsRegistry
  import opened TlsHistory
  import TlsTheorems
  import TlsJoiner

  // ---- What the clients did ----

  predicate Admitted(actions: seq<Action>, h: nat)
  {
    Authenticate(h, true) in actions
  }

  predicate Refused(actions: seq<Action>, h: nat)
  {
    Authenticate(h, false) in actions
  }

  predicate HungUp(actions: seq<Action>, h: nat)
  {
    Hangup(h) in actions
  }

  // What the client of session h typed, in order.
  function Typed(actions: seq<Action>, h: nat): seq<string>
  {
    if actions == [] then []
    else
      var last := actions[|actions| - 1];
      Typed(actions[..|actions| - 1], h) + (if last.Receive? && last.h == h then [last.text] else [])
  }

  // What a session has to say: that it joined, everything typed, and that it left.
  function Script(h: nat, texts: seq<string>, left: bool): (script: seq<Msg>)
    ensures |script| == 1 + |texts| + (if left then 1 else 0)
    ensures script[0] == Msg(h, 0, Join)
    ensures forall k :: 0 <= k < |texts| ==> script[k + 1] == Msg(h, k + 1, Chat(texts[k]))
    ensures left ==> script[|texts| + 1] == Msg(h, |texts| + 1, Leave)
  {
    [Msg(h, 0, Join)] + seq(|texts|, k requires 0 <= k < |texts| => Msg(h, k + 1, Chat(texts[k])))
    + (if left then [Msg(h, |texts| + 1, Leave)] else [])
  }

  lemma ScriptGrows(h: nat, texts: seq<string>, text: string)
    ensures Script(h, texts + [text], false) == Script(h, texts, false) + [Msg(h, |texts| + 1, Chat(text))]
    ensures Script(h, texts, true) == Script(h, texts, false) + [Msg(h, |texts| + 1, Leave)]
  {
  }

  // ---- Runs from their end ----

  lemma {:induction false} LastAction(s: State, actions: seq<Action>)
    requires actions != [] && ValidRun(s, actions)
    ensures var n := |actions| - 1;
      && ValidRun(s, actions[..n]) && Enabled(Exec(s, actions[..n]), actions[n])
      && Exec(s, actions) == Apply(Exec(s, actions[..n]), actions[n])
    decreases |actions|
  {
    var n := |actions| - 1;
    if n > 0 {
      LastAction(Apply(s, actions[0]), actions[1..]);
      assert actions[1..][..n - 1] == actions[..n][1..];
    }
  }

  // An action of somebody else may write to a session's client and do nothing else to it.
  lemma OthersAction(s: State, a: Action, h: nat)
    requires TlsRegistry.Inv(s) && TlsHistory.Inv(s) && Enabled(s, a) && h < |s.handlers|
    requires a.Accept? || a.h != h
    ensures h < |Apply(s, a).handlers|
    ensures Apply(s, a).handlers[h] == s.handlers[h].(live := Apply(s, a).handlers[h].live)
    ensures By(Messages(Apply(s, a).order), h) == By(Messages(s.order), h)
  {
    if a.Run? {
      OthersStep(s, a.h, h);
    }
  }

  lemma OthersStep(s: State, g: nat, h: nat)
    requires TlsRegistry.Inv(s) && TlsHistory.Inv(s) && Enabled(s, Run(g)) && h < |s.handlers| && g != h
    ensures h < |Step(s, g).handlers|
    ensures Step(s, g).handlers[h] == s.handlers[h].(live := Step(s, g).handlers[h].live)
    ensures By(Messages(Step(s, g).order), h) == By(Messages(s.order), h)
  {
    if s.handlers[g].pc.BroadcastScan? && s.handlers[g].pc.i < |s.slots| {
      ScanStep(s, g);
    } else if s.handlers[g].pc.BroadcastLock? {
      assert SessionOk(s.order, s.log, s.handlers[g], g);
      OrderAppend(s.order, Sent(s.handlers[g].msg, s.handlers[g].pc.sender), h);
    } else {
      TlsJoiner.OtherStepFollows(s, g, h);
      QuietOrder(s, g);
    }
  }

  lemma QuietOrder(s: State, g: nat)
    requires Enabled(s, Run(g)) && !s.handlers[g].pc.BroadcastLock?
    requires !(s.handlers[g].pc.BroadcastScan? && s.handlers[g].pc.i < |s.slots|)
    ensures Step(s, g).order == s.order
  {
  }

  // ---- Who is let in ----

  // The session's client was turned away: the handler ended without having said anything.
  predicate TurnedAway(t: Handler)
  {
    t.pc.Done? && t.sent == 0
  }

  ghost predicate AdmissionOk(t: Handler, admitted: bool, refused: bool)
  {
    && !(admitted && refused)
    && (t.pc.Authenticating? <==> !admitted && !refused)
    && (TurnedAway(t) <==> refused)
    && (t.pc.Authenticating? || refused ==> t.member.Outside? && t.replayed == [] && t.sent == 0)
  }

  lemma OwnAdmission(s: State, a: Action, h: nat, admitted: bool, refused: bool)
    requires TlsRegistry.Inv(s) && TlsHistory.Inv(s) && Enabled(s, a) && !a.Accept? && a.h == h
    requires h < |s.handlers| && AdmissionOk(s.handlers[h], admitted, refused)
    ensures h < |Apply(s, a).handlers|
    ensures AdmissionOk(Apply(s, a).handlers[h], admitted || a == Authenticate(h, true),
                        refused || a == Authenticate(h, false))
  {
    assert SessionOk(s.order, s.log, s.handlers[h], h);
    if a.Run? {
      OwnStep(s, h);
    }
  }

  // A step of an admitted session turns nobody away.
  lemma OwnStep(s: State, h: nat)
    requires TlsRegistry.Inv(s) && Enabled(s, Run(h)) && PcOk(s.handlers[h], h)
    ensures h < |Step(s, h).handlers|
    ensures !Step(s, h).handlers[h].pc.Authenticating? && !TurnedAway(Step(s, h).handlers[h])
  {
    if s.handlers[h].pc.BroadcastScan? && s.handlers[h].pc.i < |s.slots| {
      ScanStep(s, h);
    }
  }

  lemma AdmissionStep(s: State, a: Action, h: nat, admitted: bool, refused: bool)
    requires TlsRegistry.Inv(s) && TlsHistory.Inv(s) && Enabled(s, a)
    requires h < |s.handlers| && AdmissionOk(s.handlers[h], admitted, refused)
    ensures h < |Apply(s, a).handlers|
    ensures AdmissionOk(Apply(s, a).handlers[h], admitted || a == Authenticate(h, true),
                        refused || a == Authenticate(h, false))
  {
    if a.Accept? || a.h != h {
      OthersAction(s, a, h);
    } else {
      OwnAdmission(s, a, h, admitted, refused);
    }
  }

  // A handler that was not there before has just been created.
  lemma NewHandler(s: State, a: Action, h: nat)
    requires Enabled(s, a) && |s.handlers| <= h < |Apply(s, a).handlers|
    ensures a.Accept? && Apply(s, a).order == s.order
    ensures Apply(s, a).handlers[h].pc.Authenticating? && AdmissionOk(Apply(s, a).handlers[h], false, false)
  {
    if a.Run? {
      StepKeepsCount(s, a.h);
    }
  }

  lemma StepKeepsCount(s: State, h: nat)
    requires Enabled(s, Run(h))
    ensures |Step(s, h).handlers| == |s.handlers|
  {
  }

  lemma {:induction false} Admission(capacity: nat, actions: seq<Action>, h: nat)
    requires ValidRun(Init(capacity), actions) && h < |Exec(Init(capacity), actions).handlers|
    ensures AdmissionOk(Exec(Init(capacity), actions).handlers[h], Admitted(actions, h), Refused(actions, h))
    decreases |actions|
  {
    if actions != [] {
      var n := |actions| - 1;
      LastAction(Init(capacity), actions);
      var a, before := actions[n], Exec(Init(capacity), actions[..n]);
      AfterLast(actions, h);
      if h < |before.handlers| {
        TlsTheorems.Reachable(capacity, actions[..n]);
        Admission(capacity, actions[..n], h);
        AdmissionStep(before, a, h, Admitted(actions[..n], h), Refused(actions[..n], h));
      } else {
        NewHandler(before, a, h);
        NobodyYet(capacity, actions[..n], h);
      }
    }
  }

  lemma AfterLast(actions: seq<Action>, h: nat)
    requires actions != []
    ensures var n, a := |actions| - 1, actions[|actions| - 1];
      && (Admitted(actions, h) <==> Admitted(actions[..n], h) || a == Authenticate(h, true))
      && (Refused(actions, h) <==> Refused(actions[..n], h) || a == Authenticate(h, false))
      && (HungUp(actions, h) <==> HungUp(actions[..n], h) || a == Hangup(h))
      && Typed(actions, h)
         == if a.Receive? && a.h == h then Typed(actions[..n], h) + [a.text] else Typed(actions[..n], h)
  {
    InLast(actions, Authenticate(h, true));
    InLast(actions, Authenticate(h, false));
    InLast(actions, Hangup(h));
  }

  lemma InLast(actions: seq<Action>, x: Action)
    requires actions != []
    ensures x in actions <==> x in actions[..|actions| - 1] || x == actions[|actions| - 1]
  {
    assert actions == actions[..|actions| - 1] + [actions[|actions| - 1]];
  }

  // Before a session exists nothing has been done for it.
  lemma {:induction false} NobodyYet(capacity: nat, actions: seq<Action>, h: nat)
    requires ValidRun(Init(capacity), actions) && h >= |Exec(Init(capacity), actions).handlers|
    ensures !Admitted(actions, h) && !Refused(actions, h) && !HungUp(actions, h) && Typed(actions, h) == []
    decreases |actions|
  {
    if actions != [] {
      var n := |actions| - 1;
      LastAction(Init(capacity), actions);
      MoreHandlers(Exec(Init(capacity), actions[..n]), actions[n]);
      assert actions == actions[..n] + [actions[n]];
      NobodyYet(capacity, actions[..n], h);
    }
  }

  lemma MoreHandlers(s: State, a: Action)
    requires Enabled(s, a)
    ensures |Apply(s, a).handlers| >= |s.handlers|
  {
  }

  ghost predicate Traceless(s: State, h: nat)
    requires h < |s.handlers|
  {
    && s.handlers[h].member.Outside? && s.handlers[h].live == [] && s.handlers[h].replayed == []
    && (forall k :: 0 <= k < |s.order| ==> s.order[k].msg.author != h)
    && (forall k :: 0 <= k < |s.log| ==> s.log[k].author != h)
    && (forall i :: 0 <= i < |s.slots| && s.slots[i].active && s.slots[i].ssl in s.heap ==> s.heap[s.slots[i].ssl] != h)
  }

  // A client whose authentication failed is gone, has been sent nothing, was never in the table,
  // and has said nothing; and every other handler that has ended was admitted.
  lemma RefusedLeavesNoTrace(capacity: nat, actions: seq<Action>, h: nat)
    requires ValidRun(Init(capacity), actions) && h < |Exec(Init(capacity), actions).handlers|
    ensures var s := Exec(Init(capacity), actions);
      && (Refused(actions, h) <==> TurnedAway(s.handlers[h]))
      && (Refused(actions, h) ==> Traceless(s, h))
  {
    Admission(capacity, actions, h);
    if Refused(actions, h) {
      TlsTheorems.Reachable(capacity, actions);
      var s := Exec(Init(capacity), actions);
      assert DeliveryOk(s, s.handlers[h]) && SessionOk(s.order, s.log, s.handlers[h], h);
      SaidNothing(s, h);
      forall i | 0 <= i < |s.slots| && s.slots[i].active && s.slots[i].ssl in s.heap
        ensures s.heap[s.slots[i].ssl] != h
      {
        assert SlotOk(s, i);
      }
    }
  }

  lemma {:induction false} NoneBy(msgs: seq<Msg>, h: nat)
    requires By(msgs, h) == []
    ensures forall k :: 0 <= k < |msgs| ==> msgs[k].author != h
  {
    if msgs != [] {
      NoneBy(msgs[..|msgs| - 1], h);
    }
  }

  lemma SaidNothing(s: State, h: nat)
    requires h < |s.handlers| && SessionOk(s.order, s.log, s.handlers[h], h) && s.handlers[h].sent == 0
    ensures forall k :: 0 <= k < |s.order| ==> s.order[k].msg.author != h
    ensures forall k :: 0 <= k < |s.log| ==> s.log[k].author != h
  {
    NoneBy(Messages(s.order), h);
    NoneBy(s.log, h);
    forall k | 0 <= k < |s.order| ensures s.order[k].msg.author != h {
      assert Messages(s.order)[k].author != h;
    }
  }

  // Whoever is or was in the table, has been sent anything, or has said anything, was admitted.
  lemma OnlyTheAdmittedTakePart(capacity: nat, actions: seq<Action>, h: nat)
    requires ValidRun(Init(capacity), actions) && h < |Exec(Init(capacity), actions).handlers|
    ensures !Traceless(Exec(Init(capacity), actions), h) ==> Admitted(actions, h)
  {
    Admission(capacity, actions, h);
    var s := Exec(Init(capacity), actions);
    if !Admitted(actions, h) {
      TlsTheorems.Reachable(capacity, actions);
      assert DeliveryOk(s, s.handlers[h]) && SessionOk(s.order, s.log, s.handlers[h], h);
      SaidNothing(s, h);
      forall i | 0 <= i < |s.slots| && s.slots[i].active && s.slots[i].ssl in s.heap
        ensures s.heap[s.slots[i].ssl] != h
      {
        assert SlotOk(s, i);
      }
    }
  }

  // ---- What is said is what was typed ----

  // Session t has announced itself, and of its script it has broadcast all but what it is about to.
  ghost predicate OnScript(entries: seq<Msg>, t: Handler, h: nat, texts: seq<string>, left: bool)
  {
    if BeforeJoin(t.pc) || TurnedAway(t) then texts == [] && !left
    else Recites(entries, t, Script(h, texts, left)) && (left <==> IsLeaving(t))
  }

  ghost predicate Recites(entries: seq<Msg>, t: Handler, script: seq<Msg>)
  {
    && |script| > 0 && |script| == t.sent + (if t.pc.BroadcastLock? then 1 else 0)
    && entries == script[..t.sent]
    && (t.pc.BroadcastLock? || Pending(t) ==> t.msg == script[|script| - 1])
  }

  predicate IsLeaving(t: Handler)
  {
    LeaveBegun(t) || (t.pc.BroadcastLock? && t.msg.body.Leave?)
  }

  lemma ReceiveScript(entries: seq<Msg>, t: Handler, t': Handler, h: nat, texts: seq<string>, text: string)
    requires t.pc.Receiving? && OnScript(entries, t, h, texts, false)
    requires t' == t.(pc := BroadcastLock(t.ssl), msg := Msg(h, t.sent, Chat(text)))
    ensures OnScript(entries, t', h, texts + [text], false)
  {
    ScriptGrows(h, texts, text);
  }

  lemma HangupScript(entries: seq<Msg>, t: Handler, t': Handler, h: nat, texts: seq<string>)
    requires t.pc.Receiving? && OnScript(entries, t, h, texts, false)
    requires t' == t.(pc := BroadcastLock(NULL), msg := Msg(h, t.sent, Leave))
    ensures OnScript(entries, t', h, texts, true)
  {
    ScriptGrows(h, texts, "");
  }

  lemma StartScript(entries: seq<Msg>, t: Handler, t': Handler, h: nat, texts: seq<string>, left: bool)
    requires t.pc.BroadcastLock? && OnScript(entries, t, h, texts, left)
    requires t' == t.(pc := BroadcastScan(t.pc.sender, 0), sent := t.sent + 1)
    ensures OnScript(entries + [t.msg], t', h, texts, left)
  {
    var script := Script(h, texts, left);
    assert script == script[..t.sent] + [script[t.sent]];
    assert script == script[..t'.sent];
  }

  lemma JoinScript(t: Handler, t': Handler, h: nat)
    requires t.pc.AddUnlock? && t.sent == 0 && t' == t.(pc := BroadcastLock(NULL), msg := Msg(h, 0, Join))
    ensures OnScript([], t', h, [], false)
  {
    assert Script(h, [], false) == [Msg(h, 0, Join)];
  }

  // The session moves on without composing a message or beginning to broadcast one.
  predicate SameStage(t: Handler, t': Handler)
  {
    && t'.sent == t.sent && !t.pc.BroadcastLock? && !t'.pc.BroadcastLock?
    && (Pending(t') ==> Pending(t) && t'.msg == t.msg)
    && (LeaveBegun(t') <==> LeaveBegun(t))
    && (BeforeJoin(t'.pc) || TurnedAway(t') <==> BeforeJoin(t.pc) || TurnedAway(t))
  }

  lemma SameStageScript(entries: seq<Msg>, t: Handler, t': Handler, h: nat, texts: seq<string>, left: bool)
    requires OnScript(entries, t, h, texts, left) && SameStage(t, t')
    ensures OnScript(entries, t', h, texts, left)
  {
  }

  lemma JoiningStage(s: State, h: nat)
    requires Enabled(s, Run(h)) && PcOk(s.handlers[h], h) && BeforeJoin(s.handlers[h].pc)
    requires !s.handlers[h].pc.AddUnlock?
    ensures h < |Step(s, h).handlers| && SameStage(s.handlers[h], Step(s, h).handlers[h])
  {
  }

  lemma TalkingStage(s: State, h: nat)
    requires Enabled(s, Run(h)) && PcOk(s.handlers[h], h)
    requires s.handlers[h].pc.BroadcastUnlock? || s.handlers[h].pc.Save? || s.handlers[h].pc.Replay?
    ensures h < |Step(s, h).handlers| && SameStage(s.handlers[h], Step(s, h).handlers[h])
  {
  }

  lemma LeavingStage(s: State, h: nat)
    requires Enabled(s, Run(h)) && PcOk(s.handlers[h], h) && AfterLeave(s.handlers[h].pc)
    ensures h < |Step(s, h).handlers| && SameStage(s.handlers[h], Step(s, h).handlers[h])
  {
  }

  lemma ScanStage(s: State, h: nat)
    requires TlsRegistry.Inv(s) && Enabled(s, Run(h)) && PcOk(s.handlers[h], h) && s.handlers[h].pc.BroadcastScan?
    ensures h < |Step(s, h).handlers| && SameStage(s.handlers[h], Step(s, h).handlers[h])
    ensures Step(s, h).order == s.order
  {
    if s.handlers[h].pc.i < |s.slots| {
      ScanStep(s, h);
    }
  }

  lemma OwnScript(s: State, a: Action, h: nat, texts: seq<string>, left: bool)
    requires TlsRegistry.Inv(s) && TlsHistory.Inv(s) && Enabled(s, a) && !a.Accept? && a.h == h
    requires h < |s.handlers| && OnScript(By(Messages(s.order), h), s.handlers[h], h, texts, left)
    ensures h < |Apply(s, a).handlers|
    ensures OnScript(By(Messages(Apply(s, a).order), h), Apply(s, a).handlers[h], h,
                     if a.Receive? then texts + [a.text] else texts, left || a.Hangup?)
  {
    assert SessionOk(s.order, s.log, s.handlers[h], h);
    if a.Run? {
      OwnStepScript(s, h, texts, left);
    } else {
      OwnChoiceScript(s, a, h, By(Messages(s.order), h), texts, left);
    }
  }

  lemma OwnChoiceScript(s: State, a: Action, h: nat, entries: seq<Msg>, texts: seq<string>, left: bool)
    requires Enabled(s, a) && !a.Accept? && !a.Run? && a.h == h && PcOk(s.handlers[h], h)
    requires OnScript(entries, s.handlers[h], h, texts, left)
    ensures Apply(s, a).order == s.order && h < |Apply(s, a).handlers|
    ensures OnScript(entries, Apply(s, a).handlers[h], h,
                     if a.Receive? then texts + [a.text] else texts, left || a.Hangup?)
  {
    var t, t' := s.handlers[h], Apply(s, a).handlers[h];
    match a {
      case Authenticate(_, _) =>
      case Receive(_, text) => ReceiveScript(entries, t, t', h, texts, text);
      case Hangup(_) => HangupScript(entries, t, t', h, texts);
    }
  }

  lemma ScriptStep(s: State, a: Action, h: nat, texts: seq<string>, left: bool)
    requires TlsRegistry.Inv(s) && TlsHistory.Inv(s) && Enabled(s, a)
    requires h < |s.handlers| && OnScript(By(Messages(s.order), h), s.handlers[h], h, texts, left)
    ensures h < |Apply(s, a).handlers|
    ensures OnScript(By(Messages(Apply(s, a).order), h), Apply(s, a).handlers[h], h,
                     if a.Receive? && a.h == h then texts + [a.text] else texts, left || a == Hangup(h))
  {
    if a.Accept? || a.h != h {
      OthersAction(s, a, h);
      OthersScript(By(Messages(s.order), h), s.handlers[h], Apply(s, a).handlers[h], h, texts, left);
    } else {
      OwnScript(s, a, h, texts, left);
    }
  }

  lemma OthersScript(entries: seq<Msg>, t: Handler, t': Handler, h: nat, texts: seq<string>, left: bool)
    requires OnScript(entries, t, h, texts, left) && t' == t.(live := t'.live)
    ensures OnScript(entries, t', h, texts, left)
  {
  }

  lemma OwnStepScript(s: State, h: nat, texts: seq<string>, left: bool)
    requires TlsRegistry.Inv(s) && Enabled(s, Run(h)) && SessionOk(s.order, s.log, s.handlers[h], h)
    requires OnScript(By(Messages(s.order), h), s.handlers[h], h, texts, left)
    ensures h < |Step(s, h).handlers|
    ensures OnScript(By(Messages(Step(s, h).order), h), Step(s, h).handlers[h], h, texts, left)
  {
    var t, entries := s.handlers[h], By(Messages(s.order), h);
    if t.pc.BroadcastLock? {
      OrderAppend(s.order, Sent(t.msg, t.pc.sender), h);
      StartScript(entries, t, Step(s, h).handlers[h], h, texts, left);
    } else if t.pc.AddUnlock? {
      JoinScript(t, Step(s, h).handlers[h], h);
    } else {
      OwnStage(s, h);
      SameStageScript(entries, t, Step(s, h).handlers[h], h, texts, left);
    }
  }

  lemma OwnStage(s: State, h: nat)
    requires TlsRegistry.Inv(s) && Enabled(s, Run(h)) && PcOk(s.handlers[h], h)
    requires !s.handlers[h].pc.BroadcastLock? && !s.handlers[h].pc.AddUnlock?
    ensures h < |Step(s, h).handlers| && SameStage(s.handlers[h], Step(s, h).handlers[h])
    ensures Step(s, h).order == s.order
  {
    var pc := s.handlers[h].pc;
    if pc.BroadcastScan? {
      ScanStage(s, h);
    } else {
      QuietOrder(s, h);
      if BeforeJoin(pc) {
        JoiningStage(s, h);
      } else if AfterLeave(pc) {
        LeavingStage(s, h);
      } else {
        TalkingStage(s, h);
      }
    }
  }

  lemma {:induction false} ScriptHolds(capacity: nat, actions: seq<Action>, h: nat)
    requires ValidRun(Init(capacity), actions) && h < |Exec(Init(capacity), actions).handlers|
    ensures var s := Exec(Init(capacity), actions);
      OnScript(By(Messages(s.order), h), s.handlers[h], h, Typed(actions, h), HungUp(actions, h))
    decreases |actions|
  {
    if actions != [] {
      var n := |actions| - 1;
      LastAction(Init(capacity), actions);
      var a, before := actions[n], Exec(Init(capacity), actions[..n]);
      AfterLast(actions, h);
      if h < |before.handlers| {
        TlsTheorems.Reachable(capacity, actions[..n]);
        ScriptHolds(capacity, actions[..n], h);
        ScriptStep(before, a, h, Typed(actions[..n], h), HungUp(actions[..n], h));
      } else {
        NewHandler(before, a, h);
        NobodyYet(capacity, actions[..n], h);
      }
    }
  }

  // All that a session is going to say, given what its client has done so far.
  function ScriptOf(actions: seq<Action>, h: nat): seq<Msg>
  {
    Script(h, Typed(actions, h), HungUp(actions, h))
  }

  // What a session has broadcast and logged is its script word for word, up to the message that
  // it has received and is about to broadcast, or has broadcast and is about to log.
  lemma SaysWhatWasTyped(capacity: nat, actions: seq<Action>, h: nat)
    requires ValidRun(Init(capacity), actions) && h < |Exec(Init(capacity), actions).handlers|
    requires !BeforeJoin(Exec(Init(capacity), actions).handlers[h].pc) && !Refused(actions, h)
    ensures var s := Exec(Init(capacity), actions);
      var t, script := s.handlers[h], ScriptOf(actions, h);
      var unsent, unlogged := if t.pc.BroadcastLock? then 1 else 0, if Pending(t) then 1 else 0;
      && By(Messages(s.order), h) == script[..|script| - unsent]
      && By(s.log, h) == script[..|script| - unsent - unlogged]
  {
    ScriptHolds(capacity, actions, h);
    Admission(capacity, actions, h);
    TlsTheorems.Reachable(capacity, actions);
    var s := Exec(Init(capacity), actions);
    assert SessionOk(s.order, s.log, s.handlers[h], h);
    RecitedAndLogged(s, h, ScriptOf(actions, h));
  }

  lemma RecitedAndLogged(s: State, h: nat, script: seq<Msg>)
    requires h < |s.handlers| && SessionOk(s.order, s.log, s.handlers[h], h)
    requires Recites(By(Messages(s.order), h), s.handlers[h], script)
    ensures var t := s.handlers[h];
      var unsent, unlogged := if t.pc.BroadcastLock? then 1 else 0, if Pending(t) then 1 else 0;
      && |script| - unsent - unlogged >= 0
      && By(Messages(s.order), h) == script[..|script| - unsent]
      && By(s.log, h) == script[..|script| - unsent - unlogged]
  {
    var t := s.handlers[h];
    assert Pending(t) ==> t.sent > 0;
    assert script[..t.sent][..Logged(t)] == script[..Logged(t)];
  }

  // m is what the client of its author did under that number.
  ghost predicate Genuine(actions: seq<Action>, m: Msg)
  {
    m.seqNo < |ScriptOf(actions, m.author)| && m == ScriptOf(actions, m.author)[m.seqNo]
  }

  lemma BroadcastIsGenuine(capacity: nat, actions: seq<Action>, m: Msg)
    requires ValidRun(Init(capacity), actions)
    requires m in Messages(Exec(Init(capacity), actions).order)
    ensures Genuine(actions, m)
  {
    TlsTheorems.Reachable(capacity, actions);
    var s := Exec(Init(capacity), actions);
    var k :| 0 <= k < |s.order| && Messages(s.order)[k] == m;
    assert EntryOk(s.handlers, s.order[k]);
    TlsJoiner.Position(Messages(s.order), k);
    ScriptHolds(capacity, actions, m.author);
    assert SessionOk(s.order, s.log, s.handlers[m.author], m.author);
  }

  lemma LoggedWasBroadcast(s: State, m: Msg)
    requires TlsHistory.Inv(s) && m in s.log
    ensures m in Messages(s.order)
  {
    var k :| 0 <= k < |s.log| && s.log[k] == m;
    assert SessionOk(s.order, s.log, s.handlers[m.author], m.author);
    TlsJoiner.Position(s.log, k);
    TlsJoiner.ByMember(Messages(s.order), m.author, |By(s.log[..k], m.author)|);
  }

  lemma LiveWasBroadcast(s: State, h: nat, m: Msg)
    requires h < |s.handlers| && TlsTheorems.DeliveredInOrder(s, h) && m in s.handlers[h].live
    ensures m in Messages(s.order)
  {
    var member := s.handlers[h].member;
    var a, b := member.start, if member.In? then Offered(s, member.slot) else member.stop;
    if m !in Messages(s.order) {
      forall k | 0 <= k < b - a ensures s.order[a..b][k].msg != m {
        assert Messages(s.order)[a + k] == s.order[a..b][k].msg;
      }
      TlsJoiner.NotHeard(s.order[a..b], h, m);
    }
  }

  // Every message in the broadcast order, in the log, and in what any client was sent, live or
  // from the log, is what its author's client did: nothing is made up, changed or misattributed.
  lemma EverythingIsGenuine(capacity: nat, actions: seq<Action>, h: nat, m: Msg)
    requires ValidRun(Init(capacity), actions) && h < |Exec(Init(capacity), actions).handlers|
    requires var s := Exec(Init(capacity), actions);
      m in Messages(s.order) || m in s.log || m in s.handlers[h].live || m in s.handlers[h].replayed
    ensures Genuine(actions, m)
  {
    TlsTheorems.Reachable(capacity, actions);
    TlsTheorems.TotalOrder(capacity, actions, h);
    var s := Exec(Init(capacity), actions);
    if m !in Messages(s.order) {
      if m in s.handlers[h].live {
        LiveWasBroadcast(s, h, m);
      } else {
        InitInv(capacity);
        TlsJoiner.RunReplayed(Init(capacity), actions);
        LoggedWasBroadcast(s, m);
      }
    }
    BroadcastIsGenuine(capacity, actions, m);
  }

  // ---- Everyone is sent the log ----

  // A session that is past its join has been sent a log that has this join; others nothing.
  predicate LogSent(t: Handler, h: nat)
  {
    if TlsJoiner.HasReplayed(t) && !TurnedAway(t) then Msg(h, 0, Join) in t.replayed else t.replayed == []
  }

  // The session neither comes to its replay nor goes past it.
  predicate SameReplay(t: Handler, t': Handler)
  {
    && t'.replayed == t.replayed
    && (TlsJoiner.HasReplayed(t') && !TurnedAway(t') <==> TlsJoiner.HasReplayed(t) && !TurnedAway(t))
  }

  lemma ChoiceReplay(s: State, a: Action, h: nat)
    requires Enabled(s, a) && (a.Authenticate? || a.Receive? || a.Hangup?) && a.h == h && PcOk(s.handlers[h], h)
    ensures h < |Apply(s, a).handlers| && SameReplay(s.handlers[h], Apply(s, a).handlers[h])
  {
  }

  lemma BroadcastReplay(s: State, h: nat)
    requires TlsRegistry.Inv(s) && Enabled(s, Run(h)) && PcOk(s.handlers[h], h)
    requires s.handlers[h].pc.BroadcastLock? || s.handlers[h].pc.BroadcastScan?
    ensures h < |Step(s, h).handlers| && SameReplay(s.handlers[h], Step(s, h).handlers[h])
  {
    if s.handlers[h].pc.BroadcastScan? && s.handlers[h].pc.i < |s.slots| {
      ScanStep(s, h);
    }
  }

  lemma JoiningReplay(s: State, h: nat)
    requires Enabled(s, Run(h)) && PcOk(s.handlers[h], h) && BeforeJoin(s.handlers[h].pc)
    ensures h < |Step(s, h).handlers| && SameReplay(s.handlers[h], Step(s, h).handlers[h])
  {
  }

  lemma LeavingReplay(s: State, h: nat)
    requires Enabled(s, Run(h)) && PcOk(s.handlers[h], h)
    requires AfterLeave(s.handlers[h].pc) || s.handlers[h].pc.BroadcastUnlock? || s.handlers[h].pc.Save?
    ensures h < |Step(s, h).handlers| && SameReplay(s.handlers[h], Step(s, h).handlers[h])
  {
  }

  lemma OwnReplay(s: State, a: Action, h: nat)
    requires TlsRegistry.Inv(s) && Enabled(s, a) && !a.Accept? && a.h == h && PcOk(s.handlers[h], h)
    requires !(a.Run? && s.handlers[h].pc.Replay?)
    ensures h < |Apply(s, a).handlers| && SameReplay(s.handlers[h], Apply(s, a).handlers[h])
  {
    if a.Run? {
      var pc := s.handlers[h].pc;
      if BeforeJoin(pc) {
        JoiningReplay(s, h);
      } else if pc.BroadcastLock? || pc.BroadcastScan? {
        BroadcastReplay(s, h);
      } else {
        LeavingReplay(s, h);
      }
    } else {
      ChoiceReplay(s, a, h);
    }
  }

  // When a session comes to its replay its join is in the log.
  lemma JoinIsLogged(capacity: nat, actions: seq<Action>, h: nat)
    requires ValidRun(Init(capacity), actions) && h < |Exec(Init(capacity), actions).handlers|
    requires Exec(Init(capacity), actions).handlers[h].pc.Replay?
    ensures Msg(h, 0, Join) in Exec(Init(capacity), actions).log
  {
    var s := Exec(Init(capacity), actions);
    TlsTheorems.Reachable(capacity, actions);
    assert SessionOk(s.order, s.log, s.handlers[h], h);
    Admission(capacity, actions, h);
    SaysWhatWasTyped(capacity, actions, h);
    assert By(s.log, h)[0] == ScriptOf(actions, h)[0];
    TlsJoiner.ByMember(s.log, h, 0);
  }

  // No session gets past its join without having been sent the log, its own join included, and
  // nobody is sent the log earlier.
  lemma {:induction false} EveryoneIsSentTheLog(capacity: nat, actions: seq<Action>, h: nat)
    requires ValidRun(Init(capacity), actions) && h < |Exec(Init(capacity), actions).handlers|
    ensures LogSent(Exec(Init(capacity), actions).handlers[h], h)
    decreases |actions|
  {
    if actions != [] {
      var n := |actions| - 1;
      LastAction(Init(capacity), actions);
      var a, before := actions[n], Exec(Init(capacity), actions[..n]);
      TlsTheorems.Reachable(capacity, actions[..n]);
      if h >= |before.handlers| {
        NewIsEmpty(before, a, h);
      } else {
        EveryoneIsSentTheLog(capacity, actions[..n], h);
        assert SessionOk(before.order, before.log, before.handlers[h], h);
        if a.Accept? || a.h != h {
          OthersAction(before, a, h);
        } else if a.Run? && before.handlers[h].pc.Replay? {
          JoinIsLogged(capacity, actions[..n], h);
        } else {
          OwnReplay(before, a, h);
        }
      }
    }
  }

  lemma NewIsEmpty(s: State, a: Action, h: nat)
    requires Enabled(s, a) && |s.handlers| <= h < |Apply(s, a).handlers|
    ensures LogSent(Apply(s, a).handlers[h], h)
  {
    NewHandler(s, a, h);
  }

  // ---- What a client hears of itself ----

  // A session registers before it says anything.
  ghost predicate NothingSaidBefore(order: seq<Sent>, t: Handler, h: nat)
  {
    !t.member.Outside? ==> forall k :: 0 <= k < t.member.start && k < |order| ==> order[k].msg.author != h
  }

  ghost predicate StartInv(s: State)
  {
    forall h :: 0 <= h < |s.handlers| ==> NothingSaidBefore(s.order, s.handlers[h], h)
  }

  lemma BeginningStart(s: State, h: nat)
    requires Enabled(s, Run(h)) && s.handlers[h].pc.BroadcastLock? && DeliveryOk(s, s.handlers[h])
    requires NothingSaidBefore(s.order, s.handlers[h], h)
    ensures h < |Step(s, h).handlers| && NothingSaidBefore(Step(s, h).order, Step(s, h).handlers[h], h)
  {
    assert !s.handlers[h].member.Outside? ==> s.handlers[h].member.start <= |s.order|;
  }

  lemma OwnStart(s: State, h: nat)
    requires TlsRegistry.Inv(s) && TlsHistory.Inv(s) && Enabled(s, Run(h))
    requires NothingSaidBefore(s.order, s.handlers[h], h)
    ensures h < |Step(s, h).handlers| && NothingSaidBefore(Step(s, h).order, Step(s, h).handlers[h], h)
  {
    var t := s.handlers[h];
    assert DeliveryOk(s, t) && SessionOk(s.order, s.log, t, h);
    if t.pc.BroadcastLock? {
      BeginningStart(s, h);
    } else if t.pc.BroadcastScan? && t.pc.i < |s.slots| {
      ScanStep(s, h);
    } else {
      QuietOrder(s, h);
      if t.pc.AddScan? {
        SaidNothing(s, h);
      } else {
        MemberKept(s, h);
      }
    }
  }

  lemma MemberKept(s: State, h: nat)
    requires Enabled(s, Run(h)) && !s.handlers[h].pc.AddScan?
    requires !(s.handlers[h].pc.BroadcastScan? && s.handlers[h].pc.i < |s.slots|)
    ensures h < |Step(s, h).handlers|
    ensures var m, m' := s.handlers[h].member, Step(s, h).handlers[h].member;
      (m.Outside? <==> m'.Outside?) && (!m.Outside? ==> m'.start == m.start)
  {
  }

  lemma OthersStart(s: State, g: nat, h: nat)
    requires TlsRegistry.Inv(s) && TlsHistory.Inv(s) && Enabled(s, Run(g)) && h < |s.handlers| && g != h
    requires NothingSaidBefore(s.order, s.handlers[h], h)
    ensures h < |Step(s, g).handlers| && NothingSaidBefore(Step(s, g).order, Step(s, g).handlers[h], h)
  {
    OthersStep(s, g, h);
    assert SessionOk(s.order, s.log, s.handlers[g], g);
    if !s.handlers[g].pc.BroadcastLock? {
      if s.handlers[g].pc.BroadcastScan? && s.handlers[g].pc.i < |s.slots| {
        ScanStep(s, g);
      } else {
        QuietOrder(s, g);
      }
    }
  }

  lemma ApplyStart(s: State, a: Action, h: nat)
    requires TlsRegistry.Inv(s) && TlsHistory.Inv(s) && StartInv(s) && Enabled(s, a) && h < |Apply(s, a).handlers|
    ensures NothingSaidBefore(Apply(s, a).order, Apply(s, a).handlers[h], h)
  {
    if a.Run? {
      StepKeepsCount(s, a.h);
      assert NothingSaidBefore(s.order, s.handlers[h], h);
      if a.h == h { OwnStart(s, h); } else { OthersStart(s, a.h, h); }
    } else if h < |s.handlers| {
      assert NothingSaidBefore(s.order, s.handlers[h], h);
    }
  }

  lemma {:induction false} RunStart(s: State, actions: seq<Action>)
    requires TlsRegistry.Inv(s) && TlsHistory.Inv(s) && StartInv(s) && ValidRun(s, actions)
    ensures StartInv(Exec(s, actions))
    decreases |actions|
  {
    if actions != [] {
      var s' := Apply(s, actions[0]);
      forall h | 0 <= h < |s'.handlers| ensures NothingSaidBefore(s'.order, s'.handlers[h], h) {
        ApplyStart(s, actions[0], h);
      }
      TlsRegistry.ApplyInv(s, actions[0]);
      TlsHistory.ApplyInv(s, actions[0]);
      RunStart(s', actions[1..]);
    }
  }

  // Every broadcast of a stretch is heard, except what the client itself typed.
  lemma {:induction false} HeardExactly(order: seq<Sent>, h: nat, m: Msg)
    ensures m in TlsTheorems.Heard(order, h) <==> m in Messages(order) && !(m.author == h && m.body.Chat?)
  {
    if order != [] {
      var n := |order| - 1;
      HeardExactly(order[..n], h, m);
      assert Messages(order) == Messages(order[..n]) + [order[n].msg];
    }
  }

  // A registered client has heard its own announcement, because broadcast is told to leave nobody
  // out of it, and it never hears what it typed itself.
  lemma HearsItsOwnJoin(capacity: nat, actions: seq<Action>, h: nat)
    requires ValidRun(Init(capacity), actions) && h < |Exec(Init(capacity), actions).handlers|
    ensures var t := Exec(Init(capacity), actions).handlers[h];
      && (forall m :: m in t.live && m.author == h ==> !m.body.Chat?)
      && (t.member.In? && (t.pc.Replay? || TlsJoiner.HasReplayed(t)) ==> Msg(h, 0, Join) in t.live)
  {
    var s := Exec(Init(capacity), actions);
    var t := s.handlers[h];
    TlsTheorems.Reachable(capacity, actions);
    TlsTheorems.TotalOrder(capacity, actions, h);
    if !t.member.Outside? {
      var a, b := t.member.start, if t.member.In? then Offered(s, t.member.slot) else t.member.stop;
      forall m | m in t.live && m.author == h ensures !m.body.Chat? {
        HeardExactly(s.order[a..b], h, m);
      }
      if t.member.In? && (t.pc.Replay? || TlsJoiner.HasReplayed(t)) {
        JoinWasOffered(capacity, actions, h);
        HeardExactly(s.order[a..b], h, Msg(h, 0, Join));
      }
    }
  }

  lemma JoinWasOffered(capacity: nat, actions: seq<Action>, h: nat)
    requires ValidRun(Init(capacity), actions) && h < |Exec(Init(capacity), actions).handlers|
    requires var t := Exec(Init(capacity), actions).handlers[h];
      t.member.In? && (t.pc.Replay? || TlsJoiner.HasReplayed(t))
    ensures var s := Exec(Init(capacity), actions);
      var a, b := s.handlers[h].member.start, Offered(s, s.handlers[h].member.slot);
      a <= b <= |s.order| && Msg(h, 0, Join) in Messages(s.order[a..b])
  {
    TlsTheorems.Reachable(capacity, actions);
    TlsHistory.InitInv(capacity);
    RunStart(Init(capacity), actions);
    Admission(capacity, actions, h);
    var s := Exec(Init(capacity), actions);
    assert MemberOk(s.slots, s.handlers[h]);
    SaysWhatWasTyped(capacity, actions, h);
    JoinIsOffered(s, h, ScriptOf(actions, h));
  }

  lemma HasSpoken(order: seq<Sent>, log: seq<Msg>, t: Handler, h: nat)
    requires SessionOk(order, log, t, h) && t.member.In? && Registered(t.pc)
    requires t.pc.Replay? || TlsJoiner.HasReplayed(t)
    ensures By(Messages(order), h) != []
  {
  }

  lemma JoinIsOffered(s: State, h: nat, script: seq<Msg>)
    requires TlsRegistry.Inv(s) && TlsHistory.Inv(s) && StartInv(s) && h < |s.handlers| && s.handlers[h].member.In?
    requires s.handlers[h].pc.Replay? || TlsJoiner.HasReplayed(s.handlers[h])
    requires |script| > 0 && script[0] == Msg(h, 0, Join) && By(Messages(s.order), h) <= script
    ensures var a, b := s.handlers[h].member.start, Offered(s, s.handlers[h].member.slot);
      a <= b <= |s.order| && Msg(h, 0, Join) in Messages(s.order[a..b])
  {
    var t := s.handlers[h];
    var a, b := t.member.start, Offered(s, t.member.slot);
    assert SessionOk(s.order, s.log, t, h) && DeliveryOk(s, t) && NothingSaidBefore(s.order, t, h);
    assert MemberOk(s.slots, t);
    HasSpoken(s.order, s.log, t, h);
    var k := JoinPlace(s, h, script);
    JoinBeforeOffered(s, h, k);
    InStretch(s.order, a, b, k);
  }

  lemma JoinBeforeOffered(s: State, h: nat, k: nat)
    requires TlsRegistry.Inv(s) && TlsHistory.Inv(s) && h < |s.handlers| && s.handlers[h].member.In?
    requires s.handlers[h].pc.Replay? || TlsJoiner.HasReplayed(s.handlers[h])
    requires k < |s.order| && s.order[k].msg == Msg(h, 0, Join)
    ensures k < Offered(s, s.handlers[h].member.slot) <= |s.order|
  {
    LastIsNotTheJoin(s, h);
    WithinOffered(s, s.handlers[h].member.slot, k);
  }

  lemma WithinOffered(s: State, slot: nat, k: nat)
    requires k < |s.order| && (ScanIndex(s).Some? ==> k < |s.order| - 1)
    ensures k < Offered(s, slot) <= |s.order|
  {
  }

  lemma InStretch(order: seq<Sent>, a: nat, b: nat, k: nat)
    requires a <= k < b <= |order|
    ensures order[k].msg in Messages(order[a..b])
  {
    assert order[a..b][k - a] == order[k];
    assert Messages(order[a..b])[k - a] == order[k].msg;
  }

  // The join is in the order, and not among what was broadcast before the session registered.
  lemma JoinPlace(s: State, h: nat, script: seq<Msg>) returns (k: nat)
    requires h < |s.handlers| && NothingSaidBefore(s.order, s.handlers[h], h) && s.handlers[h].member.In?
    requires |script| > 0 && script[0] == Msg(h, 0, Join) && By(Messages(s.order), h) <= script
    requires By(Messages(s.order), h) != []
    ensures s.handlers[h].member.start <= k < |s.order| && s.order[k].msg == Msg(h, 0, Join)
  {
    TlsJoiner.ByMember(Messages(s.order), h, 0);
    k :| 0 <= k < |s.order| && Messages(s.order)[k] == Msg(h, 0, Join);
  }

  // While somebody's message is being handed out, it is not this session's join.
  lemma LastIsNotTheJoin(s: State, h: nat)
    requires TlsRegistry.Inv(s) && TlsHistory.Inv(s) && h < |s.handlers|
    requires s.handlers[h].pc.Replay? || TlsJoiner.HasReplayed(s.handlers[h])
    ensures ScanIndex(s).Some? ==> |s.order| > 0 && s.order[|s.order| - 1].msg != Msg(h, 0, Join)
  {
    if ScanIndex(s).Some? {
      var g := s.mutex.value;
      assert ScanOk(s.order, s.handlers[g]) && SessionOk(s.order, s.log, s.handlers[g], g);
    }
  }
}
