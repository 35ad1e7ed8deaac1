// What the clients of server.c do and what the server makes of it: every message logged,
// broadcast and delivered is what its author's client sent.
module PlainSessions {
  import opened Counting
  import opened PlainModel
  import opened PlainInvariants
  import PlainTheorems

  // ---- What the clients did ----

  predicate HungUp(actions: seq<Action>, h: nat)
  {
    Hangup(h) in actions
  }

  // What the client of session h typed, in order.
  function Typed(actions: seq<Action>, h: nat): seq<string>
  {
    if actions == [] then []
    else
      var last := actions[|actions| - 1];
      Typed(actions[..|actions| - 1], h) + (if last.Receive? && last.h == h then [last.text] else [])
  }

  function Chats(h: nat, texts: seq<string>): (chats: seq<Msg>)
    ensures |chats| == |texts|
    ensures forall k :: 0 <= k < |texts| ==> chats[k] == Msg(h, k + 1, Chat(texts[k]))
  {
    seq(|texts|, k requires 0 <= k < |texts| => Msg(h, k + 1, Chat(texts[k])))
  }

  // What a session has to say: that it joined, everything typed, and that it left.
  function Script(h: nat, texts: seq<string>, left: bool): (script: seq<Msg>)
    ensures |script| == 1 + |texts| + (if left then 1 else 0)
    ensures script[0] == Msg(h, 0, Join)
    ensures forall k :: 0 <= k < |texts| ==> script[k + 1] == Msg(h, k + 1, Chat(texts[k]))
    ensures left ==> script[|texts| + 1] == Msg(h, |texts| + 1, Leave)
  {
    [Msg(h, 0, Join)] + Chats(h, texts) + (if left then [Msg(h, |texts| + 1, Leave)] else [])
  }

  lemma ChatsGrow(h: nat, texts: seq<string>, text: string)
    ensures Chats(h, texts + [text]) == Chats(h, texts) + [Msg(h, |texts| + 1, Chat(text))]
  {
  }

  lemma ScriptGrows(h: nat, texts: seq<string>, text: string)
    ensures Script(h, texts + [text], false) == Script(h, texts, false) + [Msg(h, |texts| + 1, Chat(text))]
  {
    ChatsGrow(h, texts, text);
  }

  lemma ScriptLeaves(h: nat, texts: seq<string>)
    ensures Script(h, texts, true) == Script(h, texts, false) + [Msg(h, |texts| + 1, Leave)]
  {
  }

  lemma Whole<T>(a: seq<T>)
    ensures a[..|a|] == a
    ensures a != [] ==> a[..|a| - 1] + [a[|a| - 1]] == a
  {
  }

  lemma AllButLast<T>(a: seq<T>, x: T)
    ensures (a + [x])[..|a|] == a
  {
  }

  // The messages of one author, in order.
  function By(msgs: seq<Msg>, author: nat): seq<Msg>
  {
    if msgs == [] then []
    else
      var last := msgs[|msgs| - 1];
      By(msgs[..|msgs| - 1], author) + (if last.author == author then [last] else [])
  }

  lemma ByAppend(msgs: seq<Msg>, x: Msg, h: nat)
    ensures By(msgs + [x], h) == By(msgs, h) + (if x.author == h then [x] else [])
  {
    assert (msgs + [x])[..|msgs|] == msgs;
  }

  lemma {:induction false} PlaceBy(msgs: seq<Msg>, m: Msg) returns (n: nat)
    requires m in msgs
    ensures n < |By(msgs, m.author)| && By(msgs, m.author)[n] == m
  {
    var l := |msgs| - 1;
    if msgs[l] == m {
      n := |By(msgs[..l], m.author)|;
    } else {
      n := PlaceBy(msgs[..l], m);
    }
  }

  // ---- Runs from their end ----

  lemma {:induction false} LastAction(s: State, actions: seq<Action>, capacity: nat)
    requires actions != [] && ValidRun(s, actions, capacity)
    ensures var n := |actions| - 1;
      && ValidRun(s, actions[..n], capacity) && Enabled(Exec(s, actions[..n], capacity), actions[n])
      && Exec(s, actions, capacity) == Apply(Exec(s, actions[..n], capacity), actions[n], capacity)
    decreases |actions|
  {
    var n := |actions| - 1;
    if n > 0 {
      LastAction(Apply(s, actions[0], capacity), actions[1..], capacity);
      assert actions[1..][..n - 1] == actions[..n][1..];
    }
  }

  lemma AfterLast(actions: seq<Action>, h: nat)
    requires actions != []
    ensures var n, a := |actions| - 1, actions[|actions| - 1];
      && (HungUp(actions, h) <==> HungUp(actions[..n], h) || a == Hangup(h))
      && Typed(actions, h)
         == if a.Receive? && a.h == h then Typed(actions[..n], h) + [a.text] else Typed(actions[..n], h)
  {
    InLast(actions, Hangup(h));
  }

  lemma InLast(actions: seq<Action>, x: Action)
    requires actions != []
    ensures x in actions <==> x in actions[..|actions| - 1] || x == actions[|actions| - 1]
  {
    assert actions == actions[..|actions| - 1] + [actions[|actions| - 1]];
  }

  // ---- One session keeps to its script ----

  // Composed, but its broadcast has not ended.
  predicate InProgress(t: Handler)
  {
    Busy(t) || t.pc.BroadcastUnlock?
  }

  predicate AfterLeave(pc: Pc)
  {
    pc.Closing? || pc.RemoveLock? || pc.RemoveScan? || pc.RemoveUnlock? || pc.Done?
  }

  // `said` are the session's finished broadcasts and `logged` its entries in the log.
  ghost predicate OnScript(said: seq<Msg>, logged: seq<Msg>, t: Handler, h: nat, texts: seq<string>, left: bool)
  {
    if t.pc.Replay? then texts == [] && !left && t.composed == 0 && said == [] && logged == []
    else
      && Recites(said, t, Script(h, texts, left))
      && logged == Chats(h, texts)[..|texts| - (if t.pc.Save? && |texts| > 0 then 1 else 0)]
      && (t.pc.Save? ==> |texts| > 0)
      && (t.pc.Save? || t.pc.Receiving? ==> !left) && (AfterLeave(t.pc) ==> left)
  }

  ghost predicate Recites(said: seq<Msg>, t: Handler, script: seq<Msg>)
  {
    && |script| > 0 && t.composed == |script| && t.msg == script[|script| - 1]
    && said == script[..|script| - (if InProgress(t) then 1 else 0)]
  }

  lemma ReceiveScript(said: seq<Msg>, logged: seq<Msg>, t: Handler, h: nat, texts: seq<string>, text: string)
    requires t.pc.Receiving? && OnScript(said, logged, t, h, texts, false)
    ensures OnScript(said, logged, Compose(t, h, Chat(text), Save), h, texts + [text], false)
  {
    ScriptGrows(h, texts, text);
    ChatsGrow(h, texts, text);
    Whole(Script(h, texts, false));
    Whole(Chats(h, texts));
    AllButLast(Script(h, texts, false), Msg(h, |texts| + 1, Chat(text)));
    AllButLast(Chats(h, texts), Msg(h, |texts| + 1, Chat(text)));
  }

  lemma HangupScript(said: seq<Msg>, logged: seq<Msg>, t: Handler, h: nat, texts: seq<string>)
    requires t.pc.Receiving? && OnScript(said, logged, t, h, texts, false)
    ensures OnScript(said, logged, Compose(t, h, Leave, BroadcastLock), h, texts, true)
  {
    var script, leave := Script(h, texts, false), Msg(h, |texts| + 1, Leave);
    ScriptLeaves(h, texts);
    Whole(script);
    AllButLast(script, leave);
    assert Recites(said, Compose(t, h, Leave, BroadcastLock), script + [leave]);
  }

  lemma JoinScript(t: Handler, h: nat, log: seq<Msg>)
    requires t.pc.Replay? && t.composed == 0
    ensures OnScript([], [], Compose(t, h, Join, BroadcastLock).(replayed := Some(log)), h, [], false)
  {
    assert Script(h, [], false) == [Msg(h, 0, Join)];
  }

  lemma SaveScript(said: seq<Msg>, logged: seq<Msg>, t: Handler, h: nat, texts: seq<string>, left: bool)
    requires t.pc.Save? && OnScript(said, logged, t, h, texts, left)
    ensures OnScript(said, logged + [t.msg], t.(pc := BroadcastLock), h, texts, left)
  {
    Whole(Chats(h, texts));
  }

  lemma UnlockScript(said: seq<Msg>, logged: seq<Msg>, t: Handler, h: nat, texts: seq<string>, left: bool)
    requires t.pc.BroadcastUnlock? && OnScript(said, logged, t, h, texts, left)
    ensures OnScript(said + [t.msg], logged, t.(pc := if t.msg.body.Leave? then Closing else Receiving), h, texts, left)
  {
    Whole(Script(h, texts, left));
  }

  // A step that composes, logs and finishes nothing.
  predicate SameStage(t: Handler, t': Handler)
  {
    && t'.composed == t.composed && t'.msg == t.msg
    && (InProgress(t') <==> InProgress(t)) && (AfterLeave(t'.pc) <==> AfterLeave(t.pc))
    && (t'.pc.Save? <==> t.pc.Save?) && (t'.pc.Receiving? <==> t.pc.Receiving?) && (t'.pc.Replay? <==> t.pc.Replay?)
  }

  lemma SameStageScript(said: seq<Msg>, logged: seq<Msg>, t: Handler, t': Handler, h: nat,
                        texts: seq<string>, left: bool)
    requires OnScript(said, logged, t, h, texts, left) && SameStage(t, t')
    ensures OnScript(said, logged, t', h, texts, left)
  {
  }

  predicate Quiet(pc: Pc)
  {
    pc.BroadcastLock? || pc.BroadcastScan? || pc.Closing? || pc.RemoveLock? || pc.RemoveScan? || pc.RemoveUnlock?
  }

  lemma QuietStage(s: State, h: nat)
    requires ConnInv(s) && Enabled(s, Run(h)) && Quiet(s.handlers[h].pc)
    ensures h < |Step(s, h).handlers| && SameStage(s.handlers[h], Step(s, h).handlers[h])
    ensures Step(s, h).log == s.log && Step(s, h).completed == s.completed
  {
    if s.handlers[h].pc.BroadcastScan? && s.handlers[h].pc.i < |s.clients| {
      ScanStep(s, h);
    }
  }

  ghost predicate SessionOnScript(s: State, h: nat, texts: seq<string>, left: bool)
    requires h < |s.handlers|
  {
    OnScript(By(s.completed, h), By(s.log, h), s.handlers[h], h, texts, left)
  }

  lemma OwnStepScript(s: State, h: nat, texts: seq<string>, left: bool)
    requires ConnInv(s) && Enabled(s, Run(h)) && PcOk(s.handlers[h], h, s.clients)
    requires SessionOnScript(s, h, texts, left)
    ensures h < |Step(s, h).handlers| && SessionOnScript(Step(s, h), h, texts, left)
  {
    var t, said, logged := s.handlers[h], By(s.completed, h), By(s.log, h);
    if Quiet(t.pc) {
      QuietStage(s, h);
      SameStageScript(said, logged, t, Step(s, h).handlers[h], h, texts, left);
    } else {
      ByAppend(s.completed, t.msg, h);
      ByAppend(s.log, t.msg, h);
      LoudStepScript(s, h, said, logged, texts, left);
    }
  }

  lemma LoudStepScript(s: State, h: nat, said: seq<Msg>, logged: seq<Msg>, texts: seq<string>, left: bool)
    requires Enabled(s, Run(h)) && !Quiet(s.handlers[h].pc) && OnScript(said, logged, s.handlers[h], h, texts, left)
    ensures var t, s' := s.handlers[h], Step(s, h);
      && h < |s'.handlers|
      && s'.log == (if t.pc.Save? then s.log + [t.msg] else s.log)
      && s'.completed == (if t.pc.BroadcastUnlock? then s.completed + [t.msg] else s.completed)
      && OnScript(if t.pc.BroadcastUnlock? then said + [t.msg] else said,
                  if t.pc.Save? then logged + [t.msg] else logged, s'.handlers[h], h, texts, left)
  {
    var t := s.handlers[h];
    match t.pc {
      case Replay => JoinScript(t, h, s.log);
      case Save => SaveScript(said, logged, t, h, texts, left);
      case BroadcastUnlock => UnlockScript(said, logged, t, h, texts, left);
    }
  }

  lemma OwnScript(s: State, a: Action, h: nat, texts: seq<string>, left: bool, capacity: nat)
    requires ConnInv(s) && Enabled(s, a) && !a.Accept? && a.h == h && PcOk(s.handlers[h], h, s.clients)
    requires SessionOnScript(s, h, texts, left)
    ensures h < |Apply(s, a, capacity).handlers|
    ensures SessionOnScript(Apply(s, a, capacity), h, if a.Receive? then texts + [a.text] else texts, left || a.Hangup?)
  {
    if a.Run? {
      OwnStepScript(s, h, texts, left);
    } else {
      OwnChoiceScript(s, a, h, By(s.completed, h), By(s.log, h), texts, left, capacity);
    }
  }

  lemma OwnChoiceScript(s: State, a: Action, h: nat, said: seq<Msg>, logged: seq<Msg>,
                        texts: seq<string>, left: bool, capacity: nat)
    requires Enabled(s, a) && (a.Receive? || a.Hangup?) && a.h == h
    requires OnScript(said, logged, s.handlers[h], h, texts, left)
    ensures h < |Apply(s, a, capacity).handlers|
    ensures Apply(s, a, capacity).log == s.log && Apply(s, a, capacity).completed == s.completed
    ensures OnScript(said, logged, Apply(s, a, capacity).handlers[h], h,
                     if a.Receive? then texts + [a.text] else texts, left || a.Hangup?)
  {
    if a.Receive? {
      ReceiveScript(said, logged, s.handlers[h], h, texts, a.text);
    } else {
      HangupScript(said, logged, s.handlers[h], h, texts);
    }
  }

  // An action of somebody else may write to a session's client and do nothing else to it.
  lemma OthersAction(s: State, a: Action, h: nat, capacity: nat)
    requires Inv(s, capacity) && Enabled(s, a) && h < |s.handlers|
    requires a.Accept? || a.h != h
    ensures h < |Apply(s, a, capacity).handlers|
    ensures Apply(s, a, capacity).handlers[h] == s.handlers[h].(live := Apply(s, a, capacity).handlers[h].live)
    ensures By(Apply(s, a, capacity).log, h) == By(s.log, h)
    ensures By(Apply(s, a, capacity).completed, h) == By(s.completed, h)
  {
    if a.Run? {
      OthersStep(s, a.h, h);
    }
  }

  lemma OthersStep(s: State, g: nat, h: nat)
    requires ConnInv(s) && KnownInv(s) && Enabled(s, Run(g)) && h < |s.handlers| && g != h
    ensures h < |Step(s, g).handlers|
    ensures Step(s, g).handlers[h] == s.handlers[h].(live := Step(s, g).handlers[h].live)
    ensures By(Step(s, g).log, h) == By(s.log, h) && By(Step(s, g).completed, h) == By(s.completed, h)
  {
    var t := s.handlers[g];
    assert PcOk(t, g, s.clients);
    if Quiet(t.pc) {
      QuietStage(s, g);
      if t.pc.BroadcastScan? && t.pc.i < |s.clients| { ScanStep(s, g); } else { OtherStays(s, g, h); }
    } else {
      OtherStays(s, g, h);
      ByAppend(s.log, t.msg, h);
      ByAppend(s.completed, t.msg, h);
      LoudStepLists(s, g);
    }
  }

  lemma LoudStepLists(s: State, h: nat)
    requires Enabled(s, Run(h)) && !Quiet(s.handlers[h].pc)
    ensures Step(s, h).log in {s.log, s.log + [s.handlers[h].msg]}
    ensures Step(s, h).completed in {s.completed, s.completed + [s.handlers[h].msg]}
  {
  }

  lemma OtherStays(s: State, g: nat, h: nat)
    requires Enabled(s, Run(g)) && h < |s.handlers| && g != h
    requires !(s.handlers[g].pc.BroadcastScan? && s.handlers[g].pc.i < |s.clients|)
    ensures h < |Step(s, g).handlers| && Step(s, g).handlers[h] == s.handlers[h]
  {
  }

  lemma OthersScript(said: seq<Msg>, logged: seq<Msg>, t: Handler, t': Handler, h: nat,
                     texts: seq<string>, left: bool)
    requires OnScript(said, logged, t, h, texts, left) && t' == t.(live := t'.live)
    ensures OnScript(said, logged, t', h, texts, left)
  {
  }

  lemma ScriptStep(s: State, a: Action, h: nat, texts: seq<string>, left: bool, capacity: nat)
    requires Inv(s, capacity) && Enabled(s, a) && h < |s.handlers| && SessionOnScript(s, h, texts, left)
    ensures h < |Apply(s, a, capacity).handlers|
    ensures SessionOnScript(Apply(s, a, capacity), h,
                            if a.Receive? && a.h == h then texts + [a.text] else texts, left || a == Hangup(h))
  {
    if a.Accept? || a.h != h {
      OthersAction(s, a, h, capacity);
      OthersScript(By(s.completed, h), By(s.log, h), s.handlers[h], Apply(s, a, capacity).handlers[h], h, texts, left);
    } else {
      assert PcOk(s.handlers[h], h, s.clients);
      OwnScript(s, a, h, texts, left, capacity);
    }
  }

  // A session that has just come into being has an empty script and no messages.
  lemma NewScript(s: State, a: Action, h: nat, capacity: nat)
    requires Inv(s, capacity) && Enabled(s, a) && |s.handlers| <= h < |Apply(s, a, capacity).handlers|
    requires forall k :: 0 <= k < |s.completed| ==> s.completed[k].author < |s.handlers|
    ensures a.Accept? && SessionOnScript(Apply(s, a, capacity), h, [], false)
  {
    if a.Run? {
      StepKeepsCount(s, a.h);
      assert false;
    }
    NobodySaid(s.completed, h);
    NobodySaid(s.log, h);
  }

  lemma StepKeepsCount(s: State, h: nat)
    requires Enabled(s, Run(h))
    ensures |Step(s, h).handlers| == |s.handlers|
  {
  }

  lemma {:induction false} NobodySaid(msgs: seq<Msg>, h: nat)
    requires forall k :: 0 <= k < |msgs| ==> msgs[k].author != h
    ensures By(msgs, h) == []
  {
    if msgs != [] {
      NobodySaid(msgs[..|msgs| - 1], h);
    }
  }

  lemma CompletedAuthors(capacity: nat, actions: seq<Action>)
    requires ValidRun(Init(), actions, capacity)
    ensures var s := Exec(Init(), actions, capacity);
      forall k :: 0 <= k < |s.completed| ==> s.completed[k].author < |s.handlers|
  {
    InitInv(capacity);
    PlainTheorems.RunCompleted(Init(), actions, capacity);
    var s := Exec(Init(), actions, capacity);
    forall k | 0 <= k < |s.completed| ensures s.completed[k].author < |s.handlers| {
      assert PlainTheorems.Settled(s, s.completed[k]);
    }
  }

  // Before a session exists nothing has been done for it.
  lemma {:induction false} NobodyYet(capacity: nat, actions: seq<Action>, h: nat)
    requires ValidRun(Init(), actions, capacity) && h >= |Exec(Init(), actions, capacity).handlers|
    ensures !HungUp(actions, h) && Typed(actions, h) == []
    decreases |actions|
  {
    if actions != [] {
      var n := |actions| - 1;
      LastAction(Init(), actions, capacity);
      MoreHandlers(Exec(Init(), actions[..n], capacity), actions[n], capacity);
      AfterLast(actions, h);
      NobodyYet(capacity, actions[..n], h);
    }
  }

  lemma MoreHandlers(s: State, a: Action, capacity: nat)
    requires Enabled(s, a)
    ensures |Apply(s, a, capacity).handlers| >= |s.handlers|
  {
  }

  lemma {:induction false} ScriptHolds(capacity: nat, actions: seq<Action>, h: nat)
    requires ValidRun(Init(), actions, capacity) && h < |Exec(Init(), actions, capacity).handlers|
    ensures SessionOnScript(Exec(Init(), actions, capacity), h, Typed(actions, h), HungUp(actions, h))
    decreases |actions|
  {
    if actions != [] {
      var n := |actions| - 1;
      LastAction(Init(), actions, capacity);
      var a, before := actions[n], Exec(Init(), actions[..n], capacity);
      AfterLast(actions, h);
      PlainTheorems.Reachable(capacity, actions[..n]);
      if h < |before.handlers| {
        ScriptHolds(capacity, actions[..n], h);
        ScriptStep(before, a, h, Typed(actions[..n], h), HungUp(actions[..n], h), capacity);
      } else {
        CompletedAuthors(capacity, actions[..n]);
        NewScript(before, a, h, capacity);
        NobodyYet(capacity, actions[..n], h);
      }
    }
  }

  // ---- The results ----

  // All that a session is going to say, given what its client has done so far.
  function ScriptOf(actions: seq<Action>, h: nat): seq<Msg>
  {
    Script(h, Typed(actions, h), HungUp(actions, h))
  }

  // Once a session has been sent the log, what it has finished broadcasting is its script word for
  // word, up to the message it is busy with; and its entries in the log are what was typed, all but
  // the text that it is about to save.
  lemma SaysWhatWasTyped(capacity: nat, actions: seq<Action>, h: nat)
    requires ValidRun(Init(), actions, capacity) && h < |Exec(Init(), actions, capacity).handlers|
    requires !Exec(Init(), actions, capacity).handlers[h].pc.Replay?
    ensures var s := Exec(Init(), actions, capacity);
      var t, script, chats := s.handlers[h], ScriptOf(actions, h), Chats(h, Typed(actions, h));
      && t.msg == script[|script| - 1]
      && By(s.completed, h) == script[..|script| - (if InProgress(t) then 1 else 0)]
      && (t.pc.Save? ==> |chats| > 0)
      && By(s.log, h) == if t.pc.Save? then chats[..|chats| - 1] else chats
  {
    ScriptHolds(capacity, actions, h);
    var chats := Chats(h, Typed(actions, h));
    assert chats[..|chats|] == chats;
  }

  // m is what the client of its author did under that number.
  ghost predicate Genuine(actions: seq<Action>, m: Msg)
  {
    m.seqNo < |ScriptOf(actions, m.author)| && m == ScriptOf(actions, m.author)[m.seqNo]
  }

  lemma OnScriptAt(said: seq<Msg>, logged: seq<Msg>, t: Handler, h: nat, texts: seq<string>, left: bool, n: nat)
    requires OnScript(said, logged, t, h, texts, left)
    ensures n < |said| ==> n < |Script(h, texts, left)| && said[n] == Script(h, texts, left)[n]
    ensures n < |logged| ==> n + 1 < |Script(h, texts, left)| && logged[n] == Script(h, texts, left)[n + 1]
  {
    if n < |logged| {
      assert logged[n] == Chats(h, texts)[n];
    }
    if n < |said| {
      assert said[n] == Script(h, texts, left)[n];
    }
  }

  lemma ScriptNumbers(h: nat, texts: seq<string>, left: bool, n: nat)
    requires n < |Script(h, texts, left)|
    ensures Script(h, texts, left)[n].seqNo == n
  {
  }

  lemma LoggedIsGenuine(capacity: nat, actions: seq<Action>, m: Msg)
    requires ValidRun(Init(), actions, capacity) && m in Exec(Init(), actions, capacity).log
    ensures Genuine(actions, m)
  {
    PlainTheorems.Reachable(capacity, actions);
    LogAuthor(Exec(Init(), actions, capacity), m);
    GenuineEntry(capacity, actions, m);
  }

  lemma LogAuthor(s: State, m: Msg)
    requires KnownInv(s) && m in s.log
    ensures m.author < |s.handlers|
  {
    var k :| 0 <= k < |s.log| && s.log[k] == m;
    assert Known(s.handlers, s.log[k]);
  }

  lemma CompletedIsGenuine(capacity: nat, actions: seq<Action>, m: Msg)
    requires ValidRun(Init(), actions, capacity) && m in Exec(Init(), actions, capacity).completed
    ensures Genuine(actions, m)
  {
    CompletedAuthors(capacity, actions);
    GenuineEntry(capacity, actions, m);
  }

  lemma GenuineEntry(capacity: nat, actions: seq<Action>, m: Msg)
    requires ValidRun(Init(), actions, capacity) && m.author < |Exec(Init(), actions, capacity).handlers|
    requires m in Exec(Init(), actions, capacity).log || m in Exec(Init(), actions, capacity).completed
    ensures Genuine(actions, m)
  {
    ScriptHolds(capacity, actions, m.author);
    EntryOnScript(Exec(Init(), actions, capacity), m, Typed(actions, m.author), HungUp(actions, m.author));
  }

  lemma EntryOnScript(s: State, m: Msg, texts: seq<string>, left: bool)
    requires m.author < |s.handlers| && SessionOnScript(s, m.author, texts, left)
    requires m in s.log || m in s.completed
    ensures m.seqNo < |Script(m.author, texts, left)| && m == Script(m.author, texts, left)[m.seqNo]
  {
    var n := PlaceBy(if m in s.log then s.log else s.completed, m);
    OnScriptAt(By(s.completed, m.author), By(s.log, m.author), s.handlers[m.author], m.author, texts, left, n);
    ScriptNumbers(m.author, texts, left, if m in s.log then n + 1 else n);
  }

  // A script is only added to, so what is genuine stays so.
  lemma ScriptIsExtended(capacity: nat, actions: seq<Action>, h: nat)
    requires actions != [] && ValidRun(Init(), actions, capacity)
    requires ValidRun(Init(), actions[..|actions| - 1], capacity)
    requires h < |Exec(Init(), actions[..|actions| - 1], capacity).handlers|
    ensures ScriptOf(actions[..|actions| - 1], h) <= ScriptOf(actions, h)
  {
    var n := |actions| - 1;
    LastAction(Init(), actions, capacity);
    AfterLast(actions, h);
    if actions[n].Receive? && actions[n].h == h {
      ScriptHolds(capacity, actions[..n], h);
      ScriptGrows(h, Typed(actions[..n], h), actions[n].text);
    } else if actions[n] == Hangup(h) {
      ScriptHolds(capacity, actions[..n], h);
      ScriptLeaves(h, Typed(actions[..n], h));
    }
  }

  lemma StaysGenuine(capacity: nat, actions: seq<Action>, m: Msg)
    requires actions != [] && ValidRun(Init(), actions, capacity)
    requires ValidRun(Init(), actions[..|actions| - 1], capacity)
    requires m.author < |Exec(Init(), actions[..|actions| - 1], capacity).handlers|
    requires Genuine(actions[..|actions| - 1], m)
    ensures Genuine(actions, m)
  {
    ScriptIsExtended(capacity, actions, m.author);
  }

  // What a client has live it had before, or a broadcast has just written it.
  lemma WrittenBy(s: State, a: Action, h: nat, m: Msg, capacity: nat)
    requires Inv(s, capacity) && Enabled(s, a)
    requires h < |Apply(s, a, capacity).handlers| && m in Apply(s, a, capacity).handlers[h].live
    ensures (h < |s.handlers| && m in s.handlers[h].live)
         || (a.Run? && s.handlers[a.h].pc.BroadcastScan? && m == s.handlers[a.h].msg)
  {
    if a.Run? {
      StepWrittenBy(s, a.h, h, m);
    }
  }

  lemma StepWrittenBy(s: State, g: nat, h: nat, m: Msg)
    requires ConnInv(s) && Enabled(s, Run(g)) && h < |Step(s, g).handlers| && m in Step(s, g).handlers[h].live
    ensures h < |s.handlers|
    ensures m in s.handlers[h].live || (s.handlers[g].pc.BroadcastScan? && m == s.handlers[g].msg)
  {
    if s.handlers[g].pc.BroadcastScan? && s.handlers[g].pc.i < |s.clients| {
      ScanStep(s, g);
    } else {
      StillLive(s, g, h);
    }
  }

  lemma StillLive(s: State, g: nat, h: nat)
    requires Enabled(s, Run(g)) && !(s.handlers[g].pc.BroadcastScan? && s.handlers[g].pc.i < |s.clients|)
    ensures |Step(s, g).handlers| == |s.handlers|
    ensures h < |s.handlers| ==> Step(s, g).handlers[h].live == s.handlers[h].live
  {
  }

  lemma {:induction false} LiveIsGenuine(capacity: nat, actions: seq<Action>, h: nat, m: Msg)
    requires ValidRun(Init(), actions, capacity) && h < |Exec(Init(), actions, capacity).handlers|
    requires m in Exec(Init(), actions, capacity).handlers[h].live
    ensures Genuine(actions, m)
    decreases |actions|
  {
    if actions != [] {
      var n := |actions| - 1;
      LastAction(Init(), actions, capacity);
      PlainTheorems.Reachable(capacity, actions[..n]);
      var a, before := actions[n], Exec(Init(), actions[..n], capacity);
      WrittenBy(before, a, h, m, capacity);
      if h < |before.handlers| && m in before.handlers[h].live {
        LiveIsGenuine(capacity, actions[..n], h, m);
        LiveAuthor(before, h, m);
      } else {
        ScriptHolds(capacity, actions[..n], a.h);
        assert PcOk(before.handlers[a.h], a.h, before.clients);
      }
      StaysGenuine(capacity, actions, m);
    }
  }

  lemma LiveAuthor(s: State, h: nat, m: Msg)
    requires KnownInv(s) && h < |s.handlers| && m in s.handlers[h].live
    ensures m.author < |s.handlers|
  {
    var k :| 0 <= k < |s.handlers[h].live| && s.handlers[h].live[k] == m;
    assert Known(s.handlers, s.handlers[h].live[k]);
  }

  // A client was sent the log as it stood at some earlier moment.
  ghost predicate ReplayedInv(s: State)
  {
    forall h :: 0 <= h < |s.handlers| && s.handlers[h].replayed.Some? ==> s.handlers[h].replayed.value <= s.log
  }

  lemma {:induction false} RunReplayed(s: State, actions: seq<Action>, capacity: nat)
    requires Inv(s, capacity) && ReplayedInv(s) && ValidRun(s, actions, capacity)
    ensures ReplayedInv(Exec(s, actions, capacity))
    decreases |actions|
  {
    if actions != [] {
      ApplyInv(s, actions[0], capacity);
      ApplyReplayed(s, actions[0], capacity);
      RunReplayed(Apply(s, actions[0], capacity), actions[1..], capacity);
    }
  }

  lemma ApplyReplayed(s: State, a: Action, capacity: nat)
    requires ConnInv(s) && ReplayedInv(s) && Enabled(s, a)
    ensures ReplayedInv(Apply(s, a, capacity))
  {
    var s' := Apply(s, a, capacity);
    forall h | 0 <= h < |s'.handlers| && s'.handlers[h].replayed.Some? ensures s'.handlers[h].replayed.value <= s'.log {
      if a.Run? { ReplayedStep(s, a.h, h); }
    }
  }

  lemma ReplayedStep(s: State, h: nat, g: nat)
    requires ConnInv(s) && Enabled(s, Run(h)) && g < |Step(s, h).handlers|
    ensures g < |s.handlers| && s.log <= Step(s, h).log
    ensures Step(s, h).handlers[g].replayed in {s.handlers[g].replayed, Some(s.log)}
  {
    if s.handlers[h].pc.BroadcastScan? && s.handlers[h].pc.i < |s.clients| {
      ScanStep(s, h);
    }
  }

  // Every message in the log, in a finished broadcast, and in what any client was sent, live or
  // from the log, is what its author's client did: nothing is made up, changed or misattributed.
  lemma EverythingIsGenuine(capacity: nat, actions: seq<Action>, h: nat, m: Msg)
    requires ValidRun(Init(), actions, capacity) && h < |Exec(Init(), actions, capacity).handlers|
    requires var s := Exec(Init(), actions, capacity);
      || m in s.log || m in s.completed || m in s.handlers[h].live
      || (s.handlers[h].replayed.Some? && m in s.handlers[h].replayed.value)
    ensures Genuine(actions, m)
  {
    var s := Exec(Init(), actions, capacity);
    if m in s.completed {
      CompletedIsGenuine(capacity, actions, m);
    } else if m in s.handlers[h].live {
      LiveIsGenuine(capacity, actions, h, m);
    } else {
      InitInv(capacity);
      RunReplayed(Init(), actions, capacity);
      LoggedIsGenuine(capacity, actions, m);
    }
  }

  // ---- Reissued socket numbers ----

  // The k-th action admits a connection whose socket number is still in the table.
  ghost predicate Reissues(capacity: nat, actions: seq<Action>, k: nat)
    requires k < |actions|
  {
    && actions[k].Accept? && ValidRun(Init(), actions[..k], capacity)
    && actions[k].sock in Exec(Init(), actions[..k], capacity).clients
    && |Exec(Init(), actions[..k], capacity).clients| < capacity
  }

  lemma {:induction false} ReissuedExactly(capacity: nat, actions: seq<Action>)
    requires ValidRun(Init(), actions, capacity)
    ensures Exec(Init(), actions, capacity).reissued
            <==> exists k :: 0 <= k < |actions| && Reissues(capacity, actions, k)
    decreases |actions|
  {
    if actions != [] {
      var n := |actions| - 1;
      LastAction(Init(), actions, capacity);
      ReissuedExactly(capacity, actions[..n]);
      var before := Exec(Init(), actions[..n], capacity);
      ReissuedNow(before, actions[n], capacity);
      forall k | 0 <= k < n ensures Reissues(capacity, actions[..n], k) <==> Reissues(capacity, actions, k) {
        assert actions[..n][..k] == actions[..k];
      }
      assert Reissues(capacity, actions, n)
        <==> actions[n].Accept? && actions[n].sock in before.clients && |before.clients| < capacity;
    }
  }

  lemma ReissuedNow(s: State, a: Action, capacity: nat)
    requires Enabled(s, a)
    ensures Apply(s, a, capacity).reissued
            <==> s.reissued || (a.Accept? && a.sock in s.clients && |s.clients| < capacity)
  {
  }
}
