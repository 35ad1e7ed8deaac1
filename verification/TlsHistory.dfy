// What the broadcast order and the chat log of server_tls_final.c contain for each session.
module TlsHistory {
  import opened TlsModel
  import TlsRegistry

  // The sender argument handle_client passes to broadcast: its own SSL object for what the
  // client typed, NULL for the announcements.
  function SenderArg(msg: Msg, ssl: nat): nat
  {
    if msg.body.Chat? then ssl else NULL
  }

  predicate BeforeJoin(pc: Pc)
  {
    pc.Authenticating? || pc.AddLock? || pc.AddScan? || pc.AddUnlock?
  }

  predicate AfterLeave(pc: Pc)
  {
    pc.RemoveLock? || pc.RemoveScan? || pc.RemoveUnlock? || pc.Freeing?
  }

  // The handler has begun to announce that its client left.
  predicate LeaveBegun(t: Handler)
  {
    AfterLeave(t.pc) || (Pending(t) && t.msg.body.Leave?) || (t.pc.Done? && t.sent > 0)
  }

  predicate PcOk(t: Handler, h: nat)
  {
    && t.msg.author == h
    && (BeforeJoin(t.pc) ==> t.sent == 0)
    && (t.pc.BroadcastLock? ==>
          t.msg.seqNo == t.sent && t.pc.sender == SenderArg(t.msg, t.ssl) && (t.msg.body.Join? <==> t.sent == 0))
    && (Pending(t) ==> t.sent > 0 && t.msg.seqNo == t.sent - 1 && (t.msg.body.Join? <==> t.sent == 1))
    && (t.pc.Replay? || t.pc.Receiving? ==> t.sent > 0)
    && (AfterLeave(t.pc) ==> t.sent > 1)
  }

  // The broadcasts of one session: a join, then messages, then a leave if it has got that far.
  ghost predicate ScriptOk(entries: seq<Msg>, t: Handler)
  {
    && |entries| == t.sent
    && (forall n :: 0 <= n < |entries| ==>
          && entries[n].seqNo == n
          && (entries[n].body.Join? <==> n == 0)
          && (entries[n].body.Leave? <==> n == |entries| - 1 && LeaveBegun(t)))
    && (Pending(t) && |entries| > 0 ==> entries[|entries| - 1] == t.msg)
  }

  function Logged(t: Handler): nat
    requires Pending(t) ==> t.sent > 0
  {
    if Pending(t) then t.sent - 1 else t.sent
  }

  ghost predicate SessionOk(order: seq<Sent>, log: seq<Msg>, t: Handler, h: nat)
  {
    && PcOk(t, h)
    && ScriptOk(By(Messages(order), h), t)
    && By(log, h) == By(Messages(order), h)[..Logged(t)]
  }

  ghost predicate EntryOk(handlers: seq<Handler>, x: Sent)
  {
    x.msg.author < |handlers| && x.sender == SenderArg(x.msg, handlers[x.msg.author].ssl)
  }

  ghost predicate Inv(s: State)
  {
    && (forall h :: 0 <= h < |s.handlers| ==> SessionOk(s.order, s.log, s.handlers[h], h))
    && (forall k :: 0 <= k < |s.order| ==> EntryOk(s.handlers, s.order[k]))
    && (forall k :: 0 <= k < |s.log| ==> s.log[k].author < |s.handlers|)
  }

  // ---- Lists of one author ----

  lemma ByAppend(msgs: seq<Msg>, x: Msg, h: nat)
    ensures By(msgs + [x], h) == By(msgs, h) + (if x.author == h then [x] else [])
  {
    assert (msgs + [x])[..|msgs|] == msgs;
  }

  lemma OrderAppend(order: seq<Sent>, x: Sent, h: nat)
    ensures By(Messages(order + [x]), h) == By(Messages(order), h) + (if x.msg.author == h then [x.msg] else [])
  {
    assert Messages(order + [x]) == Messages(order) + [x.msg];
    ByAppend(Messages(order), x.msg, h);
  }

  lemma {:induction false} ByNobody(msgs: seq<Msg>, h: nat)
    requires forall k :: 0 <= k < |msgs| ==> msgs[k].author != h
    ensures By(msgs, h) == []
  {
    if msgs != [] {
      ByNobody(msgs[..|msgs| - 1], h);
    }
  }

  // ---- Steps ----

  // A change to handler h that begins and logs nothing; others may only be written to.
  ghost predicate Routine(s: State, s': State, h: nat)
  {
    && h < |s.handlers| && |s'.handlers| == |s.handlers|
    && s'.order == s.order && s'.log == s.log
    && (forall g :: 0 <= g < |s.handlers| && g != h ==>
          s'.handlers[g] == s.handlers[g].(live := s'.handlers[g].live))
    && s'.handlers[h].ssl == s.handlers[h].ssl && s'.handlers[h].sent == s.handlers[h].sent
    && (Pending(s'.handlers[h]) <==> Pending(s.handlers[h]))
    && (Pending(s'.handlers[h]) ==> s'.handlers[h].msg == s.handlers[h].msg)
    && (LeaveBegun(s'.handlers[h]) <==> LeaveBegun(s.handlers[h]))
    && PcOk(s'.handlers[h], h)
  }

  lemma RoutineInv(s: State, s': State, h: nat)
    requires Inv(s) && Routine(s, s', h)
    ensures Inv(s')
  {
    forall g | 0 <= g < |s'.handlers| ensures SessionOk(s'.order, s'.log, s'.handlers[g], g) {
      assert SessionOk(s.order, s.log, s.handlers[g], g);
    }
    forall k | 0 <= k < |s'.order| ensures EntryOk(s'.handlers, s'.order[k]) {
      assert EntryOk(s.handlers, s.order[k]);
    }
  }

  lemma AcceptInv(s: State, ssl: nat)
    requires Inv(s) && Enabled(s, Accept(ssl))
    ensures Inv(Apply(s, Accept(ssl)))
  {
    var s', n := Apply(s, Accept(ssl)), |s.handlers|;
    forall k | 0 <= k < |s'.order| ensures EntryOk(s'.handlers, s'.order[k]) && s'.order[k].msg.author != n {
      assert EntryOk(s.handlers, s.order[k]);
    }
    ByNobody(Messages(s.order), n);
    ByNobody(s.log, n);
    forall g | 0 <= g < |s'.handlers| ensures SessionOk(s'.order, s'.log, s'.handlers[g], g) {
      if g < n { assert SessionOk(s.order, s.log, s.handlers[g], g); }
    }
  }

  // Another session's broadcast leaves this one's history alone, and so does its logging.
  lemma OtherStart(order: seq<Sent>, log: seq<Msg>, t: Handler, g: nat, x: Sent)
    requires SessionOk(order, log, t, g) && x.msg.author != g
    ensures SessionOk(order + [x], log, t, g)
  {
    OrderAppend(order, x, g);
  }

  lemma OtherSave(order: seq<Sent>, log: seq<Msg>, t: Handler, g: nat, x: Msg)
    requires SessionOk(order, log, t, g) && x.author != g
    ensures SessionOk(order, log + [x], t, g)
  {
    ByAppend(log, x, g);
  }

  lemma StartedScript(entries: seq<Msg>, t: Handler, t': Handler, h: nat)
    requires t.pc.BroadcastLock? && PcOk(t, h) && ScriptOk(entries, t)
    requires t' == t.(pc := BroadcastScan(t.pc.sender, 0), sent := t.sent + 1)
    ensures PcOk(t', h) && ScriptOk(entries + [t.msg], t')
  {
  }

  lemma OwnStart(order: seq<Sent>, log: seq<Msg>, t: Handler, h: nat, t': Handler)
    requires t.pc.BroadcastLock? && SessionOk(order, log, t, h)
    requires t' == t.(pc := BroadcastScan(t.pc.sender, 0), sent := t.sent + 1)
    ensures SessionOk(order + [Sent(t.msg, t.pc.sender)], log, t', h)
  {
    var entries := By(Messages(order), h);
    OrderAppend(order, Sent(t.msg, t.pc.sender), h);
    StartedScript(entries, t, t', h);
    assert entries[..t.sent] == entries;
    assert (entries + [t.msg])[..t.sent] == entries;
  }

  lemma OwnSave(order: seq<Sent>, log: seq<Msg>, t: Handler, h: nat, t': Handler)
    requires t.pc.Save? && SessionOk(order, log, t, h)
    requires t' == t.(pc := match t.msg.body case Join => Replay case Chat(_) => Receiving case Leave => RemoveLock)
    ensures SessionOk(order, log + [t.msg], t', h)
  {
    var entries := By(Messages(order), h);
    ByAppend(log, t.msg, h);
    SavedScript(entries, t, t', h);
  }

  lemma SavedScript(entries: seq<Msg>, t: Handler, t': Handler, h: nat)
    requires t.pc.Save? && PcOk(t, h) && ScriptOk(entries, t)
    requires t' == t.(pc := match t.msg.body case Join => Replay case Chat(_) => Receiving case Leave => RemoveLock)
    ensures PcOk(t', h) && ScriptOk(entries, t')
    ensures entries[..t.sent - 1] + [t.msg] == entries[..t'.sent]
  {
    assert entries[..t.sent - 1] + [t.msg] == entries == entries[..t.sent];
  }

  lemma BroadcastStartInv(s: State, h: nat)
    requires Inv(s) && Enabled(s, Run(h)) && s.handlers[h].pc.BroadcastLock?
    ensures Inv(Step(s, h))
  {
    var s', t := Step(s, h), s.handlers[h];
    var x := Sent(t.msg, t.pc.sender);
    assert s'.order == s.order + [x] && s'.log == s.log;
    forall g | 0 <= g < |s'.handlers| ensures SessionOk(s'.order, s'.log, s'.handlers[g], g) {
      assert SessionOk(s.order, s.log, s.handlers[g], g);
      if g == h {
        OwnStart(s.order, s.log, t, h, s'.handlers[h]);
      } else {
        OtherStart(s.order, s.log, s.handlers[g], g, x);
      }
    }
    BroadcastStartEntries(s, h);
  }

  lemma BroadcastStartEntries(s: State, h: nat)
    requires Inv(s) && Enabled(s, Run(h)) && s.handlers[h].pc.BroadcastLock?
    ensures forall k :: 0 <= k < |Step(s, h).order| ==> EntryOk(Step(s, h).handlers, Step(s, h).order[k])
  {
    var s' := Step(s, h);
    assert SessionOk(s.order, s.log, s.handlers[h], h);
    forall k | 0 <= k < |s'.order| ensures EntryOk(s'.handlers, s'.order[k]) {
      if k < |s.order| { assert EntryOk(s.handlers, s.order[k]); }
    }
  }

  lemma SaveInv(s: State, h: nat)
    requires Inv(s) && Enabled(s, Run(h)) && s.handlers[h].pc.Save?
    ensures Inv(Step(s, h))
  {
    var s', t := Step(s, h), s.handlers[h];
    assert s'.log == s.log + [t.msg] && s'.order == s.order;
    forall g | 0 <= g < |s'.handlers| ensures SessionOk(s'.order, s'.log, s'.handlers[g], g) {
      assert SessionOk(s.order, s.log, s.handlers[g], g);
      if g == h {
        OwnSave(s.order, s.log, t, h, s'.handlers[h]);
      } else {
        OtherSave(s.order, s.log, s.handlers[g], g, t.msg);
      }
    }
    forall k | 0 <= k < |s'.order| ensures EntryOk(s'.handlers, s'.order[k]) {
      assert EntryOk(s.handlers, s.order[k]);
    }
    assert SessionOk(s.order, s.log, t, h);
  }

  lemma ScanIsRoutine(s: State, h: nat)
    requires TlsRegistry.Inv(s) && Inv(s) && Enabled(s, Run(h)) && s.handlers[h].pc.BroadcastScan?
    ensures Routine(s, Step(s, h), h)
  {
    assert SessionOk(s.order, s.log, s.handlers[h], h);
    if s.handlers[h].pc.i < |s.slots| {
      TlsRegistry.ScanStep(s, h);
    }
  }

  lemma LocalIsRoutine(s: State, h: nat)
    requires Enabled(s, Run(h)) && PcOk(s.handlers[h], h)
    requires !s.handlers[h].pc.BroadcastLock? && !s.handlers[h].pc.BroadcastScan? && !s.handlers[h].pc.Save?
    ensures Routine(s, Step(s, h), h)
  {
    if BeforeJoin(s.handlers[h].pc) {
      JoiningIsRoutine(s, h);
    } else {
      LeavingIsRoutine(s, h);
    }
  }

  lemma JoiningIsRoutine(s: State, h: nat)
    requires Enabled(s, Run(h)) && PcOk(s.handlers[h], h) && BeforeJoin(s.handlers[h].pc)
    ensures Routine(s, Step(s, h), h)
  {
  }

  lemma LeavingIsRoutine(s: State, h: nat)
    requires Enabled(s, Run(h)) && PcOk(s.handlers[h], h)
    requires AfterLeave(s.handlers[h].pc) || s.handlers[h].pc.BroadcastUnlock? || s.handlers[h].pc.Replay?
    ensures Routine(s, Step(s, h), h)
  {
  }

  lemma StepInv(s: State, h: nat)
    requires TlsRegistry.Inv(s) && Inv(s) && Enabled(s, Run(h))
    ensures Inv(Step(s, h))
  {
    assert SessionOk(s.order, s.log, s.handlers[h], h);
    if s.handlers[h].pc.BroadcastLock? {
      BroadcastStartInv(s, h);
    } else if s.handlers[h].pc.Save? {
      SaveInv(s, h);
    } else {
      if s.handlers[h].pc.BroadcastScan? { ScanIsRoutine(s, h); } else { LocalIsRoutine(s, h); }
      RoutineInv(s, Step(s, h), h);
    }
  }

  lemma ChoiceIsRoutine(s: State, a: Action)
    requires Enabled(s, a) && (a.Authenticate? || a.Receive? || a.Hangup?) && PcOk(s.handlers[a.h], a.h)
    ensures Routine(s, Apply(s, a), a.h)
  {
  }

  lemma ApplyInv(s: State, a: Action)
    requires TlsRegistry.Inv(s) && Inv(s) && Enabled(s, a)
    ensures Inv(Apply(s, a))
  {
    match a {
      case Accept(ssl) => AcceptInv(s, ssl);
      case Run(h) => StepInv(s, h);
      case _ =>
        assert SessionOk(s.order, s.log, s.handlers[a.h], a.h);
        ChoiceIsRoutine(s, a);
        RoutineInv(s, Apply(s, a), a.h);
    }
  }

  lemma InitInv(capacity: nat)
    ensures TlsRegistry.Inv(Init(capacity)) && Inv(Init(capacity))
  {
  }

  lemma {:induction false} RunInv(s: State, actions: seq<Action>)
    requires TlsRegistry.Inv(s) && Inv(s) && ValidRun(s, actions)
    ensures TlsRegistry.Inv(Exec(s, actions)) && Inv(Exec(s, actions))
    decreases |actions|
  {
    if actions != [] {
      TlsRegistry.ApplyInv(s, actions[0]);
      ApplyInv(s, actions[0]);
      RunInv(Apply(s, actions[0]), actions[1..]);
    }
  }
}
