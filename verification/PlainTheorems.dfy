// What server.c guarantees in every state that it can reach.
module PlainTheorems {
  import opened Counting
  import opened PlainModel
  import opened PlainInvariants

  lemma Reachable(capacity: nat, actions: seq<Action>)
    requires ValidRun(Init(), actions, capacity)
    ensures Inv(Exec(Init(), actions, capacity), capacity)
  {
    InitInv(capacity);
    RunInv(Init(), actions, capacity);
  }

  // The table holds, entry for entry, the sockets of the handlers that have not removed
  // themselves, never more than fit; so the removal loop never runs off its end. This does not
  // depend on socket numbers being distinct.
  lemma TableMatchesHandlers(capacity: nat, actions: seq<Action>)
    requires ValidRun(Init(), actions, capacity)
    ensures var s := Exec(Init(), actions, capacity);
      && |s.clients| <= capacity
      && multiset(s.clients) == Bag(Entry, s.handlers)
      && forall h :: 0 <= h < |s.handlers| && s.handlers[h].pc.RemoveScan? ==> s.handlers[h].pc.i < |s.clients|
  {
    Reachable(capacity, actions);
    var s := Exec(Init(), actions, capacity);
    forall h | 0 <= h < |s.handlers| && s.handlers[h].pc.RemoveScan? ensures s.handlers[h].pc.i < |s.clients| {
      assert PassedOver(s.clients, s.handlers[h]);
      RemovalFinds(s, h, capacity);
    }
  }

  // When a broadcast ends, each session whose socket is open has received the message once for
  // every table entry with its socket number, and at least once; the sender has not.
  lemma BroadcastReachesEveryEntry(capacity: nat, actions: seq<Action>, g: nat, h: nat)
    requires ValidRun(Init(), actions, capacity)
    requires g < |Exec(Init(), actions, capacity).handlers| && h < |Exec(Init(), actions, capacity).handlers|
    requires Exec(Init(), actions, capacity).handlers[g].pc.BroadcastUnlock?
    requires Open(Exec(Init(), actions, capacity).handlers[h])
    ensures var s := Exec(Init(), actions, capacity);
      var copies := multiset(s.handlers[h].live)[s.handlers[g].msg];
      if g == h then copies == 0 else copies == multiset(s.clients)[s.handlers[h].sock] >= 1
  {
    Reachable(capacity, actions);
    var s := Exec(Init(), actions, capacity);
    assert CopiesOk(s.clients, s.handlers[g], s.handlers[h], g == h);
    EntryInTable(s, h, capacity);
  }

  // If no connection was given a number still in the table, no client has received any message
  // more than twice: once from the log and once live.
  lemma AtMostTwice(capacity: nat, actions: seq<Action>, h: nat, m: Msg)
    requires ValidRun(Init(), actions, capacity) && h < |Exec(Init(), actions, capacity).handlers|
    requires !Exec(Init(), actions, capacity).reissued
    ensures var t := Exec(Init(), actions, capacity).handlers[h];
      && multiset(t.live)[m] <= 1
      && (t.replayed.Some? ==> multiset(t.replayed.value)[m] <= 1)
  {
    Reachable(capacity, actions);
  }

  // ---- Nothing is missed ----

  // A chat message is in the log before its broadcast begins.
  predicate LoggedFirst(log: seq<Msg>, t: Handler)
  {
    (t.pc.BroadcastLock? || t.pc.BroadcastScan? || t.pc.BroadcastUnlock?) && t.msg.body.Chat? ==> t.msg in log
  }

  ghost predicate Settled(s: State, m: Msg)
  {
    Known(s.handlers, m) && !Underway(s.handlers, m) && (m.body.Chat? ==> m in s.log)
  }

  ghost predicate CompletedInv(s: State)
  {
    && (forall h :: 0 <= h < |s.handlers| ==> LoggedFirst(s.log, s.handlers[h]))
    && (forall k :: 0 <= k < |s.completed| ==> Settled(s, s.completed[k]))
  }

  lemma ScanCompleted(s: State, h: nat)
    requires ConnInv(s) && CompletedInv(s) && Enabled(s, Run(h))
    requires s.handlers[h].pc.BroadcastScan? && s.handlers[h].pc.i < |s.clients|
    ensures CompletedInv(Step(s, h))
  {
    var s' := Step(s, h);
    ScanStep(s, h);
    forall g | 0 <= g < |s'.handlers| ensures LoggedFirst(s'.log, s'.handlers[g]) {
      assert LoggedFirst(s.log, s.handlers[g]);
    }
    forall k | 0 <= k < |s'.completed| ensures Settled(s', s'.completed[k]) {
      assert Settled(s, s.completed[k]);
    }
  }

  // Handler h moves without completing a broadcast.
  lemma MoveCompleted(s: State, s': State, h: nat)
    requires CompletedInv(s) && Moves(s, s', h) && s'.completed == s.completed
    requires LoggedFirst(s'.log, s'.handlers[h])
    requires s'.log == s.log || s'.log == s.log + [s.handlers[h].msg]
    requires s'.handlers[h].msg.seqNo >= s.handlers[h].composed
      || (s'.handlers[h].msg == s.handlers[h].msg && (Busy(s'.handlers[h]) ==> Busy(s.handlers[h])))
    ensures CompletedInv(s')
  {
    forall g | 0 <= g < |s'.handlers| ensures LoggedFirst(s'.log, s'.handlers[g]) {
      assert LoggedFirst(s.log, s.handlers[g]);
    }
    forall k | 0 <= k < |s'.completed| ensures Settled(s', s'.completed[k]) {
      assert Settled(s, s.completed[k]);
    }
  }

  lemma UnlockCompleted(s: State, h: nat)
    requires CompletedInv(s) && Enabled(s, Run(h)) && s.handlers[h].pc.BroadcastUnlock?
    requires PcOk(s.handlers[h], h, s.clients)
    ensures CompletedInv(Step(s, h))
  {
    var s' := Step(s, h);
    assert LoggedFirst(s.log, s.handlers[h]);
    forall g | 0 <= g < |s'.handlers| ensures LoggedFirst(s'.log, s'.handlers[g]) {
      assert LoggedFirst(s.log, s.handlers[g]);
    }
    forall k | 0 <= k < |s'.completed| ensures Settled(s', s'.completed[k]) {
      if k < |s.completed| { assert Settled(s, s.completed[k]); }
    }
  }

  lemma AcceptCompleted(s: State, sock: nat, capacity: nat)
    requires CompletedInv(s) && Enabled(s, Accept(sock))
    ensures CompletedInv(Apply(s, Accept(sock), capacity))
  {
    var s' := Apply(s, Accept(sock), capacity);
    forall g | 0 <= g < |s'.handlers| ensures LoggedFirst(s'.log, s'.handlers[g]) {
      if g < |s.handlers| { assert LoggedFirst(s.log, s.handlers[g]); }
    }
    forall k | 0 <= k < |s'.completed| ensures Settled(s', s'.completed[k]) {
      assert Settled(s, s.completed[k]);
    }
  }

  lemma StepCompleted(s: State, h: nat)
    requires ConnInv(s) && CompletedInv(s) && Enabled(s, Run(h)) && PcOk(s.handlers[h], h, s.clients)
    ensures CompletedInv(Step(s, h))
  {
    if s.handlers[h].pc.BroadcastUnlock? {
      UnlockCompleted(s, h);
    } else if s.handlers[h].pc.BroadcastScan? && s.handlers[h].pc.i < |s.clients| {
      ScanCompleted(s, h);
    } else {
      assert LoggedFirst(s.log, s.handlers[h]);
      if s.handlers[h].pc.BroadcastScan? { EndMoves(s, h); } else { StepMoves(s, h); }
      MoveCompleted(s, Step(s, h), h);
    }
  }

  lemma {:induction false} RunCompleted(s: State, actions: seq<Action>, capacity: nat)
    requires Inv(s, capacity) && CompletedInv(s) && ValidRun(s, actions, capacity)
    ensures Inv(Exec(s, actions, capacity), capacity) && CompletedInv(Exec(s, actions, capacity))
    decreases |actions|
  {
    if actions != [] {
      var a := actions[0];
      ApplyInv(s, a, capacity);
      ApplyCompleted(s, a, capacity);
      RunCompleted(Apply(s, a, capacity), actions[1..], capacity);
    }
  }

  lemma ApplyCompleted(s: State, a: Action, capacity: nat)
    requires ConnInv(s) && KnownInv(s) && CompletedInv(s) && Enabled(s, a)
    ensures CompletedInv(Apply(s, a, capacity))
  {
    match a {
      case Accept(sock) => AcceptCompleted(s, sock, capacity);
      case Run(h) =>
        assert PcOk(s.handlers[h], h, s.clients);
        StepCompleted(s, h);
      case _ => MoveCompleted(s, Apply(s, a, capacity), a.h);
    }
  }

  // Registering before replaying and logging before broadcasting leave no gap: a session that has
  // replayed the log and not closed its socket has every chat message whose broadcast by another
  // handler has ended, from the log or live. Reissued socket numbers do not break this.
  lemma NothingIsMissed(capacity: nat, actions: seq<Action>, h: nat, m: Msg)
    requires ValidRun(Init(), actions, capacity) && h < |Exec(Init(), actions, capacity).handlers|
    requires Open(Exec(Init(), actions, capacity).handlers[h])
    requires Exec(Init(), actions, capacity).handlers[h].replayed.Some?
    requires m in Exec(Init(), actions, capacity).completed && m.body.Chat? && m.author != h
    ensures var t := Exec(Init(), actions, capacity).handlers[h];
      m in t.replayed.value || m in t.live
  {
    InitInv(capacity);
    RunCompleted(Init(), actions, capacity);
    CompletedIsReceived(Exec(Init(), actions, capacity), h, m);
  }

  lemma CompletedIsReceived(s: State, h: nat, m: Msg)
    requires CompletedInv(s) && NoLossInv(s) && h < |s.handlers|
    requires Open(s.handlers[h]) && s.handlers[h].replayed.Some?
    requires m in s.completed && m.body.Chat? && m.author != h
    ensures m in s.handlers[h].replayed.value || m in s.handlers[h].live
  {
    var j :| 0 <= j < |s.completed| && s.completed[j] == m;
    assert Settled(s, s.completed[j]) && MissesNothing(s, h);
    var k :| 0 <= k < |s.log| && s.log[k] == m;
    assert Reached(s.handlers, s.handlers[h], s.log[k]);
  }

  // ---- Progress ----

  // The handler waits for its client, or has ended.
  predicate Waiting(pc: Pc)
  {
    pc.Receiving? || pc.Done?
  }

  lemma HolderCanRun(s: State)
    requires MutexInv(s)
    ensures s.mutex.Some? ==> Enabled(s, Run(s.mutex.value))
  {
    if s.mutex.Some? {
      assert InSection(s.handlers[s.mutex.value]);
    }
  }

  lemma WaitingOrRuns(s: State, h: nat)
    requires h < |s.handlers| && s.mutex.None?
    ensures Enabled(s, Run(h)) <==> !Waiting(s.handlers[h].pc)
  {
  }

  ghost predicate StandsStill(s: State)
  {
    forall h: nat :: !Enabled(s, Run(h))
  }

  ghost predicate AllWait(s: State)
  {
    forall h :: 0 <= h < |s.handlers| ==> Waiting(s.handlers[h].pc)
  }

  // Whoever holds the mutex can go on, so the server stands still exactly when every handler
  // waits for its client or has ended.
  lemma NoDeadlock(capacity: nat, actions: seq<Action>)
    requires ValidRun(Init(), actions, capacity)
    ensures var s := Exec(Init(), actions, capacity);
      (s.mutex.Some? ==> Enabled(s, Run(s.mutex.value))) && (StandsStill(s) <==> AllWait(s))
  {
    Reachable(capacity, actions);
    var s := Exec(Init(), actions, capacity);
    HolderCanRun(s);
    if s.mutex.None? {
      forall h | 0 <= h < |s.handlers| ensures Enabled(s, Run(h)) <==> !Waiting(s.handlers[h].pc) {
        WaitingOrRuns(s, h);
      }
    } else {
      assert InSection(s.handlers[s.mutex.value]);
    }
  }
}
