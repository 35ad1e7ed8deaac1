// What server_tls_final.c guarantees in every state that it can reach.
module TlsTheorems {
  import opened TlsModel
  import opened TlsRegistry
  import TlsHistory

  lemma Reachable(capacity: nat, actions: seq<Action>)
    requires ValidRun(Init(capacity), actions)
    ensures Inv(Exec(Init(capacity), actions)) && TlsHistory.Inv(Exec(Init(capacity), actions))
  {
    TlsHistory.InitInv(capacity);
    TlsHistory.RunInv(Init(capacity), actions);
  }

  // ---- Session lifetime ----

  // Active slots hold distinct SSL objects, each still allocated and owned by a handler that has
  // not begun to free it, so no broadcast has ever written through a dangling pointer. This holds
  // although freed addresses are reused and although handle_client ignores a full table.
  lemma NoUseAfterFree(capacity: nat, actions: seq<Action>)
    requires ValidRun(Init(capacity), actions)
    ensures var s := Exec(Init(capacity), actions);
      && !s.fault
      && (forall i, j :: 0 <= i < j < |s.slots| && s.slots[i].active && s.slots[j].active ==>
            s.slots[i].ssl != s.slots[j].ssl)
      && (forall i :: 0 <= i < |s.slots| && s.slots[i].active ==>
            && s.slots[i].ssl in s.heap && s.heap[s.slots[i].ssl] < |s.handlers|
            && s.handlers[s.heap[s.slots[i].ssl]].ssl == s.slots[i].ssl
            && Registered(s.handlers[s.heap[s.slots[i].ssl]].pc))
  {
    Reachable(capacity, actions);
    var s := Exec(Init(capacity), actions);
    forall i | 0 <= i < |s.slots| && s.slots[i].active
      ensures s.slots[i].ssl in s.heap && s.heap[s.slots[i].ssl] < |s.handlers|
      ensures s.handlers[s.heap[s.slots[i].ssl]].ssl == s.slots[i].ssl
      ensures Registered(s.handlers[s.heap[s.slots[i].ssl]].pc)
    {
      assert SlotOk(s, i);
      assert MemberOk(s.slots, s.handlers[s.heap[s.slots[i].ssl]]);
    }
    forall i, j | 0 <= i < j < |s.slots| && s.slots[i].active && s.slots[j].active
      ensures s.slots[i].ssl != s.slots[j].ssl
    {
      assert SlotOk(s, i) && SlotOk(s, j);
    }
  }

  // ---- Who is left out ----

  ghost predicate ScanPrefix(slots: seq<Slot>, t: Handler)
  {
    t.pc.AddScan? ==> t.pc.i <= |slots| && forall j :: 0 <= j < t.pc.i ==> slots[j].active
  }

  ghost predicate PrefixInv(s: State)
  {
    forall h :: 0 <= h < |s.handlers| ==> ScanPrefix(s.slots, s.handlers[h])
  }

  lemma StepPrefix(s: State, h: nat)
    requires Inv(s) && PrefixInv(s) && Enabled(s, Run(h))
    ensures PrefixInv(Step(s, h))
  {
    var s' := Step(s, h);
    assert ScanPrefix(s.slots, s.handlers[h]);
    if s.handlers[h].pc.BroadcastScan? && s.handlers[h].pc.i < |s.slots| {
      ScanStep(s, h);
      forall g | 0 <= g < |s'.handlers| ensures ScanPrefix(s'.slots, s'.handlers[g]) {
        assert ScanPrefix(s.slots, s.handlers[g]);
      }
    } else {
      forall g | 0 <= g < |s'.handlers| ensures ScanPrefix(s'.slots, s'.handlers[g]) {
        assert ScanPrefix(s.slots, s.handlers[g]);
        if g != h && s'.slots != s.slots {
          assert InSection(s.handlers[h]) && !InSection(s.handlers[g]);
        }
      }
    }
  }

  lemma ApplyPrefix(s: State, a: Action)
    requires Inv(s) && PrefixInv(s) && Enabled(s, a)
    ensures PrefixInv(Apply(s, a))
  {
    if a.Run? {
      StepPrefix(s, a.h);
    } else {
      var s' := Apply(s, a);
      forall g | 0 <= g < |s'.handlers| ensures ScanPrefix(s'.slots, s'.handlers[g]) {
        if g < |s.handlers| { assert ScanPrefix(s.slots, s.handlers[g]); }
      }
    }
  }

  lemma {:induction false} RunPrefix(s: State, actions: seq<Action>)
    requires Inv(s) && PrefixInv(s) && ValidRun(s, actions)
    ensures Inv(Exec(s, actions)) && PrefixInv(Exec(s, actions))
    decreases |actions|
  {
    if actions != [] {
      ApplyInv(s, actions[0]);
      ApplyPrefix(s, actions[0]);
      RunPrefix(Apply(s, actions[0]), actions[1..]);
    }
  }

  ghost predicate TookLowestSlot(s: State, s': State, h: nat)
    requires h < |s'.handlers|
  {
    match s'.handlers[h].member
    case In(slot, _) =>
      && slot < |s.slots| && !s.slots[slot].active && (forall j :: 0 <= j < slot ==> s.slots[j].active)
      && s'.slots == s.slots[slot := Slot(s'.handlers[h].ssl, true)]
    case _ => s'.slots == s.slots && forall j :: 0 <= j < |s.slots| ==> s.slots[j].active
  }

  // A session that leaves add_client without a slot found every slot taken; any other session
  // takes the lowest free one.
  lemma OnlyAFullTableRefuses(capacity: nat, actions: seq<Action>, h: nat)
    requires ValidRun(Init(capacity), actions) && Enabled(Exec(Init(capacity), actions), Run(h))
    requires Exec(Init(capacity), actions).handlers[h].pc.AddScan?
    requires Step(Exec(Init(capacity), actions), h).handlers[h].pc.AddUnlock?
    ensures TookLowestSlot(Exec(Init(capacity), actions), Step(Exec(Init(capacity), actions), h), h)
  {
    var s := Exec(Init(capacity), actions);
    TlsHistory.InitInv(capacity);
    RunPrefix(Init(capacity), actions);
    assert ScanPrefix(s.slots, s.handlers[h]) && MemberOk(s.slots, s.handlers[h]);
  }

  // ---- Total-order delivery ----

  // The broadcasts of a stretch of the order that are meant for session h: everything except
  // what its own client typed.
  function Heard(order: seq<Sent>, h: nat): seq<Msg>
  {
    if order == [] then []
    else
      var msg := order[|order| - 1].msg;
      Heard(order[..|order| - 1], h) + (if msg.author == h && msg.body.Chat? then [] else [msg])
  }

  // broadcast compares SSL addresses. While session h is registered no other session that
  // broadcasts has the same address, even though addresses are reused later.
  ghost predicate NoAlias(s: State, t: Handler, h: nat, k: nat)
    requires k < |s.order|
  {
    s.order[k].msg.author < |s.handlers| && s.order[k].msg.author != h && s.order[k].msg.body.Chat? ==>
      s.handlers[s.order[k].msg.author].ssl != t.ssl
  }

  function From(t: Handler): nat
    requires !t.member.Outside?
  {
    t.member.start
  }

  predicate InStretch(s: State, t: Handler, k: int)
  {
    !t.member.Outside? && From(t) <= k < To(s, t) && k < |s.order|
  }

  function To(s: State, t: Handler): nat
  {
    if t.member.Left? then t.member.stop else |s.order|
  }

  ghost predicate AliasInv(s: State)
  {
    forall h, k :: 0 <= h < |s.handlers| && InStretch(s, s.handlers[h], k) ==> NoAlias(s, s.handlers[h], h, k)
  }

  lemma ApplyAlias(s: State, a: Action)
    requires Inv(s) && TlsHistory.Inv(s) && AliasInv(s) && Enabled(s, a)
    ensures AliasInv(Apply(s, a))
  {
    var s' := Apply(s, a);
    if a.Run? && s.handlers[a.h].pc.BroadcastLock? {
      StartAlias(s, a.h);
    } else {
      SameAddresses(s, a);
      forall h, k | 0 <= h < |s'.handlers| && InStretch(s', s'.handlers[h], k)
        ensures NoAlias(s', s'.handlers[h], h, k)
      {
        assert KeepsStretch(s, s', s.handlers[h], s'.handlers[h]);
        assert InStretch(s, s.handlers[h], k) && NoAlias(s, s.handlers[h], h, k);
        assert TlsHistory.EntryOk(s.handlers, s.order[k]);
        var g := s.order[k].msg.author;
        assert KeepsStretch(s, s', s.handlers[g], s'.handlers[g]);
      }
    }
  }

  // Handler t keeps its address, and a stretch it already had does not grow.
  predicate KeepsStretch(s: State, s': State, t: Handler, t': Handler)
  {
    && t'.ssl == t.ssl
    && (!t'.member.Outside? ==>
          || From(t') == |s.order|
          || (!t.member.Outside? && From(t') == From(t) && To(s', t') <= To(s, t)))
  }

  // What a step other than the start of a broadcast does to addresses and registered stretches.
  ghost predicate KeepsStretches(s: State, s': State)
  {
    && s'.order == s.order && |s.handlers| <= |s'.handlers|
    && (forall h :: 0 <= h < |s.handlers| ==> KeepsStretch(s, s', s.handlers[h], s'.handlers[h]))
    && (forall h :: |s.handlers| <= h < |s'.handlers| ==> s'.handlers[h].member.Outside?)
  }

  lemma SameAddresses(s: State, a: Action)
    requires Inv(s) && Enabled(s, a) && !(a.Run? && s.handlers[a.h].pc.BroadcastLock?)
    ensures KeepsStretches(s, Apply(s, a))
  {
    if a.Run? {
      if s.handlers[a.h].pc.BroadcastScan? && s.handlers[a.h].pc.i < |s.slots| {
        ScanStep(s, a.h);
      } else {
        assert MemberOk(s.slots, s.handlers[a.h]) && DeliveryOk(s, s.handlers[a.h]);
        StepKeepsStretch(s, a.h);
      }
    }
  }

  lemma StepKeepsStretch(s: State, h: nat)
    requires Enabled(s, Run(h)) && !s.handlers[h].pc.BroadcastLock?
    requires !(s.handlers[h].pc.BroadcastScan? && s.handlers[h].pc.i < |s.slots|)
    ensures Step(s, h).order == s.order && |Step(s, h).handlers| == |s.handlers|
    ensures Step(s, h).handlers == s.handlers[h := Step(s, h).handlers[h]]
    ensures KeepsStretch(s, Step(s, h), s.handlers[h], Step(s, h).handlers[h])
  {
    StepKeepsMember(s, h);
  }

  lemma StepKeepsMember(s: State, h: nat)
    requires Enabled(s, Run(h)) && !s.handlers[h].pc.BroadcastLock?
    requires !(s.handlers[h].pc.BroadcastScan? && s.handlers[h].pc.i < |s.slots|)
    ensures |Step(s, h).handlers| == |s.handlers| && Step(s, h).handlers[h].ssl == s.handlers[h].ssl
    ensures var m, m' := s.handlers[h].member, Step(s, h).handlers[h].member;
      m' == m || (m'.In? && m'.start == |s.order|) || (m.In? && m' == Left(m.start, |s.order|))
  {
  }

  lemma StartAlias(s: State, h: nat)
    requires Inv(s) && AliasInv(s) && Enabled(s, Run(h)) && s.handlers[h].pc.BroadcastLock?
    requires TlsHistory.Inv(s)
    ensures AliasInv(Step(s, h))
  {
    var s' := Step(s, h);
    assert TlsHistory.SessionOk(s.order, s.log, s.handlers[h], h);
    forall g, k | 0 <= g < |s'.handlers| && InStretch(s', s'.handlers[g], k)
      ensures NoAlias(s', s'.handlers[g], g, k)
    {
      assert DeliveryOk(s, s.handlers[g]) && MemberOk(s.slots, s.handlers[g]);
      if k < |s.order| {
        assert s'.order[k] == s.order[k] && InStretch(s, s.handlers[g], k) && NoAlias(s, s.handlers[g], g, k);
      } else {
        assert s.handlers[g].member.In? && !s.handlers[g].pc.Done?;
        assert s.heap[s.handlers[g].ssl] == g && s.heap[s.handlers[h].ssl] == h;
      }
    }
  }

  lemma {:induction false} RunAlias(s: State, actions: seq<Action>)
    requires Inv(s) && TlsHistory.Inv(s) && AliasInv(s) && ValidRun(s, actions)
    ensures Inv(Exec(s, actions)) && TlsHistory.Inv(Exec(s, actions)) && AliasInv(Exec(s, actions))
    decreases |actions|
  {
    if actions != [] {
      ApplyAlias(s, actions[0]);
      ApplyInv(s, actions[0]);
      TlsHistory.ApplyInv(s, actions[0]);
      RunAlias(Apply(s, actions[0]), actions[1..]);
    }
  }

  lemma {:induction false} AudibleIsHeard(s: State, stretch: seq<Sent>, h: nat)
    requires h < |s.handlers| && s.handlers[h].ssl != NULL
    requires forall k :: 0 <= k < |stretch| ==>
      && TlsHistory.EntryOk(s.handlers, stretch[k])
      && (stretch[k].msg.author != h && stretch[k].msg.body.Chat? ==>
            s.handlers[stretch[k].msg.author].ssl != s.handlers[h].ssl)
    ensures Audible(stretch, s.handlers[h].ssl) == Heard(stretch, h)
  {
    if stretch != [] {
      var n := |stretch| - 1;
      assert TlsHistory.EntryOk(s.handlers, stretch[n]);
      assert forall k :: 0 <= k < n ==> stretch[..n][k] == stretch[k];
      AudibleIsHeard(s, stretch[..n], h);
    }
  }

  ghost predicate DeliveredInOrder(s: State, h: nat)
    requires h < |s.handlers|
  {
    match s.handlers[h].member
    case Outside => s.handlers[h].live == []
    case Left(a, b) => a <= b <= |s.order| && s.handlers[h].live == Heard(s.order[a..b], h)
    case In(slot, a) =>
      && a <= Offered(s, slot) <= |s.order| && s.handlers[h].live == Heard(s.order[a..Offered(s, slot)], h)
      && (s.mutex.None? ==> Offered(s, slot) == |s.order|)
  }

  // What broadcast has written to a client is one stretch of the single global order, complete
  // and in that order, without what the client typed itself. The stretch runs from add_client to
  // remove_client, or to now; during a broadcast it includes the new message exactly for the
  // slots the scan has passed.
  lemma TotalOrder(capacity: nat, actions: seq<Action>, h: nat)
    requires ValidRun(Init(capacity), actions) && h < |Exec(Init(capacity), actions).handlers|
    ensures DeliveredInOrder(Exec(Init(capacity), actions), h)
  {
    TlsHistory.InitInv(capacity);
    RunAlias(Init(capacity), actions);
    DeliveryInOrder(Exec(Init(capacity), actions), h);
  }

  lemma DeliveryInOrder(s: State, h: nat)
    requires Inv(s) && TlsHistory.Inv(s) && AliasInv(s) && h < |s.handlers|
    ensures DeliveredInOrder(s, h)
  {
    var t := s.handlers[h];
    assert DeliveryOk(s, t) && MemberOk(s.slots, t);
    if t.member.In? || t.member.Left? {
      var a, b := t.member.start, if t.member.In? then Offered(s, t.member.slot) else t.member.stop;
      StretchHeard(s, h, a, b);
    }
  }

  lemma StretchHeard(s: State, h: nat, a: nat, b: nat)
    requires TlsHistory.Inv(s) && AliasInv(s) && h < |s.handlers| && s.handlers[h].ssl != NULL
    requires !s.handlers[h].member.Outside? && From(s.handlers[h]) == a <= b <= To(s, s.handlers[h]) && b <= |s.order|
    ensures Audible(s.order[a..b], s.handlers[h].ssl) == Heard(s.order[a..b], h)
  {
    var stretch := s.order[a..b];
    forall k | 0 <= k < |stretch|
      ensures TlsHistory.EntryOk(s.handlers, stretch[k])
      ensures stretch[k].msg.author < |s.handlers| && stretch[k].msg.author != h && stretch[k].msg.body.Chat? ==>
        s.handlers[stretch[k].msg.author].ssl != s.handlers[h].ssl
    {
      assert stretch[k] == s.order[a + k];
      assert TlsHistory.EntryOk(s.handlers, s.order[a + k]);
      assert InStretch(s, s.handlers[h], a + k) && NoAlias(s, s.handlers[h], h, a + k);
    }
    AudibleIsHeard(s, stretch, h);
  }

  // ---- Chat log ----

  // In the broadcast order each session joins first, then speaks, and leaves last; the chat log
  // has the same entries in the same order, all but at most the one about to be written.
  lemma LogFollowsOrder(capacity: nat, actions: seq<Action>, h: nat)
    requires ValidRun(Init(capacity), actions) && h < |Exec(Init(capacity), actions).handlers|
    ensures var s := Exec(Init(capacity), actions);
      var said, logged := By(Messages(s.order), h), By(s.log, h);
      && (forall n :: 0 <= n < |said| ==> said[n].seqNo == n)
      && (forall n :: 0 <= n < |said| ==> (said[n].body.Join? <==> n == 0))
      && (forall n :: 0 <= n < |said| ==>
            (said[n].body.Leave? <==> n == |said| - 1 && TlsHistory.LeaveBegun(s.handlers[h])))
      && logged <= said
      && |said| - |logged| == if Pending(s.handlers[h]) then 1 else 0
  {
    Reachable(capacity, actions);
    var s := Exec(Init(capacity), actions);
    assert TlsHistory.SessionOk(s.order, s.log, s.handlers[h], h);
  }

  // ---- Progress ----

  // The handler waits for its client, or has ended.
  predicate Waiting(pc: Pc)
  {
    pc.Authenticating? || pc.Receiving? || pc.Done?
  }

  lemma HolderCanRun(s: State)
    requires MutexInv(s)
    ensures s.mutex.Some? ==> Enabled(s, Run(s.mutex.value))
  {
    if s.mutex.Some? {
      assert InSection(s.handlers[s.mutex.value]);
    }
  }

  lemma WaitingOrRuns(s: State, h: nat)
    requires h < |s.handlers| && s.mutex.None?
    ensures Enabled(s, Run(h)) <==> !Waiting(s.handlers[h].pc)
  {
  }

  ghost predicate StandsStill(s: State)
  {
    forall h: nat :: !Enabled(s, Run(h))
  }

  ghost predicate AllWait(s: State)
  {
    forall h :: 0 <= h < |s.handlers| ==> Waiting(s.handlers[h].pc)
  }

  // Whoever holds the mutex can go on, so the server stands still exactly when every handler
  // waits for its client or has ended.
  lemma NoDeadlock(capacity: nat, actions: seq<Action>)
    requires ValidRun(Init(capacity), actions)
    ensures var s := Exec(Init(capacity), actions);
      (s.mutex.Some? ==> Enabled(s, Run(s.mutex.value))) && (StandsStill(s) <==> AllWait(s))
  {
    Reachable(capacity, actions);
    var s := Exec(Init(capacity), actions);
    HolderCanRun(s);
    if s.mutex.None? {
      forall h | 0 <= h < |s.handlers| ensures Enabled(s, Run(h)) <==> !Waiting(s.handlers[h].pc) {
        WaitingOrRuns(s, h);
      }
    } else {
      assert InSection(s.handlers[s.mutex.value]);
    }
  }
}
