// Memory safety of the client table and total-order delivery in server_tls_final.c.
module TlsRegistry {
  import opened Counting
  import opened Locks
  import opened TlsModel

  // ---- Invariants ----

  // Every handler that has not finished owns its SSL object, and nobody else's is allocated.
  ghost predicate HeapInv(s: State)
  {
    && (forall h :: 0 <= h < |s.handlers| && !s.handlers[h].pc.Done? ==>
          s.handlers[h].ssl in s.heap && s.heap[s.handlers[h].ssl] == h)
    && (forall a :: a in s.heap ==>
          a != NULL && s.heap[a] < |s.handlers| && s.handlers[s.heap[a]].ssl == a && !s.handlers[s.heap[a]].pc.Done?)
  }

  ghost predicate MutexInv(s: State)
  {
    Guards(s.mutex, InSection, s.handlers)
  }

  predicate Registered(pc: Pc)
  {
    !pc.Authenticating? && !pc.AddLock? && !pc.AddScan? && !pc.RemoveUnlock? && !pc.Freeing? && !pc.Done?
  }

  // An active slot holds the SSL object of a live handler that knows it is in this slot.
  ghost predicate SlotOk(s: State, i: nat)
    requires i < |s.slots|
  {
    s.slots[i].active ==>
      && s.slots[i].ssl in s.heap && s.heap[s.slots[i].ssl] < |s.handlers|
      && s.handlers[s.heap[s.slots[i].ssl]].member.In?
      && s.handlers[s.heap[s.slots[i].ssl]].member.slot == i
  }

  ghost predicate MemberOk(slots: seq<Slot>, t: Handler)
  {
    && (t.member.In? ==>
          && t.member.slot < |slots| && slots[t.member.slot] == Slot(t.ssl, true) && Registered(t.pc)
          && (t.pc.RemoveScan? ==> t.pc.i <= t.member.slot))
    && (t.pc.Authenticating? || t.pc.AddLock? || t.pc.AddScan? ==> t.member.Outside?)
    && t.ssl != NULL
  }

  ghost predicate TableInv(s: State)
  {
    && (forall i :: 0 <= i < |s.slots| ==> SlotOk(s, i))
    && (forall h :: 0 <= h < |s.handlers| ==> MemberOk(s.slots, s.handlers[h]))
  }

  // How far the scan of the broadcast in progress has got, if there is one.
  function ScanIndex(s: State): Option<nat>
  {
    if s.mutex.Some? && s.mutex.value < |s.handlers| && s.handlers[s.mutex.value].pc.BroadcastScan?
    then Some(s.handlers[s.mutex.value].pc.i) else None
  }

  // How much of the broadcast order a slot has been offered: all of it, less the message being
  // broadcast if the scan has not reached the slot.
  function Offered(s: State, slot: nat): nat
  {
    if ScanIndex(s).Some? && slot >= ScanIndex(s).value && |s.order| > 0 then |s.order| - 1 else |s.order|
  }

  ghost predicate DeliveryOk(s: State, t: Handler)
  {
    match t.member
    case Outside => t.live == []
    case Left(a, b) => a <= b <= |s.order| && t.live == Audible(s.order[a..b], t.ssl)
    case In(slot, a) =>
      && a <= Offered(s, slot) && t.live == Audible(s.order[a..Offered(s, slot)], t.ssl)
      && (ScanIndex(s).Some? ==> a < |s.order|)
  }

  ghost predicate DeliveryInv(s: State)
  {
    forall h :: 0 <= h < |s.handlers| ==> DeliveryOk(s, s.handlers[h])
  }

  // The message being scanned for is the last one of the order.
  ghost predicate ScanOk(order: seq<Sent>, t: Handler)
  {
    t.pc.BroadcastScan? ==> |order| > 0 && order[|order| - 1] == Sent(t.msg, t.pc.sender)
  }

  ghost predicate ScanInv(s: State)
  {
    forall h :: 0 <= h < |s.handlers| ==> ScanOk(s.order, s.handlers[h])
  }

  ghost predicate Inv(s: State)
  {
    HeapInv(s) && MutexInv(s) && TableInv(s) && ScanInv(s) && DeliveryInv(s) && !s.fault
  }

  // ---- Frames: what kinds of change keep each invariant ----

  // Nothing but handler h changes, and it keeps its SSL object and stays alive.
  ghost predicate OnlyHandler(s: State, s': State, h: nat)
  {
    && h < |s.handlers| && |s'.handlers| == |s.handlers|
    && s'.handlers == s.handlers[h := s'.handlers[h]]
    && s'.handlers[h].ssl == s.handlers[h].ssl
    && (s'.handlers[h].pc.Done? <==> s.handlers[h].pc.Done?)
    && s'.heap == s.heap
  }

  lemma HeapFrame(s: State, s': State, h: nat)
    requires HeapInv(s) && OnlyHandler(s, s', h)
    ensures HeapInv(s')
  {
  }

  lemma HeapAccept(s: State, ssl: nat)
    requires HeapInv(s) && Enabled(s, Accept(ssl))
    ensures HeapInv(Apply(s, Accept(ssl)))
  {
    var s' := Apply(s, Accept(ssl));
    forall a | a in s'.heap
      ensures a != NULL && s'.heap[a] < |s'.handlers| && s'.handlers[s'.heap[a]].ssl == a
      ensures !s'.handlers[s'.heap[a]].pc.Done?
    {
      if a != ssl { assert a in s.heap; }
    }
  }

  lemma HeapFree(s: State, h: nat)
    requires HeapInv(s) && h < |s.handlers| && !s.handlers[h].pc.Done?
    ensures HeapInv(Free(s, h))
  {
    var s' := Free(s, h);
    forall g | 0 <= g < |s'.handlers| && !s'.handlers[g].pc.Done?
      ensures s'.handlers[g].ssl in s'.heap && s'.heap[s'.handlers[g].ssl] == g
    {
      assert g != h && s.heap[s.handlers[g].ssl] == g;
    }
  }

  lemma TableFrame(s: State, s': State, h: nat)
    requires TableInv(s) && OnlyHandler(s, s', h) && s'.slots == s.slots
    requires s'.handlers[h].member == s.handlers[h].member && MemberOk(s.slots, s'.handlers[h])
    ensures TableInv(s')
  {
    forall i | 0 <= i < |s'.slots| ensures SlotOk(s', i) { assert SlotOk(s, i); }
    forall g | 0 <= g < |s'.handlers| ensures MemberOk(s'.slots, s'.handlers[g]) {
      assert MemberOk(s.slots, s.handlers[g]);
    }
  }

  // The order and the scan in progress are the same, so every session has been offered the same.
  lemma DeliveryFrame(s: State, s': State, h: nat)
    requires DeliveryInv(s) && OnlyHandler(s, s', h)
    requires s'.order == s.order && ScanIndex(s') == ScanIndex(s)
    requires s'.handlers[h].member == s.handlers[h].member && s'.handlers[h].live == s.handlers[h].live
    ensures DeliveryInv(s')
  {
    forall g | 0 <= g < |s'.handlers| ensures DeliveryOk(s', s'.handlers[g]) {
      assert DeliveryOk(s, s.handlers[g]);
    }
  }

  lemma ScanFrame(s: State, s': State, h: nat)
    requires ScanInv(s) && OnlyHandler(s, s', h) && s'.order == s.order && ScanOk(s'.order, s'.handlers[h])
    ensures ScanInv(s')
  {
    forall g | 0 <= g < |s'.handlers| ensures ScanOk(s'.order, s'.handlers[g]) {
      assert ScanOk(s.order, s.handlers[g]);
    }
  }

  // ---- Sessions that come and go ----

  lemma AcceptInv(s: State, ssl: nat)
    requires Inv(s) && Enabled(s, Accept(ssl))
    ensures Inv(Apply(s, Accept(ssl)))
  {
    var s' := Apply(s, Accept(ssl));
    var t := s'.handlers[|s.handlers|];
    HeapAccept(s, ssl);
    GuardsAppend(s.mutex, InSection, s.handlers, t);
    forall i | 0 <= i < |s'.slots| ensures SlotOk(s', i) { assert SlotOk(s, i); }
    forall g | 0 <= g < |s'.handlers|
      ensures MemberOk(s'.slots, s'.handlers[g]) && ScanOk(s'.order, s'.handlers[g])
    {
      if g < |s.handlers| { assert MemberOk(s.slots, s.handlers[g]) && ScanOk(s.order, s.handlers[g]); }
    }
    assert ScanIndex(s') == ScanIndex(s);
    forall g | 0 <= g < |s'.handlers| ensures DeliveryOk(s', s'.handlers[g]) {
      if g < |s.handlers| { assert DeliveryOk(s, s.handlers[g]); }
    }
  }

  // A handler frees its SSL object only when no slot refers to it any more.
  lemma FreeInv(s: State, h: nat)
    requires Inv(s) && h < |s.handlers|
    requires s.handlers[h].pc.Authenticating? || s.handlers[h].pc.Freeing?
    ensures Inv(Free(s, h))
  {
    var s' := Free(s, h);
    HeapFree(s, h);
    GuardsKept(s.mutex, InSection, s.handlers, h, s'.handlers[h], s'.mutex);
    assert MemberOk(s.slots, s.handlers[h]);
    forall i | 0 <= i < |s'.slots| ensures SlotOk(s', i) {
      assert SlotOk(s, i);
      if s.slots[i].active { assert s.heap[s.slots[i].ssl] != h; }
    }
    forall g | 0 <= g < |s'.handlers|
      ensures MemberOk(s'.slots, s'.handlers[g]) && ScanOk(s'.order, s'.handlers[g])
    {
      assert MemberOk(s.slots, s.handlers[g]) && ScanOk(s.order, s.handlers[g]);
    }
    FreeDelivery(s, h);
  }

  lemma FreeDelivery(s: State, h: nat)
    requires MutexInv(s) && DeliveryInv(s) && h < |s.handlers|
    requires s.handlers[h].pc.Authenticating? || s.handlers[h].pc.Freeing?
    ensures DeliveryInv(Free(s, h))
  {
    var s' := Free(s, h);
    assert !InSection(s.handlers[h]);
    assert ScanIndex(s') == ScanIndex(s);
    forall g | 0 <= g < |s'.handlers| ensures DeliveryOk(s', s'.handlers[g]) {
      assert DeliveryOk(s, s.handlers[g]);
    }
  }

  // ---- Registration ----

  lemma RegisterInv(s: State, h: nat)
    requires Inv(s) && h < |s.handlers| && s.handlers[h].pc.AddScan?
    requires s.handlers[h].pc.i < |s.slots| && !s.slots[s.handlers[h].pc.i].active
    ensures Inv(Step(s, h))
  {
    var s', k := Step(s, h), s.handlers[h].pc.i;
    HeapFrame(s, s', h);
    GuardsKept(s.mutex, InSection, s.handlers, h, s'.handlers[h], s'.mutex);
    ScanFrame(s, s', h);
    RegisterTable(s, h);
    assert ScanIndex(s').None? && ScanIndex(s).None?;
    forall g | 0 <= g < |s'.handlers| ensures DeliveryOk(s', s'.handlers[g]) {
      assert DeliveryOk(s, s.handlers[g]) && MemberOk(s.slots, s.handlers[g]);
      if g == h { assert s.order[|s.order|..|s.order|] == []; }
    }
  }

  lemma RegisterTable(s: State, h: nat)
    requires HeapInv(s) && TableInv(s) && h < |s.handlers| && s.handlers[h].pc.AddScan?
    requires s.handlers[h].pc.i < |s.slots| && !s.slots[s.handlers[h].pc.i].active
    ensures TableInv(Step(s, h))
  {
    var s', k := Step(s, h), s.handlers[h].pc.i;
    assert MemberOk(s.slots, s.handlers[h]);
    forall i | 0 <= i < |s'.slots| ensures SlotOk(s', i) {
      assert SlotOk(s, i);
    }
    forall g | 0 <= g < |s'.handlers| ensures MemberOk(s'.slots, s'.handlers[g]) {
      assert MemberOk(s.slots, s.handlers[g]);
    }
  }

  lemma UnregisterInv(s: State, h: nat)
    requires Inv(s) && h < |s.handlers| && s.handlers[h].pc.RemoveScan?
    requires s.handlers[h].pc.i < |s.slots|
    requires s.slots[s.handlers[h].pc.i] == Slot(s.handlers[h].ssl, true)
    ensures Inv(Step(s, h))
  {
    var s', k := Step(s, h), s.handlers[h].pc.i;
    HeapFrame(s, s', h);
    GuardsKept(s.mutex, InSection, s.handlers, h, s'.handlers[h], s'.mutex);
    ScanFrame(s, s', h);
    UnregisterTable(s, h);
    assert SlotOk(s, k);
    assert ScanIndex(s').None? && ScanIndex(s).None?;
    forall g | 0 <= g < |s'.handlers| ensures DeliveryOk(s', s'.handlers[g]) {
      assert DeliveryOk(s, s.handlers[g]);
    }
  }

  lemma UnregisterTable(s: State, h: nat)
    requires HeapInv(s) && TableInv(s) && h < |s.handlers| && s.handlers[h].pc.RemoveScan?
    requires s.handlers[h].pc.i < |s.slots|
    requires s.slots[s.handlers[h].pc.i] == Slot(s.handlers[h].ssl, true)
    ensures TableInv(Step(s, h))
  {
    var s', k := Step(s, h), s.handlers[h].pc.i;
    assert SlotOk(s, k);
    forall i | 0 <= i < |s'.slots| ensures SlotOk(s', i) {
      assert SlotOk(s, i);
    }
    forall g | 0 <= g < |s'.handlers| ensures MemberOk(s'.slots, s'.handlers[g]) {
      assert MemberOk(s.slots, s.handlers[g]);
    }
  }

  // ---- Broadcast ----

  lemma AudibleAppend(order: seq<Sent>, x: Sent, ssl: nat)
    ensures Audible(order + [x], ssl) == Audible(order, ssl) + (if x.sender != ssl then [x.msg] else [])
  {
    assert (order + [x])[..|order|] == order;
  }

  lemma BroadcastStartInv(s: State, h: nat)
    requires Inv(s) && h < |s.handlers| && s.handlers[h].pc.BroadcastLock? && s.mutex.None?
    ensures Inv(Step(s, h))
  {
    var s' := Step(s, h);
    HeapFrame(s, s', h);
    GuardsKept(s.mutex, InSection, s.handlers, h, s'.handlers[h], s'.mutex);
    assert MemberOk(s.slots, s.handlers[h]);
    TableFrame(s, s', h);
    forall g | 0 <= g < |s'.handlers| ensures ScanOk(s'.order, s'.handlers[g]) {
      assert InSection(s.handlers[g]) <==> s.mutex == Some(g);
    }
    BroadcastStartDelivery(s, h);
  }

  lemma BroadcastStartDelivery(s: State, h: nat)
    requires DeliveryInv(s) && h < |s.handlers| && s.handlers[h].pc.BroadcastLock? && s.mutex.None?
    ensures DeliveryInv(Step(s, h))
  {
    var s', n := Step(s, h), |s.order|;
    assert ScanIndex(s') == Some(0) && ScanIndex(s).None?;
    assert s'.order == s.order + [s'.order[n]];
    forall g | 0 <= g < |s'.handlers| ensures DeliveryOk(s', s'.handlers[g]) {
      assert DeliveryOk(s, s.handlers[g]);
      NotYetOffered(s, s', s.handlers[g], s'.handlers[g], s'.order[n]);
    }
  }

  lemma SameStretch(order: seq<Sent>, x: Sent, a: nat, b: nat)
    requires a <= b <= |order|
    ensures (order + [x])[a..b] == order[a..b]
  {
    forall k | 0 <= k < b - a ensures (order + [x])[a..b][k] == order[a..b][k] {
      assert (order + [x])[a..b][k] == (order + [x])[a + k];
    }
  }

  // A broadcast that has just begun has been offered to nobody.
  lemma NotYetOffered(s: State, s': State, t: Handler, t': Handler, x: Sent)
    requires ScanIndex(s).None? && ScanIndex(s') == Some(0) && s'.order == s.order + [x] && DeliveryOk(s, t)
    requires t'.member == t.member && t'.live == t.live && t'.ssl == t.ssl
    ensures DeliveryOk(s', t')
  {
    var n, m := |s.order|, t.member;
    if m.Left? {
      SameStretch(s.order, x, m.start, m.stop);
    } else if m.In? {
      assert Offered(s', m.slot) == n && Offered(s, m.slot) == n;
      SameStretch(s.order, x, m.start, n);
    }
  }

  // The receiver of the write made at slot i, if there is one.
  function Target(s: State, h: nat): Option<nat>
    requires h < |s.handlers| && s.handlers[h].pc.BroadcastScan? && s.handlers[h].pc.i < |s.slots|
  {
    var slot := s.slots[s.handlers[h].pc.i];
    if slot.active && slot.ssl != s.handlers[h].pc.sender && slot.ssl in s.heap then Some(s.heap[slot.ssl]) else None
  }

  // The scan step as seen by the invariants: h advances, and the target gets the message.
  lemma ScanStep(s: State, h: nat)
    requires HeapInv(s) && TableInv(s)
    requires h < |s.handlers| && s.handlers[h].pc.BroadcastScan? && s.handlers[h].pc.i < |s.slots|
    ensures var s', t := Step(s, h), s.handlers[h];
      && s' == s.(handlers := s'.handlers) && |s'.handlers| == |s.handlers|
      && forall g :: 0 <= g < |s.handlers| ==>
           s'.handlers[g] == s.handlers[g].(
             pc := if g == h then BroadcastScan(t.pc.sender, t.pc.i + 1) else s.handlers[g].pc,
             live := s.handlers[g].live + if Target(s, h) == Some(g) then [t.msg] else [])
  {
    assert SlotOk(s, s.handlers[h].pc.i);
  }

  lemma ScanStepInv(s: State, h: nat)
    requires Inv(s) && h < |s.handlers| && s.handlers[h].pc.BroadcastScan? && s.handlers[h].pc.i < |s.slots|
    ensures Inv(Step(s, h))
  {
    var s' := Step(s, h);
    ScanStep(s, h);
    ScanStepStructure(s, h);
    forall g | 0 <= g < |s'.handlers| ensures DeliveryOk(s', s'.handlers[g]) {
      ScanStepDelivery(s, h, g);
    }
  }

  lemma ScanStepStructure(s: State, h: nat)
    requires HeapInv(s) && MutexInv(s) && TableInv(s) && ScanInv(s)
    requires h < |s.handlers| && s.handlers[h].pc.BroadcastScan? && s.handlers[h].pc.i < |s.slots|
    ensures HeapInv(Step(s, h)) && MutexInv(Step(s, h)) && TableInv(Step(s, h)) && ScanInv(Step(s, h))
  {
    var s' := Step(s, h);
    ScanStep(s, h);
    assert forall g :: 0 <= g < |s.handlers| ==> (InSection(s'.handlers[g]) <==> InSection(s.handlers[g]));
    forall i | 0 <= i < |s'.slots| ensures SlotOk(s', i) { assert SlotOk(s, i); }
    forall g | 0 <= g < |s'.handlers|
      ensures MemberOk(s'.slots, s'.handlers[g]) && ScanOk(s'.order, s'.handlers[g])
    {
      assert MemberOk(s.slots, s.handlers[g]) && ScanOk(s.order, s.handlers[g]);
    }
  }

  // The slot the scan has just passed is now offered the whole order.
  lemma DeliverHere(s: State, s': State, k: nat, t: Handler, t': Handler)
    requires ScanIndex(s) == Some(k) && ScanIndex(s') == Some(k + 1) && s'.order == s.order && |s.order| > 0
    requires t.member.In? && t.member.slot == k && DeliveryOk(s, t)
    requires t'.member == t.member && t'.ssl == t.ssl
    requires t'.live == t.live + if s.order[|s.order| - 1].sender != t.ssl then [s.order[|s.order| - 1].msg] else []
    ensures DeliveryOk(s', t')
  {
    var n, a := |s.order| - 1, t.member.start;
    assert Offered(s, k) == n && Offered(s', k) == n + 1;
    assert s.order[a..n + 1] == s.order[a..n] + [s.order[n]];
    AudibleAppend(s.order[a..n], s.order[n], t.ssl);
  }

  // No other slot is.
  lemma DeliverElsewhere(s: State, s': State, k: nat, t: Handler, t': Handler)
    requires ScanIndex(s) == Some(k) && ScanIndex(s') == Some(k + 1) && s'.order == s.order
    requires !(t.member.In? && t.member.slot == k) && DeliveryOk(s, t)
    requires t'.member == t.member && t'.ssl == t.ssl && t'.live == t.live
    ensures DeliveryOk(s', t')
  {
    assert t.member.In? ==> Offered(s', t.member.slot) == Offered(s, t.member.slot);
  }

  lemma ScanStepDelivery(s: State, h: nat, g: nat)
    requires HeapInv(s) && MutexInv(s) && TableInv(s) && ScanInv(s) && DeliveryInv(s)
    requires h < |s.handlers| && s.handlers[h].pc.BroadcastScan? && s.handlers[h].pc.i < |s.slots|
    requires g < |s.handlers|
    ensures g < |Step(s, h).handlers| && DeliveryOk(Step(s, h), Step(s, h).handlers[g])
  {
    var s', k, t := Step(s, h), s.handlers[h].pc.i, s.handlers[g];
    ScanStepAt(s, h, g);
    assert ScanOk(s.order, s.handlers[h]) && DeliveryOk(s, t);
    if t.member.In? && t.member.slot == k {
      DeliverHere(s, s', k, t, s'.handlers[g]);
    } else {
      DeliverElsewhere(s, s', k, t, s'.handlers[g]);
    }
  }

  // The scan moves on by one slot, and its session, unless it is the sender, gets the message.
  lemma ScanStepAt(s: State, h: nat, g: nat)
    requires HeapInv(s) && MutexInv(s) && TableInv(s)
    requires h < |s.handlers| && s.handlers[h].pc.BroadcastScan? && s.handlers[h].pc.i < |s.slots|
    requires g < |s.handlers|
    ensures var s', k, t := Step(s, h), s.handlers[h].pc.i, s.handlers[g];
      && g < |s'.handlers| && s'.order == s.order
      && ScanIndex(s) == Some(k) && ScanIndex(s') == Some(k + 1)
      && s'.handlers[g].member == t.member && s'.handlers[g].ssl == t.ssl
      && s'.handlers[g].live == t.live
         + if t.member.In? && t.member.slot == k && t.ssl != s.handlers[h].pc.sender then [s.handlers[h].msg] else []
  {
    ScanStep(s, h);
    assert InSection(s.handlers[h]);
    TargetIsMember(s, h, g);
  }

  // A write goes to g exactly when g is registered in the slot and is not the sender.
  lemma TargetIsMember(s: State, h: nat, g: nat)
    requires HeapInv(s) && TableInv(s)
    requires h < |s.handlers| && s.handlers[h].pc.BroadcastScan? && s.handlers[h].pc.i < |s.slots|
    requires g < |s.handlers|
    ensures Target(s, h) == Some(g) <==>
      var t := s.handlers[g];
      t.member.In? && t.member.slot == s.handlers[h].pc.i && t.ssl != s.handlers[h].pc.sender
  {
    assert SlotOk(s, s.handlers[h].pc.i) && MemberOk(s.slots, s.handlers[g]);
  }

  lemma BroadcastEndInv(s: State, h: nat)
    requires Inv(s) && h < |s.handlers| && s.handlers[h].pc.BroadcastScan? && s.handlers[h].pc.i >= |s.slots|
    ensures Inv(Step(s, h))
  {
    var s' := Step(s, h);
    HeapFrame(s, s', h);
    GuardsKept(s.mutex, InSection, s.handlers, h, s'.handlers[h], s'.mutex);
    assert MemberOk(s.slots, s.handlers[h]);
    TableFrame(s, s', h);
    ScanFrame(s, s', h);
    forall g | 0 <= g < |s'.handlers| ensures DeliveryOk(s', s'.handlers[g]) {
      assert DeliveryOk(s, s.handlers[g]) && MemberOk(s.slots, s.handlers[g]);
      assert s.handlers[g].member.In? ==>
        Offered(s', s.handlers[g].member.slot) == Offered(s, s.handlers[g].member.slot);
    }
  }

  // ---- Everything else ----

  // Steps that touch neither the table nor the order nor anyone's inbox.
  predicate Quiet(s: State, h: nat)
  {
    h < |s.handlers| && CanRun(s, s.handlers[h].pc) &&
    match s.handlers[h].pc
    case AddScan(i) => i >= |s.slots| || s.slots[i].active
    case RemoveScan(i) => i >= |s.slots| || s.slots[i] != Slot(s.handlers[h].ssl, true)
    case BroadcastLock(_) => false
    case BroadcastScan(_, _) => false
    case Freeing => false
    case _ => true
  }

  lemma QuietEffect(s: State, h: nat)
    requires Quiet(s, h) && HeapInv(s)
    ensures OnlyHandler(s, Step(s, h), h)
    ensures var s' := Step(s, h);
      && s'.slots == s.slots && s'.order == s.order && s'.fault == s.fault
      && s'.handlers[h].member == s.handlers[h].member && s'.handlers[h].live == s.handlers[h].live
      && !s'.handlers[h].pc.BroadcastScan? && !s.handlers[h].pc.BroadcastScan?
  {
  }

  lemma QuietMutex(s: State, h: nat)
    requires Quiet(s, h) && MutexInv(s) && HeapInv(s)
    ensures MutexInv(Step(s, h))
  {
    var s' := Step(s, h);
    QuietEffect(s, h);
    GuardsKept(s.mutex, InSection, s.handlers, h, s'.handlers[h], s'.mutex);
  }

  lemma QuietMember(s: State, h: nat)
    requires Quiet(s, h) && HeapInv(s) && MemberOk(s.slots, s.handlers[h])
    ensures h < |Step(s, h).handlers| && MemberOk(s.slots, Step(s, h).handlers[h])
  {
  }

  lemma QuietInv(s: State, h: nat)
    requires Quiet(s, h) && Inv(s)
    ensures Inv(Step(s, h))
  {
    var s' := Step(s, h);
    QuietEffect(s, h);
    HeapFrame(s, s', h);
    QuietMutex(s, h);
    assert MemberOk(s.slots, s.handlers[h]);
    QuietMember(s, h);
    TableFrame(s, s', h);
    ScanFrame(s, s', h);
    QuietScanIndex(s, h);
    DeliveryFrame(s, s', h);
  }

  lemma QuietScanIndex(s: State, h: nat)
    requires Quiet(s, h) && MutexInv(s) && HeapInv(s)
    ensures ScanIndex(Step(s, h)) == ScanIndex(s)
  {
    QuietEffect(s, h);
    QuietMutex(s, h);
    var s' := Step(s, h);
    assert InSection(s.handlers[h]) <==> s.mutex == Some(h);
    assert InSection(s'.handlers[h]) <==> s'.mutex == Some(h);
    if s'.mutex != s.mutex {
      assert s'.mutex == Some(h) || s.mutex == Some(h);
    }
  }

  lemma StepInv(s: State, h: nat)
    requires Inv(s) && Enabled(s, Run(h))
    ensures Inv(Step(s, h))
  {
    if Quiet(s, h) {
      QuietInv(s, h);
    } else {
      match s.handlers[h].pc {
        case AddScan(_) => RegisterInv(s, h);
        case RemoveScan(_) => UnregisterInv(s, h);
        case BroadcastLock(_) => BroadcastStartInv(s, h);
        case BroadcastScan(_, i) => if i < |s.slots| { ScanStepInv(s, h); } else { BroadcastEndInv(s, h); }
        case Freeing => FreeInv(s, h);
      }
    }
  }

  lemma ChoiceInv(s: State, h: nat, t: Handler)
    requires Inv(s) && h < |s.handlers|
    requires if s.handlers[h].pc.Authenticating? then t.pc.AddLock?
             else s.handlers[h].pc.Receiving? && t.pc.BroadcastLock?
    requires t == s.handlers[h].(pc := t.pc, msg := t.msg)
    ensures Inv(Put(s, h, t))
  {
    var s' := Put(s, h, t);
    HeapFrame(s, s', h);
    GuardsKept(s.mutex, InSection, s.handlers, h, t, s'.mutex);
    assert MemberOk(s.slots, s.handlers[h]);
    TableFrame(s, s', h);
    ScanFrame(s, s', h);
    assert !InSection(s.handlers[h]) && ScanIndex(s') == ScanIndex(s);
    DeliveryFrame(s, s', h);
  }

  lemma ApplyInv(s: State, a: Action)
    requires Inv(s) && Enabled(s, a)
    ensures Inv(Apply(s, a))
  {
    match a {
      case Accept(ssl) => AcceptInv(s, ssl);
      case Authenticate(h, ok) => if ok { ChoiceInv(s, h, Apply(s, a).handlers[h]); } else { FreeInv(s, h); }
      case Receive(h, _) => ChoiceInv(s, h, Apply(s, a).handlers[h]);
      case Hangup(h) => ChoiceInv(s, h, Apply(s, a).handlers[h]);
      case Run(h) => StepInv(s, h);
    }
  }

  lemma {:induction false} RunInv(s: State, actions: seq<Action>)
    requires Inv(s) && ValidRun(s, actions)
    ensures Inv(Exec(s, actions))
    decreases |actions|
  {
    if actions != [] {
      ApplyInv(s, actions[0]);
      RunInv(Apply(s, actions[0]), actions[1..]);
    }
  }
}
