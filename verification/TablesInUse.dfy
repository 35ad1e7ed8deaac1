// The loops of the running chat servers, one table entry at a time with other threads' steps in
// between, have the effect of the uninterrupted table operations.
module TablesInUse {
  import opened Counting
  import opened Registry
  import T = TlsModel
  import TlsRegistry
  import TlsTheorems
  import TlsHistory
  import TlsJoiner
  import P = PlainModel
  import PlainInvariants
  import PlainTheorems

  // ---- server_tls_final.c ----

  // The step that ends add_client's loop leaves the table that Add makes of it.
  lemma AddScanIsAdd(capacity: nat, actions: seq<T.Action>, h: nat)
    requires T.ValidRun(T.Init(capacity), actions)
    requires T.Enabled(T.Exec(T.Init(capacity), actions), T.Run(h))
    requires T.Exec(T.Init(capacity), actions).handlers[h].pc.AddScan?
    requires T.Step(T.Exec(T.Init(capacity), actions), h).handlers[h].pc.AddUnlock?
    ensures var s := T.Exec(T.Init(capacity), actions);
      T.Step(s, h).slots == SlotApply(s.slots, Add(s.handlers[h].ssl))
  {
    TlsTheorems.OnlyAFullTableRefuses(capacity, actions, h);
    var s := T.Exec(T.Init(capacity), actions);
    var i := LowestInactive(s.slots);
    assert T.Step(s, h).handlers[h].ssl == s.handlers[h].ssl;
    assert i < |s.slots| ==> !s.slots[i].active;
  }

  // The same for remove_client's loop, whether or not the session had a slot.
  lemma RemoveScanIsRemove(capacity: nat, actions: seq<T.Action>, h: nat)
    requires T.ValidRun(T.Init(capacity), actions)
    requires T.Enabled(T.Exec(T.Init(capacity), actions), T.Run(h))
    requires T.Exec(T.Init(capacity), actions).handlers[h].pc.RemoveScan?
    requires T.Step(T.Exec(T.Init(capacity), actions), h).handlers[h].pc.RemoveUnlock?
    ensures var s := T.Exec(T.Init(capacity), actions);
      T.Step(s, h).slots == SlotApply(s.slots, Remove(s.handlers[h].ssl))
  {
    TlsTheorems.Reachable(capacity, actions);
    RemoveScanEnds(T.Exec(T.Init(capacity), actions), h);
  }

  lemma RemoveScanEnds(s: T.State, h: nat)
    requires TlsRegistry.Inv(s) && T.Enabled(s, T.Run(h)) && s.handlers[h].pc.RemoveScan?
    requires T.Step(s, h).handlers[h].pc.RemoveUnlock?
    ensures T.Step(s, h).slots == SlotApply(s.slots, Remove(s.handlers[h].ssl))
  {
    var t, j := s.handlers[h], SlotOf(s.slots, s.handlers[h].ssl);
    OnlyOwnSlot(s, h);
    if j < |s.slots| {
      assert t.member.In? && t.member.slot == j && t.pc.i == j;
    }
  }

  // A session's SSL object is active in no slot but the one that the session knows.
  lemma OnlyOwnSlot(s: T.State, h: nat)
    requires TlsRegistry.Inv(s) && h < |s.handlers| && !s.handlers[h].pc.Done?
    ensures TlsRegistry.MemberOk(s.slots, s.handlers[h])
    ensures forall j :: 0 <= j < |s.slots| && s.slots[j] == T.Slot(s.handlers[h].ssl, true) ==>
      s.handlers[h].member.In? && s.handlers[h].member.slot == j
  {
    forall j | 0 <= j < |s.slots| && s.slots[j] == T.Slot(s.handlers[h].ssl, true)
      ensures s.handlers[h].member.In? && s.handlers[h].member.slot == j
    {
      assert TlsRegistry.SlotOk(s, j);
    }
  }

  lemma {:induction false} MembersBelow(slots: seq<T.Slot>, i: nat, ssl: nat, slot: nat)
    requires i <= |slots| && slot < |slots|
    requires forall j :: 0 <= j < |slots| ==> (slots[j] == T.Slot(ssl, true) <==> j == slot)
    ensures Members(slots[..i])[ssl] == if slot < i then 1 else 0
  {
    if i > 0 {
      MembersBelow(slots, i - 1, ssl, slot);
      assert slots[..i] == slots[..i - 1] + [slots[i - 1]];
      BagAppend(InSlot, slots[..i - 1], slots[i - 1]);
    }
  }

  // While g broadcasts, a registered session has the message exactly as often as the packets for
  // the slots passed so far say.
  lemma BroadcastScanSendsPackets(capacity: nat, actions: seq<T.Action>, g: nat, h: nat, text: string)
    requires T.ValidRun(T.Init(capacity), actions)
    requires g < |T.Exec(T.Init(capacity), actions).handlers| && h < |T.Exec(T.Init(capacity), actions).handlers|
    requires T.Exec(T.Init(capacity), actions).handlers[g].pc.BroadcastScan?
    requires T.Exec(T.Init(capacity), actions).handlers[g].pc.i <= |T.Exec(T.Init(capacity), actions).slots|
    requires T.Exec(T.Init(capacity), actions).handlers[h].member.In?
    ensures var s := T.Exec(T.Init(capacity), actions);
      var pc := s.handlers[g].pc;
      multiset(s.handlers[h].live)[s.handlers[g].msg]
      == multiset(SlotPackets(s.slots[..pc.i], pc.sender, text))[Packet(s.handlers[h].ssl, text)]
  {
    TlsTheorems.Reachable(capacity, actions);
    var s := T.Exec(T.Init(capacity), actions);
    var pc, t := s.handlers[g].pc, s.handlers[h];
    assert TlsRegistry.MemberOk(s.slots, t);
    OnlyOwnSlot(s, h);
    MembersBelow(s.slots, pc.i, t.ssl, t.member.slot);
    SlotPacketsExactly(s.slots[..pc.i], pc.sender, text);
    CopiesMidScan(s, g, h);
  }

  lemma CopiesMidScan(s: T.State, g: nat, h: nat)
    requires TlsRegistry.Inv(s) && TlsHistory.Inv(s) && g < |s.handlers| && h < |s.handlers|
    requires s.handlers[g].pc.BroadcastScan? && s.handlers[h].member.In?
    ensures var t := s.handlers[h];
      multiset(t.live)[s.handlers[g].msg]
      == if t.member.slot < s.handlers[g].pc.i && s.handlers[g].pc.sender != t.ssl then 1 else 0
  {
    var t, n := s.handlers[h], |s.order| - 1;
    assert T.InSection(s.handlers[g]) && TlsRegistry.ScanIndex(s) == Some(s.handlers[g].pc.i);
    assert TlsRegistry.ScanOk(s.order, s.handlers[g]) && TlsRegistry.DeliveryOk(s, t);
    EarlierDiffer(s, t.member.start);
    AudibleNew(s.order[t.member.start..n], s.order[n], t.ssl);
    SliceSnoc(s.order, t.member.start, n);
  }

  lemma SliceSnoc(order: seq<T.Sent>, a: nat, n: nat)
    requires a <= n < |order|
    ensures order[a..n + 1] == order[a..n] + [order[n]]
  {
  }

  // The last broadcast of a stretch has not been made before.
  lemma AudibleNew(earlier: seq<T.Sent>, last: T.Sent, ssl: nat)
    requires Lacks(earlier, last.msg)
    ensures multiset(T.Audible(earlier, ssl))[last.msg] == 0
    ensures multiset(T.Audible(earlier + [last], ssl))[last.msg] == if last.sender != ssl then 1 else 0
  {
    NotAudible(earlier, ssl, last.msg);
    TlsRegistry.AudibleAppend(earlier, last, ssl);
  }

  lemma EarlierDiffer(s: T.State, a: nat)
    requires TlsHistory.Inv(s) && a < |s.order|
    ensures Lacks(s.order[a..|s.order| - 1], s.order[|s.order| - 1].msg)
  {
    var n := |s.order| - 1;
    TlsJoiner.StretchDistinct(s, a, n + 1);
    SliceSnoc(s.order, a, n);
    LastDiffers(s.order[a..n], s.order[n]);
  }

  lemma LastDiffers(earlier: seq<T.Sent>, last: T.Sent)
    requires TlsJoiner.DistinctOrder(earlier + [last])
    ensures Lacks(earlier, last.msg)
  {
    var order := earlier + [last];
    forall k | 0 <= k < |earlier| ensures earlier[k].msg != last.msg {
      assert order[k] == earlier[k] && order[|earlier|] == last;
    }
  }

  predicate Lacks(order: seq<T.Sent>, m: T.Msg)
  {
    forall k :: 0 <= k < |order| ==> order[k].msg != m
  }

  lemma {:induction false} NotAudible(order: seq<T.Sent>, ssl: nat, m: T.Msg)
    requires Lacks(order, m)
    ensures m !in T.Audible(order, ssl)
  {
    if order != [] {
      NotAudible(order[..|order| - 1], ssl, m);
    }
  }

  // ---- server.c ----

  // The part of main that registers a connection adds to the table and starts a handler exactly if
  // fewer handlers than fit have not removed themselves; otherwise the connection is dropped.
  lemma AcceptIsAdd(capacity: nat, actions: seq<P.Action>, sock: nat)
    requires P.ValidRun(P.Init(), actions, capacity)
    requires P.Enabled(P.Exec(P.Init(), actions, capacity), P.Accept(sock))
    ensures var s := P.Exec(P.Init(), actions, capacity);
      var s' := P.Apply(s, P.Accept(sock), capacity);
      && s'.clients == SwapApply(s.clients, Add(sock), capacity)
      && (if |Bag(P.Entry, s.handlers)| < capacity
          then |s'.handlers| == |s.handlers| + 1 && Serves(s, s', sock)
          else s' == s)
  {
    PlainTheorems.TableMatchesHandlers(capacity, actions);
  }

  // The last handler of s' is new, is about to be sent the log, and serves this connection.
  predicate Serves(s: P.State, s': P.State, sock: nat)
  {
    && s.handlers < s'.handlers && s'.handlers[|s.handlers|].sock == sock && s'.handlers[|s.handlers|].pc.Replay?
    && s'.conns == s.conns[sock := |s.handlers|] && sock in s'.clients
    && s'.log == s.log && s'.completed == s.completed && s'.mutex == s.mutex
  }

  // The step that ends the removal loop leaves the table that Remove makes of it.
  lemma SwapScanIsRemove(capacity: nat, actions: seq<P.Action>, h: nat)
    requires P.ValidRun(P.Init(), actions, capacity)
    requires P.Enabled(P.Exec(P.Init(), actions, capacity), P.Run(h))
    requires P.Exec(P.Init(), actions, capacity).handlers[h].pc.RemoveScan?
    requires P.Step(P.Exec(P.Init(), actions, capacity), h).handlers[h].pc.RemoveUnlock?
    ensures var s := P.Exec(P.Init(), actions, capacity);
      P.Step(s, h).clients == SwapApply(s.clients, Remove(s.handlers[h].sock), capacity)
  {
    PlainTheorems.Reachable(capacity, actions);
    PlainTheorems.TableMatchesHandlers(capacity, actions);
    var s := P.Exec(P.Init(), actions, capacity);
    var i, sock := s.handlers[h].pc.i, s.handlers[h].sock;
    assert PlainInvariants.PassedOver(s.clients, s.handlers[h]);
    assert s.clients[i] == sock && sock in s.clients;
    FirstIndex(s.clients, sock, i);
  }

  lemma FirstIndex(table: seq<nat>, x: nat, i: nat)
    requires i < |table| && table[i] == x && x !in table[..i]
    ensures IndexOf(table, x) == i
  {
    var d := IndexOf(table, x);
    assert forall k :: 0 <= k < i ==> table[k] in table[..i];
    assert forall k :: 0 <= k < d ==> table[k] in table[..d];
  }

  // While g broadcasts, every other session with an open socket has the message exactly as often
  // as the packets for the entries passed so far say; the sender does not get it.
  lemma SwapScanSendsPackets(capacity: nat, actions: seq<P.Action>, g: nat, h: nat, text: string)
    requires P.ValidRun(P.Init(), actions, capacity)
    requires g < |P.Exec(P.Init(), actions, capacity).handlers| && h < |P.Exec(P.Init(), actions, capacity).handlers|
    requires P.Exec(P.Init(), actions, capacity).handlers[g].pc.BroadcastScan?
    requires P.Open(P.Exec(P.Init(), actions, capacity).handlers[h])
    ensures var s := P.Exec(P.Init(), actions, capacity);
      var t := s.handlers[g];
      && t.pc.i <= |s.clients|
      && multiset(s.handlers[h].live)[t.msg]
         == multiset(Packets(s.clients[..t.pc.i], t.sock, text))[Packet(s.handlers[h].sock, text)]
  {
    PlainTheorems.Reachable(capacity, actions);
    var s := P.Exec(P.Init(), actions, capacity);
    var t := s.handlers[g];
    assert PlainInvariants.PcOk(t, g, s.clients);
    assert PlainInvariants.CopiesOk(s.clients, t, s.handlers[h], g == h);
    assert s.conns[t.sock] == g && s.conns[s.handlers[h].sock] == h;
    PacketsExactly(s.clients[..t.pc.i], t.sock, text);
  }
}
