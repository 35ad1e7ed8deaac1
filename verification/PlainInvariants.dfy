// Every step of server.c keeps its table consistent and its deliveries accounted for.
module PlainInvariants {
  import opened Counting
  import opened Locks
  import opened PlainModel

  // ---- Invariants ----

  ghost predicate ConnInv(s: State)
  {
    && (forall h :: 0 <= h < |s.handlers| && Open(s.handlers[h]) ==>
          s.handlers[h].sock in s.conns && s.conns[s.handlers[h].sock] == h)
    && (forall a :: a in s.conns ==>
          s.conns[a] < |s.handlers| && s.handlers[s.conns[a]].sock == a && Open(s.handlers[s.conns[a]]))
  }

  ghost predicate MutexInv(s: State)
  {
    Guards(s.mutex, InSection, s.handlers)
  }

  // The table holds the sockets of the handlers that have not removed themselves.
  ghost predicate TableInv(s: State, capacity: nat)
  {
    && |s.clients| <= capacity
    && multiset(s.clients) == Bag(Entry, s.handlers)
    && (!s.reissued ==> forall x :: multiset(s.clients)[x] <= 1)
  }

  ghost predicate PassedOver(clients: seq<nat>, t: Handler)
  {
    t.pc.RemoveScan? ==> t.pc.i <= |clients| && t.sock !in clients[..t.pc.i]
  }

  ghost predicate RemoveInv(s: State)
  {
    forall h :: 0 <= h < |s.handlers| ==> PassedOver(s.clients, s.handlers[h])
  }

  predicate PcOk(t: Handler, h: nat, clients: seq<nat>)
  {
    && t.msg.author == h
    && (Busy(t) || t.pc.BroadcastUnlock? ==> t.composed > 0 && t.msg.seqNo == t.composed - 1)
    && (t.replayed.None? <==> t.pc.Replay?)
    && (t.pc.BroadcastScan? ==> t.pc.i <= |clients|)
  }

  // A message some handler has composed.
  predicate Known(handlers: seq<Handler>, m: Msg)
  {
    m.author < |handlers| && m.seqNo < handlers[m.author].composed
  }

  ghost predicate KnownInv(s: State)
  {
    && (forall h :: 0 <= h < |s.handlers| ==> PcOk(s.handlers[h], h, s.clients))
    && (forall k :: 0 <= k < |s.log| ==> Known(s.handlers, s.log[k]))
    && (forall h, k :: 0 <= h < |s.handlers| && 0 <= k < |s.handlers[h].live| ==>
          Known(s.handlers, s.handlers[h].live[k]))
  }

  // How many table entries the scan of t has passed that lead to a client.
  function Passed(clients: seq<nat>, t: Handler, sock: nat): nat
  {
    if t.pc.BroadcastScan? && t.pc.i <= |clients| then multiset(clients[..t.pc.i])[sock]
    else if t.pc.BroadcastUnlock? then multiset(clients)[sock]
    else 0
  }

  // While t broadcasts, an open session u has one copy for each entry passed that names its
  // socket; a session that closed in the meantime has at most that many.
  ghost predicate CopiesOk(clients: seq<nat>, t: Handler, u: Handler, self: bool)
  {
    Busy(t) || t.pc.BroadcastUnlock? ==>
      && (self ==> multiset(u.live)[t.msg] == 0)
      && (!self && Open(u) ==> multiset(u.live)[t.msg] == Passed(clients, t, u.sock))
      && (!self ==> multiset(u.live)[t.msg] <= Passed(clients, t, u.sock))
  }

  ghost predicate CopiesInv(s: State)
  {
    forall g, h :: 0 <= g < |s.handlers| && 0 <= h < |s.handlers| ==>
      CopiesOk(s.clients, s.handlers[g], s.handlers[h], g == h)
  }

  // No message has reached a client twice by broadcast or stands twice in the log.
  ghost predicate OnceInv(s: State)
  {
    && (!s.reissued ==> forall h, m :: 0 <= h < |s.handlers| ==> multiset(s.handlers[h].live)[m] <= 1)
    && (forall m :: multiset(s.log)[m] <= 1)
    && (forall h :: 0 <= h < |s.handlers| && s.handlers[h].pc.Save? ==> s.handlers[h].msg !in s.log)
    && (forall h, m :: 0 <= h < |s.handlers| && s.handlers[h].replayed.Some? ==>
          multiset(s.handlers[h].replayed.value)[m] <= 1)
  }

  // The broadcast of m is under way and has not reached every client yet.
  predicate Underway(handlers: seq<Handler>, m: Msg)
  {
    m.author < |handlers| && handlers[m.author].msg == m && Busy(handlers[m.author])
  }

  // Session t has a logged message of somebody else, or its broadcast is still under way.
  ghost predicate Reached(handlers: seq<Handler>, t: Handler, m: Msg)
  {
    (t.replayed.Some? && m in t.replayed.value) || m in t.live || Underway(handlers, m)
  }

  ghost predicate MissesNothing(s: State, h: nat)
    requires h < |s.handlers|
  {
    Open(s.handlers[h]) && s.handlers[h].replayed.Some? ==>
      forall k :: 0 <= k < |s.log| && s.log[k].author != h ==> Reached(s.handlers, s.handlers[h], s.log[k])
  }

  ghost predicate NoLossInv(s: State)
  {
    forall h :: 0 <= h < |s.handlers| ==> MissesNothing(s, h)
  }

  ghost predicate Inv(s: State, capacity: nat)
  {
    && ConnInv(s) && MutexInv(s) && TableInv(s, capacity) && RemoveInv(s)
    && KnownInv(s) && CopiesInv(s) && OnceInv(s) && NoLossInv(s)
  }

  lemma InitInv(capacity: nat)
    ensures Inv(Init(), capacity)
  {
  }

  // ---- Table ----

  lemma SwapRemoveBag<T>(table: seq<T>, i: nat)
    requires i < |table|
    ensures multiset(SwapRemove(table, i)) == multiset(table) - multiset{table[i]}
    ensures |SwapRemove(table, i)| == |table| - 1
  {
    var n := |table| - 1;
    var swapped := table[i := table[n]];
    assert swapped == swapped[..n] + [table[n]];
    assert multiset(swapped) == multiset(table) - multiset{table[i]} + multiset{table[n]};
    Cancel(multiset(SwapRemove(table, i)), multiset(table) - multiset{table[i]}, multiset{table[n]});
  }

  // A handler whose entry is in place finds it before the scan runs out.
  lemma EntryInTable(s: State, h: nat, capacity: nat)
    requires TableInv(s, capacity) && h < |s.handlers| && Entry(s.handlers[h]) != multiset{}
    ensures s.handlers[h].sock in s.clients
  {
    BagContains(Entry, s.handlers, h);
    assert s.handlers[h].sock in Entry(s.handlers[h]);
    assert s.handlers[h].sock in multiset(s.clients);
  }

  lemma RemovalFinds(s: State, h: nat, capacity: nat)
    requires TableInv(s, capacity) && h < |s.handlers| && s.handlers[h].pc.RemoveScan?
    requires PassedOver(s.clients, s.handlers[h])
    ensures s.handlers[h].pc.i < |s.clients|
  {
    EntryInTable(s, h, capacity);
    assert s.clients[..|s.clients|] == s.clients;
  }

  // A step that leaves every entry where it is.
  lemma TableFrame(s: State, s': State, capacity: nat)
    requires TableInv(s, capacity) && s'.clients == s.clients && s'.reissued == s.reissued
    requires |s'.handlers| == |s.handlers|
    requires forall h :: 0 <= h < |s.handlers| ==> Entry(s'.handlers[h]) == Entry(s.handlers[h])
    ensures TableInv(s', capacity)
  {
    SameEntries(s.handlers, s'.handlers);
  }

  lemma {:induction false} SameEntries(a: seq<Handler>, b: seq<Handler>)
    requires |a| == |b| && forall h :: 0 <= h < |a| ==> Entry(a[h]) == Entry(b[h])
    ensures Bag(Entry, a) == Bag(Entry, b)
  {
    if a != [] {
      SameEntries(a[1..], b[1..]);
    }
  }

  lemma RemoveTable(s: State, h: nat, capacity: nat)
    requires TableInv(s, capacity) && Enabled(s, Run(h)) && s.handlers[h].pc.RemoveScan?
    requires s.handlers[h].pc.i < |s.clients| && s.clients[s.handlers[h].pc.i] == s.handlers[h].sock
    ensures TableInv(Step(s, h), capacity)
  {
    var s', sock := Step(s, h), s.handlers[h].sock;
    BagUpdate(Entry, s.handlers, h, s'.handlers[h]);
    SwapRemoveBag(s.clients, s.handlers[h].pc.i);
    assert Bag(Entry, s'.handlers) + multiset{sock} == multiset(s.clients);
    Cancel(multiset(s'.clients), Bag(Entry, s'.handlers), multiset{sock});
  }

  lemma AcceptTable(s: State, sock: nat, capacity: nat)
    requires TableInv(s, capacity) && Enabled(s, Accept(sock))
    ensures TableInv(Apply(s, Accept(sock), capacity), capacity)
  {
    if |s.clients| < capacity {
      var s' := Apply(s, Accept(sock), capacity);
      BagAppend(Entry, s.handlers, s'.handlers[|s.handlers|]);
      assert multiset(s'.clients) == multiset(s.clients) + multiset{sock};
      if !s'.reissued {
        forall x ensures multiset(s'.clients)[x] <= 1 {
          assert multiset(s.clients)[sock] == 0;
        }
      }
    }
  }

  // ---- One handler moves ----

  // Handler h changes its place, its message or its replay, and nobody is written to.
  ghost predicate Moves(s: State, s': State, h: nat)
  {
    && h < |s.handlers| && |s'.handlers| == |s.handlers|
    && s'.handlers == s.handlers[h := s'.handlers[h]]
    && s'.handlers[h].sock == s.handlers[h].sock && s'.handlers[h].live == s.handlers[h].live
    && s'.handlers[h].composed >= s.handlers[h].composed
    && s'.reissued == s.reissued
  }

  lemma StepMoves(s: State, h: nat)
    requires Enabled(s, Run(h)) && !s.handlers[h].pc.BroadcastScan?
    ensures Moves(s, Step(s, h), h)
  {
  }

  lemma ConnMoves(s: State, s': State, h: nat)
    requires ConnInv(s) && Moves(s, s', h) && (Open(s'.handlers[h]) <==> Open(s.handlers[h])) && s'.conns == s.conns
    ensures ConnInv(s')
  {
  }

  lemma ConnCloses(s: State, h: nat)
    requires ConnInv(s) && Enabled(s, Run(h)) && s.handlers[h].pc.Closing?
    ensures ConnInv(Step(s, h))
  {
    var s' := Step(s, h);
    forall g | 0 <= g < |s'.handlers| && Open(s'.handlers[g])
      ensures s'.handlers[g].sock in s'.conns && s'.conns[s'.handlers[g].sock] == g
    {
      assert g != h && s.conns[s.handlers[g].sock] == g;
    }
  }

  lemma ConnAccepts(s: State, sock: nat, capacity: nat)
    requires ConnInv(s) && Enabled(s, Accept(sock))
    ensures ConnInv(Apply(s, Accept(sock), capacity))
  {
    var s' := Apply(s, Accept(sock), capacity);
    forall a | a in s'.conns
      ensures s'.conns[a] < |s'.handlers| && s'.handlers[s'.conns[a]].sock == a && Open(s'.handlers[s'.conns[a]])
    {
      if a != sock { assert a in s.conns; }
    }
  }

  lemma RemoveMoves(s: State, s': State, h: nat)
    requires RemoveInv(s) && Moves(s, s', h) && PassedOver(s'.clients, s'.handlers[h])
    requires s'.clients == s.clients || forall g :: 0 <= g < |s.handlers| && g != h ==> !s.handlers[g].pc.RemoveScan?
    ensures RemoveInv(s')
  {
    forall g | 0 <= g < |s'.handlers| ensures PassedOver(s'.clients, s'.handlers[g]) {
      assert PassedOver(s.clients, s.handlers[g]);
    }
  }

  lemma KnownMoves(s: State, s': State, h: nat)
    requires KnownInv(s) && Moves(s, s', h) && PcOk(s'.handlers[h], h, s'.clients)
    requires s'.clients == s.clients || forall g :: 0 <= g < |s.handlers| && g != h ==> !s.handlers[g].pc.BroadcastScan?
    requires s'.log == s.log || (s'.log == s.log + [s.handlers[h].msg] && Known(s.handlers, s.handlers[h].msg))
    ensures KnownInv(s')
  {
    forall g | 0 <= g < |s'.handlers| ensures PcOk(s'.handlers[g], g, s'.clients) {
      assert PcOk(s.handlers[g], g, s.clients);
    }
    forall k | 0 <= k < |s'.log| ensures Known(s'.handlers, s'.log[k]) {
      if k < |s.log| { assert Known(s.handlers, s.log[k]); }
    }
    forall g, k | 0 <= g < |s'.handlers| && 0 <= k < |s'.handlers[g].live|
      ensures Known(s'.handlers, s'.handlers[g].live[k])
    {
      assert Known(s.handlers, s.handlers[g].live[k]);
    }
  }

  // h's own message is treated as before by everyone, and the table that others scan is the same.
  lemma CopiesMove(s: State, s': State, h: nat)
    requires CopiesInv(s) && Moves(s, s', h)
    requires forall g :: 0 <= g < |s.handlers| ==> CopiesOk(s'.clients, s'.handlers[h], s'.handlers[g], g == h)
    requires Open(s'.handlers[h]) ==> Open(s.handlers[h])
    requires s'.clients == s.clients || forall g :: 0 <= g < |s.handlers| && g != h ==> !InSection(s.handlers[g])
    ensures CopiesInv(s')
  {
    forall g, u | 0 <= g < |s'.handlers| && 0 <= u < |s'.handlers|
      ensures CopiesOk(s'.clients, s'.handlers[g], s'.handlers[u], g == u)
    {
      assert CopiesOk(s.clients, s.handlers[g], s.handlers[u], g == u);
    }
  }

  // A freshly composed message has reached nobody.
  lemma FreshCopies(s: State, t: Handler, h: nat, clients: seq<nat>)
    requires KnownInv(s) && h < |s.handlers| && t.msg.author == h && t.msg.seqNo == s.handlers[h].composed
    requires t.pc.Save? || t.pc.BroadcastLock?
    ensures forall g :: 0 <= g < |s.handlers| ==> multiset(s.handlers[g].live)[t.msg] == 0
    ensures t.msg !in s.log
  {
  }

  lemma OnceMoves(s: State, s': State, h: nat)
    requires OnceInv(s) && Moves(s, s', h) && s'.log == s.log
    requires s'.handlers[h].pc.Save? ==> s'.handlers[h].msg !in s'.log
    requires s'.handlers[h].replayed == s.handlers[h].replayed || s'.handlers[h].replayed == Some(s.log)
    ensures OnceInv(s')
  {
    forall g, m | 0 <= g < |s'.handlers| && !s'.reissued ensures multiset(s'.handlers[g].live)[m] <= 1 {
      assert s'.handlers[g].live == s.handlers[g].live;
    }
  }

  lemma LossMoves(s: State, s': State, h: nat)
    requires NoLossInv(s) && Moves(s, s', h) && s'.log == s.log
    requires Open(s'.handlers[h]) ==> Open(s.handlers[h])
    requires s'.handlers[h].replayed == s.handlers[h].replayed || s'.handlers[h].replayed == Some(s.log)
    requires Busy(s.handlers[h]) ==> Busy(s'.handlers[h]) && s'.handlers[h].msg == s.handlers[h].msg
    ensures NoLossInv(s')
  {
    forall g | 0 <= g < |s'.handlers| ensures MissesNothing(s', g) {
      assert MissesNothing(s, g);
      if Open(s'.handlers[g]) && s'.handlers[g].replayed.Some? {
        forall k | 0 <= k < |s'.log| && s'.log[k].author != g ensures Reached(s'.handlers, s'.handlers[g], s'.log[k]) {
          if s'.handlers[g].replayed == s.handlers[g].replayed {
            assert Reached(s.handlers, s.handlers[g], s.log[k]);
          }
        }
      }
    }
  }

  // ---- Steps ----

  // Handler h composes a new message, and if it has just started it first replays the log.
  ghost predicate Composes(s: State, t: Handler, h: nat)
  {
    && h < |s.handlers| && (t.pc.Save? || t.pc.BroadcastLock?)
    && t.sock == s.handlers[h].sock && t.live == s.handlers[h].live
    && t.composed == s.handlers[h].composed + 1 && t.msg.author == h && t.msg.seqNo == s.handlers[h].composed
    && if s.handlers[h].pc.Replay? then t.replayed == Some(s.log)
       else s.handlers[h].pc.Receiving? && t.replayed == s.handlers[h].replayed
  }

  lemma ComposeStructure(s: State, t: Handler, h: nat, capacity: nat)
    requires ConnInv(s) && MutexInv(s) && TableInv(s, capacity) && RemoveInv(s) && Composes(s, t, h)
    ensures ConnInv(Put(s, h, t)) && MutexInv(Put(s, h, t)) && TableInv(Put(s, h, t), capacity)
    ensures RemoveInv(Put(s, h, t))
  {
    var s' := Put(s, h, t);
    ConnMoves(s, s', h);
    GuardsKept(s.mutex, InSection, s.handlers, h, t, s'.mutex);
    TableFrame(s, s', capacity);
    RemoveMoves(s, s', h);
  }

  lemma ComposeCopies(s: State, t: Handler, h: nat)
    requires KnownInv(s) && CopiesInv(s) && Composes(s, t, h)
    ensures KnownInv(Put(s, h, t)) && CopiesInv(Put(s, h, t)) && t.msg !in s.log
  {
    var s' := Put(s, h, t);
    assert PcOk(s.handlers[h], h, s.clients);
    KnownMoves(s, s', h);
    FreshCopies(s, t, h, s.clients);
    CopiesMove(s, s', h);
  }

  lemma ComposeInv(s: State, t: Handler, h: nat, capacity: nat)
    requires Inv(s, capacity) && Composes(s, t, h)
    ensures Inv(Put(s, h, t), capacity)
  {
    ComposeStructure(s, t, h, capacity);
    ComposeCopies(s, t, h);
    OnceMoves(s, Put(s, h, t), h);
    LossMoves(s, Put(s, h, t), h);
  }

  lemma AcceptInv(s: State, sock: nat, capacity: nat)
    requires Inv(s, capacity) && Enabled(s, Accept(sock)) && |s.clients| < capacity
    ensures Inv(Apply(s, Accept(sock), capacity), capacity)
  {
    var s', n := Apply(s, Accept(sock), capacity), |s.handlers|;
    ConnAccepts(s, sock, capacity);
    GuardsAppend(s.mutex, InSection, s.handlers, s'.handlers[n]);
    AcceptTable(s, sock, capacity);
    forall g | 0 <= g < |s'.handlers|
      ensures PassedOver(s'.clients, s'.handlers[g]) && PcOk(s'.handlers[g], g, s'.clients)
    {
      if g < n {
        assert PassedOver(s.clients, s.handlers[g]) && PcOk(s.handlers[g], g, s.clients);
        assert !InSection(s.handlers[g]);
      }
    }
    AcceptKnown(s, sock, capacity);
    AcceptCopies(s, sock, capacity);
    AcceptOnce(s, sock, capacity);
    AcceptLoss(s, sock, capacity);
  }

  lemma AcceptKnown(s: State, sock: nat, capacity: nat)
    requires KnownInv(s) && Enabled(s, Accept(sock)) && |s.clients| < capacity
    ensures var s' := Apply(s, Accept(sock), capacity);
      && (forall k :: 0 <= k < |s'.log| ==> Known(s'.handlers, s'.log[k]))
      && (forall h, k :: 0 <= h < |s'.handlers| && 0 <= k < |s'.handlers[h].live| ==>
            Known(s'.handlers, s'.handlers[h].live[k]))
  {
    var s' := Apply(s, Accept(sock), capacity);
    forall h, k | 0 <= h < |s'.handlers| && 0 <= k < |s'.handlers[h].live|
      ensures Known(s'.handlers, s'.handlers[h].live[k])
    {
      assert h < |s.handlers| && Known(s.handlers, s.handlers[h].live[k]);
    }
    forall k | 0 <= k < |s'.log| ensures Known(s'.handlers, s'.log[k]) {
      assert Known(s.handlers, s.log[k]);
    }
  }

  lemma AcceptCopies(s: State, sock: nat, capacity: nat)
    requires MutexInv(s) && CopiesInv(s) && Enabled(s, Accept(sock)) && |s.clients| < capacity
    ensures CopiesInv(Apply(s, Accept(sock), capacity))
  {
    var s', n := Apply(s, Accept(sock), capacity), |s.handlers|;
    forall g, u | 0 <= g < |s'.handlers| && 0 <= u < |s'.handlers|
      ensures CopiesOk(s'.clients, s'.handlers[g], s'.handlers[u], g == u)
    {
      if g < n {
        assert !InSection(s.handlers[g]);
        if u < n { assert CopiesOk(s.clients, s.handlers[g], s.handlers[u], g == u); }
      }
    }
  }

  lemma AcceptOnce(s: State, sock: nat, capacity: nat)
    requires OnceInv(s) && Enabled(s, Accept(sock)) && |s.clients| < capacity
    ensures OnceInv(Apply(s, Accept(sock), capacity))
  {
    var s' := Apply(s, Accept(sock), capacity);
    forall h, m | 0 <= h < |s'.handlers| && !s'.reissued ensures multiset(s'.handlers[h].live)[m] <= 1 {
      if h < |s.handlers| { assert multiset(s.handlers[h].live)[m] <= 1; }
    }
    forall h, m | 0 <= h < |s'.handlers| && s'.handlers[h].replayed.Some?
      ensures multiset(s'.handlers[h].replayed.value)[m] <= 1
    {
      assert h < |s.handlers| && multiset(s.handlers[h].replayed.value)[m] <= 1;
    }
  }

  lemma AcceptLoss(s: State, sock: nat, capacity: nat)
    requires NoLossInv(s) && Enabled(s, Accept(sock)) && |s.clients| < capacity
    ensures NoLossInv(Apply(s, Accept(sock), capacity))
  {
    var s' := Apply(s, Accept(sock), capacity);
    forall h | 0 <= h < |s'.handlers| ensures MissesNothing(s', h) {
      if h < |s.handlers| {
        assert MissesNothing(s, h);
        if Open(s'.handlers[h]) && s'.handlers[h].replayed.Some? {
          forall k | 0 <= k < |s'.log| && s'.log[k].author != h
            ensures Reached(s'.handlers, s'.handlers[h], s'.log[k])
          {
            assert Reached(s.handlers, s.handlers[h], s.log[k]);
          }
        }
      }
    }
  }

  lemma SaveInv(s: State, h: nat, capacity: nat)
    requires Inv(s, capacity) && Enabled(s, Run(h)) && s.handlers[h].pc.Save?
    ensures Inv(Step(s, h), capacity)
  {
    var s', t := Step(s, h), s.handlers[h];
    StepMoves(s, h);
    assert PcOk(t, h, s.clients);
    ConnMoves(s, s', h);
    GuardsKept(s.mutex, InSection, s.handlers, h, s'.handlers[h], s'.mutex);
    TableFrame(s, s', capacity);
    RemoveMoves(s, s', h);
    KnownMoves(s, s', h);
    forall g | 0 <= g < |s.handlers| ensures CopiesOk(s'.clients, s'.handlers[h], s'.handlers[g], g == h) {
      assert CopiesOk(s.clients, t, s.handlers[g], h == g);
    }
    CopiesMove(s, s', h);
    SaveOnce(s, h);
    SaveLoss(s, h);
  }

  lemma SaveOnce(s: State, h: nat)
    requires OnceInv(s) && KnownInv(s) && Enabled(s, Run(h)) && s.handlers[h].pc.Save?
    ensures OnceInv(Step(s, h))
  {
    var s', t := Step(s, h), s.handlers[h];
    assert multiset(s'.log) == multiset(s.log) + multiset{t.msg};
    forall g, m | 0 <= g < |s'.handlers| && !s'.reissued ensures multiset(s'.handlers[g].live)[m] <= 1 {
      assert s'.handlers[g].live == s.handlers[g].live;
    }
    forall g | 0 <= g < |s'.handlers| && s'.handlers[g].pc.Save? ensures s'.handlers[g].msg !in s'.log {
      assert PcOk(s.handlers[g], g, s.clients) && PcOk(t, h, s.clients);
    }
  }

  lemma SaveLoss(s: State, h: nat)
    requires NoLossInv(s) && Enabled(s, Run(h)) && s.handlers[h].pc.Save? && PcOk(s.handlers[h], h, s.clients)
    ensures NoLossInv(Step(s, h))
  {
    var s' := Step(s, h);
    forall g | 0 <= g < |s'.handlers| ensures MissesNothing(s', g) {
      assert MissesNothing(s, g);
      if Open(s'.handlers[g]) && s'.handlers[g].replayed.Some? {
        forall k | 0 <= k < |s'.log| && s'.log[k].author != g ensures Reached(s'.handlers, s'.handlers[g], s'.log[k]) {
          if k < |s.log| { assert Reached(s.handlers, s.handlers[g], s.log[k]); }
        }
      }
    }
  }

  // Taking or dropping the mutex, closing the socket, looking at the table.
  predicate Plain(s: State, h: nat)
  {
    Enabled(s, Run(h)) &&
    match s.handlers[h].pc
    case BroadcastLock => true
    case BroadcastUnlock => true
    case Closing => true
    case RemoveLock => true
    case RemoveScan(_) => true
    case RemoveUnlock => true
    case _ => false
  }

  lemma PlainCopies(s: State, h: nat, capacity: nat)
    requires Plain(s, h) && MutexInv(s) && CopiesInv(s)
    ensures CopiesInv(Step(s, h))
  {
    var s', t := Step(s, h), s.handlers[h];
    StepMoves(s, h);
    forall g | 0 <= g < |s.handlers| ensures CopiesOk(s'.clients, s'.handlers[h], s'.handlers[g], g == h) {
      assert CopiesOk(s.clients, t, s.handlers[g], h == g);
      assert s.clients[..0] == [];
    }
    assert t.pc.RemoveScan? ==> InSection(t);
    CopiesMove(s, s', h);
  }

  lemma ScanEntryTable(s: State, h: nat, capacity: nat)
    requires Plain(s, h) && s.handlers[h].pc.RemoveScan? && MutexInv(s) && TableInv(s, capacity) && RemoveInv(s)
    ensures TableInv(Step(s, h), capacity) && RemoveInv(Step(s, h))
  {
    var s', t := Step(s, h), s.handlers[h];
    StepMoves(s, h);
    assert PassedOver(s.clients, t) && InSection(t);
    RemovalFinds(s, h, capacity);
    if s.clients[t.pc.i] == t.sock { RemoveTable(s, h, capacity); } else { PassTable(s, h, capacity); }
    RemoveMoves(s, s', h);
  }

  lemma PassTable(s: State, h: nat, capacity: nat)
    requires TableInv(s, capacity) && Enabled(s, Run(h)) && s.handlers[h].pc.RemoveScan?
    requires s.handlers[h].pc.i < |s.clients| && s.clients[s.handlers[h].pc.i] != s.handlers[h].sock
    ensures TableInv(Step(s, h), capacity)
  {
    var s' := Step(s, h);
    assert Entry(s'.handlers[h]) == Entry(s.handlers[h]);
    TableFrame(s, s', capacity);
  }

  lemma PlainTable(s: State, h: nat, capacity: nat)
    requires Plain(s, h) && MutexInv(s) && TableInv(s, capacity) && RemoveInv(s)
    ensures TableInv(Step(s, h), capacity) && RemoveInv(Step(s, h))
  {
    if s.handlers[h].pc.RemoveScan? {
      ScanEntryTable(s, h, capacity);
    } else {
      StillTable(s, h, capacity);
      StillRemove(s, h);
    }
  }

  lemma StillTable(s: State, h: nat, capacity: nat)
    requires Plain(s, h) && !s.handlers[h].pc.RemoveScan? && TableInv(s, capacity)
    ensures TableInv(Step(s, h), capacity)
  {
    StepMoves(s, h);
    EntryKept(s, h);
    TableFrame(s, Step(s, h), capacity);
  }

  lemma EntryKept(s: State, h: nat)
    requires Plain(s, h) && !s.handlers[h].pc.RemoveScan?
    ensures Step(s, h).clients == s.clients && Entry(Step(s, h).handlers[h]) == Entry(s.handlers[h])
  {
  }

  lemma StillRemove(s: State, h: nat)
    requires Plain(s, h) && !s.handlers[h].pc.RemoveScan? && RemoveInv(s)
    ensures RemoveInv(Step(s, h))
  {
    StepMoves(s, h);
    assert s.clients[..0] == [];
    RemoveMoves(s, Step(s, h), h);
  }

  lemma PlainConn(s: State, h: nat)
    requires Plain(s, h) && MutexInv(s) && ConnInv(s)
    ensures MutexInv(Step(s, h)) && ConnInv(Step(s, h))
  {
    var s', t := Step(s, h), s.handlers[h];
    StepMoves(s, h);
    if t.pc.Closing? { ConnCloses(s, h); } else { ConnMoves(s, s', h); }
    GuardsKept(s.mutex, InSection, s.handlers, h, s'.handlers[h], s'.mutex);
  }

  lemma PlainKnown(s: State, h: nat)
    requires Plain(s, h) && MutexInv(s) && KnownInv(s)
    ensures KnownInv(Step(s, h))
  {
    StepMoves(s, h);
    assert PcOk(s.handlers[h], h, s.clients);
    assert s.handlers[h].pc.RemoveScan? ==> InSection(s.handlers[h]);
    KnownMoves(s, Step(s, h), h);
  }

  lemma PlainInv(s: State, h: nat, capacity: nat)
    requires Inv(s, capacity) && Plain(s, h)
    ensures Inv(Step(s, h), capacity)
  {
    StepMoves(s, h);
    PlainConn(s, h);
    PlainTable(s, h, capacity);
    PlainKnown(s, h);
    PlainCopies(s, h, capacity);
    PlainRest(s, h);
  }

  lemma PlainRest(s: State, h: nat)
    requires Plain(s, h) && OnceInv(s) && NoLossInv(s)
    ensures OnceInv(Step(s, h)) && NoLossInv(Step(s, h))
  {
    StepMoves(s, h);
    OnceMoves(s, Step(s, h), h);
    LossMoves(s, Step(s, h), h);
  }

  // ---- The scan of a broadcast ----

  // The client that the write made at this point of the scan reaches, if any.
  function Target(s: State, h: nat): Option<nat>
    requires h < |s.handlers| && s.handlers[h].pc.BroadcastScan? && s.handlers[h].pc.i < |s.clients|
  {
    var sock := s.clients[s.handlers[h].pc.i];
    if sock != s.handlers[h].sock && sock in s.conns then Some(s.conns[sock]) else None
  }

  // The step advances h and hands the message to the target; nothing else changes.
  ghost predicate Scanned(s: State, s': State, h: nat)
    requires h < |s.handlers| && s.handlers[h].pc.BroadcastScan? && s.handlers[h].pc.i < |s.clients|
  {
    && s' == s.(handlers := s'.handlers) && |s'.handlers| == |s.handlers|
    && forall g :: 0 <= g < |s.handlers| ==>
         s'.handlers[g] == s.handlers[g].(
           pc := if g == h then BroadcastScan(s.handlers[h].pc.i + 1) else s.handlers[g].pc,
           live := s.handlers[g].live + if Target(s, h) == Some(g) then [s.handlers[h].msg] else [])
  }

  lemma ScanStep(s: State, h: nat)
    requires ConnInv(s) && Enabled(s, Run(h)) && s.handlers[h].pc.BroadcastScan? && s.handlers[h].pc.i < |s.clients|
    ensures Scanned(s, Step(s, h), h)
  {
  }

  lemma TargetIsOpen(s: State, h: nat, g: nat)
    requires ConnInv(s) && h < |s.handlers| && s.handlers[h].pc.BroadcastScan? && s.handlers[h].pc.i < |s.clients|
    requires g < |s.handlers|
    ensures Target(s, h) == Some(g) <==>
      Open(s.handlers[g]) && g != h && s.handlers[g].sock == s.clients[s.handlers[h].pc.i]
  {
  }

  lemma ScanCopies(s: State, h: nat)
    requires ConnInv(s) && MutexInv(s) && CopiesInv(s) && Enabled(s, Run(h))
    requires KnownInv(s) && s.handlers[h].pc.BroadcastScan? && s.handlers[h].pc.i < |s.clients|
    ensures CopiesInv(Step(s, h))
  {
    var s' := Step(s, h);
    ScanStep(s, h);
    forall g, u | 0 <= g < |s'.handlers| && 0 <= u < |s'.handlers|
      ensures CopiesOk(s'.clients, s'.handlers[g], s'.handlers[u], g == u)
    {
      assert CopiesOk(s.clients, s.handlers[g], s.handlers[u], g == u);
      if g == h {
        ScannerCopies(s, h, u);
      } else {
        OtherScanCopies(s, h, g, u);
      }
    }
  }

  lemma ScannerCopies(s: State, h: nat, u: nat)
    requires ConnInv(s) && Enabled(s, Run(h)) && u < |s.handlers|
    requires s.handlers[h].pc.BroadcastScan? && s.handlers[h].pc.i < |s.clients|
    requires CopiesOk(s.clients, s.handlers[h], s.handlers[u], h == u)
    ensures u < |Step(s, h).handlers| && h < |Step(s, h).handlers|
    ensures CopiesOk(s.clients, Step(s, h).handlers[h], Step(s, h).handlers[u], h == u)
  {
    var s' := Step(s, h);
    ScanStep(s, h);
    TargetIsOpen(s, h, u);
    OwnScanCopies(s.clients, s.handlers[h], s'.handlers[h], s.handlers[u], s'.handlers[u], h == u);
  }

  lemma OwnScanCopies(clients: seq<nat>, t: Handler, t': Handler, u: Handler, u': Handler, self: bool)
    requires t.pc.BroadcastScan? && t.pc.i < |clients| && CopiesOk(clients, t, u, self)
    requires t'.pc == BroadcastScan(t.pc.i + 1) && t'.msg == t.msg
    requires u'.sock == u.sock && (Open(u') <==> Open(u))
    requires u'.live == u.live + if Open(u) && !self && u.sock == clients[t.pc.i] then [t.msg] else []
    ensures CopiesOk(clients, t', u', self)
  {
    var i := t.pc.i;
    assert clients[..i + 1] == clients[..i] + [clients[i]];
    assert multiset(clients[..i + 1]) == multiset(clients[..i]) + multiset{clients[i]};
    assert multiset(u'.live)
        == multiset(u.live) + if Open(u) && !self && u.sock == clients[i] then multiset{t.msg} else multiset{};
  }

  // Nobody else is scanning, and the message handed over is not theirs.
  lemma OtherScanCopies(s: State, h: nat, g: nat, u: nat)
    requires ConnInv(s) && MutexInv(s) && KnownInv(s) && Enabled(s, Run(h))
    requires s.handlers[h].pc.BroadcastScan? && s.handlers[h].pc.i < |s.clients|
    requires g < |s.handlers| && u < |s.handlers| && g != h && CopiesOk(s.clients, s.handlers[g], s.handlers[u], g == u)
    ensures CopiesOk(s.clients, Step(s, h).handlers[g], Step(s, h).handlers[u], g == u)
  {
    var s' := Step(s, h);
    ScanStep(s, h);
    assert PcOk(s.handlers[h], h, s.clients) && PcOk(s.handlers[g], g, s.clients);
    assert s.handlers[g].msg != s.handlers[h].msg;
    assert InSection(s.handlers[h]) && !InSection(s.handlers[g]);
    assert multiset(s'.handlers[u].live)[s.handlers[g].msg] == multiset(s.handlers[u].live)[s.handlers[g].msg];
  }

  lemma ScanOnce(s: State, h: nat, capacity: nat)
    requires ConnInv(s) && TableInv(s, capacity) && CopiesInv(s) && OnceInv(s) && Enabled(s, Run(h))
    requires s.handlers[h].pc.BroadcastScan? && s.handlers[h].pc.i < |s.clients|
    ensures OnceInv(Step(s, h))
  {
    var s', i := Step(s, h), s.handlers[h].pc.i;
    ScanStep(s, h);
    if !s'.reissued {
      forall g, m | 0 <= g < |s'.handlers| ensures multiset(s'.handlers[g].live)[m] <= 1 {
        assert multiset(s.handlers[g].live)[m] <= 1;
        if Target(s, h) == Some(g) && m == s.handlers[h].msg {
          FirstCopy(s, h, g);
        }
      }
    }
  }

  // Where every entry is different, the target of a write has not had the message before.
  lemma FirstCopy(s: State, h: nat, g: nat)
    requires ConnInv(s) && CopiesInv(s) && g < |s.handlers| && h < |s.handlers|
    requires s.handlers[h].pc.BroadcastScan? && s.handlers[h].pc.i < |s.clients| && Target(s, h) == Some(g)
    requires multiset(s.clients)[s.clients[s.handlers[h].pc.i]] <= 1
    ensures multiset(s.handlers[g].live)[s.handlers[h].msg] == 0
  {
    TargetIsOpen(s, h, g);
    assert CopiesOk(s.clients, s.handlers[h], s.handlers[g], h == g);
    OncePassed(s.clients, s.handlers[h].pc.i);
  }

  lemma OncePassed(clients: seq<nat>, i: nat)
    requires i < |clients| && multiset(clients)[clients[i]] <= 1
    ensures multiset(clients[..i])[clients[i]] == 0
  {
    assert clients == clients[..i] + [clients[i]] + clients[i + 1..];
  }

  lemma ScanLoss(s: State, h: nat)
    requires ConnInv(s) && NoLossInv(s) && Enabled(s, Run(h))
    requires s.handlers[h].pc.BroadcastScan? && s.handlers[h].pc.i < |s.clients|
    ensures NoLossInv(Step(s, h))
  {
    var s' := Step(s, h);
    ScanStep(s, h);
    forall g | 0 <= g < |s'.handlers| ensures MissesNothing(s', g) {
      assert MissesNothing(s, g);
      if Open(s'.handlers[g]) && s'.handlers[g].replayed.Some? {
        forall k | 0 <= k < |s'.log| && s'.log[k].author != g ensures Reached(s'.handlers, s'.handlers[g], s'.log[k]) {
          assert Reached(s.handlers, s.handlers[g], s.log[k]);
        }
      }
    }
  }

  lemma ScanKnown(s: State, h: nat)
    requires ConnInv(s) && KnownInv(s) && Enabled(s, Run(h))
    requires s.handlers[h].pc.BroadcastScan? && s.handlers[h].pc.i < |s.clients|
    ensures KnownInv(Step(s, h))
  {
    var s' := Step(s, h);
    ScanStep(s, h);
    forall g | 0 <= g < |s'.handlers| ensures PcOk(s'.handlers[g], g, s'.clients) {
      assert PcOk(s.handlers[g], g, s.clients);
    }
    forall k | 0 <= k < |s'.log| ensures Known(s'.handlers, s'.log[k]) {
      assert Known(s.handlers, s.log[k]);
    }
    assert PcOk(s.handlers[h], h, s.clients);
    forall g, k | 0 <= g < |s'.handlers| && 0 <= k < |s'.handlers[g].live|
      ensures Known(s'.handlers, s'.handlers[g].live[k])
    {
      if k < |s.handlers[g].live| { assert Known(s.handlers, s.handlers[g].live[k]); }
    }
  }

  lemma ScanTable(s: State, h: nat, capacity: nat)
    requires ConnInv(s) && TableInv(s, capacity) && RemoveInv(s) && Enabled(s, Run(h))
    requires s.handlers[h].pc.BroadcastScan? && s.handlers[h].pc.i < |s.clients|
    ensures TableInv(Step(s, h), capacity) && RemoveInv(Step(s, h))
  {
    var s' := Step(s, h);
    ScanStep(s, h);
    TableFrame(s, s', capacity);
    forall g | 0 <= g < |s'.handlers| ensures PassedOver(s'.clients, s'.handlers[g]) {
      assert PassedOver(s.clients, s.handlers[g]);
    }
  }

  lemma ScanConn(s: State, h: nat)
    requires ConnInv(s) && MutexInv(s) && Enabled(s, Run(h))
    requires s.handlers[h].pc.BroadcastScan? && s.handlers[h].pc.i < |s.clients|
    ensures ConnInv(Step(s, h)) && MutexInv(Step(s, h))
  {
    ScanStep(s, h);
    assert forall g :: 0 <= g < |s.handlers| ==> (InSection(Step(s, h).handlers[g]) <==> InSection(s.handlers[g]));
  }

  lemma ScanInv(s: State, h: nat, capacity: nat)
    requires Inv(s, capacity) && Enabled(s, Run(h))
    requires s.handlers[h].pc.BroadcastScan? && s.handlers[h].pc.i < |s.clients|
    ensures Inv(Step(s, h), capacity)
  {
    ScanConn(s, h);
    ScanTable(s, h, capacity);
    ScanKnown(s, h);
    ScanCopies(s, h);
    ScanOnce(s, h, capacity);
    ScanLoss(s, h);
  }

  // When the scan ends, every open session but the sender has the message: its socket is in the
  // table at least once.
  predicate AtEnd(s: State, h: nat)
  {
    Enabled(s, Run(h)) && s.handlers[h].pc.BroadcastScan? && s.handlers[h].pc.i >= |s.clients|
  }

  lemma EndMoves(s: State, h: nat)
    requires AtEnd(s, h)
    ensures Step(s, h) == Goto(s, h, BroadcastUnlock) && Moves(s, Step(s, h), h)
  {
  }

  lemma EndCopies(s: State, h: nat)
    requires CopiesInv(s) && KnownInv(s) && AtEnd(s, h)
    ensures CopiesInv(Step(s, h))
  {
    var s', t := Step(s, h), s.handlers[h];
    EndMoves(s, h);
    assert PcOk(t, h, s.clients);
    forall g | 0 <= g < |s.handlers| ensures CopiesOk(s'.clients, s'.handlers[h], s'.handlers[g], g == h) {
      assert CopiesOk(s.clients, t, s.handlers[g], h == g);
      EndPassed(s.clients, t, s'.handlers[h], s.handlers[g], s'.handlers[g], h == g);
    }
    CopiesMove(s, s', h);
  }

  lemma EndPassed(clients: seq<nat>, t: Handler, t': Handler, u: Handler, u': Handler, self: bool)
    requires t.pc == BroadcastScan(|clients|) && t' == t.(pc := BroadcastUnlock) && CopiesOk(clients, t, u, self)
    requires u'.live == u.live && u'.sock == u.sock && (Open(u') <==> Open(u))
    ensures CopiesOk(clients, t', u', self)
  {
    assert clients[..|clients|] == clients;
  }

  lemma EndReaches(s: State, h: nat, g: nat, capacity: nat)
    requires TableInv(s, capacity) && AtEnd(s, h) && PcOk(s.handlers[h], h, s.clients)
    requires g < |s.handlers| && g != h && Open(s.handlers[g])
    requires CopiesOk(s.clients, s.handlers[h], s.handlers[g], false)
    ensures s.handlers[h].msg in s.handlers[g].live
  {
    EntryInTable(s, g, capacity);
    assert s.clients[..|s.clients|] == s.clients;
    assert s.handlers[h].msg in multiset(s.handlers[g].live);
  }

  lemma EndLoss(s: State, h: nat, capacity: nat)
    requires TableInv(s, capacity) && KnownInv(s) && NoLossInv(s) && CopiesInv(s) && AtEnd(s, h)
    ensures NoLossInv(Step(s, h))
  {
    EndMoves(s, h);
    assert PcOk(s.handlers[h], h, s.clients);
    forall g | 0 <= g < |s.handlers| ensures MissesNothing(Step(s, h), g) {
      assert MissesNothing(s, g) && CopiesOk(s.clients, s.handlers[h], s.handlers[g], h == g);
      if g != h && Open(s.handlers[g]) { EndReaches(s, h, g, capacity); }
      EndMissesNothing(s, h, g);
    }
  }

  lemma EndMissesNothing(s: State, h: nat, g: nat)
    requires AtEnd(s, h) && g < |s.handlers| && MissesNothing(s, g) && s.handlers[h].msg.author == h
    requires g != h && Open(s.handlers[g]) ==> s.handlers[h].msg in s.handlers[g].live
    ensures g < |Step(s, h).handlers| && MissesNothing(Step(s, h), g)
  {
    EndMoves(s, h);
    var s' := Step(s, h);
    if Open(s'.handlers[g]) && s'.handlers[g].replayed.Some? {
      forall k | 0 <= k < |s'.log| && s'.log[k].author != g ensures Reached(s'.handlers, s'.handlers[g], s'.log[k]) {
        assert Reached(s.handlers, s.handlers[g], s.log[k]);
      }
    }
  }

  lemma EndStructure(s: State, h: nat, capacity: nat)
    requires ConnInv(s) && MutexInv(s) && TableInv(s, capacity) && RemoveInv(s) && AtEnd(s, h)
    ensures ConnInv(Step(s, h)) && MutexInv(Step(s, h)) && TableInv(Step(s, h), capacity) && RemoveInv(Step(s, h))
  {
    var s' := Step(s, h);
    EndMoves(s, h);
    ConnMoves(s, s', h);
    GuardsKept(s.mutex, InSection, s.handlers, h, s'.handlers[h], s'.mutex);
    TableFrame(s, s', capacity);
    RemoveMoves(s, s', h);
  }

  lemma EndRest(s: State, h: nat)
    requires KnownInv(s) && OnceInv(s) && AtEnd(s, h)
    ensures KnownInv(Step(s, h)) && OnceInv(Step(s, h))
  {
    EndMoves(s, h);
    assert PcOk(s.handlers[h], h, s.clients);
    KnownMoves(s, Step(s, h), h);
    OnceMoves(s, Step(s, h), h);
  }

  lemma EndInv(s: State, h: nat, capacity: nat)
    requires Inv(s, capacity) && AtEnd(s, h)
    ensures Inv(Step(s, h), capacity)
  {
    EndStructure(s, h, capacity);
    EndRest(s, h);
    EndCopies(s, h);
    EndLoss(s, h, capacity);
  }

  lemma ApplyInv(s: State, a: Action, capacity: nat)
    requires Inv(s, capacity) && Enabled(s, a)
    ensures Inv(Apply(s, a, capacity), capacity)
  {
    match a {
      case Accept(sock) => if |s.clients| < capacity { AcceptInv(s, sock, capacity); }
      case Receive(h, _) => ComposeInv(s, Apply(s, a, capacity).handlers[h], h, capacity);
      case Hangup(h) => ComposeInv(s, Apply(s, a, capacity).handlers[h], h, capacity);
      case Run(h) =>
        match s.handlers[h].pc {
          case Replay => ComposeInv(s, Step(s, h).handlers[h], h, capacity);
          case Save => SaveInv(s, h, capacity);
          case BroadcastScan(i) => if i < |s.clients| { ScanInv(s, h, capacity); } else { EndInv(s, h, capacity); }
          case _ => PlainInv(s, h, capacity);
        }
    }
  }

  lemma {:induction false} RunInv(s: State, actions: seq<Action>, capacity: nat)
    requires Inv(s, capacity) && ValidRun(s, actions, capacity)
    ensures Inv(Exec(s, actions, capacity), capacity)
    decreases |actions|
  {
    if actions != [] {
      ApplyInv(s, actions[0], capacity);
      RunInv(Apply(s, actions[0], capacity), actions[1..], capacity);
    }
  }
}
