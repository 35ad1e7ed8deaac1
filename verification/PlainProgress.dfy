// How server.c gets on: what each handler waits for, and that with silent clients it comes to rest
// with every message delivered.
module PlainProgress {
  import opened Counting
  import opened PlainModel
  import opened PlainInvariants
  import opened PlainTheorems
  import PlainSessions

  // ---- What is waited for ----

  ghost predicate SomebodyInside(handlers: seq<Handler>)
  {
    exists g :: 0 <= g < |handlers| && InSection(handlers[g])
  }

  // A socket belongs to a handler that has not closed it.
  ghost predicate InUse(handlers: seq<Handler>, sock: nat)
  {
    exists g :: 0 <= g < |handlers| && handlers[g].sock == sock && Open(handlers[g])
  }

  ghost predicate HeldUp(handlers: seq<Handler>, a: Action)
  {
    match a
    case Accept(sock) => InUse(handlers, sock) || SomebodyInside(handlers)
    case Receive(h, _) => h >= |handlers| || !handlers[h].pc.Receiving?
    case Hangup(h) => h >= |handlers| || !handlers[h].pc.Receiving?
    case Run(h) =>
      || h >= |handlers| || Waiting(handlers[h].pc)
      || ((handlers[h].pc.BroadcastLock? || handlers[h].pc.RemoveLock?) && SomebodyInside(handlers))
  }

  // A handler is only held up by its client or by another handler inside a section of
  // clients_mutex, and main by the latter.
  lemma BlockedExactly(capacity: nat, actions: seq<Action>, a: Action)
    requires ValidRun(Init(), actions, capacity)
    ensures var s := Exec(Init(), actions, capacity); !Enabled(s, a) <==> HeldUp(s.handlers, a)
  {
    Reachable(capacity, actions);
    var s := Exec(Init(), actions, capacity);
    match a {
      case Accept(sock) => AcceptBlocked(s, sock);
      case Run(h) => RunBlocked(s, h);
      case _ =>
    }
  }

  lemma AcceptBlocked(s: State, sock: nat)
    requires ConnInv(s) && MutexInv(s)
    ensures !Enabled(s, Accept(sock)) <==> HeldUp(s.handlers, Accept(sock))
  {
    HeldByAnother(s);
    if sock in s.conns {
      assert s.handlers[s.conns[sock]].sock == sock;
    }
  }

  lemma RunBlocked(s: State, h: nat)
    requires MutexInv(s)
    ensures !Enabled(s, Run(h)) <==> HeldUp(s.handlers, Run(h))
  {
    HeldByAnother(s);
  }

  lemma HeldByAnother(s: State)
    requires MutexInv(s)
    ensures s.mutex.Some? <==> SomebodyInside(s.handlers)
  {
    if s.mutex.Some? {
      assert InSection(s.handlers[s.mutex.value]);
    }
  }

  // ---- A measure for the handlers' own steps ----

  // Steps from the end of a broadcast to the next rest.
  function Afterwards(capacity: nat, body: Body): nat { if body.Leave? then capacity + 6 else 0 }

  function Left(capacity: nat, i: nat): nat { if i <= capacity then capacity - i else 0 }

  function Rank(capacity: nat, t: Handler): nat
  {
    match t.pc
    case Replay => capacity + 6
    case Save => capacity + 6 + Afterwards(capacity, t.msg.body)
    case BroadcastLock => capacity + 5 + Afterwards(capacity, t.msg.body)
    case BroadcastScan(i) => 3 + Left(capacity, i) + Afterwards(capacity, t.msg.body)
    case BroadcastUnlock => 1 + Afterwards(capacity, t.msg.body)
    case Receiving => 0
    case Closing => capacity + 5
    case RemoveLock => capacity + 4
    case RemoveScan(i) => 3 + Left(capacity, i)
    case RemoveUnlock => 1
    case Done => 0
  }

  function Ranker(capacity: nat): Handler -> nat
  {
    t => Rank(capacity, t)
  }

  ghost function Measure(s: State, capacity: nat): nat
  {
    Sum(Ranker(capacity), s.handlers)
  }

  lemma TalkingRankDrops(s: State, h: nat, capacity: nat)
    requires Enabled(s, Run(h)) && !(s.handlers[h].pc.BroadcastScan? && s.handlers[h].pc.i < |s.clients|)
    requires !PlainSessions.AfterLeave(s.handlers[h].pc)
    ensures |Step(s, h).handlers| == |s.handlers|
    ensures Rank(capacity, Step(s, h).handlers[h]) < Rank(capacity, s.handlers[h])
  {
  }

  lemma LeavingRankDrops(s: State, h: nat, capacity: nat)
    requires Enabled(s, Run(h)) && PlainSessions.AfterLeave(s.handlers[h].pc) && |s.clients| <= capacity
    ensures |Step(s, h).handlers| == |s.handlers|
    ensures Rank(capacity, Step(s, h).handlers[h]) < Rank(capacity, s.handlers[h])
  {
  }

  lemma OwnRankDrops(s: State, h: nat, capacity: nat)
    requires Enabled(s, Run(h)) && !(s.handlers[h].pc.BroadcastScan? && s.handlers[h].pc.i < |s.clients|)
    requires |s.clients| <= capacity
    ensures |Step(s, h).handlers| == |s.handlers|
    ensures Rank(capacity, Step(s, h).handlers[h]) < Rank(capacity, s.handlers[h])
  {
    if PlainSessions.AfterLeave(s.handlers[h].pc) {
      LeavingRankDrops(s, h, capacity);
    } else {
      TalkingRankDrops(s, h, capacity);
    }
  }

  lemma OthersRank(s: State, h: nat, g: nat, capacity: nat)
    requires ConnInv(s) && Enabled(s, Run(h)) && g < |s.handlers| && g != h
    ensures g < |Step(s, h).handlers| && Rank(capacity, Step(s, h).handlers[g]) == Rank(capacity, s.handlers[g])
  {
    if s.handlers[h].pc.BroadcastScan? && s.handlers[h].pc.i < |s.clients| {
      ScanStep(s, h);
    } else {
      PlainSessions.OtherStays(s, h, g);
    }
  }

  lemma MeasureDrops(s: State, h: nat, capacity: nat)
    requires Inv(s, capacity) && Enabled(s, Run(h))
    ensures |Step(s, h).handlers| == |s.handlers|
    ensures Measure(Step(s, h), capacity) < Measure(s, capacity)
  {
    var s', rank := Step(s, h), Ranker(capacity);
    if s.handlers[h].pc.BroadcastScan? && s.handlers[h].pc.i < |s.clients| {
      ScanStep(s, h);
    } else {
      OwnRankDrops(s, h, capacity);
    }
    forall g | 0 <= g < |s.handlers| && g != h ensures rank(s'.handlers[g]) == rank(s.handlers[g]) {
      OthersRank(s, h, g, capacity);
    }
    SumDrops(rank, s.handlers, s'.handlers, h);
  }

  // ---- With silent clients ----

  // Nobody connects, types or hangs up: the handlers only do what they have begun.
  predicate OnlyRuns(actions: seq<Action>)
  {
    forall k :: 0 <= k < |actions| ==> actions[k].Run?
  }

  lemma {:induction false} RunsAreBounded(s: State, more: seq<Action>, capacity: nat)
    requires Inv(s, capacity) && OnlyRuns(more) && ValidRun(s, more, capacity)
    ensures |more| <= Measure(s, capacity)
    decreases |more|
  {
    if more != [] {
      MeasureDrops(s, more[0].h, capacity);
      ApplyInv(s, more[0], capacity);
      assert OnlyRuns(more[1..]);
      RunsAreBounded(Apply(s, more[0], capacity), more[1..], capacity);
    }
  }

  lemma {:induction false} ComesToRest(s: State, capacity: nat) returns (more: seq<Action>)
    requires Inv(s, capacity)
    ensures OnlyRuns(more) && ValidRun(s, more, capacity) && StandsStill(Exec(s, more, capacity))
    decreases Measure(s, capacity)
  {
    if StandsStill(s) {
      more := [];
    } else {
      var h: nat :| Enabled(s, Run(h));
      MeasureDrops(s, h, capacity);
      ApplyInv(s, Run(h), capacity);
      var rest := ComesToRest(Step(s, h), capacity);
      RunBefore(s, h, rest, capacity);
      more := [Run(h)] + rest;
    }
  }

  lemma RunBefore(s: State, h: nat, rest: seq<Action>, capacity: nat)
    requires Enabled(s, Run(h)) && ValidRun(Step(s, h), rest, capacity) && OnlyRuns(rest)
    ensures OnlyRuns([Run(h)] + rest) && ValidRun(s, [Run(h)] + rest, capacity)
    ensures Exec(s, [Run(h)] + rest, capacity) == Exec(Step(s, h), rest, capacity)
  {
    assert ([Run(h)] + rest)[1..] == rest;
  }

  function StepBound(capacity: nat, handlers: nat): nat { (2 * capacity + 12) * handlers }

  lemma MeasureBound(s: State, capacity: nat)
    ensures Measure(s, capacity) <= StepBound(capacity, |s.handlers|)
  {
    SumAtMost(Ranker(capacity), s.handlers, 2 * capacity + 12);
  }

  // However long the handlers run without their clients, they run for this many steps at most.
  lemma SilenceEnds(capacity: nat, actions: seq<Action>, more: seq<Action>)
    requires ValidRun(Init(), actions, capacity) && OnlyRuns(more)
    requires ValidRun(Exec(Init(), actions, capacity), more, capacity)
    ensures |more| <= StepBound(capacity, |Exec(Init(), actions, capacity).handlers|)
  {
    Reachable(capacity, actions);
    var s := Exec(Init(), actions, capacity);
    RunsAreBounded(s, more, capacity);
    MeasureBound(s, capacity);
  }

  // Each client that is still connected has everything that others have had logged.
  ghost predicate CaughtUp(s: State)
  {
    && AllWait(s) && s.mutex.None?
    && forall h, k ::
         0 <= h < |s.handlers| && s.handlers[h].pc.Receiving? && 0 <= k < |s.log| && s.log[k].author != h ==>
           Has(s.handlers[h], s.log[k])
  }

  predicate Has(t: Handler, m: Msg)
  {
    (t.replayed.Some? && m in t.replayed.value) || m in t.live
  }

  lemma RestIsCaughtUp(s: State, capacity: nat)
    requires Inv(s, capacity) && StandsStill(s)
    ensures CaughtUp(s)
  {
    HolderCanRun(s);
    forall h | 0 <= h < |s.handlers| ensures Waiting(s.handlers[h].pc) {
      WaitingOrRuns(s, h);
    }
    forall h, k | 0 <= h < |s.handlers| && s.handlers[h].pc.Receiving? && 0 <= k < |s.log| && s.log[k].author != h
      ensures Has(s.handlers[h], s.log[k])
    {
      RestingHas(s, h, k);
    }
  }

  lemma RestingHas(s: State, h: nat, k: nat)
    requires NoLossInv(s) && KnownInv(s) && AllWait(s) && h < |s.handlers| && s.handlers[h].pc.Receiving?
    requires k < |s.log| && s.log[k].author != h
    ensures Has(s.handlers[h], s.log[k])
  {
    assert PcOk(s.handlers[h], h, s.clients) && MissesNothing(s, h);
    assert Reached(s.handlers, s.handlers[h], s.log[k]);
    assert Known(s.handlers, s.log[k]) && Waiting(s.handlers[s.log[k].author].pc);
  }

  // From every reachable state the handlers alone get to a rest where everyone has caught up, and
  // any rest is one of that kind.
  lemma AlwaysCatchesUp(capacity: nat, actions: seq<Action>) returns (more: seq<Action>)
    requires ValidRun(Init(), actions, capacity)
    ensures OnlyRuns(more) && ValidRun(Exec(Init(), actions, capacity), more, capacity)
    ensures StandsStill(Exec(Exec(Init(), actions, capacity), more, capacity))
    ensures CaughtUp(Exec(Exec(Init(), actions, capacity), more, capacity))
    ensures StandsStill(Exec(Init(), actions, capacity)) ==> CaughtUp(Exec(Init(), actions, capacity))
  {
    Reachable(capacity, actions);
    var s := Exec(Init(), actions, capacity);
    more := ComesToRest(s, capacity);
    RunInv(s, more, capacity);
    RestIsCaughtUp(Exec(s, more, capacity), capacity);
    if StandsStill(s) {
      RestIsCaughtUp(s, capacity);
    }
  }
}
