// How server_tls_final.c gets on: what each handler waits for, and that with silent clients it
// comes to rest with every message logged and delivered.
module TlsProgress {
  import opened Counting
  import opened TlsModel
  import opened TlsRegistry
  import opened TlsTheorems
  import TlsHistory
  import TlsJoiner

  // ---- What is waited for ----

  ghost predicate SomebodyInside(handlers: seq<Handler>)
  {
    exists g :: 0 <= g < |handlers| && InSection(handlers[g])
  }

  // An SSL object belongs to a handler that has not ended.
  ghost predicate InUse(handlers: seq<Handler>, ssl: nat)
  {
    exists g :: 0 <= g < |handlers| && handlers[g].ssl == ssl && !handlers[g].pc.Done?
  }

  ghost predicate HeldUp(handlers: seq<Handler>, a: Action)
  {
    match a
    case Accept(ssl) => ssl == NULL || InUse(handlers, ssl)
    case Authenticate(h, _) => h >= |handlers| || !handlers[h].pc.Authenticating?
    case Receive(h, _) => h >= |handlers| || !handlers[h].pc.Receiving?
    case Hangup(h) => h >= |handlers| || !handlers[h].pc.Receiving?
    case Run(h) =>
      || h >= |handlers| || Waiting(handlers[h].pc)
      || ((handlers[h].pc.AddLock? || handlers[h].pc.BroadcastLock? || handlers[h].pc.RemoveLock?)
          && SomebodyInside(handlers))
  }

  // A connection is only refused an address in use, and a handler is only held up by its client or
  // by another handler inside a section of clients_mutex.
  lemma BlockedExactly(capacity: nat, actions: seq<Action>, a: Action)
    requires ValidRun(Init(capacity), actions)
    ensures var s := Exec(Init(capacity), actions); !Enabled(s, a) <==> HeldUp(s.handlers, a)
  {
    Reachable(capacity, actions);
    var s := Exec(Init(capacity), actions);
    match a {
      case Accept(ssl) => AcceptBlocked(s, ssl);
      case Run(h) => RunBlocked(s, h);
      case _ =>
    }
  }

  lemma AcceptBlocked(s: State, ssl: nat)
    requires HeapInv(s)
    ensures !Enabled(s, Accept(ssl)) <==> HeldUp(s.handlers, Accept(ssl))
  {
    if ssl in s.heap {
      assert s.handlers[s.heap[ssl]].ssl == ssl;
    }
  }

  lemma RunBlocked(s: State, h: nat)
    requires MutexInv(s)
    ensures !Enabled(s, Run(h)) <==> HeldUp(s.handlers, Run(h))
  {
    HeldByAnother(s);
  }

  lemma HeldByAnother(s: State)
    requires MutexInv(s)
    ensures s.mutex.Some? <==> SomebodyInside(s.handlers)
  {
    if s.mutex.Some? {
      assert InSection(s.handlers[s.mutex.value]);
    }
  }

  // ---- A measure for the handlers' own steps ----

  // Steps from the end of a broadcast and its logging to the next rest.
  function Afterwards(slots: nat, body: Body): nat
  {
    match body
    case Join => 1
    case Chat(_) => 0
    case Leave => slots + 5
  }

  function Left(slots: nat, i: nat): nat { if i <= slots then slots - i else 0 }

  function Rank(slots: nat, t: Handler): nat
  {
    match t.pc
    case Authenticating => 0
    case AddLock => 2 * slots + 10
    case AddScan(i) => slots + 9 + Left(slots, i)
    case AddUnlock => slots + 8
    case BroadcastLock(_) => slots + 5 + Afterwards(slots, t.msg.body)
    case BroadcastScan(_, i) => 4 + Left(slots, i) + Afterwards(slots, t.msg.body)
    case BroadcastUnlock => 2 + Afterwards(slots, t.msg.body)
    case Save => 1 + Afterwards(slots, t.msg.body)
    case Replay => 1
    case Receiving => 0
    case RemoveLock => slots + 5
    case RemoveScan(i) => 4 + Left(slots, i)
    case RemoveUnlock => 2
    case Freeing => 1
    case Done => 0
  }

  function Ranker(slots: nat): Handler -> nat
  {
    t => Rank(slots, t)
  }

  ghost function Measure(s: State): nat
  {
    Sum(Ranker(|s.slots|), s.handlers)
  }

  lemma JoiningRankDrops(s: State, h: nat)
    requires Enabled(s, Run(h)) && TlsHistory.BeforeJoin(s.handlers[h].pc)
    ensures |Step(s, h).slots| == |s.slots| && |Step(s, h).handlers| == |s.handlers|
    ensures Rank(|s.slots|, Step(s, h).handlers[h]) < Rank(|s.slots|, s.handlers[h])
  {
  }

  lemma TalkingRankDrops(s: State, h: nat)
    requires Enabled(s, Run(h)) && !(s.handlers[h].pc.BroadcastScan? && s.handlers[h].pc.i < |s.slots|)
    requires s.handlers[h].pc.BroadcastLock? || Pending(s.handlers[h]) || s.handlers[h].pc.Replay?
    ensures |Step(s, h).slots| == |s.slots| && |Step(s, h).handlers| == |s.handlers|
    ensures Rank(|s.slots|, Step(s, h).handlers[h]) < Rank(|s.slots|, s.handlers[h])
  {
  }

  lemma LeavingRankDrops(s: State, h: nat)
    requires Enabled(s, Run(h)) && TlsHistory.AfterLeave(s.handlers[h].pc)
    ensures |Step(s, h).slots| == |s.slots| && |Step(s, h).handlers| == |s.handlers|
    ensures Rank(|s.slots|, Step(s, h).handlers[h]) < Rank(|s.slots|, s.handlers[h])
  {
  }

  lemma OwnRankDrops(s: State, h: nat)
    requires Enabled(s, Run(h)) && !(s.handlers[h].pc.BroadcastScan? && s.handlers[h].pc.i < |s.slots|)
    ensures |Step(s, h).slots| == |s.slots| && |Step(s, h).handlers| == |s.handlers|
    ensures Rank(|s.slots|, Step(s, h).handlers[h]) < Rank(|s.slots|, s.handlers[h])
  {
    if TlsHistory.BeforeJoin(s.handlers[h].pc) {
      JoiningRankDrops(s, h);
    } else if TlsHistory.AfterLeave(s.handlers[h].pc) {
      LeavingRankDrops(s, h);
    } else {
      TalkingRankDrops(s, h);
    }
  }

  lemma OthersRank(s: State, h: nat, g: nat)
    requires TlsRegistry.Inv(s) && Enabled(s, Run(h)) && g < |s.handlers| && g != h
    ensures g < |Step(s, h).handlers| && Rank(|s.slots|, Step(s, h).handlers[g]) == Rank(|s.slots|, s.handlers[g])
  {
    if s.handlers[h].pc.BroadcastScan? && s.handlers[h].pc.i < |s.slots| {
      ScanStep(s, h);
    } else {
      TlsJoiner.OtherStepFollows(s, h, g);
    }
  }

  lemma MeasureDrops(s: State, h: nat)
    requires TlsRegistry.Inv(s) && Enabled(s, Run(h))
    ensures |Step(s, h).slots| == |s.slots| && |Step(s, h).handlers| == |s.handlers|
    ensures Measure(Step(s, h)) < Measure(s)
  {
    var s', rank := Step(s, h), Ranker(|s.slots|);
    if s.handlers[h].pc.BroadcastScan? && s.handlers[h].pc.i < |s.slots| {
      ScanStep(s, h);
    } else {
      OwnRankDrops(s, h);
    }
    forall g | 0 <= g < |s.handlers| && g != h ensures rank(s'.handlers[g]) == rank(s.handlers[g]) {
      OthersRank(s, h, g);
    }
    SumDrops(rank, s.handlers, s'.handlers, h);
  }

  // ---- With silent clients ----

  // Nobody connects, types or hangs up: the handlers only do what they have begun.
  predicate OnlyRuns(actions: seq<Action>)
  {
    forall k :: 0 <= k < |actions| ==> actions[k].Run?
  }

  lemma {:induction false} RunsAreBounded(s: State, more: seq<Action>)
    requires TlsRegistry.Inv(s) && OnlyRuns(more) && ValidRun(s, more)
    ensures |more| <= Measure(s)
    decreases |more|
  {
    if more != [] {
      MeasureDrops(s, more[0].h);
      ApplyInv(s, more[0]);
      assert OnlyRuns(more[1..]);
      RunsAreBounded(Apply(s, more[0]), more[1..]);
    }
  }

  lemma {:induction false} ComesToRest(s: State) returns (more: seq<Action>)
    requires TlsRegistry.Inv(s)
    ensures OnlyRuns(more) && ValidRun(s, more) && StandsStill(Exec(s, more))
    decreases Measure(s)
  {
    if StandsStill(s) {
      more := [];
    } else {
      var h: nat :| Enabled(s, Run(h));
      MeasureDrops(s, h);
      ApplyInv(s, Run(h));
      var rest := ComesToRest(Step(s, h));
      RunBefore(s, h, rest);
      more := [Run(h)] + rest;
    }
  }

  lemma RunBefore(s: State, h: nat, rest: seq<Action>)
    requires Enabled(s, Run(h)) && ValidRun(Step(s, h), rest) && OnlyRuns(rest)
    ensures OnlyRuns([Run(h)] + rest) && ValidRun(s, [Run(h)] + rest)
    ensures Exec(s, [Run(h)] + rest) == Exec(Step(s, h), rest)
  {
    assert ([Run(h)] + rest)[1..] == rest;
  }

  lemma {:induction false} SlotsKept(s: State, actions: seq<Action>)
    requires TlsRegistry.Inv(s) && ValidRun(s, actions)
    ensures |Exec(s, actions).slots| == |s.slots|
    decreases |actions|
  {
    if actions != [] {
      if actions[0].Run? {
        MeasureDrops(s, actions[0].h);
      }
      ApplyInv(s, actions[0]);
      SlotsKept(Apply(s, actions[0]), actions[1..]);
    }
  }

  function StepBound(slots: nat, handlers: nat): nat { (2 * slots + 10) * handlers }

  lemma MeasureBound(s: State)
    ensures Measure(s) <= StepBound(|s.slots|, |s.handlers|)
  {
    SumAtMost(Ranker(|s.slots|), s.handlers, 2 * |s.slots| + 10);
  }

  // However long the handlers run without their clients, they run for this many steps at most.
  lemma SilenceEnds(capacity: nat, actions: seq<Action>, more: seq<Action>)
    requires ValidRun(Init(capacity), actions) && OnlyRuns(more)
    requires ValidRun(Exec(Init(capacity), actions), more)
    ensures |more| <= StepBound(capacity, |Exec(Init(capacity), actions).handlers|)
  {
    Reachable(capacity, actions);
    TlsHistory.InitInv(capacity);
    SlotsKept(Init(capacity), actions);
    SilentBound(Exec(Init(capacity), actions), more);
  }

  lemma SilentBound(s: State, more: seq<Action>)
    requires TlsRegistry.Inv(s) && OnlyRuns(more) && ValidRun(s, more)
    ensures |more| <= StepBound(|s.slots|, |s.handlers|)
  {
    RunsAreBounded(s, more);
    MeasureBound(s);
  }

  // Everything broadcast is logged, and each registered client has heard everything since it
  // registered, all in the one order.
  ghost predicate CaughtUp(s: State)
  {
    && AllWait(s) && s.mutex.None?
    && (forall k :: 0 <= k < |s.order| ==> s.order[k].msg in s.log)
    && (forall h :: 0 <= h < |s.handlers| && s.handlers[h].member.In? ==>
          && s.handlers[h].member.start <= |s.order|
          && s.handlers[h].live == Heard(s.order[s.handlers[h].member.start..], h))
  }

  lemma RestIsCaughtUp(s: State)
    requires TlsRegistry.Inv(s) && TlsHistory.Inv(s) && AliasInv(s) && StandsStill(s)
    ensures CaughtUp(s)
  {
    HolderCanRun(s);
    forall h | 0 <= h < |s.handlers| ensures Waiting(s.handlers[h].pc) {
      WaitingOrRuns(s, h);
    }
    forall k | 0 <= k < |s.order| ensures s.order[k].msg in s.log {
      TlsJoiner.Unlogged(s, k);
    }
    forall h | 0 <= h < |s.handlers| && s.handlers[h].member.In?
      ensures s.handlers[h].member.start <= |s.order|
      ensures s.handlers[h].live == Heard(s.order[s.handlers[h].member.start..], h)
    {
      DeliveryInOrder(s, h);
      assert s.order[s.handlers[h].member.start..|s.order|] == s.order[s.handlers[h].member.start..];
    }
  }

  // From every reachable state the handlers alone get to a rest where everyone has caught up, and
  // any rest is one of that kind.
  lemma AlwaysCatchesUp(capacity: nat, actions: seq<Action>) returns (more: seq<Action>)
    requires ValidRun(Init(capacity), actions)
    ensures OnlyRuns(more) && ValidRun(Exec(Init(capacity), actions), more)
    ensures StandsStill(Exec(Exec(Init(capacity), actions), more))
    ensures CaughtUp(Exec(Exec(Init(capacity), actions), more))
    ensures StandsStill(Exec(Init(capacity), actions)) ==> CaughtUp(Exec(Init(capacity), actions))
  {
    TlsHistory.InitInv(capacity);
    RunAlias(Init(capacity), actions);
    var s := Exec(Init(capacity), actions);
    more := ComesToRest(s);
    RunAlias(s, more);
    RestIsCaughtUp(Exec(s, more));
    if StandsStill(s) {
      RestIsCaughtUp(s);
    }
  }
}
