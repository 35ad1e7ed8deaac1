// What a client of server_tls_final.c has of the broadcasts: nothing twice by the same way, and
// of those made before it registered exactly what had been logged when it was sent the log.
module TlsJoiner {
  import opened TlsModel
  import opened TlsRegistry
  import opened TlsTheorems
  import TlsHistory

  // ---- No message stands twice in the broadcast order or in the log ----

  lemma {:induction false} Position(msgs: seq<Msg>, k: nat)
    requires k < |msgs|
    ensures |By(msgs[..k], msgs[k].author)| < |By(msgs, msgs[k].author)|
    ensures By(msgs, msgs[k].author)[|By(msgs[..k], msgs[k].author)|] == msgs[k]
    decreases |msgs|
  {
    var n := |msgs| - 1;
    if k < n {
      assert msgs[..n][..k] == msgs[..k] && msgs[..n][k] == msgs[k];
      Position(msgs[..n], k);
    }
  }

  lemma PositionsDiffer(msgs: seq<Msg>, j: nat, k: nat)
    requires j < k < |msgs| && msgs[j].author == msgs[k].author
    ensures |By(msgs[..j], msgs[j].author)| < |By(msgs[..k], msgs[j].author)|
  {
    assert msgs[..k][..j] == msgs[..j] && msgs[..k][j] == msgs[j];
    Position(msgs[..k], j);
  }

  lemma {:induction false} ByMember(msgs: seq<Msg>, h: nat, n: nat)
    requires n < |By(msgs, h)|
    ensures By(msgs, h)[n] in msgs
  {
    var m := |msgs| - 1;
    if n < |By(msgs[..m], h)| {
      ByMember(msgs[..m], h, n);
    }
  }

  // The entries of author h are numbered from 0.
  predicate Numbered(msgs: seq<Msg>, h: nat)
  {
    forall n :: 0 <= n < |By(msgs, h)| ==> By(msgs, h)[n].seqNo == n
  }

  predicate Distinct(msgs: seq<Msg>)
  {
    forall j, k :: 0 <= j < k < |msgs| ==> msgs[j] != msgs[k]
  }

  lemma NumberedDistinct(msgs: seq<Msg>)
    requires forall k :: 0 <= k < |msgs| ==> Numbered(msgs, msgs[k].author)
    ensures Distinct(msgs)
  {
    forall j, k | 0 <= j < k < |msgs| ensures msgs[j] != msgs[k] {
      if msgs[j].author == msgs[k].author {
        assert Numbered(msgs, msgs[j].author);
        PositionsDiffer(msgs, j, k);
        Position(msgs, j);
        Position(msgs, k);
      }
    }
  }

  lemma HistoryDistinct(s: State)
    requires TlsHistory.Inv(s)
    ensures Distinct(Messages(s.order)) && Distinct(s.log)
  {
    forall h | 0 <= h < |s.handlers| ensures Numbered(Messages(s.order), h) && Numbered(s.log, h) {
      assert TlsHistory.SessionOk(s.order, s.log, s.handlers[h], h);
    }
    forall k | 0 <= k < |s.order| ensures Numbered(Messages(s.order), Messages(s.order)[k].author) {
      assert TlsHistory.EntryOk(s.handlers, s.order[k]);
    }
    NumberedDistinct(Messages(s.order));
    NumberedDistinct(s.log);
  }

  lemma OrderDistinct(s: State, j: nat, k: nat)
    requires TlsHistory.Inv(s) && j < k < |s.order|
    ensures s.order[j].msg != s.order[k].msg
  {
    HistoryDistinct(s);
    assert Messages(s.order)[j] == s.order[j].msg && Messages(s.order)[k] == s.order[k].msg;
  }

  // ---- Nothing arrives twice by the same way ----

  lemma {:induction false} NotHeard(order: seq<Sent>, h: nat, m: Msg)
    requires forall k :: 0 <= k < |order| ==> order[k].msg != m
    ensures m !in Heard(order, h)
  {
    if order != [] {
      NotHeard(order[..|order| - 1], h, m);
    }
  }

  ghost predicate DistinctOrder(order: seq<Sent>)
  {
    forall j, k :: 0 <= j < k < |order| ==> order[j].msg != order[k].msg
  }

  lemma {:induction false} HeardOnce(order: seq<Sent>, h: nat, m: Msg)
    requires DistinctOrder(order)
    ensures multiset(Heard(order, h))[m] <= 1
  {
    if order != [] {
      var n := |order| - 1;
      HeardOnce(order[..n], h, m);
      if order[n].msg == m {
        NotHeard(order[..n], h, m);
      }
    }
  }

  lemma {:induction false} DistinctOnce(msgs: seq<Msg>, m: Msg)
    requires Distinct(msgs)
    ensures multiset(msgs)[m] <= 1
  {
    if msgs != [] {
      var n := |msgs| - 1;
      assert msgs == msgs[..n] + [msgs[n]];
      assert msgs[n] !in msgs[..n];
      DistinctOnce(msgs[..n], m);
    }
  }

  // A client was sent the log as it stood at some earlier moment.
  ghost predicate ReplayedInv(s: State)
  {
    forall h :: 0 <= h < |s.handlers| ==> s.handlers[h].replayed <= s.log
  }

  lemma ApplyReplayed(s: State, a: Action)
    requires Inv(s) && ReplayedInv(s) && Enabled(s, a)
    ensures ReplayedInv(Apply(s, a))
  {
    var s' := Apply(s, a);
    forall h | 0 <= h < |s'.handlers| ensures s'.handlers[h].replayed <= s'.log {
      if a.Run? {
        ReplayedStep(s, a.h, h);
      }
    }
  }

  lemma ReplayedStep(s: State, h: nat, g: nat)
    requires Inv(s) && Enabled(s, Run(h)) && g < |s.handlers|
    ensures |Step(s, h).handlers| == |s.handlers| && s.log <= Step(s, h).log
    ensures Step(s, h).handlers[g].replayed in {s.handlers[g].replayed, s.log}
  {
    if s.handlers[h].pc.BroadcastScan? && s.handlers[h].pc.i < |s.slots| {
      ScanStep(s, h);
    } else if s.handlers[h].pc.BroadcastScan? {
      assert Step(s, h).handlers == s.handlers[h := Step(s, h).handlers[h]];
    }
  }

  lemma {:induction false} RunReplayed(s: State, actions: seq<Action>)
    requires Inv(s) && ReplayedInv(s) && ValidRun(s, actions)
    ensures ReplayedInv(Exec(s, actions))
    decreases |actions|
  {
    if actions != [] {
      ApplyInv(s, actions[0]);
      ApplyReplayed(s, actions[0]);
      RunReplayed(Apply(s, actions[0]), actions[1..]);
    }
  }

  // Each message reaches a client at most once by a broadcast and at most once from the log.
  lemma AtMostTwice(capacity: nat, actions: seq<Action>, h: nat, m: Msg)
    requires ValidRun(Init(capacity), actions) && h < |Exec(Init(capacity), actions).handlers|
    ensures var t := Exec(Init(capacity), actions).handlers[h];
      multiset(t.live)[m] <= 1 && multiset(t.replayed)[m] <= 1
  {
    Reachable(capacity, actions);
    TotalOrder(capacity, actions, h);
    TlsHistory.InitInv(capacity);
    RunReplayed(Init(capacity), actions);
    var s := Exec(Init(capacity), actions);
    LiveOnce(s, h, m);
    HistoryDistinct(s);
    DistinctOnce(s.handlers[h].replayed, m);
  }

  lemma LiveOnce(s: State, h: nat, m: Msg)
    requires TlsHistory.Inv(s) && h < |s.handlers| && DeliveredInOrder(s, h)
    ensures multiset(s.handlers[h].live)[m] <= 1
  {
    var member := s.handlers[h].member;
    if !member.Outside? {
      var a, b := member.start, if member.In? then Offered(s, member.slot) else member.stop;
      StretchDistinct(s, a, b);
      HeardOnce(s.order[a..b], h, m);
    }
  }

  lemma StretchDistinct(s: State, a: nat, b: nat)
    requires TlsHistory.Inv(s) && a <= b <= |s.order|
    ensures DistinctOrder(s.order[a..b])
  {
    forall j, k | 0 <= j < k < |s.order| ensures s.order[j].msg != s.order[k].msg {
      OrderDistinct(s, j, k);
    }
    SliceDistinct(s.order, a, b);
  }

  lemma SliceDistinct(order: seq<Sent>, a: nat, b: nat)
    requires DistinctOrder(order) && a <= b <= |order|
    ensures DistinctOrder(order[a..b])
  {
    forall j, k | 0 <= j < k < b - a ensures order[a..b][j].msg != order[a..b][k].msg {
      assert order[a..b][j] == order[a + j] && order[a..b][k] == order[a + k];
    }
  }

  // ---- What is in the log ----

  lemma {:induction false} NotBy(msgs: seq<Msg>, m: Msg)
    requires m !in By(msgs, m.author)
    ensures m !in msgs
  {
    if msgs != [] {
      var l := |msgs| - 1;
      assert By(msgs, m.author) == By(msgs[..l], m.author) + if msgs[l].author == m.author then [msgs[l]] else [];
      NotBy(msgs[..l], m);
      assert msgs == msgs[..l] + [msgs[l]];
    }
  }

  // The author of m has begun to broadcast it and not logged it yet.
  predicate AboutToLog(handlers: seq<Handler>, m: Msg)
  {
    m.author < |handlers| && Pending(handlers[m.author]) && handlers[m.author].msg == m
  }

  lemma MissingIsPending(s: State, k: nat)
    requires TlsHistory.Inv(s) && k < |s.order| && s.order[k].msg !in s.log
    ensures AboutToLog(s.handlers, s.order[k].msg)
  {
    assert TlsHistory.EntryOk(s.handlers, s.order[k]);
    var g, msgs := s.order[k].msg.author, Messages(s.order);
    assert TlsHistory.SessionOk(s.order, s.log, s.handlers[g], g);
    Position(msgs, k);
    var p := |By(msgs[..k], g)|;
    if p < |By(s.log, g)| {
      assert By(s.log, g)[p] == s.order[k].msg;
      ByMember(s.log, g, p);
    }
  }

  lemma PendingIsMissing(s: State, m: Msg)
    requires TlsHistory.Inv(s) && AboutToLog(s.handlers, m)
    ensures m !in s.log
  {
    var t := s.handlers[m.author];
    assert TlsHistory.SessionOk(s.order, s.log, t, m.author);
    var said, logged := By(Messages(s.order), m.author), By(s.log, m.author);
    assert m.seqNo == |logged|;
    forall n | 0 <= n < |logged| ensures logged[n] != m {
      assert logged[n] == said[n] && said[n].seqNo == n;
    }
    NotBy(s.log, m);
  }

  // A broadcast is not in the log exactly while it is the one its author has yet to log.
  lemma UnloggedExactly(capacity: nat, actions: seq<Action>, k: nat)
    requires ValidRun(Init(capacity), actions) && k < |Exec(Init(capacity), actions).order|
    ensures var s := Exec(Init(capacity), actions);
      s.order[k].msg !in s.log <==> AboutToLog(s.handlers, s.order[k].msg)
  {
    Reachable(capacity, actions);
    Unlogged(Exec(Init(capacity), actions), k);
  }

  lemma Unlogged(s: State, k: nat)
    requires TlsHistory.Inv(s) && k < |s.order|
    ensures s.order[k].msg !in s.log <==> AboutToLog(s.handlers, s.order[k].msg)
  {
    if s.order[k].msg !in s.log {
      MissingIsPending(s, k);
    } else if AboutToLog(s.handlers, s.order[k].msg) {
      PendingIsMissing(s, s.order[k].msg);
    }
  }

  // ---- How many messages a joiner lacks ----

  lemma {:induction false} InjectionBound(a: set<nat>, f: seq<nat>, b: set<nat>)
    requires forall k :: k in a ==> k < |f| && f[k] in b
    requires forall j, k :: j in a && k in a && f[j] == f[k] ==> j == k
    ensures |a| <= |b|
  {
    if a != {} {
      var k :| k in a;
      InjectionBound(a - {k}, f, b - {f[k]});
    }
  }

  // Broadcasts from before `start` that the log does not hold.
  function Missing(s: State, start: nat): set<nat>
  {
    set k: nat | k < |s.order| && k < start && s.order[k].msg !in s.log
  }

  // The place of a message in the broadcast order.
  function PlaceOf(order: seq<Sent>, m: Msg): (k: nat)
    ensures k <= |order| && (k < |order| ==> order[k].msg == m)
    ensures forall j :: 0 <= j < k ==> order[j].msg != m
  {
    if order == [] || order[0].msg == m then 0 else 1 + PlaceOf(order[1..], m)
  }

  // The handlers that began a broadcast before `start` and have not logged it.
  function Overtaken(s: State, start: nat): set<nat>
  {
    set g: nat | g < |s.handlers| && Pending(s.handlers[g])
                 && PlaceOf(s.order, s.handlers[g].msg) < start && PlaceOf(s.order, s.handlers[g].msg) < |s.order|
  }

  lemma MissingAtMostOvertaken(s: State, start: nat)
    requires TlsHistory.Inv(s)
    ensures |Missing(s, start)| <= |Overtaken(s, start)|
  {
    var authors := seq(|s.order|, k requires 0 <= k < |s.order| => s.order[k].msg.author);
    forall k | k in Missing(s, start) ensures k < |authors| && authors[k] in Overtaken(s, start) {
      MissingIsPending(s, k);
    }
    forall j, k | j in Missing(s, start) && k in Missing(s, start) && authors[j] == authors[k] ensures j == k {
      MissingIsPending(s, j);
      MissingIsPending(s, k);
      if j < k { OrderDistinct(s, j, k); }
      if k < j { OrderDistinct(s, k, j); }
    }
    InjectionBound(Missing(s, start), authors, Overtaken(s, start));
  }

  lemma OvertakenAtMostMissing(s: State, start: nat)
    requires TlsHistory.Inv(s)
    ensures |Overtaken(s, start)| <= |Missing(s, start)|
  {
    var places := seq(|s.handlers|, g requires 0 <= g < |s.handlers| => PlaceOf(s.order, s.handlers[g].msg));
    forall g | g in Overtaken(s, start)
      ensures g < |places| && places[g] in Missing(s, start) && s.order[places[g]].msg.author == g
    {
      assert TlsHistory.SessionOk(s.order, s.log, s.handlers[g], g);
      PendingIsMissing(s, s.handlers[g].msg);
    }
    InjectionBound(Overtaken(s, start), places, Missing(s, start));
  }

  function OthersPending(s: State, h: nat): set<nat>
  {
    set g: nat | g < |s.handlers| && g != h && Pending(s.handlers[g])
  }

  lemma {:induction false} SubsetBound(a: set<nat>, b: set<nat>)
    requires a <= b
    ensures |a| <= |b|
  {
    if k :| k in a {
      SubsetBound(a - {k}, b - {k});
    }
  }

  // Because this server broadcasts before it logs, a session that has just been sent the log may
  // lack messages broadcast before it registered. They are as many as the sessions that began
  // such a broadcast and have not logged it, so never more than there are other sessions between
  // broadcast and log.
  lemma JoinerMissesFew(capacity: nat, actions: seq<Action>, h: nat)
    requires ValidRun(Init(capacity), actions) && Enabled(Exec(Init(capacity), actions), Run(h))
    requires Exec(Init(capacity), actions).handlers[h].pc.Replay?
    requires Exec(Init(capacity), actions).handlers[h].member.In?
    ensures var s, s' := Exec(Init(capacity), actions), Step(Exec(Init(capacity), actions), h);
      var start := s.handlers[h].member.start;
      && s'.handlers[h].replayed == s.log && s'.order == s.order
      && |set k: nat | k < |s.order| && k < start && s.order[k].msg !in s'.handlers[h].replayed|
         == |Overtaken(s, start)| <= |OthersPending(s, h)|
  {
    Reachable(capacity, actions);
    var s, s' := Exec(Init(capacity), actions), Step(Exec(Init(capacity), actions), h);
    var start := s.handlers[h].member.start;
    MissingAtMostOvertaken(s, start);
    OvertakenAtMostMissing(s, start);
    SubsetBound(Overtaken(s, start), OthersPending(s, h));
    assert (set k: nat | k < |s.order| && k < start && s.order[k].msg !in s'.handlers[h].replayed) == Missing(s, start);
  }

  // ---- What it lacks, it lacks for good ----

  lemma EarlierNeverLive(s: State, h: nat, k: nat)
    requires TlsHistory.Inv(s) && h < |s.handlers| && DeliveredInOrder(s, h) && k < |s.order|
    requires s.handlers[h].member.Outside? || k < s.handlers[h].member.start
    ensures s.order[k].msg !in s.handlers[h].live
  {
    var member := s.handlers[h].member;
    if !member.Outside? {
      EarlierNotHeard(s, h, k, member.start, if member.In? then Offered(s, member.slot) else member.stop);
    }
  }

  lemma EarlierNotHeard(s: State, h: nat, k: nat, a: nat, b: nat)
    requires TlsHistory.Inv(s) && k < a <= b <= |s.order|
    ensures s.order[k].msg !in Heard(s.order[a..b], h)
  {
    forall j | 0 <= j < b - a ensures s.order[a..b][j].msg != s.order[k].msg {
      OrderDistinct(s, k, a + j);
    }
    NotHeard(s.order[a..b], h, s.order[k].msg);
  }

  // No broadcast from before a session registered ever reaches it live.
  lemma NothingEarlierLive(capacity: nat, actions: seq<Action>, h: nat, k: nat)
    requires ValidRun(Init(capacity), actions) && h < |Exec(Init(capacity), actions).handlers|
    requires k < |Exec(Init(capacity), actions).order|
    requires Exec(Init(capacity), actions).handlers[h].member.Outside?
      || k < Exec(Init(capacity), actions).handlers[h].member.start
    ensures var s := Exec(Init(capacity), actions); s.order[k].msg !in s.handlers[h].live
  {
    Reachable(capacity, actions);
    TotalOrder(capacity, actions, h);
    EarlierNeverLive(Exec(Init(capacity), actions), h, k);
  }

  // The handler has sent the log to its client.
  predicate HasReplayed(t: Handler)
  {
    || t.pc.Receiving? || TlsHistory.AfterLeave(t.pc) || t.pc.Done?
    || ((t.pc.BroadcastLock? || Pending(t)) && !t.msg.body.Join?)
  }

  // Later states extend the order and leave the session's replay and registration point alone.
  predicate Follows(s: State, s': State, h: nat)
    requires h < |s.handlers| && !s.handlers[h].member.Outside?
  {
    && h < |s'.handlers| && HasReplayed(s'.handlers[h])
    && s.order <= s'.order && s'.handlers[h].replayed == s.handlers[h].replayed
    && !s'.handlers[h].member.Outside? && s'.handlers[h].member.start == s.handlers[h].member.start
  }

  lemma ApplyFollows(s: State, a: Action, h: nat)
    requires Inv(s) && Enabled(s, a) && h < |s.handlers|
    requires HasReplayed(s.handlers[h]) && !s.handlers[h].member.Outside?
    ensures Follows(s, Apply(s, a), h)
  {
    if a.Run? {
      if s.handlers[a.h].pc.BroadcastScan? && s.handlers[a.h].pc.i < |s.slots| {
        ScanStep(s, a.h);
      } else if a.h == h {
        OwnStepFollows(s, h);
      } else {
        OtherStepFollows(s, a.h, h);
      }
    }
  }

  lemma OtherStepFollows(s: State, g: nat, h: nat)
    requires Enabled(s, Run(g)) && h < |s.handlers| && h != g
    requires !(s.handlers[g].pc.BroadcastScan? && s.handlers[g].pc.i < |s.slots|)
    ensures h < |Step(s, g).handlers| && Step(s, g).handlers[h] == s.handlers[h] && s.order <= Step(s, g).order
  {
  }

  lemma OwnStepFollows(s: State, h: nat)
    requires Enabled(s, Run(h)) && HasReplayed(s.handlers[h]) && !s.handlers[h].member.Outside?
    requires s.handlers[h].pc.BroadcastScan? ==> s.handlers[h].pc.i >= |s.slots|
    ensures Follows(s, Step(s, h), h)
  {
  }

  lemma {:induction false} RunFollows(s: State, actions: seq<Action>, h: nat)
    requires Inv(s) && ValidRun(s, actions) && h < |s.handlers|
    requires HasReplayed(s.handlers[h]) && !s.handlers[h].member.Outside?
    ensures Follows(s, Exec(s, actions), h)
    decreases |actions|
  {
    if actions != [] {
      ApplyInv(s, actions[0]);
      ApplyFollows(s, actions[0], h);
      RunFollows(Apply(s, actions[0]), actions[1..], h);
    }
  }

  ghost predicate Has(t: Handler, m: Msg)
  {
    m in t.replayed || m in t.live
  }

  // Whatever happens after the replay: of the messages broadcast before a session registered, its
  // client ever has exactly those that were not about to be logged when it was sent the log.
  lemma MissedForGood(capacity: nat, actions: seq<Action>, h: nat, later: seq<Action>, k: nat)
    requires ValidRun(Init(capacity), actions) && Enabled(Exec(Init(capacity), actions), Run(h))
    requires Exec(Init(capacity), actions).handlers[h].pc.Replay?
    requires Exec(Init(capacity), actions).handlers[h].member.In?
    requires ValidRun(Step(Exec(Init(capacity), actions), h), later)
    requires k < Exec(Init(capacity), actions).handlers[h].member.start
    ensures var s := Exec(Init(capacity), actions);
      var end := Exec(Step(s, h), later);
      && k < |s.order| <= |end.order| && s.order[k] == end.order[k] && h < |end.handlers|
      && (Has(end.handlers[h], s.order[k].msg) <==> !AboutToLog(s.handlers, s.order[k].msg))
  {
    TlsHistory.InitInv(capacity);
    RunAlias(Init(capacity), actions);
    MissedFrom(Exec(Init(capacity), actions), h, later, k);
  }

  lemma MissedFrom(s: State, h: nat, later: seq<Action>, k: nat)
    requires Inv(s) && TlsHistory.Inv(s) && AliasInv(s) && Enabled(s, Run(h))
    requires s.handlers[h].pc.Replay? && s.handlers[h].member.In? && k < s.handlers[h].member.start
    requires ValidRun(Step(s, h), later)
    ensures var end := Exec(Step(s, h), later);
      && k < |s.order| <= |end.order| && s.order[k] == end.order[k] && h < |end.handlers|
      && (Has(end.handlers[h], s.order[k].msg) <==> !AboutToLog(s.handlers, s.order[k].msg))
  {
    assert DeliveryOk(s, s.handlers[h]);
    var s' := Step(s, h);
    ApplyAlias(s, Run(h));
    ApplyInv(s, Run(h));
    TlsHistory.ApplyInv(s, Run(h));
    RunAlias(s', later);
    RunFollows(s', later, h);
    var end := Exec(s', later);
    DeliveryInOrder(end, h);
    EarlierNeverLive(end, h, k);
    Unlogged(s, k);
  }
}
