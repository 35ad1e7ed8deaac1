// The order in which server.c delivers: every client sees the broadcasts in the one order in which
// they are completed, whatever socket numbers are reissued.
module PlainOrder {
  import opened Counting
  import opened PlainModel
  import opened PlainInvariants
  import opened PlainTheorems
  import PlainSessions

  // The place of m among the completed broadcasts; one that is not completed comes after them.
  function Place(completed: seq<Msg>, m: Msg): (k: nat)
    ensures k <= |completed| && (k < |completed| ==> completed[k] == m)
    ensures forall j :: 0 <= j < k ==> completed[j] != m
  {
    if completed == [] || completed[0] == m then 0 else 1 + Place(completed[1..], m)
  }

  // t is broadcasting m now.
  predicate Broadcasting(t: Handler, m: Msg)
  {
    (t.pc.BroadcastScan? || t.pc.BroadcastUnlock?) && t.msg == m
  }

  ghost predicate Started(s: State, m: Msg)
  {
    m in s.completed || (s.mutex.Some? && s.mutex.value < |s.handlers| && Broadcasting(s.handlers[s.mutex.value], m))
  }

  // Live messages have been completed or are being broadcast, and come in that order.
  ghost predicate OrderOk(s: State, live: seq<Msg>)
  {
    && (forall i :: 0 <= i < |live| ==> Started(s, live[i]))
    && forall i, j :: 0 <= i < j < |live| ==> Place(s.completed, live[i]) <= Place(s.completed, live[j])
  }

  ghost predicate OrderInv(s: State)
  {
    forall h :: 0 <= h < |s.handlers| ==> OrderOk(s, s.handlers[h].live)
  }

  lemma {:induction false} PlaceAppend(completed: seq<Msg>, x: Msg, m: Msg)
    requires m in completed || m == x
    ensures Place(completed + [x], m) == Place(completed, m)
  {
    if completed != [] && completed[0] != m {
      assert (completed + [x])[1..] == completed[1..] + [x];
      PlaceAppend(completed[1..], x, m);
    }
  }

  // The message being broadcast is handed to one more client.
  lemma ScanOrder(s: State, h: nat, live: seq<Msg>)
    requires CompletedInv(s) && MutexInv(s) && h < |s.handlers| && s.handlers[h].pc.BroadcastScan?
    requires PcOk(s.handlers[h], h, s.clients) && OrderOk(s, live)
    ensures OrderOk(s, live + [s.handlers[h].msg])
  {
    var m, live' := s.handlers[h].msg, live + [s.handlers[h].msg];
    assert InSection(s.handlers[h]);
    assert Underway(s.handlers, m);
    forall k | 0 <= k < |s.completed| ensures s.completed[k] != m {
      assert Settled(s, s.completed[k]);
    }
    assert Place(s.completed, m) == |s.completed|;
    forall i | 0 <= i < |live'| ensures Started(s, live'[i]) {
      assert i < |live| ==> Started(s, live[i]);
    }
  }

  // Messages that have started stay started while nothing is completed, and their order stays.
  lemma FrameOrder(s: State, s': State, live: seq<Msg>)
    requires OrderOk(s, live) && s'.completed == s.completed
    requires forall m :: Started(s, m) ==> Started(s', m)
    ensures OrderOk(s', live)
  {
  }

  lemma UnlockOrder(s: State, h: nat, live: seq<Msg>)
    requires MutexInv(s) && Enabled(s, Run(h)) && s.handlers[h].pc.BroadcastUnlock? && OrderOk(s, live)
    ensures OrderOk(Step(s, h), live)
  {
    var s', x := Step(s, h), s.handlers[h].msg;
    assert InSection(s.handlers[h]);
    assert s'.completed == s.completed + [x];
    forall i | 0 <= i < |live|
      ensures Started(s', live[i]) && Place(s'.completed, live[i]) == Place(s.completed, live[i])
    {
      assert Started(s, live[i]);
      PlaceAppend(s.completed, x, live[i]);
    }
  }

  lemma QuietStarted(s: State, h: nat, m: Msg)
    requires MutexInv(s) && Enabled(s, Run(h)) && !s.handlers[h].pc.BroadcastUnlock? && Started(s, m)
    requires !(s.handlers[h].pc.BroadcastScan? && s.handlers[h].pc.i < |s.clients|)
    ensures Started(Step(s, h), m) && Step(s, h).completed == s.completed
  {
    if m !in s.completed {
      var g := s.mutex.value;
      assert InSection(s.handlers[g]);
      if g == h {
        assert s.handlers[h].pc.BroadcastScan?;
      } else {
        PlainSessions.OtherStays(s, h, g);
        assert !InSection(s.handlers[h]);
        StepOutside(s, h);
      }
    }
  }

  lemma StepOutside(s: State, h: nat)
    requires Enabled(s, Run(h)) && !InSection(s.handlers[h]) && s.mutex.Some?
    ensures Step(s, h).mutex == s.mutex
  {
  }

  lemma ScanStarted(s: State, h: nat)
    requires ConnInv(s) && MutexInv(s) && Enabled(s, Run(h))
    requires s.handlers[h].pc.BroadcastScan? && s.handlers[h].pc.i < |s.clients|
    ensures Step(s, h).completed == s.completed && forall m :: Started(s, m) ==> Started(Step(s, h), m)
  {
    ScanStep(s, h);
    assert InSection(s.handlers[h]);
  }

  lemma StepOrder(s: State, h: nat, g: nat)
    requires ConnInv(s) && MutexInv(s) && KnownInv(s) && CompletedInv(s) && OrderInv(s)
    requires Enabled(s, Run(h)) && g < |Step(s, h).handlers|
    ensures OrderOk(Step(s, h), Step(s, h).handlers[g].live)
  {
    PlainSessions.StepKeepsCount(s, h);
    var s', live := Step(s, h), s.handlers[g].live;
    assert OrderOk(s, live) && PcOk(s.handlers[h], h, s.clients);
    if s.handlers[h].pc.BroadcastScan? && s.handlers[h].pc.i < |s.clients| {
      ScanStep(s, h);
      ScanStarted(s, h);
      ScanOrder(s, h, live);
      FrameOrder(s, s', live + [s.handlers[h].msg]);
      FrameOrder(s, s', live);
      assert live + [] == live;
    } else {
      PlainSessions.StillLive(s, h, g);
      if s.handlers[h].pc.BroadcastUnlock? {
        UnlockOrder(s, h, live);
      } else {
        forall m | Started(s, m) ensures Started(s', m) { QuietStarted(s, h, m); }
        QuietCompleted(s, h);
        FrameOrder(s, s', live);
      }
    }
  }

  lemma QuietCompleted(s: State, h: nat)
    requires Enabled(s, Run(h)) && !s.handlers[h].pc.BroadcastUnlock?
    requires !(s.handlers[h].pc.BroadcastScan? && s.handlers[h].pc.i < |s.clients|)
    ensures Step(s, h).completed == s.completed
  {
  }

  lemma ChoiceOrder(s: State, a: Action, capacity: nat, g: nat)
    requires MutexInv(s) && OrderInv(s) && Enabled(s, a) && !a.Run? && g < |Apply(s, a, capacity).handlers|
    ensures OrderOk(Apply(s, a, capacity), Apply(s, a, capacity).handlers[g].live)
  {
    var s' := Apply(s, a, capacity);
    if g < |s.handlers| {
      assert OrderOk(s, s.handlers[g].live);
      FrameOrder(s, s', s.handlers[g].live);
    }
  }

  lemma {:induction false} RunOrder(s: State, actions: seq<Action>, capacity: nat)
    requires Inv(s, capacity) && CompletedInv(s) && OrderInv(s) && ValidRun(s, actions, capacity)
    ensures OrderInv(Exec(s, actions, capacity))
    decreases |actions|
  {
    if actions != [] {
      var a, s' := actions[0], Apply(s, actions[0], capacity);
      forall g | 0 <= g < |s'.handlers| ensures OrderOk(s', s'.handlers[g].live) {
        if a.Run? { StepOrder(s, a.h, g); } else { ChoiceOrder(s, a, capacity, g); }
      }
      ApplyInv(s, a, capacity);
      ApplyCompleted(s, a, capacity);
      RunOrder(s', actions[1..], capacity);
    }
  }

  // What broadcasts have sent to a client is completed or being broadcast, and comes in the order
  // of completion, the one being broadcast last: all clients see one order.
  lemma OneOrderForAll(capacity: nat, actions: seq<Action>, h: nat)
    requires ValidRun(Init(), actions, capacity) && h < |Exec(Init(), actions, capacity).handlers|
    ensures OrderOk(Exec(Init(), actions, capacity), Exec(Init(), actions, capacity).handlers[h].live)
  {
    InitInv(capacity);
    RunOrder(Init(), actions, capacity);
  }
}
