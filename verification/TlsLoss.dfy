// A run of server_tls_final.c in which a client misses a message for good: with two slots, the
// first client's message is broadcast before the second client registers and is logged only
// after the second client has been sent the log.
module TlsLoss {
  import opened Counting
  import opened TlsModel

  const HELLO: Msg := Msg(0, 1, Chat("hello"))
  const JOIN0: Msg := Msg(0, 0, Join)
  const JOIN1: Msg := Msg(1, 0, Join)

  // Both sessions wait for their clients and everything is logged, but a message broadcast before
  // session 1 registered was neither in the log that its client was sent nor sent to it live.
  ghost predicate Loses(s: State)
  {
    && |s.handlers| == 2 && s.handlers[0].pc.Receiving? && s.handlers[1].pc.Receiving?
    && s.handlers[1].member == In(1, 2) && |s.order| == 3 && s.order[1].msg == HELLO && HELLO in s.log
    && HELLO !in s.handlers[1].replayed && HELLO !in s.handlers[1].live
  }

  ghost predicate LeadsToLoss(s: State)
  {
    exists actions :: ValidRun(s, actions) && Loses(Exec(s, actions))
  }

  lemma Back(s: State, a: Action)
    requires Enabled(s, a) && LeadsToLoss(Apply(s, a))
    ensures LeadsToLoss(s)
  {
    var actions :| ValidRun(Apply(s, a), actions) && Loses(Exec(Apply(s, a), actions));
    assert ([a] + actions)[1..] == actions;
    assert ValidRun(s, [a] + actions) && Loses(Exec(s, [a] + actions));
  }

  // The first client has registered, has joined, and has broadcast its message.
  function Registered(): State
  {
    State([Slot(1, true), Slot(NULL, false)], None, map[1 := 0], [], [],
          [Handler(1, BroadcastLock(NULL), JOIN0, 0, In(0, 0), [], [])], false)
  }

  function Joined(): State
  {
    State([Slot(1, true), Slot(NULL, false)], None, map[1 := 0], [Sent(JOIN0, NULL)], [JOIN0],
          [Handler(1, Receiving, JOIN0, 1, In(0, 0), [JOIN0], [JOIN0])], false)
  }

  function Spoken(): State
  {
    State([Slot(1, true), Slot(NULL, false)], None, map[1 := 0], [Sent(JOIN0, NULL), Sent(HELLO, 1)], [JOIN0],
          [Handler(1, Save, HELLO, 2, In(0, 0), [JOIN0], [JOIN0])], false)
  }

  // Before it logs that message the second client registers.
  function Overtaken(): State
  {
    State([Slot(1, true), Slot(2, true)], None, map[1 := 0, 2 := 1], [Sent(JOIN0, NULL), Sent(HELLO, 1)], [JOIN0],
          [Handler(1, Save, HELLO, 2, In(0, 0), [JOIN0], [JOIN0]),
           Handler(2, BroadcastLock(NULL), JOIN1, 0, In(1, 2), [], [])], false)
  }

  // It announces itself and has that logged, still before the first client's message is.
  function Announced(): State
  {
    State([Slot(1, true), Slot(2, true)], None, map[1 := 0, 2 := 1],
          [Sent(JOIN0, NULL), Sent(HELLO, 1), Sent(JOIN1, NULL)], [JOIN0, JOIN1],
          [Handler(1, Save, HELLO, 2, In(0, 0), [JOIN0, JOIN1], [JOIN0]),
           Handler(2, Replay, JOIN1, 1, In(1, 2), [JOIN1], [])], false)
  }

  lemma LastScene()
    ensures LeadsToLoss(Announced())
  {
    var s0 := Announced();
    var s1 := Step(s0, 1);
    var s2 := Step(s1, 0);
    assert s2.handlers[1].replayed == [JOIN0, JOIN1] && s2.handlers[1].live == [JOIN1];
    assert ValidRun(s2, []) && Loses(Exec(s2, []));
    Back(s1, Run(0));
    Back(s0, Run(1));
  }

  lemma FifthScene()
    ensures LeadsToLoss(Overtaken())
  {
    var s0 := Overtaken();
    var s1 := Step(s0, 1);
    var s2 := Step(s1, 1);
    var s3 := Step(s2, 1);
    var s4 := Step(s3, 1);
    var s5 := Step(s4, 1);
    var s6 := Step(s5, 1);
    assert s6.order == Announced().order && s6.log == Announced().log;
    assert s6.handlers[0] == Announced().handlers[0] && s6.handlers[1] == Announced().handlers[1];
    assert s6 == Announced();
    LastScene();
    Back(s5, Run(1));
    Back(s4, Run(1));
    Back(s3, Run(1));
    Back(s2, Run(1));
    Back(s1, Run(1));
    Back(s0, Run(1));
  }

  lemma FourthScene()
    ensures LeadsToLoss(Spoken())
  {
    var s0 := Spoken();
    var s1 := Apply(s0, Accept(2));
    var s2 := Apply(s1, Authenticate(1, true));
    var s3 := Step(s2, 1);
    var s4 := Step(s3, 1);
    var s5 := Step(s4, 1);
    var s6 := Step(s5, 1);
    assert s6.slots == Overtaken().slots && s6.heap == Overtaken().heap;
    assert s6.handlers[0] == Overtaken().handlers[0] && s6.handlers[1] == Overtaken().handlers[1];
    assert s6 == Overtaken();
    FifthScene();
    Back(s5, Run(1));
    Back(s4, Run(1));
    Back(s3, Run(1));
    Back(s2, Run(1));
    Back(s1, Authenticate(1, true));
    Back(s0, Accept(2));
  }

  lemma ThirdScene()
    ensures LeadsToLoss(Joined())
  {
    var s0 := Joined();
    var s1 := Apply(s0, Receive(0, "hello"));
    var s2 := Step(s1, 0);
    var s3 := Step(s2, 0);
    var s4 := Step(s3, 0);
    var s5 := Step(s4, 0);
    var s6 := Step(s5, 0);
    assert s6.order == Spoken().order && s6.handlers[0] == Spoken().handlers[0];
    assert s6 == Spoken();
    FourthScene();
    Back(s5, Run(0));
    Back(s4, Run(0));
    Back(s3, Run(0));
    Back(s2, Run(0));
    Back(s1, Run(0));
    Back(s0, Receive(0, "hello"));
  }

  lemma SecondScene()
    ensures LeadsToLoss(Registered())
  {
    var s0 := Registered();
    var s1 := Step(s0, 0);
    var s2 := Step(s1, 0);
    var s3 := Step(s2, 0);
    var s4 := Step(s3, 0);
    var s5 := Step(s4, 0);
    var s6 := Step(s5, 0);
    var s7 := Step(s6, 0);
    assert s7.order == [Sent(JOIN0, NULL)] && s7.log == [JOIN0];
    assert s7.handlers[0] == Joined().handlers[0];
    assert s7 == Joined();
    ThirdScene();
    Back(s6, Run(0));
    Back(s5, Run(0));
    Back(s4, Run(0));
    Back(s3, Run(0));
    Back(s2, Run(0));
    Back(s1, Run(0));
    Back(s0, Run(0));
  }

  // The loss is real: the bound on missed messages cannot be lowered to none.
  lemma AJoinerCanMissAMessage()
    ensures LeadsToLoss(Init(2))
  {
    var s0 := Init(2);
    var s1 := Apply(s0, Accept(1));
    var s2 := Apply(s1, Authenticate(0, true));
    var s3 := Step(s2, 0);
    var s4 := Step(s3, 0);
    var s5 := Step(s4, 0);
    assert s5.slots == Registered().slots && s5.handlers[0] == Registered().handlers[0];
    assert s5 == Registered();
    SecondScene();
    Back(s4, Run(0));
    Back(s3, Run(0));
    Back(s2, Run(0));
    Back(s1, Authenticate(0, true));
    Back(s0, Accept(1));
  }
}
