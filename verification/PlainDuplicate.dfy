// A run of server.c in which a client receives one message three times, once from the log and
// twice live: its connection was given the socket number of a client that had closed but not yet
// removed its entry.
module PlainDuplicate {
  import opened Counting
  import opened PlainModel

  const CAPACITY: nat := 3

  const JOIN0: Msg := Msg(0, 0, Join)
  const LEAVE0: Msg := Msg(0, 1, Leave)
  const JOIN1: Msg := Msg(1, 0, Join)
  const HELLO: Msg := Msg(1, 1, Chat("hello"))
  const JOIN2: Msg := Msg(2, 0, Join)

  // Session 2, reached through socket 5, has one logged and two live copies of what session 1
  // said, and two of its announcement.
  ghost predicate Triples(s: State)
  {
    && |s.handlers| == 3 && Open(s.handlers[2]) && s.handlers[2].replayed.Some?
    && multiset(s.handlers[2].live)[JOIN1] == 2 && multiset(s.handlers[2].live)[HELLO] == 2
    && multiset(s.handlers[2].replayed.value)[HELLO] == 1
  }

  ghost predicate LeadsToTriple(s: State)
  {
    exists actions :: ValidRun(s, actions, CAPACITY) && Triples(Exec(s, actions, CAPACITY))
  }

  lemma Back(s: State, a: Action)
    requires Enabled(s, a) && LeadsToTriple(Apply(s, a, CAPACITY))
    ensures LeadsToTriple(s)
  {
    var s' := Apply(s, a, CAPACITY);
    var actions :| ValidRun(s', actions, CAPACITY) && Triples(Exec(s', actions, CAPACITY));
    assert ([a] + actions)[1..] == actions;
    assert ValidRun(s, [a] + actions, CAPACITY) && Triples(Exec(s, [a] + actions, CAPACITY));
  }

  // The first client has joined; it has hung up, announced that, and closed its socket.
  function Joined(): State
  {
    State([5], None, map[5 := 0], [], [Handler(5, Receiving, JOIN0, 1, [], Some([]))], false, [JOIN0])
  }

  function Closed(): State
  {
    State([5], None, map[], [], [Handler(5, RemoveLock, LEAVE0, 2, [], Some([]))], false, [JOIN0, LEAVE0])
  }

  // Two clients connect before it takes its entry out; one gets its number.
  function Reissued(): State
  {
    State([5, 6, 5], None, map[6 := 1, 5 := 2], [],
          [Handler(5, RemoveLock, LEAVE0, 2, [], Some([])),
           Handler(6, Replay, JOIN1, 0, [], None),
           Handler(5, Replay, JOIN2, 0, [], None)], true, [JOIN0, LEAVE0])
  }

  // The client with the fresh number announces itself and has reached the first entry.
  function Announcing(): State
  {
    Reissued().(mutex := Some(1),
                handlers := [Handler(5, RemoveLock, LEAVE0, 2, [], Some([])),
                             Handler(6, BroadcastScan(1), JOIN1, 1, [], Some([])),
                             Handler(5, Replay, JOIN2, 0, [JOIN1], None)])
  }

  // It has announced itself.
  function Announced(): State
  {
    Reissued().(handlers := [Handler(5, RemoveLock, LEAVE0, 2, [], Some([])),
                             Handler(6, Receiving, JOIN1, 1, [], Some([])),
                             Handler(5, Replay, JOIN2, 0, [JOIN1, JOIN1], None)],
                completed := [JOIN0, LEAVE0, JOIN1])
  }

  // It has said something and that is logged; then the other one is sent the log.
  function Logged(): State
  {
    Announced().(log := [HELLO],
                 handlers := [Handler(5, RemoveLock, LEAVE0, 2, [], Some([])),
                              Handler(6, BroadcastLock, HELLO, 2, [], Some([])),
                              Handler(5, BroadcastLock, JOIN2, 1, [JOIN1, JOIN1], Some([HELLO]))])
  }

  // It has said it to everyone.
  function Heard(): State
  {
    Logged().(mutex := Some(1),
              handlers := [Handler(5, RemoveLock, LEAVE0, 2, [], Some([])),
                           Handler(6, BroadcastScan(3), HELLO, 2, [], Some([])),
                           Handler(5, BroadcastLock, JOIN2, 1, [JOIN1, JOIN1, HELLO, HELLO], Some([HELLO]))])
  }

  lemma LastScene()
    ensures LeadsToTriple(Heard())
  {
    assert ValidRun(Heard(), [], CAPACITY) && Triples(Exec(Heard(), [], CAPACITY));
  }

  lemma SeventhScene()
    ensures LeadsToTriple(Logged())
  {
    var s0 := Logged();
    var s1 := Step(s0, 1);
    var s2 := Step(s1, 1);
    var s3 := Step(s2, 1);
    var s4 := Step(s3, 1);
    assert s4.handlers[1] == Heard().handlers[1] && s4.handlers[2].live == Heard().handlers[2].live;
    assert s4.handlers == Heard().handlers;
    assert s4 == Heard();
    LastScene();
    Back(s3, Run(1));
    Back(s2, Run(1));
    Back(s1, Run(1));
    Back(s0, Run(1));
  }

  lemma SixthScene()
    ensures LeadsToTriple(Announced())
  {
    var s0 := Announced();
    var s1 := Apply(s0, Receive(1, "hello"), CAPACITY);
    var s2 := Step(s1, 1);
    var s3 := Step(s2, 2);
    assert s3.log == Logged().log && s3.handlers == Logged().handlers;
    assert s3 == Logged();
    SeventhScene();
    Back(s2, Run(2));
    Back(s1, Run(1));
    Back(s0, Receive(1, "hello"));
  }

  lemma FifthScene()
    ensures LeadsToTriple(Announcing())
  {
    var s0 := Announcing();
    var s1 := Step(s0, 1);
    var s2 := Step(s1, 1);
    var s3 := Step(s2, 1);
    var s4 := Step(s3, 1);
    assert s4.handlers[1] == Announced().handlers[1] && s4.handlers[2].live == Announced().handlers[2].live;
    assert s4.handlers == Announced().handlers && s4.completed == Announced().completed;
    assert s4 == Announced();
    SixthScene();
    Back(s3, Run(1));
    Back(s2, Run(1));
    Back(s1, Run(1));
    Back(s0, Run(1));
  }

  lemma FourthScene()
    ensures LeadsToTriple(Reissued())
  {
    var s0 := Reissued();
    var s1 := Step(s0, 1);
    var s2 := Step(s1, 1);
    var s3 := Step(s2, 1);
    assert s3.handlers[1] == Announcing().handlers[1] && s3.handlers[2].live == Announcing().handlers[2].live;
    assert s3.handlers == Announcing().handlers;
    assert s3 == Announcing();
    FifthScene();
    Back(s2, Run(1));
    Back(s1, Run(1));
    Back(s0, Run(1));
  }

  lemma ThirdScene()
    ensures LeadsToTriple(Closed())
  {
    var s0 := Closed();
    var s1 := Apply(s0, Accept(6), CAPACITY);
    var s2 := Apply(s1, Accept(5), CAPACITY);
    assert s2.clients == Reissued().clients && s2.conns == Reissued().conns;
    assert s2.handlers == Reissued().handlers;
    assert s2 == Reissued();
    FourthScene();
    Back(s1, Accept(5));
    Back(s0, Accept(6));
  }

  lemma SecondScene()
    ensures LeadsToTriple(Joined())
  {
    var s0 := Joined();
    var s1 := Apply(s0, Hangup(0), CAPACITY);
    var s2 := Step(s1, 0);
    var s3 := Step(s2, 0);
    var s4 := Step(s3, 0);
    var s5 := Step(s4, 0);
    var s6 := Step(s5, 0);
    assert s6.conns == map[] && s6.handlers[0] == Closed().handlers[0];
    assert s6.completed == Closed().completed;
    assert s6 == Closed();
    ThirdScene();
    Back(s5, Run(0));
    Back(s4, Run(0));
    Back(s3, Run(0));
    Back(s2, Run(0));
    Back(s1, Run(0));
    Back(s0, Hangup(0));
  }

  // The proviso about reissued numbers is needed.
  lemma AReissuedNumberTriplesDelivery()
    ensures LeadsToTriple(Init())
  {
    var s0 := Init();
    var s1 := Apply(s0, Accept(5), CAPACITY);
    var s2 := Step(s1, 0);
    var s3 := Step(s2, 0);
    var s4 := Step(s3, 0);
    var s5 := Step(s4, 0);
    var s6 := Step(s5, 0);
    assert s6.clients == [5] && s6.conns == Joined().conns && s6.handlers[0] == Joined().handlers[0];
    assert s6.completed == Joined().completed;
    assert s6 == Joined();
    SecondScene();
    Back(s5, Run(0));
    Back(s4, Run(0));
    Back(s3, Run(0));
    Back(s2, Run(0));
    Back(s1, Run(0));
    Back(s0, Accept(5));
  }
}
