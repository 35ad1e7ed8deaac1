// The server of assignment9/chat_app/server.c as an interleaving of atomic steps. Unlike the TLS
// server it registers a session before the thread replays the log, it logs before it
// broadcasts, it knows clients by socket number, and it closes a socket, whose number the system
// may then reissue, before it removes the entry.
module PlainModel {
  import opened Counting

  datatype Body = Join | Chat(text: string) | Leave

  // The seqNo-th message a handler composes.
  datatype Msg = Msg(author: nat, seqNo: nat, body: Body)

  datatype Pc =
    | Replay
    | Save
    | BroadcastLock | BroadcastScan(i: nat) | BroadcastUnlock
    | Receiving
    | Closing
    | RemoveLock | RemoveScan(i: nat) | RemoveUnlock
    | Done

  // composed counts the messages of this handler; live is what reached its client from
  // broadcasts, replayed what it was sent from the log.
  datatype Handler = Handler(sock: nat, pc: Pc, msg: Msg, composed: nat, live: seq<Msg>, replayed: Option<seq<Msg>>)

  // clients is clients[0..client_count]; conns maps each open socket to the handler that serves
  // it; reissued records that a connection got a number that was still in the table; completed
  // lists the messages whose broadcast has ended.
  datatype State = State(clients: seq<nat>, mutex: Option<nat>, conns: map<nat, nat>,
                         log: seq<Msg>, handlers: seq<Handler>, reissued: bool, completed: seq<Msg>)

  datatype Action = Accept(sock: nat) | Receive(h: nat, text: string) | Hangup(h: nat) | Run(h: nat)

  function Init(): State
  {
    State([], None, map[], [], [], false, [])
  }

  predicate Enabled(s: State, a: Action)
  {
    match a
    case Accept(sock) => sock !in s.conns && s.mutex.None?
    case Receive(h, _) => h < |s.handlers| && s.handlers[h].pc.Receiving?
    case Hangup(h) => h < |s.handlers| && s.handlers[h].pc.Receiving?
    case Run(h) =>
      && h < |s.handlers| && !s.handlers[h].pc.Receiving? && !s.handlers[h].pc.Done?
      && (s.handlers[h].pc.BroadcastLock? || s.handlers[h].pc.RemoveLock? ==> s.mutex.None?)
  }

  function Put(s: State, h: nat, t: Handler): State
    requires h < |s.handlers|
  {
    s.(handlers := s.handlers[h := t])
  }

  function Goto(s: State, h: nat, pc: Pc): State
    requires h < |s.handlers|
  {
    Put(s, h, s.handlers[h].(pc := pc))
  }

  function Compose(t: Handler, h: nat, body: Body, pc: Pc): Handler
  {
    t.(pc := pc, msg := Msg(h, t.composed, body), composed := t.composed + 1)
  }

  // send on a socket number: it reaches whoever has that socket open now, or nobody.
  function Send(s: State, sock: nat, msg: Msg): State
  {
    if sock in s.conns && s.conns[sock] < |s.handlers| then
      var g := s.conns[sock];
      Put(s, g, s.handlers[g].(live := s.handlers[g].live + [msg]))
    else s
  }

  // clients[i] = clients[--client_count]
  function SwapRemove<T>(table: seq<T>, i: nat): seq<T>
    requires i < |table|
  {
    table[i := table[|table| - 1]][..|table| - 1]
  }

  function Apply(s: State, a: Action, capacity: nat): State
    requires Enabled(s, a)
  {
    match a
    case Accept(sock) =>
      if |s.clients| < capacity then
        s.(clients := s.clients + [sock], conns := s.conns[sock := |s.handlers|],
           handlers := s.handlers + [Handler(sock, Replay, Msg(|s.handlers|, 0, Join), 0, [], None)],
           reissued := s.reissued || sock in s.clients)
      else s
    case Receive(h, text) => Put(s, h, Compose(s.handlers[h], h, Chat(text), Save))
    case Hangup(h) => Put(s, h, Compose(s.handlers[h], h, Leave, BroadcastLock))
    case Run(h) => Step(s, h)
  }

  function Step(s: State, h: nat): State
    requires Enabled(s, Run(h))
  {
    var t := s.handlers[h];
    match t.pc
    case Replay => Put(s, h, Compose(t, h, Join, BroadcastLock).(replayed := Some(s.log)))
    case Save => Goto(s.(log := s.log + [t.msg]), h, BroadcastLock)
    case BroadcastLock => Goto(s.(mutex := Some(h)), h, BroadcastScan(0))
    case BroadcastScan(i) =>
      if i >= |s.clients| then Goto(s, h, BroadcastUnlock)
      else
        var s' := Goto(s, h, BroadcastScan(i + 1));
        if s.clients[i] != t.sock then Send(s', s.clients[i], t.msg) else s'
    case BroadcastUnlock =>
      Goto(s.(mutex := None, completed := s.completed + [t.msg]), h, if t.msg.body.Leave? then Closing else Receiving)
    case Closing => Goto(s.(conns := s.conns - {t.sock}), h, RemoveLock)
    case RemoveLock => Goto(s.(mutex := Some(h)), h, RemoveScan(0))
    case RemoveScan(i) =>
      if i >= |s.clients| then Goto(s, h, RemoveUnlock)
      else if s.clients[i] == t.sock then Goto(s.(clients := SwapRemove(s.clients, i)), h, RemoveUnlock)
      else Goto(s, h, RemoveScan(i + 1))
    case RemoveUnlock => Goto(s.(mutex := None), h, Done)
  }

  predicate ValidRun(s: State, actions: seq<Action>, capacity: nat)
    decreases |actions|
  {
    actions == [] || (Enabled(s, actions[0]) && ValidRun(Apply(s, actions[0], capacity), actions[1..], capacity))
  }

  function Exec(s: State, actions: seq<Action>, capacity: nat): State
    requires ValidRun(s, actions, capacity)
    decreases |actions|
  {
    if actions == [] then s else Exec(Apply(s, actions[0], capacity), actions[1..], capacity)
  }

  // ---- Vocabulary of the properties ----

  predicate InSection(t: Handler)
  {
    t.pc.BroadcastScan? || t.pc.BroadcastUnlock? || t.pc.RemoveScan? || t.pc.RemoveUnlock?
  }

  // The handler has not closed its socket.
  predicate Open(t: Handler)
  {
    !t.pc.RemoveLock? && !t.pc.RemoveScan? && !t.pc.RemoveUnlock? && !t.pc.Done?
  }

  // The handler has not removed its entry.
  function Entry(t: Handler): multiset<nat>
  {
    if t.pc.RemoveUnlock? || t.pc.Done? then multiset{} else multiset{t.sock}
  }

  // The handler has composed its current message and not finished broadcasting it.
  predicate Busy(t: Handler)
  {
    t.pc.Save? || t.pc.BroadcastLock? || t.pc.BroadcastScan?
  }
}
