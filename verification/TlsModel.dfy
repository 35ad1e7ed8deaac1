// The server of assignment9/chat_app/server_tls_final.c as an interleaving of atomic steps: one
// lock or unlock, one look at a slot of the client table, one access to the chat log, one
// allocation or release of an SSL object. Sessions come and go without bound.
module TlsModel {
  import opened Counting

  datatype Body = Join | Chat(text: string) | Leave

  // A message as broadcast by one handler: its seqNo-th.
  datatype Msg = Msg(author: nat, seqNo: nat, body: Body)

  // SSL objects are addresses, and an address may be reused once it has been freed.
  const NULL: nat := 0

  datatype Slot = Slot(ssl: nat, active: bool)

  // A broadcast together with its sender argument.
  datatype Sent = Sent(msg: Msg, sender: nat)

  datatype Pc =
    | Authenticating
    | AddLock | AddScan(i: nat) | AddUnlock
    | BroadcastLock(sender: nat) | BroadcastScan(sender: nat, i: nat) | BroadcastUnlock
    | Save | Replay | Receiving
    | RemoveLock | RemoveScan(i: nat) | RemoveUnlock
    | Freeing | Done

  // The part of the broadcast order that a session is registered for.
  datatype Member = Outside | In(slot: nat, start: nat) | Left(start: nat, stop: nat)

  // One handle_client thread. sent counts its broadcasts; live and replayed are what was written
  // to its client by broadcast and by send_chat_log.
  datatype Handler = Handler(ssl: nat, pc: Pc, msg: Msg, sent: nat, member: Member,
                             live: seq<Msg>, replayed: seq<Msg>)

  // heap maps the allocated SSL objects to their handlers; order lists all broadcasts; fault
  // records a write to an SSL object that is not allocated.
  datatype State = State(slots: seq<Slot>, mutex: Option<nat>, heap: map<nat, nat>,
                         order: seq<Sent>, log: seq<Msg>, handlers: seq<Handler>, fault: bool)

  datatype Action = Accept(ssl: nat) | Authenticate(h: nat, ok: bool)
                  | Receive(h: nat, text: string) | Hangup(h: nat) | Run(h: nat)

  // log starts empty: it stands for what this run of the server appends to chatlog.txt.
  function Init(capacity: nat): State
  {
    State(seq(capacity, _ => Slot(NULL, false)), None, map[], [], [], [], false)
  }

  predicate Enabled(s: State, a: Action)
  {
    match a
    case Accept(ssl) => ssl != NULL && ssl !in s.heap
    case Authenticate(h, _) => h < |s.handlers| && s.handlers[h].pc.Authenticating?
    case Receive(h, _) => h < |s.handlers| && s.handlers[h].pc.Receiving?
    case Hangup(h) => h < |s.handlers| && s.handlers[h].pc.Receiving?
    case Run(h) => h < |s.handlers| && CanRun(s, s.handlers[h].pc)
  }

  predicate CanRun(s: State, pc: Pc)
  {
    match pc
    case Authenticating => false
    case AddLock => s.mutex.None?
    case BroadcastLock(_) => s.mutex.None?
    case RemoveLock => s.mutex.None?
    case Receiving => false
    case Done => false
    case _ => true
  }

  function Put(s: State, h: nat, t: Handler): State
    requires h < |s.handlers|
  {
    s.(handlers := s.handlers[h := t])
  }

  function Goto(s: State, h: nat, pc: Pc): State
    requires h < |s.handlers|
  {
    Put(s, h, s.handlers[h].(pc := pc))
  }

  // SSL_write of a broadcast message through the pointer found in a slot.
  function Write(s: State, ssl: nat, msg: Msg): State
  {
    if ssl in s.heap && s.heap[ssl] < |s.handlers| then
      var g := s.heap[ssl];
      Put(s, g, s.handlers[g].(live := s.handlers[g].live + [msg]))
    else
      s.(fault := true)
  }

  function Free(s: State, h: nat): State
    requires h < |s.handlers|
  {
    Goto(s.(heap := s.heap - {s.handlers[h].ssl}), h, Done)
  }

  function Apply(s: State, a: Action): State
    requires Enabled(s, a)
  {
    match a
    case Accept(ssl) =>
      s.(heap := s.heap[ssl := |s.handlers|],
         handlers := s.handlers + [Handler(ssl, Authenticating, Msg(|s.handlers|, 0, Join), 0, Outside, [], [])])
    case Authenticate(h, ok) => if ok then Goto(s, h, AddLock) else Free(s, h)
    case Receive(h, text) =>
      Put(s, h, s.handlers[h].(pc := BroadcastLock(s.handlers[h].ssl), msg := Msg(h, s.handlers[h].sent, Chat(text))))
    case Hangup(h) =>
      Put(s, h, s.handlers[h].(pc := BroadcastLock(NULL), msg := Msg(h, s.handlers[h].sent, Leave)))
    case Run(h) => Step(s, h)
  }

  function Step(s: State, h: nat): State
    requires h < |s.handlers| && CanRun(s, s.handlers[h].pc)
  {
    var t := s.handlers[h];
    match t.pc
    case AddLock => Goto(s.(mutex := Some(h)), h, AddScan(0))
    case AddScan(i) =>
      if i >= |s.slots| then Goto(s, h, AddUnlock)
      else if s.slots[i].active then Goto(s, h, AddScan(i + 1))
      else Put(s.(slots := s.slots[i := Slot(t.ssl, true)]), h, t.(pc := AddUnlock, member := In(i, |s.order|)))
    case AddUnlock => Put(s.(mutex := None), h, t.(pc := BroadcastLock(NULL), msg := Msg(h, t.sent, Join)))
    case BroadcastLock(sender) =>
      Put(s.(mutex := Some(h), order := s.order + [Sent(t.msg, sender)]), h,
          t.(pc := BroadcastScan(sender, 0), sent := t.sent + 1))
    case BroadcastScan(sender, i) =>
      if i >= |s.slots| then Goto(s, h, BroadcastUnlock)
      else
        var s' := Goto(s, h, BroadcastScan(sender, i + 1));
        if s.slots[i].active && s.slots[i].ssl != sender then Write(s', s.slots[i].ssl, t.msg) else s'
    case BroadcastUnlock => Goto(s.(mutex := None), h, Save)
    case Save =>
      Goto(s.(log := s.log + [t.msg]), h,
           match t.msg.body case Join => Replay case Chat(_) => Receiving case Leave => RemoveLock)
    case Replay => Put(s, h, t.(pc := Receiving, replayed := s.log))
    case RemoveLock => Goto(s.(mutex := Some(h)), h, RemoveScan(0))
    case RemoveScan(i) =>
      if i >= |s.slots| then Goto(s, h, RemoveUnlock)
      else if s.slots[i].active && s.slots[i].ssl == t.ssl then
        Put(s.(slots := s.slots[i := Slot(NULL, false)]), h,
            t.(pc := RemoveUnlock, member := if t.member.In? then Left(t.member.start, |s.order|) else t.member))
      else Goto(s, h, RemoveScan(i + 1))
    case RemoveUnlock => Goto(s.(mutex := None), h, Freeing)
    case Freeing => Free(s, h)
  }

  predicate ValidRun(s: State, actions: seq<Action>)
    decreases |actions|
  {
    actions == [] || (Enabled(s, actions[0]) && ValidRun(Apply(s, actions[0]), actions[1..]))
  }

  function Exec(s: State, actions: seq<Action>): State
    requires ValidRun(s, actions)
    decreases |actions|
  {
    if actions == [] then s else Exec(Apply(s, actions[0]), actions[1..])
  }

  // ---- Vocabulary of the properties ----

  predicate InSection(t: Handler)
  {
    t.pc.AddScan? || t.pc.AddUnlock? || t.pc.BroadcastScan? || t.pc.BroadcastUnlock?
    || t.pc.RemoveScan? || t.pc.RemoveUnlock?
  }

  // Between starting a broadcast and logging it.
  predicate Pending(t: Handler)
  {
    t.pc.BroadcastScan? || t.pc.BroadcastUnlock? || t.pc.Save?
  }

  // The broadcasts of a stretch of the order that a session should see: all but its own.
  function Audible(order: seq<Sent>, ssl: nat): seq<Msg>
  {
    if order == [] then []
    else
      var last := order[|order| - 1];
      Audible(order[..|order| - 1], ssl) + (if last.sender != ssl then [last.msg] else [])
  }

  // The messages of one author, in order.
  function By(msgs: seq<Msg>, author: nat): seq<Msg>
  {
    if msgs == [] then []
    else
      var last := msgs[|msgs| - 1];
      By(msgs[..|msgs| - 1], author) + (if last.author == author then [last] else [])
  }

  function Messages(order: seq<Sent>): (msgs: seq<Msg>)
    ensures |msgs| == |order|
    ensures forall k :: 0 <= k < |order| ==> msgs[k] == order[k].msg
  {
    seq(|order|, k requires 0 <= k < |order| => order[k].msg)
  }
}
