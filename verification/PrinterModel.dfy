// The worker pool of assignment8/printer.c as an interleaving of atomic steps. A step is one
// lock or unlock, one semaphore operation, one dequeue, one test or write of a printer slot,
// or one printf. The numbers of tasks, printers and workers are parameters.
module PrinterModel {
  import opened Counting
  import opened Locks

  const NO_TASK: int := -1
  const NO_PRINTER: int := -1
  const FREE: int := 1
  const BUSY: int := 0

  datatype Event = Acquired(task: int, printer: int) | Released(task: int, printer: int)

  // Where a worker stands in its loop, with the local variables that are live there.
  datatype Worker =
    | LockQueue
    | Dequeue
    | UnlockQueue(task: int)
    | WaitSem(task: int)
    | LockAcquire(task: int)
    | Scan(task: int, i: nat)
    | Claim(task: int, i: nat)
    | UnlockAcquire(task: int, printer: int)
    | PrintAcquired(task: int, printer: int)
    | PrintReleased(task: int, printer: int)
    | LockRelease(task: int, printer: int)
    | Release(task: int, printer: int)
    | UnlockRelease
    | Post
    | Exited
    | Faulted  // wrote outside printer_status

  // queue is task_queue[0..rear]; output is the sequence of printf calls.
  datatype State = State(
    queue: seq<int>, front: nat, status: seq<int>, sem: nat,
    queueMutex: Option<nat>, printerMutex: Option<nat>,
    workers: seq<Worker>, output: seq<Event>)

  function Tasks(n: nat): (q: seq<int>)
    ensures |q| == n && forall k :: 0 <= k < n ==> q[k] == k + 1
  {
    seq(n, k requires 0 <= k < n => k + 1)
  }

  function Init(tasks: nat, printers: nat, workers: nat): State
  {
    State(Tasks(tasks), 0, seq(printers, _ => FREE), printers, None, None, seq(workers, _ => LockQueue), [])
  }

  predicate Enabled(s: State, w: nat)
  {
    w < |s.workers| &&
    match s.workers[w]
    case LockQueue => s.queueMutex.None?
    case LockAcquire(_) => s.printerMutex.None?
    case LockRelease(_, _) => s.printerMutex.None?
    case WaitSem(_) => s.sem > 0
    case Exited => false
    case Faulted => false
    case _ => true
  }

  function Goto(s: State, w: nat, pc: Worker): State
    requires w < |s.workers|
  {
    s.(workers := s.workers[w := pc])
  }

  function Step(s: State, w: nat): State
    requires Enabled(s, w)
  {
    match s.workers[w]
    case LockQueue => Goto(s.(queueMutex := Some(w)), w, Dequeue)
    case Dequeue =>
      if s.front < |s.queue| then
        Goto(s.(front := s.front + 1), w, UnlockQueue(s.queue[s.front]))
      else
        Goto(s, w, UnlockQueue(NO_TASK))
    case UnlockQueue(t) => Goto(s.(queueMutex := None), w, if t == NO_TASK then Exited else WaitSem(t))
    case WaitSem(t) => Goto(s.(sem := s.sem - 1), w, LockAcquire(t))
    case LockAcquire(t) => Goto(s.(printerMutex := Some(w)), w, Scan(t, 0))
    case Scan(t, i) =>
      if i >= |s.status| then Goto(s, w, UnlockAcquire(t, NO_PRINTER))
      else if s.status[i] == FREE then Goto(s, w, Claim(t, i))
      else Goto(s, w, Scan(t, i + 1))
    case Claim(t, i) =>
      if i < |s.status| then Goto(s.(status := s.status[i := BUSY]), w, UnlockAcquire(t, i))
      else Goto(s, w, Faulted)
    case UnlockAcquire(t, p) => Goto(s.(printerMutex := None), w, PrintAcquired(t, p))
    case PrintAcquired(t, p) => Goto(s.(output := s.output + [Acquired(t, p)]), w, PrintReleased(t, p))
    case PrintReleased(t, p) => Goto(s.(output := s.output + [Released(t, p)]), w, LockRelease(t, p))
    case LockRelease(t, p) => Goto(s.(printerMutex := Some(w)), w, Release(t, p))
    case Release(t, p) =>
      if 0 <= p < |s.status| then Goto(s.(status := s.status[p := FREE]), w, UnlockRelease)
      else Goto(s, w, Faulted)
    case UnlockRelease => Goto(s.(printerMutex := None), w, Post)
    case Post => Goto(s.(sem := s.sem + 1), w, LockQueue)
  }

  // A schedule names the worker that takes each step.
  predicate ValidRun(s: State, schedule: seq<nat>)
    decreases |schedule|
  {
    schedule == [] || (Enabled(s, schedule[0]) && ValidRun(Step(s, schedule[0]), schedule[1..]))
  }

  function Exec(s: State, schedule: seq<nat>): State
    requires ValidRun(s, schedule)
    decreases |schedule|
  {
    if schedule == [] then s else Exec(Step(s, schedule[0]), schedule[1..])
  }

  ghost predicate Stuck(s: State)
  {
    forall w: nat :: !Enabled(s, w)
  }

  // ---- What a worker holds ----

  predicate InQueueSection(pc: Worker)
  {
    pc.Dequeue? || pc.UnlockQueue?
  }

  predicate InPrinterSection(pc: Worker)
  {
    pc.Scan? || pc.Claim? || pc.UnlockAcquire? || pc.Release? || pc.UnlockRelease?
  }

  predicate OwnsAPrinter(pc: Worker)
  {
    pc.UnlockAcquire? || pc.PrintAcquired? || pc.PrintReleased? || pc.LockRelease? || pc.Release?
  }

  predicate Owns(pc: Worker, p: int)
  {
    OwnsAPrinter(pc) && pc.printer == p
  }

  predicate HoldsPermit(pc: Worker)
  {
    pc.LockAcquire? || pc.Scan? || pc.Claim? || OwnsAPrinter(pc) || pc.UnlockRelease? || pc.Post?
  }

  function Permit(pc: Worker): nat { if HoldsPermit(pc) then 1 else 0 }

  function Owning(pc: Worker): nat { if OwnsAPrinter(pc) then 1 else 0 }

  function Busy(status: int): nat { if status == BUSY then 1 else 0 }

  // What a worker has dequeued and not yet reported as released.
  function InFlight(pc: Worker): multiset<int>
  {
    match pc
    case UnlockQueue(t) => if t == NO_TASK then multiset{} else multiset{t}
    case WaitSem(t) => multiset{t}
    case LockAcquire(t) => multiset{t}
    case Scan(t, _) => multiset{t}
    case Claim(t, _) => multiset{t}
    case UnlockAcquire(t, _) => multiset{t}
    case PrintAcquired(t, _) => multiset{t}
    case PrintReleased(t, _) => multiset{t}
    case _ => multiset{}
  }

  function Printed(output: seq<Event>): multiset<int>
  {
    if output == [] then multiset{}
    else
      var e := output[|output| - 1];
      Printed(output[..|output| - 1]) + (if e.Released? then multiset{e.task} else multiset{})
  }

  // What the output says about one printer: every "acquired" line must be followed by the
  // "released" line of the same task before the printer is mentioned again.
  datatype Track = Idle | Printing(task: int) | Broken

  function PrinterTrack(output: seq<Event>, p: int): Track
  {
    if output == [] then Idle
    else
      var e := output[|output| - 1];
      var before := PrinterTrack(output[..|output| - 1], p);
      if e.printer != p then before
      else match e
        case Acquired(t, _) => if before == Idle then Printing(t) else Broken
        case Released(t, _) => if before == Printing(t) then Idle else Broken
  }

  // ---- Invariants ----

  ghost predicate Shape(s: State, tasks: nat, printers: nat)
  {
    && s.queue == Tasks(tasks)
    && s.front <= tasks
    && |s.status| == printers
    && forall p :: 0 <= p < printers ==> s.status[p] == FREE || s.status[p] == BUSY
  }

  ghost predicate MutexInv(s: State)
  {
    && Guards(s.queueMutex, InQueueSection, s.workers)
    && Guards(s.printerMutex, InPrinterSection, s.workers)
  }

  ghost predicate AllBusyBelow(status: seq<int>, i: nat)
  {
    i <= |status| && forall p :: 0 <= p < i ==> status[p] == BUSY
  }

  ghost predicate ScanOk(status: seq<int>, pc: Worker)
  {
    && (pc.Scan? ==> AllBusyBelow(status, pc.i))
    && (pc.Claim? ==> AllBusyBelow(status, pc.i) && pc.i < |status| && status[pc.i] == FREE)
  }

  ghost predicate ScanInv(s: State)
  {
    forall w :: 0 <= w < |s.workers| ==> ScanOk(s.status, s.workers[w])
  }

  ghost predicate OwnerOk(status: seq<int>, pc: Worker)
  {
    OwnsAPrinter(pc) ==> 0 <= pc.printer < |status| && status[pc.printer] == BUSY
  }

  ghost predicate Apart(pc: Worker, other: Worker)
  {
    OwnsAPrinter(pc) && OwnsAPrinter(other) ==> pc.printer != other.printer
  }

  // Every owner has a real printer that is marked busy, and no printer has two owners.
  ghost predicate OwnerInv(s: State)
  {
    && (forall w :: 0 <= w < |s.workers| ==> OwnerOk(s.status, s.workers[w]))
    && (forall v, w :: 0 <= v < w < |s.workers| ==> Apart(s.workers[v], s.workers[w]))
  }

  ghost predicate BusyHasOwner(s: State)
  {
    forall p :: 0 <= p < |s.status| && s.status[p] == BUSY ==>
      exists w :: 0 <= w < |s.workers| && Owns(s.workers[w], p)
  }

  ghost predicate CountInv(s: State)
  {
    && s.sem + Sum(Permit, s.workers) == |s.status|
    && Sum(Owning, s.workers) == Sum(Busy, s.status)
  }

  ghost predicate TaskInv(s: State)
  {
    && s.front <= |s.queue|
    && multiset(s.queue[s.front..]) + Bag(InFlight, s.workers) + Printed(s.output) == multiset(s.queue)
  }

  ghost predicate OutputOk(output: seq<Event>, pc: Worker)
  {
    OwnsAPrinter(pc) ==>
      PrinterTrack(output, pc.printer) == if pc.PrintReleased? then Printing(pc.task) else Idle
  }

  ghost predicate OutputInv(s: State)
  {
    && (forall p :: 0 <= p < |s.status| && s.status[p] == FREE ==> PrinterTrack(s.output, p) == Idle)
    && (forall w :: 0 <= w < |s.workers| ==> OutputOk(s.output, s.workers[w]))
  }

  ghost predicate NoFault(s: State)
  {
    forall w :: 0 <= w < |s.workers| ==> !s.workers[w].Faulted?
  }

  ghost predicate Inv(s: State, tasks: nat, printers: nat)
  {
    && Shape(s, tasks, printers)
    && MutexInv(s)
    && ScanInv(s)
    && OwnerInv(s)
    && BusyHasOwner(s)
    && CountInv(s)
    && TaskInv(s)
    && OutputInv(s)
    && NoFault(s)
  }
}
