// The fine-grained pool behaves like a simpler one: a FIFO of tasks, a set of free printers, and
// a single atomic step in which a worker takes the lowest free printer.
module PrinterRefinement {
  import C = PrinterModel
  import PrinterInvariants

  datatype Worker = Idle | HasTask(task: int) | Ready(task: int, printer: int)
                  | Using(task: int, printer: int) | Used(printer: int) | Stopped

  datatype State = State(waiting: seq<int>, free: set<int>, workers: seq<Worker>, output: seq<C.Event>)

  predicate IsPrinter(p: int, printers: nat) { 0 <= p < printers }

  function AllPrinters(printers: nat): set<int>
  {
    set p | 0 <= p < printers && IsPrinter(p, printers)
  }

  function Init(tasks: nat, printers: nat, workers: nat): State
  {
    State(C.Tasks(tasks), AllPrinters(printers), seq(workers, _ => Idle), [])
  }

  predicate IsLowest(p: int, free: set<int>)
  {
    p in free && forall q :: q in free ==> p <= q
  }

  ghost predicate Next(s: State, t: State, w: nat)
  {
    && w < |s.workers| && |t.workers| == |s.workers|
    && t.workers == s.workers[w := t.workers[w]]
    && (TakeTask(s, t, w) || Stop(s, t, w) || TakeLowestPrinter(s, t, w)
        || PrintAcquired(s, t, w) || PrintReleased(s, t, w) || ReturnPrinter(s, t, w))
  }

  ghost predicate TakeTask(s: State, t: State, w: nat)
    requires w < |s.workers| == |t.workers|
  {
    && s.workers[w].Idle? && s.waiting != [] && t.workers[w] == HasTask(s.waiting[0])
    && t.waiting == s.waiting[1..] && t.free == s.free && t.output == s.output
  }

  ghost predicate Stop(s: State, t: State, w: nat)
    requires w < |s.workers| == |t.workers|
  {
    && s.workers[w].Idle? && s.waiting == [] && t.workers[w].Stopped?
    && t.waiting == s.waiting && t.free == s.free && t.output == s.output
  }

  ghost predicate TakeLowestPrinter(s: State, t: State, w: nat)
    requires w < |s.workers| == |t.workers|
  {
    && s.workers[w].HasTask? && t.workers[w].Ready? && t.workers[w].task == s.workers[w].task
    && IsLowest(t.workers[w].printer, s.free)
    && t.waiting == s.waiting && t.free == s.free - {t.workers[w].printer} && t.output == s.output
  }

  ghost predicate PrintAcquired(s: State, t: State, w: nat)
    requires w < |s.workers| == |t.workers|
  {
    && s.workers[w].Ready? && t.workers[w] == Using(s.workers[w].task, s.workers[w].printer)
    && t.waiting == s.waiting && t.free == s.free
    && t.output == s.output + [C.Acquired(s.workers[w].task, s.workers[w].printer)]
  }

  ghost predicate PrintReleased(s: State, t: State, w: nat)
    requires w < |s.workers| == |t.workers|
  {
    && s.workers[w].Using? && t.workers[w] == Used(s.workers[w].printer)
    && t.waiting == s.waiting && t.free == s.free
    && t.output == s.output + [C.Released(s.workers[w].task, s.workers[w].printer)]
  }

  ghost predicate ReturnPrinter(s: State, t: State, w: nat)
    requires w < |s.workers| == |t.workers|
  {
    && s.workers[w].Used? && t.workers[w].Idle?
    && t.waiting == s.waiting && t.free == s.free + {s.workers[w].printer} && t.output == s.output
  }

  // ---- Abstraction ----

  function AbsWorker(pc: C.Worker): Worker
  {
    match pc
    case LockQueue => Idle
    case Dequeue => Idle
    case UnlockQueue(t) => if t == C.NO_TASK then Stopped else HasTask(t)
    case WaitSem(t) => HasTask(t)
    case LockAcquire(t) => HasTask(t)
    case Scan(t, _) => HasTask(t)
    case Claim(t, _) => HasTask(t)
    case UnlockAcquire(t, p) => Ready(t, p)
    case PrintAcquired(t, p) => Ready(t, p)
    case PrintReleased(t, p) => Using(t, p)
    case LockRelease(_, p) => Used(p)
    case Release(_, p) => Used(p)
    case UnlockRelease => Idle
    case Post => Idle
    case Exited => Stopped
    case Faulted => Stopped
  }

  function FreeSet(status: seq<int>): set<int>
  {
    set p | 0 <= p < |status| && status[p] == C.FREE
  }

  function Abs(s: C.State): State
    requires s.front <= |s.queue|
  {
    State(s.queue[s.front..], FreeSet(s.status),
          seq(|s.workers|, w requires 0 <= w < |s.workers| => AbsWorker(s.workers[w])), s.output)
  }

  lemma InitRefines(tasks: nat, printers: nat, workers: nat)
    ensures Abs(C.Init(tasks, printers, workers)) == Init(tasks, printers, workers)
  {
    var s := C.Init(tasks, printers, workers);
    assert s.queue[0..] == s.queue;
    assert FreeSet(s.status) == AllPrinters(printers);
  }

  // The steps that do something in the abstract system; every other step stutters.
  predicate Visible(pc: C.Worker)
  {
    pc.Dequeue? || pc.Claim? || pc.PrintAcquired? || pc.PrintReleased? || pc.Release?
  }

  lemma AbsMovesOneWorker(s: C.State, w: nat)
    requires C.Enabled(s, w) && s.front <= |s.queue|
    ensures C.Step(s, w).front <= |C.Step(s, w).queue|
    ensures |Abs(C.Step(s, w)).workers| == |s.workers|
    ensures Abs(C.Step(s, w)).workers == Abs(s).workers[w := AbsWorker(C.Step(s, w).workers[w])]
  {
    var t := C.Step(s, w);
    assert t.workers == s.workers[w := t.workers[w]];
  }

  lemma ClaimTakesLowest(s: C.State, w: nat)
    requires C.Enabled(s, w) && s.workers[w].Claim? && C.ScanOk(s.status, s.workers[w])
    ensures IsLowest(s.workers[w].i, FreeSet(s.status))
    ensures FreeSet(C.Step(s, w).status) == FreeSet(s.status) - {s.workers[w].i}
  {
  }

  lemma ReleaseReturns(s: C.State, w: nat)
    requires C.Enabled(s, w) && s.workers[w].Release? && C.OwnerOk(s.status, s.workers[w])
    ensures FreeSet(C.Step(s, w).status) == FreeSet(s.status) + {s.workers[w].printer}
  {
  }

  lemma StutterSimulates(s: C.State, w: nat, tasks: nat, printers: nat)
    requires C.Enabled(s, w) && C.Inv(s, tasks, printers) && !Visible(s.workers[w])
    ensures C.Step(s, w).front <= |C.Step(s, w).queue|
    ensures Abs(C.Step(s, w)) == Abs(s)
  {
    if s.workers[w].Scan? {
      PrinterInvariants.ScanNeverFails(s, w);
    }
    AbsMovesOneWorker(s, w);
    StutterEffect(s, w);
    assert Abs(s).workers[w := AbsWorker(s.workers[w])] == Abs(s).workers;
  }

  lemma StutterEffect(s: C.State, w: nat)
    requires C.Enabled(s, w) && !Visible(s.workers[w])
    requires s.workers[w].Scan? ==> s.workers[w].i < |s.status|
    ensures var t := C.Step(s, w);
      && t.front == s.front && t.status == s.status && t.output == s.output && t.queue == s.queue
      && |t.workers| == |s.workers| && AbsWorker(t.workers[w]) == AbsWorker(s.workers[w])
  {
  }

  lemma DequeueSimulates(s: C.State, w: nat)
    requires C.Enabled(s, w) && s.workers[w].Dequeue? && s.front <= |s.queue|
    requires s.front < |s.queue| ==> s.queue[s.front] != C.NO_TASK
    ensures C.Step(s, w).front <= |C.Step(s, w).queue|
    ensures Next(Abs(s), Abs(C.Step(s, w)), w)
  {
    AbsMovesOneWorker(s, w);
    var a, b := Abs(s), Abs(C.Step(s, w));
    if s.front < |s.queue| {
      assert TakeTask(a, b, w);
    } else {
      assert Stop(a, b, w);
    }
  }

  lemma ClaimSimulates(s: C.State, w: nat)
    requires C.Enabled(s, w) && s.workers[w].Claim? && s.front <= |s.queue| && C.ScanOk(s.status, s.workers[w])
    ensures C.Step(s, w).front <= |C.Step(s, w).queue|
    ensures Next(Abs(s), Abs(C.Step(s, w)), w)
  {
    AbsMovesOneWorker(s, w);
    ClaimTakesLowest(s, w);
    assert TakeLowestPrinter(Abs(s), Abs(C.Step(s, w)), w);
  }

  lemma ReleaseSimulates(s: C.State, w: nat)
    requires C.Enabled(s, w) && s.workers[w].Release? && s.front <= |s.queue| && C.OwnerOk(s.status, s.workers[w])
    ensures C.Step(s, w).front <= |C.Step(s, w).queue|
    ensures Next(Abs(s), Abs(C.Step(s, w)), w)
  {
    AbsMovesOneWorker(s, w);
    ReleaseReturns(s, w);
    assert ReturnPrinter(Abs(s), Abs(C.Step(s, w)), w);
  }

  lemma PrintSimulates(s: C.State, w: nat)
    requires C.Enabled(s, w) && (s.workers[w].PrintAcquired? || s.workers[w].PrintReleased?) && s.front <= |s.queue|
    ensures C.Step(s, w).front <= |C.Step(s, w).queue|
    ensures Next(Abs(s), Abs(C.Step(s, w)), w)
  {
    AbsMovesOneWorker(s, w);
    var a, b := Abs(s), Abs(C.Step(s, w));
    if s.workers[w].PrintAcquired? {
      assert PrintAcquired(a, b, w);
    } else {
      assert PrintReleased(a, b, w);
    }
  }

  lemma VisibleSimulates(s: C.State, w: nat, tasks: nat, printers: nat)
    requires C.Enabled(s, w) && C.Inv(s, tasks, printers) && Visible(s.workers[w])
    ensures C.Step(s, w).front <= |C.Step(s, w).queue|
    ensures Next(Abs(s), Abs(C.Step(s, w)), w)
  {
    assert C.ScanOk(s.status, s.workers[w]) && C.OwnerOk(s.status, s.workers[w]);
    match s.workers[w] {
      case Dequeue => DequeueSimulates(s, w);
      case Claim(_, _) => ClaimSimulates(s, w);
      case Release(_, _) => ReleaseSimulates(s, w);
      case _ => PrintSimulates(s, w);
    }
  }

  lemma StepSimulates(s: C.State, w: nat, tasks: nat, printers: nat)
    requires C.Enabled(s, w) && C.Inv(s, tasks, printers)
    ensures C.Inv(C.Step(s, w), tasks, printers)
    ensures Abs(C.Step(s, w)) == Abs(s) || Next(Abs(s), Abs(C.Step(s, w)), w)
  {
    PrinterInvariants.StepInv(s, w, tasks, printers);
    if Visible(s.workers[w]) {
      VisibleSimulates(s, w, tasks, printers);
    } else {
      StutterSimulates(s, w, tasks, printers);
    }
  }

  // A behaviour of the abstract system: each state follows from the previous one by a step of
  // some worker or is equal to it.
  ghost predicate Behaviour(states: seq<State>, schedule: seq<nat>)
  {
    && |states| == |schedule| + 1
    && forall k :: 0 <= k < |schedule| ==>
         states[k + 1] == states[k] || Next(states[k], states[k + 1], schedule[k])
  }

  // The k-th abstract state is what the pool looks like after k steps of the schedule.
  ghost predicate Tracks(states: seq<State>, s: C.State, schedule: seq<nat>)
  {
    |states| == |schedule| + 1 && forall k :: 0 <= k <= |schedule| ==> SeenAfter(states[k], s, schedule[..k])
  }

  ghost predicate SeenAfter(a: State, s: C.State, schedule: seq<nat>)
  {
    && C.ValidRun(s, schedule) && C.Exec(s, schedule).front <= |C.Exec(s, schedule).queue|
    && a == Abs(C.Exec(s, schedule))
  }

  // Every run of the pool is, seen through the abstraction, a behaviour of the abstract system.
  lemma {:induction false} RunRefines(s: C.State, schedule: seq<nat>, tasks: nat, printers: nat)
    returns (states: seq<State>)
    requires C.ValidRun(s, schedule) && C.Inv(s, tasks, printers)
    ensures C.Inv(C.Exec(s, schedule), tasks, printers)
    ensures Behaviour(states, schedule) && Tracks(states, s, schedule)
    decreases |schedule|
  {
    if schedule == [] {
      states := [Abs(s)];
    } else {
      var w, t := schedule[0], C.Step(s, schedule[0]);
      StepSimulates(s, w, tasks, printers);
      var rest := RunRefines(t, schedule[1..], tasks, printers);
      states := [Abs(s)] + rest;
      assert rest[0] == Abs(t);
      Prepend(Abs(s), rest, schedule);
      PrependTracks(s, rest, schedule);
    }
  }

  lemma Prepend(first: State, rest: seq<State>, schedule: seq<nat>)
    requires schedule != [] && Behaviour(rest, schedule[1..])
    requires rest[0] == first || Next(first, rest[0], schedule[0])
    ensures Behaviour([first] + rest, schedule)
  {
    var states := [first] + rest;
    forall k | 0 <= k < |schedule|
      ensures states[k + 1] == states[k] || Next(states[k], states[k + 1], schedule[k])
    {
      if k > 0 {
        assert schedule[k] == schedule[1..][k - 1];
        assert states[k] == rest[k - 1] && states[k + 1] == rest[k];
      }
    }
  }

  lemma PrependTracks(s: C.State, rest: seq<State>, schedule: seq<nat>)
    requires schedule != [] && C.ValidRun(s, schedule) && s.front <= |s.queue|
    requires Tracks(rest, C.Step(s, schedule[0]), schedule[1..])
    ensures Tracks([Abs(s)] + rest, s, schedule)
  {
    var states := [Abs(s)] + rest;
    forall k | 0 <= k <= |schedule| ensures SeenAfter(states[k], s, schedule[..k]) {
      if k > 0 {
        assert schedule[..k][1..] == schedule[1..][..k - 1];
        assert SeenAfter(rest[k - 1], C.Step(s, schedule[0]), schedule[1..][..k - 1]);
      }
    }
  }

  // There is a behaviour of the abstract system that shows the pool at every moment of the run.
  lemma PoolRefinesAtomicAllocator(tasks: nat, printers: nat, workers: nat, schedule: seq<nat>)
    returns (states: seq<State>)
    requires C.ValidRun(C.Init(tasks, printers, workers), schedule)
    ensures C.Inv(C.Exec(C.Init(tasks, printers, workers), schedule), tasks, printers)
    ensures Behaviour(states, schedule) && states[0] == Init(tasks, printers, workers)
    ensures Tracks(states, C.Init(tasks, printers, workers), schedule)
  {
    PrinterInvariants.InitInv(tasks, printers, workers);
    InitRefines(tasks, printers, workers);
    states := RunRefines(C.Init(tasks, printers, workers), schedule, tasks, printers);
    assert SeenAfter(states[0], C.Init(tasks, printers, workers), schedule[..0]);
  }
}
