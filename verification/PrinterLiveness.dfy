// Deadlock freedom, termination and the outcome of complete runs of the printer pool.
module PrinterLiveness {
  import opened Counting
  import opened PrinterModel
  import opened PrinterInvariants

  // An upper bound on the steps a worker takes before it needs another task from the queue.
  function Rank(printers: nat, pc: Worker): nat
  {
    match pc
    case LockQueue => 3
    case Dequeue => 2
    case UnlockQueue(t) => if t == NO_TASK then 1 else 15 + printers
    case WaitSem(_) => 14 + printers
    case LockAcquire(_) => 13 + printers
    case Scan(_, i) => 12 + (if i <= printers then printers - i else 0)
    case Claim(_, _) => 11
    case UnlockAcquire(_, _) => 10
    case PrintAcquired(_, _) => 9
    case PrintReleased(_, _) => 8
    case LockRelease(_, _) => 7
    case Release(_, _) => 6
    case UnlockRelease => 5
    case Post => 4
    case Exited => 0
    case Faulted => 0
  }

  function Ranker(printers: nat): Worker -> nat
  {
    pc => Rank(printers, pc)
  }

  // Steps that fetching and serving one more task can cost.
  function TaskCost(printers: nat): nat { 14 + printers }

  ghost function Measure(s: State): nat
    requires s.front <= |s.queue|
  {
    TaskCost(|s.status|) * (|s.queue| - s.front) + Sum(Ranker(|s.status|), s.workers)
  }

  lemma RankDrops(s: State, w: nat)
    requires Enabled(s, w) && s.front <= |s.queue|
    ensures |Step(s, w).status| == |s.status| && Step(s, w).queue == s.queue
    ensures s.front <= Step(s, w).front <= |s.queue|
    ensures Rank(|s.status|, Step(s, w).workers[w])
         < Rank(|s.status|, s.workers[w]) + TaskCost(|s.status|) * (Step(s, w).front - s.front)
  {
    var t, cost := Step(s, w), TaskCost(|s.status|);
    assert t.front == s.front || t.front == s.front + 1;
    assert cost * (t.front - s.front) == if t.front == s.front then 0 else cost;
  }

  lemma MeasureDrops(s: State, w: nat)
    requires Enabled(s, w) && s.front <= |s.queue|
    ensures Step(s, w).front <= |Step(s, w).queue|
    ensures Measure(Step(s, w)) < Measure(s)
  {
    var t, rank := Step(s, w), Ranker(|s.status|);
    RankDrops(s, w);
    assert t.workers == s.workers[w := t.workers[w]];
    SumUpdate(rank, s.workers, w, t.workers[w]);
    var cost := TaskCost(|s.status|);
    assert cost * (|s.queue| - t.front) + cost * (t.front - s.front) == cost * (|s.queue| - s.front);
  }

  // No schedule is longer than the measure of the state it starts in.
  lemma {:induction false} RunIsBounded(s: State, schedule: seq<nat>)
    requires ValidRun(s, schedule) && s.front <= |s.queue|
    ensures |schedule| <= Measure(s)
    decreases |schedule|
  {
    if schedule != [] {
      MeasureDrops(s, schedule[0]);
      RunIsBounded(Step(s, schedule[0]), schedule[1..]);
    }
  }

  lemma EveryRunTerminates(tasks: nat, printers: nat, workers: nat, schedule: seq<nat>)
    requires ValidRun(Init(tasks, printers, workers), schedule)
    ensures |schedule| <= (14 + printers) * tasks + 3 * workers
  {
    var s := Init(tasks, printers, workers);
    RunIsBounded(s, schedule);
    SumConstant(Ranker(printers), s.workers, 3);
  }

  // ---- Deadlock freedom ----

  // With at least one printer, a worker that is waiting for a permit waits for another worker,
  // and that one can run.
  lemma PermitHolderRuns(s: State) returns (w: nat)
    requires NoFault(s) && CountInv(s) && s.sem == 0 && |s.status| > 0
    requires s.queueMutex.None? && s.printerMutex.None?
    ensures Enabled(s, w)
  {
    w := SumPositive(Permit, s.workers);
    assert HoldsPermit(s.workers[w]);
  }

  // With nothing enqueued nobody ever has a task in hand.
  lemma NothingInFlight(s: State, w: nat)
    requires TaskInv(s) && s.queue == [] && w < |s.workers|
    ensures InFlight(s.workers[w]) == multiset{}
  {
    BagContains(InFlight, s.workers, w);
  }

  // Whoever holds a mutex can run, because nothing inside the two sections blocks.
  lemma MutexHolderRuns(s: State) returns (w: nat)
    requires MutexInv(s) && (s.queueMutex.Some? || s.printerMutex.Some?)
    ensures Enabled(s, w)
  {
    if s.printerMutex.Some? {
      w := s.printerMutex.value;
      assert InPrinterSection(s.workers[w]);
    } else {
      w := s.queueMutex.value;
      assert InQueueSection(s.workers[w]);
    }
  }

  lemma SomeWorkerRuns(s: State, tasks: nat, printers: nat, idle: nat) returns (w: nat)
    requires Shape(s, tasks, printers) && MutexInv(s) && CountInv(s) && TaskInv(s) && NoFault(s)
    requires printers > 0 || tasks == 0
    requires idle < |s.workers| && !s.workers[idle].Exited?
    ensures Enabled(s, w)
  {
    if s.queueMutex.Some? || s.printerMutex.Some? {
      w := MutexHolderRuns(s);
    } else if s.workers[idle].WaitSem? && s.sem == 0 {
      if printers > 0 {
        w := PermitHolderRuns(s);
      } else {
        NothingInFlight(s, idle);
        assert false;
      }
    } else {
      w := idle;
      assert !s.workers[idle].Faulted?;
    }
  }

  lemma NoDeadlock(tasks: nat, printers: nat, workers: nat, schedule: seq<nat>)
    requires ValidRun(Init(tasks, printers, workers), schedule) && (printers > 0 || tasks == 0)
    ensures Stuck(Exec(Init(tasks, printers, workers), schedule))
            <==> AllExited(Exec(Init(tasks, printers, workers), schedule))
  {
    InitInv(tasks, printers, workers);
    RunInv(Init(tasks, printers, workers), schedule, tasks, printers);
    var s := Exec(Init(tasks, printers, workers), schedule);
    if v :| 0 <= v < |s.workers| && !s.workers[v].Exited? {
      var w := SomeWorkerRuns(s, tasks, printers, v);
    }
  }

  // ---- Outcome ----

  // A worker leaves its loop only after dequeue found the queue empty.
  predicate SawEmptyQueue(pc: Worker)
  {
    pc.Exited? || (pc.UnlockQueue? && pc.task == NO_TASK)
  }

  ghost predicate DrainedInv(s: State)
  {
    && (forall k :: 0 <= k < |s.queue| ==> s.queue[k] != NO_TASK)
    && (forall w :: 0 <= w < |s.workers| && SawEmptyQueue(s.workers[w]) ==> s.front >= |s.queue|)
  }

  lemma StepDrained(s: State, w: nat)
    requires Enabled(s, w) && DrainedInv(s)
    ensures DrainedInv(Step(s, w))
  {
    var t := Step(s, w);
    assert t.workers == s.workers[w := t.workers[w]] && t.queue == s.queue && t.front >= s.front;
    assert SawEmptyQueue(t.workers[w]) ==> SawEmptyQueue(s.workers[w]) || s.front >= |s.queue|;
  }

  // Without printers nobody gets past sem_wait, so nothing is ever printed.
  lemma StepSilent(s: State, w: nat)
    requires Enabled(s, w) && CountInv(s) && s.status == [] && s.output == []
    ensures Step(s, w).output == []
  {
    SumAtLeast(Permit, s.workers, w);
  }

  lemma {:induction false} RunDrained(s: State, schedule: seq<nat>, tasks: nat, printers: nat)
    requires ValidRun(s, schedule) && Inv(s, tasks, printers) && DrainedInv(s)
    requires printers == 0 ==> s.output == []
    ensures var t := Exec(s, schedule); Inv(t, tasks, printers) && DrainedInv(t) && (printers == 0 ==> t.output == [])
    decreases |schedule|
  {
    if schedule != [] {
      StepInv(s, schedule[0], tasks, printers);
      StepDrained(s, schedule[0]);
      if printers == 0 {
        StepSilent(s, schedule[0]);
      }
      RunDrained(Step(s, schedule[0]), schedule[1..], tasks, printers);
    }
  }

  ghost predicate AllExited(s: State)
  {
    forall w :: 0 <= w < |s.workers| ==> s.workers[w].Exited?
  }

  // The state main expects after joining its workers: every task printed, nothing held.
  ghost predicate Completed(s: State, tasks: nat, printers: nat)
  {
    && AllExited(s)
    && Printed(s.output) == multiset(Tasks(tasks))
    && s.sem == printers
    && (forall p :: 0 <= p < |s.status| ==> s.status[p] == FREE)
    && s.queueMutex.None? && s.printerMutex.None?
  }

  lemma AllReturned(s: State, tasks: nat, printers: nat)
    requires Inv(s, tasks, printers) && AllExited(s)
    ensures s.sem == printers && s.queueMutex.None? && s.printerMutex.None?
    ensures forall p :: 0 <= p < |s.status| ==> s.status[p] == FREE
  {
    SumConstant(Permit, s.workers, 0);
    SumConstant(Owning, s.workers, 0);
    forall p | 0 <= p < |s.status| ensures s.status[p] == FREE {
      SumAtLeast(Busy, s.status, p);
    }
  }

  lemma AllPrinted(s: State, tasks: nat, printers: nat)
    requires Inv(s, tasks, printers) && AllExited(s) && DrainedInv(s)
    requires tasks == 0 || |s.workers| > 0
    ensures Printed(s.output) == multiset(Tasks(tasks))
  {
    BagEmpty(InFlight, s.workers);
    if |s.workers| > 0 {
      assert SawEmptyQueue(s.workers[0]);
    }
    assert s.queue[s.front..] == [];
  }

  // A run that cannot be continued has done everything exactly when there was nothing to do or
  // somebody and something to do it with.
  lemma CompleteRunOutcome(tasks: nat, printers: nat, workers: nat, schedule: seq<nat>)
    requires ValidRun(Init(tasks, printers, workers), schedule)
    requires Stuck(Exec(Init(tasks, printers, workers), schedule))
    ensures Completed(Exec(Init(tasks, printers, workers), schedule), tasks, printers)
            <==> tasks == 0 || (printers > 0 && workers > 0)
  {
    var init := Init(tasks, printers, workers);
    var s := Exec(init, schedule);
    InitInv(tasks, printers, workers);
    RunDrained(init, schedule, tasks, printers);
    RunKeepsWorkers(init, schedule);
    if tasks == 0 || (printers > 0 && workers > 0) {
      StuckIsCompleted(s, tasks, printers);
    } else {
      if printers > 0 {
        RunWithoutWorkers(init, schedule);
      }
      NothingPrinted(s, tasks, printers);
    }
  }

  lemma StuckIsCompleted(s: State, tasks: nat, printers: nat)
    requires Inv(s, tasks, printers) && DrainedInv(s) && Stuck(s)
    requires tasks == 0 || (printers > 0 && |s.workers| > 0)
    ensures Completed(s, tasks, printers)
  {
    if v :| 0 <= v < |s.workers| && !s.workers[v].Exited? {
      var w := SomeWorkerRuns(s, tasks, printers, v);
      assert false;
    }
    AllReturned(s, tasks, printers);
    AllPrinted(s, tasks, printers);
  }

  lemma NothingPrinted(s: State, tasks: nat, printers: nat)
    requires s.output == [] && tasks > 0
    ensures !Completed(s, tasks, printers)
  {
    assert Tasks(tasks)[0] in multiset(Tasks(tasks));
  }

  lemma {:induction false} RunKeepsWorkers(s: State, schedule: seq<nat>)
    requires ValidRun(s, schedule)
    ensures |Exec(s, schedule).workers| == |s.workers|
    decreases |schedule|
  {
    if schedule != [] {
      RunKeepsWorkers(Step(s, schedule[0]), schedule[1..]);
    }
  }

  lemma RunWithoutWorkers(s: State, schedule: seq<nat>)
    requires ValidRun(s, schedule) && s.workers == []
    ensures Exec(s, schedule) == s
  {
  }
}
