// The globals of assignment8/printer.c with the functions that update them in place, and main.
module PrinterPool {
  import opened Counting
  import opened PrinterModel
  import PrinterLiveness
  import PrinterSafety

  // What get_available_printer looks for in printer_status.
  function LowestFree(status: seq<int>): (p: int)
    ensures p == NO_PRINTER ==> forall q :: 0 <= q < |status| ==> status[q] != FREE
    ensures p != NO_PRINTER ==>
      0 <= p < |status| && status[p] == FREE && forall q :: 0 <= q < p ==> status[q] != FREE
  {
    LowestFreeFrom(status, 0)
  }

  function LowestFreeFrom(status: seq<int>, i: nat): (p: int)
    requires i <= |status|
    ensures p == NO_PRINTER ==> forall q :: i <= q < |status| ==> status[q] != FREE
    ensures p != NO_PRINTER ==>
      i <= p < |status| && status[p] == FREE && forall q :: i <= q < p ==> status[q] != FREE
    decreases |status| - i
  {
    if i == |status| then NO_PRINTER
    else if status[i] == FREE then i
    else LowestFreeFrom(status, i + 1)
  }

  class Pool {
    const taskQueue: array<int>
    const printerStatus: array<int>
    const workers: array<Worker>
    var front: nat
    var rear: nat
    var sem: nat
    var queueMutex: Option<nat>
    var printerMutex: Option<nat>
    var output: seq<Event>

    ghost predicate Valid()
      reads this
    {
      front <= rear <= taskQueue.Length && taskQueue != printerStatus
    }

    ghost function View(): State
      reads this, taskQueue, printerStatus, workers
      requires Valid()
    {
      State(taskQueue[..rear], front, printerStatus[..], sem, queueMutex, printerMutex, workers[..], output)
    }

    constructor (queueSize: nat, printers: nat, threads: nat)
      ensures Valid() && fresh(taskQueue) && fresh(printerStatus) && fresh(workers)
      ensures View() == Init(0, printers, threads)
      ensures taskQueue.Length == queueSize
    {
      taskQueue := new int[queueSize];
      printerStatus := new int[printers](_ => FREE);
      workers := new Worker[threads](_ => LockQueue);
      front, rear := 0, 0;
      sem := printers;
      queueMutex, printerMutex := None, None;
      output := [];
    }

    // C writes past task_queue when it is full, so callers must leave room.
    method Enqueue(task: int)
      requires Valid() && rear < taskQueue.Length
      modifies this`rear, taskQueue
      ensures Valid()
      ensures View() == old(View()).(queue := old(View()).queue + [task])
    {
      taskQueue[rear] := task;
      rear := rear + 1;
      assert taskQueue[..rear - 1] == old(taskQueue[..rear]);
    }

    method DequeueTask() returns (task: int)
      requires Valid()
      modifies this`front
      ensures Valid()
      ensures old(front) < rear ==> View() == old(View()).(front := old(front) + 1) && task == taskQueue[old(front)]
      ensures old(front) == rear ==> View() == old(View()) && task == NO_TASK
    {
      if front < rear {
        task := taskQueue[front];
        front := front + 1;
      } else {
        task := NO_TASK;
      }
    }

    // The loop of get_available_printer run without interruption, as printer_mutex makes it.
    method GetAvailablePrinter() returns (p: int)
      requires Valid()
      modifies printerStatus
      ensures p == LowestFree(old(printerStatus[..]))
      ensures p == NO_PRINTER ==> View() == old(View())
      ensures p != NO_PRINTER ==> View() == old(View()).(status := old(View()).status[p := BUSY])
    {
      var i := 0;
      while i < printerStatus.Length
        invariant 0 <= i <= printerStatus.Length
        invariant printerStatus[..] == old(printerStatus[..])
        invariant LowestFree(printerStatus[..]) == LowestFreeFrom(printerStatus[..], i)
      {
        if printerStatus[i] == FREE {
          printerStatus[i] := BUSY;
          assert taskQueue[..rear] == old(taskQueue[..rear]);
          return i;
        }
        i := i + 1;
      }
      p := NO_PRINTER;
    }

    method ReleasePrinter(p: int)
      requires Valid() && 0 <= p < printerStatus.Length
      modifies printerStatus
      ensures View() == old(View()).(status := old(View()).status[p := FREE])
    {
      printerStatus[p] := FREE;
      assert taskQueue[..rear] == old(taskQueue[..rear]);
    }

    predicate CanRun(w: nat)
      reads this, workers
      requires w < workers.Length
    {
      match workers[w]
      case LockQueue => queueMutex.None?
      case LockAcquire(_) => printerMutex.None?
      case LockRelease(_, _) => printerMutex.None?
      case WaitSem(_) => sem > 0
      case Exited => false
      case Faulted => false
      case _ => true
    }

    method Move(w: nat, pc: Worker)
      requires Valid() && w < workers.Length
      modifies workers
      ensures View() == Goto(old(View()), w, pc)
    {
      workers[w] := pc;
    }

    // One atomic step of worker w on the shared state.
    method Advance(w: nat)
      requires Valid() && Enabled(View(), w)
      modifies this, taskQueue, printerStatus, workers
      ensures Valid() && View() == Step(old(View()), w)
    {
      match workers[w] {
        case LockQueue =>
          queueMutex := Some(w);
          Move(w, Dequeue);
        case Dequeue =>
          var task := DequeueTask();
          Move(w, UnlockQueue(task));
        case UnlockQueue(task) =>
          queueMutex := None;
          Move(w, if task == NO_TASK then Exited else WaitSem(task));
        case WaitSem(task) =>
          sem := sem - 1;
          Move(w, LockAcquire(task));
        case LockAcquire(task) =>
          printerMutex := Some(w);
          Move(w, Scan(task, 0));
        case Scan(task, i) =>
          if i >= printerStatus.Length {
            Move(w, UnlockAcquire(task, NO_PRINTER));
          } else if printerStatus[i] == FREE {
            Move(w, Claim(task, i));
          } else {
            Move(w, Scan(task, i + 1));
          }
        case Claim(task, i) =>
          ClaimSlot(w, task, i);
        case UnlockAcquire(task, p) =>
          printerMutex := None;
          Move(w, PrintAcquired(task, p));
        case PrintAcquired(task, p) =>
          output := output + [Acquired(task, p)];
          Move(w, PrintReleased(task, p));
        case PrintReleased(task, p) =>
          output := output + [Released(task, p)];
          Move(w, LockRelease(task, p));
        case LockRelease(task, p) =>
          printerMutex := Some(w);
          Move(w, Release(task, p));
        case Release(task, p) =>
          if 0 <= p < printerStatus.Length {
            ReleasePrinter(p);
            Move(w, UnlockRelease);
          } else {
            Move(w, Faulted);
          }
        case UnlockRelease =>
          printerMutex := None;
          Move(w, Post);
        case Post =>
          sem := sem + 1;
          Move(w, LockQueue);
      }
    }

    method ClaimSlot(w: nat, task: int, i: nat)
      requires Valid() && w < workers.Length && workers[w] == Claim(task, i)
      modifies printerStatus, workers
      ensures View() == Step(old(View()), w)
    {
      if i < printerStatus.Length {
        printerStatus[i] := BUSY;
        assert taskQueue[..rear] == old(taskQueue[..rear]);
        Move(w, UnlockAcquire(task, i));
      } else {
        Move(w, Faulted);
      }
    }
  }

  // The scan that a worker makes slot by slot, with other workers' steps in between, claims the
  // printer that get_available_printer run in one go on the same slots would return.
  lemma ClaimIsLowestFree(tasks: nat, printers: nat, workers: nat, schedule: seq<nat>, w: nat)
    requires ValidRun(Init(tasks, printers, workers), schedule)
    requires w < |Exec(Init(tasks, printers, workers), schedule).workers|
    ensures var s := Exec(Init(tasks, printers, workers), schedule);
      s.workers[w].Claim? ==> s.workers[w].i == LowestFree(s.status)
  {
    PrinterSafety.Reachable(tasks, printers, workers, schedule);
    var s := Exec(Init(tasks, printers, workers), schedule);
    assert ScanOk(s.status, s.workers[w]);
  }

  // The part of main that fills the queue.
  method Prepare(tasks: nat, printers: nat, threads: nat) returns (pool: Pool)
    ensures pool.Valid() && fresh(pool) && fresh(pool.taskQueue) && fresh(pool.printerStatus) && fresh(pool.workers)
    ensures pool.View() == Init(tasks, printers, threads)
  {
    pool := new Pool(tasks, printers, threads);
    assert pool.View().queue == Tasks(0);
    var i := 0;
    while i < tasks
      invariant 0 <= i <= tasks && pool.Valid() && fresh(pool)
      invariant fresh(pool.taskQueue) && fresh(pool.printerStatus) && fresh(pool.workers)
      invariant pool.taskQueue.Length == tasks
      invariant pool.View() == Init(0, printers, threads).(queue := Tasks(i))
    {
      pool.Enqueue(i + 1);
      i := i + 1;
      assert Tasks(i) == Tasks(i - 1) + [i];
    }
  }

  // The create and join loops: an arbitrary scheduler runs the threads until none can move.
  method RunWorkers(pool: Pool) returns (ghost schedule: seq<nat>)
    requires pool.Valid()
    modifies pool, pool.taskQueue, pool.printerStatus, pool.workers
    ensures pool.Valid()
    ensures ValidRun(old(pool.View()), schedule)
    ensures pool.View() == Exec(old(pool.View()), schedule) && Stuck(pool.View())
  {
    ghost var start := pool.View();
    schedule := [];
    while exists w :: 0 <= w < pool.workers.Length && pool.CanRun(w)
      invariant pool.Valid() && ValidRun(start, schedule) && pool.View() == Exec(start, schedule)
      decreases PrinterLiveness.Measure(pool.View())
    {
      var w :| 0 <= w < pool.workers.Length && pool.CanRun(w);
      PrinterLiveness.MeasureDrops(pool.View(), w);
      RunAppend(start, schedule, w);
      pool.Advance(w);
      schedule := schedule + [w];
    }
    ghost var end := pool.View();
    forall w: nat ensures !Enabled(end, w) {
      assert w < pool.workers.Length ==> !pool.CanRun(w);
    }
  }

  lemma {:induction false} RunAppend(s: State, schedule: seq<nat>, w: nat)
    requires ValidRun(s, schedule) && Enabled(Exec(s, schedule), w)
    ensures ValidRun(s, schedule + [w])
    ensures Exec(s, schedule + [w]) == Step(Exec(s, schedule), w)
    decreases |schedule|
  {
    if schedule == [] {
      assert (schedule + [w])[1..] == [];
    } else {
      RunAppend(Step(s, schedule[0]), schedule[1..], w);
      assert (schedule + [w])[1..] == schedule[1..] + [w];
    }
  }

  // main. Whatever the scheduler does it returns, and it has served every task exactly when
  // there were none, or there were threads and printers to serve them.
  method RunProgram(tasks: nat, printers: nat, threads: nat) returns (pool: Pool)
    ensures fresh(pool) && pool.Valid()
    ensures PrinterLiveness.Completed(pool.View(), tasks, printers)
            <==> tasks == 0 || (printers > 0 && threads > 0)
  {
    pool := Prepare(tasks, printers, threads);
    ghost var schedule := RunWorkers(pool);
    PrinterLiveness.CompleteRunOutcome(tasks, printers, threads, schedule);
  }
}
