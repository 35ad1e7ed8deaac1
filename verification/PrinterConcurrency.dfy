// How much the printer pool can do at once: what each worker waits for, and that every printer
// can be in use at the same time.
module PrinterConcurrency {
  import opened Counting
  import opened PrinterModel
  import Locks
  import PrinterSafety

  // ---- What a worker waits for ----

  ghost predicate SomebodyIn(section: Worker -> bool, workers: seq<Worker>)
  {
    exists v :: 0 <= v < |workers| && section(workers[v])
  }

  // A worker is held up only by another worker inside the section it wants to enter, or by as
  // many permit holders as there are printers.
  ghost predicate HeldUp(s: State, w: nat, printers: nat)
    requires w < |s.workers|
  {
    var pc := s.workers[w];
    || (pc.LockQueue? && SomebodyIn(InQueueSection, s.workers))
    || ((pc.LockAcquire? || pc.LockRelease?) && SomebodyIn(InPrinterSection, s.workers))
    || (pc.WaitSem? && Sum(Permit, s.workers) == printers)
    || pc.Exited?
  }

  lemma BlockedExactly(tasks: nat, printers: nat, workers: nat, schedule: seq<nat>, w: nat)
    requires ValidRun(Init(tasks, printers, workers), schedule)
    requires w < |Exec(Init(tasks, printers, workers), schedule).workers|
    ensures var s := Exec(Init(tasks, printers, workers), schedule);
      !Enabled(s, w) <==> HeldUp(s, w, printers)
  {
    PrinterSafety.Reachable(tasks, printers, workers, schedule);
    var s := Exec(Init(tasks, printers, workers), schedule);
    HeldByAnother(s.queueMutex, InQueueSection, s.workers);
    HeldByAnother(s.printerMutex, InPrinterSection, s.workers);
    assert !s.workers[w].Faulted?;
  }

  lemma HeldByAnother(mutex: Option<nat>, section: Worker -> bool, workers: seq<Worker>)
    requires Locks.Guards(mutex, section, workers)
    ensures mutex.Some? <==> SomebodyIn(section, workers)
  {
    if mutex.Some? {
      assert section(workers[mutex.value]);
    }
  }

  // ---- All printers at once ----

  // The first k workers each own the printer of the same number; the others have not started.
  function Sharing(tasks: nat, printers: nat, workers: nat, k: nat): State
    requires k <= tasks && k <= printers && k <= workers
  {
    State(Tasks(tasks), k, seq(printers, p => if p < k then BUSY else FREE), printers - k, None, None,
          seq(workers, w => if w < k then PrintAcquired(w + 1, w) else LockQueue), [])
  }

  // The same while worker k, past sem_wait and holding the mutex, looks at slot i.
  function Looking(tasks: nat, printers: nat, workers: nat, k: nat, i: nat): State
    requires k < tasks && k < printers && k < workers
  {
    var s := Sharing(tasks, printers, workers, k);
    s.(front := k + 1, sem := printers - k - 1, printerMutex := Some(k), workers := s.workers[k := Scan(k + 1, i)])
  }

  ghost predicate LeadsTo(s: State, t: State)
  {
    exists schedule :: ValidRun(s, schedule) && Exec(s, schedule) == t
  }

  lemma Arrived(s: State)
    ensures LeadsTo(s, s)
  {
    assert ValidRun(s, []) && Exec(s, []) == s;
  }

  lemma StepFirst(s: State, w: nat, t: State)
    requires Enabled(s, w) && LeadsTo(Step(s, w), t)
    ensures LeadsTo(s, t)
  {
    var schedule :| ValidRun(Step(s, w), schedule) && Exec(Step(s, w), schedule) == t;
    assert ([w] + schedule)[1..] == schedule;
    assert ValidRun(s, [w] + schedule) && Exec(s, [w] + schedule) == t;
  }

  // Worker k fetches a task, takes a permit and starts to look for a printer.
  lemma StartsLooking(tasks: nat, printers: nat, workers: nat, k: nat, t: State)
    requires k < tasks && k < printers && k < workers && LeadsTo(Looking(tasks, printers, workers, k, 0), t)
    ensures LeadsTo(Sharing(tasks, printers, workers, k), t)
  {
    var s0 := Sharing(tasks, printers, workers, k);
    var s1 := Step(s0, k);
    var s2 := Step(s1, k);
    var s3 := Step(s2, k);
    var s4 := Step(s3, k);
    var s5 := Step(s4, k);
    assert s5.workers == s0.workers[k := Scan(k + 1, 0)];
    assert s5 == Looking(tasks, printers, workers, k, 0);
    StepFirst(s4, k, t);
    StepFirst(s3, k, t);
    StepFirst(s2, k, t);
    StepFirst(s1, k, t);
    StepFirst(s0, k, t);
  }

  lemma {:induction false} PassesBusySlots(tasks: nat, printers: nat, workers: nat, k: nat, i: nat, t: State)
    requires k < tasks && k < printers && k < workers && i <= k && LeadsTo(Looking(tasks, printers, workers, k, k), t)
    ensures LeadsTo(Looking(tasks, printers, workers, k, i), t)
    decreases k - i
  {
    if i < k {
      var s := Looking(tasks, printers, workers, k, i);
      PassesBusySlots(tasks, printers, workers, k, i + 1, t);
      assert Step(s, k).workers == Looking(tasks, printers, workers, k, i + 1).workers;
      assert Step(s, k) == Looking(tasks, printers, workers, k, i + 1);
      StepFirst(s, k, t);
    }
  }

  // It claims slot k and leaves.
  lemma TakesSlot(tasks: nat, printers: nat, workers: nat, k: nat, t: State)
    requires k < tasks && k < printers && k < workers && LeadsTo(Sharing(tasks, printers, workers, k + 1), t)
    ensures LeadsTo(Looking(tasks, printers, workers, k, k), t)
  {
    var s0 := Looking(tasks, printers, workers, k, k);
    var s1 := Step(s0, k);
    var s2 := Step(s1, k);
    var s3 := Step(s2, k);
    var next := Sharing(tasks, printers, workers, k + 1);
    assert s3.workers == next.workers && s3.status == next.status;
    assert s3 == next;
    StepFirst(s2, k, t);
    StepFirst(s1, k, t);
    StepFirst(s0, k, t);
  }

  lemma {:induction false} ReachesSharing(tasks: nat, printers: nat, workers: nat, k: nat, p: nat)
    requires k <= p <= tasks && p <= printers && p <= workers
    ensures LeadsTo(Sharing(tasks, printers, workers, k), Sharing(tasks, printers, workers, p))
    decreases p - k
  {
    var t := Sharing(tasks, printers, workers, p);
    if k == p {
      Arrived(t);
    } else {
      ReachesSharing(tasks, printers, workers, k + 1, p);
      TakesSlot(tasks, printers, workers, k, t);
      PassesBusySlots(tasks, printers, workers, k, 0, t);
      StartsLooking(tasks, printers, workers, k, t);
    }
  }

  // As many workers as there are tasks, printers and workers allow can own a printer each at the
  // same moment, all different.
  lemma PrintersInParallel(tasks: nat, printers: nat, workers: nat, p: nat) returns (schedule: seq<nat>)
    requires p <= tasks && p <= printers && p <= workers
    ensures ValidRun(Init(tasks, printers, workers), schedule)
    ensures var s := Exec(Init(tasks, printers, workers), schedule);
      && |s.workers| == workers && Sum(Owning, s.workers) == p
      && forall v :: 0 <= v < p ==> Owns(s.workers[v], v)
  {
    var init, end := Init(tasks, printers, workers), Sharing(tasks, printers, workers, p);
    assert Sharing(tasks, printers, workers, 0).workers == init.workers;
    assert Sharing(tasks, printers, workers, 0).status == init.status;
    ReachesSharing(tasks, printers, workers, 0, p);
    schedule :| ValidRun(init, schedule) && Exec(init, schedule) == end;
    OwnersCount(end.workers, p);
  }

  lemma {:induction false} OwnersCount(workers: seq<Worker>, p: nat)
    requires p <= |workers|
    requires forall w :: 0 <= w < |workers| ==> (OwnsAPrinter(workers[w]) <==> w < p)
    ensures Sum(Owning, workers) == p
    decreases |workers|
  {
    if workers != [] {
      var n := |workers| - 1;
      assert workers == workers[..n] + [workers[n]];
      SumAppend(Owning, workers[..n], workers[n]);
      OwnersCount(workers[..n], if p <= n then p else n);
    }
  }
}
