// What holds in every state that the printer pool can reach, under any schedule.
module PrinterSafety {
  import opened Counting
  import opened PrinterModel
  import opened PrinterInvariants

  lemma Reachable(tasks: nat, printers: nat, workers: nat, schedule: seq<nat>)
    requires ValidRun(Init(tasks, printers, workers), schedule)
    ensures Inv(Exec(Init(tasks, printers, workers), schedule), tasks, printers)
  {
    InitInv(tasks, printers, workers);
    RunInv(Init(tasks, printers, workers), schedule, tasks, printers);
  }

  // The scan never returns -1: a worker that leaves it holds a printer that exists, and so no
  // worker ever writes outside printer_status.
  lemma ScanAlwaysSucceeds(tasks: nat, printers: nat, workers: nat, schedule: seq<nat>, w: nat)
    requires ValidRun(Init(tasks, printers, workers), schedule)
    requires w < |Exec(Init(tasks, printers, workers), schedule).workers|
    ensures var pc := Exec(Init(tasks, printers, workers), schedule).workers[w];
      && !pc.Faulted?
      && (pc.Scan? ==> pc.i < printers)
      && (OwnsAPrinter(pc) ==> 0 <= pc.printer < printers)
  {
    Reachable(tasks, printers, workers, schedule);
    var s := Exec(Init(tasks, printers, workers), schedule);
    assert OwnerOk(s.status, s.workers[w]);
    if s.workers[w].Scan? {
      ScanNeverFails(s, w);
    }
  }

  ghost predicate OnlyOwner(s: State, w: nat, p: int)
  {
    && w < |s.workers| && Owns(s.workers[w], p)
    && forall v :: 0 <= v < |s.workers| && Owns(s.workers[v], p) ==> v == w
  }

  // A slot is marked busy exactly when one worker, and no other, owns that printer.
  lemma BusyExactlyWhenOwned(tasks: nat, printers: nat, workers: nat, schedule: seq<nat>, p: nat)
    requires ValidRun(Init(tasks, printers, workers), schedule) && p < printers
    ensures var s := Exec(Init(tasks, printers, workers), schedule);
      |s.status| == printers && (s.status[p] == BUSY <==> exists w: nat :: OnlyOwner(s, w, p))
  {
    Reachable(tasks, printers, workers, schedule);
    var s := Exec(Init(tasks, printers, workers), schedule);
    if s.status[p] == BUSY {
      var w :| 0 <= w < |s.workers| && Owns(s.workers[w], p);
      forall v | 0 <= v < |s.workers| && Owns(s.workers[v], p) ensures v == w {
        assert v == w || v < w || w < v;
      }
      assert OnlyOwner(s, w, p);
    }
    if w: nat :| OnlyOwner(s, w, p) {
      assert OwnerOk(s.status, s.workers[w]);
    }
  }

  // Queued, in-flight and printed tasks together are always the tasks that main enqueued, and
  // no task is printed twice.
  lemma TasksConserved(tasks: nat, printers: nat, workers: nat, schedule: seq<nat>, t: int)
    requires ValidRun(Init(tasks, printers, workers), schedule)
    ensures var s := Exec(Init(tasks, printers, workers), schedule);
      && s.front <= tasks
      && multiset(Tasks(tasks)[s.front..]) + Bag(InFlight, s.workers) + Printed(s.output) == multiset(Tasks(tasks))
      && Printed(s.output)[t] <= 1
  {
    Reachable(tasks, printers, workers, schedule);
    var s := Exec(Init(tasks, printers, workers), schedule);
    TasksDistinct(tasks, t);
    assert Printed(s.output)[t] <= multiset(Tasks(tasks))[t];
  }

  lemma {:induction false} TasksDistinct(n: nat, t: int)
    ensures multiset(Tasks(n))[t] <= 1
    ensures t > n ==> multiset(Tasks(n))[t] == 0
  {
    if n > 0 {
      assert Tasks(n) == Tasks(n - 1) + [n];
      TasksDistinct(n - 1, t);
    }
  }

  // The printed log alone shows that no two tasks ever share a printer.
  lemma OutputNeverOverlaps(tasks: nat, printers: nat, workers: nat, schedule: seq<nat>, p: nat)
    requires ValidRun(Init(tasks, printers, workers), schedule) && p < printers
    ensures PrinterTrack(Exec(Init(tasks, printers, workers), schedule).output, p) != Broken
  {
    Reachable(tasks, printers, workers, schedule);
    var s := Exec(Init(tasks, printers, workers), schedule);
    if s.status[p] == BUSY {
      var w :| 0 <= w < |s.workers| && Owns(s.workers[w], p);
      assert OutputOk(s.output, s.workers[w]);
    }
  }
}
