// Every step of every worker keeps the invariants of the printer pool.
module PrinterInvariants {
  import opened Counting
  import opened Locks
  import opened PrinterModel

  lemma InitInv(tasks: nat, printers: nat, workers: nat)
    ensures Inv(Init(tasks, printers, workers), tasks, printers)
  {
    var s := Init(tasks, printers, workers);
    SumConstant(Permit, s.workers, 0);
    SumConstant(Owning, s.workers, 0);
    SumConstant(Busy, s.status, 0);
    InitTasks(tasks, printers, workers);
  }

  lemma InitTasks(tasks: nat, printers: nat, workers: nat)
    ensures TaskInv(Init(tasks, printers, workers))
  {
    var s := Init(tasks, printers, workers);
    BagEmpty(InFlight, s.workers);
    assert s.queue[s.front..] == s.queue;
  }

  lemma StepShape(s: State, w: nat, tasks: nat, printers: nat)
    requires Enabled(s, w) && Shape(s, tasks, printers)
    ensures Shape(Step(s, w), tasks, printers)
  {
  }

  lemma StepMutex(s: State, w: nat)
    requires Enabled(s, w) && MutexInv(s)
    requires !Step(s, w).workers[w].Faulted?
    ensures MutexInv(Step(s, w))
  {
    var t := Step(s, w);
    var next := t.workers[w];
    assert t.workers == s.workers[w := next];
    GuardsKept(s.queueMutex, InQueueSection, s.workers, w, next, t.queueMutex);
    GuardsKept(s.printerMutex, InPrinterSection, s.workers, w, next, t.printerMutex);
  }

  // Only a worker inside the printer section writes printer_status, so for anyone else who is
  // scanning the slots are frozen.
  lemma StepScan(s: State, w: nat, tasks: nat, printers: nat)
    requires Enabled(s, w) && Shape(s, tasks, printers) && MutexInv(s) && ScanInv(s)
    ensures ScanInv(Step(s, w))
  {
    var t := Step(s, w);
    assert t.workers == s.workers[w := t.workers[w]];
    assert ScanOk(s.status, s.workers[w]);
    assert ScanOk(t.status, t.workers[w]);
    forall v | 0 <= v < |t.workers| && v != w
      ensures ScanOk(t.status, t.workers[v])
    {
      assert ScanOk(s.status, s.workers[v]);
      if t.status != s.status {
        assert InPrinterSection(s.workers[w]) && !InPrinterSection(s.workers[v]);
      }
    }
  }

  lemma OwnersMove(s: State, t: State, w: nat)
    requires w < |s.workers| && |t.workers| == |s.workers| && t.workers == s.workers[w := t.workers[w]]
    requires t.status == s.status && OwnerInv(s)
    requires OwnsAPrinter(t.workers[w]) ==> OwnsAPrinter(s.workers[w]) && t.workers[w].printer == s.workers[w].printer
    ensures OwnerInv(t)
  {
    forall v | 0 <= v < |t.workers| ensures OwnerOk(t.status, t.workers[v]) {
      assert OwnerOk(s.status, s.workers[v]);
    }
    forall u, v | 0 <= u < v < |t.workers| ensures Apart(t.workers[u], t.workers[v]) {
      assert Apart(s.workers[u], s.workers[v]);
    }
  }

  lemma ClaimKeepsOwners(s: State, w: nat)
    requires Enabled(s, w) && s.workers[w].Claim? && ScanOk(s.status, s.workers[w]) && OwnerInv(s)
    ensures OwnerInv(Step(s, w))
  {
    var t := Step(s, w);
    forall v | 0 <= v < |t.workers| && v != w
      ensures OwnerOk(t.status, t.workers[v]) && Apart(t.workers[v], t.workers[w]) && Apart(t.workers[w], t.workers[v])
    {
      assert OwnerOk(s.status, s.workers[v]);
    }
    forall u, v | 0 <= u < v < |t.workers| ensures Apart(t.workers[u], t.workers[v]) {
      assert Apart(s.workers[u], s.workers[v]);
    }
  }

  lemma ReleaseKeepsOwners(s: State, w: nat)
    requires Enabled(s, w) && s.workers[w].Release? && OwnerInv(s)
    ensures OwnerInv(Step(s, w)) && !Step(s, w).workers[w].Faulted?
  {
    var t := Step(s, w);
    assert OwnerOk(s.status, s.workers[w]);
    forall v | 0 <= v < |t.workers| ensures OwnerOk(t.status, t.workers[v]) {
      assert OwnerOk(s.status, s.workers[v]);
      if v < w { assert Apart(s.workers[v], s.workers[w]); }
      if v > w { assert Apart(s.workers[w], s.workers[v]); }
    }
    forall u, v | 0 <= u < v < |t.workers| ensures Apart(t.workers[u], t.workers[v]) {
      assert Apart(s.workers[u], s.workers[v]);
    }
  }

  // A scan that still has a slot to look at: the pigeonhole lemma below shows it always does.
  ghost predicate InRange(s: State, w: nat)
  {
    w < |s.workers| && (s.workers[w].Scan? ==> s.workers[w].i < |s.status|)
  }

  lemma StepOwner(s: State, w: nat)
    requires Enabled(s, w) && ScanInv(s) && OwnerInv(s) && InRange(s, w)
    ensures OwnerInv(Step(s, w)) && !Step(s, w).workers[w].Faulted?
  {
    assert ScanOk(s.status, s.workers[w]);
    if s.workers[w].Claim? {
      ClaimKeepsOwners(s, w);
    } else if s.workers[w].Release? {
      ReleaseKeepsOwners(s, w);
    } else {
      OwnersMove(s, Step(s, w), w);
    }
  }

  lemma StepBusyHasOwner(s: State, w: nat)
    requires Enabled(s, w) && OwnerInv(s) && BusyHasOwner(s) && InRange(s, w)
    ensures BusyHasOwner(Step(s, w))
  {
    var t := Step(s, w);
    assert OwnerOk(s.status, s.workers[w]);
    forall p | 0 <= p < |t.status| && t.status[p] == BUSY
      ensures exists v :: 0 <= v < |t.workers| && Owns(t.workers[v], p)
    {
      if s.status[p] == BUSY {
        var v :| 0 <= v < |s.workers| && Owns(s.workers[v], p);
        assert Owns(t.workers[v], p);
      } else {
        assert Owns(t.workers[w], p);
      }
    }
  }

  lemma StepCount(s: State, w: nat)
    requires Enabled(s, w) && CountInv(s) && InRange(s, w)
    requires ScanOk(s.status, s.workers[w]) && OwnerOk(s.status, s.workers[w])
    ensures CountInv(Step(s, w))
  {
    var pc, t := s.workers[w], Step(s, w);
    var next := t.workers[w];
    assert t.workers == s.workers[w := next];
    SumUpdate(Permit, s.workers, w, next);
    SumUpdate(Owning, s.workers, w, next);
    if pc.Claim? {
      SumUpdate(Busy, s.status, pc.i, BUSY);
    } else if pc.Release? {
      SumUpdate(Busy, s.status, pc.printer, FREE);
    }
  }

  lemma PrintedAppend(output: seq<Event>, e: Event)
    ensures Printed(output + [e]) == Printed(output) + (if e.Released? then multiset{e.task} else multiset{})
  {
    assert (output + [e])[..|output|] == output;
  }

  // What one step moves between the queue, the workers and the printed tasks cancels out.
  lemma Transfer(queue: multiset<int>, flying: multiset<int>, done: multiset<int>,
                 queue': multiset<int>, flying': multiset<int>, done': multiset<int>,
                 gone: multiset<int>, come: multiset<int>)
    requires flying' + gone == flying + come
    requires queue' + come + done' == queue + gone + done
    ensures queue' + flying' + done' == queue + flying + done
  {
    forall x: int ensures (queue' + flying' + done')[x] == (queue + flying + done)[x] {
      assert (flying' + gone)[x] == (flying + come)[x];
      assert (queue' + come + done')[x] == (queue + gone + done)[x];
    }
  }

  // The tasks that are queued, printed, or in the hands of worker w.
  ghost function Share(s: State, w: nat): multiset<int>
    requires w < |s.workers| && s.front <= |s.queue|
  {
    multiset(s.queue[s.front..]) + InFlight(s.workers[w]) + Printed(s.output)
  }

  lemma DequeueShare(s: State, w: nat, tasks: nat)
    requires Enabled(s, w) && s.workers[w].Dequeue? && s.queue == Tasks(tasks) && s.front <= |s.queue|
    ensures Step(s, w).front <= |s.queue|
    ensures Share(Step(s, w), w) == Share(s, w)
  {
    if s.front < |s.queue| {
      var t := Step(s, w);
      assert s.queue[s.front] != NO_TASK;
      assert s.queue[s.front..] == [s.queue[s.front]] + s.queue[t.front..];
      assert InFlight(t.workers[w]) == multiset{s.queue[s.front]};
      assert multiset(s.queue[s.front..]) == multiset{s.queue[s.front]} + multiset(t.queue[t.front..]);
    }
  }

  lemma PrintShare(s: State, w: nat)
    requires Enabled(s, w) && (s.workers[w].PrintAcquired? || s.workers[w].PrintReleased?) && s.front <= |s.queue|
    ensures Share(Step(s, w), w) == Share(s, w)
  {
    if s.workers[w].PrintAcquired? {
      AcquiredMoves(s, w);
    } else {
      ReleasedMoves(s, w);
    }
    var t, waiting := Step(s, w), multiset(s.queue[s.front..]);
    Regroup(waiting, InFlight(t.workers[w]), Printed(t.output), InFlight(s.workers[w]), Printed(s.output));
  }

  lemma Regroup(a: multiset<int>, b: multiset<int>, c: multiset<int>, b': multiset<int>, c': multiset<int>)
    requires b + c == b' + c'
    ensures a + b + c == a + b' + c'
  {
    assert a + b + c == a + (b + c);
  }

  lemma AcquiredMoves(s: State, w: nat)
    requires Enabled(s, w) && s.workers[w].PrintAcquired?
    ensures Step(s, w).queue == s.queue && Step(s, w).front == s.front
    ensures InFlight(Step(s, w).workers[w]) == InFlight(s.workers[w]) && Printed(Step(s, w).output) == Printed(s.output)
  {
    PrintedAppend(s.output, Acquired(s.workers[w].task, s.workers[w].printer));
  }

  // What leaves the worker's hands when it reports its release is what has been printed.
  lemma ReleasedMoves(s: State, w: nat)
    requires Enabled(s, w) && s.workers[w].PrintReleased?
    ensures Step(s, w).queue == s.queue && Step(s, w).front == s.front
    ensures InFlight(Step(s, w).workers[w]) == multiset{} && InFlight(s.workers[w]) == multiset{s.workers[w].task}
    ensures Printed(Step(s, w).output) == Printed(s.output) + multiset{s.workers[w].task}
  {
    PrintedAppend(s.output, Released(s.workers[w].task, s.workers[w].printer));
  }

  lemma QuietShare(s: State, w: nat)
    requires Enabled(s, w) && s.front <= |s.queue| && !Step(s, w).workers[w].Faulted?
    requires !s.workers[w].Dequeue? && !s.workers[w].PrintAcquired? && !s.workers[w].PrintReleased?
    ensures Step(s, w).front == s.front && Step(s, w).queue == s.queue && Step(s, w).output == s.output
  {
  }

  lemma QuietInFlight(s: State, w: nat)
    requires Enabled(s, w) && !Step(s, w).workers[w].Faulted?
    requires !s.workers[w].Dequeue? && !s.workers[w].PrintReleased?
    ensures InFlight(Step(s, w).workers[w]) == InFlight(s.workers[w])
  {
    if InFlight(s.workers[w]) != multiset{} {
      CarriedOn(s, w);
    }
  }

  // A worker that has a task keeps it until it has printed it.
  lemma CarriedOn(s: State, w: nat)
    requires Enabled(s, w) && !Step(s, w).workers[w].Faulted?
    requires !s.workers[w].PrintReleased? && InFlight(s.workers[w]) != multiset{}
    ensures InFlight(Step(s, w).workers[w]) == InFlight(s.workers[w])
  {
    var pc, next := s.workers[w], Step(s, w).workers[w];
    match pc {
      case UnlockQueue(t) => assert next == WaitSem(t);
      case Scan(t, _) => assert next.task == t;
      case _ =>
    }
  }

  lemma StepShare(s: State, w: nat, tasks: nat)
    requires Enabled(s, w) && s.front <= |s.queue| && s.queue == Tasks(tasks) && !Step(s, w).workers[w].Faulted?
    ensures Step(s, w).queue == s.queue && Step(s, w).front <= |s.queue|
    ensures Share(Step(s, w), w) == Share(s, w)
  {
    if s.workers[w].Dequeue? {
      DequeueShare(s, w, tasks);
    } else if s.workers[w].PrintAcquired? || s.workers[w].PrintReleased? {
      PrintShare(s, w);
    } else {
      QuietShare(s, w);
      QuietInFlight(s, w);
    }
  }

  lemma StepTasks(s: State, w: nat, tasks: nat)
    requires Enabled(s, w) && TaskInv(s) && s.queue == Tasks(tasks)
    requires !Step(s, w).workers[w].Faulted?
    ensures TaskInv(Step(s, w))
  {
    var t := Step(s, w);
    var next := t.workers[w];
    assert t.workers == s.workers[w := next];
    BagUpdate(InFlight, s.workers, w, next);
    StepShare(s, w, tasks);
    Transfer(multiset(s.queue[s.front..]), Bag(InFlight, s.workers), Printed(s.output),
             multiset(t.queue[t.front..]), Bag(InFlight, t.workers), Printed(t.output),
             InFlight(s.workers[w]), InFlight(next));
  }

  lemma TrackAppend(output: seq<Event>, e: Event, p: int)
    ensures e.printer != p ==> PrinterTrack(output + [e], p) == PrinterTrack(output, p)
    ensures e.printer == p && e.Acquired? && PrinterTrack(output, p) == Idle ==>
              PrinterTrack(output + [e], p) == Printing(e.task)
    ensures e.printer == p && e.Released? && PrinterTrack(output, p) == Printing(e.task) ==>
              PrinterTrack(output + [e], p) == Idle
  {
    assert (output + [e])[..|output|] == output;
  }

  lemma PrintKeepsOutput(s: State, w: nat)
    requires Enabled(s, w) && OwnerInv(s) && OutputInv(s)
    requires s.workers[w].PrintAcquired? || s.workers[w].PrintReleased?
    ensures OutputInv(Step(s, w))
  {
    var t, pc := Step(s, w), s.workers[w];
    var e := t.output[|s.output|];
    assert OwnerOk(s.status, pc) && OutputOk(s.output, pc);
    TrackAppend(s.output, e, pc.printer);
    forall v | 0 <= v < |t.workers| && v != w ensures OutputOk(t.output, t.workers[v]) {
      assert OutputOk(s.output, s.workers[v]);
      if v < w { assert Apart(s.workers[v], pc); } else { assert Apart(pc, s.workers[v]); }
      if OwnsAPrinter(s.workers[v]) { TrackAppend(s.output, e, s.workers[v].printer); }
    }
    forall p | 0 <= p < |t.status| && t.status[p] == FREE ensures PrinterTrack(t.output, p) == Idle {
      TrackAppend(s.output, e, p);
    }
  }

  lemma StepOutput(s: State, w: nat)
    requires Enabled(s, w) && OwnerInv(s) && ScanInv(s) && OutputInv(s) && InRange(s, w)
    ensures OutputInv(Step(s, w))
  {
    assert ScanOk(s.status, s.workers[w]) && OwnerOk(s.status, s.workers[w]);
    if s.workers[w].PrintAcquired? || s.workers[w].PrintReleased? {
      PrintKeepsOutput(s, w);
    } else {
      var t := Step(s, w);
      assert OutputOk(s.output, s.workers[w]);
      assert t.workers == s.workers[w := t.workers[w]] && t.output == s.output;
      assert OutputOk(t.output, t.workers[w]);
      forall v | 0 <= v < |t.workers| && v != w ensures OutputOk(t.output, t.workers[v]) {
        assert OutputOk(s.output, s.workers[v]);
      }
    }
  }

  // The pigeonhole argument. A worker that has run off the end of printer_status has seen every
  // slot busy, so the permits in use, its own included, would outnumber the printers.
  lemma ScanNeverFails(s: State, w: nat)
    requires w < |s.workers| && s.workers[w].Scan?
    requires ScanInv(s) && CountInv(s)
    ensures s.workers[w].i < |s.status|
  {
    if s.workers[w].i >= |s.status| {
      assert ScanOk(s.status, s.workers[w]);
      SumConstant(Busy, s.status, 1);
      SumStrictlyDominates(Owning, Permit, s.workers, w);
      assert false;
    }
  }

  lemma StepInv(s: State, w: nat, tasks: nat, printers: nat)
    requires Enabled(s, w) && Inv(s, tasks, printers)
    ensures Inv(Step(s, w), tasks, printers)
  {
    if s.workers[w].Scan? {
      ScanNeverFails(s, w);
    }
    assert InRange(s, w) && ScanOk(s.status, s.workers[w]) && OwnerOk(s.status, s.workers[w]);
    StepOwner(s, w);
    StepNoFault(s, w);
    StepShape(s, w, tasks, printers);
    StepMutex(s, w);
    StepScan(s, w, tasks, printers);
    StepBusyHasOwner(s, w);
    StepCount(s, w);
    StepTasks(s, w, tasks);
    StepOutput(s, w);
  }

  lemma StepNoFault(s: State, w: nat)
    requires Enabled(s, w) && NoFault(s) && !Step(s, w).workers[w].Faulted?
    ensures NoFault(Step(s, w))
  {
    assert Step(s, w).workers == s.workers[w := Step(s, w).workers[w]];
  }

  lemma {:induction false} RunInv(s: State, schedule: seq<nat>, tasks: nat, printers: nat)
    requires ValidRun(s, schedule) && Inv(s, tasks, printers)
    ensures Inv(Exec(s, schedule), tasks, printers)
    decreases |schedule|
  {
    if schedule != [] {
      StepInv(s, schedule[0], tasks, printers);
      RunInv(Step(s, schedule[0]), schedule[1..], tasks, printers);
    }
  }
}
