// assignment7/ex2_race_condition.c: threads that execute counter++ without a lock, as one load
// and one store each. The numbers of threads and of increments per thread are parameters.
module RaceCounter {
  import opened Counting

  // done is the loop variable i; loaded is the value read by a counter++ whose store is pending.
  datatype Thread = Thread(done: nat, loaded: Option<int>)

  datatype State = State(counter: int, threads: seq<Thread>)

  function Init(threads: nat): State
  {
    State(0, seq(threads, _ => Thread(0, None)))
  }

  predicate Enabled(s: State, limit: nat, t: nat)
  {
    t < |s.threads| && s.threads[t].done < limit
  }

  function Step(s: State, limit: nat, t: nat): State
    requires Enabled(s, limit, t)
  {
    var th := s.threads[t];
    match th.loaded
    case None => s.(threads := s.threads[t := th.(loaded := Some(s.counter))])
    case Some(v) => State(v + 1, s.threads[t := Thread(th.done + 1, None)])
  }

  predicate ValidRun(s: State, limit: nat, schedule: seq<nat>)
    decreases |schedule|
  {
    schedule == [] ||
    (Enabled(s, limit, schedule[0]) && ValidRun(Step(s, limit, schedule[0]), limit, schedule[1..]))
  }

  function Exec(s: State, limit: nat, schedule: seq<nat>): State
    requires ValidRun(s, limit, schedule)
    decreases |schedule|
  {
    if schedule == [] then s else Exec(Step(s, limit, schedule[0]), limit, schedule[1..])
  }

  ghost predicate Complete(s: State, limit: nat)
  {
    forall t :: 0 <= t < |s.threads| ==> s.threads[t].done == limit
  }

  // Some complete run of the program ends with this value in counter.
  ghost predicate CanEndWith(threads: nat, limit: nat, v: int)
  {
    exists schedule :: EndsWith(threads, limit, schedule, v)
  }

  ghost predicate EndsWith(threads: nat, limit: nat, schedule: seq<nat>, v: int)
  {
    && ValidRun(Init(threads), limit, schedule)
    && Complete(Exec(Init(threads), limit, schedule), limit)
    && Exec(Init(threads), limit, schedule).counter == v
  }

  function Done(th: Thread): nat { th.done }

  // ---- Bounds ----

  function LeastFinal(threads: nat, limit: nat): nat
  {
    if threads == 0 || limit == 0 then 0
    else if threads == 1 then limit
    else if limit == 1 then 1
    else 2
  }

  ghost predicate ThreadOk(s: State, limit: nat, th: Thread)
  {
    && th.done <= limit
    && (th.done > 0 ==> s.counter >= 1)
    && (th.loaded.Some? ==> th.done < limit && 0 <= th.loaded.value <= Sum(Done, s.threads))
    && (th.loaded.Some? && th.done > 0 ==> th.loaded.value >= 1)
    && (|s.threads| == 1 ==> s.counter == th.done && (th.loaded.Some? ==> th.loaded.value == th.done))
  }

  ghost predicate Inv(s: State, limit: nat)
  {
    && 0 <= s.counter <= Sum(Done, s.threads)
    && (forall t :: 0 <= t < |s.threads| ==> ThreadOk(s, limit, s.threads[t]))
    && (Complete(s, limit) ==> s.counter >= LeastFinal(|s.threads|, limit))
  }

  lemma InitInv(threads: nat, limit: nat)
    ensures Inv(Init(threads), limit)
  {
    var s := Init(threads);
    SumConstant(Done, s.threads, 0);
    if threads > 0 && limit > 0 {
      assert s.threads[0].done != limit;
    }
  }

  lemma StepInv(s: State, limit: nat, t: nat)
    requires Enabled(s, limit, t) && Inv(s, limit)
    ensures Inv(Step(s, limit, t), limit)
  {
    var s' := Step(s, limit, t);
    SumUpdate(Done, s.threads, t, s'.threads[t]);
    assert s'.threads == s.threads[t := s'.threads[t]];
    assert ThreadOk(s, limit, s.threads[t]);
    forall u | 0 <= u < |s'.threads| ensures ThreadOk(s', limit, s'.threads[u]) {
      assert ThreadOk(s, limit, s.threads[u]);
    }
    assert Complete(s', limit) ==> s'.threads[t].done == limit;
  }

  lemma {:induction false} RunInv(s: State, limit: nat, schedule: seq<nat>)
    requires ValidRun(s, limit, schedule) && Inv(s, limit)
    ensures Inv(Exec(s, limit, schedule), limit)
    ensures |Exec(s, limit, schedule).threads| == |s.threads|
    decreases |schedule|
  {
    if schedule != [] {
      StepInv(s, limit, schedule[0]);
      RunInv(Step(s, limit, schedule[0]), limit, schedule[1..]);
    }
  }

  lemma FinalBounds(s: State, limit: nat)
    requires Inv(s, limit) && Complete(s, limit)
    ensures LeastFinal(|s.threads|, limit) <= s.counter <= |s.threads| * limit
  {
    SumConstant(Done, s.threads, limit);
  }

  // ---- Any number of threads race ----

  // The first n threads have read the counter and not written it.
  function Poised(threads: nat, n: nat): State
  {
    State(0, seq(threads, t => Thread(0, if t < n then Some(0) else None)))
  }

  // All threads can hold a value that the next store makes stale, because nothing makes a thread
  // wait before it has finished.
  lemma {:induction false} AllCanRace(threads: nat, limit: nat, n: nat) returns (schedule: seq<nat>)
    requires limit > 0 && n <= threads
    ensures |schedule| == n && ValidRun(Init(threads), limit, schedule)
    ensures Exec(Init(threads), limit, schedule) == Poised(threads, n)
  {
    if n == 0 {
      schedule := [];
      assert Poised(threads, 0).threads == Init(threads).threads;
    } else {
      var before := AllCanRace(threads, limit, n - 1);
      OneStep(Poised(threads, n - 1), limit, n - 1);
      RunConcat(Init(threads), limit, before, [n - 1]);
      schedule := before + [n - 1];
      assert Step(Poised(threads, n - 1), limit, n - 1).threads == Poised(threads, n).threads;
    }
  }

  // In every reachable state a thread can go on exactly if it has not finished.
  lemma BlockedExactly(threads: nat, limit: nat, schedule: seq<nat>, t: nat)
    requires ValidRun(Init(threads), limit, schedule) && t < threads
    ensures var s := Exec(Init(threads), limit, schedule);
      t < |s.threads| && (!Enabled(s, limit, t) <==> s.threads[t].done == limit)
  {
    InitInv(threads, limit);
    RunInv(Init(threads), limit, schedule);
    var s := Exec(Init(threads), limit, schedule);
    assert ThreadOk(s, limit, s.threads[t]);
  }

  // ---- Every value between the bounds is reached ----

  lemma {:induction false} RunConcat(s: State, limit: nat, a: seq<nat>, b: seq<nat>)
    requires ValidRun(s, limit, a) && ValidRun(Exec(s, limit, a), limit, b)
    ensures ValidRun(s, limit, a + b)
    ensures Exec(s, limit, a + b) == Exec(Exec(s, limit, a), limit, b)
    decreases |a|
  {
    if a == [] {
      assert a + b == b;
    } else {
      RunConcat(Step(s, limit, a[0]), limit, a[1..], b);
      assert (a + b)[1..] == a[1..] + b;
    }
  }

  lemma OneStep(s: State, limit: nat, t: nat)
    requires Enabled(s, limit, t)
    ensures ValidRun(s, limit, [t]) && Exec(s, limit, [t]) == Step(s, limit, t)
  {
    assert [t][1..] == [];
  }

  // A thread whose counter++ is not interrupted adds one.
  lemma Whole(s: State, limit: nat, t: nat)
    requires Enabled(s, limit, t) && s.threads[t].loaded.None?
    ensures ValidRun(s, limit, [t, t])
    ensures Exec(s, limit, [t, t]) == State(s.counter + 1, s.threads[t := Thread(s.threads[t].done + 1, None)])
  {
    var m := Step(s, limit, t);
    OneStep(s, limit, t);
    OneStep(m, limit, t);
    RunConcat(s, limit, [t], [t]);
    assert [t] + [t] == [t, t];
    assert Step(m, limit, t).threads == s.threads[t := Thread(s.threads[t].done + 1, None)];
  }

  // How many increments are left before every thread reaches its cap.
  ghost function Room(caps: seq<nat>, threads: seq<Thread>): nat
    requires |caps| == |threads|
  {
    if caps == [] then 0
    else (if threads[0].done < caps[0] then caps[0] - threads[0].done else 0) + Room(caps[1..], threads[1..])
  }

  lemma {:induction false} RoomUpdate(caps: seq<nat>, threads: seq<Thread>, t: nat)
    requires |caps| == |threads| && t < |caps| && threads[t].done < caps[t]
    ensures Room(caps, threads[t := Thread(threads[t].done + 1, None)]) == Room(caps, threads) - 1
  {
    var next := threads[t := Thread(threads[t].done + 1, None)];
    if t == 0 {
      assert next[1..] == threads[1..];
    } else {
      assert next[1..] == threads[1..][t - 1 := Thread(threads[1..][t - 1].done + 1, None)];
      RoomUpdate(caps[1..], threads[1..], t - 1);
    }
  }

  lemma {:induction false} RoomPositive(caps: seq<nat>, threads: seq<Thread>) returns (t: nat)
    requires |caps| == |threads| && Room(caps, threads) > 0
    ensures t < |caps| && threads[t].done < caps[t]
  {
    if threads[0].done < caps[0] {
      t := 0;
    } else {
      var u := RoomPositive(caps[1..], threads[1..]);
      t := u + 1;
    }
  }

  lemma {:induction false} NoRoom(caps: seq<nat>, threads: seq<Thread>, t: nat)
    requires |caps| == |threads| && Room(caps, threads) == 0 && t < |caps|
    ensures threads[t].done >= caps[t]
  {
    if t > 0 {
      NoRoom(caps[1..], threads[1..], t - 1);
    }
  }

  ghost predicate Within(s: State, limit: nat, caps: seq<nat>)
  {
    && |caps| == |s.threads|
    && forall t :: 0 <= t < |caps| ==>
         && s.threads[t].done <= caps[t] <= limit
         && (s.threads[t].done < caps[t] ==> s.threads[t].loaded.None?)
  }

  // n uninterrupted increments by whichever threads are below their caps.
  lemma {:induction false} Grow(s: State, limit: nat, caps: seq<nat>, n: nat) returns (run: seq<nat>, s': State)
    requires Within(s, limit, caps) && n <= Room(caps, s.threads)
    ensures ValidRun(s, limit, run) && s' == Exec(s, limit, run)
    ensures Within(s', limit, caps) && s'.counter == s.counter + n
    ensures Room(caps, s'.threads) == Room(caps, s.threads) - n
    ensures forall t :: 0 <= t < |caps| ==>
      s'.threads[t].loaded == s.threads[t].loaded && s'.threads[t].done >= s.threads[t].done
    decreases n
  {
    if n == 0 {
      run, s' := [], s;
    } else {
      var t := RoomPositive(caps, s.threads);
      Whole(s, limit, t);
      RoomUpdate(caps, s.threads, t);
      var m := Exec(s, limit, [t, t]);
      var rest;
      rest, s' := Grow(m, limit, caps, n - 1);
      RunConcat(s, limit, [t, t], rest);
      run := [t, t] + rest;
    }
  }

  // Grow until every thread is at its cap.
  lemma Fill(s: State, limit: nat, caps: seq<nat>) returns (run: seq<nat>, s': State)
    requires Within(s, limit, caps)
    ensures ValidRun(s, limit, run) && s' == Exec(s, limit, run) && |s'.threads| == |caps|
    ensures forall t :: 0 <= t < |caps| ==>
      s'.threads[t].done == caps[t] && s'.threads[t].loaded == s.threads[t].loaded
  {
    run, s' := Grow(s, limit, caps, Room(caps, s.threads));
    forall t | 0 <= t < |caps| ensures s'.threads[t].done == caps[t] {
      NoRoom(caps, s'.threads, t);
    }
  }

  lemma Then(s: State, limit: nat, run: seq<nat>, t: nat) returns (run': seq<nat>, s': State)
    requires ValidRun(s, limit, run) && Enabled(Exec(s, limit, run), limit, t)
    ensures ValidRun(s, limit, run') && s' == Exec(s, limit, run') == Step(Exec(s, limit, run), limit, t)
  {
    OneStep(Exec(s, limit, run), limit, t);
    RunConcat(s, limit, run, [t]);
    run' := run + [t];
    s' := Exec(s, limit, run');
  }

  lemma ThenFill(s: State, limit: nat, run: seq<nat>, caps: seq<nat>) returns (run': seq<nat>, s': State)
    requires ValidRun(s, limit, run) && Within(Exec(s, limit, run), limit, caps)
    ensures ValidRun(s, limit, run') && s' == Exec(s, limit, run') && |s'.threads| == |caps|
    ensures forall t :: 0 <= t < |caps| ==>
      s'.threads[t].done == caps[t] && s'.threads[t].loaded == Exec(s, limit, run).threads[t].loaded
  {
    var more;
    more, s' := Fill(Exec(s, limit, run), limit, caps);
    RunConcat(s, limit, run, more);
    run' := run + more;
  }

  // Caps that leave `first` for thread 0 and `second` for thread 1.
  function Caps(threads: nat, limit: nat, first: nat, second: nat): (caps: seq<nat>)
    requires threads >= 2
  {
    [first, second] + seq(threads - 2, _ => limit)
  }

  lemma {:induction false} RoomForAll(limit: nat, n: nat)
    ensures Room(seq(n, _ => limit), seq(n, _ => Thread(0, None))) == n * limit
  {
    if n > 0 {
      assert seq(n, _ => limit)[1..] == seq(n - 1, _ => limit);
      assert seq(n, _ => Thread(0, None))[1..] == seq(n - 1, _ => Thread(0, None));
      RoomForAll(limit, n - 1);
      assert n * limit == limit + (n - 1) * limit;
    }
  }

  lemma RoomAtStart(threads: nat, limit: nat)
    requires threads >= 2 && limit >= 1
    ensures Room(Caps(threads, limit, limit - 1, limit - 1), Init(threads).threads) == threads * limit - 2
  {
    var caps, ths := Caps(threads, limit, limit - 1, limit - 1), Init(threads).threads;
    assert caps[1..][1..] == seq(threads - 2, _ => limit);
    assert ths[1..][1..] == seq(threads - 2, _ => Thread(0, None));
    RoomForAll(limit, threads - 2);
    assert (threads - 2) * limit == threads * limit - 2 * limit;
  }

  // Thread t loads, the others run up to their caps, and t stores: all they added is lost.
  lemma Overwrite(s: State, limit: nat, run: seq<nat>, caps: seq<nat>, t: nat) returns (run': seq<nat>, s': State)
    requires ValidRun(s, limit, run) && Within(Exec(s, limit, run), limit, caps)
    requires t < |caps| && caps[t] == Exec(s, limit, run).threads[t].done < limit
    requires forall u :: 0 <= u < |caps| ==> Exec(s, limit, run).threads[u].loaded.None?
    ensures ValidRun(s, limit, run') && s' == Exec(s, limit, run') && |s'.threads| == |caps|
    ensures s'.counter == Exec(s, limit, run).counter + 1
    ensures forall u :: 0 <= u < |caps| ==>
      s'.threads[u] == Thread(if u == t then caps[t] + 1 else caps[u], None)
  {
    var before := Exec(s, limit, run);
    var m1, m2;
    run', m1 := Then(s, limit, run, t);
    run', m2 := ThenFill(s, limit, run', caps);
    assert m2.threads[t] == Thread(caps[t], Some(before.counter));
    run', s' := Then(s, limit, run', t);
  }

  // Add v - 2, then let thread 0 and after it thread 1 overwrite everything else.
  lemma ScheduleFor(threads: nat, limit: nat, v: int) returns (run: seq<nat>)
    requires threads >= 2 && limit >= 1 && 2 <= v <= threads * limit
    ensures EndsWith(threads, limit, run, v)
  {
    RoomAtStart(threads, limit);
    var s;
    run, s := Grow(Init(threads), limit, Caps(threads, limit, limit - 1, limit - 1), v - 2);
    run := OverwriteTwice(threads, limit, run, s);
    assert v == s.counter + 2;
  }

  lemma OverwriteTwice(threads: nat, limit: nat, run: seq<nat>, s: State) returns (run': seq<nat>)
    requires threads >= 2 && limit >= 1 && ValidRun(Init(threads), limit, run) && s == Exec(Init(threads), limit, run)
    requires Within(s, limit, Caps(threads, limit, limit - 1, limit - 1))
    requires forall u :: 0 <= u < threads ==> s.threads[u].loaded.None?
    ensures EndsWith(threads, limit, run', s.counter + 2)
  {
    var first := Caps(threads, limit, s.threads[0].done, limit - 1);
    assert Within(s, limit, first);
    var s';
    run', s' := Overwrite(Init(threads), limit, run, first, 0);
    var second := Caps(threads, limit, limit, limit - 1);
    assert Within(s', limit, second);
    run', s' := Overwrite(Init(threads), limit, run', second, 1);
  }

  // With one increment each: thread 0 overwrites everything.
  lemma ScheduleForOne(threads: nat) returns (run: seq<nat>)
    requires threads >= 2
    ensures EndsWith(threads, 1, run, 1)
  {
    var s;
    run, s := Overwrite(Init(threads), 1, [], Caps(threads, 1, 0, 1), 0);
  }

  lemma ScheduleAlone(limit: nat) returns (run: seq<nat>)
    ensures EndsWith(1, limit, run, limit)
  {
    var s := Init(1);
    assert Room([limit][1..], s.threads[1..]) == 0;
    var s';
    run, s' := Grow(s, limit, [limit], limit);
    NoRoom([limit], s'.threads, 0);
  }

  lemma NothingToDo(threads: nat, limit: nat)
    requires threads == 0 || limit == 0
    ensures EndsWith(threads, limit, [], 0)
  {
  }

  // The exact set of results: every value between the bounds can be the final one, and no other.
  lemma FinalValues(threads: nat, limit: nat, v: int)
    ensures CanEndWith(threads, limit, v) <==> LeastFinal(threads, limit) <= v <= threads * limit
  {
    if schedule :| EndsWith(threads, limit, schedule, v) {
      InitInv(threads, limit);
      RunInv(Init(threads), limit, schedule);
      FinalBounds(Exec(Init(threads), limit, schedule), limit);
    }
    if LeastFinal(threads, limit) <= v <= threads * limit {
      if threads == 0 || limit == 0 {
        assert threads * limit == 0;
        NothingToDo(threads, limit);
      } else if threads == 1 {
        var run := ScheduleAlone(limit);
      } else if v == 1 {
        var run := ScheduleForOne(threads);
      } else {
        var run := ScheduleFor(threads, limit, v);
      }
    }
  }

  // At no point does counter leave the range 0 .. threads * limit, so it fits an int when that does.
  lemma NeverOverflows(threads: nat, limit: nat, schedule: seq<nat>)
    requires ValidRun(Init(threads), limit, schedule)
    ensures 0 <= Exec(Init(threads), limit, schedule).counter <= threads * limit
  {
    InitInv(threads, limit);
    RunInv(Init(threads), limit, schedule);
    var s := Exec(Init(threads), limit, schedule);
    forall t | 0 <= t < |s.threads| ensures s.threads[t].done <= limit {
      assert ThreadOk(s, limit, s.threads[t]);
    }
    SumDominates(Done, (th: Thread) => limit, s.threads);
    SumConstant((th: Thread) => limit, s.threads, limit);
    assert threads * limit == limit * threads;
  }

  // ---- The program itself ----

  class Program {
    var counter: int
    const threads: array<Thread>

    ghost function View(): State
      reads this, threads
    {
      State(counter, threads[..])
    }

    constructor (n: nat)
      ensures View() == Init(n) && fresh(threads)
    {
      counter := 0;
      threads := new Thread[n](_ => Thread(0, None));
    }

    // Half of one counter++ by thread t.
    method Advance(limit: nat, t: nat)
      requires Enabled(View(), limit, t)
      modifies this, threads
      ensures View() == Step(old(View()), limit, t)
    {
      match threads[t].loaded {
        case None =>
          threads[t] := threads[t].(loaded := Some(counter));
        case Some(v) =>
          counter := v + 1;
          threads[t] := Thread(threads[t].done + 1, None);
      }
    }
  }

  ghost function Left(limit: nat, s: State): nat
  {
    Sum((th: Thread) =>
          if th.done < limit then 2 * (limit - th.done) - (if th.loaded.Some? then 1 else 0) else 0,
        s.threads)
  }

  lemma LeftDrops(limit: nat, s: State, t: nat)
    requires Enabled(s, limit, t)
    ensures Left(limit, Step(s, limit, t)) == Left(limit, s) - 1
  {
    var s' := Step(s, limit, t);
    SumUpdate((th: Thread) => if th.done < limit then 2 * (limit - th.done) - (if th.loaded.Some? then 1 else 0) else 0,
              s.threads, t, s'.threads[t]);
    assert s'.threads == s.threads[t := s'.threads[t]];
  }

  // main: create the threads, let an arbitrary scheduler interleave them, join them all.
  method RunProgram(n: nat, limit: nat) returns (counter: int)
    ensures LeastFinal(n, limit) <= counter <= n * limit
  {
    var program := new Program(n);
    InitInv(n, limit);
    while exists t :: 0 <= t < program.threads.Length && program.threads[t].done < limit
      invariant program.threads.Length == n && fresh(program) && fresh(program.threads)
      invariant Inv(program.View(), limit)
      decreases Left(limit, program.View())
    {
      var t :| 0 <= t < program.threads.Length && program.threads[t].done < limit;
      StepInv(program.View(), limit, t);
      LeftDrops(limit, program.View(), t);
      program.Advance(limit, t);
    }
    ghost var s := program.View();
    forall t | 0 <= t < |s.threads| ensures s.threads[t].done == limit {
      assert ThreadOk(s, limit, s.threads[t]);
      assert program.threads[t] == s.threads[t];
    }
    FinalBounds(s, limit);
    counter := program.counter;
  }
}
