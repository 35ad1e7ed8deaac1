// assignment7/ex2.c: the same counter++, still a load and a store, between lock and unlock.
module MutexCounter {
  import opened Counting

  datatype Pc = Lock | Load | Store(loaded: int) | Unlock

  // done is the loop variable i, which advances after the unlock.
  datatype Thread = Thread(done: nat, pc: Pc)

  datatype State = State(counter: int, mutex: Option<nat>, threads: seq<Thread>)

  function Init(threads: nat): State
  {
    State(0, None, seq(threads, _ => Thread(0, Lock)))
  }

  predicate Enabled(s: State, limit: nat, t: nat)
  {
    t < |s.threads| && (s.threads[t].pc.Lock? ==> s.threads[t].done < limit && s.mutex.None?)
  }

  function Step(s: State, limit: nat, t: nat): State
    requires Enabled(s, limit, t)
  {
    var th := s.threads[t];
    match th.pc
    case Lock => State(s.counter, Some(t), s.threads[t := th.(pc := Load)])
    case Load => s.(threads := s.threads[t := th.(pc := Store(s.counter))])
    case Store(v) => State(v + 1, s.mutex, s.threads[t := th.(pc := Unlock)])
    case Unlock => State(s.counter, None, s.threads[t := Thread(th.done + 1, Lock)])
  }

  predicate ValidRun(s: State, limit: nat, schedule: seq<nat>)
    decreases |schedule|
  {
    schedule == [] ||
    (Enabled(s, limit, schedule[0]) && ValidRun(Step(s, limit, schedule[0]), limit, schedule[1..]))
  }

  function Exec(s: State, limit: nat, schedule: seq<nat>): State
    requires ValidRun(s, limit, schedule)
    decreases |schedule|
  {
    if schedule == [] then s else Exec(Step(s, limit, schedule[0]), limit, schedule[1..])
  }

  ghost predicate Stuck(s: State, limit: nat)
  {
    forall t: nat :: !Enabled(s, limit, t)
  }

  // The number of stores a thread has completed.
  function Stored(th: Thread): nat
  {
    th.done + if th.pc.Unlock? then 1 else 0
  }

  // ---- The atomic counter that the program implements ----

  datatype Atomic = Atomic(counter: int, increments: seq<nat>)

  predicate Increments(a: Atomic, b: Atomic, t: nat)
  {
    t < |a.increments| && b == Atomic(a.counter + 1, a.increments[t := a.increments[t] + 1])
  }

  function Abs(s: State): Atomic
  {
    Atomic(s.counter, seq(|s.threads|, t requires 0 <= t < |s.threads| => Stored(s.threads[t])))
  }

  // ---- Invariant ----

  ghost predicate ThreadOk(s: State, limit: nat, t: nat)
    requires t < |s.threads|
  {
    && (s.mutex == Some(t) <==> !s.threads[t].pc.Lock?)
    && (s.threads[t].pc.Store? ==> s.threads[t].pc.loaded == s.counter)
    && s.threads[t].done <= limit
    && (!s.threads[t].pc.Lock? ==> s.threads[t].done < limit)
  }

  ghost predicate Inv(s: State, limit: nat)
  {
    && s.counter == Sum(Stored, s.threads)
    && (s.mutex.Some? ==> s.mutex.value < |s.threads|)
    && forall t :: 0 <= t < |s.threads| ==> ThreadOk(s, limit, t)
  }

  lemma StepInv(s: State, limit: nat, t: nat)
    requires Enabled(s, limit, t) && Inv(s, limit)
    ensures Inv(Step(s, limit, t), limit)
  {
    var s' := Step(s, limit, t);
    assert s'.threads == s.threads[t := s'.threads[t]];
    SumUpdate(Stored, s.threads, t, s'.threads[t]);
    assert ThreadOk(s, limit, t);
    forall u | 0 <= u < |s'.threads| ensures ThreadOk(s', limit, u) {
      assert ThreadOk(s, limit, u);
    }
  }

  // A store by a thread in the critical section is one atomic increment; nothing else shows.
  lemma StepRefines(s: State, limit: nat, t: nat)
    requires Enabled(s, limit, t) && Inv(s, limit)
    ensures if s.threads[t].pc.Store? then Increments(Abs(s), Abs(Step(s, limit, t)), t)
            else Abs(Step(s, limit, t)) == Abs(s)
  {
    assert ThreadOk(s, limit, t);
    var s' := Step(s, limit, t);
    assert s'.threads == s.threads[t := s'.threads[t]];
    assert Abs(s').increments == Abs(s).increments[t := Stored(s'.threads[t])];
  }

  lemma InitInv(threads: nat, limit: nat)
    ensures Inv(Init(threads), limit)
  {
    SumConstant(Stored, Init(threads).threads, 0);
  }

  lemma {:induction false} RunInv(s: State, limit: nat, schedule: seq<nat>)
    requires ValidRun(s, limit, schedule) && Inv(s, limit)
    ensures Inv(Exec(s, limit, schedule), limit)
    ensures |Exec(s, limit, schedule).threads| == |s.threads|
    decreases |schedule|
  {
    if schedule != [] {
      StepInv(s, limit, schedule[0]);
      RunInv(Step(s, limit, schedule[0]), limit, schedule[1..]);
    }
  }

  // Nothing between lock and unlock blocks.
  lemma HolderRuns(s: State, limit: nat)
    requires Inv(s, limit)
    ensures s.mutex.Some? ==> Enabled(s, limit, s.mutex.value)
  {
    if s.mutex.Some? {
      assert ThreadOk(s, limit, s.mutex.value);
    }
  }

  lemma StuckResult(s: State, limit: nat)
    requires Inv(s, limit) && Stuck(s, limit)
    ensures s.counter == |s.threads| * limit && s.mutex.None?
  {
    HolderRuns(s, limit);
    forall t | 0 <= t < |s.threads| ensures Stored(s.threads[t]) == limit {
      assert ThreadOk(s, limit, t) && !Enabled(s, limit, t);
    }
    SumConstant(Stored, s.threads, limit);
  }

  // Every run that cannot be continued has the one result that the lock is there to give.
  lemma OnlyResult(threads: nat, limit: nat, schedule: seq<nat>)
    requires ValidRun(Init(threads), limit, schedule)
    requires Stuck(Exec(Init(threads), limit, schedule), limit)
    ensures Exec(Init(threads), limit, schedule).counter == threads * limit
    ensures Exec(Init(threads), limit, schedule).mutex.None?
  {
    InitInv(threads, limit);
    RunInv(Init(threads), limit, schedule);
    StuckResult(Exec(Init(threads), limit, schedule), limit);
  }

  // A thread is past its lock and not past its unlock.
  ghost predicate SomebodyInside(threads: seq<Thread>)
  {
    exists u :: 0 <= u < |threads| && !threads[u].pc.Lock?
  }

  // A thread is held up only before its lock, when it has finished or another thread is inside;
  // inside it never waits.
  lemma BlockedExactly(threads: nat, limit: nat, schedule: seq<nat>, t: nat)
    requires ValidRun(Init(threads), limit, schedule) && t < threads
    ensures var s := Exec(Init(threads), limit, schedule);
      && t < |s.threads|
      && (!Enabled(s, limit, t) <==>
            s.threads[t].pc.Lock? && (s.threads[t].done == limit || SomebodyInside(s.threads)))
  {
    InitInv(threads, limit);
    RunInv(Init(threads), limit, schedule);
    var s := Exec(Init(threads), limit, schedule);
    assert ThreadOk(s, limit, t);
    if s.mutex.Some? {
      assert ThreadOk(s, limit, s.mutex.value);
    }
    if u :| 0 <= u < |s.threads| && !s.threads[u].pc.Lock? {
      assert ThreadOk(s, limit, u);
    }
  }

  function Remaining(limit: nat): Thread -> nat
  {
    (th: Thread) => if th.done >= limit then 0
                    else 4 * (limit - th.done)
                          - match th.pc case Lock => 0 case Load => 1 case Store(_) => 2 case Unlock => 3
  }

  lemma RemainingDrops(s: State, limit: nat, t: nat)
    requires Enabled(s, limit, t) && Inv(s, limit)
    ensures Sum(Remaining(limit), Step(s, limit, t).threads) == Sum(Remaining(limit), s.threads) - 1
  {
    assert ThreadOk(s, limit, t);
    var s' := Step(s, limit, t);
    assert s'.threads == s.threads[t := s'.threads[t]];
    SumUpdate(Remaining(limit), s.threads, t, s'.threads[t]);
  }

  // ---- The program itself ----

  class Program {
    var counter: int
    var mutex: Option<nat>
    const threads: array<Thread>

    ghost function View(): State
      reads this, threads
    {
      State(counter, mutex, threads[..])
    }

    constructor (n: nat)
      ensures View() == Init(n) && fresh(threads)
    {
      counter, mutex := 0, None;
      threads := new Thread[n](_ => Thread(0, Lock));
    }

    predicate CanRun(limit: nat, t: nat)
      reads this, threads
      requires t < threads.Length
    {
      threads[t].pc.Lock? ==> threads[t].done < limit && mutex.None?
    }

    method Advance(limit: nat, t: nat)
      requires Enabled(View(), limit, t)
      modifies this, threads
      ensures View() == Step(old(View()), limit, t)
    {
      match threads[t].pc {
        case Lock =>
          mutex := Some(t);
          threads[t] := threads[t].(pc := Load);
        case Load =>
          threads[t] := threads[t].(pc := Store(counter));
        case Store(v) =>
          counter := v + 1;
          threads[t] := threads[t].(pc := Unlock);
        case Unlock =>
          mutex := None;
          threads[t] := Thread(threads[t].done + 1, Lock);
      }
    }
  }

  // main: every schedule terminates, without deadlock, with the same value.
  method RunProgram(n: nat, limit: nat) returns (counter: int)
    ensures counter == n * limit
  {
    var program := new Program(n);
    InitInv(n, limit);
    while exists t :: 0 <= t < program.threads.Length && program.CanRun(limit, t)
      invariant program.threads.Length == n && fresh(program) && fresh(program.threads)
      invariant Inv(program.View(), limit)
      decreases Sum(Remaining(limit), program.View().threads)
    {
      var t :| 0 <= t < program.threads.Length && program.CanRun(limit, t);
      StepInv(program.View(), limit, t);
      RemainingDrops(program.View(), limit, t);
      program.Advance(limit, t);
    }
    ghost var s := program.View();
    forall t: nat ensures !Enabled(s, limit, t) {
      assert t < program.threads.Length ==> !program.CanRun(limit, t);
    }
    StuckResult(s, limit);
    counter := program.counter;
  }
}
