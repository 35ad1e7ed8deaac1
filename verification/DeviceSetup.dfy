// Acquisition, rollback and release of kernel resources in multi_devices.c.
module DeviceSetup {

  datatype Resource = Region | Class | Cdev | Node(minor: nat)

  datatype Event = Acquire(what: Resource) | Release(what: Resource)

  // Which call of my_init fails, if any.
  datatype Failure = Never | AtRegion | AtClass | AtCdev | AtNode(minor: nat)

  datatype Holding = Holding(held: set<Resource>) | Misuse

  // The kernel's rules: nothing is acquired twice or released without being held; classes, cdevs
  // and nodes need the region; nodes need their class.
  predicate Allowed(held: set<Resource>, e: Event)
  {
    match e
    case Acquire(r) =>
      r !in held && (r != Region ==> Region in held) && (r.Node? ==> Class in held)
    case Release(r) =>
      r in held && (r == Region ==> held == {Region}) && (r == Class ==> forall x :: x in held ==> !x.Node?)
  }

  function Held(trace: seq<Event>): Holding
  {
    if trace == [] then Holding({})
    else
      var e := trace[|trace| - 1];
      match Held(trace[..|trace| - 1])
      case Misuse => Misuse
      case Holding(held) =>
        if !Allowed(held, e) then Misuse
        else if e.Acquire? then Holding(held + {e.what}) else Holding(held - {e.what})
  }

  function Nodes(n: nat): (nodes: set<Resource>)
    ensures forall r :: r in nodes <==> r.Node? && r.minor < n
  {
    if n == 0 then {} else Nodes(n - 1) + {Node(n - 1)}
  }

  function Everything(n: nat): set<Resource>
  {
    {Region, Class, Cdev} + Nodes(n)
  }

  // One more call that the rules allow.
  lemma HeldAfter(trace: seq<Event>, e: Event)
    ensures Held(trace).Holding? && Allowed(Held(trace).held, e) ==>
      Held(trace + [e]) == Holding(if e.Acquire? then Held(trace).held + {e.what} else Held(trace).held - {e.what})
  {
    assert (trace + [e])[..|trace|] == trace;
  }

  // ---- The order of calls ----

  const BASE: seq<Event> := [Acquire(Region), Acquire(Class), Acquire(Cdev)]
  const UNDO_BASE: seq<Event> := [Release(Class), Release(Cdev), Release(Region)]

  function Creations(n: nat): seq<Event>
  {
    seq(n, i requires 0 <= i < n => Acquire(Node(i)))
  }

  function DestructionsDown(n: nat): seq<Event>
  {
    seq(n, i requires 0 <= i < n => Release(Node(n - 1 - i)))
  }

  function DestructionsUp(n: nat): seq<Event>
  {
    seq(n, i requires 0 <= i < n => Release(Node(i)))
  }

  function InitTrace(n: nat, failure: Failure): seq<Event>
  {
    match failure
    case AtRegion => []
    case AtClass => [Acquire(Region), Release(Region)]
    case AtCdev => [Acquire(Region), Acquire(Class), Release(Class), Release(Region)]
    case AtNode(i) => if i < n then BASE + Creations(i) + DestructionsDown(i) + UNDO_BASE else BASE + Creations(n)
    case Never => BASE + Creations(n)
  }

  function ExitTrace(n: nat): seq<Event>
  {
    DestructionsUp(n) + UNDO_BASE
  }

  predicate Succeeds(n: nat, failure: Failure)
  {
    failure.Never? || (failure.AtNode? && failure.minor >= n)
  }

  // The resources in the order in which they are asked for.
  function Nth(k: nat): Resource
  {
    if k == 0 then Region else if k == 1 then Class else if k == 2 then Cdev else Node(k - 3)
  }

  // How many of them are acquired before the failing call, or in all.
  function Acquired(n: nat, failure: Failure): nat
  {
    match failure
    case AtRegion => 0
    case AtClass => 1
    case AtCdev => 2
    case AtNode(i) => if i < n then 3 + i else 3 + n
    case Never => 3 + n
  }

  // my_init asks for everything in order up to the failing call; from there on it only releases,
  // as often as it has acquired, the devices in the opposite order first.
  lemma InitOrder(n: nat, failure: Failure, k: nat)
    ensures var trace, a := InitTrace(n, failure), Acquired(n, failure);
      && |trace| == (if Succeeds(n, failure) then a else 2 * a)
      && (k < a ==> trace[k] == Acquire(Nth(k)))
      && (a <= k < |trace| ==> trace[k].Release? && (k < 2 * a - 3 ==> trace[k] == Release(Nth(2 * a - 1 - k))))
  {
    if failure.AtNode? && failure.minor < n {
      RollbackAt(failure.minor, k);
    } else if failure.AtCdev? {
      assert InitTrace(n, failure) == [Acquire(Region), Acquire(Class), Release(Class), Release(Region)];
    }
  }

  lemma RollbackAt(i: nat, k: nat)
    ensures var trace := BASE + Creations(i) + DestructionsDown(i) + UNDO_BASE;
      && |trace| == 2 * i + 6
      && (k < i + 3 ==> trace[k] == Acquire(Nth(k)))
      && (i + 3 <= k < 2 * i + 3 ==> trace[k] == Release(Node(2 * i + 2 - k)))
      && (2 * i + 3 <= k < 2 * i + 6 ==> trace[k].Release?)
  {
  }

  // my_exit releases the devices in the order of their minors and then the rest.
  lemma ExitOrder(n: nat, k: nat)
    ensures |ExitTrace(n)| == n + 3
    ensures k < n ==> ExitTrace(n)[k] == Release(Node(k))
    ensures ExitTrace(n)[n..] == [Release(Class), Release(Cdev), Release(Region)]
  {
    assert ExitTrace(n)[n..] == UNDO_BASE;
  }

  // ---- The rules are kept and nothing is left over ----

  lemma NodeHeld(trace: seq<Event>, n: nat)
    requires Held(trace) == Holding(Everything(n))
    ensures Held(trace + [Acquire(Node(n))]) == Holding(Everything(n + 1))
  {
    HeldAfter(trace, Acquire(Node(n)));
    assert Everything(n) + {Node(n)} == Everything(n + 1);
  }

  lemma {:induction false} CreationsHeld(trace: seq<Event>, n: nat)
    requires Held(trace) == Holding(Everything(0))
    ensures Held(trace + Creations(n)) == Holding(Everything(n))
  {
    if n == 0 {
      assert trace + Creations(0) == trace;
    } else {
      CreationsHeld(trace, n - 1);
      NodeHeld(trace + Creations(n - 1), n - 1);
      assert trace + Creations(n) == trace + Creations(n - 1) + [Acquire(Node(n - 1))];
    }
  }

  lemma {:induction false} DestructionsDownHeld(trace: seq<Event>, n: nat)
    requires Held(trace) == Holding(Everything(n))
    ensures Held(trace + DestructionsDown(n)) == Holding(Everything(0))
    decreases n
  {
    if n == 0 {
      assert trace + DestructionsDown(0) == trace;
    } else {
      HeldAfter(trace, Release(Node(n - 1)));
      assert Everything(n) - {Node(n - 1)} == Everything(n - 1);
      DestructionsDownHeld(trace + [Release(Node(n - 1))], n - 1);
      assert trace + DestructionsDown(n) == trace + [Release(Node(n - 1))] + DestructionsDown(n - 1);
    }
  }

  lemma {:induction false} DestructionsUpHeld(trace: seq<Event>, n: nat, k: nat)
    requires Held(trace) == Holding(Everything(n)) && k <= n
    ensures Held(trace + DestructionsUp(k)) == Holding(Everything(n) - Nodes(k))
  {
    if k == 0 {
      assert trace + DestructionsUp(0) == trace && Everything(n) - {} == Everything(n);
    } else {
      DestructionsUpHeld(trace, n, k - 1);
      HeldAfter(trace + DestructionsUp(k - 1), Release(Node(k - 1)));
      assert trace + DestructionsUp(k) == trace + DestructionsUp(k - 1) + [Release(Node(k - 1))];
      assert Everything(n) - Nodes(k - 1) - {Node(k - 1)} == Everything(n) - Nodes(k);
    }
  }

  lemma RegionHeld(trace: seq<Event>)
    requires Held(trace) == Holding({})
    ensures Held(trace + [Acquire(Region)]) == Holding({Region})
  {
    HeldAfter(trace, Acquire(Region));
    assert {} + {Region} == {Region};
  }

  lemma ClassHeld(trace: seq<Event>)
    requires Held(trace) == Holding({})
    ensures Held(trace + [Acquire(Region), Acquire(Class)]) == Holding({Region, Class})
  {
    RegionHeld(trace);
    HeldAfter(trace + [Acquire(Region)], Acquire(Class));
    assert {Region} + {Class} == {Region, Class};
    assert trace + [Acquire(Region), Acquire(Class)] == trace + [Acquire(Region)] + [Acquire(Class)];
  }

  lemma BaseHeld(trace: seq<Event>)
    requires Held(trace) == Holding({})
    ensures Held(trace + BASE) == Holding(Everything(0))
  {
    var t := trace + [Acquire(Region), Acquire(Class)];
    ClassHeld(trace);
    HeldAfter(t, Acquire(Cdev));
    assert {Region, Class} + {Cdev} == Everything(0);
    assert trace + BASE == t + [Acquire(Cdev)];
  }

  lemma UndoBaseHeld(trace: seq<Event>)
    requires Held(trace) == Holding(Everything(0))
    ensures Held(trace + UNDO_BASE) == Holding({})
  {
    var t1 := trace + [Release(Class)];
    var t2 := t1 + [Release(Cdev)];
    HeldAfter(trace, Release(Class));
    assert Everything(0) - {Class} == {Region, Cdev};
    HeldAfter(t1, Release(Cdev));
    assert {Region, Cdev} - {Cdev} == {Region};
    HeldAfter(t2, Release(Region));
    assert {Region} - {Region} == {};
    assert t2 + [Release(Region)] == trace + UNDO_BASE;
  }

  lemma EarlyFailureHeld(trace: seq<Event>, n: nat, failure: Failure)
    requires Held(trace) == Holding({}) && (failure.AtClass? || failure.AtCdev?)
    ensures Held(trace + InitTrace(n, failure)) == Holding({})
  {
    if failure.AtClass? {
      RegionHeld(trace);
      HeldAfter(trace + [Acquire(Region)], Release(Region));
      assert trace + InitTrace(n, failure) == trace + [Acquire(Region)] + [Release(Region)];
      assert {Region} - {Region} == {};
    } else {
      var t := trace + [Acquire(Region), Acquire(Class)];
      ClassHeld(trace);
      HeldAfter(t, Release(Class));
      assert {Region, Class} - {Class} == {Region};
      HeldAfter(t + [Release(Class)], Release(Region));
      assert {Region} - {Region} == {};
      assert trace + InitTrace(n, failure) == t + [Release(Class)] + [Release(Region)];
    }
  }

  // However many devices there are and wherever my_init fails, it breaks no rule, its rollback
  // releases exactly what it had acquired, and on success everything is held.
  lemma InitLeavesNothingBehind(trace: seq<Event>, n: nat, failure: Failure)
    requires Held(trace) == Holding({})
    ensures Held(trace + InitTrace(n, failure)) == Holding(if Succeeds(n, failure) then Everything(n) else {})
  {
    if failure.AtRegion? {
      assert trace + [] == trace;
    } else if failure.AtClass? || failure.AtCdev? {
      EarlyFailureHeld(trace, n, failure);
    } else if Succeeds(n, failure) {
      SuccessHeld(trace, n);
    } else {
      RollbackHeld(trace, failure.minor);
      assert InitTrace(n, failure)
          == BASE + Creations(failure.minor) + DestructionsDown(failure.minor) + UNDO_BASE;
    }
  }

  lemma SuccessHeld(trace: seq<Event>, n: nat)
    requires Held(trace) == Holding({})
    ensures Held(trace + (BASE + Creations(n))) == Holding(Everything(n))
  {
    BaseHeld(trace);
    CreationsHeld(trace + BASE, n);
    assert trace + (BASE + Creations(n)) == trace + BASE + Creations(n);
  }

  lemma RollbackHeld(trace: seq<Event>, i: nat)
    requires Held(trace) == Holding({})
    ensures Held(trace + (BASE + Creations(i) + DestructionsDown(i) + UNDO_BASE)) == Holding({})
  {
    var up := trace + (BASE + Creations(i));
    SuccessHeld(trace, i);
    DestructionsDownHeld(up, i);
    UndoBaseHeld(up + DestructionsDown(i));
    assert trace + (BASE + Creations(i) + DestructionsDown(i) + UNDO_BASE) == up + DestructionsDown(i) + UNDO_BASE;
  }

  // my_exit after a successful my_init releases everything within the rules.
  lemma ExitLeavesNothingBehind(trace: seq<Event>, n: nat)
    requires Held(trace) == Holding(Everything(n))
    ensures Held(trace + ExitTrace(n)) == Holding({})
  {
    DestructionsUpHeld(trace, n, n);
    assert Everything(n) - Nodes(n) == Everything(0);
    UndoBaseHeld(trace + DestructionsUp(n));
    assert trace + ExitTrace(n) == trace + DestructionsUp(n) + UNDO_BASE;
  }

  lemma InitTraceFromBase(trace: seq<Event>, n: nat, failure: Failure)
    requires failure.Never? || failure.AtNode?
    ensures Succeeds(n, failure) ==> trace + InitTrace(n, failure) == trace + BASE + Creations(n)
    ensures !Succeeds(n, failure) ==>
      trace + InitTrace(n, failure)
      == trace + BASE + (Creations(failure.minor) + DestructionsDown(failure.minor) + UNDO_BASE)
  {
    if Succeeds(n, failure) {
      assert trace + (BASE + Creations(n)) == trace + BASE + Creations(n);
    } else {
      var i := failure.minor;
      assert trace + (BASE + Creations(i) + DestructionsDown(i) + UNDO_BASE)
          == trace + BASE + (Creations(i) + DestructionsDown(i) + UNDO_BASE);
    }
  }

  // ---- The module ----

  class Module {
    var trace: seq<Event>

    constructor ()
      ensures trace == []
    {
      trace := [];
    }

    method Do(e: Event)
      modifies this
      ensures trace == old(trace) + [e]
    {
      trace := trace + [e];
    }

    method UndoBase()
      modifies this
      ensures trace == old(trace) + UNDO_BASE
    {
      Do(Release(Class));
      Do(Release(Cdev));
      Do(Release(Region));
    }

    // my_init up to the cdev, each failure undoing what came before it.
    method AcquireBase(failure: Failure) returns (ok: bool)
      modifies this
      ensures ok <==> failure.Never? || failure.AtNode?
      ensures trace == old(trace) + (if ok then BASE else InitTrace(0, failure))
    {
      if failure == AtRegion { return false; }
      Do(Acquire(Region));
      if failure == AtClass {
        Do(Release(Region));
        return false;
      }
      Do(Acquire(Class));
      if failure == AtCdev {
        Do(Release(Class));
        Do(Release(Region));
        return false;
      }
      Do(Acquire(Cdev));
      ok := true;
    }

    method Init(n: nat, failure: Failure) returns (ok: bool)
      modifies this
      ensures ok <==> Succeeds(n, failure)
      ensures trace == old(trace) + InitTrace(n, failure)
    {
      ok := AcquireBase(failure);
      if ok {
        ok := CreateNodes(n, failure);
        InitTraceFromBase(old(trace), n, failure);
      }
    }

    // The loop of device_create calls, with its rollback.
    method CreateNodes(n: nat, failure: Failure) returns (ok: bool)
      requires failure.Never? || failure.AtNode?
      modifies this
      ensures ok <==> Succeeds(n, failure)
      ensures trace == old(trace) + (if ok then Creations(n)
                                     else Creations(failure.minor) + DestructionsDown(failure.minor) + UNDO_BASE)
    {
      var i := 0;
      while i < n
        invariant 0 <= i <= n && trace == old(trace) + Creations(i)
        invariant failure.AtNode? ==> failure.minor >= i
      {
        if failure == AtNode(i) {
          DestroyDown(i);
          UndoBase();
          return false;
        }
        Do(Acquire(Node(i)));
        i := i + 1;
        assert Creations(i) == Creations(i - 1) + [Acquire(Node(i - 1))];
      }
      ok := true;
    }

    // while (--i >= 0) device_destroy(...)
    method DestroyDown(n: nat)
      modifies this
      ensures trace == old(trace) + DestructionsDown(n)
    {
      var i := n;
      while i > 0
        invariant 0 <= i <= n && trace == old(trace) + DestructionsDown(n)[..n - i]
      {
        i := i - 1;
        Do(Release(Node(i)));
        assert DestructionsDown(n)[..n - i] == DestructionsDown(n)[..n - i - 1] + [Release(Node(i))];
      }
    }

    method Exit(n: nat)
      modifies this
      ensures trace == old(trace) + ExitTrace(n)
    {
      var i := 0;
      while i < n
        invariant 0 <= i <= n && trace == old(trace) + DestructionsUp(i)
      {
        Do(Release(Node(i)));
        i := i + 1;
        assert DestructionsUp(i) == DestructionsUp(i - 1) + [Release(Node(i - 1))];
      }
      UndoBase();
    }
  }

  // Loading and, if that succeeded, unloading the module leaves nothing registered.
  method LoadAndUnload(n: nat, failure: Failure) returns (trace: seq<Event>)
    ensures Held(trace) == Holding({})
    ensures forall r :: multiset(trace)[Acquire(r)] == multiset(trace)[Release(r)]
  {
    var m := new Module();
    var ok := m.Init(n, failure);
    InitLeavesNothingBehind([], n, failure);
    if ok {
      ExitLeavesNothingBehind(m.trace, n);
      m.Exit(n);
    }
    trace := m.trace;
    forall r ensures multiset(trace)[Acquire(r)] == multiset(trace)[Release(r)] {
      Balance(trace, r);
    }
  }

  lemma {:induction false} Balance(trace: seq<Event>, r: Resource)
    requires Held(trace).Holding?
    ensures multiset(trace)[Acquire(r)] == multiset(trace)[Release(r)] + if r in Held(trace).held then 1 else 0
  {
    if trace != [] {
      var n := |trace| - 1;
      assert trace == trace[..n] + [trace[n]];
      Balance(trace[..n], r);
    }
  }
}
