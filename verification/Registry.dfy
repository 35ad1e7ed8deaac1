// The three client tables of the chat servers as values: swap-with-last (server.c), shift-left
// (server_tls.c) and slots with an active flag (server_tls_final.c). All three implement the
// same abstract collection.
module Registry {
  import opened Counting
  import opened TlsModel
  import PlainModel
  import PlainInvariants

  datatype Op = Add(who: nat) | Remove(who: nat)

  // ---- The abstract collection ----

  function BagApply(bag: multiset<nat>, op: Op, capacity: nat): multiset<nat>
  {
    match op
    case Add(x) => if |bag| < capacity then bag + multiset{x} else bag
    case Remove(x) => bag - multiset{x}
  }

  function BagRun(bag: multiset<nat>, ops: seq<Op>, capacity: nat): multiset<nat>
    decreases |ops|
  {
    if ops == [] then bag else BagRun(BagApply(bag, ops[0], capacity), ops[1..], capacity)
  }

  // ---- Tables ----

  function IndexOf(table: seq<nat>, x: nat): (i: nat)
    requires x in table
    ensures i < |table| && table[i] == x && x !in table[..i]
  {
    if table[0] == x then 0 else 1 + IndexOf(table[1..], x)
  }

  function SwapDelete(table: seq<nat>, x: nat): seq<nat>
  {
    if x in table then PlainModel.SwapRemove(table, IndexOf(table, x)) else table
  }

  function ShiftDelete(table: seq<nat>, x: nat): seq<nat>
  {
    if x in table then table[..IndexOf(table, x)] + table[IndexOf(table, x) + 1..] else table
  }

  function SwapApply(table: seq<nat>, op: Op, capacity: nat): seq<nat>
  {
    match op
    case Add(x) => if |table| < capacity then table + [x] else table
    case Remove(x) => SwapDelete(table, x)
  }

  // server_tls.c does not check for room.
  function ShiftApply(table: seq<nat>, op: Op): seq<nat>
  {
    match op
    case Add(x) => table + [x]
    case Remove(x) => ShiftDelete(table, x)
  }

  function LowestInactive(slots: seq<Slot>): (i: nat)
    ensures i <= |slots| && (forall j :: 0 <= j < i ==> slots[j].active) && (i < |slots| ==> !slots[i].active)
  {
    if slots == [] || !slots[0].active then 0 else 1 + LowestInactive(slots[1..])
  }

  function SlotOf(slots: seq<Slot>, x: nat): (i: nat)
    ensures i <= |slots| && (forall j :: 0 <= j < i ==> slots[j] != Slot(x, true))
    ensures i < |slots| ==> slots[i] == Slot(x, true)
  {
    if slots == [] || slots[0] == Slot(x, true) then 0 else 1 + SlotOf(slots[1..], x)
  }

  function SlotApply(slots: seq<Slot>, op: Op): seq<Slot>
  {
    match op
    case Add(x) => if LowestInactive(slots) < |slots| then slots[LowestInactive(slots) := Slot(x, true)] else slots
    case Remove(x) => if SlotOf(slots, x) < |slots| then slots[SlotOf(slots, x) := Slot(NULL, false)] else slots
  }

  function SwapRun(table: seq<nat>, ops: seq<Op>, capacity: nat): seq<nat>
    decreases |ops|
  {
    if ops == [] then table else SwapRun(SwapApply(table, ops[0], capacity), ops[1..], capacity)
  }

  function ShiftRun(table: seq<nat>, ops: seq<Op>): seq<nat>
    decreases |ops|
  {
    if ops == [] then table else ShiftRun(ShiftApply(table, ops[0]), ops[1..])
  }

  function SlotRun(slots: seq<Slot>, ops: seq<Op>): seq<Slot>
    decreases |ops|
  {
    if ops == [] then slots else SlotRun(SlotApply(slots, ops[0]), ops[1..])
  }

  function InSlot(slot: Slot): multiset<nat> { if slot.active then multiset{slot.ssl} else multiset{} }

  ghost function Members(slots: seq<Slot>): multiset<nat> { Bag(InSlot, slots) }

  // ---- One operation ----

  lemma SwapStep(table: seq<nat>, op: Op, capacity: nat)
    ensures multiset(SwapApply(table, op, capacity)) == BagApply(multiset(table), op, capacity)
  {
    if op.Remove? && op.who in table {
      PlainInvariants.SwapRemoveBag(table, IndexOf(table, op.who));
    }
  }

  lemma ShiftStep(table: seq<nat>, op: Op, capacity: nat)
    requires op.Add? ==> |table| < capacity
    ensures multiset(ShiftApply(table, op)) == BagApply(multiset(table), op, capacity)
  {
    if op.Remove? && op.who in table {
      var i := IndexOf(table, op.who);
      assert table == table[..i] + [table[i]] + table[i + 1..];
    }
  }

  lemma {:induction false} MembersCount(slots: seq<Slot>)
    ensures |Members(slots)| <= |slots|
    ensures |Members(slots)| == |slots| <==> LowestInactive(slots) == |slots|
  {
    if slots != [] {
      MembersCount(slots[1..]);
    }
  }

  lemma {:induction false} MemberHasSlot(slots: seq<Slot>, x: nat)
    ensures x in Members(slots) <==> SlotOf(slots, x) < |slots|
  {
    if slots != [] {
      MemberHasSlot(slots[1..], x);
    }
  }

  lemma SlotStep(slots: seq<Slot>, op: Op)
    ensures |SlotApply(slots, op)| == |slots|
    ensures Members(SlotApply(slots, op)) == BagApply(Members(slots), op, |slots|)
  {
    match op {
      case Add(x) => SlotAddStep(slots, x);
      case Remove(x) => SlotRemoveStep(slots, x);
    }
  }

  lemma SlotAddStep(slots: seq<Slot>, x: nat)
    ensures Members(SlotApply(slots, Add(x))) == BagApply(Members(slots), Add(x), |slots|)
  {
    MembersCount(slots);
    var i := LowestInactive(slots);
    if i < |slots| {
      BagUpdate(InSlot, slots, i, Slot(x, true));
      assert Members(slots[i := Slot(x, true)]) + multiset{} == Members(slots) + multiset{x};
    }
  }

  lemma SlotRemoveStep(slots: seq<Slot>, x: nat)
    ensures Members(SlotApply(slots, Remove(x))) == BagApply(Members(slots), Remove(x), |slots|)
  {
    MemberHasSlot(slots, x);
    var i := SlotOf(slots, x);
    if i < |slots| {
      BagUpdate(InSlot, slots, i, Slot(NULL, false));
      Cancel(Members(slots[i := Slot(NULL, false)]), Members(slots) - multiset{x}, multiset{x});
    }
  }

  // ---- Every sequence of operations ----

  ghost predicate NeverFull(bag: multiset<nat>, ops: seq<Op>, capacity: nat)
    decreases |ops|
  {
    ops == [] || ((ops[0].Add? ==> |bag| < capacity) && NeverFull(BagApply(bag, ops[0], capacity), ops[1..], capacity))
  }

  lemma {:induction false} SwapRefines(table: seq<nat>, ops: seq<Op>, capacity: nat)
    ensures multiset(SwapRun(table, ops, capacity)) == BagRun(multiset(table), ops, capacity)
    decreases |ops|
  {
    if ops != [] {
      SwapStep(table, ops[0], capacity);
      SwapRefines(SwapApply(table, ops[0], capacity), ops[1..], capacity);
    }
  }

  lemma {:induction false} SlotRefines(slots: seq<Slot>, ops: seq<Op>)
    ensures Members(SlotRun(slots, ops)) == BagRun(Members(slots), ops, |slots|)
    decreases |ops|
  {
    if ops != [] {
      SlotStep(slots, ops[0]);
      SlotRefines(SlotApply(slots, ops[0]), ops[1..]);
    }
  }

  lemma {:induction false} ShiftRefines(table: seq<nat>, ops: seq<Op>, capacity: nat)
    requires NeverFull(multiset(table), ops, capacity)
    ensures multiset(ShiftRun(table, ops)) == BagRun(multiset(table), ops, capacity)
    decreases |ops|
  {
    if ops != [] {
      ShiftStep(table, ops[0], capacity);
      ShiftRefines(ShiftApply(table, ops[0]), ops[1..], capacity);
    }
  }

  // From empty tables of the same size, the swapping and the slot table always hold the same
  // members, and the shifting table does as long as nobody is added to a full one.
  lemma TablesAgree(ops: seq<Op>, capacity: nat)
    ensures var members := multiset(SwapRun([], ops, capacity));
      && Members(SlotRun(Init(capacity).slots, ops)) == members
      && (NeverFull(multiset{}, ops, capacity) ==> multiset(ShiftRun([], ops)) == members)
  {
    BagEmpty(InSlot, Init(capacity).slots);
    SwapRefines([], ops, capacity);
    SlotRefines(Init(capacity).slots, ops);
    if NeverFull(multiset{}, ops, capacity) {
      ShiftRefines([], ops, capacity);
    }
  }

  // Removals take only members.
  ghost predicate RemovesMembers(bag: multiset<nat>, ops: seq<Op>, capacity: nat)
    decreases |ops|
  {
    ops == []
    || ((ops[0].Remove? ==> ops[0].who in bag) && RemovesMembers(BagApply(bag, ops[0], capacity), ops[1..], capacity))
  }

  // While there is room for whoever is added and only members are removed, a client is a member as
  // often as it has been added and not removed.
  lemma {:induction false} MembersAreAddsLessRemovals(bag: multiset<nat>, ops: seq<Op>, capacity: nat, x: nat)
    requires NeverFull(bag, ops, capacity) && RemovesMembers(bag, ops, capacity)
    ensures BagRun(bag, ops, capacity)[x] + multiset(ops)[Remove(x)] == bag[x] + multiset(ops)[Add(x)]
    decreases |ops|
  {
    if ops != [] {
      assert ops == [ops[0]] + ops[1..];
      MembersAreAddsLessRemovals(BagApply(bag, ops[0], capacity), ops[1..], capacity, x);
    }
  }

  // ---- Arrival order ----

  predicate Increasing(table: seq<nat>)
  {
    forall i, j :: 0 <= i < j < |table| ==> table[i] < table[j]
  }

  // Clients are numbered as they arrive, from `next` on.
  ghost predicate NumberedFrom(ops: seq<Op>, next: nat)
    decreases |ops|
  {
    ops == [] || (if ops[0].Add? then ops[0].who == next && NumberedFrom(ops[1..], next + 1)
                  else NumberedFrom(ops[1..], next))
  }

  // The shifting table loses the first entry of x, and the rest keeps its order.
  lemma ShiftDeleteAt(table: seq<nat>, x: nat, k: nat)
    requires x in table && k + 1 < |table|
    ensures |ShiftDelete(table, x)| == |table| - 1
    ensures ShiftDelete(table, x)[k] == if x in table[..k + 1] then table[k + 1] else table[k]
  {
    var d := IndexOf(table, x);
    assert d <= k ==> table[..k + 1][d] == x;
    assert forall j :: 0 <= j < d ==> table[j] == table[..d][j];
  }

  lemma {:induction false} ShiftKeepsOrder(table: seq<nat>, ops: seq<Op>, next: nat)
    requires Increasing(table) && (forall i :: 0 <= i < |table| ==> table[i] < next) && NumberedFrom(ops, next)
    ensures Increasing(ShiftRun(table, ops))
    decreases |ops|
  {
    if ops != [] {
      ShiftKeepsOrder(ShiftApply(table, ops[0]), ops[1..], if ops[0].Add? then next + 1 else next);
    }
  }

  // The shifting table lists its clients in the order they arrived, whatever is removed.
  lemma ShiftTableInArrivalOrder(ops: seq<Op>)
    requires NumberedFrom(ops, 0)
    ensures Increasing(ShiftRun([], ops))
  {
    ShiftKeepsOrder([], ops, 0);
  }

  // Removing x breaks the arrival order unless x is absent or one of the last two entries.
  predicate NearEnd(table: seq<nat>, x: nat)
  {
    x in table ==> IndexOf(table, x) + 2 >= |table|
  }

  lemma SwapDeleteAt(table: seq<nat>, x: nat, k: nat)
    requires x in table && k + 1 < |table|
    ensures |SwapDelete(table, x)| == |table| - 1
    ensures SwapDelete(table, x)[k] == if k == IndexOf(table, x) then table[|table| - 1] else table[k]
  {
  }

  // The swapping table stays in arrival order over one removal exactly if that entry is near the
  // end: otherwise the last entry overtakes the one after the gap.
  lemma SwapDeleteKeepsOrder(table: seq<nat>, x: nat)
    requires Increasing(table)
    ensures Increasing(SwapDelete(table, x)) <==> NearEnd(table, x)
  {
    if x in table {
      var n, d := |table| - 1, IndexOf(table, x);
      forall k | 0 <= k < n
        ensures |SwapDelete(table, x)| == n && SwapDelete(table, x)[k] == if k == d then table[n] else table[k]
      {
        SwapDeleteAt(table, x, k);
      }
      if d + 2 < |table| {
        assert SwapDelete(table, x)[d] == table[n] > table[d + 1] == SwapDelete(table, x)[d + 1];
      }
    }
  }

  // The table is in arrival order after each operation of a run.
  ghost predicate OrderedThroughout(table: seq<nat>, ops: seq<Op>, capacity: nat)
    decreases |ops|
  {
    Increasing(table) && (ops == [] || OrderedThroughout(SwapApply(table, ops[0], capacity), ops[1..], capacity))
  }

  // Each removal of a run takes an entry near the end of the table as it is then.
  ghost predicate RemovesNearEnd(table: seq<nat>, ops: seq<Op>, capacity: nat)
    decreases |ops|
  {
    ops == []
    || ((ops[0].Remove? ==> NearEnd(table, ops[0].who))
        && RemovesNearEnd(SwapApply(table, ops[0], capacity), ops[1..], capacity))
  }

  lemma SwapAddKeepsOrder(table: seq<nat>, next: nat, capacity: nat)
    requires Increasing(table) && (forall i :: 0 <= i < |table| ==> table[i] < next)
    ensures Increasing(SwapApply(table, Add(next), capacity))
  {
  }

  lemma {:induction false} SwapKeepsOrder(table: seq<nat>, ops: seq<Op>, capacity: nat, next: nat)
    requires Increasing(table) && (forall i :: 0 <= i < |table| ==> table[i] < next) && NumberedFrom(ops, next)
    ensures OrderedThroughout(table, ops, capacity) <==> RemovesNearEnd(table, ops, capacity)
    decreases |ops|
  {
    if ops != [] {
      var table', next' := SwapApply(table, ops[0], capacity), if ops[0].Add? then next + 1 else next;
      if ops[0].Add? {
        SwapAddKeepsOrder(table, next, capacity);
      } else {
        SwapDeleteKeepsOrder(table, ops[0].who);
      }
      if Increasing(table') {
        SwapKeepsOrder(table', ops[1..], capacity, next');
      }
    }
  }

  // Over any sequence of operations, the swapping table is always in arrival order exactly if
  // every removal takes an absent client or one of the last two entries.
  lemma SwapTableInArrivalOrder(ops: seq<Op>, capacity: nat)
    requires NumberedFrom(ops, 0)
    ensures OrderedThroughout([], ops, capacity) <==> RemovesNearEnd([], ops, capacity)
  {
    SwapKeepsOrder([], ops, capacity, 0);
  }

  // A run that breaks the order: remove the first of three.
  lemma SwapTableLosesOrder()
    ensures exists ops :: NumberedFrom(ops, 0) && !Increasing(SwapRun([], ops, 3))
  {
    var ops1, ops2, ops3 := [Add(1), Add(2), Remove(0)], [Add(2), Remove(0)], [Remove(0)];
    var ops := [Add(0)] + ops1;
    assert ops[1..] == ops1 && ops1[1..] == ops2 && ops2[1..] == ops3 && ops3[1..] == [];
    assert NumberedFrom(ops3, 3) && NumberedFrom(ops2, 2) && NumberedFrom(ops1, 1) && NumberedFrom(ops, 0);
    assert IndexOf([0, 1, 2], 0) == 0;
    assert SwapApply([0, 1, 2], Remove(0), 3) == [2, 1];
    assert SwapRun([0, 1, 2], ops3, 3) == [2, 1];
    assert SwapRun([0, 1], ops2, 3) == [2, 1];
    assert SwapRun([0], ops1, 3) == [2, 1];
    assert SwapRun([], ops, 3) == [2, 1];
    assert [2, 1][0] > [2, 1][1];
  }

  // ---- Broadcast ----

  datatype Packet = Packet(to: nat, text: string)

  function Packets(table: seq<nat>, sender: nat, text: string): seq<Packet>
  {
    if table == [] then []
    else
      var last := table[|table| - 1];
      Packets(table[..|table| - 1], sender, text) + (if last != sender then [Packet(last, text)] else [])
  }

  function SlotPackets(slots: seq<Slot>, sender: nat, text: string): seq<Packet>
  {
    if slots == [] then []
    else
      var last := slots[|slots| - 1];
      SlotPackets(slots[..|slots| - 1], sender, text)
      + (if last.active && last.ssl != sender then [Packet(last.ssl, text)] else [])
  }

  // How often a broadcast of `text` by `sender` to these members sends the packet p.
  function Copies(members: multiset<nat>, sender: nat, text: string, p: Packet): nat
  {
    if p.text == text && p.to != sender then members[p.to] else 0
  }

  // Exactly this text goes exactly to the entries other than the sender's, once for each.
  lemma {:induction false} PacketsExactly(table: seq<nat>, sender: nat, text: string)
    ensures forall p :: multiset(Packets(table, sender, text))[p] == Copies(multiset(table), sender, text, p)
    ensures |Packets(table, sender, text)| == |table| - multiset(table)[sender]
  {
    if table != [] {
      var n := |table| - 1;
      assert table == table[..n] + [table[n]];
      PacketsExactly(table[..n], sender, text);
    }
  }

  // The receivers come in table order.
  lemma {:induction false} PacketsInOrder(table: seq<nat>, sender: nat, text: string) returns (places: seq<nat>)
    ensures |places| == |Packets(table, sender, text)| && Increasing(places)
    ensures forall k :: 0 <= k < |places| ==>
      places[k] < |table| && table[places[k]] == Packets(table, sender, text)[k].to
  {
    if table == [] {
      places := [];
    } else {
      var n := |table| - 1;
      places := PacketsInOrder(table[..n], sender, text);
      if table[n] != sender {
        places := places + [n];
      }
    }
  }

  // The SSL objects of the active slots, in slot order.
  function ActiveObjects(slots: seq<Slot>): seq<nat>
  {
    if slots == [] then []
    else
      var last := slots[|slots| - 1];
      ActiveObjects(slots[..|slots| - 1]) + (if last.active then [last.ssl] else [])
  }

  lemma PacketsAppend(table: seq<nat>, x: nat, sender: nat, text: string)
    ensures Packets(table + [x], sender, text)
         == Packets(table, sender, text) + if x != sender then [Packet(x, text)] else []
  {
    assert (table + [x])[..|table|] == table;
  }

  // A slot table broadcasts as the list of its active objects does.
  lemma {:induction false} SlotPacketsAreActive(slots: seq<Slot>, sender: nat, text: string)
    ensures SlotPackets(slots, sender, text) == Packets(ActiveObjects(slots), sender, text)
    ensures multiset(ActiveObjects(slots)) == Members(slots)
  {
    if slots != [] {
      var n := |slots| - 1;
      assert slots == slots[..n] + [slots[n]];
      BagAppend(InSlot, slots[..n], slots[n]);
      SlotPacketsAreActive(slots[..n], sender, text);
      PacketsAppend(ActiveObjects(slots[..n]), slots[n].ssl, sender, text);
      if !slots[n].active {
        assert ActiveObjects(slots) == ActiveObjects(slots[..n]);
      }
    }
  }

  lemma SlotPacketsExactly(slots: seq<Slot>, sender: nat, text: string)
    ensures forall p :: multiset(SlotPackets(slots, sender, text))[p] == Copies(Members(slots), sender, text, p)
    ensures |SlotPackets(slots, sender, text)| == |Members(slots)| - Members(slots)[sender]
  {
    SlotPacketsAreActive(slots, sender, text);
    PacketsExactly(ActiveObjects(slots), sender, text);
  }

  // After any operations, all three tables send the same packets: this text, to each client once
  // for each time it is a member, and never to the sender.
  lemma BroadcastsAgree(ops: seq<Op>, capacity: nat, sender: nat, text: string)
    ensures var members := BagRun(multiset{}, ops, capacity);
      var swap := multiset(Packets(SwapRun([], ops, capacity), sender, text));
      var slot := multiset(SlotPackets(SlotRun(Init(capacity).slots, ops), sender, text));
      && (forall p :: swap[p] == Copies(members, sender, text, p))
      && slot == swap
      && (NeverFull(multiset{}, ops, capacity) ==> multiset(Packets(ShiftRun([], ops), sender, text)) == swap)
  {
    TablesAgree(ops, capacity);
    SwapRefines([], ops, capacity);
    var members := BagRun(multiset{}, ops, capacity);
    PacketsExactly(SwapRun([], ops, capacity), sender, text);
    PacketsExactly(ShiftRun([], ops), sender, text);
    SlotPacketsExactly(SlotRun(Init(capacity).slots, ops), sender, text);
    var swap := multiset(Packets(SwapRun([], ops, capacity), sender, text));
    SamePackets(multiset(SlotPackets(SlotRun(Init(capacity).slots, ops), sender, text)), swap, members, sender, text);
    if NeverFull(multiset{}, ops, capacity) {
      SamePackets(multiset(Packets(ShiftRun([], ops), sender, text)), swap, members, sender, text);
    }
  }

  lemma SamePackets(a: multiset<Packet>, b: multiset<Packet>, members: multiset<nat>, sender: nat, text: string)
    requires forall p :: a[p] == Copies(members, sender, text, p)
    requires forall p :: b[p] == Copies(members, sender, text, p)
    ensures a == b
  {
    forall p ensures a[p] == b[p] {
      assert a[p] == Copies(members, sender, text, p);
    }
  }
}
