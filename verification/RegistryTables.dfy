// The client tables of the three chat servers as the C code keeps them: arrays updated in place.
// Each operation is one critical section. wire collects what send and SSL_write are given.
module RegistryTables {
  import opened Registry
  import opened TlsModel
  import PlainModel

  // assignment9/chat_app/server.c
  class SwapTable {
    const clients: array<nat>
    var count: nat
    var wire: seq<Packet>

    ghost predicate Valid()
      reads this
    {
      count <= clients.Length
    }

    ghost function Contents(): seq<nat>
      reads this, clients
      requires Valid()
    {
      clients[..count]
    }

    constructor (capacity: nat)
      ensures Valid() && Contents() == [] && clients.Length == capacity && wire == [] && fresh(clients)
    {
      clients := new nat[capacity](_ => 0);
      count, wire := 0, [];
    }

    method Add(sock: nat) returns (added: bool)
      requires Valid()
      modifies this`count, clients
      ensures Valid() && Contents() == SwapApply(old(Contents()), Registry.Add(sock), clients.Length)
      ensures added <==> old(count) < clients.Length
    {
      added := count < clients.Length;
      if added {
        clients[count] := sock;
        count := count + 1;
        assert clients[..count - 1] == old(clients[..count]);
      }
    }

    method Remove(sock: nat)
      requires Valid()
      modifies this`count, clients
      ensures Valid() && Contents() == SwapApply(old(Contents()), Registry.Remove(sock), clients.Length)
    {
      var i := 0;
      while i < count
        invariant 0 <= i <= count == old(count) && clients[..] == old(clients[..])
        invariant sock !in clients[..i]
      {
        if clients[i] == sock {
          FirstIndex(Contents(), sock, i);
          count := count - 1;
          clients[i] := clients[count];
          assert clients[..count] == PlainModel.SwapRemove(old(clients[..count]), i);
          return;
        }
        i := i + 1;
      }
    }

    method Broadcast(text: string, sender: nat)
      requires Valid()
      modifies this`wire
      ensures wire == old(wire) + Packets(Contents(), sender, text)
    {
      var i := 0;
      while i < count
        invariant 0 <= i <= count && wire == old(wire) + Packets(clients[..i], sender, text)
      {
        assert clients[..i + 1][..i] == clients[..i];
        if clients[i] != sender {
          wire := wire + [Packet(clients[i], text)];
        }
        i := i + 1;
      }
    }
  }

  lemma FirstIndex(table: seq<nat>, x: nat, i: nat)
    requires i < |table| && table[i] == x && x !in table[..i]
    ensures IndexOf(table, x) == i
  {
    var k := IndexOf(table, x);
    assert forall j :: 0 <= j < i ==> table[..i][j] == table[j] && table[j] != x;
    assert forall j :: 0 <= j < k ==> table[..k][j] == table[j] && table[j] != x;
  }

  // assignment9/chat_app/server_tls.c
  class ShiftTable {
    const clients: array<nat>
    var count: nat
    var wire: seq<Packet>

    ghost predicate Valid()
      reads this
    {
      count <= clients.Length
    }

    ghost function Contents(): seq<nat>
      reads this, clients
      requires Valid()
    {
      clients[..count]
    }

    constructor (capacity: nat)
      ensures Valid() && Contents() == [] && clients.Length == capacity && wire == [] && fresh(clients)
    {
      clients := new nat[capacity](_ => 0);
      count, wire := 0, [];
    }

    // The C code does not check for room, so the caller must.
    method Add(client: nat)
      requires Valid() && count < clients.Length
      modifies this`count, clients
      ensures Valid() && Contents() == ShiftApply(old(Contents()), Registry.Add(client))
    {
      clients[count] := client;
      count := count + 1;
      assert clients[..count - 1] == old(clients[..count]);
    }

    method Remove(client: nat)
      requires Valid()
      modifies this`count, clients
      ensures Valid() && Contents() == ShiftApply(old(Contents()), Registry.Remove(client))
    {
      var i := 0;
      while i < count
        invariant 0 <= i <= count == old(count) && clients[..] == old(clients[..])
        invariant client !in clients[..i]
      {
        if clients[i] == client {
          FirstIndex(Contents(), client, i);
          CloseGap(i);
          return;
        }
        i := i + 1;
      }
    }

    method CloseGap(i: nat)
      requires Valid() && i < count
      modifies this`count, clients
      ensures Valid() && Contents() == old(Contents())[..i] + old(Contents())[i + 1..]
    {
      var j := i;
      while j < count - 1
        invariant i <= j <= count - 1 && count == old(count)
        invariant forall k :: 0 <= k < i ==> clients[k] == old(clients[k])
        invariant forall k :: i <= k < j ==> clients[k] == old(clients[k + 1])
        invariant forall k :: j <= k < count ==> clients[k] == old(clients[k])
      {
        clients[j] := clients[j + 1];
        j := j + 1;
      }
      count := count - 1;
    }

    method Broadcast(text: string, sender: nat)
      requires Valid()
      modifies this`wire
      ensures wire == old(wire) + Packets(Contents(), sender, text)
    {
      var i := 0;
      while i < count
        invariant 0 <= i <= count && wire == old(wire) + Packets(clients[..i], sender, text)
      {
        assert clients[..i + 1][..i] == clients[..i];
        if clients[i] != sender {
          wire := wire + [Packet(clients[i], text)];
        }
        i := i + 1;
      }
    }
  }

  // assignment9/chat_app/server_tls_final.c
  class SlotTable {
    const clients: array<Slot>
    var wire: seq<Packet>

    ghost function Contents(): seq<Slot>
      reads this, clients
    {
      clients[..]
    }

    constructor (capacity: nat)
      ensures Contents() == Init(capacity).slots && wire == [] && fresh(clients)
    {
      clients := new Slot[capacity](_ => Slot(NULL, false));
      wire := [];
    }

    method AddClient(ssl: nat) returns (slot: int)
      modifies clients
      ensures Contents() == SlotApply(old(Contents()), Add(ssl))
      ensures slot == if LowestInactive(old(Contents())) < clients.Length then LowestInactive(old(Contents())) else -1
    {
      var i := 0;
      while i < clients.Length
        invariant 0 <= i <= clients.Length && clients[..] == old(clients[..])
        invariant forall j :: 0 <= j < i ==> clients[j].active
      {
        if !clients[i].active {
          clients[i] := Slot(ssl, true);
          return i;
        }
        i := i + 1;
      }
      slot := -1;
    }

    method RemoveClient(ssl: nat)
      modifies clients
      ensures Contents() == SlotApply(old(Contents()), Remove(ssl))
    {
      var i := 0;
      while i < clients.Length
        invariant 0 <= i <= clients.Length && clients[..] == old(clients[..])
        invariant forall j :: 0 <= j < i ==> clients[j] != Slot(ssl, true)
      {
        if clients[i].active && clients[i].ssl == ssl {
          clients[i] := Slot(NULL, false);
          return;
        }
        i := i + 1;
      }
    }

    method Broadcast(text: string, sender: nat)
      modifies this`wire
      ensures wire == old(wire) + SlotPackets(Contents(), sender, text)
    {
      var i := 0;
      while i < clients.Length
        invariant 0 <= i <= clients.Length && wire == old(wire) + SlotPackets(clients[..i], sender, text)
      {
        assert clients[..i + 1][..i] == clients[..i];
        if clients[i].active && clients[i].ssl != sender {
          wire := wire + [Packet(clients[i].ssl, text)];
        }
        i := i + 1;
      }
      assert clients[..] == clients[..i];
    }
  }
}
