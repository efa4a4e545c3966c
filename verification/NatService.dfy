/** The NAT service with its TCP listeners (src/backend_pool/nat.py). */
module NatService {
  import opened Common
  import opened GuestPool
  import opened PoolSystem

  // A listening port; `_realPortNumber` is None once it has been closed.
  class Listener {
    var port: Option<u16>

    constructor (port: u16)
      ensures this.port == Some(port)
    {
      this.port := Some(port);
    }

    method StopListening()
      modifies this
      ensures port == None
    {
      port := None;
    }
  }

  datatype Entry = Entry(count: int, ssh: Listener, telnet: Listener)

  ghost function BindingOf(e: Entry): Binding
    reads e.ssh, e.telnet
  {
    Binding(e.count, e.ssh.port, e.telnet.port)
  }

  ghost predicate SharesNone(a: Entry, b: Entry) {
    a.ssh != b.ssh && a.ssh != b.telnet && a.telnet != b.ssh && a.telnet != b.telnet
  }

  lemma Replaced(bs: Bindings, id: Id, x: Binding, y: Binding)
    ensures (bs[id := x] - {id})[id := y] == bs[id := y]
    ensures bs[id := x] - {id} == bs - {id} && (bs - {id})[id := y] == bs[id := y] == bs[id := x][id := y]
  {
  }

  // `repr` are the listeners ever made.
  class Service {
    var entries: map<Id, Entry>
    ghost var repr: set<Listener>

    ghost function View(): (v: Bindings)
      reads this, repr
      requires Valid()
      ensures v.Keys == entries.Keys
      ensures forall id :: id in entries ==> v[id] == BindingOf(entries[id])
    {
      map id | id in entries :: BindingOf(entries[id])
    }

    // `bindings` is what the entries stand for.
    lemma ViewIs(bindings: Bindings)
      requires Valid() && bindings.Keys == entries.Keys
      requires forall id :: id in entries ==> bindings[id] == BindingOf(entries[id])
      ensures View() == bindings
    {
      hide View, BindingOf;
      assert forall id :: id in View().Keys <==> id in bindings.Keys;
      assert forall id :: id in View() ==> View()[id] == bindings[id];
    }

    // No listener belongs to two bindings, or twice to one.
    ghost predicate Valid()
      reads this
    {
      && (forall id :: id in entries ==> entries[id].ssh in repr && entries[id].telnet in repr)
      && (forall id :: id in entries ==> entries[id].ssh != entries[id].telnet)
      && (forall id, other :: id in entries && other in entries && id != other ==>
            SharesNone(entries[id], entries[other]))
    }

    // The listeners of a binding are closed.
    ghost predicate Closed(entry: Entry)
      reads entry.ssh, entry.telnet
    {
      entry.ssh.port == None && entry.telnet.port == None
    }

    constructor ()
      ensures Valid() && entries == map[] && repr == {} && View() == map[]
    {
      entries, repr := map[], {};
    }

    // A listener for each of the two services, on the ports that the system picks.
    method Listen(id: Id, ssh: u16, telnet: u16)
      requires Valid() && id !in entries
      modifies this
      ensures Valid() && View() == old(View())[id := Binding(1, Some(ssh), Some(telnet))]
      ensures fresh(repr - old(repr)) && old(repr) <= repr
    {
      hide View;
      ghost var before := View();
      var first := new Listener(ssh);
      var second := new Listener(telnet);
      repr := repr + {first, second};
      entries := entries[id := Entry(1, first, second)];
      ViewIs(before[id := Binding(1, Some(ssh), Some(telnet))]);
    }

    method RequestBinding(id: Id, ssh: u16, telnet: u16) returns (ports: (u16, u16))
      requires Valid()
      modifies this, repr
      ensures Valid() && View() == PoolSystem.RequestBinding(old(View()), id, ssh, telnet)
      ensures View()[id].ssh == Some(ports.0) && View()[id].telnet == Some(ports.1)
      ensures id in old(entries) && !Open(old(View())[id]) ==> Closed(old(entries)[id])
      ensures fresh(repr - old(repr)) && old(repr) <= repr
    {
      hide View, Valid;
      ghost var before := View();
      if id in entries {
        Replaced(before, id, before[id].(count := before[id].count + 1), Binding(1, Some(ssh), Some(telnet)));
        Recount(id, entries[id].count + 1);
        if entries[id].ssh.port.Some? && entries[id].telnet.port.Some? {
          return (entries[id].ssh.port.value, entries[id].telnet.port.value);
        }
        Renew(id, ssh, telnet);
      } else {
        Listen(id, ssh, telnet);
      }
      ports := (ssh, telnet);
    }

    // One of the listeners is closed: stop both, and start anew.
    method Renew(id: Id, ssh: u16, telnet: u16)
      requires Valid() && id in entries
      modifies this, repr
      ensures Valid() && View() == old(View())[id := Binding(1, Some(ssh), Some(telnet))]
      ensures Closed(old(entries)[id])
      ensures fresh(repr - old(repr)) && old(repr) <= repr
    {
      hide View, Valid;
      ghost var before := View();
      Replaced(before, id, before[id], Binding(1, Some(ssh), Some(telnet)));
      Drop(id);
      Listen(id, ssh, telnet);
    }

    method Recount(id: Id, count: int)
      requires Valid() && id in entries
      modifies this`entries
      ensures Valid() && View() == old(View())[id := old(View())[id].(count := count)]
      ensures id in entries && entries[id] == old(entries)[id].(count := count)
    {
      hide View;
      ghost var before := View();
      entries := entries[id := entries[id].(count := count)];
      ViewIs(before[id := before[id].(count := count)]);
    }

    // Stops both listeners and deletes the binding.
    method Drop(id: Id)
      requires Valid() && id in entries
      modifies this`entries, repr
      ensures Valid() && View() == old(View()) - {id} && Closed(old(entries)[id])
    {
      hide View;
      ghost var before := View();
      var entry := entries[id];
      assert forall k :: k in entries && k != id ==> SharesNone(entries[k], entry);
      entry.ssh.StopListening();
      entry.telnet.StopListening();
      entries := entries - {id};
      ViewIs(before - {id});
    }

    // `known` is false when there is no such binding: a KeyError.
    method FreeBinding(id: Id) returns (known: bool)
      requires Valid()
      modifies this`entries, repr
      ensures Valid() && known == (id in old(entries))
      ensures View() == if known then PoolSystem.FreeBinding(old(View()), id) else old(View())
      ensures known && id !in View() ==> Closed(old(entries)[id])
    {
      hide View, Valid;
      ghost var before := View();
      known := id in entries;
      if known {
        Replaced(before, id, before[id].(count := before[id].count - 1), before[id]);
        Recount(id, entries[id].count - 1);
        if entries[id].count <= 0 {
          Drop(id);
        }
      }
    }

    // One listener of a binding closes on its own.
    method CloseListener(id: Id, onSsh: bool)
      requires Valid()
      modifies repr
      ensures Valid() && entries == old(entries) && View() == PoolSystem.CloseListener(old(View()), id, onSsh)
    {
      hide View;
      ghost var before := View();
      if id in entries {
        var entry := entries[id];
        assert forall k :: k in entries && k != id ==> SharesNone(entries[k], entry);
        if onSsh {
          entry.ssh.StopListening();
        } else {
          entry.telnet.StopListening();
        }
      }
      ViewIs(PoolSystem.CloseListener(before, id, onSsh));
    }

    method FreeAll()
      requires Valid()
      modifies this`entries, repr
      ensures Valid() && entries == map[] && View() == map[]
      ensures forall id :: id in old(entries) ==> Closed(old(entries)[id])
    {
      var left: set<Id> := entries.Keys;
      while left != {}
        invariant entries == old(entries) && left <= entries.Keys && Valid()
        invariant forall id :: id in entries && id !in left ==> Closed(entries[id])
      {
        assert exists id :: id in left by {
          if forall id :: id !in left {
            assert false;
          }
        }
        var id :| id in left;
        entries[id].ssh.StopListening();
        entries[id].telnet.StopListening();
        left := left - {id};
      }
      entries := map[];
    }
  }
}
