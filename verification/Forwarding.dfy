/** Sending and forwarding IP packets (pkg/ip/host.go): the time to live bounds every packet's
    journey whatever the tables say, and the tables RIP keeps deliver every packet. */
module Forwarding {
  import opened Rip
  import opened RipNetwork
  import RipGuarantees

  const TTL_MAX := 16

  /** What becomes of a packet at one host. `Forwarded` names the neighbour's address and the
      time to live the packet leaves with. */
  datatype Outcome = Local | Discarded | Forwarded(nextHop: Address, ttl: nat)

  datatype SendResult = NoEntry | Unreachable | NoInterface | Looped(ttl: nat) | Sent(nextHop: Address, ttl: nat)

  /** The interfaces of a host: `local` are its addresses, `stopped` those of them that are down, and
      `remote` maps the address of each neighbour to the local interface that leads to it. */
  datatype Interfaces = Interfaces(local: set<Address>, remote: map<Address, Address>, stopped: set<Address>)

  /** The routing decision for a packet that is not for this host. A stopped interface sends nothing. */
  function ToLink(ifs: Interfaces, t: Table, dest: Address, ttl: nat): Outcome {
    if dest !in t || t[dest].cost == INFINITY then Discarded
    else
      var n := t[dest].nextHop;
      if n in ifs.remote && ifs.remote[n] in ifs.local && ifs.remote[n] !in ifs.stopped then Forwarded(n, ttl) else Discarded
  }

  /** A packet never leaves a host with a time to live of 0, or with more than it came with, nor by an
      interface that is down, and is kept exactly at an interface of this host that is up. */
  function Handle(ifs: Interfaces, t: Table, dest: Address, ttl: nat): (o: Outcome)
    requires ttl >= 1
    ensures o.Forwarded? <==>
              && dest !in ifs.local && 1 < ttl && dest in t && t[dest].cost != INFINITY
              && t[dest].nextHop in ifs.remote && ifs.remote[t[dest].nextHop] in ifs.local - ifs.stopped
    ensures o.Forwarded? ==> o.ttl + 1 == ttl && o.nextHop == t[dest].nextHop
    ensures o.Local? <==> dest in ifs.local && dest !in ifs.stopped
  {
    if dest in ifs.local then (if dest in ifs.stopped then Discarded else Local)
    else if ttl - 1 == 0 then Discarded
    else ToLink(ifs, t, dest, ttl - 1)
  }

  /** Which error, if any; where the packet goes first; and with a time to live of 16. A packet handed to an
      interface that is down counts as sent. */
  function Originate(remote: map<Address, Address>, local: set<Address>, t: Table, dest: Address): (res: SendResult)
    ensures res == NoEntry <==> dest !in t
    ensures res == Unreachable <==> dest in t && t[dest].cost == 16
    ensures dest in t && t[dest].cost != 16 ==>
              && (res == Looped(16) <==> t[dest].nextHop in local)
              && (res == Sent(t[dest].nextHop, 16) <==>
                    t[dest].nextHop !in local && t[dest].nextHop in remote && remote[t[dest].nextHop] in local)
  {
    if dest !in t then NoEntry
    else if t[dest].cost == INFINITY then Unreachable
    else
      var n := t[dest].nextHop;
      if n in local then Looped(TTL_MAX)
      else if n in remote && remote[n] in local then Sent(n, TTL_MAX)
      else NoInterface
  }

  class IpHost {
    const local: set<Address>
    const remote: map<Address, Address>
    const routingTable: RoutingTable
    var stopped: set<Address>

    constructor (local: set<Address>, remote: map<Address, Address>, routingTable: RoutingTable)
      ensures this.local == local && this.remote == remote && this.routingTable == routingTable && stopped == {}
    {
      this.local, this.remote, this.routingTable, stopped := local, remote, routingTable, {};
    }

    function View(): Interfaces
      reads this
    {
      Interfaces(local, remote, stopped)
    }

    /** Takes down the interface that faces `neighbor`: every route by it becomes unusable, and no other. */
    method DownInterface(x: Address, neighbor: Address) returns (ok: bool)
      modifies this`stopped, routingTable
      ensures ok <==> x in local && x !in old(stopped)
      ensures stopped == if ok then old(stopped) + {x} else old(stopped)
      ensures routingTable.table.Keys == old(routingTable.table).Keys
      ensures forall d :: d in routingTable.table ==>
                routingTable.table[d] == if ok && old(routingTable.table)[d].nextHop in [x, neighbor]
                                         then old(routingTable.table)[d].(cost := INFINITY) else old(routingTable.table)[d]
    {
      ok := x in local && x !in stopped;
      if ok {
        stopped := stopped + {x};
        routingTable.RemoveNextHops([x, neighbor]);
      }
    }

    /** Brings it up again: its own address is back at cost 0. */
    method UpInterface(x: Address) returns (ok: bool)
      modifies this`stopped, routingTable
      ensures ok <==> x in local && x in old(stopped)
      ensures stopped == if ok then old(stopped) - {x} else old(stopped)
      ensures routingTable.table == if ok then old(routingTable.table)[x := Entry(x, 0)] else old(routingTable.table)
    {
      ok := x in local && x in stopped;
      if ok {
        stopped := stopped - {x};
        routingTable.AddRoute(x, 0, x);
      }
    }

    method SendToLinkLayer(dest: Address, ttl: nat) returns (o: Outcome)
      ensures o == ToLink(View(), routingTable.table, dest, ttl)
    {
      var entry := routingTable.CheckRoute(dest);
      if entry.None? {
        return Discarded;
      }
      if entry.value.cost == INFINITY {
        return Discarded;
      }
      var nextHop := entry.value.nextHop;
      if nextHop in remote {
        var interfaceAddr := remote[nextHop];
        if interfaceAddr in local && interfaceAddr !in stopped {
          return Forwarded(nextHop, ttl);
        }
      }
      return Discarded;
    }

    /** One packet taken from the link layer. */
    method ReadFromLinkLayer(dest: Address, ttl: nat) returns (o: Outcome)
      requires ttl >= 1
      ensures o == Handle(View(), routingTable.table, dest, ttl)
    {
      var left := ttl - 1;
      if dest in local {
        if dest in stopped {
          return Discarded;
        }
        return Local;
      }
      if left == 0 {
        return Discarded;
      }
      o := SendToLinkLayer(dest, left);
    }

    method SendPacket(dest: Address) returns (res: SendResult)
      ensures res == Originate(remote, local, routingTable.table, dest)
    {
      var entry := routingTable.CheckRoute(dest);
      if entry.None? {
        return NoEntry;
      }
      if entry.value.cost == INFINITY {
        return Unreachable;
      }
      var nextHop := entry.value.nextHop;
      if nextHop in local {
        return Looped(TTL_MAX);
      }
      if nextHop in remote {
        if remote[nextHop] in local {
          return Sent(nextHop, TTL_MAX);
        }
      }
      return NoInterface;
    }
  }

  ghost function LocalOf(topo: Topology, h: Host): set<Address> {
    set x | x in topo.owner && topo.owner[x] == h
  }

  /** Each neighbour's address, with the local interface that faces it. */
  ghost function RemoteOf(topo: Topology, h: Host): map<Address, Address>
    requires Wired(topo)
  {
    map n | n in topo.owner && topo.owner[topo.peer[n]] == h :: topo.peer[n]
  }

  /** The interfaces of a host of a network in which all are up. */
  ghost function InterfacesOf(topo: Topology, h: Host): Interfaces
    requires Wired(topo)
  {
    Interfaces(LocalOf(topo, h), RemoteOf(topo, h), {})
  }

  ghost function TableOf(tables: map<Host, Table>, h: Host): Table {
    if h in tables then tables[h] else map[]
  }

  /** The hosts that handle a packet, when the tables are `tables(i)` as the i-th of them does. */
  ghost function Handlers(topo: Topology, tables: nat -> map<Host, Table>, i: nat, h: Host, dest: Address, ttl: nat): seq<Host>
    requires Wired(topo) && ttl >= 1
    decreases ttl
  {
    match Handle(InterfacesOf(topo, h), TableOf(tables(i), h), dest, ttl)
    case Forwarded(n, left) => [h] + Handlers(topo, tables, i + 1, topo.owner[n], dest, left)
    case _ => [h]
  }

  /** Whatever the tables hold, loops included, and however they change while the packet
      travels, a packet injected with time to live t >= 1 is handled by at most t hosts, and
      only its destination's owner can be the one that keeps it. */
  lemma {:induction false} AtMostTtlHandlers(topo: Topology, tables: nat -> map<Host, Table>, i: nat, h: Host, dest: Address, ttl: nat)
    requires Wired(topo) && ttl >= 1
    ensures var hs := Handlers(topo, tables, i, h, dest, ttl);
            && 1 <= |hs| <= ttl
            && (forall j :: 0 <= j < |hs| - 1 ==> hs[j] !in OwnerOf(topo, dest))
    decreases ttl
  {
    var o := Handle(InterfacesOf(topo, h), TableOf(tables(i), h), dest, ttl);
    if o.Forwarded? {
      var rest := Handlers(topo, tables, i + 1, topo.owner[o.nextHop], dest, o.ttl);
      AtMostTtlHandlers(topo, tables, i + 1, topo.owner[o.nextHop], dest, o.ttl);
      var hs := [h] + rest;
      forall j | 0 <= j < |hs| - 1 ensures hs[j] !in OwnerOf(topo, dest) {
        assert j > 0 ==> hs[j] == rest[j - 1];
      }
    }
  }

  ghost function OwnerOf(topo: Topology, dest: Address): set<Host> {
    if dest in topo.owner then {topo.owner[dest]} else {}
  }

  datatype Flight = Flying(at: Host, ttl: nat) | Arrived(at: Host) | Lost

  datatype Event = Routing(a: Action) | Hop

  /** The packet is handled at the host it has reached. */
  ghost function Travel(topo: Topology, s: Net, dest: Address, f: Flight): Flight
    requires Wired(topo)
  {
    if !f.Flying? then f
    else if f.ttl == 0 then Lost
    else
      match Handle(InterfacesOf(topo, f.at), TableOf(s.tables, f.at), dest, f.ttl)
      case Local => Arrived(f.at)
      case Discarded => Lost
      case Forwarded(n, left) => Flying(topo.owner[n], left)
  }

  ghost function Launch(topo: Topology, s: Net, h: Host, dest: Address): (f: Flight)
    requires Wired(topo)
  {
    match Originate(RemoteOf(topo, h), LocalOf(topo, h), TableOf(s.tables, h), dest)
    case Looped(ttl) => Flying(h, ttl)
    case Sent(n, ttl) => Flying(topo.owner[n], ttl)
    case _ => Lost
  }

  /** Routing steps and hops of one packet, in any order. */
  ghost function Journey(topo: Topology, s: Net, dest: Address, f: Flight, events: seq<Event>): Flight
    requires Inv(topo, s)
    decreases |events|
  {
    InvShape(topo, s);
    if events == [] then f
    else
      match events[0]
      case Routing(a) =>
        InvStep(topo, s, a);
        Journey(topo, Step(topo, s, a), dest, f, events[1..])
      case Hop => Journey(topo, s, dest, Travel(topo, s, dest, f), events[1..])
  }

  function Hops(events: seq<Event>): nat {
    if events == [] then 0 else Hops(events[1..]) + if events[0].Hop? then 1 else 0
  }

  /** The packet has arrived, or it is at a host whose route to the destination is shorter than
      both the time to live left and the number of hops still allowed. */
  ghost predicate OnCourse(topo: Topology, s: Net, dest: Address, f: Flight, left: int) {
    && dest in topo.owner
    && (f == Arrived(topo.owner[dest]) ||
        (&& f.Flying?
         && f.at in s.tables && dest in s.tables[f.at]
         && s.tables[f.at][dest].cost < f.ttl <= INFINITY
         && s.tables[f.at][dest].cost < left))
  }

  lemma ForwardedOn(topo: Topology, s: Net, h: Host, dest: Address, ttl: nat)
    requires Inv(topo, s) && Wired(topo) && h in s.tables && dest in s.tables[h] && dest in topo.owner && topo.owner[dest] != h
    requires s.tables[h][dest].cost < ttl <= INFINITY
    ensures var n := s.tables[h][dest].nextHop;
            && Handle(InterfacesOf(topo, h), s.tables[h], dest, ttl) == Forwarded(n, ttl - 1)
            && n in topo.owner && topo.owner[n] in s.tables && dest in s.tables[topo.owner[n]]
            && s.tables[topo.owner[n]][dest].cost < s.tables[h][dest].cost
  {
    hide Inv, Walk;
    RipGuarantees.EntryAt(topo, s, h, dest);
    var n := s.tables[h][dest].nextHop;
    assert topo.peer[n] in LocalOf(topo, h);
  }

  lemma HopOnCourse(topo: Topology, s: Net, dest: Address, f: Flight, left: int)
    requires Inv(topo, s) && Wired(topo) && OnCourse(topo, s, dest, f, left)
    ensures OnCourse(topo, s, dest, Travel(topo, s, dest, f), left - 1)
  {
    hide Inv, Wired, Handle;
    if f.Flying? {
      RipGuarantees.EntryAt(topo, s, f.at, dest);
      if topo.owner[dest] == f.at {
        assert dest in LocalOf(topo, f.at);
        assert Handle(InterfacesOf(topo, f.at), s.tables[f.at], dest, f.ttl) == Local;
      } else {
        ForwardedOn(topo, s, f.at, dest, f.ttl);
      }
    }
  }

  lemma RoutingOnCourse(topo: Topology, s: Net, a: Action, dest: Address, f: Flight, left: int)
    requires Inv(topo, s) && Shape(topo, s) && OnCourse(topo, s, dest, f, left)
    ensures OnCourse(topo, Step(topo, s, a), dest, f, left)
  {
    hide Inv, Step, Wired;
    InvStep(topo, s, a);
    if f.Flying? {
      assert Cheaper(s.tables[f.at], Step(topo, s, a).tables[f.at]);
    }
  }

  lemma {:induction false} JourneyOnCourse(topo: Topology, s: Net, dest: Address, f: Flight, events: seq<Event>, left: int)
    requires Inv(topo, s) && OnCourse(topo, s, dest, f, left)
    ensures var g := Journey(topo, s, dest, f, events);
            && dest in topo.owner
            && g != Lost
            && (g.Arrived? ==> g.at == topo.owner[dest])
            && (Hops(events) >= left ==> g.Arrived?)
    decreases |events|
  {
    hide Inv, Wired, Step, Travel;
    InvShape(topo, s);
    if events != [] {
      match events[0]
      case Routing(a) =>
        InvStep(topo, s, a);
        RoutingOnCourse(topo, s, a, dest, f, left);
        JourneyOnCourse(topo, Step(topo, s, a), dest, f, events[1..], left);
      case Hop =>
        HopOnCourse(topo, s, dest, f, left);
        JourneyOnCourse(topo, s, dest, Travel(topo, s, dest, f), events[1..], left - 1);
    }
  }

  lemma LaunchOnCourse(topo: Topology, s: Net, h: Host, dest: Address)
    requires Inv(topo, s) && Wired(topo) && h in s.tables && dest in s.tables[h] && s.tables[h][dest].cost < INFINITY
    ensures var c := s.tables[h][dest].cost;
            OnCourse(topo, s, dest, Launch(topo, s, h, dest), if c == 0 then 1 else c)
  {
    hide Inv;
    RipGuarantees.EntryAt(topo, s, h, dest);
    var e := s.tables[h][dest];
    if topo.owner[dest] == h {
      assert dest in LocalOf(topo, h);
    } else {
      assert e.nextHop !in LocalOf(topo, h);
      assert topo.peer[e.nextHop] in LocalOf(topo, h);
    }
  }

  /** In every state of every run, while routing goes on around it: a packet SendPacket sends
      towards a destination of cost c at most 15 is never lost, is delivered to nobody but the
      destination's owner, and is delivered once c hosts have handled it (one host, for an
      address of the sender's own). */
  lemma EveryPacketIsDelivered(topo: Topology, before: seq<Action>, h: Host, dest: Address, events: seq<Event>)
    requires Wired(topo)
    requires var s := Reached(topo, before); h in s.tables && dest in s.tables[h] && s.tables[h][dest].cost < INFINITY
    ensures var s := Reached(topo, before);
            var c := s.tables[h][dest].cost;
            var g := Journey(topo, s, dest, Launch(topo, s, h, dest), events);
            && dest in topo.owner
            && g != Lost
            && (g.Arrived? ==> g.at == topo.owner[dest])
            && (Hops(events) >= (if c == 0 then 1 else c) ==> g.Arrived?)
  {
    hide Inv, Wired, Launch, Reached;
    var s := Reached(topo, before);
    var c := s.tables[h][dest].cost;
    LaunchOnCourse(topo, s, h, dest);
    JourneyOnCourse(topo, s, dest, Launch(topo, s, h, dest), events, if c == 0 then 1 else c);
  }

  /** SendPacket refuses exactly the destinations without a usable route. */
  lemma SendsExactlyTheRoutable(topo: Topology, before: seq<Action>, h: Host, dest: Address)
    requires Wired(topo) && h in Reached(topo, before).tables
    ensures var s := Reached(topo, before);
            Launch(topo, s, h, dest) != Lost <==> dest in s.tables[h] && s.tables[h][dest].cost < INFINITY
  {
    hide Inv, Wired, Reached;
    var s := Reached(topo, before);
    if dest in s.tables[h] {
      RipGuarantees.EntryAt(topo, s, h, dest);
      if s.tables[h][dest].cost < INFINITY {
        LaunchOnCourse(topo, s, h, dest);
      }
    }
  }

  /** Once RIP has converged up to the distance of a destination, at most 15, every packet for
      it is delivered after exactly as many hops as its distance at the latest. */
  lemma ConvergedDelivery(topo: Topology, before: seq<Action>, rounds: seq<seq<Action>>, h: Host, dest: Address, n: nat, events: seq<Event>)
    requires Wired(topo) && dest in topo.owner
    requires RipGuarantees.FullRounds(topo, Reached(topo, before), rounds)
    requires Distance(topo, h, dest, n) && n <= |rounds| && n < INFINITY
    requires h in RipGuarantees.AfterRounds(topo, Reached(topo, before), rounds).tables
    requires Hops(events) >= (if n == 0 then 1 else n)
    ensures var s := RipGuarantees.AfterRounds(topo, Reached(topo, before), rounds);
            Journey(topo, s, dest, Launch(topo, s, h, dest), events) == Arrived(topo.owner[dest])
  {
    hide Inv, Wired, Launch, Reached, RipGuarantees.FullRounds, RipGuarantees.AfterRounds, Distance;
    var s := RipGuarantees.AfterRounds(topo, Reached(topo, before), rounds);
    RipGuarantees.RipConverges(topo, before, rounds, h, dest, n);
    LaunchOnCourse(topo, s, h, dest);
    JourneyOnCourse(topo, s, dest, Launch(topo, s, h, dest), events, if n == 0 then 1 else n);
  }
}
