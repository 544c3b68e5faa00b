/** A network of hosts running RIP over first-in first-out links, as a state machine.
    A link holds the entries of the messages in flight on it, oldest first; messages may be
    lost, in whole or in part, and entries of messages on different links interleave freely. */
module RipNetwork {
  import opened Rip

  type Host = nat

  /** Who owns each interface address, and the address at the other end of its link. */
  datatype Topology = Topology(owner: map<Address, Host>, peer: map<Address, Address>)

  datatype Net = Net(tables: map<Host, Table>, links: map<Address, seq<RipEntry>>)

  datatype Action =
    | Send(x: Address, poisoned: bool, entries: seq<RipEntry>)
    | Deliver(x: Address)
    | Drop(x: Address, i: nat)

  ghost predicate Wired(topo: Topology) {
    && topo.peer.Keys == topo.owner.Keys
    && (forall x :: x in topo.owner ==>
          && topo.peer[x] in topo.owner
          && topo.peer[topo.peer[x]] == x
          && topo.owner[topo.peer[x]] != topo.owner[x])
  }

  lemma PeerOf(topo: Topology, x: Address)
    requires Wired(topo) && x in topo.owner
    ensures x in topo.peer && topo.peer[x] in topo.owner
  {
  }

  /** A walk of n links leads from h to the host that owns d. */
  ghost predicate Walk(topo: Topology, h: Host, d: Address, n: nat)
    requires Wired(topo) && d in topo.owner
    decreases n
  {
    if n == 0 then topo.owner[d] == h
    else exists x :: x in topo.owner && topo.owner[x] == h && Walk(topo, topo.owner[topo.peer[x]], d, n - 1)
  }

  /** The hop distance from h to d is n. */
  ghost predicate Distance(topo: Topology, h: Host, d: Address, n: nat)
    requires Wired(topo) && d in topo.owner
  {
    Walk(topo, h, d, n) && forall m: nat :: m < n ==> !Walk(topo, h, d, m)
  }

  ghost function Init(topo: Topology): Net {
    Net(map h | h in topo.owner.Values :: map d | d in topo.owner && topo.owner[d] == h :: Entry(d, 0),
        map x | x in topo.owner :: [])
  }

  ghost predicate Shape(topo: Topology, s: Net) {
    && Wired(topo)
    && s.links.Keys == topo.owner.Keys
    && (forall x :: x in topo.owner ==> topo.owner[x] in s.tables)
  }

  ghost predicate Enabled(topo: Topology, s: Net, a: Action)
    requires Shape(topo, s)
  {
    && a.x in topo.owner
    && match a
       case Send(x, poisoned, es) =>
         Advertises(s.tables[topo.owner[x]], if poisoned then Some(topo.peer[x]) else None, es)
       case Deliver(x) => s.links[x] != []
       case Drop(x, i) => i < |s.links[x]|
  }

  /** A message sent out of interface x carries x as its source address, so that is the next
      hop its receiver records. */
  ghost function Step(topo: Topology, s: Net, a: Action): Net
    requires Shape(topo, s)
  {
    if !Enabled(topo, s, a) then s else
      match a
      case Send(x, _, es) => s.(links := s.links[x := s.links[x] + es])
      case Deliver(x) =>
        var r := topo.owner[topo.peer[x]];
        s.(tables := s.tables[r := Learn(s.tables[r], s.links[x][0], x)],
           links := s.links[x := s.links[x][1..]])
      case Drop(x, i) => s.(links := s.links[x := s.links[x][..i] + s.links[x][i + 1..]])
  }

  /** What every entry of every table satisfies: it is the length of a real walk, and its next
      hop is a neighbour that is itself at least one link closer. */
  ghost predicate EntryOk(topo: Topology, s: Net, h: Host, d: Address)
    requires Shape(topo, s) && h in s.tables && d in s.tables[h]
  {
    var e := s.tables[h][d];
    && d in topo.owner
    && e.cost <= INFINITY
    && Walk(topo, h, d, e.cost)
    && if topo.owner[d] == h then e == Entry(d, 0)
       else
         && e.nextHop in topo.owner
         && topo.owner[topo.peer[e.nextHop]] == h
         && d in s.tables[topo.owner[e.nextHop]]
         && s.tables[topo.owner[e.nextHop]][d].cost + 1 <= e.cost
  }

  /** What every entry in flight with a finite cost satisfies. */
  ghost predicate FlightOk(topo: Topology, s: Net, x: Address, e: RipEntry)
    requires Shape(topo, s) && x in topo.owner
  {
    var here, there := s.tables[topo.owner[x]], s.tables[topo.owner[topo.peer[x]]];
    && e.cost < INFINITY
    && e.address in topo.owner
    && Walk(topo, topo.owner[x], e.address, e.cost)
    && e.address in here && here[e.address].cost <= e.cost
    && (e.address in there && there[e.address].nextHop == x ==> e.cost + 1 <= there[e.address].cost)
  }

  /** Later entries for a destination are no worse than earlier ones. */
  ghost predicate Improving(q: seq<RipEntry>) {
    forall i, j :: 0 <= i < j < |q| && q[i].address == q[j].address ==>
      q[i].cost == INFINITY || q[j].cost == INFINITY || q[j].cost <= q[i].cost
  }

  ghost predicate LinkOk(topo: Topology, s: Net, x: Address)
    requires Shape(topo, s) && x in topo.owner
  {
    && Improving(s.links[x])
    && (forall i :: 0 <= i < |s.links[x]| ==>
          s.links[x][i].cost == INFINITY || FlightOk(topo, s, x, s.links[x][i]))
  }

  ghost predicate Inv(topo: Topology, s: Net) {
    && Shape(topo, s)
    && (forall d :: d in topo.owner ==> d in s.tables[topo.owner[d]])
    && (forall h, d {:trigger EntryOk(topo, s, h, d)} ::
          h in s.tables && d in s.tables[h] ==> EntryOk(topo, s, h, d))
    && (forall x {:trigger LinkOk(topo, s, x)} :: x in topo.owner ==> LinkOk(topo, s, x))
  }

  lemma InitInv(topo: Topology)
    requires Wired(topo)
    ensures Inv(topo, Init(topo))
  {
    hide Wired;
    var s := Init(topo);
    assert forall x :: x in topo.owner ==> topo.owner[x] in topo.owner.Values;
    forall h, d | h in s.tables && d in s.tables[h] ensures EntryOk(topo, s, h, d) {
      assert Walk(topo, h, d, 0);
    }
    forall x | x in topo.owner ensures LinkOk(topo, s, x) {
      assert s.links[x] == [];
    }
  }

  /** Tables only gain routes and only get cheaper. */
  ghost predicate Cheaper(t: Table, u: Table) {
    forall d :: d in t ==> d in u && u[d].cost <= t[d].cost
  }

  ghost predicate Progress(s: Net, s': Net) {
    && s'.tables.Keys == s.tables.Keys
    && (forall h :: h in s.tables ==> Cheaper(s.tables[h], s'.tables[h]))
  }

  lemma LinksOnly(topo: Topology, s: Net, links: map<Address, seq<RipEntry>>)
    requires Inv(topo, s) && links.Keys == s.links.Keys
    ensures var s' := s.(links := links);
            && Shape(topo, s')
            && (forall h, d {:trigger EntryOk(topo, s', h, d)} ::
                  h in s.tables && d in s.tables[h] ==> EntryOk(topo, s', h, d))
  {
    hide Walk, LinkOk, Wired;
    var s' := s.(links := links);
    forall h, d | h in s.tables && d in s.tables[h] ensures EntryOk(topo, s', h, d) {
      assert EntryOk(topo, s, h, d);
    }
  }

  lemma LinkFrame(topo: Topology, s: Net, links: map<Address, seq<RipEntry>>, x: Address)
    requires Shape(topo, s) && links.Keys == s.links.Keys && x in topo.owner && LinkOk(topo, s, x)
    requires Improving(links[x])
    requires forall i :: 0 <= i < |links[x]| ==>
               || links[x][i].cost == INFINITY
               || links[x][i] in s.links[x]
               || FlightOk(topo, s, x, links[x][i])
    ensures LinkOk(topo, s.(links := links), x)
  {
    hide Walk, Improving;
    var s' := s.(links := links);
    forall i | 0 <= i < |links[x]| ensures links[x][i].cost == INFINITY || FlightOk(topo, s', x, links[x][i]) {
      if links[x][i] in s.links[x] {
        var j :| 0 <= j < |s.links[x]| && s.links[x][j] == links[x][i];
        assert s.links[x][j].cost == INFINITY || FlightOk(topo, s, x, s.links[x][j]);
      }
    }
  }

  lemma ShownIsSound(topo: Topology, s: Net, x: Address, d: Address)
    requires Inv(topo, s) && x in topo.owner && d in s.tables[topo.owner[x]]
    requires s.tables[topo.owner[x]][d].cost != INFINITY
    ensures FlightOk(topo, s, x, RipEntry(d, s.tables[topo.owner[x]][d].cost))
  {
    hide Walk, LinkOk;
    var r := topo.owner[topo.peer[x]];
    assert EntryOk(topo, s, topo.owner[x], d);
    if d in s.tables[r] {
      assert EntryOk(topo, s, r, d);
    }
  }

  lemma AppendImproving(q: seq<RipEntry>, es: seq<RipEntry>, t: Table)
    requires Improving(q)
    requires forall i, j :: 0 <= i < j < |es| ==> es[i].address != es[j].address
    requires forall e :: e in es && e.cost != INFINITY ==> e.address in t && t[e.address].cost == e.cost
    requires forall e :: e in q && e.cost != INFINITY ==> e.address in t && t[e.address].cost <= e.cost
    ensures Improving(q + es)
  {
    var qs := q + es;
    forall i, j | 0 <= i < j < |qs| && qs[i].address == qs[j].address && qs[i].cost != INFINITY && qs[j].cost != INFINITY
      ensures qs[j].cost <= qs[i].cost
    {
      if j >= |q| {
        assert es[j - |q|] in es;
        if i < |q| {
          assert q[i] in q;
        }
      }
    }
  }

  lemma SendKeeps(topo: Topology, s: Net, x: Address, poisoned: bool, es: seq<RipEntry>)
    requires Inv(topo, s) && Enabled(topo, s, Send(x, poisoned, es))
    ensures Inv(topo, Step(topo, s, Send(x, poisoned, es)))
  {
    hide Walk, EntryOk, FlightOk, Improving;
    var links := s.links[x := s.links[x] + es];
    var t := s.tables[topo.owner[x]];
    LinksOnly(topo, s, links);
    forall y | y in topo.owner ensures LinkOk(topo, s.(links := links), y) {
      assert LinkOk(topo, s, y);
      if y == x {
        QueuedAreCurrent(topo, s, x);
        AppendImproving(s.links[x], es, t);
        forall i | 0 <= i < |es| && es[i].cost != INFINITY ensures FlightOk(topo, s, x, es[i]) {
          ShownIsSound(topo, s, x, es[i].address);
        }
      }
      LinkFrame(topo, s, links, y);
    }
  }

  lemma QueuedAreCurrent(topo: Topology, s: Net, x: Address)
    requires Shape(topo, s) && x in topo.owner && LinkOk(topo, s, x)
    ensures var t := s.tables[topo.owner[x]];
            forall e :: e in s.links[x] && e.cost != INFINITY ==> e.address in t && t[e.address].cost <= e.cost
  {
    hide Walk, Improving, Wired;
  }

  lemma DropKeeps(topo: Topology, s: Net, x: Address, i: nat)
    requires Inv(topo, s) && Enabled(topo, s, Drop(x, i))
    ensures Inv(topo, Step(topo, s, Drop(x, i)))
  {
    hide Walk, EntryOk, FlightOk, Wired;
    var links := s.links[x := s.links[x][..i] + s.links[x][i + 1..]];
    LinksOnly(topo, s, links);
    forall y | y in topo.owner ensures LinkOk(topo, s.(links := links), y) {
      assert LinkOk(topo, s, y);
      LinkFrame(topo, s, links, y);
    }
  }

  /** What delivering the oldest entry of a link does to the receiver's table: nothing, or a
      new or strictly cheaper route through the sender. */
  lemma LearnImproves(topo: Topology, s: Net, x: Address)
    requires Inv(topo, s) && Enabled(topo, s, Deliver(x))
    ensures var e, r := s.links[x][0], topo.owner[topo.peer[x]];
            var t, u := s.tables[r], Learn(s.tables[r], s.links[x][0], x);
            && Cheaper(t, u)
            && (u == t || (&& e.cost < INFINITY && FlightOk(topo, s, x, e) && topo.owner[e.address] != r
                           && u == t[e.address := Entry(x, e.cost + 1)]
                           && (e.address in t ==> e.cost + 1 < t[e.address].cost)))
            && (e.cost != INFINITY ==> e.address in u && u[e.address].cost <= e.cost + 1)
  {
    hide Walk, Improving;
    var e, r := s.links[x][0], topo.owner[topo.peer[x]];
    assert LinkOk(topo, s, x);
    if e.cost != INFINITY {
      assert FlightOk(topo, s, x, e);
      if e.address in s.tables[r] {
        assert EntryOk(topo, s, r, e.address);
      }
    }
  }

  lemma DeliverProgress(topo: Topology, s: Net, x: Address)
    requires Inv(topo, s) && Enabled(topo, s, Deliver(x))
    ensures var s' := Step(topo, s, Deliver(x));
            Shape(topo, s') && s'.links.Keys == s.links.Keys && Progress(s, s')
  {
    hide LinkOk, EntryOk, FlightOk, Learn, Wired;
    PeerOf(topo, x);
    var s' := Step(topo, s, Deliver(x));
    var r := topo.owner[topo.peer[x]];
    LearnImproves(topo, s, x);
    assert s'.tables.Keys == s.tables.Keys + {r};
  }

  lemma StillOk(topo: Topology, s: Net, s': Net, h: Host, d: Address)
    requires Shape(topo, s) && Shape(topo, s') && Progress(s, s')
    requires h in s.tables && d in s.tables[h] && EntryOk(topo, s, h, d)
    requires d in s'.tables[h] && s'.tables[h][d] == s.tables[h][d]
    ensures EntryOk(topo, s', h, d)
  {
    hide Walk;
  }

  lemma NewEntryOk(topo: Topology, s: Net, s': Net, x: Address, e: RipEntry)
    requires Shape(topo, s) && Shape(topo, s') && Progress(s, s')
    requires x in topo.owner && e.cost < INFINITY && FlightOk(topo, s, x, e)
    requires var r := topo.owner[topo.peer[x]];
             topo.owner[e.address] != r && e.address in s'.tables[r] && s'.tables[r][e.address] == Entry(x, e.cost + 1)
    ensures EntryOk(topo, s', topo.owner[topo.peer[x]], e.address)
  {
    var y := topo.peer[x];
    assert topo.owner[topo.peer[y]] == topo.owner[x];
    assert Walk(topo, topo.owner[y], e.address, e.cost + 1);
  }

  lemma DeliverKeepsEntries(topo: Topology, s: Net, x: Address, h: Host, d: Address)
    requires Inv(topo, s) && Enabled(topo, s, Deliver(x))
    requires var s' := Step(topo, s, Deliver(x)); h in s'.tables && d in s'.tables[h]
    ensures EntryOk(topo, Step(topo, s, Deliver(x)), h, d)
  {
    hide LinkOk, Learn, EntryOk, FlightOk, Wired, Cheaper;
    PeerOf(topo, x);
    var s' := Step(topo, s, Deliver(x));
    var e, r := s.links[x][0], topo.owner[topo.peer[x]];
    LearnImproves(topo, s, x);
    DeliverProgress(topo, s, x);
    if h == r && d == e.address && s'.tables[r] != s.tables[r] {
      NewEntryOk(topo, s, s', x, e);
    } else {
      assert EntryOk(topo, s, h, d);
      StillOk(topo, s, s', h, d);
    }
  }

  /** An entry in flight stays sound when a table gets cheaper, unless it is the receiver that
      has just switched to this very link. */
  lemma StillInFlight(topo: Topology, s: Net, s': Net, y: Address, e: RipEntry)
    requires Shape(topo, s) && Shape(topo, s') && Progress(s, s')
    requires y in topo.owner && FlightOk(topo, s, y, e)
    requires var t, u := s.tables[topo.owner[topo.peer[y]]], s'.tables[topo.owner[topo.peer[y]]];
             e.address in u ==>
               (e.address in t && u[e.address] == t[e.address]) || u[e.address].nextHop != y || e.cost + 1 <= u[e.address].cost
    ensures FlightOk(topo, s', y, e)
  {
    hide Walk;
  }

  lemma DeliverKeepsLink(topo: Topology, s: Net, x: Address, y: Address)
    requires Inv(topo, s) && Enabled(topo, s, Deliver(x)) && y in topo.owner
    ensures LinkOk(topo, Step(topo, s, Deliver(x)), y)
  {
    hide Learn, EntryOk, FlightOk, Wired, Cheaper;
    var s' := Step(topo, s, Deliver(x));
    LearnImproves(topo, s, x);
    DeliverProgress(topo, s, x);
    assert LinkOk(topo, s, y);
    var q := s'.links[y];
    forall i | 0 <= i < |q| ensures q[i].cost == INFINITY || FlightOk(topo, s', y, q[i]) {
      var j := if y == x then i + 1 else i;
      assert q[i] == s.links[y][j];
      if q[i].cost != INFINITY {
        assert FlightOk(topo, s, y, s.links[y][j]);
        StillInFlight(topo, s, s', y, q[i]);
      }
    }
  }

  lemma DeliverKeeps(topo: Topology, s: Net, x: Address)
    requires Inv(topo, s) && Enabled(topo, s, Deliver(x))
    ensures Inv(topo, Step(topo, s, Deliver(x)))
  {
    hide EntryOk, LinkOk, Learn, Wired;
    var s' := Step(topo, s, Deliver(x));
    LearnImproves(topo, s, x);
    assert forall d :: d in topo.owner ==> d in s'.tables[topo.owner[d]];
    forall h, d | h in s'.tables && d in s'.tables[h] ensures EntryOk(topo, s', h, d) {
      DeliverKeepsEntries(topo, s, x, h, d);
    }
    forall y | y in topo.owner ensures LinkOk(topo, s', y) {
      DeliverKeepsLink(topo, s, x, y);
    }
  }

  /** Every step keeps the invariant, and no route ever gets longer or disappears. */
  lemma InvStep(topo: Topology, s: Net, a: Action)
    requires Inv(topo, s)
    ensures Inv(topo, Step(topo, s, a))
    ensures Progress(s, Step(topo, s, a))
  {
    hide EntryOk, LinkOk, Learn, Walk, Wired, FlightOk;
    if Enabled(topo, s, a) {
      match a
      case Send(x, poisoned, es) =>
        SendKeeps(topo, s, x, poisoned, es);
      case Deliver(x) =>
        DeliverKeeps(topo, s, x);
        DeliverProgress(topo, s, x);
      case Drop(x, i) =>
        DropKeeps(topo, s, x, i);
    }
  }

  ghost function Run(topo: Topology, s: Net, actions: seq<Action>): (r: Net)
    requires Inv(topo, s)
    ensures Inv(topo, r) && r.tables.Keys == s.tables.Keys
    decreases |actions|
  {
    if actions == [] then s
    else
      var b := Run(topo, s, actions[..|actions| - 1]);
      InvStep(topo, b, actions[|actions| - 1]);
      Step(topo, b, actions[|actions| - 1])
  }

  ghost function Reached(topo: Topology, actions: seq<Action>): (r: Net)
    requires Wired(topo)
    ensures Inv(topo, r)
  {
    InitInv(topo);
    Run(topo, Init(topo), actions)
  }

  lemma RunSnoc(topo: Topology, s: Net, actions: seq<Action>, a: Action)
    requires Inv(topo, s)
    ensures Run(topo, s, actions + [a]) == Step(topo, Run(topo, s, actions), a)
  {
    hide Inv, Step;
    assert (actions + [a])[..|actions|] == actions;
  }

  /** The state after the first `n` entries on link x have been handed over. */
  ghost function Learnt(topo: Topology, s: Net, x: Address, n: nat): Net
    requires Shape(topo, s) && x in topo.owner && n <= |s.links[x]|
  {
    var r := topo.owner[topo.peer[x]];
    Net(s.tables[r := LearnAll(s.tables[r], s.links[x][..n], x)], s.links[x := s.links[x][n..]])
  }

  lemma LearntNothing(topo: Topology, s: Net, x: Address)
    requires Shape(topo, s) && x in topo.owner
    ensures Learnt(topo, s, x, 0) == s
  {
    hide Wired;
    PeerOf(topo, x);
    var r := topo.owner[topo.peer[x]];
    assert s.tables == s.tables[r := s.tables[r]];
    assert s.links == s.links[x := s.links[x][0..]];
  }

  lemma LearntOneMore(topo: Topology, s: Net, x: Address, n: nat)
    requires Shape(topo, s) && x in topo.owner && n < |s.links[x]|
    ensures Shape(topo, Learnt(topo, s, x, n))
    ensures Step(topo, Learnt(topo, s, x, n), Deliver(x)) == Learnt(topo, s, x, n + 1)
  {
    hide Wired, Learn;
    PeerOf(topo, x);
    assert s.links[x][..n + 1][..n] == s.links[x][..n];
    assert s.links[x][n..][1..] == s.links[x][n + 1..];
  }

  function Deliveries(x: Address, n: nat): seq<Action> {
    if n == 0 then [] else Deliveries(x, n - 1) + [Deliver(x)]
  }

  lemma InvShape(topo: Topology, s: Net)
    requires Inv(topo, s)
    ensures Shape(topo, s)
  {
  }

  lemma NoDeliveries(topo: Topology, s: Net, x: Address)
    requires Inv(topo, s)
    ensures Run(topo, s, Deliveries(x, 0)) == s
  {
    hide Inv;
  }

  lemma DeliveriesSnoc(topo: Topology, s: Net, x: Address, n: nat)
    requires Inv(topo, s) && n > 0
    ensures Run(topo, s, Deliveries(x, n)) == Step(topo, Run(topo, s, Deliveries(x, n - 1)), Deliver(x))
  {
    hide Run, Step, Inv;
    RunSnoc(topo, s, Deliveries(x, n - 1), Deliver(x));
  }

  /** Handing a message's entries over one at a time comes to what the handler does with the
      whole message. */
  lemma {:induction false} MessageIsLearntWhole(topo: Topology, s: Net, x: Address, n: nat)
    requires Inv(topo, s) && x in topo.owner && n <= |s.links[x]|
    ensures Run(topo, s, Deliveries(x, n)) == Learnt(topo, s, x, n)
    decreases n
  {
    hide Inv, Learnt, Step, Run, Deliveries, Wired;
    InvShape(topo, s);
    if n == 0 {
      NoDeliveries(topo, s, x);
      LearntNothing(topo, s, x);
    } else {
      MessageIsLearntWhole(topo, s, x, n - 1);
      LearntOneMore(topo, s, x, n - 1);
      DeliveriesSnoc(topo, s, x, n);
    }
  }
}
