/** The routing table and the RIP handler of one host (pkg/ip/routing_table.go and
    pkg/ip/rip_handler.go). */
module Rip {
  const INFINITY := 16

  type Address = nat

  datatype Entry = Entry(nextHop: Address, cost: nat)

  type Table = map<Address, Entry>

  datatype RipEntry = RipEntry(address: Address, cost: nat)

  datatype Option<T> = None | Some(value: T)

  /** Costs are 32-bit unsigned. */
  function PlusOne(cost: nat): nat {
    (cost + 1) % 0x1_0000_0000
  }

  /** Whether an advertised entry takes the place of what the table holds. */
  predicate Replaces(t: Table, e: RipEntry, nextHop: Address) {
    || e.address !in t
    || PlusOne(e.cost) < t[e.address].cost
    || (PlusOne(e.cost) > t[e.address].cost && t[e.address].nextHop == nextHop)
  }

  function Learn(t: Table, e: RipEntry, nextHop: Address): Table {
    if e.cost != INFINITY && Replaces(t, e, nextHop) then
      t[e.address := Entry(nextHop, PlusOne(e.cost))]
    else t
  }

  function LearnAll(t: Table, es: seq<RipEntry>, nextHop: Address): Table {
    if es == [] then t
    else Learn(LearnAll(t, es[..|es| - 1], nextHop), es[|es| - 1], nextHop)
  }

  /** The cost shown to a neighbour: routes through that neighbour are poisoned. */
  function Shown(e: Entry, poison: Option<Address>): nat {
    if poison == Some(e.nextHop) then INFINITY else e.cost
  }

  /** `es` lists, in some order, each destination of `keys` that has a finite cost, once. */
  ghost predicate Lists(t: Table, keys: set<Address>, poison: Option<Address>, es: seq<RipEntry>) {
    && (forall i :: 0 <= i < |es| ==>
          && es[i].address in keys && es[i].address in t
          && t[es[i].address].cost != INFINITY
          && es[i].cost == Shown(t[es[i].address], poison))
    && (forall i, j :: 0 <= i < j < |es| ==> es[i].address != es[j].address)
    && (forall d :: d in keys && d in t && t[d].cost != INFINITY ==>
          RipEntry(d, Shown(t[d], poison)) in es)
  }

  ghost predicate Advertises(t: Table, poison: Option<Address>, es: seq<RipEntry>) {
    Lists(t, t.Keys, poison, es)
  }

  lemma ListsOneMore(t: Table, keys: set<Address>, poison: Option<Address>, es: seq<RipEntry>, d: Address)
    requires Lists(t, keys, poison, es) && d in t && d !in keys
    ensures Lists(t, keys + {d}, poison,
                  if t[d].cost == INFINITY then es else es + [RipEntry(d, Shown(t[d], poison))])
  {
    var after := if t[d].cost == INFINITY then es else es + [RipEntry(d, Shown(t[d], poison))];
    forall k | k in keys + {d} && k in t && t[k].cost != INFINITY
      ensures RipEntry(k, Shown(t[k], poison)) in after
    {
      if k == d {
        assert after[|es|] == RipEntry(k, Shown(t[k], poison));
      } else {
        assert RipEntry(k, Shown(t[k], poison)) in es;
      }
    }
  }

  /** The addresses of a message are distinct, and no cost exceeds 16. */
  ghost predicate WellFormed(es: seq<RipEntry>) {
    && (forall e :: e in es ==> e.cost <= INFINITY)
    && (forall i, j :: 0 <= i < j < |es| ==> es[i].address != es[j].address)
  }

  /** Destination `e.address` after an advertisement `e` of finite cost from the neighbour at `nextHop`: a new
      destination is entered one farther than it is from the neighbour; a route through the neighbour
      follows its cost, up or down; and any other route is left for a strictly shorter one only. */
  predicate Follows(t: Table, u: Table, e: RipEntry, nextHop: Address) {
    && e.address in u
    && if e.address !in t then u[e.address] == Entry(nextHop, e.cost + 1)
       else if t[e.address].nextHop == nextHop then u[e.address] == Entry(nextHop, e.cost + 1)
       else if e.cost + 1 < t[e.address].cost then u[e.address] == Entry(nextHop, e.cost + 1)
       else u[e.address] == t[e.address]
  }

  /** The distance-vector rule for a whole message: each advertised destination is updated, and no other. */
  ghost predicate UpdatedBy(t: Table, u: Table, es: seq<RipEntry>, nextHop: Address) {
    && (forall e :: e in es && e.cost != INFINITY ==> Follows(t, u, e, nextHop))
    && (forall d :: (d in t || d in u) && (forall e :: e in es ==> e.address != d || e.cost == INFINITY) ==>
          d in t && d in u && u[d] == t[d])
  }

  lemma {:induction false} LearnAllFollows(t: Table, es: seq<RipEntry>, nextHop: Address)
    requires WellFormed(es)
    ensures UpdatedBy(t, LearnAll(t, es, nextHop), es, nextHop)
  {
    if es != [] {
      var n := |es| - 1;
      var init, last := es[..n], es[n];
      hide UpdatedBy, Learn;
      assert WellFormed(init);
      LearnAllFollows(t, init, nextHop);
      LearnOne(t, LearnAll(t, init, nextHop), init, last, nextHop);
      assert es == init + [last];
    }
  }

  lemma LearnOne(t: Table, u: Table, es: seq<RipEntry>, e: RipEntry, nextHop: Address)
    requires UpdatedBy(t, u, es, nextHop) && e.cost <= INFINITY && forall d :: d in es ==> d.address != e.address
    ensures UpdatedBy(t, Learn(u, e, nextHop), es + [e], nextHop)
  {
    var v := Learn(u, e, nextHop);
    forall d | d in es + [e] && d.cost != INFINITY ensures Follows(t, v, d, nextHop) {
      if d in es {
        assert Follows(t, u, d, nextHop);
      }
    }
    assert e in es + [e];
    forall d | (d in t || d in v) && (forall h :: h in es + [e] ==> h.address != d || h.cost == INFINITY)
      ensures d in t && d in v && v[d] == t[d]
    {
      assert forall h :: h in es ==> h in es + [e];
    }
  }

  /** With costs of at most 16 on the wire, no stored cost ever exceeds 16, and a host's
      own addresses, which it reaches through itself, are never re-routed. */
  lemma {:induction false} LearnAllKeeps(t: Table, es: seq<RipEntry>, nextHop: Address)
    requires forall e :: e in es ==> e.cost <= INFINITY
    requires forall d :: d in t ==> t[d].cost <= INFINITY
    ensures var after := LearnAll(t, es, nextHop);
            && (forall d :: d in after ==> after[d].cost <= INFINITY)
            && (forall d :: d in t && t[d].cost == 0 && t[d].nextHop != nextHop ==> d in after && after[d] == t[d])
            && (forall d :: d in after && (d !in t || after[d] != t[d]) ==> after[d].nextHop == nextHop)
  {
    if es != [] {
      LearnAllKeeps(t, es[..|es| - 1], nextHop);
      assert es[|es| - 1] in es;
    }
  }

  class RoutingTable {
    var table: Table

    /** InitRoutingTable: every local interface, at cost 0 through itself. */
    constructor (localInterfaces: set<Address>)
      ensures table == map d | d in localInterfaces :: Entry(d, 0)
    {
      table := map[];
      new;
      var left := localInterfaces;
      while left != {}
        invariant left <= localInterfaces
        invariant table == map d | d in localInterfaces - left :: Entry(d, 0)
        decreases |left|
      {
        var d :| d in left;
        table := table[d := Entry(d, 0)];
        left := left - {d};
      }
    }

    method CheckRoute(dest: Address) returns (entry: Option<Entry>)
      ensures entry.Some? <==> dest in table
      ensures entry.Some? ==> entry.value == table[dest]
    {
      return if dest in table then Some(table[dest]) else None;
    }

    method UpdateRoute(dest: Address, newCost: nat, nextHop: Address)
      modifies this
      ensures table == if dest in old(table) then old(table)[dest := Entry(nextHop, newCost)] else old(table)
    {
      if dest in table {
        table := table[dest := Entry(nextHop, newCost)];
      }
    }

    method AddRoute(dest: Address, cost: nat, nextHop: Address)
      modifies this
      ensures table == old(table)[dest := Entry(nextHop, cost)]
    {
      table := table[dest := Entry(nextHop, cost)];
    }

    /** Every route through one of `nextHops` becomes unusable; nothing else changes. */
    method RemoveNextHops(nextHops: seq<Address>)
      modifies this
      ensures table.Keys == old(table).Keys
      ensures forall d :: d in table ==>
                table[d] == if old(table)[d].nextHop in nextHops then old(table)[d].(cost := INFINITY) else old(table)[d]
    {
      ghost var before := table;
      var left := table.Keys;
      while left != {}
        invariant left <= table.Keys == before.Keys
        invariant forall d :: d in left ==> table[d] == before[d]
        invariant forall d :: d in table && d !in left ==>
                    table[d] == if before[d].nextHop in nextHops then before[d].(cost := INFINITY) else before[d]
        decreases |left|
      {
        var d :| d in left;
        for i := 0 to |nextHops|
          invariant left <= table.Keys == before.Keys
          invariant forall k :: k in table && k != d ==>
                      table[k] == if k in left || before[k].nextHop !in nextHops then before[k] else before[k].(cost := INFINITY)
          invariant table[d] == if before[d].nextHop in nextHops[..i] then before[d].(cost := INFINITY) else before[d]
        {
          if nextHops[i] == table[d].nextHop {
            table := table[d := table[d].(cost := INFINITY)];
          }
        }
        left := left - {d};
      }
    }
  }

  /** Every entry of a message from the neighbour at `nextHop` is learnt, in order; for a well-formed message that
      is the distance-vector rule. */
  method ReceivePacket(rt: RoutingTable, entries: seq<RipEntry>, nextHop: Address)
    modifies rt
    ensures rt.table == LearnAll(old(rt.table), entries, nextHop)
    ensures WellFormed(entries) ==> UpdatedBy(old(rt.table), rt.table, entries, nextHop)
  {
    for i := 0 to |entries|
      invariant rt.table == LearnAll(old(rt.table), entries[..i], nextHop)
    {
      var e := entries[i];
      assert entries[..i + 1][..i] == entries[..i];
      if e.cost == INFINITY {
        continue;
      }
      var entry := rt.CheckRoute(e.address);
      if entry.None? {
        rt.AddRoute(e.address, PlusOne(e.cost), nextHop);
      } else {
        var o := entry.value;
        if PlusOne(e.cost) < o.cost || (PlusOne(e.cost) > o.cost && o.nextHop == nextHop) {
          rt.UpdateRoute(e.address, PlusOne(e.cost), nextHop);
        }
      }
    }
    assert entries[..|entries|] == entries;
    if WellFormed(entries) {
      LearnAllFollows(old(rt.table), entries, nextHop);
    }
  }

  method GetAllEntries(rt: RoutingTable) returns (entries: seq<RipEntry>)
    ensures Advertises(rt.table, None, entries)
    ensures forall e :: e in entries ==> e.address in rt.table && e.cost == rt.table[e.address].cost
  {
    entries := [];
    var left := rt.table.Keys;
    while left != {}
      invariant left <= rt.table.Keys
      invariant Lists(rt.table, rt.table.Keys - left, None, entries)
      decreases |left|
    {
      var d :| d in left;
      ListsOneMore(rt.table, rt.table.Keys - left, None, entries, d);
      assert rt.table.Keys - (left - {d}) == rt.table.Keys - left + {d};
      left := left - {d};
      if rt.table[d].cost == INFINITY {
        continue;
      }
      entries := entries + [RipEntry(d, rt.table[d].cost)];
    }
    assert rt.table.Keys - left == rt.table.Keys;
  }

  method GetSpecificEntries(rt: RoutingTable, neighborToPoison: Address) returns (entries: seq<RipEntry>)
    ensures Advertises(rt.table, Some(neighborToPoison), entries)
    ensures forall e :: e in entries ==>
              && e.address in rt.table
              && e.cost == if rt.table[e.address].nextHop == neighborToPoison then 16 else rt.table[e.address].cost
  {
    entries := [];
    var left := rt.table.Keys;
    while left != {}
      invariant left <= rt.table.Keys
      invariant Lists(rt.table, rt.table.Keys - left, Some(neighborToPoison), entries)
      decreases |left|
    {
      var d :| d in left;
      ListsOneMore(rt.table, rt.table.Keys - left, Some(neighborToPoison), entries, d);
      assert rt.table.Keys - (left - {d}) == rt.table.Keys - left + {d};
      left := left - {d};
      if rt.table[d].cost == INFINITY {
        continue;
      }
      var cost := if rt.table[d].nextHop == neighborToPoison then INFINITY else rt.table[d].cost;
      entries := entries + [RipEntry(d, cost)];
    }
    assert rt.table.Keys - left == rt.table.Keys;
  }
}
