/** What RIP guarantees in every run of RipNetwork: sound costs, loop-free routes, and
    convergence to shortest paths. */
module RipGuarantees {
  import opened Rip
  import opened RipNetwork

  lemma EntryAt(topo: Topology, s: Net, h: Host, d: Address)
    requires Inv(topo, s) && h in s.tables && d in s.tables[h]
    ensures Shape(topo, s) && EntryOk(topo, s, h, d)
  {
    hide Wired, LinkOk;
    assert EntryOk(topo, s, h, d);
  }

  /** The entry for d at h costs at most 16 and at least the hop distance: it is the length of
      a walk. A host's own addresses are never re-routed, and an address 16 or more links away is
      never usable. */
  ghost predicate Sound(topo: Topology, e: Entry, h: Host, d: Address)
    requires Wired(topo)
  {
    && d in topo.owner
    && e.cost <= INFINITY
    && Walk(topo, h, d, e.cost)
    && (forall n: nat :: Distance(topo, h, d, n) ==> n <= e.cost)
    && (topo.owner[d] == h ==> e == Entry(d, 0))
    && ((forall n: nat :: n < INFINITY ==> !Walk(topo, h, d, n)) ==> e.cost == INFINITY)
  }

  /** Every entry of every table is sound, in every state of every run. */
  lemma CostsAreSound(topo: Topology, actions: seq<Action>, h: Host, d: Address)
    requires Wired(topo)
    requires var s := Reached(topo, actions); h in s.tables && d in s.tables[h]
    ensures Sound(topo, Reached(topo, actions).tables[h][d], h, d)
  {
    hide Inv, Reached;
    EntryAt(topo, Reached(topo, actions), h, d);
  }

  /** The hosts met by following next hops from h towards d. */
  ghost function Route(topo: Topology, s: Net, h: Host, d: Address): seq<Host>
    requires Inv(topo, s) && h in s.tables && d in s.tables[h]
    decreases s.tables[h][d].cost
  {
    EntryAt(topo, s, h, d);
    if topo.owner[d] == h then [h]
    else [h] + Route(topo, s, topo.owner[s.tables[h][d].nextHop], d)
  }

  ghost predicate Descends(s: Net, route: seq<Host>, d: Address, cost: nat) {
    && (forall i :: 0 <= i < |route| ==>
          route[i] in s.tables && d in s.tables[route[i]] && s.tables[route[i]][d].cost + i <= cost)
    && (forall i, j :: 0 <= i < j < |route| ==> route[i] != route[j])
  }

  lemma DescendsOneMore(s: Net, h: Host, rest: seq<Host>, d: Address, cost: nat)
    requires h in s.tables && d in s.tables[h] && s.tables[h][d].cost == cost && cost > 0
    requires Descends(s, rest, d, cost - 1)
    ensures Descends(s, [h] + rest, d, cost)
  {
    var route := [h] + rest;
    forall i | 0 <= i < |route|
      ensures route[i] in s.tables && d in s.tables[route[i]] && s.tables[route[i]][d].cost + i <= cost
    {
      if i > 0 {
        assert route[i] == rest[i - 1];
      }
    }
    forall i, j | 0 <= i < j < |route| ensures route[i] != route[j] {
      assert route[j] == rest[j - 1];
      if i > 0 {
        assert route[i] == rest[i - 1];
      }
    }
  }

  lemma DescendsWeaken(s: Net, route: seq<Host>, d: Address, low: nat, high: nat)
    requires Descends(s, route, d, low) && low <= high
    ensures Descends(s, route, d, high)
  {
  }

  lemma WalkOneMore(topo: Topology, x: Address, d: Address, n: nat)
    requires Wired(topo) && d in topo.owner && x in topo.owner && Walk(topo, topo.owner[x], d, n)
    ensures Walk(topo, topo.owner[topo.peer[x]], d, n + 1)
  {
    var y := topo.peer[x];
    assert topo.owner[topo.peer[y]] == topo.owner[x];
  }

  lemma {:induction false} RouteIsLoopFree(topo: Topology, s: Net, h: Host, d: Address)
    requires Inv(topo, s) && h in s.tables && d in s.tables[h]
    ensures d in topo.owner && Wired(topo)
    ensures var route := Route(topo, s, h, d);
            && 1 <= |route| <= s.tables[h][d].cost + 1
            && route[0] == h && route[|route| - 1] == topo.owner[d]
            && Walk(topo, h, d, |route| - 1)
            && Descends(s, route, d, s.tables[h][d].cost)
    decreases s.tables[h][d].cost
  {
    hide Inv, Descends, Wired, Walk;
    EntryAt(topo, s, h, d);
    var e := s.tables[h][d];
    if topo.owner[d] == h {
      OneHost(s, h, d);
    } else {
      var g := topo.owner[e.nextHop];
      RouteIsLoopFree(topo, s, g, d);
      DescendsWeaken(s, Route(topo, s, g, d), d, s.tables[g][d].cost, e.cost - 1);
      DescendsOneMore(s, h, Route(topo, s, g, d), d, e.cost);
      WalkOneMore(topo, e.nextHop, d, |Route(topo, s, g, d)| - 1);
    }
  }

  lemma OneHost(s: Net, h: Host, d: Address)
    requires h in s.tables && d in s.tables[h]
    ensures Descends(s, [h], d, s.tables[h][d].cost)
  {
  }

  /** In every state of every run, following next hops from any host that knows a route takes
      at most as many links as the stored cost, meets no host twice, gets strictly cheaper, and
      ends at the owner of the destination. */
  lemma RoutesReachTheOwner(topo: Topology, actions: seq<Action>, h: Host, d: Address)
    requires Wired(topo)
    requires var s := Reached(topo, actions); h in s.tables && d in s.tables[h]
    ensures var s := Reached(topo, actions);
            var route := Route(topo, s, h, d);
            && d in topo.owner
            && 1 <= |route| <= s.tables[h][d].cost + 1
            && route[|route| - 1] == topo.owner[d]
            && (forall i, j :: 0 <= i < j < |route| ==> route[i] != route[j])
  {
    hide Inv;
    RouteIsLoopFree(topo, Reached(topo, actions), h, d);
  }

  /** Host h has a route to d of cost at most n. */
  ghost predicate Knows(s: Net, h: Host, d: Address, n: nat) {
    h in s.tables && d in s.tables[h] && s.tables[h][d].cost <= n
  }

  lemma KnowsProgress(s: Net, s': Net, h: Host, d: Address, n: nat)
    requires Knows(s, h, d, n) && Progress(s, s')
    ensures Knows(s', h, d, n)
  {
    assert Cheaper(s.tables[h], s'.tables[h]);
  }

  /** Every destination within k links, and within 15, has a cost of at most its distance. */
  ghost predicate Converged(topo: Topology, s: Net, k: nat)
    requires Shape(topo, s)
  {
    forall h, d, n: nat {:trigger Walk(topo, h, d, n)} ::
      h in s.tables && d in topo.owner && n <= k && n < INFINITY && Walk(topo, h, d, n) ==>
        Knows(s, h, d, n)
  }

  lemma ConvergedZero(topo: Topology, s: Net)
    requires Inv(topo, s)
    ensures Shape(topo, s) && Converged(topo, s, 0)
  {
    hide Wired, LinkOk;
    forall h, d | h in s.tables && d in topo.owner && Walk(topo, h, d, 0)
      ensures Knows(s, h, d, 0)
    {
      EntryAt(topo, s, h, d);
    }
  }

  /** Either the receiver of link x already knows d at cost n + 1 or better, or news of d at
      cost n or better is on its way. */
  ghost predicate Pending(topo: Topology, s: Net, x: Address, d: Address, n: nat)
    requires Shape(topo, s) && x in topo.owner
  {
    || Knows(s, topo.owner[topo.peer[x]], d, n + 1)
    || exists e :: e in s.links[x] && e.address == d && e.cost <= n
  }

  /** Sending tells the neighbour everything it does not already know: what is poisoned is
      what the neighbour itself is closer to. */
  lemma SendInforms(topo: Topology, s: Net, x: Address, poisoned: bool, es: seq<RipEntry>, d: Address, n: nat)
    requires Inv(topo, s) && Shape(topo, s) && Enabled(topo, s, Send(x, poisoned, es))
    requires Knows(s, topo.owner[x], d, n) && n < INFINITY
    ensures var s' := Step(topo, s, Send(x, poisoned, es)); Shape(topo, s') && Pending(topo, s', x, d, n)
  {
    hide Inv, Walk;
    EntryAt(topo, s, topo.owner[x], d);
    var e := s.tables[topo.owner[x]][d];
    if !poisoned || e.nextHop != topo.peer[x] {
      var shown := RipEntry(d, e.cost);
      assert shown in es;
      assert shown in s.links[x] + es;
    }
  }

  lemma PendingStep(topo: Topology, s: Net, a: Action, x: Address, d: Address, n: nat)
    requires Inv(topo, s) && Shape(topo, s) && x in topo.owner && n < INFINITY && !a.Drop?
    requires Pending(topo, s, x, d, n)
    ensures var s' := Step(topo, s, a); Shape(topo, s') && Pending(topo, s', x, d, n)
  {
    hide Inv, Wired, Learn, Advertises;
    InvStep(topo, s, a);
    var s' := Step(topo, s, a);
    InvShape(topo, s');
    PeerOf(topo, x);
    var r := topo.owner[topo.peer[x]];
    if Knows(s, r, d, n + 1) {
      KnowsProgress(s, s', r, d, n + 1);
    } else {
      var e :| e in s.links[x] && e.address == d && e.cost <= n;
      if a == Deliver(x) {
        LearnImproves(topo, s, x);
        if e != s.links[x][0] {
          assert e in s.links[x][1..];
        }
      } else {
        assert e in s'.links[x];
      }
    }
  }

  ghost predicate NoDrops(actions: seq<Action>) {
    forall i :: 0 <= i < |actions| ==> !actions[i].Drop?
  }

  lemma {:induction false} PendingRun(topo: Topology, s: Net, actions: seq<Action>, x: Address, d: Address, n: nat)
    requires Inv(topo, s) && Shape(topo, s) && x in topo.owner && n < INFINITY && NoDrops(actions)
    requires Pending(topo, s, x, d, n)
    ensures var s' := Run(topo, s, actions); Shape(topo, s') && Pending(topo, s', x, d, n)
    decreases |actions|
  {
    hide Inv, Shape, Step, Pending;
    if actions != [] {
      var last := |actions| - 1;
      PendingRun(topo, s, actions[..last], x, d, n);
      PendingStep(topo, Run(topo, s, actions[..last]), actions[last], x, d, n);
    }
  }

  lemma {:induction false} RunProgress(topo: Topology, s: Net, actions: seq<Action>)
    requires Inv(topo, s)
    ensures Progress(s, Run(topo, s, actions))
    decreases |actions|
  {
    hide Inv, Step;
    if actions != [] {
      var last := |actions| - 1;
      RunProgress(topo, s, actions[..last]);
      InvStep(topo, Run(topo, s, actions[..last]), actions[last]);
    }
  }

  lemma {:induction false} RunSplit(topo: Topology, s: Net, first: seq<Action>, second: seq<Action>)
    requires Inv(topo, s)
    ensures Run(topo, s, first + second) == Run(topo, Run(topo, s, first), second)
    decreases |second|
  {
    hide Inv, Step;
    if second == [] {
      assert first + second == first;
    } else {
      var last := |second| - 1;
      RunSplit(topo, s, first, second[..last]);
      assert (first + second)[..|first + second| - 1] == first + second[..last];
    }
  }

  /** Interface x sends an update at position i of the run. */
  ghost predicate SendsAt(topo: Topology, s: Net, actions: seq<Action>, x: Address, i: nat)
    requires Inv(topo, s) && i < |actions|
  {
    var b := Run(topo, s, actions[..i]);
    actions[i].Send? && actions[i].x == x && Shape(topo, b) && Enabled(topo, b, actions[i])
  }

  /** A full update round: nothing is lost, every interface sends at least once, and
      everything sent has been handled when the round ends. */
  ghost predicate FullRound(topo: Topology, s: Net, actions: seq<Action>)
    requires Inv(topo, s)
  {
    && NoDrops(actions)
    && (forall x :: x in topo.owner ==> exists i: nat :: i < |actions| && SendsAt(topo, s, actions, x, i))
    && (forall x :: x in topo.owner ==> x in Run(topo, s, actions).links && Run(topo, s, actions).links[x] == [])
  }

  /** What interface x sends at position i has reached the neighbour, or is still queued, when
      the run ends. */
  lemma SentIsPending(topo: Topology, s: Net, actions: seq<Action>, i: nat, x: Address, d: Address, n: nat)
    requires Inv(topo, s) && Shape(topo, s) && NoDrops(actions) && x in topo.owner && n < INFINITY
    requires i < |actions| && SendsAt(topo, s, actions, x, i)
    requires Knows(s, topo.owner[x], d, n)
    ensures var s' := Run(topo, s, actions); Shape(topo, s') && Pending(topo, s', x, d, n)
  {
    hide Inv, Wired, Step, Enabled, Run, Pending, Knows, Progress;
    var b := Run(topo, s, actions[..i]);
    RunProgress(topo, s, actions[..i]);
    KnowsProgress(s, b, topo.owner[x], d, n);
    SendInforms(topo, b, x, actions[i].poisoned, actions[i].entries, d, n);
    RunSnoc(topo, s, actions[..i], actions[i]);
    assert actions[..i] + [actions[i]] == actions[..i + 1];
    PendingRun(topo, Run(topo, s, actions[..i + 1]), actions[i + 1..], x, d, n);
    RunSplit(topo, s, actions[..i + 1], actions[i + 1..]);
    assert actions[..i + 1] + actions[i + 1..] == actions;
  }

  /** A full round carries what one end of a link knows to the other end. */
  lemma RoundInforms(topo: Topology, s: Net, actions: seq<Action>, x: Address, d: Address, n: nat)
    requires Inv(topo, s) && Shape(topo, s) && FullRound(topo, s, actions) && x in topo.owner
    requires Knows(s, topo.owner[x], d, n) && n < INFINITY
    ensures Knows(Run(topo, s, actions), topo.owner[topo.peer[x]], d, n + 1)
  {
    hide Inv, Wired, Run, SendsAt;
    var i: nat :| i < |actions| && SendsAt(topo, s, actions, x, i);
    SentIsPending(topo, s, actions, i, x, d, n);
    assert Run(topo, s, actions).links[x] == [];
  }

  /** One full round extends convergence by one link. */
  lemma RoundConverges(topo: Topology, s: Net, actions: seq<Action>, k: nat)
    requires Inv(topo, s) && Shape(topo, s) && FullRound(topo, s, actions) && Converged(topo, s, k)
    ensures var s' := Run(topo, s, actions); Shape(topo, s') && Converged(topo, s', k + 1)
  {
    hide Inv, Run, FullRound, Knows, Cheaper;
    var s' := Run(topo, s, actions);
    InvShape(topo, s');
    RunProgress(topo, s, actions);
    forall h, d, n: nat | h in s'.tables && d in topo.owner && n <= k + 1 && n < INFINITY && Walk(topo, h, d, n)
      ensures Knows(s', h, d, n)
    {
      if n <= k {
        KnowsProgress(s, s', h, d, n);
      } else {
        var y :| y in topo.owner && topo.owner[y] == h && Walk(topo, topo.owner[topo.peer[y]], d, n - 1);
        var x := topo.peer[y];
        assert topo.peer[x] == y;
        RoundInforms(topo, s, actions, x, d, n - 1);
      }
    }
  }

  ghost predicate FullRounds(topo: Topology, s: Net, rounds: seq<seq<Action>>)
    requires Inv(topo, s)
    decreases |rounds|
  {
    rounds == [] || (FullRound(topo, s, rounds[0]) && FullRounds(topo, Run(topo, s, rounds[0]), rounds[1..]))
  }

  ghost function AfterRounds(topo: Topology, s: Net, rounds: seq<seq<Action>>): (r: Net)
    requires Inv(topo, s)
    ensures Inv(topo, r)
    decreases |rounds|
  {
    if rounds == [] then s else AfterRounds(topo, Run(topo, s, rounds[0]), rounds[1..])
  }

  lemma {:induction false} RoundsConverge(topo: Topology, s: Net, rounds: seq<seq<Action>>, k: nat)
    requires Inv(topo, s) && Shape(topo, s) && FullRounds(topo, s, rounds) && Converged(topo, s, k)
    ensures var s' := AfterRounds(topo, s, rounds); Shape(topo, s') && Converged(topo, s', k + |rounds|)
    decreases |rounds|
  {
    hide Inv, Shape, Run, FullRound, Converged;
    if rounds != [] {
      RoundConverges(topo, s, rounds[0], k);
      RoundsConverge(topo, Run(topo, s, rounds[0]), rounds[1..], k + 1);
    }
  }

  /** After k full rounds, from any state a run can reach, every destination at distance at
      most min(k, 15) has exactly its distance as cost, and following next hops takes exactly
      that many links. */
  lemma RipConverges(topo: Topology, before: seq<Action>, rounds: seq<seq<Action>>, h: Host, d: Address, n: nat)
    requires Wired(topo) && d in topo.owner
    requires FullRounds(topo, Reached(topo, before), rounds)
    requires Distance(topo, h, d, n) && n <= |rounds| && n < INFINITY
    requires h in AfterRounds(topo, Reached(topo, before), rounds).tables
    ensures var s := AfterRounds(topo, Reached(topo, before), rounds);
            d in s.tables[h] && s.tables[h][d].cost == n && |Route(topo, s, h, d)| == n + 1
  {
    hide Inv, Wired, FullRounds, Route, Reached;
    var s0 := Reached(topo, before);
    ConvergedZero(topo, s0);
    RoundsConverge(topo, s0, rounds, 0);
    var s := AfterRounds(topo, s0, rounds);
    assert Knows(s, h, d, n);
    EntryAt(topo, s, h, d);
    RouteIsLoopFree(topo, s, h, d);
  }
}
