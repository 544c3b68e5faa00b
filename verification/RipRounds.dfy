/** Full update rounds can always be completed, so convergence is within reach of every state. */
module RipRounds {
  import opened Rip
  import opened RipNetwork
  import opened RipGuarantees

  lemma {:induction false} SomeList(t: Table, keys: set<Address>, poison: Option<Address>) returns (es: seq<RipEntry>)
    requires keys <= t.Keys
    ensures Lists(t, keys, poison, es)
    decreases keys
  {
    es := [];
    if keys != {} {
      var d :| d in keys;
      var rest := SomeList(t, keys - {d}, poison);
      ListsOneMore(t, keys - {d}, poison, rest, d);
      assert keys - {d} + {d} == keys;
      es := if t[d].cost == INFINITY then rest else rest + [RipEntry(d, Shown(t[d], poison))];
    }
  }

  lemma SendsLater(topo: Topology, s: Net, first: seq<Action>, second: seq<Action>, x: Address, i: nat)
    requires Inv(topo, s) && i < |first| && SendsAt(topo, s, first, x, i)
    ensures SendsAt(topo, s, first + second, x, i)
  {
    hide Inv, Run, Enabled;
    assert (first + second)[..i] == first[..i];
  }

  ghost predicate AllSend(topo: Topology, s: Net, actions: seq<Action>, xs: set<Address>)
    requires Inv(topo, s)
  {
    forall x :: x in xs ==> exists i: nat :: i < |actions| && SendsAt(topo, s, actions, x, i)
  }

  lemma AllSendLater(topo: Topology, s: Net, first: seq<Action>, second: seq<Action>, xs: set<Address>)
    requires Inv(topo, s) && AllSend(topo, s, first, xs)
    ensures AllSend(topo, s, first + second, xs)
  {
    hide Inv, SendsAt;
    forall x | x in xs ensures exists i: nat :: i < |first + second| && SendsAt(topo, s, first + second, x, i) {
      var i: nat :| i < |first| && SendsAt(topo, s, first, x, i);
      SendsLater(topo, s, first, second, x, i);
    }
  }

  /** One more interface sends, at the end of the run. */
  lemma SendNow(topo: Topology, s: Net, actions: seq<Action>, x: Address) returns (a: Action)
    requires Inv(topo, s) && x in topo.owner
    ensures !a.Drop? && SendsAt(topo, s, actions + [a], x, |actions|)
  {
    hide Inv, Run, Lists, Wired;
    var b := Run(topo, s, actions);
    InvShape(topo, b);
    PeerOf(topo, x);
    var t := b.tables[topo.owner[x]];
    var es := SomeList(t, t.Keys, Some(topo.peer[x]));
    a := Send(x, true, es);
    assert (actions + [a])[..|actions|] == actions;
  }

  lemma {:induction false} SendAll(topo: Topology, s: Net, xs: set<Address>) returns (actions: seq<Action>)
    requires Inv(topo, s) && xs <= topo.owner.Keys
    ensures NoDrops(actions) && AllSend(topo, s, actions, xs)
    decreases xs
  {
    hide Inv, SendsAt;
    actions := [];
    if xs != {} {
      var x :| x in xs;
      var before := SendAll(topo, s, xs - {x});
      var a := SendNow(topo, s, before, x);
      AllSendLater(topo, s, before, [a], xs - {x});
      actions := before + [a];
      forall y | y in xs ensures exists i: nat :: i < |actions| && SendsAt(topo, s, actions, y, i) {
        if y == x {
          assert SendsAt(topo, s, actions, y, |before|);
        } else {
          assert y in xs - {x};
        }
      }
    }
  }

  lemma DeliveriesDropNothing(x: Address, n: nat)
    ensures NoDrops(Deliveries(x, n))
  {
  }

  lemma {:induction false} DrainAll(topo: Topology, s: Net, xs: set<Address>) returns (actions: seq<Action>)
    requires Inv(topo, s) && xs <= topo.owner.Keys
    ensures NoDrops(actions)
    ensures var l := Run(topo, s, actions).links; forall x :: x in xs ==> x in l && l[x] == []
    decreases xs
  {
    hide Inv, Step, Run, Wired;
    actions := [];
    if xs != {} {
      var x :| x in xs;
      var before := DrainAll(topo, s, xs - {x});
      var b := Run(topo, s, before);
      InvShape(topo, b);
      var n := |b.links[x]|;
      MessageIsLearntWhole(topo, b, x, n);
      DeliveriesDropNothing(x, n);
      RunSplit(topo, s, before, Deliveries(x, n));
      actions := before + Deliveries(x, n);
    }
  }

  /** From every state, some continuation is a full round. */
  lemma FullRoundExists(topo: Topology, s: Net) returns (actions: seq<Action>)
    requires Inv(topo, s)
    ensures FullRound(topo, s, actions)
  {
    hide Inv, SendsAt, Run;
    var first := SendAll(topo, s, topo.owner.Keys);
    var second := DrainAll(topo, Run(topo, s, first), topo.owner.Keys);
    AllSendLater(topo, s, first, second, topo.owner.Keys);
    RunSplit(topo, s, first, second);
    actions := first + second;
    assert AllSend(topo, s, actions, topo.owner.Keys);
  }

  lemma {:induction false} FullRoundsExist(topo: Topology, s: Net, k: nat) returns (rounds: seq<seq<Action>>)
    requires Inv(topo, s)
    ensures |rounds| == k && FullRounds(topo, s, rounds)
    decreases k
  {
    hide Inv, Run, FullRound;
    rounds := [];
    if k > 0 {
      var round := FullRoundExists(topo, s);
      var rest := FullRoundsExist(topo, Run(topo, s, round), k - 1);
      rounds := [round] + rest;
      assert rounds[1..] == rest;
    }
  }

  /** Whatever has happened and whatever was lost so far, fifteen rounds that lose nothing are
      possible, and they leave every host with the exact distance of everything within reach. */
  lemma ConvergenceIsAlwaysPossible(topo: Topology, before: seq<Action>) returns (rounds: seq<seq<Action>>)
    requires Wired(topo)
    ensures FullRounds(topo, Reached(topo, before), rounds)
    ensures var s := AfterRounds(topo, Reached(topo, before), rounds);
            forall h, d, n: nat {:trigger Distance(topo, h, d, n)} ::
              h in s.tables && d in topo.owner && n < INFINITY && Distance(topo, h, d, n) ==>
                d in s.tables[h] && s.tables[h][d].cost == n
  {
    hide Inv, Reached, FullRounds, AfterRounds, Distance, Wired;
    rounds := FullRoundsExist(topo, Reached(topo, before), 15);
    var s := AfterRounds(topo, Reached(topo, before), rounds);
    forall h, d, n: nat | h in s.tables && d in topo.owner && n < INFINITY && Distance(topo, h, d, n)
      ensures d in s.tables[h] && s.tables[h][d].cost == n
    {
      RipConverges(topo, before, rounds, h, d, n);
    }
  }
}
