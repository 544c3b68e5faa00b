/** Runs of a connection from the first SYN, and the invariant they all keep. */
module Runs {
  import opened Ring
  import opened TcbModel
  import opened HalfConnection
  import opened Connection

  /** Connect has sent its SYN to a listening peer. */
  function Init(iss: nat): Conn {
    Conn(Tcb(SynSent, InitSnd(iss), BlankRcv()), Tcb(Listen, InitSnd(0), BlankRcv()), [Syn(InitSnd(iss))], [], {}, {})
  }

  function Me(k: Conn, side: Side): Tcb {
    if side == Client then k.c else k.s
  }

  function Peer(side: Side): Side {
    if side == Client then Server else Client
  }

  function SentBy(k: Conn, side: Side): seq<Segment> {
    if side == Client then k.cs else k.sc
  }

  /** A side takes a step. */
  function Step(k: Conn, side: Side, a: Action): Conn
    requires Ready(Me(k, side), a, SentBy(k, Peer(side)))
  {
    var (t, out) := Local(Me(k, side), a, SentBy(k, Peer(side)));
    var seen := if a.Arrive? then {a.i} else {};
    if side == Client then k.(c := t, cs := k.cs + out, scSeen := k.scSeen + seen)
    else k.(s := t, sc := k.sc + out, csSeen := k.csSeen + seen)
  }

  // ---- the invariant -------------------------------------------------------

  predicate FreshSnd(s: Snd) {
    s == InitSnd(s.iss).(retries := s.retries) && s.retries <= MAX_RETRANSMISSIONS
  }

  /** The peer listens, or has answered the SYN. */
  ghost predicate Answering(s: Tcb, sc: seq<Segment>, iss: nat) {
    || (s == Tcb(Listen, InitSnd(0), BlankRcv()) && sc == [])
    || (s.state in {SynReceived, Closed} && FreshSnd(s.snd) && s.rcv == InitRcv(iss) && forall g :: g in sc ==> g == SynAck(s))
  }

  /** The client has not heard from the server. */
  ghost predicate Opening(k: Conn) {
    && k.c.state in {SynSent, Closed}
    && FreshSnd(k.c.snd)
    && k.c.rcv == BlankRcv()
    && (forall g :: g in k.cs ==> g == Syn(k.c.snd))
    && Answering(k.s, k.sc, k.c.snd.iss)
  }

  ghost predicate Inv(k: Conn) {
    Opening(k) || Pair(k.c, k.s, k.cs, k.sc)
  }

  lemma InvReady(k: Conn, side: Side, a: Action)
    requires Inv(k)
    ensures Ready(Me(k, side), a, SentBy(k, Peer(side)))
  {
    if Pair(k.c, k.s, k.cs, k.sc) {
      if side == Client { PairReady(k.c, k.s, k.cs, k.sc, a); } else { PairReady(k.s, k.c, k.sc, k.cs, a); }
    }
  }

  /** A sender that has sent nothing and a receiver that has received nothing. */
  lemma FreshHalf(s: Snd, r: Rcv, data: seq<Segment>, acks: seq<Segment>)
    requires s.first == s.nxt == s.lbw && s.written == [] && s.cuts == {s.first} && s.rtx == []
    requires s.una == s.first || (s.una + 1 == s.first && s.wnd == 0)
    requires 0 < s.first && s.wnd <= MAX_BUF_SIZE && s.retries <= MAX_RETRANSMISSIONS && s.burst == 0 && !s.probing && !s.cancelled
    requires r == InitRcv(s.first - 1)
    requires forall g :: g in data ==> g.payload == [] && !g.fin
    requires forall g :: g in acks && g.hasAck ==> g.ackNum == s.first && g.wnd == MAX_BUF_SIZE
    ensures Half(s, r, data, acks) && Contiguous(s, r)
  {
    assert Holds(r.buf, s.written, s.first, r.lbr, DataEnd(r));
    forall g | g in acks ensures AckOk(g, s, r) {
    }
  }

  /** The SYN-ACK synchronises both directions. */
  lemma Synchronised(k: Conn, newIss: nat)
    requires Opening(k) && k.c.state == SynSent && k.s.state != Listen
    ensures var (c, out) := HandleSynSent(k.c, SynAck(k.s), newIss);
            && c.state == Established
            && Pair(c, k.s, k.cs + out, k.sc)
  {
    hide Half;
    var (c, out) := HandleSynSent(k.c, SynAck(k.s), newIss);
    assert c.rcv == InitRcv(k.s.snd.first - 1);
    FreshHalf(c.snd, k.s.rcv, k.cs + out, k.sc);
    FreshHalf(k.s.snd, c.rcv, k.sc, k.cs + out);
  }

  lemma OpeningStep(k: Conn, side: Side, a: Action)
    requires Opening(k)
    ensures Ready(Me(k, side), a, SentBy(k, Peer(side)))
    ensures Inv(Step(k, side, a))
  {
    hide Pair, Half;
    InvReady(k, side, a);
    var k' := Step(k, side, a);
    if a.Arrive? && side == Client && a.i < |k.sc| && k.c.state == SynSent {
      assert k.sc[a.i] in k.sc;
      Synchronised(k, a.newIss);
    } else if side == Client {
      assert Opening(k');
    } else if a.Arrive? && a.i < |k.cs| {
      assert k.cs[a.i] in k.cs;
      assert Opening(k');
    } else {
      assert Opening(k');
    }
  }

  lemma InvStep(k: Conn, side: Side, a: Action)
    requires Inv(k)
    ensures Ready(Me(k, side), a, SentBy(k, Peer(side)))
    ensures Inv(Step(k, side, a))
  {
    hide Half, Opening;
    if Pair(k.c, k.s, k.cs, k.sc) {
      if side == Client { PairStep(k.c, k.s, k.cs, k.sc, a); } else { PairStep(k.s, k.c, k.sc, k.cs, a); }
    } else {
      OpeningStep(k, side, a);
    }
  }

  lemma InitInv(iss: nat)
    ensures Inv(Init(iss))
  {
    assert Opening(Init(iss));
  }

  /** A step from a state of a run. */
  ghost function Next(k: Conn, side: Side, a: Action): (k': Conn)
    requires Inv(k)
    ensures Inv(k')
  {
    InvStep(k, side, a);
    Step(k, side, a)
  }

  /** The state after a sequence of steps. That it is defined at all says that along
      every run no subtraction underflows and Receive's copying loop always ends. */
  ghost function Run(k: Conn, steps: seq<(Side, Action)>): (k': Conn)
    requires Inv(k)
    ensures Inv(k')
    decreases |steps|
  {
    if steps == [] then k else Run(Next(k, steps[0].0, steps[0].1), steps[1..])
  }

  ghost function Reached(iss: nat, steps: seq<(Side, Action)>): (k: Conn)
    ensures Inv(k)
  {
    InitInv(iss);
    Run(Init(iss), steps)
  }

  lemma {:induction false} RunSnoc(k: Conn, steps: seq<(Side, Action)>, side: Side, a: Action)
    requires Inv(k)
    ensures Run(k, steps + [(side, a)]) == Next(Run(k, steps), side, a)
    decreases |steps|
  {
    hide Inv, Step;
    var all := steps + [(side, a)];
    if steps == [] {
      assert all[1..] == [];
    } else {
      assert all[1..] == steps[1..] + [(side, a)];
      RunSnoc(Next(k, steps[0].0, steps[0].1), steps[1..], side, a);
    }
  }
}
