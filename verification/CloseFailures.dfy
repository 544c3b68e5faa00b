/** Where closing goes wrong for the rest of a connection: acknowledgements of data the peer never
    got, a side that has closed and is stuck in CLOSE_WAIT, and a timer that gives up although
    everything was acknowledged. */
module CloseFailures {
  import opened Ring
  import opened TcbModel
  import opened HalfConnection
  import opened Connection
  import opened Runs
  import opened Guarantees
  import opened Lifecycle

  // ---- acknowledgements of what never arrived ------------------------------

  /** Every acknowledgement the peer has sent lies within what it holds: at most the end of the data that
      has arrived, or one more, for the FIN, once that is all. */
  ghost predicate AcksAreHonest(s: Snd, r: Rcv, acks: seq<Segment>) {
    forall g :: g in acks && g.hasAck ==> g.ackNum <= DataEnd(r) || (g.ackNum == s.lbw + 1 && DataEnd(r) == s.lbw)
  }

  /** A counted FIN has been acknowledged with the number after it. */
  ghost predicate FinAnswered(r: Rcv, acks: seq<Segment>) {
    r.finCounted ==> exists g :: g in acks && g.hasAck && g.ackNum == r.nxt
  }

  lemma AnswerStep(t: Tcb, a: Action, incoming: seq<Segment>)
    requires Ready(t, a, incoming) && (t.rcv.finCounted ==> t.state in {Closing, TimeWait, Closed})
    ensures var (t', out) := Local(t, a, incoming);
            t'.rcv.finCounted ==>
              || (t.rcv.finCounted && t'.rcv.nxt == t.rcv.nxt)
              || (out != [] && out[0].hasAck && out[0].ackNum == t'.rcv.nxt)
  {
    hide OnAck, Store, Coalesce;
  }

  lemma AnsweredGrows(r: Rcv, acks: seq<Segment>, acks': seq<Segment>)
    requires FinAnswered(r, acks) && acks <= acks'
    ensures FinAnswered(r, acks')
  {
    if r.finCounted {
      var g :| g in acks && g.hasAck && g.ackNum == r.nxt;
      assert g in acks';
    }
  }

  ghost predicate AnsweredAt(k: Conn, side: Side) {
    FinAnswered(Me(k, side).rcv, SentBy(k, side))
  }

  lemma CountedState(k: Conn, side: Side)
    requires Inv(k) && Me(k, side).rcv.finCounted
    ensures Me(k, side).state in {Closing, TimeWait, Closed}
  {
    hide Half;
  }

  lemma AnsweredStep(k: Conn, actor: Side, a: Action, side: Side)
    requires Inv(k) && AnsweredAt(k, side)
    ensures AnsweredAt(Next(k, actor, a), side)
  {
    hide Inv, Local;
    InvReady(k, actor, a);
    if actor == side {
      var t := Me(k, side);
      if t.rcv.finCounted {
        CountedState(k, side);
      }
      AnswerStep(t, a, SentBy(k, Peer(side)));
      var (t', out) := Local(t, a, SentBy(k, Peer(side)));
      if t'.rcv.finCounted {
        if t.rcv.finCounted && t'.rcv.nxt == t.rcv.nxt {
          AnsweredGrows(t.rcv, SentBy(k, side), SentBy(k, side) + out);
        } else {
          assert out[0] in SentBy(k, side) + out;
        }
      }
    }
  }

  lemma {:induction false} AnsweredRun(k: Conn, steps: seq<(Side, Action)>, side: Side)
    requires Inv(k) && AnsweredAt(k, side)
    ensures AnsweredAt(Run(k, steps), side)
    decreases |steps|
  {
    hide Inv, Step, AnsweredAt;
    if steps != [] {
      AnsweredStep(k, steps[0].0, steps[0].1, side);
      AnsweredRun(Next(k, steps[0].0, steps[0].1), steps[1..], side);
    }
  }

  /** All that the peer has ever acknowledged it holds, exactly if it has not counted the FIN with data
      missing (which `Lifecycle.FinCountedEarlyExactly` traces to one arrival in FIN_WAIT_1). */
  lemma AcksAreHonestExactly(iss: nat, steps: seq<(Side, Action)>, side: Side)
    requires Open(Me(Reached(iss, steps), side).state)
    ensures var k := Reached(iss, steps);
            var x, y := Me(k, side), Me(k, Peer(side));
            && (AcksAreHonest(x.snd, y.rcv, SentBy(k, Peer(side))) <==> NoGap(x.snd, y.rcv))
            && (Open(y.state) ==> (NoGap(x.snd, y.rcv) <==> !PastFin(y.state) || ArrivedEnd(y) == x.snd.lbw))
  {
    hide Inv, Half, Run;
    var k := Reached(iss, steps);
    InitInv(iss);
    AnsweredRun(Init(iss), steps, Peer(side));
    OpenIsJoined(k, side);
    var x, y := Me(k, side), Me(k, Peer(side));
    Honest(x.snd, y.rcv, SentBy(k, side), SentBy(k, Peer(side)));
    if Open(y.state) {
      StateShowsGap(k, side);
    }
  }

  lemma Honest(s: Snd, r: Rcv, data: seq<Segment>, acks: seq<Segment>)
    requires Half(s, r, data, acks)
    ensures FinAnswered(r, acks) ==> (AcksAreHonest(s, r, acks) <==> NoGap(s, r))
  {
    hide DataOk, QueueOk, CrossOk, Holds, EarlyOk;
    if NoGap(s, r) {
      forall g | g in acks && g.hasAck
        ensures g.ackNum <= DataEnd(r) || (g.ackNum == s.lbw + 1 && DataEnd(r) == s.lbw)
      {
        assert AckOk(g, s, r);
      }
    }
  }

  // ---- closed, and back in CLOSE_WAIT --------------------------------------

  /** The connection is closed at this end, and waits for a Close that has been made. */
  predicate Stuck(t: Tcb) {
    t.state == CloseWait && t.snd.cancelled
  }

  /** A side that has closed gets stuck exactly by the arrival of data that brings RCV.NXT to a FIN it
      had remembered. */
  lemma GetsStuckExactly(iss: nat, steps: seq<(Side, Action)>, side: Side, a: Action)
    requires var k := Reached(iss, steps); Me(k, side).snd.cancelled && !Stuck(Me(k, side))
    ensures var k := Reached(iss, steps);
            var x := Me(k, side);
            Stuck(Me(Next(k, side, a), side)) <==>
              && a.Arrive? && a.i < |SentBy(k, Peer(side))|
              && var g := SentBy(k, Peer(side))[a.i];
                 && x.state in {FinWait1, FinWait2} && g.payload != [] && InWindow(x.rcv, g.seqNum)
                 && CanAccept(x.rcv, g.seqNum, g.payload)
                 && Accept(x.rcv, g.seqNum, g.payload).nxt == x.rcv.pendingFin
  {
    hide Inv, Half, Accept, CanAccept, DataOk;
    var k := Reached(iss, steps);
    var x, y := Me(k, side), Me(k, Peer(side));
    InvReady(k, side, a);
    CancelledIsJoined(k, side);
    if a.Arrive? && a.i < |SentBy(k, Peer(side))| {
      var g := SentBy(k, Peer(side))[a.i];
      DataHasAck(y.snd, x.rcv, SentBy(k, Peer(side)), SentBy(k, side), g);
    }
    StuckStep(x, a, SentBy(k, Peer(side)));
  }

  lemma DataHasAck(s: Snd, r: Rcv, data: seq<Segment>, acks: seq<Segment>, g: Segment)
    requires Half(s, r, data, acks) && g in data
    ensures g.payload != [] ==> g.hasAck && !g.fin
  {
    assert DataOk(g, s, r);
  }

  lemma StuckStep(t: Tcb, a: Action, incoming: seq<Segment>)
    requires Ready(t, a, incoming) && t.snd.cancelled && !Stuck(t) && t.state !in {Listen, SynSent, SynReceived, Established}
    requires a.Arrive? && a.i < |incoming| && incoming[a.i].payload != [] ==> incoming[a.i].hasAck && !incoming[a.i].fin
    ensures Stuck(Local(t, a, incoming).0) <==>
              && a.Arrive? && a.i < |incoming|
              && var g := incoming[a.i];
                 && t.state in {FinWait1, FinWait2} && g.payload != [] && InWindow(t.rcv, g.seqNum)
                 && CanAccept(t.rcv, g.seqNum, g.payload)
                 && Accept(t.rcv, g.seqNum, g.payload).nxt == t.rcv.pendingFin
  {
    hide DropAcked, AckIsNew, Store, Coalesce, Push;
    if a.Arrive? && a.i < |incoming| {
      var g := incoming[a.i];
      if CanAccept(t.rcv, g.seqNum, g.payload) {
        KeepsPending(t.rcv, g.seqNum, g.payload);
      }
    }
  }

  lemma KeepsPending(r: Rcv, at: nat, p: seq<byte>)
    requires CanAccept(r, at, p)
    ensures Accept(r, at, p).pendingFin == r.pendingFin
  {
  }

  predicate NoTimeout(steps: seq<(Side, Action)>, side: Side) {
    forall i :: 0 <= i < |steps| ==> steps[i] != (side, Timeout)
  }

  /** It stays in CLOSE_WAIT whatever arrives, and only the retransmission timer can end it. */
  lemma {:induction false} StuckUntilTimeout(k: Conn, steps: seq<(Side, Action)>, side: Side)
    requires Inv(k) && Stuck(Me(k, side))
    ensures var x' := Me(Run(k, steps), side);
            && (Stuck(x') || x'.state == Closed)
            && (NoTimeout(steps, side) ==> Stuck(x'))
    decreases |steps|
  {
    hide Inv, Local;
    if steps != [] {
      var (actor, a) := steps[0];
      InvReady(k, actor, a);
      var k' := Next(k, actor, a);
      if actor == side {
        StuckStays(Me(k, side), a, SentBy(k, Peer(side)));
      }
      if NoTimeout(steps, side) {
        assert steps[0] != (side, Timeout);
        assert forall i :: 0 <= i < |steps[1..]| ==> steps[1..][i] == steps[i + 1];
      }
      if Stuck(Me(k', side)) {
        StuckUntilTimeout(k', steps[1..], side);
      } else {
        ClosedStays(k', steps[1..], side);
      }
    }
  }

  lemma StuckStays(t: Tcb, a: Action, incoming: seq<Segment>)
    requires Stuck(t) && Ready(t, a, incoming)
    ensures var t' := Local(t, a, incoming).0;
            Stuck(t') || (t'.state == Closed && a == Timeout)
  {
  }

  lemma {:induction false} ClosedStays(k: Conn, steps: seq<(Side, Action)>, side: Side)
    requires Inv(k) && Me(k, side).state == Closed
    ensures Me(Run(k, steps), side) == Me(k, side)
    decreases |steps|
  {
    hide Inv, Local;
    if steps != [] {
      var (actor, a) := steps[0];
      InvReady(k, actor, a);
      if actor == side {
        ClosedStep(Me(k, side), a, SentBy(k, Peer(side)));
      }
      ClosedStays(Next(k, actor, a), steps[1..], side);
    }
  }

  lemma ClosedStep(t: Tcb, a: Action, incoming: seq<Segment>)
    requires t.state == Closed && Ready(t, a, incoming)
    ensures Local(t, a, incoming).0 == t
  {
  }

  // ---- the timer after the peer has closed ---------------------------------

  function Timeouts(steps: seq<(Side, Action)>, side: Side): nat {
    if steps == [] then 0 else (if steps[0] == (side, Timeout) then 1 else 0) + Timeouts(steps[1..], side)
  }

  /** What is queued in CLOSE_WAIT stays queued, whatever the peer acknowledges, and each firing of the
      timer counts: until the connection is closed the counter has grown by just their number, so
      after at most six firings it is closed. */
  lemma {:induction false} TimerGivesUp(k: Conn, steps: seq<(Side, Action)>, side: Side)
    requires Inv(k) && Me(k, side).state in {CloseWait, LastAck} && Me(k, side).snd.rtx != []
    ensures var x, x' := Me(k, side), Me(Run(k, steps), side);
            && (x'.state == Closed ||
                (&& x'.state in {CloseWait, LastAck} && x.snd.rtx <= x'.snd.rtx
                 && x'.snd.retries == x.snd.retries + Timeouts(steps, side) <= MAX_RETRANSMISSIONS))
            && (MAX_RETRANSMISSIONS < x.snd.retries + Timeouts(steps, side) ==> x'.state == Closed)
    decreases |steps|
  {
    hide Inv, Local, Half;
    OpenIsJoined(k, side);
    HalfSnd(Me(k, side).snd, Me(k, Peer(side)).rcv, SentBy(k, side), SentBy(k, Peer(side)));
    if steps != [] {
      var (actor, a) := steps[0];
      InvReady(k, actor, a);
      var k' := Next(k, actor, a);
      if actor == side {
        TimerStep(Me(k, side), a, SentBy(k, Peer(side)));
      }
      if Me(k', side).state == Closed {
        ClosedStays(k', steps[1..], side);
      } else {
        TimerGivesUp(k', steps[1..], side);
      }
    }
  }

  lemma TimerStep(t: Tcb, a: Action, incoming: seq<Segment>)
    requires Ready(t, a, incoming) && t.state in {CloseWait, LastAck} && t.snd.rtx != [] && t.snd.retries <= MAX_RETRANSMISSIONS
    ensures var t' := Local(t, a, incoming).0;
            t'.state == Closed ||
            (&& t'.state in {CloseWait, LastAck} && t.snd.rtx <= t'.snd.rtx
             && t'.snd.retries == t.snd.retries + (if a == Timeout then 1 else 0) <= MAX_RETRANSMISSIONS)
  {
    hide Store, Load;
  }
}
