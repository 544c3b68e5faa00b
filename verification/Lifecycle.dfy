/** Opening and closing: what the states of the two sides mean to each other, and that
    they only move forward. */
module Lifecycle {
  import opened Ring
  import opened TcbModel
  import opened HalfConnection
  import opened Connection
  import opened Runs
  import opened Guarantees

  // ---- opening -------------------------------------------------------------

  /** Whatever is lost, repeated or resent, a side that becomes ESTABLISHED expects
      exactly the first data byte of its peer, and the data-transfer invariant holds. */
  lemma HandshakeSynchronises(iss: nat, steps: seq<(Side, Action)>, side: Side, a: Action)
    requires Me(Reached(iss, steps), side).state in {Listen, SynSent, SynReceived}
    requires Me(Next(Reached(iss, steps), side, a), side).state == Established
    ensures var k' := Next(Reached(iss, steps), side, a);
            var x, y := Me(k', side), Me(k', Peer(side));
            && x.rcv.nxt == x.rcv.lbr == y.snd.first
            && y.rcv.irs + 1 == x.snd.first
            && x.rcv.wnd == MAX_BUF_SIZE && x.rcv.read == []
            && x.snd.nxt == x.snd.first && x.snd.wnd == MAX_BUF_SIZE
            && Joined(k', side)
  {
    hide Half;
    var k := Reached(iss, steps);
    var k' := Next(k, side, a);
    OpenIsJoined(k', side);
    if Joined(k, side) {
      EstablishedNow(Me(k, side), Me(k, Peer(side)), SentBy(k, side), SentBy(k, Peer(side)), a);
    } else if side == Client {
      OpenedNow(k, a);
    } else {
      ServerWaits(k, a);
    }
    var x, y := Me(k', side), Me(k', Peer(side));
    HalfRcv(y.snd, x.rcv, SentBy(k', Peer(side)), SentBy(k', side));
    HalfRcv(x.snd, y.rcv, SentBy(k', side), SentBy(k', Peer(side)));
  }

  lemma EstablishedNow(x: Tcb, y: Tcb, xy: seq<Segment>, yx: seq<Segment>, a: Action)
    requires Pair(x, y, xy, yx) && x.state == SynReceived && Ready(x, a, yx)
    requires Local(x, a, yx).0.state == Established
    ensures Local(x, a, yx).0.rcv == x.rcv == InitRcv(x.rcv.irs)
    ensures var s := Local(x, a, yx).0.snd;
            s.nxt == s.first && s.wnd == MAX_BUF_SIZE
  {
    hide Half;
    var g := yx[a.i];
    HalfAck(x.snd, y.rcv, xy, yx, g);
  }

  lemma HalfAck(s: Snd, r: Rcv, data: seq<Segment>, acks: seq<Segment>, g: Segment)
    requires Half(s, r, data, acks) && g in acks
    ensures AckOk(g, s, r)
  {
  }

  lemma OpenedNow(k: Conn, a: Action)
    requires Inv(k) && !Joined(k, Client) && Me(Next(k, Client, a), Client).state == Established
    ensures var x := Me(Next(k, Client, a), Client);
            x.rcv == InitRcv(x.rcv.irs) && x.snd.nxt == x.snd.first && x.snd.wnd == MAX_BUF_SIZE
  {
    hide Half;
    assert Opening(k);
    assert k.sc[a.i] in k.sc;
  }

  /** The server is not ESTABLISHED before the client is. */
  lemma ServerWaits(k: Conn, a: Action)
    requires Inv(k) && !Joined(k, Server)
    ensures Me(Next(k, Server, a), Server).state != Established
  {
    hide Half;
    assert Opening(k);
    if a.Arrive? && a.i < |k.cs| {
      assert k.cs[a.i] in k.cs;
    }
  }

  /** A passive opener in SYN_RECEIVED is opened by just those segments that carry an
      acknowledgement and no payload: the handshake's last ACK or, if that is lost, a FIN, but
      never the client's data. */
  lemma ServerOpensExactly(iss: nat, steps: seq<(Side, Action)>, side: Side, a: Action)
    requires var k := Reached(iss, steps);
             Me(k, side).state == SynReceived && a.Arrive? && a.i < |SentBy(k, Peer(side))|
    ensures var k := Reached(iss, steps);
            var g := SentBy(k, Peer(side))[a.i];
            Me(Next(k, side, a), side).state == Established <==> g.hasAck && g.payload == []
  {
    hide Half;
    var k := Reached(iss, steps);
    var g := SentBy(k, Peer(side))[a.i];
    assert g in SentBy(k, Peer(side));
    if Joined(k, side) {
      HalfAck(Me(k, side).snd, Me(k, Peer(side)).rcv, SentBy(k, side), SentBy(k, Peer(side)), g);
    } else {
      assert Opening(k);
    }
  }

  /** An ESTABLISHED side sends nothing for a segment without payload and FIN, and so does not
      answer a repeated SYN-ACK with the ACK that got lost. */
  lemma SynAckIsNotAnsweredTwice(iss: nat, steps: seq<(Side, Action)>, side: Side, a: Action)
    requires var k := Reached(iss, steps);
             && Me(k, side).state == Established && a.Arrive? && a.i < |SentBy(k, Peer(side))|
             && var g := SentBy(k, Peer(side))[a.i]; g.payload == [] && !g.fin
    ensures var k := Reached(iss, steps);
            SentBy(Next(k, side, a), side) == SentBy(k, side) && Me(Next(k, side, a), side).rcv == Me(k, side).rcv
  {
    hide Inv;
    InvReady(Reached(iss, steps), side, a);
  }

  // ---- moving forward ------------------------------------------------------

  function Rank(st: State): nat {
    match st
    case Listen => 0
    case SynSent => 1
    case SynReceived => 2
    case Established => 3
    case FinWait1 => 4
    case FinWait2 => 5
    case Closing => 5
    case CloseWait => 6
    case LastAck => 7
    case TimeWait => 8
    case Closed => 9
  }

  /** A step leaves the state or moves it strictly forward. */
  lemma StateMovesForward(t: Tcb, a: Action, incoming: seq<Segment>)
    requires Ready(t, a, incoming)
    ensures var st := Local(t, a, incoming).0.state;
            st == t.state || Rank(t.state) < Rank(st)
  {
  }

  /** How often the state of a side changes along a run. */
  ghost function Changes(k: Conn, steps: seq<(Side, Action)>, side: Side): nat
    requires Inv(k)
    decreases |steps|
  {
    if steps == [] then 0
    else
      var k' := Next(k, steps[0].0, steps[0].1);
      (if Me(k', side).state == Me(k, side).state then 0 else 1) + Changes(k', steps[1..], side)
  }

  lemma {:induction false} ChangesBounded(k: Conn, steps: seq<(Side, Action)>, side: Side)
    requires Inv(k)
    ensures Changes(k, steps, side) + Rank(Me(k, side).state) <= Rank(Me(Run(k, steps), side).state)
    decreases |steps|
  {
    hide Inv, Local;
    if steps != [] {
      var (actor, a) := steps[0];
      InvReady(k, actor, a);
      StateMovesForward(Me(k, actor), a, SentBy(k, Peer(actor)));
      ChangesBounded(Next(k, actor, a), steps[1..], side);
    }
  }

  /** However long a run, a side changes state at most nine times. */
  lemma RunChangesStateAtMostNineTimes(iss: nat, steps: seq<(Side, Action)>, side: Side)
    ensures Inv(Init(iss)) && Changes(Init(iss), steps, side) <= 9
  {
    hide Inv, Run, Changes, Init;
    InitInv(iss);
    ChangesBounded(Init(iss), steps, side);
  }

  // ---- closing -------------------------------------------------------------

  /** After Close the send half stands still: SND.NXT is one past the last byte and
      nothing is written any more. */
  lemma NothingIsSentAfterClose(iss: nat, steps: seq<(Side, Action)>, actor: Side, a: Action, side: Side)
    requires Me(Reached(iss, steps), side).snd.cancelled
    ensures var k := Reached(iss, steps);
            var s, s' := Me(k, side).snd, Me(Next(k, actor, a), side).snd;
            s'.cancelled && s'.nxt == s.nxt == s.lbw + 1 && s'.lbw == s.lbw && s'.written == s.written
  {
    hide Inv, Half, Local;
    var k := Reached(iss, steps);
    CancelledIsJoined(k, side);
    HalfSnd(Me(k, side).snd, Me(k, Peer(side)).rcv, SentBy(k, side), SentBy(k, Peer(side)));
    if actor == side {
      InvReady(k, side, a);
      CancelledStays(Me(k, side), a, SentBy(k, Peer(side)));
    }
  }

  lemma CancelledIsJoined(k: Conn, side: Side)
    requires Inv(k) && Me(k, side).snd.cancelled
    ensures Joined(k, side)
    ensures Me(k, side).state !in {Listen, SynSent, SynReceived}
  {
    hide Half;
  }

  lemma HalfSnd(s: Snd, r: Rcv, data: seq<Segment>, acks: seq<Segment>)
    requires Half(s, r, data, acks)
    ensures SndOk(s)
  {
  }

  lemma CancelledStays(t: Tcb, a: Action, incoming: seq<Segment>)
    requires t.snd.cancelled && Ready(t, a, incoming) && t.state !in {Listen, SynSent, SynReceived}
    ensures var s := Local(t, a, incoming).0.snd;
            s.cancelled && s.nxt == t.snd.nxt && s.lbw == t.snd.lbw && s.written == t.snd.written
  {
    hide OnSegment;
    if a.Arrive? && a.i < |incoming| {
      ArrivalSendsNoData(t, incoming[a.i], a.newIss);
    }
  }

  /** Handling a segment never moves SND.NXT or what has been written. */
  lemma ArrivalSendsNoData(t: Tcb, g: Segment, newIss: nat)
    requires CanProcess(t, g) && t.state !in {Listen, SynSent, SynReceived}
    ensures var s := OnSegment(t, g, newIss).0.snd;
            s.cancelled == t.snd.cancelled && s.nxt == t.snd.nxt && s.lbw == t.snd.lbw && s.written == t.snd.written
  {
    hide Receive, DropAcked, AckIsNew;
    if Receiving(t.state) {
      ReceiveSnd(t, g);
      ReceiveSnd(t.(state := FinWait2), g);
    }
  }

  lemma ReceiveSnd(t: Tcb, g: Segment)
    requires Receiving(t.state) && CanProcess(t, g)
    ensures Receive(t, g).0.snd == if g.hasAck then OnAck(t.snd, g.ackNum, g.wnd) else t.snd
  {
    hide Accept, OnAck;
  }

  /** A side that learns that its FIN is acknowledged knows that the peer has
      received every byte ever written to it. */
  lemma FinAckCoversEverything(iss: nat, steps: seq<(Side, Action)>, side: Side, a: Action)
    requires a.Arrive?
    requires var k := Reached(iss, steps);
             (Me(k, side).state, Me(Next(k, side, a), side).state) in
               {(FinWait1, FinWait2), (Closing, TimeWait), (LastAck, Closed)}
    ensures var k := Reached(iss, steps);
            var x, y := Me(k, side), Me(k, Peer(side));
            && RcvOk(x.snd, y.rcv)
            && DataEnd(y.rcv) == x.snd.lbw
            && Received(y.rcv) == x.snd.written
  {
    hide Inv, Half, RcvOk, Local;
    var k := Reached(iss, steps);
    OpenIsJoined(k, side);
    var x, y := Me(k, side), Me(k, Peer(side));
    var yx := SentBy(k, Peer(side));
    InvReady(k, side, a);
    AckedMove(x, a, yx);
    HalfAck(x.snd, y.rcv, SentBy(k, side), yx, yx[a.i]);
    HalfRcv(x.snd, y.rcv, SentBy(k, side), yx);
    HalfSnd(x.snd, y.rcv, SentBy(k, side), yx);
    ReceivedIsStream(x.snd, y.rcv);
  }

  lemma AckedMove(t: Tcb, a: Action, incoming: seq<Segment>)
    requires a.Arrive? && Ready(t, a, incoming)
    requires (t.state, Local(t, a, incoming).0.state) in {(FinWait1, FinWait2), (Closing, TimeWait), (LastAck, Closed)}
    ensures a.i < |incoming| && incoming[a.i].hasAck && incoming[a.i].ackNum == t.snd.nxt
  {
  }

  /** FIN_WAIT_1 goes straight to TIME_WAIT exactly when the peer's FIN arrives and
      acknowledges less than all of the data, and so not our FIN either. */
  lemma TimeWaitFromFinWait1Exactly(iss: nat, steps: seq<(Side, Action)>, side: Side, a: Action)
    requires var k := Reached(iss, steps);
             Me(k, side).state == FinWait1 && a.Arrive? && a.i < |SentBy(k, Peer(side))|
    ensures var k := Reached(iss, steps);
            var g := SentBy(k, Peer(side))[a.i];
            Me(Next(k, side, a), side).state == TimeWait <==> g.fin && g.ackNum < Me(k, side).snd.lbw
  {
    hide Inv, Half, Receive;
    var k := Reached(iss, steps);
    OpenIsJoined(k, side);
    var x, y := Me(k, side), Me(k, Peer(side));
    var xy, yx := SentBy(k, side), SentBy(k, Peer(side));
    var g := yx[a.i];
    InvReady(k, side, a);
    HalfAck(x.snd, y.rcv, xy, yx, g);
    HalfSnd(x.snd, y.rcv, xy, yx);
    if g.fin {
      FinIsEnd(y.snd, x.rcv, yx, xy, g);
    }
    ReceiveState(x, g);
    ReceiveState(x.(state := FinWait2), g);
  }

  /** Every other way into TIME_WAIT is good: the peer holds everything ever written. */
  lemma TimeWaitMeansAllReceived(iss: nat, steps: seq<(Side, Action)>, side: Side, a: Action)
    requires var k := Reached(iss, steps);
             && a.Arrive? && Me(k, side).state !in {FinWait1, TimeWait}
             && Me(Next(k, side, a), side).state == TimeWait
    ensures var k := Reached(iss, steps);
            var x, y := Me(k, side), Me(k, Peer(side));
            && RcvOk(x.snd, y.rcv)
            && DataEnd(y.rcv) == x.snd.lbw
            && Received(y.rcv) == x.snd.written
  {
    hide Inv, Half, RcvOk, Local;
    var k := Reached(iss, steps);
    var x, y := Me(k, side), Me(k, Peer(side));
    InvReady(k, side, a);
    IntoTimeWait(x, a, SentBy(k, Peer(side)));
    if x.state == Closing {
      FinAckCoversEverything(iss, steps, side, a);
    } else {
      OpenIsJoined(k, side);
      HalfRcv(x.snd, y.rcv, SentBy(k, side), SentBy(k, Peer(side)));
      HalfSnd(x.snd, y.rcv, SentBy(k, side), SentBy(k, Peer(side)));
      ReceivedIsStream(x.snd, y.rcv);
    }
  }

  lemma IntoTimeWait(t: Tcb, a: Action, incoming: seq<Segment>)
    requires a.Arrive? && Ready(t, a, incoming) && t.state != TimeWait && Local(t, a, incoming).0.state == TimeWait
    ensures t.state in {FinWait1, FinWait2, Closing}
  {
  }

  /** The peer's FIN is counted while data is missing exactly when it is taken in FIN_WAIT_1 out
      of order. */
  lemma FinCountedEarlyExactly(iss: nat, steps: seq<(Side, Action)>, side: Side, a: Action)
    requires var k := Reached(iss, steps);
             && a.Arrive? && a.i < |SentBy(k, Peer(side))|
             && !PastFin(Me(k, side).state) && PastFin(Me(Next(k, side, a), side).state)
    ensures var k := Reached(iss, steps);
            var x, y := Me(k, side), Me(k, Peer(side));
            var x' := Me(Next(k, side, a), side);
            && y.snd.cancelled && ArrivedEnd(x') <= y.snd.lbw
            && (ArrivedEnd(x') < y.snd.lbw <==> x.state == FinWait1 && SentBy(k, Peer(side))[a.i].seqNum != x.rcv.nxt)
  {
    hide Inv, Half, Receive;
    var k := Reached(iss, steps);
    var x, y := Me(k, side), Me(k, Peer(side));
    var xy, yx := SentBy(k, side), SentBy(k, Peer(side));
    var g := yx[a.i];
    InvReady(k, side, a);
    if Receiving(x.state) {
      ReceiveState(x, g);
      ReceiveState(x.(state := FinWait2), g);
      OpenIsJoined(k, side);
      assert g.fin;
      FinIsEnd(y.snd, x.rcv, yx, xy, g);
    }
  }

  lemma ReceiveState(t: Tcb, g: Segment)
    requires Receiving(t.state) && CanProcess(t, g)
    ensures Receive(t, g).0.state in {t.state, CloseWait}
  {
    hide Accept, OnAck;
  }

  predicate PeerClosed(st: State) {
    st in {CloseWait, LastAck, Closed}
  }

  /** What counts as sent lies below `edge`. */
  predicate SentWithin(s: Snd, edge: nat) {
    if s.cancelled then s.lbw <= edge else s.nxt <= edge
  }

  /** Once the peer has closed, acknowledgements are no longer looked at: SND.UNA and
      SND.WND stand still for the rest of the run, so a side that has not closed itself can
      send no more than the window it had when the FIN arrived. */
  lemma SendingStallsAfterPeerCloses(k: Conn, steps: seq<(Side, Action)>, side: Side)
    requires Inv(k) && PeerClosed(Me(k, side).state)
    ensures var x, x' := Me(k, side), Me(Run(k, steps), side);
            && PeerClosed(x'.state) && x'.snd.una == x.snd.una && x'.snd.wnd == x.snd.wnd
            && (x.state == CloseWait && !x.snd.cancelled ==> SentWithin(x'.snd, Edge(x.snd)))
  {
    hide Inv, Half, Run;
    var x := Me(k, side);
    StallRun(k, steps, side, Edge(x.snd));
    if x.state == CloseWait && !x.snd.cancelled {
      OpenIsJoined(k, side);
      HalfSnd(x.snd, Me(k, Peer(side)).rcv, SentBy(k, side), SentBy(k, Peer(side)));
    }
  }

  lemma {:induction false} StallRun(k: Conn, steps: seq<(Side, Action)>, side: Side, edge: nat)
    requires Inv(k) && PeerClosed(Me(k, side).state)
    ensures var x, x' := Me(k, side), Me(Run(k, steps), side);
            && PeerClosed(x'.state) && x'.snd.una == x.snd.una && x'.snd.wnd == x.snd.wnd
            && (x.snd.first <= edge && Edge(x.snd) <= edge && SentWithin(x.snd, edge) ==> SentWithin(x'.snd, edge))
    decreases |steps|
  {
    hide Inv, Local, Half;
    if steps != [] {
      var (actor, a) := steps[0];
      InvReady(k, actor, a);
      var k' := Next(k, actor, a);
      if actor == side {
        PeerClosedStays(Me(k, side), a, SentBy(k, Peer(side)));
        if Open(Me(k', side).state) {
          OpenIsJoined(k', side);
          HalfSnd(Me(k', side).snd, Me(k', Peer(side)).rcv, SentBy(k', side), SentBy(k', Peer(side)));
        }
      }
      StallRun(k', steps[1..], side, edge);
    }
  }

  lemma PeerClosedStays(t: Tcb, a: Action, incoming: seq<Segment>)
    requires PeerClosed(t.state) && Ready(t, a, incoming)
    ensures var t' := Local(t, a, incoming).0;
            && PeerClosed(t'.state)
            && t'.snd.una == t.snd.una && t'.snd.wnd == t.snd.wnd && t'.snd.first == t.snd.first
            && (t'.snd.cancelled ==> t'.snd.lbw == t.snd.lbw && (t.snd.cancelled || t.snd.nxt == t.snd.lbw))
            && (t'.state == Closed ==> t'.snd.cancelled == t.snd.cancelled && t'.snd.nxt == t.snd.nxt)
  {
  }

  /** From CLOSE_WAIT, everything written so far can still be sent, by some continuation, exactly if
      it lies in the window; otherwise no continuation at all brings SND.NXT to its end. */
  lemma AllCanBeSentExactly(k: Conn, side: Side)
    requires Inv(k) && Me(k, side).state == CloseWait
    ensures var s := Me(k, side).snd;
            (exists steps :: s.lbw <= Me(Run(k, steps), side).snd.nxt) <==> s.cancelled || s.lbw <= Edge(s)
  {
    hide Inv, Half, Run;
    var x := Me(k, side);
    OpenIsJoined(k, side);
    HalfSnd(x.snd, Me(k, Peer(side)).rcv, SentBy(k, side), SentBy(k, Peer(side)));
    if x.snd.cancelled {
      NoSteps(k);
      assert x.snd.lbw <= Me(Run(k, []), side).snd.nxt;
    } else if x.snd.lbw <= Edge(x.snd) {
      var steps := SendRest(k, side);
    } else {
      forall steps ensures Me(Run(k, steps), side).snd.nxt < x.snd.lbw {
        SendingStallsAfterPeerCloses(k, steps, side);
        WrittenOnlyGrows(k, steps, side);
      }
    }
  }

  lemma NoSteps(k: Conn)
    requires Inv(k)
    ensures Run(k, []) == k
  {
  }

  lemma {:induction false} WrittenOnlyGrows(k: Conn, steps: seq<(Side, Action)>, side: Side)
    requires Inv(k) && PeerClosed(Me(k, side).state)
    ensures Me(k, side).snd.lbw <= Me(Run(k, steps), side).snd.lbw
    decreases |steps|
  {
    hide Inv, Local;
    if steps != [] {
      var (actor, a) := steps[0];
      InvReady(k, actor, a);
      if actor == side {
        PeerClosedStays(Me(k, side), a, SentBy(k, Peer(side)));
        PeerClosedWrites(Me(k, side), a, SentBy(k, Peer(side)));
      }
      WrittenOnlyGrows(Next(k, actor, a), steps[1..], side);
    }
  }

  lemma PeerClosedWrites(t: Tcb, a: Action, incoming: seq<Segment>)
    requires PeerClosed(t.state) && Ready(t, a, incoming)
    ensures t.snd.lbw <= Local(t, a, incoming).0.snd.lbw
  {
  }

  /** What the Send goroutine does next. */
  function SendStep(s: Snd): Action {
    if s.probing then StopProbe else if 0 < s.burst then SendOne else PlanSend
  }

  lemma SendStepMoves(t: Tcb, incoming: seq<Segment>)
    requires t.state == CloseWait && SndOk(t.snd) && !t.snd.cancelled && t.snd.nxt < t.snd.lbw <= Edge(t.snd)
    ensures var a := SendStep(t.snd);
            && Ready(t, a, incoming)
            && var t' := Local(t, a, incoming).0;
               && t'.state == CloseWait && !t'.snd.cancelled && t'.snd.lbw == t.snd.lbw && Edge(t'.snd) == Edge(t.snd)
               && (t.snd.nxt < t'.snd.nxt || (t'.snd.nxt == t.snd.nxt && t.snd.burst == 0 < t'.snd.burst))
  {
    hide Holds, Load;
  }

  lemma {:induction false} SendRest(k: Conn, side: Side) returns (steps: seq<(Side, Action)>)
    requires Inv(k) && Me(k, side).state == CloseWait
    requires var s := Me(k, side).snd; !s.cancelled && s.nxt <= s.lbw <= Edge(s)
    ensures var x' := Me(Run(k, steps), side);
            x'.state == CloseWait && x'.snd.nxt == x'.snd.lbw == Me(k, side).snd.lbw
    decreases Me(k, side).snd.lbw - Me(k, side).snd.nxt, if Me(k, side).snd.burst == 0 then 1 else 0
  {
    hide Inv, Half, Local;
    steps := [];
    var x := Me(k, side);
    if x.snd.nxt < x.snd.lbw {
      OpenIsJoined(k, side);
      HalfSnd(x.snd, Me(k, Peer(side)).rcv, SentBy(k, side), SentBy(k, Peer(side)));
      var a := SendStep(x.snd);
      SendStepMoves(x, SentBy(k, Peer(side)));
      InvReady(k, side, a);
      var k' := Next(k, side, a);
      OpenIsJoined(k', side);
      HalfSnd(Me(k', side).snd, Me(k', Peer(side)).rcv, SentBy(k', side), SentBy(k', Peer(side)));
      var rest := SendRest(k', side);
      steps := [(side, a)] + rest;
      assert steps[1..] == rest;
    }
  }
}
