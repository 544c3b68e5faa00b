/** A whole connection: an active opener (the client) and a listener (the server)
    over a network that loses, repeats, delays and reorders. A run is any sequence
    of steps of either side, from the first SYN on; a step that is not enabled
    changes nothing. */
module Connection {
  import opened Ring
  import opened TcbModel
  import opened HalfConnection

  /** `cs` and `sc` are every segment ever sent by the client and by the server.
      Delivering any of them at any time, or never, is what the network does. The
      sets remember which have been delivered. */
  datatype Conn = Conn(c: Tcb, s: Tcb, cs: seq<Segment>, sc: seq<Segment>, csSeen: set<nat>, scSeen: set<nat>)

  datatype Side = Client | Server

  datatype Action =
    | Write(d: seq<byte>)
    | Read(n: nat)
    | Close
    | PlanSend
    | SendOne
    | StartProbe
    | SendProbe
    | StopProbe
    | Timeout
    | TimeWaitOver
    | Arrive(i: nat, newIss: nat)

  /** The Send goroutine runs. */
  predicate Sending(t: Tcb) {
    t.state in {Established, CloseWait} && !t.snd.cancelled
  }

  /** The application holds the connection. */
  predicate Open(st: State) {
    st !in {Closed, Listen, SynSent, SynReceived}
  }

  /** What the code takes for granted when the step is taken: no subtraction
      underflows and Receive's copying loop ends. */
  predicate Ready(t: Tcb, a: Action, incoming: seq<Segment>) {
    && (a.Write? && Sending(t) ==> t.snd.una <= t.snd.lbw <= t.snd.una + MAX_BUF_SIZE)
    && (a.Read? && Open(t.state) ==> t.rcv.lbr <= t.rcv.nxt)
    && (a.Arrive? && a.i < |incoming| ==> CanProcess(t, incoming[a.i]))
  }

  /** One step of one side: its new TCB and the segments it sends. */
  function Local(t: Tcb, a: Action, incoming: seq<Segment>): (Tcb, seq<Segment>)
    requires Ready(t, a, incoming)
  {
    match a
    case Write(d) =>
      if Sending(t) then (t.(snd := WriteChunk(t.snd, d[..Min(Room(t.snd), |d|)])), []) else (t, [])
    case Read(n) =>
      if Open(t.state) then (t.(rcv := ReadChunk(t.rcv, Min(n, t.rcv.nxt - t.rcv.lbr))), []) else (t, [])
    case Close =>
      if Sending(t) && t.snd.nxt == t.snd.lbw then (CloseConn(t).0, [CloseConn(t).1]) else (t, [])
    case PlanSend =>
      if Sending(t) && CanPlan(t.snd) then (t.(snd := Plan(t.snd)), []) else (t, [])
    case SendOne =>
      if Sending(t) && 0 < t.snd.burst then (t.(snd := Emit(t.snd, t.rcv).0), [Emit(t.snd, t.rcv).1]) else (t, [])
    case StartProbe =>
      if Sending(t) && CanBeginProbe(t.snd) then (t.(snd := BeginProbe(t.snd)), []) else (t, [])
    case SendProbe =>
      if Sending(t) && t.snd.probing then (t, [Probe(t.snd, t.rcv)]) else (t, [])
    case StopProbe =>
      if Sending(t) && CanEndProbe(t.snd) then (t.(snd := EndProbe(t.snd)), []) else (t, [])
    case Timeout => OnTimeout(t)
    case TimeWaitOver =>
      if t.state == TimeWait then (t.(state := Closed), []) else (t, [])
    case Arrive(i, newIss) =>
      if i < |incoming| then OnSegment(t, incoming[i], newIss) else (t, [])
  }

  // ---- the invariant of two synchronised sides -----------------------------

  ghost predicate StateOk(x: Tcb, y: Tcb) {
    && x.state !in {Listen, SynSent}
    && (x.state in {SynReceived, Established} ==> !x.snd.cancelled)
    && (x.state in {FinWait1, FinWait2, Closing, TimeWait, LastAck} ==> x.snd.cancelled)
    && (x.state in {SynReceived, Established, FinWait1, FinWait2, CloseWait, LastAck} ==> !x.rcv.finCounted)
    && (x.state in {Closing, TimeWait} ==> x.rcv.finCounted)
    && (x.state == FinWait2 ==> DataEnd(y.rcv) == x.snd.lbw)
    && (x.state in {CloseWait, LastAck} ==> y.snd.cancelled && x.rcv.nxt == y.snd.lbw)
    && (x.state == SynReceived ==> x.snd.nxt == x.snd.first == x.snd.una + 1 && x.snd.burst == 0 && !x.snd.probing)
    && (x.state == SynReceived ==> x.rcv == InitRcv(x.rcv.irs))
    && (Open(x.state) && x.snd.una < x.snd.first ==> x.snd.wnd == MAX_BUF_SIZE)
    && (x.state != Closed ==> Contiguous(x.snd, y.rcv))
  }

  ghost predicate Linked(x: Tcb, y: Tcb, xy: seq<Segment>, yx: seq<Segment>) {
    && Half(x.snd, y.rcv, xy, yx)
    && Half(y.snd, x.rcv, yx, xy)
  }

  ghost predicate Pair(x: Tcb, y: Tcb, xy: seq<Segment>, yx: seq<Segment>) {
    && Linked(x, y, xy, yx)
    && StateOk(x, y)
    && StateOk(y, x)
  }

  lemma PairReady(x: Tcb, y: Tcb, xy: seq<Segment>, yx: seq<Segment>, a: Action)
    requires Pair(x, y, xy, yx)
    ensures Ready(x, a, yx)
  {
    if a.Arrive? && a.i < |yx| {
      var g := yx[a.i];
      if Receiving(x.state) && g.payload != [] && InWindow(x.rcv, g.seqNum) {
        AcceptKeeps(y.snd, x.rcv, yx, xy, g);
      }
    }
  }

  /** Sending an acknowledgement of what has been received. */
  lemma SendAckKeeps(x: Tcb, y: Tcb, xy: seq<Segment>, yx: seq<Segment>, g: Segment)
    requires Linked(x, y, xy, yx)
    requires g.payload == [] && !g.fin
    requires g.hasAck ==> MayAck(y.snd, x.rcv, g.ackNum) && g.wnd == x.rcv.wnd % 65536
    ensures Linked(x, y, xy + [g], yx)
  {
    hide Half;
    EmptySent(x.snd, y.rcv, xy, yx, g);
    AckSent(y.snd, x.rcv, yx, xy, g);
  }

  // ---- one lemma a step ----------------------------------------------------

  /** A receiver has no more than was sent. */
  lemma SentBound(s: Snd, r: Rcv, data: seq<Segment>, acks: seq<Segment>)
    requires Half(s, r, data, acks)
    ensures s.cancelled ==> DataEnd(r) <= s.lbw && s.nxt == s.lbw + 1
  {
  }

  lemma ReceiveDataKeeps(x: Tcb, y: Tcb, xy: seq<Segment>, yx: seq<Segment>, g: Segment)
    requires Pair(x, y, xy, yx) && g in yx && Receiving(x.state)
    ensures InWindow(x.rcv, g.seqNum) && g.payload != [] ==> CanAccept(x.rcv, g.seqNum, g.payload)
    ensures var (x', out) := ReceiveData(x, g);
            && Pair(x', y, xy + out, yx)
            && x'.snd == x.snd
  {
    hide Half;
    if g.payload == [] {
      assert xy + [] == xy;
    } else if InWindow(x.rcv, g.seqNum) {
      AcceptKeeps(y.snd, x.rcv, yx, xy, g);
      var (x', out) := ReceiveData(x, g);
      SentBound(y.snd, x'.rcv, yx, xy);
      if x'.rcv.nxt == x'.rcv.pendingFin {
        PendingFinIsEnd(y.snd, x'.rcv, yx, xy);
      }
      SendAckKeeps(x', y, xy, yx, out[0]);
    } else {
      SendAckKeeps(x, y, xy, yx, PlainAck(x, x.rcv.nxt));
    }
  }

  lemma ReceiveKeeps(x: Tcb, y: Tcb, xy: seq<Segment>, yx: seq<Segment>, g: Segment)
    requires Pair(x, y, xy, yx) && g in yx && Receiving(x.state)
    ensures g.hasAck && InWindow(x.rcv, g.seqNum) && g.payload != [] ==> CanAccept(x.rcv, g.seqNum, g.payload)
    ensures var (x', out) := Receive(x, g);
            Pair(x', y, xy + out, yx)
  {
    hide Half;
    if g.hasAck {
      ReceiveDataKeeps(x, y, xy, yx, g);
      var (x1, out) := ReceiveData(x, g);
      OnAckKeeps(x1.snd, y.rcv, xy + out, yx, g);
    } else {
      assert xy + [] == xy;
    }
  }

  lemma CountFinStepKeeps(x: Tcb, y: Tcb, xy: seq<Segment>, yx: seq<Segment>, st: State)
    requires Pair(x, y, xy, yx) && x.state in {FinWait1, FinWait2} && st in {Closing, TimeWait} && y.snd.cancelled
    ensures var x' := x.(state := st, rcv := CountFin(x.rcv));
            Pair(x', y, xy + [PlainAck(x', x'.rcv.nxt)], yx)
  {
    hide Half;
    var x' := x.(state := st, rcv := CountFin(x.rcv));
    CountFinKeeps(y.snd, x.rcv, yx, xy);
    SendAckKeeps(x', y, xy, yx, PlainAck(x', x'.rcv.nxt));
  }

  lemma ReceiveFinKeeps(x: Tcb, y: Tcb, xy: seq<Segment>, yx: seq<Segment>, g: Segment)
    requires Pair(x, y, xy, yx) && g in yx && g.fin && x.state == Established
    ensures var (x', out) := ReceiveFin(x, g);
            Pair(x', y, xy + out, yx)
  {
    hide Half;
    FinIsEnd(y.snd, x.rcv, yx, xy, g);
    var (x', out) := ReceiveFin(x, g);
    if g.seqNum > x.rcv.nxt {
      PendingFinKeeps(y.snd, x.rcv, yx, xy, g);
    }
    SendAckKeeps(x', y, xy, yx, out[0]);
  }

  /** Whoever acknowledges the FIN has everything before it. */
  lemma FinAcked(s: Snd, r: Rcv, data: seq<Segment>, acks: seq<Segment>, g: Segment)
    requires Half(s, r, data, acks) && g in acks && s.cancelled && g.hasAck && g.ackNum == s.nxt
    ensures DataEnd(r) == s.lbw
  {
    assert AckOk(g, s, r);
  }

  lemma FinWait1Keeps(x: Tcb, y: Tcb, xy: seq<Segment>, yx: seq<Segment>, g: Segment)
    requires Pair(x, y, xy, yx) && g in yx && x.state == FinWait1 && CanProcess(x, g)
    ensures var (x', out) := HandleFinWait1(x, g);
            Pair(x', y, xy + out, yx)
  {
    hide Half;
    if g.fin {
      FinIsEnd(y.snd, x.rcv, yx, xy, g);
    }
    if !g.hasAck {
      assert xy + [] == xy;
    } else if g.ackNum == x.snd.nxt {
      FinAcked(x.snd, y.rcv, xy, yx, g);
      ReceiveKeeps(x.(state := FinWait2), y, xy, yx, g);
    } else if g.fin {
      CountFinStepKeeps(x, y, xy, yx, if g.ackNum + 1 == x.snd.nxt then Closing else TimeWait);
    } else {
      ReceiveKeeps(x, y, xy, yx, g);
    }
  }

  lemma FinWait2Keeps(x: Tcb, y: Tcb, xy: seq<Segment>, yx: seq<Segment>, g: Segment)
    requires Pair(x, y, xy, yx) && g in yx && x.state == FinWait2 && CanProcess(x, g)
    ensures var (x', out) := HandleFinWait2(x, g);
            Pair(x', y, xy + out, yx)
  {
    hide Half;
    if !g.fin {
      ReceiveKeeps(x, y, xy, yx, g);
    } else if g.seqNum != x.rcv.nxt {
      assert xy + [] == xy;
    } else {
      FinIsEnd(y.snd, x.rcv, yx, xy, g);
      CountFinStepKeeps(x, y, xy, yx, TimeWait);
    }
  }

  /** The last acknowledgement of the handshake opens the window of the passive opener. */
  lemma SynReceivedKeeps(x: Tcb, y: Tcb, xy: seq<Segment>, yx: seq<Segment>, g: Segment)
    requires Pair(x, y, xy, yx) && g in yx && x.state == SynReceived
    ensures var (x', out) := HandleSynReceived(x, g);
            Pair(x', y, xy + out, yx)
  {
    var out := HandleSynReceived(x, g).1;
    if out != [] {
      SendAckKeeps(x, y, xy, yx, out[0]);
    } else {
      assert xy + out == xy;
    }
    assert AckOk(g, x.snd, y.rcv);
    var x' := HandleSynReceived(x, g).0;
    if x' != x {
      OpenWindowKeeps(x.snd, y.rcv, xy + out, yx, g);
    }
  }

  lemma OpenWindowKeeps(s: Snd, r: Rcv, data: seq<Segment>, acks: seq<Segment>, g: Segment)
    requires Half(s, r, data, acks) && g in acks && g.hasAck && !s.cancelled && !s.probing && s.burst == 0
    requires s.nxt == s.first == s.una + 1 == g.ackNum
    ensures Half(s.(wnd := g.wnd, retries := 0), r, data, acks)
    ensures g.wnd == MAX_BUF_SIZE
    ensures Contiguous(s, r) ==> Contiguous(s.(wnd := g.wnd, retries := 0), r)
  {
    assert AckOk(g, s, r);
    var s' := s.(wnd := g.wnd, retries := 0);
    SenderGrows(s, s', r, data, acks);
    QueueCarries(s, s', r, data, data);
    forall h | h in acks && h.hasAck ensures s'.una + s'.wnd <= h.ackNum + h.wnd {
      assert AckOk(h, s, r);
    }
  }

  lemma ArriveKeeps(x: Tcb, y: Tcb, xy: seq<Segment>, yx: seq<Segment>, g: Segment, newIss: nat)
    requires Pair(x, y, xy, yx) && g in yx && CanProcess(x, g)
    ensures var (x', out) := OnSegment(x, g, newIss);
            Pair(x', y, xy + out, yx)
  {
    hide Half;
    assert xy + [] == xy;
    match x.state
    case SynReceived => SynReceivedKeeps(x, y, xy, yx, g);
    case Established =>
      if g.fin { ReceiveFinKeeps(x, y, xy, yx, g); } else { ReceiveKeeps(x, y, xy, yx, g); }
    case FinWait1 => FinWait1Keeps(x, y, xy, yx, g);
    case FinWait2 => FinWait2Keeps(x, y, xy, yx, g);
    case TimeWait =>
      if g.fin { SendAckKeeps(x, y, xy, yx, PlainAck(x, x.rcv.nxt)); }
    case CloseWait =>
      if g.fin { SendAckKeeps(x, y, xy, yx, PlainAck(x, x.rcv.nxt)); }
    case LastAck => LastAckKeeps(x, y, xy, yx, g);
    case _ =>
  }

  lemma LastAckKeeps(x: Tcb, y: Tcb, xy: seq<Segment>, yx: seq<Segment>, g: Segment)
    requires Pair(x, y, xy, yx) && x.state == LastAck
    ensures Pair(OnSegment(x, g, 0).0, y, xy, yx)
  {
    if g.hasAck && g.ackNum == x.snd.nxt {
      var s, s' := x.snd, Prune(x.snd, g.ackNum);
      DropAckedTiles(s.rtx, Start(s.rtx, Top(s)), Top(s), g.ackNum, s.cuts);
      SenderGrows(s, s', y.rcv, xy, yx);
      QueueCarries(s, s', y.rcv, xy, xy);
    }
  }

  lemma CloseKeeps(x: Tcb, y: Tcb, xy: seq<Segment>, yx: seq<Segment>)
    requires Pair(x, y, xy, yx) && Sending(x) && x.snd.nxt == x.snd.lbw
    ensures var (x', g) := CloseConn(x);
            Pair(x', y, xy + [g], yx)
  {
    hide Half;
    var (x', g) := CloseConn(x);
    SendFinKeeps(x.snd, y.rcv, xy, yx, g.ackNum, x.rcv.wnd);
    AckSent(y.snd, x.rcv, yx, xy, g);
  }

  lemma SendOneKeeps(x: Tcb, y: Tcb, xy: seq<Segment>, yx: seq<Segment>)
    requires Pair(x, y, xy, yx) && Sending(x) && 0 < x.snd.burst
    ensures var (snd, g) := Emit(x.snd, x.rcv);
            Pair(x.(snd := snd), y, xy + [g], yx)
  {
    hide Half;
    var (snd, g) := Emit(x.snd, x.rcv);
    EmitKeeps(x.snd, y.rcv, xy, yx, x.rcv);
    AckSent(y.snd, x.rcv, yx, xy, g);
  }

  lemma SendProbeKeeps(x: Tcb, y: Tcb, xy: seq<Segment>, yx: seq<Segment>)
    requires Pair(x, y, xy, yx) && Sending(x) && x.snd.probing
    ensures Pair(x, y, xy + [Probe(x.snd, x.rcv)], yx)
  {
    hide Half;
    ProbeKeeps(x.snd, y.rcv, xy, yx, x.rcv);
    AckSent(y.snd, x.rcv, yx, xy, Probe(x.snd, x.rcv));
  }

  /** A copy of a segment already sent adds nothing to what the other side may see. */
  lemma SentAgainKeeps(s: Snd, r: Rcv, data: seq<Segment>, acks: seq<Segment>, g: Segment)
    requires Half(s, r, data, acks) && g in acks
    ensures Half(s, r, data, acks + [g])
  {
  }

  lemma RetransmitStepKeeps(x: Tcb, y: Tcb, xy: seq<Segment>, yx: seq<Segment>)
    requires Pair(x, y, xy, yx) && x.snd.rtx != [] && x.snd.retries < MAX_RETRANSMISSIONS
    ensures Pair(x.(snd := x.snd.(retries := x.snd.retries + 1)), y, xy + [Retransmitted(x.snd)], yx)
  {
    hide Half, Retransmitted;
    RetransmitIsOriginal(x.snd, y.rcv, xy, yx);
    RetransmitKeeps(x.snd, y.rcv, xy, yx);
    SentAgainKeeps(y.snd, x.rcv, yx, xy, Retransmitted(x.snd));
  }

  lemma RetryKeeps(s: Snd, r: Rcv, data: seq<Segment>, acks: seq<Segment>, n: nat)
    requires Half(s, r, data, acks) && n <= MAX_RETRANSMISSIONS
    ensures Half(s.(retries := n), r, data, acks)
  {
    var s' := s.(retries := n);
    SenderGrows(s, s', r, data, acks);
    QueueCarries(s, s', r, data, data);
  }

  lemma ResendSynAckKeeps(x: Tcb, y: Tcb, xy: seq<Segment>, yx: seq<Segment>)
    requires Pair(x, y, xy, yx) && x.state == SynReceived && x.snd.retries < MAX_RETRANSMISSIONS
    ensures Pair(x.(snd := x.snd.(retries := x.snd.retries + 1)), y, xy + [SynAck(x)], yx)
  {
    hide Half;
    SendAckKeeps(x, y, xy, yx, SynAck(x));
    RetryKeeps(x.snd, y.rcv, xy + [SynAck(x)], yx, x.snd.retries + 1);
  }

  /** A connection that is given up or over keeps all it knows. */
  lemma ClosedKeeps(x: Tcb, y: Tcb, xy: seq<Segment>, yx: seq<Segment>)
    requires Pair(x, y, xy, yx)
    ensures Pair(x.(state := Closed), y, xy, yx)
  {
    hide Half;
  }

  lemma TimeoutKeeps(x: Tcb, y: Tcb, xy: seq<Segment>, yx: seq<Segment>)
    requires Pair(x, y, xy, yx)
    ensures Pair(OnTimeout(x).0, y, xy + OnTimeout(x).1, yx)
  {
    var x', out := OnTimeout(x).0, OnTimeout(x).1;
    if out == [] {
      assert xy + out == xy;
      ClosedKeeps(x, y, xy, yx);
      assert x' == x || x' == x.(state := Closed);
    } else if x.state == SynReceived {
      RetriesBounded(x.snd);
      ResendSynAckKeeps(x, y, xy, yx);
      assert x' == x.(snd := x.snd.(retries := x.snd.retries + 1)) && out == [SynAck(x)];
    } else {
      RetriesBounded(x.snd);
      assert x.state != SynSent;
      assert x' == x.(snd := x.snd.(retries := x.snd.retries + 1)) && out == [Retransmitted(x.snd)];
      RetransmitStepKeeps(x, y, xy, yx);
    }
  }

  lemma RetriesBounded(s: Snd)
    requires SndOk(s) && s.retries != MAX_RETRANSMISSIONS
    ensures s.retries < MAX_RETRANSMISSIONS
  {
  }

  lemma PairStep(x: Tcb, y: Tcb, xy: seq<Segment>, yx: seq<Segment>, a: Action)
    requires Pair(x, y, xy, yx)
    ensures Ready(x, a, yx)
    ensures var (x', out) := Local(x, a, yx);
            Pair(x', y, xy + out, yx)
  {
    hide Half;
    PairReady(x, y, xy, yx, a);
    assert xy + [] == xy;
    match a
    case Write(d) =>
      if Sending(x) { WriteKeeps(x.snd, y.rcv, xy, yx, d[..Min(Room(x.snd), |d|)]); }
    case Read(n) =>
      if Open(x.state) { ReadKeeps(y.snd, x.rcv, yx, xy, Min(n, x.rcv.nxt - x.rcv.lbr)); }
    case Close =>
      if Sending(x) && x.snd.nxt == x.snd.lbw { CloseKeeps(x, y, xy, yx); }
    case PlanSend =>
      if Sending(x) && CanPlan(x.snd) { PlanKeeps(x.snd, y.rcv, xy, yx); }
    case SendOne =>
      if Sending(x) && 0 < x.snd.burst { SendOneKeeps(x, y, xy, yx); }
    case StartProbe =>
      if Sending(x) && CanBeginProbe(x.snd) { BeginProbeKeeps(x.snd, y.rcv, xy, yx); }
    case SendProbe =>
      if Sending(x) && x.snd.probing { SendProbeKeeps(x, y, xy, yx); }
    case StopProbe =>
      if Sending(x) && CanEndProbe(x.snd) { EndProbeKeeps(x.snd, y.rcv, xy, yx); }
    case Timeout => TimeoutKeeps(x, y, xy, yx);
    case TimeWaitOver =>
    case Arrive(i, newIss) =>
      if i < |yx| { ArriveKeeps(x, y, xy, yx, yx[i], newIss); }
  }
}
