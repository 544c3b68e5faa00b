/** What each step of a side must do, said in terms of the pointers, the stream and the segments that go
    out. The states are those that satisfy `Inv`, and so all states of all runs. */
module StepEffects {
  import opened Ring
  import opened TcbModel
  import opened HalfConnection
  import opened Connection
  import opened Runs
  import opened Guarantees
  import opened Lifecycle
  import opened Coalescing
  import opened EarlyHistory

  // ---- the retransmission timer --------------------------------------------

  /** The stretch of the stream from `lo` to the next boundary of a segment. */
  ghost predicate NextStretch(s: Snd, lo: nat, p: seq<byte>) {
    && p != [] && s.first <= lo && lo + |p| <= s.first + |s.written|
    && p == s.written[lo - s.first..lo + |p| - s.first]
    && NoCutInside(s.cuts, lo, lo + |p|)
  }

  /** A segment repeats what was sent from `lo` on: the FIN if that is the end of the data. */
  ghost predicate Repeats(s: Snd, lo: nat, g: Segment) {
    && g.hasAck && g.seqNum == lo
    && if lo == s.lbw then g.fin && g.payload == [] else !g.fin && NextStretch(s, lo, g.payload)
  }

  lemma HeadRepeats(s: Snd, r: Rcv, data: seq<Segment>, acks: seq<Segment>)
    requires Half(s, r, data, acks) && s.rtx != []
    ensures Max(s.una, s.first) <= s.rtx[0].hdr.seqNum
    ensures NoGap(s, r) && Contiguous(s, r) ==> s.rtx[0].hdr.seqNum == Max(s.una, s.first)
    ensures Retransmitted(s).seqNum == s.rtx[0].hdr.seqNum && Repeats(s, Retransmitted(s).seqNum, Retransmitted(s))
  {
    hide AckOk, RcvOk, CrossOk, Holds;
    var e := s.rtx[0];
    assert RtxOk(e, s, data);
    TilesPositive(s.rtx, Start(s.rtx, Top(s)), Top(s), e);
    RetransmitIsOriginal(s, r, data, acks);
    if e.hdr.fin {
    } else {
      assert DataOk(Original(s, e), s, r);
    }
  }

  /** The timer of a connection with something outstanding sends it again: one segment, which repeats the
      first that is queued; after five times in vain it sends nothing and closes. Otherwise it
      does nothing. */
  lemma TimerResends(k: Conn, side: Side)
    requires Inv(k) && Open(Me(k, side).state)
    ensures var k' := Next(k, side, Timeout);
            var x := Me(k, side);
            if x.state == TimeWait || x.snd.rtx == [] then k' == k
            else if x.snd.retries == 5 then
              Me(k', side) == x.(state := Closed) && SentBy(k', side) == SentBy(k, side)
            else
              && Me(k', side) == x.(snd := x.snd.(retries := x.snd.retries + 1))
              && |SentBy(k', side)| == |SentBy(k, side)| + 1 && SentBy(k, side) <= SentBy(k', side)
              && var g := SentBy(k', side)[|SentBy(k, side)|];
                 && Max(x.snd.una, x.snd.first) <= g.seqNum && Repeats(x.snd, g.seqNum, g)
                 && (NoGap(x.snd, Me(k, Peer(side)).rcv) ==> g.seqNum == Max(x.snd.una, x.snd.first))
  {
    hide Inv, Half, Retransmitted, Repeats, NoGap;
    OpenIsJoined(k, side);
    InvReady(k, side, Timeout);
    var x, y := Me(k, side), Me(k, Peer(side));
    HalfSnd(x.snd, y.rcv, SentBy(k, side), SentBy(k, Peer(side)));
    if x.snd.rtx != [] {
      HeadRepeats(x.snd, y.rcv, SentBy(k, side), SentBy(k, Peer(side)));
    }
    assert SentBy(k, side) + [] == SentBy(k, side);
  }

  /** During the handshake the timer sends the SYN or the SYN-ACK again, up to five times. */
  lemma HandshakeTimerResends(k: Conn, side: Side)
    requires Inv(k) && Me(k, side).state in {SynSent, SynReceived}
    ensures var k' := Next(k, side, Timeout);
            var x := Me(k, side);
            if x.snd.retries == 5 then
              Me(k', side) == x.(state := Closed) && SentBy(k', side) == SentBy(k, side)
            else
              && Me(k', side) == x.(snd := x.snd.(retries := x.snd.retries + 1))
              && |SentBy(k', side)| == |SentBy(k, side)| + 1 && SentBy(k, side) <= SentBy(k', side)
              && var g := SentBy(k', side)[|SentBy(k, side)|];
                 && g.syn && !g.fin && g.payload == [] && g.seqNum == x.snd.iss && g.wnd == MAX_BUF_SIZE
                 && g.hasAck == (x.state == SynReceived) && (g.hasAck ==> g.ackNum == x.rcv.irs + 1)
  {
    hide Half;
    InvReady(k, side, Timeout);
    assert SentBy(k, side) + [] == SentBy(k, side);
  }

  // ---- acknowledgements ----------------------------------------------------

  /** The acknowledgement of a segment that the state's handler looks at is taken: SND.UNA and SND.WND are
      now what it says, what it covers leaves the queue, the rest stays, and the counter starts
      again if anything left. */
  predicate Takes(s: Snd, s': Snd, g: Segment) {
    && s'.una == g.ackNum && s'.wnd == g.wnd
    && |s'.rtx| <= |s.rtx| && s'.rtx == s.rtx[|s.rtx| - |s'.rtx|..]
    && (forall i :: 0 <= i < |s.rtx| - |s'.rtx| ==> s.rtx[i].hdr.seqNum < g.ackNum)
    && (s'.rtx != [] ==> g.ackNum <= s'.rtx[0].hdr.seqNum)
    && s'.retries == (if |s'.rtx| < |s.rtx| then 0 else s.retries)
    && s' == s.(una := s'.una, wnd := s'.wnd, rtx := s'.rtx, retries := s'.retries)
  }

  lemma {:induction false} DropAckedFront(q: seq<Rtx>, ack: nat)
    ensures var q' := DropAcked(q, ack);
            && |q'| <= |q| && q' == q[|q| - |q'|..]
            && (forall i :: 0 <= i < |q| - |q'| ==> q[i].hdr.seqNum < ack)
            && (q' != [] ==> ack <= q'[0].hdr.seqNum)
  {
    if q != [] && q[0].hdr.seqNum < ack {
      DropAckedFront(q[1..], ack);
    }
  }

  lemma OnAckTakes(s: Snd, g: Segment)
    ensures var s' := OnAck(s, g.ackNum, g.wnd);
            if s.una < g.ackNum && (if g.wnd == 0 then g.ackNum <= s.nxt else s.wnd == 0 || g.ackNum <= s.una + s.wnd)
            then Takes(s, s', g) else s' == s
  {
    DropAckedFront(s.rtx, g.ackNum);
  }

  lemma ArrivalSnd(t: Tcb, g: Segment, newIss: nat)
    requires CanProcess(t, g) && Open(t.state) && TakesAck(t, g)
    ensures OnSegment(t, g, newIss).0.snd == OnAck(t.snd, g.ackNum, g.wnd)
  {
    hide Accept, OnAck;
  }

  /** Which acknowledgements are taken, exactly, when the handler of the state passes them on: new ones, but
      for one beyond the window, and one that closes the window before the byte it covers counts
      as sent. */
  lemma AcksAreTakenExactly(k: Conn, side: Side, i: nat, newIss: nat)
    requires Inv(k)
    requires Open(Me(k, side).state) && i < |SentBy(k, Peer(side))| && TakesAck(Me(k, side), SentBy(k, Peer(side))[i])
    ensures var s, g := Me(k, side).snd, SentBy(k, Peer(side))[i];
            var s' := Me(Next(k, side, Arrive(i, newIss)), side).snd;
            if s.una < g.ackNum && (if g.wnd == 0 then g.ackNum <= s.nxt else s.wnd == 0 || g.ackNum <= s.una + s.wnd)
            then Takes(s, s', g) else s' == s
  {
    hide Inv, OnAck, OnSegment, Takes, Run;
    InvReady(k, side, Arrive(i, newIss));
    var x, g := Me(k, side), SentBy(k, Peer(side))[i];
    ArrivalSnd(x, g, newIss);
    OnAckTakes(x.snd, g);
  }

  lemma AckInWindow(s: Snd, r: Rcv, data: seq<Segment>, acks: seq<Segment>, g: Segment)
    requires Half(s, r, data, acks) && g in acks && g.hasAck && !s.cancelled && s.una < g.ackNum
    requires s.una < s.first ==> 0 < s.wnd
    ensures s.wnd == 0 || g.ackNum <= s.una + s.wnd
  {
    hide DataOk, QueueOk, RcvOk, CrossOk, Holds;
    assert AckOk(g, s, r);
  }

  /** Before Close every new acknowledgement is taken, but for one that closes the window before the byte it
      covers counts as sent. */
  lemma NewAcksAreTaken(k: Conn, side: Side, i: nat, newIss: nat)
    requires Inv(k)
    requires && Me(k, side).state == Established && i < |SentBy(k, Peer(side))|
             && SentBy(k, Peer(side))[i].hasAck && !SentBy(k, Peer(side))[i].fin
    ensures var s, g := Me(k, side).snd, SentBy(k, Peer(side))[i];
            var s' := Me(Next(k, side, Arrive(i, newIss)), side).snd;
            if s.una < g.ackNum && (g.wnd != 0 || g.ackNum <= s.nxt) then Takes(s, s', g) else s' == s
  {
    hide Inv, Half, Takes, Run, Step;
    OpenIsJoined(k, side);
    var x, y, g := Me(k, side), Me(k, Peer(side)), SentBy(k, Peer(side))[i];
    AcksAreTakenExactly(k, side, i, newIss);
    if x.snd.una < g.ackNum {
      AckInWindow(x.snd, y.rcv, SentBy(k, side), SentBy(k, Peer(side)), g);
    }
  }

  lemma ClosedWindow(s: Snd, r: Rcv, data: seq<Segment>, acks: seq<Segment>, g: Segment)
    requires Half(s, r, data, acks) && !s.cancelled && s.wnd == 0 && s.first <= s.una && g in acks && g.hasAck
    ensures s.una == s.nxt && (s.una < g.ackNum ==> s.probing && g.ackNum == s.una + 1)
  {
    hide DataOk, QueueOk, RcvOk, CrossOk, Holds;
    assert AckOk(g, s, r);
  }

  /** So the acknowledgement of the probe byte with an open window reopens a closed one. */
  lemma ProbeAckReopens(k: Conn, side: Side, i: nat, newIss: nat)
    requires Inv(k)
    requires && Me(k, side).state == Established && Me(k, side).snd.wnd == 0 && i < |SentBy(k, Peer(side))|
             && var g := SentBy(k, Peer(side))[i];
                g.hasAck && !g.fin && g.ackNum == Me(k, side).snd.una + 1 && 0 < g.wnd
    ensures var s, g := Me(k, side).snd, SentBy(k, Peer(side))[i];
            var k' := Next(k, side, Arrive(i, newIss));
            var s', s'' := Me(k', side).snd, Me(Next(k', side, StopProbe), side).snd;
            && s'.una == s.una + 1 && s'.wnd == g.wnd && s'.probing && s'.nxt == s.nxt
            && s''.una == s''.nxt == s.nxt + 1 && !s''.probing
  {
    hide Inv, Half, Receive;
    OpenIsJoined(k, side);
    var x, g := Me(k, side), SentBy(k, Peer(side))[i];
    ClosedWindow(x.snd, Me(k, Peer(side)).rcv, SentBy(k, side), SentBy(k, Peer(side)), g);
    NewAcksAreTaken(k, side, i, newIss);
    InvReady(k, side, Arrive(i, newIss));
    ReceiveState(x, g);
    InvReady(Next(k, side, Arrive(i, newIss)), side, StopProbe);
  }

  // ---- Send ----------------------------------------------------------------

  /** The end of what may be sent: of the data or of the window, whichever comes first. */
  function SendLimit(s: Snd): nat {
    Min(s.lbw, s.una + s.wnd)
  }

  /** When Send decides, it decides to send to the end of the window or of the data, unless it is at one of
      them, or has something under way. */
  lemma PlanIsToTheLimit(k: Conn, side: Side)
    requires Inv(k) && Sending(Me(k, side))
    ensures var x, k' := Me(k, side), Next(k, side, PlanSend);
            && SentBy(k', side) == SentBy(k, side)
            && if !x.snd.probing && x.snd.burst == 0 && x.snd.nxt < SendLimit(x.snd)
               then Me(k', side) == x.(snd := x.snd.(burst := SendLimit(x.snd) - x.snd.nxt))
               else Me(k', side) == x
  {
    hide Inv, Half;
    OpenIsJoined(k, side);
    InvReady(k, side, PlanSend);
    HalfSnd(Me(k, side).snd, Me(k, Peer(side)).rcv, SentBy(k, side), SentBy(k, Peer(side)));
    assert SentBy(k, side) + [] == SentBy(k, side);
  }

  /** A data segment that carries the stream from `lo` on, with the acknowledgement and window of `r`. */
  predicate Carries(s: Snd, r: Rcv, lo: nat, n: nat, g: Segment) {
    && g.seqNum == lo && g.hasAck && !g.syn && !g.fin && g.ackNum == r.nxt && g.wnd == r.wnd % 65536
    && s.first <= lo && lo + n <= s.first + |s.written| && g.payload == s.written[lo - s.first..lo + n - s.first]
  }

  /** While something is left of what was decided, Send emits the next stretch of the stream, at most a segment
      long, and queues it. */
  lemma SendOneCarriesTheStream(k: Conn, side: Side)
    requires Inv(k) && Sending(Me(k, side))
    ensures var x, k' := Me(k, side), Next(k, side, SendOne);
            if x.snd.burst == 0 then k' == k
            else
              var n := Min(x.snd.burst, 1360);
              && |SentBy(k', side)| == |SentBy(k, side)| + 1 && SentBy(k, side) <= SentBy(k', side)
              && var g, s' := SentBy(k', side)[|SentBy(k, side)|], Me(k', side).snd;
                 && Carries(x.snd, x.rcv, x.snd.nxt, n, g)
                 && s'.rtx == x.snd.rtx + [Rtx(g.(payload := []), n)]
                 && s'.cuts == x.snd.cuts + {x.snd.nxt + n}
                 && Me(k', side) == x.(snd := x.snd.(nxt := x.snd.nxt + n, burst := x.snd.burst - n, rtx := s'.rtx, cuts := s'.cuts))
  {
    hide Inv, Half, Load, Holds;
    OpenIsJoined(k, side);
    InvReady(k, side, SendOne);
    var x := Me(k, side);
    HalfSnd(x.snd, Me(k, Peer(side)).rcv, SentBy(k, side), SentBy(k, Peer(side)));
    if 0 < x.snd.burst {
      EmitPayload(x.snd, x.rcv);
    }
    assert SentBy(k, side) + [] == SentBy(k, side);
  }

  /** The probe starts exactly with a closed window and unsent data. */
  lemma ProbeStarts(k: Conn, side: Side)
    requires Inv(k) && Sending(Me(k, side))
    ensures var x, k' := Me(k, side), Next(k, side, StartProbe);
            && SentBy(k', side) == SentBy(k, side)
            && if !x.snd.probing && x.snd.burst == 0 && x.snd.wnd == 0 && x.snd.nxt < x.snd.lbw
               then Me(k', side) == x.(snd := x.snd.(probing := true, cuts := x.snd.cuts + {x.snd.nxt + 1}))
               else Me(k', side) == x
  {
    hide Inv;
    InvReady(k, side, StartProbe);
    assert SentBy(k, side) + [] == SentBy(k, side);
  }

  /** It ends exactly when the window is open, and its byte then counts as sent. */
  lemma ProbeStops(k: Conn, side: Side)
    requires Inv(k) && Sending(Me(k, side))
    ensures var x, k' := Me(k, side), Next(k, side, StopProbe);
            && SentBy(k', side) == SentBy(k, side)
            && if x.snd.probing && 0 < x.snd.wnd
               then Me(k', side) == x.(snd := x.snd.(probing := false, nxt := x.snd.nxt + 1)) else Me(k', side) == x
  {
    hide Inv;
    InvReady(k, side, StopProbe);
    assert SentBy(k, side) + [] == SentBy(k, side);
  }

  /** Each tick sends the one byte at SND.NXT, on its own. */
  lemma ProbeTicks(k: Conn, side: Side)
    requires Inv(k) && Sending(Me(k, side))
    ensures var x, k' := Me(k, side), Next(k, side, SendProbe);
            && Me(k', side) == x
            && if !x.snd.probing then SentBy(k', side) == SentBy(k, side)
               else
                 && |SentBy(k', side)| == |SentBy(k, side)| + 1 && SentBy(k, side) <= SentBy(k', side)
                 && var g := SentBy(k', side)[|SentBy(k, side)|];
                    && g.seqNum == x.snd.nxt && |g.payload| == 1 && g.hasAck && !g.syn && !g.fin
                    && (x.snd.wnd == 0 ==> Carries(x.snd, x.rcv, x.snd.nxt, 1, g))
  {
    hide Inv, Half, Load, Holds;
    OpenIsJoined(k, side);
    InvReady(k, side, SendProbe);
    var x := Me(k, side);
    HalfSnd(x.snd, Me(k, Peer(side)).rcv, SentBy(k, side), SentBy(k, Peer(side)));
    if x.snd.probing && x.snd.wnd == 0 {
      HoldsLoad(x.snd.buf, x.snd.written, x.snd.first, Max(x.snd.una, x.snd.first), x.snd.lbw, x.snd.nxt, 1);
    }
    assert SentBy(k, side) + [] == SentBy(k, side);
  }

  /** Close sends the FIN, numbered after the last byte, exactly once everything has been sent. */
  lemma CloseSendsTheFin(k: Conn, side: Side)
    requires Inv(k) && Open(Me(k, side).state)
    ensures var x, k' := Me(k, side), Next(k, side, Close);
            if x.state in {Established, CloseWait} && !x.snd.cancelled && x.snd.nxt == x.snd.lbw then
              && |SentBy(k', side)| == |SentBy(k, side)| + 1 && SentBy(k, side) <= SentBy(k', side)
              && var g, s' := SentBy(k', side)[|SentBy(k, side)|], Me(k', side).snd;
                 && g.fin && g.hasAck && !g.syn && g.payload == [] && g.seqNum == x.snd.lbw
                 && g.ackNum == x.rcv.nxt + (if x.state == CloseWait then 1 else 0) && g.wnd == x.rcv.wnd % 65536
                 && s'.cancelled && s'.nxt == s'.lbw + 1 && s'.lbw == x.snd.lbw && s'.written == x.snd.written
                 && s'.rtx == x.snd.rtx + [Rtx(g, 0)]
                 && Me(k', side).state == (if x.state == CloseWait then LastAck else FinWait1) && Me(k', side).rcv == x.rcv
            else k' == k
  {
    hide Inv, Half;
    InvReady(k, side, Close);
    assert SentBy(k, side) + [] == SentBy(k, side);
  }

  // ---- arriving segments ---------------------------------------------------

  /** A bare acknowledgement. */
  predicate PlainlyAcks(g: Segment, seqNum: nat, ack: nat, wnd: nat) {
    g.hasAck && !g.syn && !g.fin && g.payload == [] && g.seqNum == seqNum && g.ackNum == ack && g.wnd == wnd % 65536
  }

  /** What payload does to the receive half: in order it moves RCV.NXT by at least its length, early it is
      queued, and out of the window it does nothing. */
  predicate TakesPayload(r: Rcv, r': Rcv, g: Segment) {
    var e := Early(g.seqNum, |g.payload|);
    if r.nxt <= g.seqNum < r.nxt + r.wnd then
      && r'.taken == r.taken + {e} && r'.lbr == r.lbr && r'.read == r.read && r'.pendingFin == r.pendingFin
      && r'.wnd + r'.nxt == r.wnd + r.nxt
      && if g.seqNum == r.nxt then r.nxt + |g.payload| <= r'.nxt
         else r'.nxt == r.nxt && multiset(r'.early) == multiset(r.early) + multiset{e}
    else r' == r
  }

  lemma AcceptTakes(r: Rcv, g: Segment)
    requires g.payload != [] && (InWindow(r, g.seqNum) ==> CanAccept(r, g.seqNum, g.payload))
    ensures TakesPayload(r, if InWindow(r, g.seqNum) then Accept(r, g.seqNum, g.payload) else r, g)
  {
    hide Store, Push, Coalesce;
    PushContents(r.early, Early(g.seqNum, |g.payload|));
  }

  lemma ReceivesPayload(t: Tcb, g: Segment, newIss: nat)
    requires Receiving(t.state) && CanProcess(t, g) && g.hasAck && !g.fin && g.payload != []
    ensures var (t', out) := OnSegment(t, g, newIss);
            && t'.rcv == (if InWindow(t.rcv, g.seqNum) then Accept(t.rcv, g.seqNum, g.payload) else t.rcv)
            && t'.state == (if InWindow(t.rcv, g.seqNum) && t'.rcv.nxt == t'.rcv.pendingFin then CloseWait
                            else if t.state == FinWait1 && g.ackNum == t.snd.nxt then FinWait2 else t.state)
            && |out| == 1
            && PlainlyAcks(out[0], t.snd.nxt, t'.rcv.nxt + (if t'.state == CloseWait then 1 else 0), t'.rcv.wnd)
  {
    hide Accept, OnAck;
  }

  /** Every segment with payload is answered at once, whether it is new, early, or old: with one bare
      acknowledgement of all that has arrived in order, and of the FIN if that is reached. */
  lemma DataIsTakenAndAnswered(k: Conn, side: Side, i: nat, newIss: nat)
    requires Inv(k) && Receiving(Me(k, side).state) && i < |SentBy(k, Peer(side))| && SentBy(k, Peer(side))[i].payload != []
    ensures var x, g := Me(k, side), SentBy(k, Peer(side))[i];
            var k' := Next(k, side, Arrive(i, newIss));
            var x' := Me(k', side);
            && TakesPayload(x.rcv, x'.rcv, g)
            && |SentBy(k', side)| == |SentBy(k, side)| + 1 && SentBy(k, side) <= SentBy(k', side)
            && PlainlyAcks(SentBy(k', side)[|SentBy(k, side)|],
                           x.snd.nxt, x'.rcv.nxt + (if x'.state == CloseWait then 1 else 0), x'.rcv.wnd)
  {
    hide Inv, Half, OnSegment, Accept, TakesPayload, PlainlyAcks, DataOk;
    OpenIsJoined(k, side);
    InvReady(k, side, Arrive(i, newIss));
    var x, g := Me(k, side), SentBy(k, Peer(side))[i];
    HalfFacts(Me(k, Peer(side)).snd, x.rcv, SentBy(k, Peer(side)), SentBy(k, side));
    EndsOnCut(Me(k, Peer(side)).snd, x.rcv, g);
    ReceivesPayload(x, g, newIss);
    AcceptTakes(x.rcv, g);
  }

  /** A segment without payload and FIN is never answered and leaves the receive half alone, and so does any
      segment without FIN once data is no longer taken. */
  lemma BareSegmentsAreSilent(k: Conn, side: Side, i: nat, newIss: nat)
    requires Inv(k) && Open(Me(k, side).state) && i < |SentBy(k, Peer(side))|
    requires var g := SentBy(k, Peer(side))[i]; !g.fin && (g.payload == [] || !Receiving(Me(k, side).state))
    ensures var k' := Next(k, side, Arrive(i, newIss));
            SentBy(k', side) == SentBy(k, side) && Me(k', side).rcv == Me(k, side).rcv
  {
    hide Inv, OnAck;
    InvReady(k, side, Arrive(i, newIss));
    assert SentBy(k, side) + [] == SentBy(k, side);
  }

  /** An acknowledgement that the handler of the state does not pass on leaves the send half alone; only the
      end of LAST_ACK empties its queue. */
  lemma OtherAcksAreIgnored(k: Conn, side: Side, i: nat, newIss: nat)
    requires Inv(k) && Open(Me(k, side).state) && i < |SentBy(k, Peer(side))| && !TakesAck(Me(k, side), SentBy(k, Peer(side))[i])
    ensures var x, x' := Me(k, side), Me(Next(k, side, Arrive(i, newIss)), side);
            if x.state == LastAck && x'.state == Closed then x'.snd.rtx == [] && SameButQueue(x.snd, x'.snd) else x'.snd == x.snd
  {
    hide Inv, Half, OnAck, Accept, DropAcked;
    OpenIsJoined(k, side);
    InvReady(k, side, Arrive(i, newIss));
    var x, y := Me(k, side), Me(k, Peer(side));
    if x.state == LastAck {
      AllDropped(x.snd, y.rcv, SentBy(k, side), SentBy(k, Peer(side)));
    }
  }

  predicate SameButQueue(s: Snd, s': Snd) {
    s' == s.(rtx := s'.rtx, retries := s'.retries)
  }

  lemma AllDropped(s: Snd, r: Rcv, data: seq<Segment>, acks: seq<Segment>)
    requires Half(s, r, data, acks) && s.cancelled
    ensures DropAcked(s.rtx, s.nxt) == []
  {
    hide DataOk, AckOk, RcvOk, CrossOk, Holds;
    DropAckedTiles(s.rtx, Start(s.rtx, Top(s)), Top(s), s.nxt, s.cuts);
    DropAckedFront(s.rtx, s.nxt);
    var q := DropAcked(s.rtx, s.nxt);
    if q != [] {
      TilesPositive(q, Start(q, Top(s)), Top(s), q[0]);
    }
  }

  /** When its wait is over, TIME_WAIT ends, and nothing else does. */
  lemma TimeWaitEnds(k: Conn, side: Side)
    requires Inv(k)
    ensures var x, k' := Me(k, side), Next(k, side, TimeWaitOver);
            && SentBy(k', side) == SentBy(k, side)
            && Me(k', side) == if x.state == TimeWait then x.(state := Closed) else x
  {
    hide Inv;
    InvReady(k, side, TimeWaitOver);
    assert SentBy(k, side) + [] == SentBy(k, side);
  }

  /** The state every segment leads to, from every state in which the application holds the connection. */
  lemma ArrivalStates(k: Conn, side: Side, i: nat, newIss: nat)
    requires Inv(k) && Open(Me(k, side).state) && i < |SentBy(k, Peer(side))|
    ensures var x, g := Me(k, side), SentBy(k, Peer(side))[i];
            var x' := Me(Next(k, side, Arrive(i, newIss)), side);
            x'.state ==
              if x.state == Established && g.fin && g.seqNum == x.rcv.nxt then CloseWait
              else if Receiving(x.state) && g.payload != [] && InWindow(x.rcv, g.seqNum) && x'.rcv.nxt == x.rcv.pendingFin then CloseWait
              else if x.state == FinWait1 && g.hasAck && g.ackNum == x.snd.lbw + 1 then FinWait2
              else if x.state == FinWait1 && g.fin then (if g.ackNum == x.snd.lbw then Closing else TimeWait)
              else if x.state == FinWait2 && g.fin && g.seqNum == x.rcv.nxt then TimeWait
              else if x.state == Closing && g.hasAck && g.ackNum == x.snd.lbw + 1 then TimeWait
              else if x.state == LastAck && g.hasAck && g.ackNum == x.snd.lbw + 1 then Closed
              else x.state
  {
    hide Inv, Half, Accept, OnAck, DataOk, RcvOk;
    OpenIsJoined(k, side);
    InvReady(k, side, Arrive(i, newIss));
    var x, y, g := Me(k, side), Me(k, Peer(side)), SentBy(k, Peer(side))[i];
    HalfFacts(y.snd, x.rcv, SentBy(k, Peer(side)), SentBy(k, side));
    HalfSnd(x.snd, y.rcv, SentBy(k, side), SentBy(k, Peer(side)));
    if g.payload != [] {
      EndsOnCut(y.snd, x.rcv, g);
      if Receiving(x.state) {
        AcceptTakes(x.rcv, g);
      }
    }
    if g.fin {
      FinIsEnd(y.snd, x.rcv, SentBy(k, Peer(side)), SentBy(k, side), g);
    }
  }

  /** How a FIN is answered: with an acknowledgement of it once all data before it has arrived, and of what has
      arrived otherwise. It goes unanswered when it acknowledges our own FIN in FIN_WAIT_1, when
      it is early in FIN_WAIT_2, and in CLOSING and LAST_ACK. */
  lemma FinIsAnswered(k: Conn, side: Side, i: nat, newIss: nat)
    requires Inv(k) && Open(Me(k, side).state) && i < |SentBy(k, Peer(side))| && SentBy(k, Peer(side))[i].fin
    ensures var x, g := Me(k, side), SentBy(k, Peer(side))[i];
            var k' := Next(k, side, Arrive(i, newIss));
            var x' := Me(k', side);
            var silent := x.state in {Closing, LastAck} || (x.state == FinWait1 && g.ackNum == x.snd.lbw + 1)
                          || (x.state == FinWait2 && g.seqNum != x.rcv.nxt);
            && (silent ==> SentBy(k', side) == SentBy(k, side) && x'.rcv == x.rcv)
            && (!silent ==>
                  && |SentBy(k', side)| == |SentBy(k, side)| + 1 && SentBy(k, side) <= SentBy(k', side)
                  && PlainlyAcks(SentBy(k', side)[|SentBy(k, side)|], x.snd.nxt,
                                 x'.rcv.nxt + (if x.state == Established && x.rcv.nxt == g.seqNum then 1 else 0), x.rcv.wnd)
                  && x'.rcv == (if x.state in {FinWait1, FinWait2} then x.rcv.(nxt := x.rcv.nxt + 1, finCounted := true)
                                else if x.state == Established && x.rcv.nxt < g.seqNum then x.rcv.(pendingFin := g.seqNum)
                                else x.rcv))
  {
    hide Inv, Half, OnAck, DataOk, RcvOk;
    OpenIsJoined(k, side);
    InvReady(k, side, Arrive(i, newIss));
    var x, y, g := Me(k, side), Me(k, Peer(side)), SentBy(k, Peer(side))[i];
    HalfSnd(x.snd, y.rcv, SentBy(k, side), SentBy(k, Peer(side)));
    FinIsEnd(y.snd, x.rcv, SentBy(k, Peer(side)), SentBy(k, side), g);
    assert SentBy(k, side) + [] == SentBy(k, side);
  }

  // ---- the handshake -------------------------------------------------------

  /** A listener makes a connection of any SYN that reaches it and answers it. */
  lemma ListenerAnswers(k: Conn, i: nat, newIss: nat)
    requires Inv(k) && k.s.state == Listen && i < |k.cs|
    ensures var k' := Next(k, Server, Arrive(i, newIss));
            && k'.s.state == SynReceived && k'.s.snd.first == newIss + 1
            && k'.s.rcv.nxt == k'.s.rcv.lbr == k.c.snd.first && k'.s.rcv.wnd == MAX_BUF_SIZE
            && |k'.sc| == 1
            && var g := k'.sc[0];
               g.syn && g.hasAck && !g.fin && g.payload == [] && g.seqNum == newIss && g.ackNum == k.c.snd.first && g.wnd == MAX_BUF_SIZE
  {
    hide Half;
    InvReady(k, Server, Arrive(i, newIss));
    assert k.cs[i] in k.cs;
  }

  /** A client that has sent its SYN opens on any answer, and acknowledges it. */
  lemma ClientOpens(k: Conn, i: nat, newIss: nat)
    requires Inv(k) && k.c.state == SynSent && i < |k.sc|
    ensures var k' := Next(k, Client, Arrive(i, newIss));
            && k'.c.state == Established && k'.c.rcv.nxt == k'.c.rcv.lbr == k.s.snd.first
            && k'.c.snd.una == k'.c.snd.first == k.c.snd.first && k'.c.snd.wnd == MAX_BUF_SIZE
            && |k'.cs| == |k.cs| + 1 && k.cs <= k'.cs
            && PlainlyAcks(k'.cs[|k.cs|], k.c.snd.first, k.s.snd.first, MAX_BUF_SIZE)
  {
    hide Half;
    InvReady(k, Client, Arrive(i, newIss));
    assert k.sc[i] in k.sc;
  }

  /** In SYN_RECEIVED a repeated SYN, and nothing else, is answered with the SYN-ACK again. */
  lemma RepeatedSynIsAnswered(k: Conn, side: Side, i: nat, newIss: nat)
    requires Inv(k) && Me(k, side).state == SynReceived && i < |SentBy(k, Peer(side))|
    ensures var x, g := Me(k, side), SentBy(k, Peer(side))[i];
            var k' := Next(k, side, Arrive(i, newIss));
            if g.syn && g.payload == [] then
              && |SentBy(k', side)| == |SentBy(k, side)| + 1 && SentBy(k, side) <= SentBy(k', side)
              && var a := SentBy(k', side)[|SentBy(k, side)|];
                 a.syn && a.hasAck && !a.fin && a.payload == [] && a.seqNum == x.snd.iss && a.ackNum == x.rcv.irs + 1 && a.wnd == MAX_BUF_SIZE
            else SentBy(k', side) == SentBy(k, side)
  {
    hide Half;
    InvReady(k, side, Arrive(i, newIss));
    assert SentBy(k, side) + [] == SentBy(k, side);
  }
}
