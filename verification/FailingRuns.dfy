/** Runs in which the code breaks what the design promises, step by step. */
module FailingRuns {
  import opened Ring
  import opened TcbModel
  import opened HalfConnection
  import opened Connection
  import opened Runs
  import opened Guarantees
  import opened Coalescing
  import opened EarlyHistory
  import opened Lifecycle
  import opened CloseFailures

  lemma ReachedSnoc(steps: seq<(Side, Action)>, side: Side, a: Action) returns (steps': seq<(Side, Action)>)
    ensures Ready(Me(Reached(0, steps), side), a, SentBy(Reached(0, steps), Peer(side)))
    ensures Reached(0, steps') == Step(Reached(0, steps), side, a)
  {
    hide Inv, Step, Ready;
    steps' := steps + [(side, a)];
    InitInv(0);
    InvReady(Reached(0, steps), side, a);
    RunSnoc(Init(0), steps, side, a);
  }

  function ClientSnd(): Snd {
    InitSnd(0).(una := 1, wnd := MAX_BUF_SIZE, iss := 7)
  }

  function ServerSnd(): Snd {
    InitSnd(100).(wnd := MAX_BUF_SIZE)
  }

  /** The client's first sequence number is 0 and the server's is 100. */
  lemma Handshake() returns (steps: seq<(Side, Action)>)
    ensures var k := Reached(0, steps);
            && k.c == Tcb(Established, ClientSnd(), InitRcv(100))
            && k.s == Tcb(Established, ServerSnd(), InitRcv(0))
            && |k.cs| == 2 && |k.sc| == 1
  {
    hide Inv, Store, Load, Coalesce, Push, DropAcked;
    steps := ReachedSnoc([], Server, Arrive(0, 100));
    assert Reached(0, []) == Init(0);
    assert Reached(0, steps).s == Tcb(SynReceived, InitSnd(100), InitRcv(0));
    steps := ReachedSnoc(steps, Client, Arrive(0, 7));
    assert Reached(0, steps).c == Tcb(Established, ClientSnd(), InitRcv(100));
    steps := ReachedSnoc(steps, Server, Arrive(1, 0));
  }

  lemma ClientClosed() returns (steps: seq<(Side, Action)>)
    ensures var k := Reached(0, steps);
            && k.c.state == FinWait2 && k.c.rcv == InitRcv(100) && k.c.snd.una == 2 && k.c.snd.wnd == MAX_BUF_SIZE
            && k.s.rcv == InitRcv(0)
            && k.s.state == CloseWait && k.s.snd == ServerSnd() && |k.sc| == 2
  {
    hide Inv, Store, Load, Coalesce, Push, DropAcked, Next, Run;
    steps := Handshake();
    steps := ReachedSnoc(steps, Client, Close);
    assert Reached(0, steps).c.state == FinWait1 && |Reached(0, steps).cs| == 3;
    steps := ReachedSnoc(steps, Server, Arrive(2, 0));
    assert Reached(0, steps).s.state == CloseWait && |Reached(0, steps).sc| == 2;
    steps := ReachedSnoc(steps, Client, Arrive(1, 0));
  }

  /** An active closer that goes on reading after the peer's FIN reads one byte that
      nobody wrote: RCV.NXT counts the FIN, and Read trusts RCV.NXT. */
  lemma ReadPastTheFin() returns (steps: seq<(Side, Action)>)
    ensures var k := Reached(0, steps);
            k.c.state == TimeWait && k.s.snd.written == [] && |k.c.rcv.read| == 1
  {
    hide Inv, Store, Load, Coalesce, Push, DropAcked, Next, Run;
    steps := ClientClosed();
    steps := ReachedSnoc(steps, Server, Close);
    assert |Reached(0, steps).sc| == 3;
    steps := ReachedSnoc(steps, Client, Arrive(2, 0));
    assert Reached(0, steps).c.state == TimeWait;
    steps := ReachedSnoc(steps, Client, Read(1));
  }

  lemma ByteLost() returns (steps: seq<(Side, Action)>)
    ensures var k := Reached(0, steps);
            && k.c.state == Established && !k.c.snd.cancelled && k.c.snd.first == 1
            && k.c.snd.written == [42] && k.c.snd.nxt == k.c.snd.lbw == 2
            && k.s == Tcb(Established, ServerSnd(), InitRcv(0)) && |k.sc| == 1
  {
    hide Inv, Store, Load;
    steps := Handshake();
    steps := ReachedSnoc(steps, Client, Write([42]));
    assert Reached(0, steps).c.snd.written == [42];
    steps := ReachedSnoc(steps, Client, PlanSend);
    assert Reached(0, steps).c.snd.burst == 1;
    steps := ReachedSnoc(steps, Client, SendOne);
  }

  /** A FIN in FIN_WAIT_1 that acknowledges neither the FIN nor all data leads to
      TIME_WAIT, where retransmission stops, although the peer lacks a byte. */
  lemma TimeWaitWithDataMissing() returns (steps: seq<(Side, Action)>)
    ensures var k := Reached(0, steps);
            k.c.state == TimeWait && k.c.snd.written == [42] && k.s.rcv.nxt == k.c.snd.first && k.s.rcv.read == []
  {
    hide Inv, Store, Load, Coalesce, Push, DropAcked, Next, Run;
    steps := ByteLost();
    steps := ReachedSnoc(steps, Client, Close);
    assert Reached(0, steps).c.state == FinWait1 && Reached(0, steps).c.snd.nxt == 3;
    steps := ReachedSnoc(steps, Server, Close);
    assert |Reached(0, steps).sc| == 2;
    steps := ReachedSnoc(steps, Client, Arrive(1, 0));
  }

  // ---- an early segment delivered twice ------------------------------------

  /** A client that has sent `n` bytes, one a segment, of which none has been delivered. */
  ghost predicate BytesSent(k: Conn, n: nat) {
    && k.c.state == Established && !k.c.snd.cancelled && k.c.snd.burst == 0 && !k.c.snd.probing
    && k.c.snd.una == k.c.snd.first == 1 && k.c.snd.wnd == MAX_BUF_SIZE && k.c.snd.nxt == k.c.snd.lbw == 1 + n
    && k.c.rcv == InitRcv(100)
    && k.s == Tcb(Established, ServerSnd(), InitRcv(0))
    && |k.cs| == 2 + n && |k.sc| == 1
    && forall i :: 2 <= i < 2 + n ==> ByteAt(k.cs[i], i - 1)
  }

  predicate ByteAt(g: Segment, seqNum: nat) {
    g.seqNum == seqNum && |g.payload| == 1 && g.hasAck && !g.fin && !g.syn && g.ackNum == 101 && g.wnd == MAX_BUF_SIZE
  }

  lemma {:induction false} SendBytes(n: nat) returns (steps: seq<(Side, Action)>)
    requires n < 10
    ensures BytesSent(Reached(0, steps), n)
  {
    hide Inv, Store, Load, Coalesce, Push, DropAcked, Next, Run;
    if n == 0 {
      steps := Handshake();
    } else {
      steps := SendBytes(n - 1);
      steps := SendByte(steps, n - 1);
    }
  }

  lemma SendByte(before: seq<(Side, Action)>, n: nat) returns (steps: seq<(Side, Action)>)
    requires n < 10 && BytesSent(Reached(0, before), n)
    ensures BytesSent(Reached(0, steps), n + 1)
  {
    hide Inv, Store, Load, Coalesce, Push, DropAcked, Next, Run;
    ghost var k := Reached(0, before);
    steps := ReachedSnoc(before, Client, Write([42]));
    assert Reached(0, steps).c.snd.lbw == n + 2 && Reached(0, steps).cs == k.cs;
    steps := ReachedSnoc(steps, Client, PlanSend);
    assert Reached(0, steps).c.snd.burst == 1 && Reached(0, steps).cs == k.cs;
    steps := ReachedSnoc(steps, Client, SendOne);
    ghost var k' := Reached(0, steps);
    assert k'.cs[..2 + n] == k.cs;
    assert forall i :: 0 <= i < 2 + n ==> k'.cs[i] == k.cs[i];
    assert ByteAt(k'.cs[2 + n], 1 + n);
  }

  /** One delivery to the server. */
  lemma Deliver(before: seq<(Side, Action)>, i: nat) returns (steps: seq<(Side, Action)>)
    requires var k := Reached(0, before);
             && 1 <= k.s.rcv.nxt && k.s.state == Established && k.s.rcv.pendingFin == 0 && i < |k.cs|
             && ByteAt(k.cs[i], k.cs[i].seqNum) && InWindow(k.s.rcv, k.cs[i].seqNum)
    ensures var k, k' := Reached(0, before), Reached(0, steps);
            && CanAccept(k.s.rcv, k.cs[i].seqNum, k.cs[i].payload)
            && k'.s.rcv == Accept(k.s.rcv, k.cs[i].seqNum, k.cs[i].payload)
            && k'.s.state == Established && k'.cs == k.cs && k'.c == k.c && |k'.sc| == |k.sc| + 1
  {
    hide Inv, Accept, OnAck, Coalesce, Next, Run;
    steps := ReachedSnoc(before, Server, Arrive(i, 0));
    ghost var k := Reached(0, before);
    AcceptMoves(k.s.rcv, k.cs[i].seqNum, k.cs[i].payload);
  }

  lemma AcceptMoves(r: Rcv, at: nat, p: seq<byte>)
    requires CanAccept(r, at, p)
    ensures var r' := Accept(r, at, p); r.nxt <= r'.nxt && r'.pendingFin == r.pendingFin
  {
  }

  /** Of three one-byte segments the second is delivered twice and the third once before the
      first: updateAckNum stops behind the second, although the third has arrived, and the second
      copy of the second stays in the queue. */
  lemma RepeatedEarlySegment() returns (steps: seq<(Side, Action)>)
    ensures var r := Reached(0, steps).s.rcv;
            && r.nxt == 3 && r.early == [Early(2, 1), Early(3, 1)]
            && Taken(r.taken, 3) && StaleHead(r.early, r.nxt)
  {
    hide Inv, Store, Next, Run, Step;
    steps := SendBytes(3);
    ghost var cs := Reached(0, steps).cs;
    assert ByteAt(cs[2], 1) && ByteAt(cs[3], 2) && ByteAt(cs[4], 3);
    steps := Deliver(steps, 3);
    assert Push([], Early(2, 1)) == [Early(2, 1)];
    steps := Deliver(steps, 3);
    assert Push([Early(2, 1)], Early(2, 1)) == [Early(2, 1), Early(2, 1)] by { PushTwo(Early(2, 1)); }
    steps := Deliver(steps, 4);
    PushLast();
    steps := Deliver(steps, 2);
    Blocked();
    assert Early(3, 1) in Reached(0, steps).s.rcv.taken;
  }

  lemma PushTwo(e: Early)
    requires 0 < e.len
    ensures Push([e], e) == [e, e]
  {
    assert [e][..1] == [e];
  }

  lemma PushLast()
    ensures Push([Early(2, 1), Early(2, 1)], Early(3, 1)) == [Early(2, 1), Early(2, 1), Early(3, 1)]
  {
    var q := [Early(2, 1), Early(2, 1)];
    assert q[1..] == [Early(2, 1)] && q[1..][1..] == [];
    assert InsertIndex(q, 4) == 2;
  }

  lemma Blocked()
    ensures Coalesce([Early(2, 1), Early(2, 1), Early(3, 1)], 2) == ([Early(2, 1), Early(3, 1)], 3)
  {
    assert [Early(2, 1), Early(2, 1), Early(3, 1)][1..] == [Early(2, 1), Early(3, 1)];
  }

  // ---- writing after the peer has closed -----------------------------------

  /** The peer has one byte it has not read, and has closed. */
  lemma PeerClosedUnread() returns (steps: seq<(Side, Action)>)
    ensures var x := Reached(0, steps).c;
            && x.state == CloseWait && !x.snd.cancelled && x.snd.burst == 0 && !x.snd.probing
            && x.snd.una == x.snd.nxt == x.snd.lbw == 2 && x.snd.wnd == MAX_BUF_SIZE - 1
  {
    hide Inv, Store, Load, DropAcked, Next, Run;
    steps := SendBytes(1);
    ghost var k0 := Reached(0, steps);
    assert ByteAt(k0.cs[2], 1);
    steps := ReachedSnoc(steps, Server, Arrive(2, 0));
    ghost var k1 := Reached(0, steps);
    assert k1.s.state == Established && k1.s.rcv.nxt == 2 && k1.s.rcv.wnd == MAX_BUF_SIZE - 1;
    assert k1.sc[1].ackNum == 2 && k1.sc[1].wnd == MAX_BUF_SIZE - 1 && k1.sc[1].payload == [] && !k1.sc[1].fin;
    steps := ReachedSnoc(steps, Client, Arrive(1, 0));
    ghost var k2 := Reached(0, steps);
    assert k2.c.state == Established && k2.c.snd.una == 2 && k2.c.snd.wnd == MAX_BUF_SIZE - 1 && k2.c.rcv.nxt == 101;
    assert k2.s.snd.nxt == k2.s.snd.lbw == 101 && |k2.sc| == 2;
    steps := ReachedSnoc(steps, Server, Close);
    ghost var k3 := Reached(0, steps);
    assert k3.sc[2].fin && k3.sc[2].seqNum == 101 && k3.c == k2.c;
    steps := ReachedSnoc(steps, Client, Arrive(2, 0));
  }

  /** Write accepts a full buffer in CLOSE_WAIT, and in no continuation does SND.NXT ever reach the
      last byte: it can never be sent, and Close never gets to send the FIN. */
  lemma WrittenBytesNeverLeave() returns (steps: seq<(Side, Action)>)
    ensures var x := Reached(0, steps).c;
            && x.state == CloseWait && x.snd.lbw == 2 + MAX_BUF_SIZE
            && forall more :: Run(Reached(0, steps), more).c.snd.nxt < x.snd.lbw
  {
    hide Inv, Store, Load, Next, Run;
    steps := PeerClosedUnread();
    steps := ReachedSnoc(steps, Client, Write(EmptyRing()));
    ghost var k := Reached(0, steps);
    AllCanBeSentExactly(k, Client);
    assert forall more :: !(k.c.snd.lbw <= Me(Run(k, more), Client).snd.nxt);
  }

  // ---- acknowledgements and windows around the FIN ------------------------

  /** The client has sent two bytes in one segment, and its FIN. */
  lemma TwoBytesAndFin() returns (steps: seq<(Side, Action)>)
    ensures var k := Reached(0, steps);
            && k.c.state == FinWait1 && k.c.snd.written == [42, 43] && k.c.snd.lbw == 3 && k.c.snd.nxt == 4
            && k.c.snd.una == 1 && k.c.snd.wnd == MAX_BUF_SIZE
            && |k.c.snd.rtx| == 2 && k.c.snd.rtx[0].hdr.seqNum == 1 && k.c.snd.rtx[1].hdr.seqNum == 3 && k.c.snd.rtx[1].hdr.fin
            && |k.cs| == 4 && k.cs[3].fin && k.cs[3].hasAck && k.cs[3].ackNum == 101
            && k.s == Tcb(Established, ServerSnd(), InitRcv(0)) && |k.sc| == 1
  {
    hide Inv, Store, Load, Coalesce, Push, Next, Run;
    steps := Handshake();
    steps := ReachedSnoc(steps, Client, Write([42, 43]));
    assert Reached(0, steps).c.snd.written == [42, 43];
    steps := ReachedSnoc(steps, Client, PlanSend);
    assert Reached(0, steps).c.snd.burst == 2;
    steps := ReachedSnoc(steps, Client, SendOne);
    ghost var k := Reached(0, steps);
    assert k.c.snd.nxt == k.c.snd.lbw == 3 && |k.cs| == 3 && |k.c.snd.rtx| == 1 && k.c.snd.rtx[0].hdr.seqNum == 1;
    steps := ReachedSnoc(steps, Client, Close);
  }

  /** The client's FIN overtakes its two bytes. The server, which has closed, counts it and so acknowledges a
      byte it never got; the client takes that and drops the segment with both. */
  lemma AckOfMissingData() returns (steps: seq<(Side, Action)>)
    ensures var k := Reached(0, steps);
            && k.c.snd.written == [42, 43] && k.c.snd.una == 2 && |k.c.snd.rtx| == 1 && k.c.snd.rtx[0].hdr.fin
            && k.s.state == Closing && k.s.rcv.taken == {} && !NoGap(k.c.snd, k.s.rcv)
  {
    hide Inv, Store, Load, Coalesce, Push, DropAcked, Next, Run;
    steps := TwoBytesAndFin();
    ghost var k2 := Reached(0, steps);
    steps := ReachedSnoc(steps, Server, Close);
    assert Reached(0, steps).s.state == FinWait1 && |Reached(0, steps).sc| == 2;
    steps := ReachedSnoc(steps, Server, Arrive(3, 0));
    ghost var k4 := Reached(0, steps);
    assert k4.s.state == Closing && k4.sc[2].ackNum == 2 && k4.sc[2].wnd == MAX_BUF_SIZE && k4.c == k2.c;
    DropFirst(k2.c.snd.rtx, 2);
    steps := ReachedSnoc(steps, Client, Arrive(2, 0));
  }

  lemma DropFirst(q: seq<Rtx>, ack: nat)
    requires |q| == 2 && q[0].hdr.seqNum < ack <= q[1].hdr.seqNum
    ensures DropAcked(q, ack) == q[1..] && |q[1..]| == 1 && q[1..][0] == q[1]
  {
  }

  /** Once its FIN is acknowledged, a side believes in a window that ends one past the peer's buffer. */
  lemma WindowOneTooFar() returns (steps: seq<(Side, Action)>)
    ensures var k := Reached(0, steps);
            k.c.state == FinWait2 && Edge(k.c.snd) == k.s.rcv.lbr + MAX_BUF_SIZE + 1
  {
    hide Inv, Reached;
    steps := ClientClosed();
  }

  lemma InOrder(r: Rcv, p: seq<byte>)
    requires CanAccept(r, r.nxt, p) && r.early == []
    ensures var r' := Accept(r, r.nxt, p);
            r'.nxt == r.nxt + |p| && r'.early == [] && r'.lbr == r.lbr && r'.wnd == r.wnd - |p| && r'.pendingFin == r.pendingFin
  {
  }

  /** The server has three bytes, which it has not read. */
  lemma ThreeDelivered() returns (steps: seq<(Side, Action)>)
    ensures var k := Reached(0, steps);
            && k.c.state == Established && !k.c.snd.cancelled && k.c.snd.una == 1 && k.c.snd.wnd == MAX_BUF_SIZE
            && k.c.snd.nxt == k.c.snd.lbw == 4 && |k.cs| == 5 && k.c.rcv.pendingFin == 0
            && k.s.state == Established && k.s.rcv.nxt == 4 && k.s.rcv.lbr == 1 && k.s.rcv.wnd == MAX_BUF_SIZE - 3
            && |k.sc| == 4
  {
    hide Inv, Store, Next, Run, Step, Accept, CanAccept;
    steps := SendBytes(3);
    ghost var cs := Reached(0, steps).cs;
    assert ByteAt(cs[2], 1) && ByteAt(cs[3], 2) && ByteAt(cs[4], 3);
    ghost var r := Reached(0, steps).s.rcv;
    steps := Deliver(steps, 2);
    InOrder(r, cs[2].payload);
    r := Reached(0, steps).s.rcv;
    steps := Deliver(steps, 3);
    InOrder(r, cs[3].payload);
    r := Reached(0, steps).s.rcv;
    steps := Deliver(steps, 4);
    InOrder(r, cs[4].payload);
  }

  /** The server has acknowledged the client's FIN, then read, then answered the FIN again. */
  lemma FinAnsweredTwice() returns (steps: seq<(Side, Action)>)
    ensures var k := Reached(0, steps);
            && k.c.state == FinWait1 && k.c.snd.cancelled && k.c.snd.lbw == 4 && k.c.snd.nxt == 5
            && k.c.snd.una == 1 && k.c.snd.wnd == MAX_BUF_SIZE
            && |k.sc| == 6 && k.sc[4].hasAck && !k.sc[4].fin && k.sc[4].ackNum == 5 && k.sc[4].wnd == MAX_BUF_SIZE - 3
            && k.sc[5].hasAck && !k.sc[5].fin && k.sc[5].payload == [] && k.sc[5].ackNum == 4 && k.sc[5].wnd == MAX_BUF_SIZE
  {
    hide Inv, Store, Load, Coalesce, Push, DropAcked, Next, Run;
    steps := ThreeDelivered();
    steps := ReachedSnoc(steps, Client, Close);
    ghost var k1 := Reached(0, steps);
    assert k1.c.state == FinWait1 && k1.c.snd.nxt == 5 && |k1.cs| == 6 && k1.cs[5].fin && k1.cs[5].seqNum == 4;
    steps := ReachedSnoc(steps, Server, Arrive(5, 0));
    ghost var k2 := Reached(0, steps);
    assert k2.s.state == CloseWait && |k2.sc| == 5 && k2.sc[4].ackNum == 5 && k2.sc[4].wnd == MAX_BUF_SIZE - 3;
    steps := ReachedSnoc(steps, Server, Read(3));
    ghost var k3 := Reached(0, steps);
    assert k3.s.rcv.wnd == MAX_BUF_SIZE && k3.s.state == CloseWait && k3.s.rcv.nxt == 4 && k3.sc == k2.sc && k3.cs == k1.cs;
    steps := ReachedSnoc(steps, Server, Arrive(5, 0));
  }

  /** The server, in CLOSE_WAIT, answers a repeated FIN with the number before the FIN's and more window
      than before; when the earlier answer comes in after that, the window moves back. */
  lemma WindowTakenBack() returns (steps: seq<(Side, Action)>)
    ensures var k := Reached(0, steps);
            Edge(Next(k, Client, Arrive(4, 0)).c.snd) < Edge(k.c.snd)
  {
    hide Inv, DropAcked, Next, Run;
    steps := FinAnsweredTwice();
    steps := ReachedSnoc(steps, Client, Arrive(5, 0));
    ghost var k := Reached(0, steps);
    assert k.c.state == FinWait1 && k.c.snd.una == 4 && k.c.snd.wnd == MAX_BUF_SIZE && k.c.snd.cancelled && k.c.snd.lbw == 4;
    WindowShrinksExactly(0, steps, Client, Arrive(4, 0), Client);
  }

  // ---- closing after an early FIN ------------------------------------------

  /** The server remembers an early FIN, closes, and then gets the missing byte: it is in CLOSE_WAIT, where
      only the timer can take it out. */
  lemma ClosedAndStuck() returns (steps: seq<(Side, Action)>)
    ensures var k := Reached(0, steps);
            Stuck(k.s) && forall more :: NoTimeout(more, Server) ==> Stuck(Run(k, more).s)
  {
    hide Inv, Store, Load, Push, DropAcked, Next, Run;
    steps := SendBytes(1);
    assert ByteAt(Reached(0, steps).cs[2], 1);
    steps := ReachedSnoc(steps, Client, Close);
    ghost var k1 := Reached(0, steps);
    assert |k1.cs| == 4 && k1.cs[3].fin && k1.cs[3].seqNum == 2 && ByteAt(k1.cs[2], 1);
    steps := ReachedSnoc(steps, Server, Arrive(3, 0));
    assert Reached(0, steps).s.rcv.pendingFin == 2 && Reached(0, steps).s.state == Established;
    steps := ReachedSnoc(steps, Server, Close);
    ghost var k3 := Reached(0, steps);
    assert k3.s.state == FinWait1 && k3.s.snd.nxt == 102 && k3.cs == k1.cs && k3.s.rcv.nxt == 1 && k3.s.rcv.early == [];
    steps := ReachedSnoc(steps, Server, Arrive(2, 0));
    ghost var k := Reached(0, steps);
    forall more | NoTimeout(more, Server) ensures Stuck(Run(k, more).s) {
      StuckUntilTimeout(k, more, Server);
    }
  }

  /** The client's byte is in flight when the server's FIN arrives. The server gets the byte and acknowledges it, but
      the timer gives up all the same after six firings. */
  lemma GivesUpThoughAcknowledged() returns (steps: seq<(Side, Action)>)
    ensures var k := Reached(0, steps);
            && k.c.state == CloseWait && k.s.rcv.nxt == k.c.snd.lbw == 2
            && (exists g :: g in k.sc && g.hasAck && g.ackNum == 2)
            && forall more :: Timeouts(more, Client) >= 6 ==> Run(k, more).c.state == Closed
  {
    hide Inv, Store, Load, Push, DropAcked, Next, Run;
    steps := SendBytes(1);
    ghost var k0 := Reached(0, steps);
    assert ByteAt(k0.cs[2], 1);
    steps := ReachedSnoc(steps, Server, Close);
    ghost var k1 := Reached(0, steps);
    assert k1.s.state == FinWait1 && k1.s.snd.nxt == 102 && |k1.sc| == 2 && k1.sc[1].fin && k1.sc[1].seqNum == 101;
    QueuedByte(steps);
    steps := ReachedSnoc(steps, Client, Arrive(1, 0));
    ghost var k2 := Reached(0, steps);
    assert k2.c.state == CloseWait && k2.c.snd == k1.c.snd;
    steps := ReachedSnoc(steps, Server, Arrive(2, 0));
    ghost var k := Reached(0, steps);
    assert k.sc[2].hasAck && k.sc[2].ackNum == 2;
    forall more | Timeouts(more, Client) >= 6 ensures Run(k, more).c.state == Closed {
      TimerGivesUp(k, more, Client);
    }
  }

  /** What is sent and not acknowledged is queued. */
  lemma QueuedByte(steps: seq<(Side, Action)>)
    requires var k := Reached(0, steps); k.c.state == Established && k.c.snd.una < k.c.snd.nxt && !PastFin(k.s.state) && Open(k.s.state)
    requires Reached(0, steps).c.snd.first <= Reached(0, steps).c.snd.una
    ensures Reached(0, steps).c.snd.rtx != []
  {
    hide Inv, Run;
    RetransmissionIsFaithful(0, steps, Client, Syn(Reached(0, steps).c.snd));
  }
}
