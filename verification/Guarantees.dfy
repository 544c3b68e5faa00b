/** What every run of a connection guarantees to the two applications. In each
    statement `k` is the state some sequence of steps has led to, `x` is one side
    of it and `y` the other. */
module Guarantees {
  import opened Ring
  import opened TcbModel
  import opened HalfConnection
  import opened Connection
  import opened Runs
  import EndpointModel

  ghost predicate Joined(k: Conn, side: Side) {
    Pair(Me(k, side), Me(k, Peer(side)), SentBy(k, side), SentBy(k, Peer(side)))
  }

  /** A side the application holds is synchronised with its peer. */
  lemma OpenIsJoined(k: Conn, side: Side)
    requires Inv(k) && Open(Me(k, side).state)
    ensures Joined(k, side)
  {
    hide Half;
  }

  lemma JoinedOrEmpty(k: Conn, side: Side)
    requires Inv(k)
    ensures Joined(k, side) || (Me(k, side).rcv.read == [])
  {
    hide Half;
    if !Joined(k, side) {
      assert Opening(k);
    }
  }

  // ---- delivery ------------------------------------------------------------

  /** Everything that has arrived in order, read or not, without the peer's FIN. */
  function Received(r: Rcv): seq<byte>
    requires r.irs < r.lbr <= r.nxt && |r.read| == r.lbr - r.irs - 1 && r.irs < DataEnd(r)
  {
    (r.read + Load(r.buf, r.lbr, r.nxt - r.lbr))[..DataEnd(r) - r.irs - 1]
  }

  lemma LoadPrefix(b: RingBuf, at: nat, n: nat, k: nat)
    requires k <= n
    ensures Load(b, at, n)[..k] == Load(b, at, k)
  {
  }

  lemma TakeOfSum(a: seq<byte>, d: seq<byte>, k: nat)
    requires k <= |a| + |d|
    ensures (a + d)[..k] == if k <= |a| then a[..k] else a + d[..k - |a|]
  {
  }

  lemma RcvStream(s: Snd, r: Rcv)
    requires RcvOk(s, r)
    ensures r.irs + 1 == s.first <= r.lbr <= r.nxt && s.first <= DataEnd(r) <= r.nxt && DataEnd(r) <= s.first + |s.written|
    ensures Holds(r.buf, s.written, s.first, r.lbr, DataEnd(r))
    ensures |r.read| == r.lbr - s.first
    ensures r.lbr <= DataEnd(r) ==> r.read == s.written[..r.lbr - s.first]
    ensures DataEnd(r) < r.lbr ==> r.read[..DataEnd(r) - s.first] == s.written[..DataEnd(r) - s.first]
  {
    hide EarlyOk, Holds;
    assert r.lbr <= DataEnd(r) ==> r.read[..ReadData(s, r)] == r.read;
  }

  lemma ReceivedIsStream(s: Snd, r: Rcv)
    requires RcvOk(s, r)
    ensures Received(r) == s.written[..DataEnd(r) - s.first]
  {
    hide Load, Holds, RcvOk, DataEnd;
    RcvStream(s, r);
    var end := DataEnd(r);
    TakeOfSum(r.read, Load(r.buf, r.lbr, r.nxt - r.lbr), end - s.first);
    if r.lbr <= end {
      HoldsLoad(r.buf, s.written, s.first, r.lbr, end, r.lbr, end - r.lbr);
      LoadPrefix(r.buf, r.lbr, r.nxt - r.lbr, end - r.lbr);
      assert s.written[..end - s.first] == s.written[..r.lbr - s.first] + s.written[r.lbr - s.first..end - s.first];
    }
  }

  lemma ReadIsStream(s: Snd, r: Rcv)
    requires RcvOk(s, r) && r.lbr <= DataEnd(r)
    ensures r.read <= s.written && |r.read| == r.lbr - s.first
  {
    assert r.read[..ReadData(s, r)] == r.read;
  }

  /** The states in which RCV.NXT counts the peer's FIN. */
  predicate PastFin(st: State) {
    st in {Closing, TimeWait}
  }

  /** Where the data that has arrived ends, as a caller can tell from the connection's state. */
  function ArrivedEnd(t: Tcb): int {
    if PastFin(t.state) then t.rcv.nxt - 1 else t.rcv.nxt
  }

  /** While the application holds the connection, its state tells whether RCV.NXT counts the FIN. */
  lemma StateShowsFin(k: Conn, side: Side)
    requires Inv(k) && Open(Me(k, side).state)
    ensures var x := Me(k, side);
            (x.rcv.finCounted <==> PastFin(x.state)) && ArrivedEnd(x) == DataEnd(x.rcv)
  {
    hide Half;
    OpenIsJoined(k, side);
  }

  /** End to end: in every state but CLOSING and TIME_WAIT, and for good in a connection that
      never was in one of them, what a side has read is a prefix of what the peer's application
      has written. */
  lemma BytesReadArePrefix(iss: nat, steps: seq<(Side, Action)>, side: Side)
    ensures var k := Reached(iss, steps);
            var x, y := Me(k, side), Me(k, Peer(side));
            && (x.state !in {Closing, TimeWait, Closed} ==> x.rcv.read <= y.snd.written)
            && (!x.rcv.finCounted ==> x.rcv.read <= y.snd.written)
  {
    hide Inv, RcvOk;
    if Open(Me(Reached(iss, steps), side).state) {
      StateShowsFin(Reached(iss, steps), side);
    }
    var k := Reached(iss, steps);
    var x, y := Me(k, side), Me(k, Peer(side));
    JoinedOrEmpty(k, side);
    if Joined(k, side) && !x.rcv.finCounted {
      RcvBounds(y.snd, x.rcv);
      ReadIsStream(y.snd, x.rcv);
    }
  }

  /** Repeated, lost and reordered segments notwithstanding, all that RCV.NXT has passed, read
      or not, is the beginning of the peer's stream: RCV.NXT never passes a gap. */
  lemma BytesReceivedAreStream(iss: nat, steps: seq<(Side, Action)>, side: Side)
    requires Open(Me(Reached(iss, steps), side).state)
    ensures var k := Reached(iss, steps);
            var x, y := Me(k, side), Me(k, Peer(side));
            && RcvOk(y.snd, x.rcv)
            && Received(x.rcv) == y.snd.written[..DataEnd(x.rcv) - y.snd.first]
  {
    hide Inv, RcvOk, DataOk, AckOk;
    var k := Reached(iss, steps);
    OpenIsJoined(k, side);
    ReceivedIsStream(Me(k, Peer(side)).snd, Me(k, side).rcv);
  }

  /** A call of Read that starts within the data goes past it exactly in CLOSING or TIME_WAIT,
      when it asks for all there seems to be; otherwise what has been read is still a prefix of
      the stream. */
  lemma ReadStaysInTheData(iss: nat, steps: seq<(Side, Action)>, side: Side, n: nat)
    requires var x := Me(Reached(iss, steps), side); Open(x.state) && x.rcv.lbr <= ArrivedEnd(x)
    ensures var k := Reached(iss, steps);
            var x, x' := Me(k, side), Me(Next(k, side, Read(n)), side);
            && (x'.rcv.lbr <= ArrivedEnd(x') <==> !(PastFin(x.state) && x.rcv.nxt - x.rcv.lbr <= n))
            && (x'.rcv.lbr <= ArrivedEnd(x') ==> x'.rcv.read <= Me(k, Peer(side)).snd.written)
  {
    hide Inv, RcvOk, SndOk, CutsOk, QueueOk, CrossOk, DataOk, AckOk;
    var k := Reached(iss, steps);
    OpenIsJoined(k, side);
    StateShowsFin(k, side);
    var x, y := Me(k, side), Me(k, Peer(side));
    RcvBounds(y.snd, x.rcv);
    var m := Min(n, x.rcv.nxt - x.rcv.lbr);
    ReadKeepsRcv(y.snd, x.rcv, m);
    if x.rcv.lbr + m <= DataEnd(x.rcv) {
      ReadIsStream(y.snd, ReadChunk(x.rcv, m));
    }
  }

  lemma RcvBounds(s: Snd, r: Rcv)
    requires RcvOk(s, r)
    ensures s.first <= r.lbr <= r.nxt <= DataEnd(r) + 1 && s.first <= DataEnd(r) <= SentEnd(s) <= s.first + |s.written|
    ensures r.irs + 1 == s.first
    ensures !r.finCounted ==> r.lbr <= DataEnd(r) == r.nxt
  {
  }

  /** In full: at most one byte is read past the data, and with it the bytes read are still a
      prefix of the stream exactly if the FIN was counted before all data had arrived and the
      buffer happened to hold the right byte there. */
  lemma BytesReadAreStreamExactly(iss: nat, steps: seq<(Side, Action)>, side: Side)
    requires Open(Me(Reached(iss, steps), side).state)
    ensures var k := Reached(iss, steps);
            var x, y := Me(k, side), Me(k, Peer(side));
            && x.rcv.lbr <= ArrivedEnd(x) + 1
            && (x.rcv.read <= y.snd.written <==>
                  || x.rcv.lbr <= ArrivedEnd(x)
                  || (&& ArrivedEnd(x) < y.snd.lbw
                      && 0 < |x.rcv.read| <= |y.snd.written|
                      && x.rcv.read[|x.rcv.read| - 1] == y.snd.written[|x.rcv.read| - 1]))
  {
    hide Inv, CutsOk, QueueOk, CrossOk, DataOk, AckOk;
    var k := Reached(iss, steps);
    var x, y := Me(k, side), Me(k, Peer(side));
    OpenIsJoined(k, side);
    StateShowsFin(k, side);
    StreamExactly(y.snd, x.rcv);
  }

  lemma StreamExactly(s: Snd, r: Rcv)
    requires RcvOk(s, r) && s.lbw == s.first + |s.written|
    ensures r.lbr <= DataEnd(r) + 1
    ensures r.read <= s.written <==>
              || r.lbr <= DataEnd(r)
              || (&& DataEnd(r) < s.lbw
                  && 0 < |r.read| <= |s.written|
                  && r.read[|r.read| - 1] == s.written[|r.read| - 1])
  {
    var w := s.written;
    if r.lbr <= DataEnd(r) {
      ReadIsStream(s, r);
    } else {
      var m := ReadData(s, r);
      assert m == |r.read| - 1;
      assert r.read == r.read[..m] + [r.read[m]];
      if m < |w| && r.read[m] == w[m] {
        assert w[..m + 1] == w[..m] + [w[m]];
      }
    }
  }

  /** End of file is not early: in CLOSE_WAIT everything the peer wrote has arrived,
      and once nothing is left to read it has all been read. */
  lemma EofIsSound(iss: nat, steps: seq<(Side, Action)>, side: Side)
    requires Me(Reached(iss, steps), side).state in {CloseWait, LastAck}
    ensures var k := Reached(iss, steps);
            var x, y := Me(k, side), Me(k, Peer(side));
            && y.snd.cancelled
            && x.rcv.nxt == y.snd.lbw
            && |x.rcv.read| + (x.rcv.nxt - x.rcv.lbr) == |y.snd.written|
            && (x.rcv.lbr == x.rcv.nxt ==> x.rcv.read == y.snd.written)
  {
    hide Inv, CutsOk, QueueOk, CrossOk, DataOk, AckOk, RcvOk;
    var k := Reached(iss, steps);
    var x, y := Me(k, side), Me(k, Peer(side));
    OpenIsJoined(k, side);
    RcvBounds(y.snd, x.rcv);
    ReadIsStream(y.snd, x.rcv);
  }

  /** Read answers end of file only when it has handed over everything the peer ever
      wrote, with this call or before. */
  lemma EndOfFileMeansAllRead(iss: nat, steps: seq<(Side, Action)>, side: Side, amount: nat, readAll: bool)
    requires Open(Me(Reached(iss, steps), side).state)
    ensures var k := Reached(iss, steps);
            var x, y := Me(k, side), Me(k, Peer(side));
            && x.rcv.lbr <= x.rcv.nxt
            && (EndpointModel.ReadAnswer(x.state, x.rcv, amount, readAll) == EndpointModel.EndOfFile ==>
                  y.snd.cancelled && ReadChunk(x.rcv, Min(amount, x.rcv.nxt - x.rcv.lbr)).read == y.snd.written)
  {
    hide Inv, CutsOk, QueueOk, CrossOk, DataOk, AckOk, RcvOk;
    var k := Reached(iss, steps);
    var x, y := Me(k, side), Me(k, Peer(side));
    OpenIsJoined(k, side);
    RcvBounds(y.snd, x.rcv);
    if EndpointModel.ReadAnswer(x.state, x.rcv, amount, readAll) == EndpointModel.EndOfFile {
      var m := Min(amount, x.rcv.nxt - x.rcv.lbr);
      ReadKeepsRcv(y.snd, x.rcv, m);
      ReadIsStream(y.snd, ReadChunk(x.rcv, m));
    }
  }

  /** What the methods of a TCB require of their callers holds in every run. */
  lemma CallsAreReady(iss: nat, steps: seq<(Side, Action)>, side: Side)
    requires Open(Me(Reached(iss, steps), side).state)
    ensures var x := Me(Reached(iss, steps), side);
            && x.rcv.lbr <= x.rcv.nxt <= x.rcv.lbr + MAX_BUF_SIZE + 1
            && (!x.snd.cancelled ==> x.snd.una <= x.snd.lbw <= x.snd.una + MAX_BUF_SIZE)
            && (x.snd.rtx != [] ==> x.snd.rtx[0].len <= MAX_BUF_SIZE)
            && (forall g :: g in SentBy(Reached(iss, steps), Peer(side)) ==> CanProcess(x, g))
  {
    hide Inv, CutsOk, CrossOk, DataOk, AckOk, Holds, EarlyOk;
    var k := Reached(iss, steps);
    OpenIsJoined(k, side);
    var x, y := Me(k, side), Me(k, Peer(side));
    var yx := SentBy(k, Peer(side));
    if x.snd.rtx != [] {
      assert RtxOk(x.snd.rtx[0], x.snd, SentBy(k, side));
    }
    forall g | g in yx ensures CanProcess(x, g) {
      var i :| 0 <= i < |yx| && yx[i] == g;
      InvReady(k, side, Arrive(i, 0));
    }
  }

  /** Nothing a segment can do disturbs bytes that have arrived and are not yet read. */
  lemma UnreadBytesAreKept(iss: nat, steps: seq<(Side, Action)>, side: Side, a: Action)
    requires a.Arrive? && Receiving(Me(Reached(iss, steps), side).state)
    ensures var k := Reached(iss, steps);
            var r, r' := Me(k, side).rcv, Me(Next(k, side, a), side).rcv;
            r'.lbr == r.lbr <= r.nxt <= r'.nxt && Load(r'.buf, r.lbr, r.nxt - r.lbr) == Load(r.buf, r.lbr, r.nxt - r.lbr)
  {
    hide Inv, Half, RcvOk, Local, Load;
    var k := Reached(iss, steps);
    var x, y := Me(k, side), Me(k, Peer(side));
    OpenIsJoined(k, side);
    var x' := Me(Next(k, side, a), side);
    PairStep(x, y, SentBy(k, side), SentBy(k, Peer(side)), a);
    ArrivalKeepsPointers(x, a, SentBy(k, Peer(side)));
    HalfRcv(y.snd, x.rcv, SentBy(k, Peer(side)), SentBy(k, side));
    HalfRcv(y.snd, x'.rcv, SentBy(k, Peer(side)), SentBy(k, side) + Local(x, a, SentBy(k, Peer(side))).1);
    SameUnread(y.snd, x.rcv, x'.rcv);
  }

  lemma HalfRcv(s: Snd, r: Rcv, data: seq<Segment>, acks: seq<Segment>)
    requires Half(s, r, data, acks)
    ensures RcvOk(s, r)
  {
  }

  lemma SameUnread(s: Snd, r: Rcv, r': Rcv)
    requires RcvOk(s, r) && RcvOk(s, r') && r'.lbr == r.lbr && r.nxt <= DataEnd(r') && !r.finCounted
    ensures r.lbr <= r.nxt && Load(r'.buf, r.lbr, r.nxt - r.lbr) == Load(r.buf, r.lbr, r.nxt - r.lbr)
  {
    HoldsLoad(r.buf, s.written, s.first, r.lbr, DataEnd(r), r.lbr, r.nxt - r.lbr);
    HoldsLoad(r'.buf, s.written, s.first, r.lbr, DataEnd(r'), r.lbr, r.nxt - r.lbr);
  }

  lemma ArrivalKeepsPointers(t: Tcb, a: Action, incoming: seq<Segment>)
    requires a.Arrive? && Receiving(t.state) && Ready(t, a, incoming) && !t.rcv.finCounted
    ensures var r' := Local(t, a, incoming).0.rcv;
            r'.lbr == t.rcv.lbr && t.rcv.nxt <= DataEnd(r') <= r'.nxt
  {
  }

  // ---- flow control --------------------------------------------------------

  /** The pointers of the two sides are in order in every state before the sender closes. */
  lemma PointersAreOrdered(iss: nat, steps: seq<(Side, Action)>, side: Side)
    requires Open(Me(Reached(iss, steps), side).state) && !Me(Reached(iss, steps), side).snd.cancelled
    ensures var k := Reached(iss, steps);
            var s, r := Me(k, side).snd, Me(k, Peer(side)).rcv;
            && s.una <= r.nxt <= s.nxt + (if s.probing then 1 else 0)
            && s.nxt <= s.lbw <= s.una + MAX_BUF_SIZE
            && r.lbr <= r.nxt <= r.lbr + MAX_BUF_SIZE
            && (!s.probing ==> s.una <= s.nxt <= s.una + s.wnd)
  {
    hide Inv, DataOk, AckOk, QueueOk, Holds, EarlyOk, WindowsGrow;
    OpenIsJoined(Reached(iss, steps), side);
  }

  /** The window a sender believes in lies inside the peer's buffer, after Close too, but for the one
      number of a FIN that is acknowledged or counted; and nothing it has ever sent reaches past
      the buffer, save the one byte of a probe, which the peer would not accept there. */
  lemma WindowIsSafe(iss: nat, steps: seq<(Side, Action)>, side: Side)
    requires Open(Me(Reached(iss, steps), side).state)
    ensures var k := Reached(iss, steps);
            var s, r := Me(k, side).snd, Me(k, Peer(side)).rcv;
            && Edge(s) <= r.lbr + MAX_BUF_SIZE + (if r.finCounted || s.una == s.lbw + 1 then 1 else 0)
            && forall g :: g in SentBy(k, side) && g.payload != [] ==>
                 && (|g.payload| == 1 || g.seqNum + |g.payload| <= r.lbr + MAX_BUF_SIZE)
                 && (!r.finCounted && InWindow(r, g.seqNum) ==> g.seqNum + |g.payload| <= r.lbr + MAX_BUF_SIZE)
  {
    hide Inv, AckOk, QueueOk, Holds, EarlyOk, WindowsGrow;
    var k := Reached(iss, steps);
    OpenIsJoined(k, side);
    forall g | g in SentBy(k, side) && g.payload != []
      ensures DataOk(g, Me(k, side).snd, Me(k, Peer(side)).rcv)
    {
    }
  }

  function Edge(s: Snd): nat {
    s.una + s.wnd
  }

  /** A step moves a side's SND.UNA + SND.WND to the left exactly in two cases, both after it has
      closed: when its FIN is acknowledged after all data was already, and with less window, or
      when a new acknowledgement announces a window of 0 short of the edge, as one of 65536 cut to
      16 bits does. */
  lemma WindowShrinksExactly(iss: nat, steps: seq<(Side, Action)>, actor: Side, a: Action, side: Side)
    requires Open(Me(Reached(iss, steps), side).state)
    ensures var k := Reached(iss, steps);
            var x := Me(k, side);
            Edge(Me(Next(k, actor, a), side).snd) < Edge(x.snd) <==>
              && actor == side && a.Arrive? && a.i < |SentBy(k, Peer(side))|
              && var g := SentBy(k, Peer(side))[a.i];
                 && TakesAck(x, g) && x.snd.cancelled && TakesWindowBack(x.snd, g)
  {
    hide Inv, Half;
    var k := Reached(iss, steps);
    if actor == side {
      OpenIsJoined(k, side);
      PairReady(Me(k, side), Me(k, Peer(side)), SentBy(k, side), SentBy(k, Peer(side)), a);
      LocalEdge(Me(k, side), Me(k, Peer(side)), SentBy(k, side), SentBy(k, Peer(side)), a);
    }
  }

  predicate TakesWindowBack(s: Snd, g: Segment) {
    || (s.una == s.lbw && g.ackNum == s.lbw + 1 && g.wnd + 1 < s.wnd)
    || (s.una < g.ackNum < Edge(s) && g.wnd == 0)
  }

  /** The handler of the state passes the segment's acknowledgement on to Receive. */
  predicate TakesAck(t: Tcb, g: Segment) {
    && g.hasAck
    && match t.state
       case Established => !g.fin
       case FinWait1 => !g.fin || g.ackNum == t.snd.nxt
       case FinWait2 => !g.fin
       case _ => false
  }

  lemma LocalEdge(x: Tcb, y: Tcb, xy: seq<Segment>, yx: seq<Segment>, a: Action)
    requires Pair(x, y, xy, yx) && Ready(x, a, yx) && Open(x.state)
    ensures Edge(Local(x, a, yx).0.snd) < Edge(x.snd) <==>
              a.Arrive? && a.i < |yx| && TakesAck(x, yx[a.i]) && x.snd.cancelled && TakesWindowBack(x.snd, yx[a.i])
  {
    hide Half, OnSegment, Store;
    if a.Arrive? && a.i < |yx| {
      ArrivalEdge(x, yx[a.i], a.newIss);
      if yx[a.i].hasAck {
        AckEdge(x.snd, y.rcv, xy, yx, yx[a.i]);
      }
    }
  }

  /** What a segment does to the edge is what its acknowledgement does, if that is looked at. */
  lemma ArrivalEdge(t: Tcb, g: Segment, newIss: nat)
    requires CanProcess(t, g) && Open(t.state)
    ensures Edge(OnSegment(t, g, newIss).0.snd) == Edge(if TakesAck(t, g) then OnAck(t.snd, g.ackNum, g.wnd) else t.snd)
  {
    hide Accept, OnAck, DropAcked;
  }

  lemma AckEdge(s: Snd, r: Rcv, data: seq<Segment>, acks: seq<Segment>, g: Segment)
    requires Half(s, r, data, acks) && g in acks && g.hasAck
    ensures Edge(OnAck(s, g.ackNum, g.wnd)) < Edge(s) <==> s.cancelled && TakesWindowBack(s, g)
  {
    hide DataOk, RtxOk, RcvOk, Tiles;
    FinNotCounted(s, r);
    assert AckOk(g, s, r);
    if AckIsNew(s, g.ackNum, g.wnd) {
      NewAckMoves(s, r, acks, g);
    }
  }

  /** Until a side closes, no step of either side moves its SND.UNA + SND.WND to the left. */
  lemma WindowNeverShrinks(iss: nat, steps: seq<(Side, Action)>, actor: Side, a: Action, side: Side)
    requires Open(Me(Reached(iss, steps), side).state) && !Me(Reached(iss, steps), side).snd.cancelled
    ensures var k := Reached(iss, steps);
            Edge(Me(k, side).snd) <= Edge(Me(Next(k, actor, a), side).snd)
  {
    hide Inv, Step;
    WindowShrinksExactly(iss, steps, actor, a, side);
  }

  /** The receive window accounts for every byte of the buffer, plus one in CLOSING and
      TIME_WAIT; it fits the 16 bits of a header except there, once Read has taken all there
      seems to be. */
  lemma ReceiveWindowConserved(iss: nat, steps: seq<(Side, Action)>, side: Side)
    requires Open(Me(Reached(iss, steps), side).state)
    ensures var r := Me(Reached(iss, steps), side).rcv;
            var past := PastFin(Me(Reached(iss, steps), side).state);
            && r.wnd + (r.nxt - r.lbr) == MAX_BUF_SIZE + (if past then 1 else 0)
            && (Header(0, 0, false, false, r.wnd).wnd == r.wnd <==> !(past && r.lbr == r.nxt))
  {
    hide Inv, SndOk, CutsOk, QueueOk, CrossOk, DataOk, AckOk;
    OpenIsJoined(Reached(iss, steps), side);
    StateShowsFin(Reached(iss, steps), side);
  }

  /** When the window is closed all that was sent is acknowledged; the only
      acknowledgement that reopens it is of the one probe byte; and when Send leaves
      the probe loop nothing is outstanding. */
  lemma ZeroProbeIsExact(iss: nat, steps: seq<(Side, Action)>, side: Side, g: Segment)
    requires Sending(Me(Reached(iss, steps), side))
    ensures var k := Reached(iss, steps);
            var s := Me(k, side).snd;
            && (s.wnd == 0 ==> s.una == s.nxt && s.rtx == [])
            && (s.wnd == 0 && g in SentBy(k, Peer(side)) && g.hasAck && AckIsNew(s, g.ackNum, g.wnd) ==>
                  s.probing && g.ackNum == s.una + 1 && 0 < g.wnd)
            && (CanEndProbe(s) ==> EndProbe(s).una == EndProbe(s).nxt == s.nxt + 1)
  {
    hide Inv, DataOk, RcvOk, Holds, Tiles;
    var k := Reached(iss, steps);
    OpenIsJoined(k, side);
    var x, y := Me(k, side), Me(k, Peer(side));
    if x.snd.wnd == 0 {
      ClosedWindowQueue(x.snd, SentBy(k, side));
      if g in SentBy(k, Peer(side)) {
        assert AckOk(g, x.snd, y.rcv);
      }
    }
  }

  lemma ClosedWindowQueue(s: Snd, data: seq<Segment>)
    requires SndOk(s) && QueueOk(s, data) && s.una == s.nxt
    ensures s.rtx == []
  {
    if s.rtx != [] {
      TilesBound(s.rtx[1..], Start(s.rtx, Top(s)) + Span(s.rtx[0]), Top(s));
    }
  }

  // ---- retransmission ------------------------------------------------------

  /** While the application at the other end holds the connection, its state tells whether the FIN
      was counted before all data had arrived. */
  lemma StateShowsGap(k: Conn, side: Side)
    requires Inv(k) && Open(Me(k, Peer(side)).state)
    ensures var x, y := Me(k, side), Me(k, Peer(side));
            NoGap(x.snd, y.rcv) <==> !PastFin(y.state) || ArrivedEnd(y) == x.snd.lbw
  {
    hide Inv;
    StateShowsFin(k, Peer(side));
  }

  /** Retransmitting puts a segment on the network that is there already, byte for byte. Unless the peer
      has counted the FIN with data missing, queued segments tile what is sent and not
      acknowledged, and every acknowledgement splits the queue into what is wholly acknowledged,
      which pruning removes, and what is wholly not, which it keeps. */
  lemma RetransmissionIsFaithful(iss: nat, steps: seq<(Side, Action)>, side: Side, g: Segment)
    requires Open(Me(Reached(iss, steps), side).state)
    ensures var k := Reached(iss, steps);
            var x, y := Me(k, side), Me(k, Peer(side));
            var s := x.snd;
            && (s.rtx != [] ==> Retransmitted(s) in SentBy(k, side))
            && (Open(y.state) ==> (NoGap(s, y.rcv) <==> !PastFin(y.state) || ArrivedEnd(y) == s.lbw))
            && (NoGap(s, y.rcv) ==> Tiles(s.rtx, Max(s.una, s.first), Max(s.una, s.nxt)))
            && (NoGap(s, y.rcv) && g in SentBy(k, Peer(side)) && g.hasAck && s.una < g.ackNum ==>
                  forall e :: e in s.rtx ==>
                    if e in DropAcked(s.rtx, g.ackNum) then g.ackNum <= e.hdr.seqNum
                    else e.hdr.seqNum + Span(e) <= g.ackNum)
  {
    hide Inv, DataOk, RcvOk, Holds, CrossOk, NoGap;
    var k := Reached(iss, steps);
    OpenIsJoined(k, side);
    var x, y := Me(k, side), Me(k, Peer(side));
    if Open(y.state) {
      StateShowsGap(k, side);
    }
    if x.snd.rtx != [] {
      RetransmitIsOriginal(x.snd, y.rcv, SentBy(k, side), SentBy(k, Peer(side)));
    }
    if NoGap(x.snd, y.rcv) && g in SentBy(k, Peer(side)) && g.hasAck && x.snd.una < g.ackNum {
      assert AckOk(g, x.snd, y.rcv);
      DropAckedSplits(x.snd.rtx, Max(x.snd.una, x.snd.first), Top(x.snd), g.ackNum, x.snd.cuts);
    }
  }

  lemma {:induction false} DropAckedSplits(q: seq<Rtx>, lo: nat, hi: nat, ack: nat, cuts: set<nat>)
    requires Tiles(q, lo, hi) && lo <= ack && ack in cuts
    requires forall e :: e in q ==> NoCutInside(cuts, e.hdr.seqNum, e.hdr.seqNum + Span(e))
    ensures forall e :: e in q ==>
              if e in DropAcked(q, ack) then ack <= e.hdr.seqNum else e.hdr.seqNum + Span(e) <= ack
  {
    forall e | e in q ensures if e in DropAcked(q, ack) then ack <= e.hdr.seqNum else e.hdr.seqNum + Span(e) <= ack {
      TilesPositive(q, lo, hi, e);
      if q[0].hdr.seqNum < ack {
        DropAckedSplits(q[1..], lo + Span(q[0]), hi, ack, cuts);
        if e == q[0] && e in DropAcked(q[1..], ack) {
          DropAckedSubset(q[1..], ack, e);
        }
      }
    }
  }

  lemma {:induction false} DropAckedSubset(q: seq<Rtx>, ack: nat, e: Rtx)
    requires e in DropAcked(q, ack)
    ensures e in q
  {
    if q != [] && q[0].hdr.seqNum < ack {
      DropAckedSubset(q[1..], ack, e);
    }
  }
}
