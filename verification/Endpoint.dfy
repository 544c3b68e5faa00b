/** The TCB as the code keeps it: an object whose buffers and pointers the handlers
    change in place. Each method is proved to do to the object what the function of
    the same purpose in TcbModel does to its value; Session puts two of these objects
    together and proves that they go through the runs of Runs. A method runs one
    lock-held section: where the code would wait on a condition variable, it returns
    and says so. */
module EndpointModel {
  import opened Ring
  import opened TcbModel
  import opened EarlyQueue
  import Connection

  datatype WriteResult = Written(n: nat) | WriteBlocks(n: nat) | WriteRefused

  datatype ReadResult = ReadBytes(n: nat) | EndOfFile | ReadBlocks(n: nat) | ReadRefused

  /** The state after emitting all that has been planned, and the segments. */
  function EmitAll(s: Snd, r: Rcv): (Snd, seq<Segment>)
    decreases s.burst
  {
    if s.burst == 0 then (s, [])
    else
      var (s1, g) := Emit(s, r);
      var (s2, out) := EmitAll(s1, r);
      (s2, [g] + out)
  }

  function Payloads(out: seq<Segment>): seq<byte> {
    if out == [] then [] else out[0].payload + Payloads(out[1..])
  }

  /** A burst carries, in order and in segments of at most MSS bytes, exactly the
      bytes that were planned. */
  lemma {:induction false} BurstCarriesThePlan(s: Snd, r: Rcv)
    ensures var (s', out) := EmitAll(s, r);
            && s'.nxt == s.nxt + s.burst && s'.burst == 0 && s'.buf == s.buf
            && Payloads(out) == Load(s.buf, s.nxt, s.burst)
            && forall g :: g in out ==> 0 < |g.payload| <= MSS_DATA
    decreases s.burst
  {
    if s.burst != 0 {
      var (s1, g) := Emit(s, r);
      BurstCarriesThePlan(s1, r);
      assert Load(s.buf, s.nxt, s.burst) == g.payload + Load(s.buf, s1.nxt, s1.burst);
      assert ([g] + EmitAll(s1, r).1)[1..] == EmitAll(s1, r).1;
    }
  }

  /** The bytes Receive has copied after `n` rounds of its copying loop. */
  function CopiedAfter(lbr: nat, start: nat, total: nat, n: nat): (c: nat)
    requires lbr <= start <= lbr + MAX_BUF_SIZE
    ensures c <= total && start + c <= lbr + MAX_BUF_SIZE
  {
    if n == 0 then 0
    else
      var c := CopiedAfter(lbr, start, total, n - 1);
      c + Min(MAX_BUF_SIZE - (start + c - lbr), total - c)
  }

  /** Receive's copying loop ends exactly for payload that fits into the buffer;
      otherwise it goes on copying nothing. */
  lemma CopyLoopEndsExactlyIfItFits(lbr: nat, start: nat, total: nat)
    requires lbr <= start <= lbr + MAX_BUF_SIZE
    ensures (exists n: nat :: CopiedAfter(lbr, start, total, n) == total) <==> start + total <= lbr + MAX_BUF_SIZE
  {
    if start + total <= lbr + MAX_BUF_SIZE {
      assert CopiedAfter(lbr, start, total, 1) == total;
    }
  }

  /** The send side of a TCB. */
  class SendHalf {
    const buf: RingBuffer
    var iss: nat
    var una: nat
    var nxt: nat
    var lbw: nat
    var wnd: nat
    var rtx: seq<Rtx>
    var retries: nat
    var burst: nat
    var probing: bool
    var cancelled: bool

    /** The value the fields stand for; it adds only the history. */
    ghost var view: Snd

    ghost predicate Valid()
      reads this, buf, buf.cells
    {
      && buf.Valid() && view.buf == buf.ring
      && view.iss == iss && view.una == una && view.nxt == nxt && view.lbw == lbw && view.wnd == wnd
      && view.rtx == rtx && view.retries == retries && view.burst == burst
      && view.probing == probing && view.cancelled == cancelled
    }

    constructor (newIss: nat)
      ensures Valid() && fresh(buf) && fresh(buf.cells) && view == InitSnd(newIss)
    {
      buf := new RingBuffer();
      iss := newIss;
      nxt := newIss + 1;
      una := newIss;
      lbw := newIss + 1;
      wnd, rtx, retries, burst, probing, cancelled := 0, [], 0, 0, false, false;
      view := InitSnd(newIss);
    }

    /** Write until everything is in the buffer or the buffer is full. */
    method Write(data: seq<byte>) returns (n: nat)
      requires Valid() && una <= lbw <= una + MAX_BUF_SIZE
      modifies this`lbw, this`view, buf, buf.cells
      ensures Valid() && n == Min(Room(old(view)), |data|) && view == WriteChunk(old(view), data[..n])
    {
      hide RingBuffer.Valid, Store;
      n := 0;
      StoreNothing(view.buf, lbw);
      assert data[..0] == [] && view.written + [] == view.written;
      while n < |data|
        invariant n == 0 || n == Min(Room(old(view)), |data|)
        invariant Valid() && view == WriteChunk(old(view), data[..n])
        decreases |data| - n
      {
        if lbw - una == MAX_BUF_SIZE {
          return;
        }
        var remaining := MAX_BUF_SIZE - (lbw - una);
        var toWrite := Min(remaining, |data| - n);
        buf.CopyIn(lbw, data[n..n + toWrite]);
        view := WriteChunk(view, data[n..n + toWrite]);
        lbw := lbw + toWrite;
        n := n + toWrite;
      }
    }

    /** Send decides how much fits the window. */
    method PlanBurst()
      requires Valid() && CanPlan(view)
      modifies this`burst, this`view
      ensures Valid() && view == Plan(old(view))
    {
      var windowEnd := una + wnd;
      view := Plan(view);
      burst := Min(windowEnd - nxt, lbw - nxt);
    }

    /** One segment of the burst. */
    method EmitOne(ack: nat, window: nat, ghost r: Rcv) returns (g: Segment)
      requires Valid() && 0 < burst && r.nxt == ack && r.wnd == window
      modifies this`burst, this`rtx, this`nxt, this`view
      ensures Valid() && (view, g) == Emit(old(view), r) && burst < old(burst)
    {
      hide RingBuffer.Valid, Header;
      var len := Min(burst, MSS_DATA);
      var payload := buf.CopyOut(nxt, len);
      var hdr := Header(nxt, ack, false, false, window);
      view := Emit(view, r).0;
      rtx := rtx + [Rtx(hdr, |payload|)];
      g := hdr.(payload := payload);
      nxt := nxt + len;
      burst := burst - len;
    }

    method StartProbe()
      requires Valid() && CanBeginProbe(view)
      modifies this`probing, this`view
      ensures Valid() && view == BeginProbe(old(view))
    {
      view := BeginProbe(view);
      probing := true;
    }

    /** A tick of the probe timer. */
    method ProbeTick(ack: nat, window: nat, ghost r: Rcv) returns (g: Segment)
      requires Valid() && r.nxt == ack && r.wnd == window
      ensures g == Probe(view, r)
    {
      var payload := buf.CopyOut(nxt, 1);
      g := Header(nxt, ack, false, false, window).(payload := payload);
    }

    method StopProbe()
      requires Valid() && CanEndProbe(view)
      modifies this`nxt, this`probing, this`view
      ensures Valid() && view == EndProbe(old(view))
    {
      view := EndProbe(view);
      nxt := nxt + 1;
      probing := false;
    }

    /** The retransmission branch of the timer: the head of the queue once more, its
        payload copied out of the buffer again. */
    method Retransmit() returns (g: Segment)
      requires Valid() && rtx != [] && rtx[0].len <= MAX_BUF_SIZE
      modifies this`retries, this`view
      ensures Valid() && view == old(view).(retries := old(retries) + 1)
      ensures g == Retransmitted(old(view))
    {
      var head := rtx[0];
      var payload := buf.CopyOut(head.hdr.seqNum, head.len);
      view := view.(retries := retries + 1);
      retries := retries + 1;
      g := head.hdr.(payload := payload);
    }

    method CountRetry()
      requires Valid()
      modifies this`retries, this`view
      ensures Valid() && view == old(view).(retries := old(retries) + 1)
    {
      view := view.(retries := retries + 1);
      retries := retries + 1;
    }

    method RemoveFromRetransmissionQueue(ack: nat)
      requires Valid()
      modifies this`rtx, this`retries, this`view
      ensures Valid() && view == Prune(old(view), ack)
    {
      hide RingBuffer.Valid;
      var i := 0;
      while i < |rtx| && rtx[i].hdr.seqNum < ack
        invariant i <= |rtx|
        invariant DropAcked(rtx, ack) == DropAcked(rtx[i..], ack)
      {
        assert rtx[i..][1..] == rtx[i + 1..];
        i := i + 1;
      }
      assert DropAcked(rtx[i..], ack) == rtx[i..];
      view := Prune(view, ack);
      if 0 < i {
        rtx := rtx[i..];
        retries := 0;
      }
    }

    /** Receive's treatment of an acknowledgement and a window. */
    method OnAcknowledgement(ack: nat, window: nat)
      requires Valid()
      modifies this`una, this`wnd, this`rtx, this`retries, this`view
      ensures Valid() && view == OnAck(old(view), ack, window)
    {
      hide RingBuffer.Valid, DropAcked;
      if window == 0 {
        if ack <= una || ack > nxt {
          return;
        }
      } else if ack <= una || (ack > una + wnd && wnd != 0) {
        return;
      }
      RemoveFromRetransmissionQueue(ack);
      view := view.(wnd := window, una := ack);
      wnd := window;
      una := ack;
    }

    /** The handshake opens the window; the active opener also learns that its SYN is
        acknowledged, and draws a number it never uses. */
    method Open(window: nat, ack: nat, newIss: nat, count: nat)
      requires Valid()
      modifies this`wnd, this`una, this`iss, this`retries, this`view
      ensures Valid() && view == old(view).(wnd := window, una := ack, iss := newIss, retries := count)
    {
      view := view.(wnd := window, una := ack, iss := newIss, retries := count);
      wnd := window;
      una := ack;
      iss := newIss;
      retries := count;
    }

    /** Close's part: the FIN is numbered and queued. */
    method SendFin(ack: nat, window: nat) returns (fin: Segment)
      requires Valid()
      modifies this`nxt, this`rtx, this`cancelled, this`view
      ensures Valid() && (view, fin) == TcbModel.SendFin(old(view), ack, window)
    {
      hide RingBuffer.Valid, Header;
      fin := Header(nxt, ack, false, true, window);
      view := TcbModel.SendFin(view, ack, window).0;
      cancelled := true;
      nxt := nxt + 1;
      rtx := rtx + [Rtx(fin, 0)];
    }
  }

  /** The receive side of a TCB. */
  class ReceiveHalf {
    const buf: RingBuffer
    var nxt: nat
    var wnd: nat
    var irs: nat
    var lbr: nat
    const queue: EarlyArrivalQueue
    var pendingFin: nat

    ghost var view: Rcv

    ghost predicate Valid()
      reads this, buf, buf.cells, queue
    {
      && buf.Valid() && view.buf == buf.ring
      && view.nxt == nxt && view.wnd == wnd && view.irs == irs && view.lbr == lbr
      && view.early == queue.entries && view.pendingFin == pendingFin
    }

    /** Before the peer is heard of. */
    constructor Blank()
      ensures Valid() && fresh(buf) && fresh(buf.cells) && fresh(queue)
      ensures view == BlankRcv()
    {
      buf := new RingBuffer();
      queue := new EarlyArrivalQueue();
      nxt, lbr, irs, pendingFin := 0, 0, 0, 0;
      wnd := MAX_BUF_SIZE;
      view := BlankRcv();
    }

    /** For a SYN with sequence number `seqNum`. */
    constructor ForSyn(seqNum: nat)
      ensures Valid() && fresh(buf) && fresh(buf.cells) && fresh(queue) && view == InitRcv(seqNum)
    {
      buf := new RingBuffer();
      queue := new EarlyArrivalQueue();
      nxt := seqNum + 1;
      lbr := seqNum + 1;
      irs := seqNum;
      wnd := MAX_BUF_SIZE;
      pendingFin := 0;
      view := InitRcv(seqNum);
    }

    /** The peer's SYN tells where its stream starts. */
    method Synchronise(seqNum: nat)
      requires Valid()
      modifies this`nxt, this`lbr, this`irs, this`view
      ensures Valid() && view == old(view).(nxt := seqNum + 1, lbr := seqNum + 1, irs := seqNum)
    {
      view := view.(nxt := seqNum + 1, lbr := seqNum + 1, irs := seqNum);
      nxt := seqNum + 1;
      lbr := nxt;
      irs := seqNum;
    }

    method RememberFin(seqNum: nat)
      requires Valid()
      modifies this`pendingFin, this`view
      ensures Valid() && view == old(view).(pendingFin := seqNum)
    {
      view := view.(pendingFin := seqNum);
      pendingFin := seqNum;
    }

    /** An active closer moves RCV.NXT past the peer's FIN. */
    method CountFin()
      requires Valid()
      modifies this`nxt, this`view
      ensures Valid() && view == TcbModel.CountFin(old(view))
    {
      view := TcbModel.CountFin(view);
      nxt := nxt + 1;
    }

    /** One round of Read: copy out and free the space. */
    method ReadOut(data: array<byte>, off: nat, n: nat)
      requires Valid() && off + n <= data.Length && data != buf.cells
      requires n <= MAX_BUF_SIZE + 1 && lbr + n <= nxt
      modifies this`lbr, this`wnd, this`view, data
      ensures Valid() && view == ReadChunk(old(view), n)
      ensures data[..] == old(data[..])[..off] + Load(view.buf, old(lbr), n) + old(data[..])[off + n..]
    {
      buf.CopyToUser(lbr, n, data, off);
      view := ReadChunk(view, n);
      lbr := lbr + n;
      wnd := wnd + n;
    }

    /** The rounds of Read, until enough is read or nothing is left. */
    method ReadAvailable(data: array<byte>, amount: nat) returns (n: nat)
      requires Valid() && amount <= data.Length && data != buf.cells
      requires lbr <= nxt <= lbr + MAX_BUF_SIZE + 1
      modifies this`lbr, this`wnd, this`view, data
      ensures Valid() && n == Min(amount, old(nxt - lbr)) && view == ReadChunk(old(view), n)
      ensures data[..] == Load(old(view).buf, old(lbr), n) + old(data[..])[n..]
    {
      hide RingBuffer.Valid, Load;
      ghost var r, was := view, data[..];
      ReadNothing(r, was);
      n := 0;
      while n < amount && lbr != nxt
        invariant n == 0 || n == Min(amount, r.nxt - r.lbr)
        invariant Valid() && view == ReadChunk(r, n)
        invariant data[..] == Load(r.buf, r.lbr, n) + was[n..]
        decreases amount - n
      {
        var toRead := Min(amount - n, nxt - lbr);
        assert n == 0 && view == r && data[..] == was;
        ReadOut(data, n, toRead);
        ReadFirst(was, Load(r.buf, r.lbr, toRead));
        n := n + toRead;
      }
    }

    /** Read in connection state `st`. A blocking read that meets the end of the stream
        reports end of file without the count of what it has copied. */
    method Read(st: State, data: array<byte>, amount: nat, readAll: bool) returns (res: ReadResult)
      requires Valid() && amount <= data.Length && data != buf.cells
      requires lbr <= nxt <= lbr + MAX_BUF_SIZE + 1
      modifies this`lbr, this`wnd, this`view, data
      ensures Valid()
      ensures var r := old(view);
              var m := Min(amount, r.nxt - r.lbr);
              && view == ReadChunk(r, m)
              && data[..] == Load(r.buf, r.lbr, m) + old(data[..])[m..]
              && res == ReadAnswer(st, r, amount, readAll)
    {
      hide RingBuffer.Valid, Load;
      var atEnd := st == CloseWait && lbr == nxt;
      var n := ReadAvailable(data, amount);
      if atEnd {
        res := EndOfFile;
      } else if n == amount || (!readAll && n > 0) {
        res := ReadBytes(n);
      } else if st == CloseWait {
        res := EndOfFile;
      } else {
        res := ReadBlocks(n);
      }
    }

    /** updateAckNum */
    method UpdateAckNum(nextAck: nat) returns (n: nat)
      modifies queue
      ensures (queue.entries, n) == Coalesce(old(queue.entries), nextAck)
    {
      n := nextAck;
      while !queue.IsEmpty() && n == queue.Peek().seqNum
        invariant Coalesce(queue.entries, n) == Coalesce(old(queue.entries), nextAck)
        decreases |queue.entries|
      {
        ghost var before := queue.entries;
        var e := queue.Pop();
        assert before[1..] == queue.entries;
        n := e.seqNum + e.len;
      }
    }

    /** Receive's copying loop, for payload that fits. */
    method CopyPayload(seqNum: nat, payload: seq<byte>, early: bool)
      requires buf.Valid() && lbr <= seqNum && seqNum + |payload| <= lbr + MAX_BUF_SIZE
      requires early || |payload| <= wnd
      modifies this`nxt, this`wnd, buf, buf.cells
      ensures buf.Valid() && buf.ring == Store(old(buf.ring), seqNum, payload)
      ensures if early then nxt == old(nxt) && wnd == old(wnd)
              else nxt == old(nxt) + |payload| && wnd + |payload| == old(wnd)
    {
      var start := seqNum;
      var copied := 0;
      StoreNothing(buf.ring, seqNum);
      assert payload[..|payload|] == payload;
      while copied < |payload|
        invariant copied == 0 || copied == |payload|
        invariant start == seqNum + copied
        invariant buf.Valid() && buf.ring == Store(old(buf.ring), seqNum, payload[..copied])
        invariant if early then nxt == old(nxt) && wnd == old(wnd)
                  else nxt == old(nxt) + copied && wnd + copied == old(wnd)
        decreases |payload| - copied
      {
        var remaining := MAX_BUF_SIZE - (start - lbr);
        var toCopy := Min(remaining, |payload| - copied);
        buf.CopyIn(start, payload[copied..copied + toCopy]);
        copied := copied + toCopy;
        if !early {
          nxt := nxt + toCopy;
          wnd := wnd - toCopy;
        }
        start := start + toCopy;
      }
    }

    /** Payload inside the window: copy it, then move RCV.NXT or queue it. */
    method AcceptPayload(seqNum: nat, payload: seq<byte>)
      requires Valid() && CanAccept(view, seqNum, payload)
      modifies this`nxt, this`wnd, this`view, buf, buf.cells, queue
      ensures Valid() && view == Accept(old(view), seqNum, payload)
    {
      hide RingBuffer.Valid, Store;
      view := Accept(view, seqNum, payload);
      var early := seqNum > nxt;
      CopyPayload(seqNum, payload, early);
      if !early {
        var previous := nxt;
        nxt := UpdateAckNum(nxt);
        wnd := wnd - (nxt - previous);
      } else {
        queue.Push(Early(seqNum, |payload|));
      }
    }
  }

  /** A TCB, with the segments it has handed to the IP layer. */
  class Endpoint {
    var state: State
    const snd: SendHalf
    const rcv: ReceiveHalf
    var sent: seq<Segment>

    ghost predicate Valid()
      reads Parts()
    {
      && snd.Valid() && rcv.Valid()
      && snd.buf != rcv.buf && snd.buf.cells != rcv.buf.cells
    }

    ghost function View(): Tcb
      reads Parts()
    {
      Tcb(state, snd.view, rcv.view)
    }

    function Status(): (st: State)
      reads Parts()
      ensures st == View().state
    {
      state
    }

    /** The FIN has been sent. */
    predicate HasClosed()
      requires Valid()
      reads Parts()
      ensures HasClosed() == View().snd.cancelled
    {
      snd.cancelled
    }

    /** What is left of a burst. */
    function BurstLeft(): (n: nat)
      requires Valid()
      reads Parts()
      ensures n == View().snd.burst
    {
      snd.burst
    }

    /** Everything a handler may change. */
    ghost function Parts(): set<object> {
      {this, snd, snd.buf, snd.buf.cells, rcv, rcv.buf, rcv.buf.cells, rcv.queue}
    }

    lemma PartsAllocated()
      ensures this in Parts() && forall o :: o in Parts() ==> allocated(o)
    {
    }

    /** Connect: the SYN is on its way. */
    constructor Connect(newIss: nat)
      ensures Valid() && fresh(Parts())
      ensures View() == Tcb(SynSent, InitSnd(newIss), BlankRcv())
      ensures sent == [Syn(View().snd)]
    {
      state := SynSent;
      snd := new SendHalf(newIss);
      rcv := new ReceiveHalf.Blank();
      sent := [SynFor(newIss)];
    }

    /** A listener, which has no connection yet. */
    constructor Listen()
      ensures Valid() && fresh(Parts())
      ensures View() == Tcb(TcbModel.Listen, InitSnd(0), BlankRcv()) && sent == []
    {
      state := TcbModel.Listen;
      snd := new SendHalf(0);
      rcv := new ReceiveHalf.Blank();
      sent := [];
    }

    /** A connection for a SYN that reached a listener. */
    constructor Spawn(g: Segment, newIss: nat)
      requires g.syn && !g.hasAck
      ensures Valid() && fresh(Parts())
      ensures forall t: Tcb :: (View(), sent) == HandleListen(t, g, newIss)
    {
      state := SynReceived;
      snd := new SendHalf(newIss);
      rcv := new ReceiveHalf.ForSyn(g.seqNum);
      sent := [Header(newIss, g.seqNum + 1, true, false, MAX_BUF_SIZE)];
    }

    method SendAck(ack: nat)
      requires Valid()
      modifies this`sent
      ensures Valid() && sent == old(sent) + [PlainAck(View(), ack)]
    {
      sent := sent + [Header(snd.nxt, ack, false, false, rcv.wnd)];
    }

    method Write(data: seq<byte>, writeCancelled: bool, timedOut: bool) returns (res: WriteResult)
      requires Valid() && View().snd.una <= View().snd.lbw <= View().snd.una + MAX_BUF_SIZE
      modifies Parts()
      ensures Valid() && sent == old(sent)
      ensures var t := old(View());
              var n := Min(Room(t.snd), |data|);
              if writeCancelled || timedOut || (data != [] && t.state !in {Established, CloseWait}) then
                res == WriteRefused && View() == t
              else
                && res == (if n == |data| then Written(n) else WriteBlocks(n))
                && View() == t.(snd := WriteChunk(t.snd, data[..n]))
    {
      hide RingBuffer.Valid, Store;
      if writeCancelled || timedOut || (|data| > 0 && state != Established && state != CloseWait) {
        return WriteRefused;
      }
      var n := snd.Write(data);
      return if n == |data| then Written(n) else WriteBlocks(n);
    }

    /** The caller provides a slice of at least `amount` bytes. */
    method Read(data: array<byte>, amount: nat, readAll: bool, readCancelled: bool, timedOut: bool) returns (res: ReadResult)
      requires Valid() && amount <= data.Length && data !in Parts()
      requires View().rcv.lbr <= View().rcv.nxt <= View().rcv.lbr + MAX_BUF_SIZE + 1
      modifies Parts(), data
      ensures Valid() && sent == old(sent)
      ensures var t := old(View());
              var m := Min(amount, t.rcv.nxt - t.rcv.lbr);
              if readCancelled || timedOut then
                res == ReadRefused && View() == t && data[..] == old(data[..])
              else
                && res == ReadAnswer(t.state, t.rcv, amount, readAll)
                && View() == t.(rcv := ReadChunk(t.rcv, m))
                && data[..] == Load(t.rcv.buf, t.rcv.lbr, m) + old(data[..])[m..]
    {
      hide RingBuffer.Valid, Load;
      if readCancelled || timedOut {
        return ReadRefused;
      }
      res := rcv.Read(state, data, amount, readAll);
    }

    /** The retransmission timer fires: send again, or give up. */
    method Timeout()
      requires Valid() && (View().snd.rtx != [] ==> View().snd.rtx[0].len <= MAX_BUF_SIZE)
      modifies Parts()
      ensures Valid() && View() == OnTimeout(old(View())).0 && sent == old(sent) + OnTimeout(old(View())).1
    {
      hide RingBuffer.Valid, Header, Retransmitted;
      if state == SynSent || state == SynReceived {
        if snd.retries == MAX_RETRANSMISSIONS {
          state := Closed;
        } else {
          sent := sent + [if state == SynSent then SynFor(snd.iss)
                          else Header(snd.iss, rcv.nxt, true, false, rcv.wnd)];
          snd.CountRetry();
        }
      } else if state != TimeWait && state != Closed && state != TcbModel.Listen && |snd.rtx| > 0 {
        if snd.retries == MAX_RETRANSMISSIONS {
          state := Closed;
        } else {
          var g := snd.Retransmit();
          sent := sent + [g];
        }
      }
    }

    /** Close, when everything written has been sent; otherwise it waits. */
    method Close() returns (done: bool)
      requires Valid()
      modifies Parts()
      ensures Valid() && done == (old(View()).snd.nxt == old(View()).snd.lbw)
      ensures if done then View() == CloseConn(old(View())).0 && sent == old(sent) + [CloseConn(old(View())).1]
              else View() == old(View()) && sent == old(sent)
    {
      hide RingBuffer.Valid, TcbModel.SendFin;
      done := snd.nxt == snd.lbw;
      if done {
        var ack := if state == CloseWait then rcv.nxt + 1 else rcv.nxt;
        var fin := snd.SendFin(ack, rcv.wnd);
        sent := sent + [fin];
        state := if state == CloseWait then LastAck else FinWait1;
      }
    }

    // ---- the Send goroutine and the timers -----------------------------------

    /** The goroutine runs until the connection is closed. */
    predicate Sending()
      reads Parts()
      ensures Valid() ==> Sending() == Connection.Sending(View())
    {
      (state == Established || state == CloseWait) && !snd.cancelled
    }

    /** The guard of the sending loop, and the decision how much to send. */
    method PlanSend()
      requires Valid()
      modifies Parts()
      ensures Valid() && (View(), []) == Connection.Local(old(View()), Connection.PlanSend, []) && sent == old(sent)
    {
      hide RingBuffer.Valid;
      if Sending() && !snd.probing && snd.burst == 0 && snd.una <= snd.nxt && snd.nxt - snd.una < snd.wnd && snd.nxt < snd.lbw {
        snd.PlanBurst();
      }
    }

    /** One segment of what was decided. */
    method SendOne()
      requires Valid()
      modifies Parts()
      ensures Valid() && View() == Connection.Local(old(View()), Connection.SendOne, []).0
      ensures sent == old(sent) + Connection.Local(old(View()), Connection.SendOne, []).1
    {
      hide RingBuffer.Valid, Emit;
      if Sending() && 0 < snd.burst {
        var g := snd.EmitOne(rcv.nxt, rcv.wnd, rcv.view);
        sent := sent + [g];
      }
    }

    /** The window is closed and there is data: start the probe. */
    method StartProbe()
      requires Valid()
      modifies Parts()
      ensures Valid() && (View(), []) == Connection.Local(old(View()), Connection.StartProbe, []) && sent == old(sent)
    {
      hide RingBuffer.Valid;
      if Sending() && !snd.probing && snd.burst == 0 && snd.wnd == 0 && snd.nxt < snd.lbw {
        snd.StartProbe();
      }
    }

    /** The probe's timer ticks. */
    method SendProbe()
      requires Valid()
      modifies Parts()
      ensures Valid() && View() == Connection.Local(old(View()), Connection.SendProbe, []).0
      ensures sent == old(sent) + Connection.Local(old(View()), Connection.SendProbe, []).1
    {
      hide RingBuffer.Valid, Probe;
      if Sending() && snd.probing {
        var g := snd.ProbeTick(rcv.nxt, rcv.wnd, rcv.view);
        sent := sent + [g];
      }
    }

    /** The window has reopened. */
    method StopProbe()
      requires Valid()
      modifies Parts()
      ensures Valid() && (View(), []) == Connection.Local(old(View()), Connection.StopProbe, []) && sent == old(sent)
    {
      hide RingBuffer.Valid;
      if Sending() && snd.probing && snd.wnd != 0 {
        snd.StopProbe();
      }
    }

    /** WaitForClosed's timer fires. */
    method TimeWaitOver()
      requires Valid()
      modifies Parts()
      ensures Valid() && (View(), []) == Connection.Local(old(View()), Connection.TimeWaitOver, []) && sent == old(sent)
    {
      if state == TimeWait {
        state := Closed;
      }
    }

    // ---- arriving segments -------------------------------------------------

    method ReceiveData(g: Segment)
      requires Valid() && (InWindow(rcv.view, g.seqNum) && g.payload != [] ==> CanAccept(rcv.view, g.seqNum, g.payload))
      modifies this, rcv, rcv.buf, rcv.buf.cells, rcv.queue
      ensures Valid() && View() == TcbModel.ReceiveData(old(View()), g).0
      ensures sent == old(sent) + TcbModel.ReceiveData(old(View()), g).1
    {
      hide RingBuffer.Valid, Accept, Header;
      if |g.payload| > 0 {
        if g.seqNum < rcv.nxt || g.seqNum >= rcv.nxt + rcv.wnd {
          SendAck(rcv.nxt);
        } else {
          rcv.AcceptPayload(g.seqNum, g.payload);
          if rcv.nxt == rcv.pendingFin {
            state := CloseWait;
            SendAck(rcv.nxt + 1);
          } else {
            SendAck(rcv.nxt);
          }
        }
      }
    }

    method Receive(g: Segment)
      requires Valid() && (g.hasAck && InWindow(rcv.view, g.seqNum) && g.payload != [] ==> CanAccept(rcv.view, g.seqNum, g.payload))
      modifies Parts()
      ensures Valid() && View() == TcbModel.Receive(old(View()), g).0
      ensures sent == old(sent) + TcbModel.Receive(old(View()), g).1
    {
      hide RingBuffer.Valid, OnAck, TcbModel.ReceiveData;
      if g.hasAck {
        ReceiveData(g);
        snd.OnAcknowledgement(g.ackNum, g.wnd);
      }
    }

    method ReceiveFin(g: Segment)
      requires Valid()
      modifies this, rcv
      ensures Valid() && View() == TcbModel.ReceiveFin(old(View()), g).0
      ensures sent == old(sent) + TcbModel.ReceiveFin(old(View()), g).1
    {
      hide RingBuffer.Valid, Header;
      var ack := 0;
      if g.seqNum == rcv.nxt {
        state := CloseWait;
        ack := rcv.nxt + 1;
      } else if g.seqNum > rcv.nxt {
        rcv.RememberFin(g.seqNum);
        ack := rcv.nxt;
      }
      SendAck(ack);
    }

    method HandleStateSynSent(g: Segment, newIss: nat)
      requires Valid()
      modifies this, snd, rcv
      ensures Valid() && View() == HandleSynSent(old(View()), g, newIss).0
      ensures sent == old(sent) + HandleSynSent(old(View()), g, newIss).1
    {
      hide RingBuffer.Valid, Header;
      if g.hasAck && (g.ackNum <= snd.iss || g.ackNum > snd.nxt) {
        return;
      }
      if g.syn {
        rcv.Synchronise(g.seqNum);
        if g.ackNum > snd.iss {
          snd.Open(g.wnd, g.ackNum, newIss, 0);
          state := Established;
          sent := sent + [Header(snd.nxt, rcv.nxt, false, false, MAX_BUF_SIZE)];
        } else {
          snd.Open(g.wnd, g.ackNum, newIss, snd.retries);
          state := SynReceived;
        }
      }
    }

    method HandleStateSynReceived(g: Segment)
      requires Valid()
      modifies this, snd
      ensures Valid() && View() == HandleSynReceived(old(View()), g).0
      ensures sent == old(sent) + HandleSynReceived(old(View()), g).1
    {
      hide RingBuffer.Valid, Header;
      if |g.payload| > 0 {
        return;
      }
      if g.syn {
        sent := sent + [Header(snd.iss, rcv.nxt, true, false, rcv.wnd)];
      }
      if g.hasAck && snd.una < g.ackNum && g.ackNum <= snd.nxt {
        state := Established;
        snd.Open(g.wnd, snd.una, snd.iss, 0);
      }
    }

    method HandleFinWait1(g: Segment)
      requires Valid() && state == FinWait1 && CanProcess(View(), g)
      modifies Parts()
      ensures Valid() && View() == TcbModel.HandleFinWait1(old(View()), g).0
      ensures sent == old(sent) + TcbModel.HandleFinWait1(old(View()), g).1
    {
      hide RingBuffer.Valid, Header, TcbModel.Receive;
      if !g.hasAck {
        return;
      }
      if g.ackNum == snd.nxt {
        state := FinWait2;
        Receive(g);
      } else if g.fin {
        state := if g.ackNum + 1 == snd.nxt then Closing else TimeWait;
        rcv.CountFin();
        SendAck(rcv.nxt);
      } else {
        Receive(g);
      }
    }

    method HandleFinWait2(g: Segment)
      requires Valid() && state == FinWait2 && CanProcess(View(), g)
      modifies Parts()
      ensures Valid() && View() == TcbModel.HandleFinWait2(old(View()), g).0
      ensures sent == old(sent) + TcbModel.HandleFinWait2(old(View()), g).1
    {
      hide RingBuffer.Valid, Header, TcbModel.Receive;
      if g.fin {
        if g.seqNum != rcv.nxt {
          return;
        }
        state := TimeWait;
        rcv.CountFin();
        SendAck(rcv.nxt);
      } else {
        Receive(g);
      }
    }

    method HandleLastAck(g: Segment)
      requires Valid() && state == LastAck
      modifies this, snd
      ensures Valid() && View() == OnSegment(old(View()), g, 0).0 && sent == old(sent)
    {
      hide RingBuffer.Valid, Prune;
      if g.hasAck && g.ackNum == snd.nxt {
        state := Closed;
        snd.RemoveFromRetransmissionQueue(g.ackNum);
      }
    }

    /** ReceivePacket: dispatch on the state. A listener is served by `Spawn`. */
    method ReceivePacket(g: Segment, newIss: nat)
      requires Valid() && View().state != TcbModel.Listen && CanProcess(View(), g)
      modifies Parts()
      ensures Valid() && View() == OnSegment(old(View()), g, newIss).0
      ensures sent == old(sent) + OnSegment(old(View()), g, newIss).1
    {
      hide RingBuffer.Valid, SendHalf.Valid, ReceiveHalf.Valid, Header, TcbModel.Receive, Prune;
      match state
      case Closed =>
      case SynSent => HandleStateSynSent(g, newIss);
      case SynReceived => HandleStateSynReceived(g);
      case Established =>
        if g.fin { ReceiveFin(g); } else { Receive(g); }
      case FinWait1 => HandleFinWait1(g);
      case FinWait2 => HandleFinWait2(g);
      case Closing => HandleClosing(g);
      case TimeWait => AnswerFin(g);
      case CloseWait => AnswerFin(g);
      case LastAck => HandleLastAck(g);
    }

    method HandleClosing(g: Segment)
      requires Valid() && state == Closing
      modifies this`state
      ensures Valid() && View() == OnSegment(old(View()), g, 0).0
    {
      if g.hasAck && g.ackNum == snd.nxt {
        state := TimeWait;
      }
    }

    /** TIME_WAIT and CLOSE_WAIT only answer a repeated FIN. */
    method AnswerFin(g: Segment)
      requires Valid()
      modifies this`sent
      ensures Valid() && sent == old(sent) + if g.fin then [PlainAck(View(), View().rcv.nxt)] else []
    {
      if g.fin {
        SendAck(rcv.nxt);
      }
    }
  }

  /** What Read answers, from what it found. */
  function ReadAnswer(st: State, r: Rcv, amount: nat, readAll: bool): ReadResult
    requires r.lbr <= r.nxt
  {
    var m := Min(amount, r.nxt - r.lbr);
    if st == CloseWait && r.lbr == r.nxt then EndOfFile
    else if m == amount || (!readAll && 0 < m) then ReadBytes(m)
    else if st == CloseWait then EndOfFile
    else ReadBlocks(m)
  }

  /** When each answer is given: end of file in CLOSE_WAIT, when nothing is left or a blocking read wants more
      than is left; blocking in any other state, when a blocking read wants more or nothing is there;
      and otherwise the number of bytes handed over. */
  lemma ReadAnswerExactly(st: State, r: Rcv, amount: nat, readAll: bool)
    requires r.lbr <= r.nxt
    ensures var res, there := ReadAnswer(st, r, amount, readAll), r.nxt - r.lbr;
            && !res.ReadRefused?
            && (res.EndOfFile? <==> st == CloseWait && (there == 0 || (readAll && there < amount)))
            && (res.ReadBlocks? <==> st != CloseWait && there < amount && (readAll || there == 0))
            && (res.ReadBytes? || res.ReadBlocks? ==> res.n == Min(amount, there))
  {
  }

  lemma ReadNothing(r: Rcv, data: seq<byte>)
    requires r.lbr <= r.nxt
    ensures ReadChunk(r, 0) == r && Load(r.buf, r.lbr, 0) + data == data
  {
    assert r.read + Load(r.buf, r.lbr, 0) == r.read;
  }

  lemma ReadFirst(was: seq<byte>, d: seq<byte>)
    requires |d| <= |was|
    ensures was[..0] + d + was[0 + |d|..] == d + was[|d|..]
  {
  }

  lemma StoreNothing(b: RingBuf, at: nat)
    ensures Store(b, at, []) == b
  {
  }
}
