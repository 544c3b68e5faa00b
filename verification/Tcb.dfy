/** The transmission control block as a value, and what each lock-held section of
    the TCP handler does to it. Sequence numbers are naturals: the code compares
    them with plain `<`, so it assumes they do not wrap. */
module TcbModel {
  import opened Ring

  const MSS_DATA: nat := 1360
  const MAX_RETRANSMISSIONS: nat := 5

  datatype State =
    | Closed | Listen | SynSent | SynReceived | Established
    | FinWait1 | FinWait2 | Closing | TimeWait | CloseWait | LastAck

  datatype Segment = Segment(seqNum: nat, ackNum: nat, wnd: nat, syn: bool, hasAck: bool, fin: bool, payload: seq<byte>)

  /** CreateTCPHeader: the window is narrowed to 16 bits. */
  function Header(seqNum: nat, ackNum: nat, syn: bool, fin: bool, wnd: nat): Segment {
    Segment(seqNum, ackNum, wnd % 65536, syn, true, fin, [])
  }

  /** A segment kept for retransmission: its header as first sent, and its payload length. */
  datatype Rtx = Rtx(hdr: Segment, len: nat)

  /** An interval received ahead of RCV.NXT. */
  datatype Early = Early(seqNum: nat, len: nat)

  /** The send half. `burst` is what is left of the amount the Send goroutine has
      decided to send, `probing` says that its zero-probe goroutine runs, and
      `cancelled` that Close has sent the FIN. The last three fields are history:
      the sequence number of the first data byte, every byte Write has accepted,
      and the sequence numbers at which one segment ends and the next begins. */
  datatype Snd = Snd(
    buf: RingBuf, iss: nat, una: nat, nxt: nat, lbw: nat, wnd: nat,
    rtx: seq<Rtx>, retries: nat, burst: nat, probing: bool, cancelled: bool,
    first: nat, written: seq<byte>, cuts: set<nat>)

  /** The receive half. The last three fields are history: whether RCV.NXT has been
      moved past the peer's FIN, every byte Read has copied out, and every stretch of
      payload Receive has ever put into the buffer. */
  datatype Rcv = Rcv(
    buf: RingBuf, nxt: nat, wnd: nat, irs: nat, lbr: nat, early: seq<Early>, pendingFin: nat,
    finCounted: bool, read: seq<byte>, taken: set<Early>)

  datatype Tcb = Tcb(state: State, snd: Snd, rcv: Rcv)

  // ---- the send half -------------------------------------------------------

  function InitSnd(iss: nat): Snd {
    Snd(EmptyRing(), iss, iss, iss + 1, iss + 1, 0, [], 0, 0, false, false, iss + 1, [], {iss + 1})
  }

  function Room(s: Snd): nat
    requires s.una <= s.lbw <= s.una + MAX_BUF_SIZE
  {
    MAX_BUF_SIZE - (s.lbw - s.una)
  }

  /** One round of Write's loop: bytes `d` that fit go into the buffer at LBW. */
  function WriteChunk(s: Snd, d: seq<byte>): Snd
    requires s.una <= s.lbw <= s.una + MAX_BUF_SIZE && |d| <= Room(s)
  {
    s.(buf := Store(s.buf, s.lbw, d), lbw := s.lbw + |d|, written := s.written + d)
  }

  /** The guard of Send's sending loop. */
  predicate CanPlan(s: Snd) {
    !s.cancelled && !s.probing && s.burst == 0 && s.una <= s.nxt && s.nxt - s.una < s.wnd && s.nxt < s.lbw
  }

  /** Send decides how much to send: up to the end of the window or of the data. */
  function Plan(s: Snd): Snd
    requires CanPlan(s)
  {
    s.(burst := Min(s.una + s.wnd - s.nxt, s.lbw - s.nxt))
  }

  /** Send emits one segment of what it has planned. */
  function Emit(s: Snd, r: Rcv): (Snd, Segment)
    requires 0 < s.burst
  {
    var len := Min(s.burst, MSS_DATA);
    var hdr := Header(s.nxt, r.nxt, false, false, r.wnd);
    (s.(nxt := s.nxt + len, burst := s.burst - len, rtx := s.rtx + [Rtx(hdr, len)], cuts := s.cuts + {s.nxt + len}),
     hdr.(payload := Load(s.buf, s.nxt, len)))
  }

  predicate CanBeginProbe(s: Snd) {
    !s.cancelled && !s.probing && s.burst == 0 && s.wnd == 0 && s.nxt < s.lbw
  }

  function BeginProbe(s: Snd): Snd {
    s.(probing := true, cuts := s.cuts + {s.nxt + 1})
  }

  /** A tick of the zero-probe goroutine: the next byte on its own. */
  function Probe(s: Snd, r: Rcv): Segment {
    Header(s.nxt, r.nxt, false, false, r.wnd).(payload := Load(s.buf, s.nxt, 1))
  }

  predicate CanEndProbe(s: Snd) {
    s.probing && s.wnd != 0
  }

  /** The window has reopened: the probe byte counts as sent. */
  function EndProbe(s: Snd): Snd {
    s.(nxt := s.nxt + 1, probing := false)
  }

  /** The head of the retransmission queue, its payload taken from the buffer again. */
  function Retransmitted(s: Snd): Segment
    requires s.rtx != []
  {
    s.rtx[0].hdr.(payload := Load(s.buf, s.rtx[0].hdr.seqNum, s.rtx[0].len))
  }

  function DropAcked(q: seq<Rtx>, ack: nat): seq<Rtx> {
    if q != [] && q[0].hdr.seqNum < ack then DropAcked(q[1..], ack) else q
  }

  /** removeFromRetransmissionQueue */
  function Prune(s: Snd, ack: nat): Snd {
    var q := DropAcked(s.rtx, ack);
    s.(rtx := q, retries := if |q| < |s.rtx| then 0 else s.retries)
  }

  /** Does Receive take an acknowledgement as new? */
  predicate AckIsNew(s: Snd, ack: nat, wnd: nat) {
    if wnd == 0 then s.una < ack <= s.nxt
    else s.una < ack && (ack <= s.una + s.wnd || s.wnd == 0)
  }

  /** What Receive does with the acknowledgement and window of a segment. */
  function OnAck(s: Snd, ack: nat, wnd: nat): Snd {
    if AckIsNew(s, ack, wnd) then Prune(s, ack).(wnd := wnd, una := ack) else s
  }

  /** Close: the FIN takes the sequence number after the last byte. */
  function SendFin(s: Snd, ack: nat, wnd: nat): (Snd, Segment) {
    var fin := Header(s.nxt, ack, false, true, wnd);
    (s.(nxt := s.nxt + 1, rtx := s.rtx + [Rtx(fin, 0)], cancelled := true, cuts := s.cuts + {s.nxt + 1}), fin)
  }

  // ---- the receive half ----------------------------------------------------

  function InitRcv(irs: nat): Rcv {
    Rcv(EmptyRing(), irs + 1, MAX_BUF_SIZE, irs, irs + 1, [], 0, false, [], {})
  }

  /** The receive half of an active opener before it hears from the peer. */
  function BlankRcv(): Rcv {
    Rcv(EmptyRing(), 0, MAX_BUF_SIZE, 0, 0, [], 0, false, [], {})
  }

  /** RCV.NXT without the peer's FIN: everything below it has been received. */
  function DataEnd(r: Rcv): int {
    if r.finCounted then r.nxt - 1 else r.nxt
  }

  /** The position EarlyArrivalQueue.Push inserts at: before the first entry that starts at `end` or later. */
  function InsertIndex(q: seq<Early>, end: nat): (i: nat)
    ensures i <= |q|
  {
    if q == [] || end <= q[0].seqNum then 0 else 1 + InsertIndex(q[1..], end)
  }

  function Push(q: seq<Early>, e: Early): seq<Early> {
    var i := InsertIndex(q, e.seqNum + e.len);
    q[..i] + [e] + q[i..]
  }

  /** updateAckNum: pop entries for as long as they continue at `n`. */
  function Coalesce(q: seq<Early>, n: nat): (r: (seq<Early>, nat))
    ensures n <= r.1
  {
    if q != [] && q[0].seqNum == n then Coalesce(q[1..], n + q[0].len) else (q, n)
  }

  predicate InWindow(r: Rcv, seqNum: nat) {
    r.nxt <= seqNum < r.nxt + r.wnd
  }

  /** What the copying loop and the window subtractions of Receive need of a segment in the window. */
  predicate CanAccept(r: Rcv, seqNum: nat, p: seq<byte>) {
    && r.lbr <= r.nxt <= seqNum
    && seqNum + |p| <= r.lbr + MAX_BUF_SIZE
    && (seqNum == r.nxt ==> r.nxt <= Coalesce(r.early, r.nxt + |p|).1 <= r.nxt + r.wnd)
  }

  /** Receive's treatment of payload in the window: into the buffer, then either
      RCV.NXT moves over it and all that continues it, or it is queued as early. */
  function Accept(r: Rcv, seqNum: nat, p: seq<byte>): Rcv
    requires CanAccept(r, seqNum, p)
  {
    var buf := Store(r.buf, seqNum, p);
    var taken := r.taken + {Early(seqNum, |p|)};
    if seqNum == r.nxt then
      var (q, n) := Coalesce(r.early, r.nxt + |p|);
      r.(buf := buf, early := q, nxt := n, wnd := r.wnd - (n - r.nxt), taken := taken)
    else
      r.(buf := buf, early := Push(r.early, Early(seqNum, |p|)), taken := taken)
  }

  /** One round of Read's loop. */
  function ReadChunk(r: Rcv, n: nat): Rcv
    requires n <= r.nxt - r.lbr
  {
    r.(lbr := r.lbr + n, wnd := r.wnd + n, read := r.read + Load(r.buf, r.lbr, n))
  }

  // ---- the segment handlers ------------------------------------------------

  function PlainAck(t: Tcb, ack: nat): Segment {
    Header(t.snd.nxt, ack, false, false, t.rcv.wnd)
  }

  /** States whose handler passes segments on to Receive. */
  predicate Receiving(st: State) {
    st in {Established, FinWait1, FinWait2}
  }

  /** The segment does not run Receive's copying loop into the ground. */
  predicate CanProcess(t: Tcb, g: Segment) {
    Receiving(t.state) && g.hasAck && g.payload != [] && InWindow(t.rcv, g.seqNum) ==>
      CanAccept(t.rcv, g.seqNum, g.payload)
  }

  /** Receive's treatment of the payload, with the acknowledgement it sends. */
  function ReceiveData(t: Tcb, g: Segment): (Tcb, seq<Segment>)
    requires InWindow(t.rcv, g.seqNum) && g.payload != [] ==> CanAccept(t.rcv, g.seqNum, g.payload)
  {
    if g.payload == [] then (t, [])
    else if !InWindow(t.rcv, g.seqNum) then (t, [PlainAck(t, t.rcv.nxt)])
    else
      var t1 := t.(rcv := Accept(t.rcv, g.seqNum, g.payload));
      if t1.rcv.nxt == t1.rcv.pendingFin then (t1.(state := CloseWait), [PlainAck(t1, t1.rcv.nxt + 1)])
      else (t1, [PlainAck(t1, t1.rcv.nxt)])
  }

  function Receive(t: Tcb, g: Segment): (Tcb, seq<Segment>)
    requires g.hasAck && InWindow(t.rcv, g.seqNum) && g.payload != [] ==> CanAccept(t.rcv, g.seqNum, g.payload)
  {
    if !g.hasAck then (t, [])
    else
      var (t1, out) := ReceiveData(t, g);
      (t1.(snd := OnAck(t1.snd, g.ackNum, g.wnd)), out)
  }

  /** A FIN in ESTABLISHED: in order it closes, ahead of order it is remembered. */
  function ReceiveFin(t: Tcb, g: Segment): (Tcb, seq<Segment>) {
    if g.seqNum == t.rcv.nxt then (t.(state := CloseWait), [PlainAck(t, t.rcv.nxt + 1)])
    else if g.seqNum > t.rcv.nxt then (t.(rcv := t.rcv.(pendingFin := g.seqNum)), [PlainAck(t, t.rcv.nxt)])
    else (t, [PlainAck(t, 0)])
  }

  /** A listener spawns a connection for a SYN. */
  function HandleListen(t: Tcb, g: Segment, newIss: nat): (Tcb, seq<Segment>) {
    if g.hasAck || !g.syn then (t, [])
    else
      var t1 := Tcb(SynReceived, InitSnd(newIss), InitRcv(g.seqNum));
      (t1, [SynAck(t1)])
  }

  function SynAck(t: Tcb): Segment {
    Header(t.snd.iss, t.rcv.nxt, true, false, t.rcv.wnd)
  }

  /** In the simultaneous-open branch the segment is handed to IP without its
      address prefix, so nothing is sent to the peer. */
  function HandleSynSent(t: Tcb, g: Segment, newIss: nat): (Tcb, seq<Segment>) {
    if g.hasAck && (g.ackNum <= t.snd.iss || g.ackNum > t.snd.nxt) then (t, [])
    else if !g.syn then (t, [])
    else
      var rcv := t.rcv.(nxt := g.seqNum + 1, lbr := g.seqNum + 1, irs := g.seqNum);
      var snd := t.snd.(wnd := g.wnd, una := g.ackNum, iss := newIss);
      if t.snd.iss < g.ackNum then
        (Tcb(Established, snd.(retries := 0), rcv), [Header(snd.nxt, rcv.nxt, false, false, MAX_BUF_SIZE)])
      else
        (Tcb(SynReceived, snd, rcv), [])
  }

  function HandleSynReceived(t: Tcb, g: Segment): (Tcb, seq<Segment>) {
    if g.payload != [] then (t, [])
    else
      var out := if g.syn then [SynAck(t)] else [];
      if g.hasAck && t.snd.una < g.ackNum <= t.snd.nxt then
        (t.(state := Established, snd := t.snd.(wnd := g.wnd, retries := 0)), out)
      else
        (t, out)
  }

  function CountFin(r: Rcv): Rcv {
    r.(nxt := r.nxt + 1, finCounted := true)
  }

  /** The FIN branch does not look at the FIN's sequence number. */
  function HandleFinWait1(t: Tcb, g: Segment): (Tcb, seq<Segment>)
    requires t.state == FinWait1 && CanProcess(t, g)
  {
    if !g.hasAck then (t, [])
    else if g.ackNum == t.snd.nxt then Receive(t.(state := FinWait2), g)
    else if g.fin then
      var t1 := t.(state := if g.ackNum + 1 == t.snd.nxt then Closing else TimeWait, rcv := CountFin(t.rcv));
      (t1, [PlainAck(t1, t1.rcv.nxt)])
    else Receive(t, g)
  }

  function HandleFinWait2(t: Tcb, g: Segment): (Tcb, seq<Segment>)
    requires t.state == FinWait2 && CanProcess(t, g)
  {
    if !g.fin then Receive(t, g)
    else if g.seqNum != t.rcv.nxt then (t, [])
    else
      var t1 := t.(state := TimeWait, rcv := CountFin(t.rcv));
      (t1, [PlainAck(t1, t1.rcv.nxt)])
  }

  /** ReceivePacket: dispatch on the state. */
  function OnSegment(t: Tcb, g: Segment, newIss: nat): (Tcb, seq<Segment>)
    requires CanProcess(t, g)
  {
    match t.state
    case Closed => (t, [])
    case Listen => HandleListen(t, g, newIss)
    case SynSent => HandleSynSent(t, g, newIss)
    case SynReceived => HandleSynReceived(t, g)
    case Established => if g.fin then ReceiveFin(t, g) else Receive(t, g)
    case FinWait1 => HandleFinWait1(t, g)
    case FinWait2 => HandleFinWait2(t, g)
    case Closing => (if g.hasAck && g.ackNum == t.snd.nxt then t.(state := TimeWait) else t, [])
    case TimeWait => (t, if g.fin then [PlainAck(t, t.rcv.nxt)] else [])
    case CloseWait => (t, if g.fin then [PlainAck(t, t.rcv.nxt)] else [])
    case LastAck =>
      (if g.hasAck && g.ackNum == t.snd.nxt then t.(state := Closed, snd := Prune(t.snd, g.ackNum)) else t, [])
  }

  /** Close, once everything written has been sent. */
  function CloseConn(t: Tcb): (Tcb, Segment) {
    var ack := if t.state == CloseWait then t.rcv.nxt + 1 else t.rcv.nxt;
    var (snd, fin) := SendFin(t.snd, ack, t.rcv.wnd);
    (t.(state := if t.state == CloseWait then LastAck else FinWait1, snd := snd), fin)
  }

  function SynFor(iss: nat): Segment {
    Segment(iss, 0, MAX_BUF_SIZE, true, false, false, [])
  }

  function Syn(s: Snd): Segment {
    SynFor(s.iss)
  }

  /** The retransmission timer, of the handshake and of the data path. */
  function OnTimeout(t: Tcb): (Tcb, seq<Segment>) {
    var again := t.(snd := t.snd.(retries := t.snd.retries + 1));
    if t.state in {Closed, Listen, TimeWait} then (t, [])
    else if t.state in {SynSent, SynReceived} then
      if t.snd.retries == MAX_RETRANSMISSIONS then (t.(state := Closed), [])
      else (again, [if t.state == SynSent then Syn(t.snd) else SynAck(t)])
    else if t.snd.rtx == [] then (t, [])
    else if t.snd.retries == MAX_RETRANSMISSIONS then (t.(state := Closed), [])
    else (again, [Retransmitted(t.snd)])
  }
}
