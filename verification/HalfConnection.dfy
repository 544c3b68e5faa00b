/** One direction of a connection: the send half of one TCB, the receive half of
    the other, every segment the sender has ever put on the network (`data`) and
    every segment the receiver has (`acks`). The network may lose, repeat and
    reorder, so any segment of a log may arrive at any time, any number of times.
    `Half` is the invariant of a direction; the lemmas say that every step of
    either side keeps it. */
module HalfConnection {
  import opened Ring
  import opened TcbModel

  // ---- the invariant -------------------------------------------------------

  /** Where the bytes that have been sent end. */
  function SentEnd(s: Snd): nat {
    if s.cancelled then s.lbw else if s.probing then s.nxt + 1 else s.nxt
  }

  /** The sequence number the retransmission queue runs up to. */
  function Top(s: Snd): nat {
    Max(s.una, s.nxt)
  }

  ghost predicate SndOk(s: Snd) {
    && 0 < s.first <= s.una + 1
    && s.first <= s.nxt
    && s.lbw == s.first + |s.written|
    && s.lbw <= s.una + MAX_BUF_SIZE
    && s.una <= s.nxt + (if s.probing && s.wnd > 0 then 1 else 0)
    && s.wnd <= MAX_BUF_SIZE
    && s.retries <= MAX_RETRANSMISSIONS
    && (if s.cancelled then s.nxt == s.lbw + 1 && s.burst == 0 && !s.probing else s.nxt + s.burst <= s.lbw)
    && (s.probing ==> s.burst == 0 && s.nxt < s.lbw && s.una == if s.wnd == 0 then s.nxt else s.nxt + 1)
    && (!s.cancelled && !s.probing ==> s.nxt + s.burst <= Max(s.first, s.una + s.wnd))
    && Holds(s.buf, s.written, s.first, Max(s.una, s.first), s.lbw)
  }

  /** A queued segment occupies its payload, or one number for a FIN. */
  function Span(e: Rtx): nat {
    if e.hdr.fin then 1 else e.len
  }

  /** The queue covers exactly the numbers from `lo` to `hi`, in order and without overlap. */
  predicate Tiles(q: seq<Rtx>, lo: nat, hi: nat) {
    if q == [] then lo == hi
    else q[0].hdr.seqNum == lo && 0 < Span(q[0]) && Tiles(q[1..], lo + Span(q[0]), hi)
  }

  function Start(q: seq<Rtx>, hi: nat): nat {
    if q == [] then hi else q[0].hdr.seqNum
  }

  ghost predicate NoCutInside(cuts: set<nat>, lo: nat, hi: nat) {
    forall c :: c in cuts ==> c <= lo || hi <= c
  }

  /** The segment as it was first sent: its payload is the stretch of the written bytes it covers. */
  function Original(s: Snd, e: Rtx): Segment
    requires s.first <= e.hdr.seqNum && e.hdr.seqNum + e.len <= s.first + |s.written|
  {
    e.hdr.(payload := s.written[e.hdr.seqNum - s.first..e.hdr.seqNum + e.len - s.first])
  }

  ghost predicate RtxOk(e: Rtx, s: Snd, data: seq<Segment>) {
    && s.first <= e.hdr.seqNum
    && e.hdr.seqNum + e.len <= s.first + |s.written|
    && e.len <= MSS_DATA
    && e.hdr.hasAck
    && (e.hdr.fin ==> e.len == 0 && s.cancelled && e.hdr.seqNum == s.lbw)
    && NoCutInside(s.cuts, e.hdr.seqNum, e.hdr.seqNum + Span(e))
    && Original(s, e) in data
  }

  ghost predicate QueueOk(s: Snd, data: seq<Segment>) {
    && s.una <= Start(s.rtx, Top(s))
    && Tiles(s.rtx, Start(s.rtx, Top(s)), Top(s))
    && forall e :: e in s.rtx ==> RtxOk(e, s, data)
  }

  ghost predicate CutsOk(s: Snd) {
    && s.first in s.cuts && SentEnd(s) in s.cuts && s.nxt in s.cuts
    && forall c :: c in s.cuts ==> s.first <= c <= if s.cancelled then s.lbw + 1 else SentEnd(s)
  }

  /** A segment from the sender carries bytes of the stream at their sequence
      number, or is a one-byte probe the receiver is already past. */
  ghost predicate DataOk(g: Segment, s: Snd, r: Rcv) {
    && (g.fin ==> s.cancelled && g.seqNum == s.lbw && g.payload == [] && g.hasAck)
    && (g.payload != [] ==>
          && g.hasAck
          && s.first <= g.seqNum
          && g.seqNum + |g.payload| <= SentEnd(s)
          && SentEnd(s) <= s.first + |s.written|
          && |g.payload| <= MSS_DATA
          && (|g.payload| == 1 || g.seqNum + |g.payload| <= r.lbr + MAX_BUF_SIZE)
          && g.seqNum in s.cuts && g.seqNum + |g.payload| in s.cuts
          && NoCutInside(s.cuts, g.seqNum, g.seqNum + |g.payload|)
          && (|| g.payload == s.written[g.seqNum - s.first..g.seqNum + |g.payload| - s.first]
              || g.seqNum + |g.payload| <= DataEnd(r)))
  }

  /** The receiver has not counted the sender's FIN while it lacked data before it. */
  predicate NoGap(s: Snd, r: Rcv) {
    r.finCounted ==> DataEnd(r) == s.lbw
  }

  /** By how much an acknowledgement number may overstate the receiver's window: by one, for a FIN. */
  function FinSlack(s: Snd, r: Rcv, ack: nat): nat {
    if r.finCounted || (s.cancelled && ack == s.lbw + 1) then 1 else 0
  }

  ghost predicate AckOk(g: Segment, s: Snd, r: Rcv) {
    g.hasAck ==>
      && s.first <= g.ackNum <= (if s.cancelled then s.lbw + 1 else SentEnd(s))
      && g.wnd <= MAX_BUF_SIZE
      && (s.cancelled && g.ackNum == s.lbw + 1 ==> DataEnd(r) == s.lbw)
      && (g.ackNum <= r.nxt || (s.cancelled && g.ackNum == s.lbw + 1))
      && (NoGap(s, r) ==> g.ackNum in s.cuts && (g.ackNum <= DataEnd(r) || (s.cancelled && g.ackNum == s.lbw + 1)))
      && g.ackNum + g.wnd <= r.lbr + MAX_BUF_SIZE + FinSlack(s, r, g.ackNum)
      && (!s.cancelled ==> s.first + MAX_BUF_SIZE <= g.ackNum + g.wnd)
  }

  /** One acknowledgement number follows another, other than the FIN's follows the last byte's. */
  predicate Follows(lbw: nat, ack: nat, next: nat) {
    ack < next && !(ack == lbw && next == lbw + 1)
  }

  /** A window that a receiver which has counted the FIN advertises as 0 may be 65536, cut to 16 bits. */
  predicate MayBeCut(r: Rcv, wnd: nat) {
    r.finCounted && wnd == 0
  }

  /** A later acknowledgement never takes back window that an earlier one has given, unless it is
      that of the FIN or its window is cut. */
  ghost predicate WindowsGrow(lbw: nat, r: Rcv, acks: seq<Segment>) {
    forall g, h :: g in acks && h in acks && g.hasAck && h.hasAck && Follows(lbw, g.ackNum, h.ackNum) && !MayBeCut(r, h.wnd) ==>
      g.ackNum + g.wnd <= h.ackNum + h.wnd
  }

  ghost predicate EarlyOk(e: Early, s: Snd, r: Rcv) {
    && 0 < e.len
    && (r.nxt <= e.seqNum ==>
          && e.seqNum + e.len <= SentEnd(s) <= s.first + |s.written|
          && s.first <= e.seqNum
          && e.seqNum + e.len <= r.lbr + MAX_BUF_SIZE
          && e.seqNum + e.len in s.cuts
          && Holds(r.buf, s.written, s.first, e.seqNum, e.seqNum + e.len))
  }

  /** How many of the bytes read are data of the stream. */
  function ReadData(s: Snd, r: Rcv): int {
    (if r.lbr <= DataEnd(r) then r.lbr else DataEnd(r)) - s.first
  }

  ghost predicate RcvOk(s: Snd, r: Rcv) {
    && r.irs + 1 == s.first
    && s.first <= r.lbr <= r.nxt
    && s.first <= DataEnd(r) <= SentEnd(s) <= s.first + |s.written|
    && r.wnd + (r.nxt - r.lbr) == MAX_BUF_SIZE + (if r.finCounted then 1 else 0)
    && Holds(r.buf, s.written, s.first, r.lbr, DataEnd(r))
    && |r.read| == r.lbr - s.first
    && r.read[..ReadData(s, r)] == s.written[..ReadData(s, r)]
    && (r.finCounted ==> s.cancelled)
    && (r.pendingFin != 0 ==> s.cancelled && r.pendingFin == s.lbw)
    && (!r.finCounted ==> r.nxt in s.cuts)
    && forall e :: e in r.early ==> EarlyOk(e, s, r)
  }

  /** What the two sides know about each other. */
  ghost predicate CrossOk(s: Snd, r: Rcv, acks: seq<Segment>) {
    && (NoGap(s, r) ==> if s.una <= s.lbw then s.una <= DataEnd(r) else DataEnd(r) == s.lbw)
    && s.una + s.wnd <= r.lbr + MAX_BUF_SIZE + FinSlack(s, r, s.una)
    && WindowsGrow(s.lbw, r, acks)
    && forall g :: g in acks && g.hasAck && Follows(s.lbw, s.una, g.ackNum) && !MayBeCut(r, g.wnd) ==>
         s.una + s.wnd <= g.ackNum + g.wnd
  }

  ghost predicate Half(s: Snd, r: Rcv, data: seq<Segment>, acks: seq<Segment>) {
    && SndOk(s)
    && CutsOk(s)
    && QueueOk(s, data)
    && RcvOk(s, r)
    && CrossOk(s, r, acks)
    && (forall g :: g in data ==> DataOk(g, s, r))
    && (forall g :: g in acks ==> AckOk(g, s, r))
  }

  /** Nothing between SND.UNA and SND.NXT is missing from the retransmission queue. */
  predicate Contiguous(s: Snd, r: Rcv) {
    NoGap(s, r) ==> Start(s.rtx, Top(s)) == Max(s.una, s.first)
  }

  // ---- what a growing sender keeps true ------------------------------------

  /** The sender only ever adds: bytes, sent bytes, segment boundaries and the FIN. */
  ghost predicate Grows(s: Snd, s': Snd) {
    && s'.first == s.first
    && s.written <= s'.written
    && s.lbw <= s'.lbw == s.first + |s'.written|
    && SentEnd(s) <= SentEnd(s') <= s'.lbw
    && s.cuts <= s'.cuts
    && (forall c :: c in s'.cuts && c !in s.cuts ==> SentEnd(s) <= c)
    && (s.cancelled ==> s'.cancelled && s'.lbw == s.lbw && s'.cuts == s.cuts)
    && (!s.cancelled && s'.cancelled ==> SentEnd(s) == s'.lbw)
  }

  lemma SliceKept(s: Snd, s': Snd, lo: nat, hi: nat)
    requires s.written <= s'.written && lo <= hi <= |s.written|
    ensures s'.written[lo..hi] == s.written[lo..hi]
  {
  }

  lemma DataCarries(g: Segment, s: Snd, s': Snd, r: Rcv)
    requires DataOk(g, s, r) && Grows(s, s')
    ensures DataOk(g, s', r)
  {
    if g.payload != [] {
      SliceKept(s, s', g.seqNum - s.first, g.seqNum + |g.payload| - s.first);
    }
  }

  lemma RtxCarries(e: Rtx, s: Snd, s': Snd, data: seq<Segment>, data': seq<Segment>)
    requires RtxOk(e, s, data) && Grows(s, s') && data <= data'
    requires s.lbw == s.first + |s.written|
    requires !e.hdr.fin ==> e.hdr.seqNum + e.len <= SentEnd(s)
    ensures RtxOk(e, s', data')
  {
    SliceKept(s, s', e.hdr.seqNum - s.first, e.hdr.seqNum + e.len - s.first);
    assert Original(s', e) == Original(s, e);
  }

  lemma EarlyCarries(e: Early, s: Snd, s': Snd, r: Rcv)
    requires EarlyOk(e, s, r) && Grows(s, s')
    ensures EarlyOk(e, s', r)
  {
  }

  lemma RcvCarries(s: Snd, s': Snd, r: Rcv)
    requires RcvOk(s, r) && Grows(s, s') && s.lbw == s.first + |s.written|
    ensures RcvOk(s', r)
  {
    forall e | e in r.early ensures EarlyOk(e, s', r) {
      EarlyCarries(e, s, s', r);
    }
    SliceKept(s, s', 0, ReadData(s, r));
  }

  lemma AckCarries(g: Segment, s: Snd, s': Snd, r: Rcv)
    requires AckOk(g, s, r) && Grows(s, s') && (r.finCounted ==> s.cancelled)
    ensures AckOk(g, s', r)
  {
  }

  lemma SenderGrows(s: Snd, s': Snd, r: Rcv, data: seq<Segment>, acks: seq<Segment>)
    requires Half(s, r, data, acks) && Grows(s, s')
    ensures RcvOk(s', r)
    ensures forall g :: g in data ==> DataOk(g, s', r)
    ensures forall g :: g in acks ==> AckOk(g, s', r)
  {
    RcvCarries(s, s', r);
    forall g | g in data ensures DataOk(g, s', r) {
      DataCarries(g, s, s', r);
    }
    forall g | g in acks ensures AckOk(g, s', r) {
      AckCarries(g, s, s', r);
    }
  }

  /** Data in the queue has been sent. */
  lemma QueuedIsSent(s: Snd, data: seq<Segment>, r: Rcv, e: Rtx)
    requires SndOk(s) && RtxOk(e, s, data) && e in s.rtx && !e.hdr.fin && e.len > 0
    requires forall g :: g in data ==> DataOk(g, s, r)
    ensures e.hdr.seqNum + e.len <= SentEnd(s)
  {
    assert DataOk(Original(s, e), s, r);
  }

  lemma {:induction false} TilesPositive(q: seq<Rtx>, lo: nat, hi: nat, e: Rtx)
    requires Tiles(q, lo, hi) && e in q
    ensures 0 < Span(e) && lo <= e.hdr.seqNum && e.hdr.seqNum + Span(e) <= hi
  {
    TilesBound(q[1..], lo + Span(q[0]), hi);
    if e != q[0] {
      TilesPositive(q[1..], lo + Span(q[0]), hi, e);
    }
  }

  lemma {:induction false} TilesBound(q: seq<Rtx>, lo: nat, hi: nat)
    requires Tiles(q, lo, hi)
    ensures lo <= hi
  {
    if q != [] {
      TilesBound(q[1..], lo + Span(q[0]), hi);
    }
  }

  lemma {:induction false} TilesAppend(q: seq<Rtx>, lo: nat, hi: nat, e: Rtx)
    requires Tiles(q, lo, hi) && e.hdr.seqNum == hi && 0 < Span(e)
    ensures Tiles(q + [e], lo, hi + Span(e))
  {
    if q != [] {
      assert (q + [e])[1..] == q[1..] + [e];
      TilesAppend(q[1..], lo + Span(q[0]), hi, e);
    }
  }

  lemma QueueCarries(s: Snd, s': Snd, r: Rcv, data: seq<Segment>, data': seq<Segment>)
    requires SndOk(s) && QueueOk(s, data) && Grows(s, s') && data <= data'
    requires forall g :: g in data ==> DataOk(g, s, r)
    ensures forall e :: e in s.rtx ==> RtxOk(e, s', data')
  {
    forall e | e in s.rtx ensures RtxOk(e, s', data') {
      TilesPositive(s.rtx, Start(s.rtx, Top(s)), Top(s), e);
      if !e.hdr.fin {
        QueuedIsSent(s, data, r, e);
      }
      RtxCarries(e, s, s', data, data');
    }
  }

  // ---- the sender's steps --------------------------------------------------

  lemma WriteHolds(s: Snd, d: seq<byte>)
    requires SndOk(s) && !s.cancelled && |d| <= Room(s)
    ensures var s' := WriteChunk(s, d);
            Holds(s'.buf, s'.written, s'.first, Max(s.una, s.first), s'.lbw)
  {
    hide Store;
    var s' := WriteChunk(s, d);
    forall k | Max(s.una, s.first) <= k < s'.lbw ensures At(s'.buf, k) == s'.written[k - s.first] {
      StoreAt(s.buf, s.lbw, d, k);
    }
  }

  lemma WriteGrows(s: Snd, d: seq<byte>)
    requires SndOk(s) && CutsOk(s) && !s.cancelled && |d| <= Room(s)
    ensures var s' := WriteChunk(s, d);
            Grows(s, s') && SndOk(s') && CutsOk(s')
  {
    hide Store, Holds;
    WriteHolds(s, d);
  }

  lemma FinNotCounted(s: Snd, r: Rcv)
    requires RcvOk(s, r)
    ensures r.finCounted ==> s.cancelled
  {
  }

  /** Before the FIN no acknowledgement number lies beyond the last byte, however much is written. */
  lemma WriteCross(s: Snd, r: Rcv, acks: seq<Segment>, d: seq<byte>)
    requires SndOk(s) && CrossOk(s, r, acks) && !s.cancelled && !r.finCounted && |d| <= Room(s)
    requires forall g :: g in acks ==> AckOk(g, s, r)
    ensures CrossOk(WriteChunk(s, d), r, acks)
  {
    hide Holds, Store;
    forall g | g in acks && g.hasAck ensures g.ackNum <= s.lbw {
      assert AckOk(g, s, r);
    }
  }

  lemma WriteKeeps(s: Snd, r: Rcv, data: seq<Segment>, acks: seq<Segment>, d: seq<byte>)
    requires Half(s, r, data, acks)
    requires !s.cancelled && |d| <= Room(s)
    ensures Half(WriteChunk(s, d), r, data, acks)
    ensures Contiguous(s, r) ==> Contiguous(WriteChunk(s, d), r)
  {
    hide DataOk, AckOk, RcvOk, RtxOk, Store;
    FinNotCounted(s, r);
    WriteGrows(s, d);
    WriteCross(s, r, acks, d);
    SenderGrows(s, WriteChunk(s, d), r, data, acks);
    QueueCarries(s, WriteChunk(s, d), r, data, data);
  }

  lemma PlanKeeps(s: Snd, r: Rcv, data: seq<Segment>, acks: seq<Segment>)
    requires Half(s, r, data, acks) && CanPlan(s)
    ensures Half(Plan(s), r, data, acks)
  {
    hide DataOk, AckOk, RcvOk, RtxOk;
    SenderGrows(s, Plan(s), r, data, acks);
    QueueCarries(s, Plan(s), r, data, data);
  }

  lemma EmitGrows(s: Snd, own: Rcv)
    requires SndOk(s) && CutsOk(s) && 0 < s.burst
    ensures var s' := Emit(s, own).0;
            Grows(s, s') && SndOk(s') && CutsOk(s')
  {
  }

  /** The segment carries the next bytes of the stream. */
  lemma EmitPayload(s: Snd, own: Rcv)
    requires SndOk(s) && 0 < s.burst
    ensures var (s', g) := Emit(s, own);
            && |g.payload| == s'.nxt - s.nxt
            && s.first <= g.seqNum && g.seqNum + |g.payload| <= s.first + |s.written|
            && g.payload == s.written[g.seqNum - s.first..g.seqNum + |g.payload| - s.first]
  {
    HoldsLoad(s.buf, s.written, s.first, Max(s.una, s.first), s.lbw, s.nxt, Min(s.burst, MSS_DATA));
  }

  lemma EmitQueue(s: Snd, r: Rcv, data: seq<Segment>, own: Rcv)
    requires SndOk(s) && CutsOk(s) && QueueOk(s, data) && 0 < s.burst
    requires forall g :: g in data ==> DataOk(g, s, r)
    ensures var (s', g) := Emit(s, own);
            QueueOk(s', data + [g])
  {
    hide DataOk, Holds, Load;
    var (s', g) := Emit(s, own);
    var e := s'.rtx[|s.rtx|];
    EmitGrows(s, own);
    QueueCarries(s, s', r, data, data + [g]);
    EmitPayload(s, own);
    assert Original(s', e) == g;
    assert RtxOk(e, s', data + [g]);
    TilesAppend(s.rtx, Start(s.rtx, Top(s)), Top(s), e);
  }

  lemma EmitKeeps(s: Snd, r: Rcv, data: seq<Segment>, acks: seq<Segment>, own: Rcv)
    requires Half(s, r, data, acks) && 0 < s.burst
    ensures var (s', g) := Emit(s, own);
            Half(s', r, data + [g], acks) && (Contiguous(s, r) ==> Contiguous(s', r))
  {
    hide AckOk, RcvOk, RtxOk, Load, Holds;
    var (s', g) := Emit(s, own);
    EmitGrows(s, own);
    SenderGrows(s, s', r, data, acks);
    EmitQueue(s, r, data, own);
    EmitPayload(s, own);
    assert DataOk(g, s', r);
  }

  lemma BeginProbeKeeps(s: Snd, r: Rcv, data: seq<Segment>, acks: seq<Segment>)
    requires Half(s, r, data, acks) && CanBeginProbe(s) && s.first <= s.una
    ensures Half(BeginProbe(s), r, data, acks)
  {
    hide DataOk, AckOk, RcvOk, RtxOk;
    var s' := BeginProbe(s);
    SenderGrows(s, s', r, data, acks);
    QueueCarries(s, s', r, data, data);
  }

  lemma ProbeKeeps(s: Snd, r: Rcv, data: seq<Segment>, acks: seq<Segment>, own: Rcv)
    requires Half(s, r, data, acks) && s.probing
    ensures Half(s, r, data + [Probe(s, own)], acks)
  {
    var g := Probe(s, own);
    if s.una <= s.nxt {
      HoldsLoad(s.buf, s.written, s.first, Max(s.una, s.first), s.lbw, s.nxt, 1);
    }
    QueueCarries(s, s, r, data, data + [g]);
    assert DataOk(g, s, r);
  }

  lemma EndProbeKeeps(s: Snd, r: Rcv, data: seq<Segment>, acks: seq<Segment>)
    requires Half(s, r, data, acks) && CanEndProbe(s)
    ensures Half(EndProbe(s), r, data, acks)
    ensures Contiguous(s, r) ==> Contiguous(EndProbe(s), r)
  {
    hide DataOk, AckOk, RcvOk, RtxOk;
    var s' := EndProbe(s);
    SenderGrows(s, s', r, data, acks);
    QueueCarries(s, s', r, data, data);
  }

  /** A retransmission puts on the network a segment that was there before. */
  lemma RetransmitIsOriginal(s: Snd, r: Rcv, data: seq<Segment>, acks: seq<Segment>)
    requires Half(s, r, data, acks) && s.rtx != []
    ensures Retransmitted(s) in data
    ensures s.first <= s.rtx[0].hdr.seqNum && s.rtx[0].hdr.seqNum + s.rtx[0].len <= s.first + |s.written|
    ensures Retransmitted(s) == Original(s, s.rtx[0])
  {
    var e := s.rtx[0];
    assert RtxOk(e, s, data);
    HoldsLoad(s.buf, s.written, s.first, Max(s.una, s.first), s.lbw, e.hdr.seqNum, e.len);
  }

  lemma RetransmitKeeps(s: Snd, r: Rcv, data: seq<Segment>, acks: seq<Segment>)
    requires Half(s, r, data, acks) && s.rtx != [] && s.retries < MAX_RETRANSMISSIONS
    ensures Half(s.(retries := s.retries + 1), r, data + [Retransmitted(s)], acks)
  {
    hide DataOk, AckOk, RcvOk, RtxOk, Retransmitted;
    var s' := s.(retries := s.retries + 1);
    var g := Retransmitted(s);
    RetransmitIsOriginal(s, r, data, acks);
    SenderGrows(s, s', r, data, acks);
    QueueCarries(s, s', r, data, data + [g]);
  }

  lemma SendFinKeeps(s: Snd, r: Rcv, data: seq<Segment>, acks: seq<Segment>, ack: nat, wnd: nat)
    requires Half(s, r, data, acks) && !s.cancelled && s.nxt == s.lbw
    ensures var (s', g) := SendFin(s, ack, wnd);
            Half(s', r, data + [g], acks) && (Contiguous(s, r) ==> Contiguous(s', r))
  {
    var (s', g) := SendFin(s, ack, wnd);
    var e := s'.rtx[|s.rtx|];
    SenderGrows(s, s', r, data, acks);
    QueueCarries(s, s', r, data, data + [g]);
    assert Original(s', e) == g;
    assert RtxOk(e, s', data + [g]);
    TilesAppend(s.rtx, Start(s.rtx, Top(s)), Top(s), e);
    assert QueueOk(s', data + [g]);
  }

  /** Pruning leaves a queue that starts at the acknowledgement, if that falls between two segments. */
  lemma {:induction false} DropAckedTiles(q: seq<Rtx>, lo: nat, hi: nat, ack: nat, cuts: set<nat>)
    requires Tiles(q, lo, hi) && ack <= hi
    ensures var q' := DropAcked(q, ack);
            && Tiles(q', Start(q', hi), hi)
            && ack <= Start(q', hi)
            && (forall e :: e in q' ==> e in q)
            && (lo <= ack && ack in cuts && (forall e :: e in q ==> NoCutInside(cuts, e.hdr.seqNum, e.hdr.seqNum + Span(e)))
                ==> Start(q', hi) == ack)
  {
    if q != [] && q[0].hdr.seqNum < ack {
      DropAckedTiles(q[1..], lo + Span(q[0]), hi, ack, cuts);
    }
  }

  lemma PruneKeepsQueue(s: Snd, r: Rcv, data: seq<Segment>, acks: seq<Segment>, ack: nat, wnd: nat)
    requires Half(s, r, data, acks) && s.una < ack <= Top(s)
    ensures var s' := Prune(s, ack).(wnd := wnd, una := ack);
            && QueueOk(s', data)
            && (Contiguous(s, r) && ack in s.cuts && (s.first <= ack) ==> Contiguous(s', r))
  {
    var s' := Prune(s, ack).(wnd := wnd, una := ack);
    DropAckedTiles(s.rtx, Start(s.rtx, Top(s)), Top(s), ack, s.cuts);
    assert Top(s') == Top(s);
    forall e | e in s'.rtx ensures RtxOk(e, s', data) {
      assert RtxOk(e, s, data);
      assert Original(s', e) == Original(s, e);
    }
  }

  /** While the window is closed everything sent is acknowledged, and the queue is empty. */
  lemma ProbingQueueEmpty(s: Snd, data: seq<Segment>)
    requires SndOk(s) && QueueOk(s, data) && s.probing
    ensures s.rtx == []
  {
    if s.rtx != [] {
      TilesBound(s.rtx[1..], Start(s.rtx, Top(s)) + Span(s.rtx[0]), Top(s));
    }
  }

  /** The pointers after a new acknowledgement: SND.UNA follows it, and SND.UNA + SND.WND does not move left. */
  lemma NewAckMoves(s: Snd, r: Rcv, acks: seq<Segment>, g: Segment)
    requires SndOk(s) && CutsOk(s) && CrossOk(s, r, acks) && (r.finCounted ==> s.cancelled)
    requires g in acks && g.hasAck && AckOk(g, s, r) && AckIsNew(s, g.ackNum, g.wnd)
    requires forall h :: h in acks ==> AckOk(h, s, r)
    ensures var s' := OnAck(s, g.ackNum, g.wnd);
            && SndOk(s') && CutsOk(s') && CrossOk(s', r, acks) && Grows(s, s')
            && (Follows(s.lbw, s.una, g.ackNum) && !MayBeCut(r, g.wnd) ==> s.una + s.wnd <= s'.una + s'.wnd)
            && (s.probing ==> g.ackNum == s.nxt + 1) && (!s.probing ==> g.ackNum <= s.nxt)
  {
    hide DropAcked;
  }

  lemma OnAckKeeps(s: Snd, r: Rcv, data: seq<Segment>, acks: seq<Segment>, g: Segment)
    requires Half(s, r, data, acks) && g in acks && g.hasAck
    ensures Half(OnAck(s, g.ackNum, g.wnd), r, data, acks)
    ensures Contiguous(s, r) ==> Contiguous(OnAck(s, g.ackNum, g.wnd), r)
    ensures OnAck(s, g.ackNum, g.wnd) == s || s.first <= OnAck(s, g.ackNum, g.wnd).una
  {
    hide DataOk, RcvOk, RtxOk, CrossOk, Grows, Tiles;
    if AckIsNew(s, g.ackNum, g.wnd) {
      var s' := OnAck(s, g.ackNum, g.wnd);
      assert AckOk(g, s, r);
      FinNotCounted(s, r);
      NewAckMoves(s, r, acks, g);
      if s.probing {
        ProbingQueueEmpty(s, data);
        EmptyQueueOk(s', data);
      } else {
        PruneKeepsQueue(s, r, data, acks, g.ackNum, g.wnd);
      }
      SenderGrows(s, s', r, data, acks);
    }
  }

  lemma EmptyQueueOk(s: Snd, data: seq<Segment>)
    requires s.rtx == []
    ensures QueueOk(s, data)
  {
  }

  // ---- the receiver's steps ------------------------------------------------

  /** Anything without payload or FIN may be added to the sender's log. */
  lemma EmptySent(s: Snd, r: Rcv, data: seq<Segment>, acks: seq<Segment>, g: Segment)
    requires Half(s, r, data, acks) && g.payload == [] && !g.fin
    ensures Half(s, r, data + [g], acks)
  {
    QueueCarries(s, s, r, data, data + [g]);
  }

  /** What the receiver may acknowledge: what it has, and the FIN once all is there. */
  ghost predicate MayAck(s: Snd, r: Rcv, ack: nat) {
    || ack == r.nxt
    || (!r.finCounted && s.cancelled && r.nxt == s.lbw && ack == s.lbw + 1)
  }

  lemma AckSent(s: Snd, r: Rcv, data: seq<Segment>, acks: seq<Segment>, g: Segment)
    requires Half(s, r, data, acks)
    requires g.hasAck ==> MayAck(s, r, g.ackNum) && g.wnd == r.wnd % 65536
    ensures Half(s, r, data, acks + [g])
  {
    hide DataOk, QueueOk, Holds, EarlyOk;
    if g.hasAck {
      AckSentOk(s, r, g);
      forall h | h in acks && h.hasAck ensures AckAfter(s, r, h, g) {
        assert AckOk(h, s, r);
        SentAfter(s, r, h, g);
      }
    }
  }

  lemma AckSentOk(s: Snd, r: Rcv, g: Segment)
    requires SndOk(s) && CutsOk(s) && RcvOk(s, r)
    requires g.hasAck && MayAck(s, r, g.ackNum) && g.wnd == r.wnd % 65536
    ensures AckOk(g, s, r)
  {
    hide Holds, EarlyOk;
  }

  /** What acknowledgement `g`, sent after `h`, promises. */
  predicate AckAfter(s: Snd, r: Rcv, h: Segment, g: Segment) {
    && (Follows(s.lbw, h.ackNum, g.ackNum) && !MayBeCut(r, g.wnd) ==> h.ackNum + h.wnd <= g.ackNum + g.wnd)
    && !Follows(s.lbw, g.ackNum, h.ackNum)
  }

  lemma SentAfter(s: Snd, r: Rcv, h: Segment, g: Segment)
    requires RcvOk(s, r) && AckOk(h, s, r) && h.hasAck
    requires MayAck(s, r, g.ackNum) && g.wnd == r.wnd % 65536
    ensures AckAfter(s, r, h, g)
  {
    hide Holds, EarlyOk;
  }

  /** Every segment the network delivers can be taken in: it ends inside the buffer. */
  lemma ArrivalFits(s: Snd, r: Rcv, data: seq<Segment>, acks: seq<Segment>, g: Segment)
    requires Half(s, r, data, acks) && g in data && g.payload != [] && InWindow(r, g.seqNum) && !r.finCounted
    ensures CanAccept(r, g.seqNum, g.payload)
    ensures s.first <= g.seqNum && g.seqNum + |g.payload| <= SentEnd(s) <= s.first + |s.written|
    ensures g.payload == s.written[g.seqNum - s.first..g.seqNum + |g.payload| - s.first]
  {
    assert DataOk(g, s, r);
    if g.seqNum == r.nxt {
      assert forall e :: e in r.early ==> EarlyOk(e, s, r);
      CoalesceBounded(r.early, r.nxt + |g.payload|, s, r);
    }
  }

  lemma {:induction false} CoalesceBounded(q: seq<Early>, n: nat, s: Snd, r: Rcv)
    requires r.nxt <= n <= r.lbr + MAX_BUF_SIZE && forall e :: e in q ==> EarlyOk(e, s, r)
    ensures n <= Coalesce(q, n).1 <= r.lbr + MAX_BUF_SIZE
  {
    if q != [] && q[0].seqNum == n {
      assert EarlyOk(q[0], s, r);
      CoalesceBounded(q[1..], n + q[0].len, s, r);
    }
  }

  /** Within the window, the buffer after the arrival holds what it held, and the new bytes. */
  lemma StoredHolds(s: Snd, r: Rcv, at: nat, p: seq<byte>, lo: nat, hi: nat)
    requires r.lbr <= r.nxt <= at && at + |p| <= r.lbr + MAX_BUF_SIZE
    requires s.first <= at && at + |p| <= s.first + |s.written| && p == s.written[at - s.first..at + |p| - s.first]
    requires s.first <= lo && hi <= s.first + |s.written|
    requires r.lbr <= lo && hi <= r.lbr + MAX_BUF_SIZE
    requires Holds(r.buf, s.written, s.first, lo, hi)
    ensures Holds(Store(r.buf, at, p), s.written, s.first, lo, hi)
  {
    forall k | lo <= k < hi ensures At(Store(r.buf, at, p), k) == s.written[k - s.first] {
      StoreAt(r.buf, at, p, k);
    }
  }

  lemma StoreKeeps(s: Snd, r: Rcv, at: nat, p: seq<byte>)
    requires RcvOk(s, r) && !r.finCounted
    requires r.nxt <= at && at + |p| <= r.lbr + MAX_BUF_SIZE && at + |p| <= s.first + |s.written|
    requires p == s.written[at - s.first..at + |p| - s.first]
    ensures RcvOk(s, r.(buf := Store(r.buf, at, p)))
  {
    StoredHolds(s, r, at, p, r.lbr, r.nxt);
    forall e | e in r.early ensures EarlyOk(e, s, r.(buf := Store(r.buf, at, p))) {
      assert EarlyOk(e, s, r);
      if r.nxt <= e.seqNum {
        StoredHolds(s, r, at, p, e.seqNum, e.seqNum + e.len);
      }
    }
  }

  lemma StoredIsThere(s: Snd, b: RingBuf, at: nat, p: seq<byte>)
    requires |p| <= MAX_BUF_SIZE
    requires s.first <= at && at + |p| <= s.first + |s.written| && p == s.written[at - s.first..at + |p| - s.first]
    ensures Holds(Store(b, at, p), s.written, s.first, at, at + |p|)
  {
    forall k | at <= k < at + |p| ensures At(Store(b, at, p), k) == s.written[k - s.first] {
      StoreAt(b, at, p, k);
    }
  }

  /** Coalescing only passes over bytes that have arrived, and stops between two segments. */
  lemma {:induction false} CoalesceHolds(q: seq<Early>, n: nat, s: Snd, r: Rcv)
    requires forall e :: e in q ==> EarlyOk(e, s, r)
    requires s.first <= r.lbr <= r.nxt <= n <= SentEnd(s) <= s.first + |s.written| && n in s.cuts
    requires Holds(r.buf, s.written, s.first, r.lbr, n)
    ensures var (q', n') := Coalesce(q, n);
            && n <= n' <= SentEnd(s) && n' in s.cuts
            && Holds(r.buf, s.written, s.first, r.lbr, n')
            && forall e :: e in q' ==> e in q
  {
    if q != [] && q[0].seqNum == n {
      assert EarlyOk(q[0], s, r);
      CoalesceHolds(q[1..], n + q[0].len, s, r);
    }
  }

  lemma AcceptKeepsRcv(s: Snd, r: Rcv, data: seq<Segment>, acks: seq<Segment>, g: Segment)
    requires Half(s, r, data, acks) && g in data && g.payload != [] && InWindow(r, g.seqNum) && !r.finCounted
    requires CanAccept(r, g.seqNum, g.payload)
    ensures RcvOk(s, Accept(r, g.seqNum, g.payload))
  {
    var at, p := g.seqNum, g.payload;
    assert DataOk(g, s, r);
    ArrivalFits(s, r, data, acks, g);
    StoreKeeps(s, r, at, p);
    StoredIsThere(s, r.buf, at, p);
    AcceptedRcv(s, r, at, p);
  }

  lemma AcceptedRcv(s: Snd, r: Rcv, at: nat, p: seq<byte>)
    requires p != [] && CanAccept(r, at, p) && !r.finCounted
    requires RcvOk(s, r.(buf := Store(r.buf, at, p)))
    requires s.first <= at && at + |p| <= SentEnd(s) <= s.first + |s.written| && at + |p| in s.cuts
    requires Holds(Store(r.buf, at, p), s.written, s.first, at, at + |p|)
    ensures RcvOk(s, Accept(r, at, p))
  {
    var r1, r' := r.(buf := Store(r.buf, at, p)), Accept(r, at, p);
    if at == r.nxt {
      CoalesceHolds(r.early, r.nxt + |p|, s, r1);
    }
    forall e | e in r'.early ensures EarlyOk(e, s, r') {
      assert e in r.early ==> EarlyOk(e, s, r1);
    }
  }

  /** The receiver only ever adds: received bytes, read bytes and the FIN. */
  lemma ReceiverGrows(s: Snd, r: Rcv, r': Rcv, data: seq<Segment>, acks: seq<Segment>)
    requires Half(s, r, data, acks) && RcvOk(s, r')
    requires r.nxt <= r'.nxt && DataEnd(r) <= DataEnd(r') && r.lbr <= r'.lbr
    requires r.finCounted ==> r'.finCounted && DataEnd(r') == DataEnd(r)
    ensures Half(s, r', data, acks)
  {
    forall g | g in data ensures DataOk(g, s, r') {
      assert DataOk(g, s, r);
    }
    forall g | g in acks ensures AckOk(g, s, r') {
      assert AckOk(g, s, r);
    }
  }

  lemma AcceptKeeps(s: Snd, r: Rcv, data: seq<Segment>, acks: seq<Segment>, g: Segment)
    requires Half(s, r, data, acks) && g in data && g.payload != [] && InWindow(r, g.seqNum) && !r.finCounted
    ensures CanAccept(r, g.seqNum, g.payload)
    ensures Half(s, Accept(r, g.seqNum, g.payload), data, acks)
  {
    ArrivalFits(s, r, data, acks, g);
    AcceptKeepsRcv(s, r, data, acks, g);
    ReceiverGrows(s, r, Accept(r, g.seqNum, g.payload), data, acks);
  }

  /** What Read copies out continues the stream where the bytes read so far end. */
  lemma ReadContinues(s: Snd, r: Rcv, n: nat)
    requires RcvOk(s, r) && n <= r.nxt - r.lbr
    ensures var r' := ReadChunk(r, n);
            && |r'.read| == r'.lbr - s.first
            && 0 <= ReadData(s, r') <= |r'.read| && ReadData(s, r') <= |s.written|
            && r'.read[..ReadData(s, r')] == s.written[..ReadData(s, r')]
  {
    var r' := ReadChunk(r, n);
    var m, m' := ReadData(s, r), ReadData(s, r');
    var d := Load(r.buf, r.lbr, n);
    if r.lbr <= DataEnd(r) {
      HoldsLoad(r.buf, s.written, s.first, r.lbr, DataEnd(r), r.lbr, m' - m);
      assert d[..m' - m] == Load(r.buf, r.lbr, m' - m);
      assert r.read[..m] == r.read;
      assert r'.read[..m'] == r.read + d[..m' - m];
      assert s.written[..m'] == s.written[..m] + s.written[m..m'];
    } else {
      assert r'.read[..m'] == r.read[..m];
    }
  }

  lemma ReadKeepsRcv(s: Snd, r: Rcv, n: nat)
    requires RcvOk(s, r) && n <= r.nxt - r.lbr
    ensures RcvOk(s, ReadChunk(r, n))
  {
    ReadContinues(s, r, n);
    forall e | e in r.early ensures EarlyOk(e, s, ReadChunk(r, n)) {
      assert EarlyOk(e, s, r);
    }
  }

  lemma ReadKeeps(s: Snd, r: Rcv, data: seq<Segment>, acks: seq<Segment>, n: nat)
    requires Half(s, r, data, acks) && n <= r.nxt - r.lbr
    ensures Half(s, ReadChunk(r, n), data, acks)
  {
    ReadKeepsRcv(s, r, n);
    ReceiverGrows(s, r, ReadChunk(r, n), data, acks);
  }

  /** A FIN on the network is the end of the stream. */
  lemma FinIsEnd(s: Snd, r: Rcv, data: seq<Segment>, acks: seq<Segment>, g: Segment)
    requires Half(s, r, data, acks) && g in data && g.fin
    ensures s.cancelled && g.seqNum == s.lbw && g.hasAck && g.payload == []
    ensures !r.finCounted ==> r.nxt <= s.lbw
  {
    assert DataOk(g, s, r);
  }

  lemma PendingFinIsEnd(s: Snd, r: Rcv, data: seq<Segment>, acks: seq<Segment>)
    requires Half(s, r, data, acks) && r.pendingFin == r.nxt
    ensures s.cancelled && r.nxt == s.lbw
  {
  }

  /** An early FIN is remembered at the end of the stream. */
  lemma PendingFinKeeps(s: Snd, r: Rcv, data: seq<Segment>, acks: seq<Segment>, g: Segment)
    requires Half(s, r, data, acks) && g in data && g.fin
    ensures Half(s, r.(pendingFin := g.seqNum), data, acks)
  {
    assert DataOk(g, s, r);
    var r' := r.(pendingFin := g.seqNum);
    forall e | e in r'.early ensures EarlyOk(e, s, r') {
      assert EarlyOk(e, s, r);
    }
    ReceiverGrows(s, r, r', data, acks);
  }

  lemma CountFinKeeps(s: Snd, r: Rcv, data: seq<Segment>, acks: seq<Segment>)
    requires Half(s, r, data, acks) && s.cancelled && !r.finCounted
    ensures Half(s, CountFin(r), data, acks)
  {
    var r' := CountFin(r);
    forall e | e in r'.early ensures EarlyOk(e, s, r') {
      assert EarlyOk(e, s, r);
    }
    ReceiverGrows(s, r, r', data, acks);
  }
}
