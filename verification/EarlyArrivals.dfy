/** The early-arrival queue over a network that loses and reorders but delivers no
    segment twice: each segment is queued at most once, the queue is sorted and
    without overlap, and RCV.NXT is always the first missing byte. */
module EarlyArrivals {
  import opened Ring
  import opened TcbModel
  import opened HalfConnection
  import opened Connection
  import opened Runs
  import opened Guarantees
  import opened Coalescing
  import opened EarlyHistory

  /** If the same bytes are on the network again, the receiver already has all before them. */
  ghost predicate RepeatsAreOld(data: seq<Segment>, nxt: nat) {
    forall i, j :: 0 <= i < j < |data| && data[i].payload != [] && data[j].payload != [] && data[i].seqNum == data[j].seqNum ==>
      data[j].seqNum <= nxt
  }

  /** Entry `e` stands for a segment that has been delivered. */
  ghost predicate Delivered(e: Early, data: seq<Segment>, seen: set<nat>) {
    exists i :: 0 <= i < |data| && i in seen && data[i].seqNum == e.seqNum && |data[i].payload| == e.len
  }

  ghost predicate Once(r: Rcv, data: seq<Segment>, seen: set<nat>) {
    && Sorted(r.early)
    && (!r.finCounted ==> RepeatsAreOld(data, r.nxt))
    && forall e :: e in r.early ==> 0 < e.len && DataEnd(r) < e.seqNum && Delivered(e, data, seen)
  }

  // ---- the steps -----------------------------------------------------------

  lemma DeliveredGrows(e: Early, data: seq<Segment>, seen: set<nat>, data': seq<Segment>, seen': set<nat>)
    requires Delivered(e, data, seen) && data <= data' && seen <= seen'
    ensures Delivered(e, data', seen')
  {
    var i :| 0 <= i < |data| && i in seen && data[i].seqNum == e.seqNum && |data[i].payload| == e.len;
    assert data'[i] == data[i];
  }

  /** The sender adds a segment that is new, or that the receiver is already up to. */
  lemma SentOnce(r: Rcv, data: seq<Segment>, seen: set<nat>, g: Segment)
    requires Once(r, data, seen)
    requires !r.finCounted ==> g.payload == [] || g.seqNum <= r.nxt || forall h :: h in data && h.payload != [] ==> h.seqNum != g.seqNum
    ensures Once(r, data + [g], seen)
  {
    var data' := data + [g];
    if !r.finCounted {
      forall i, j | 0 <= i < j < |data'| && data'[i].payload != [] && data'[j].payload != [] && data'[i].seqNum == data'[j].seqNum
        ensures data'[j].seqNum <= r.nxt
      {
        assert data'[i] == data[i] && data[i] in data;
        assert j < |data| ==> data'[j] == data[j];
      }
    }
    forall e | e in r.early ensures Delivered(e, data', seen) {
      DeliveredGrows(e, data, seen, data', seen);
    }
  }

  lemma SeenOnce(r: Rcv, data: seq<Segment>, seen: set<nat>, seen': set<nat>)
    requires Once(r, data, seen) && seen <= seen'
    ensures Once(r, data, seen')
  {
    forall e | e in r.early ensures Delivered(e, data, seen') {
      DeliveredGrows(e, data, seen, data, seen');
    }
  }

  /** Two delivered segments that both lie ahead of RCV.NXT do not overlap. */
  lemma EarlySegmentsDisjoint(s: Snd, r: Rcv, data: seq<Segment>, seen: set<nat>, i: nat, e: Early)
    requires forall g :: g in data ==> DataOk(g, s, r)
    requires RepeatsAreOld(data, r.nxt) && Delivered(e, data, seen) && 0 < e.len && r.nxt < e.seqNum
    requires i < |data| && i !in seen && data[i].payload != []
    ensures var g := data[i];
            e.seqNum + e.len <= g.seqNum || g.seqNum + |g.payload| <= e.seqNum
  {
    var j :| 0 <= j < |data| && j in seen && data[j].seqNum == e.seqNum && |data[j].payload| == e.len;
    assert DataOk(data[i], s, r) && DataOk(data[j], s, r);
  }

  lemma NewlyDelivered(e: Early, data: seq<Segment>, seen: set<nat>, i: nat)
    requires i < |data| && e == Early(data[i].seqNum, |data[i].payload|)
    ensures Delivered(e, data, seen + {i})
  {
  }

  lemma RepeatsStayOld(data: seq<Segment>, nxt: nat, nxt': nat)
    requires RepeatsAreOld(data, nxt) && nxt <= nxt'
    ensures RepeatsAreOld(data, nxt')
  {
  }

  lemma AcceptOnce(s: Snd, r: Rcv, data: seq<Segment>, seen: set<nat>, i: nat)
    requires Once(r, data, seen) && !r.finCounted
    requires forall g :: g in data ==> DataOk(g, s, r)
    requires i < |data| && i !in seen && data[i].payload != [] && r.nxt <= data[i].seqNum
    requires CanAccept(r, data[i].seqNum, data[i].payload)
    ensures Once(Accept(r, data[i].seqNum, data[i].payload), data, seen + {i})
  {
    hide DataOk, Delivered, RepeatsAreOld, Sorted, Store, Push, Coalesce;
    var g := data[i];
    var r' := Accept(r, g.seqNum, g.payload);
    forall e | e in r.early ensures e.seqNum + e.len <= g.seqNum || g.seqNum + |g.payload| <= e.seqNum {
      EarlySegmentsDisjoint(s, r, data, seen, i, e);
    }
    if g.seqNum == r.nxt {
      CoalesceStopsAtGap(r.early, r.nxt + |g.payload|);
    } else {
      PushSorted(r.early, Early(g.seqNum, |g.payload|));
      PushMembers(r.early, Early(g.seqNum, |g.payload|));
      NewlyDelivered(Early(g.seqNum, |g.payload|), data, seen, i);
    }
    RepeatsStayOld(data, r.nxt, r'.nxt);
    forall e | e in r'.early ensures 0 < e.len && r'.nxt < e.seqNum && Delivered(e, data, seen + {i}) {
      if e in r.early {
        DeliveredGrows(e, data, seen, data, seen + {i});
      }
    }
  }

  lemma IncomingOnce(x: Tcb, y: Tcb, xy: seq<Segment>, yx: seq<Segment>, seen: set<nat>, a: Action)
    requires Pair(x, y, xy, yx) && Ready(x, a, yx)
    requires Once(x.rcv, yx, seen) && (a.Arrive? ==> a.i !in seen)
    ensures Once(Local(x, a, yx).0.rcv, yx, seen + if a.Arrive? then {a.i} else {})
  {
    hide Local, Half, DataOk, Accept;
    var r, r' := x.rcv, Local(x, a, yx).0.rcv;
    var seen' := seen + if a.Arrive? then {a.i} else {};
    RcvStep(x, a, yx);
    if r'.early == r.early && DataEnd(r') == DataEnd(r) && r.nxt <= r'.nxt {
      SeenOnce(r, yx, seen, seen');
    } else {
      AllDataOk(y.snd, r, yx, xy);
      AcceptOnce(y.snd, r, yx, seen, a.i);
    }
  }

  lemma AllDataOk(s: Snd, r: Rcv, data: seq<Segment>, acks: seq<Segment>)
    requires Half(s, r, data, acks)
    ensures forall g :: g in data ==> DataOk(g, s, r)
  {
  }

  /** What may be put on the network: nothing, bytes for the first time, or bytes the
      receiver is already up to, unless it has counted the FIN with data missing. */
  ghost predicate NewOrOld(g: Segment, data: seq<Segment>, s: Snd, r: Rcv) {
    NoGap(s, r) ==>
      g.payload == [] || g.seqNum <= DataEnd(r) || forall h :: h in data && h.payload != [] ==> h.seqNum != g.seqNum
  }

  lemma EmitIsNew(s: Snd, r: Rcv, data: seq<Segment>, acks: seq<Segment>, own: Rcv)
    requires Half(s, r, data, acks) && 0 < s.burst
    ensures NewOrOld(Emit(s, own).1, data, s, r)
  {
    forall h | h in data && h.payload != [] ensures h.seqNum < s.nxt {
      assert DataOk(h, s, r);
    }
  }

  lemma ProbeIsOld(s: Snd, r: Rcv, data: seq<Segment>, acks: seq<Segment>, own: Rcv)
    requires Half(s, r, data, acks) && s.probing
    ensures NewOrOld(Probe(s, own), data, s, r)
  {
  }

  lemma RetransmissionIsOld(s: Snd, r: Rcv, data: seq<Segment>, acks: seq<Segment>)
    requires Half(s, r, data, acks) && s.rtx != [] && Contiguous(s, r)
    ensures NewOrOld(Retransmitted(s), data, s, r)
  {
    assert RtxOk(s.rtx[0], s, data);
    RetransmitIsOriginal(s, r, data, acks);
  }

  lemma OutgoingIsNewOrOld(x: Tcb, y: Tcb, xy: seq<Segment>, yx: seq<Segment>, a: Action)
    requires Pair(x, y, xy, yx) && Ready(x, a, yx)
    ensures var out := Local(x, a, yx).1;
            |out| <= 1 && (|out| == 1 ==> NewOrOld(out[0], xy, x.snd, y.rcv))
  {
    hide Half, Accept, OnAck, Load, Store;
    match a
    case SendOne =>
      if Sending(x) && 0 < x.snd.burst { EmitIsNew(x.snd, y.rcv, xy, yx, x.rcv); }
    case SendProbe =>
      if Sending(x) && x.snd.probing { ProbeIsOld(x.snd, y.rcv, xy, yx, x.rcv); }
    case Timeout =>
      if x.snd.rtx != [] && x.state != Closed { RetransmissionIsOld(x.snd, y.rcv, xy, yx); }
    case _ =>
  }

  lemma OutgoingOnce(x: Tcb, y: Tcb, xy: seq<Segment>, yx: seq<Segment>, seen: set<nat>, a: Action)
    requires Pair(x, y, xy, yx) && Ready(x, a, yx) && Once(y.rcv, xy, seen)
    ensures Once(y.rcv, xy + Local(x, a, yx).1, seen)
  {
    hide Local, Pair, Once;
    OutgoingIsNewOrOld(x, y, xy, yx, a);
    var out := Local(x, a, yx).1;
    if out == [] {
      assert xy + out == xy;
    } else {
      SentOnce(y.rcv, xy, seen, out[0]);
      assert out == [out[0]];
    }
  }

  // ---- runs ----------------------------------------------------------------

  function SeenBy(k: Conn, side: Side): set<nat> {
    if side == Client then k.scSeen else k.csSeen
  }

  ghost predicate OnceAt(k: Conn, side: Side) {
    Once(Me(k, side).rcv, SentBy(k, Peer(side)), SeenBy(k, side))
  }

  lemma NothingSentOnce(r: Rcv, data: seq<Segment>, seen: set<nat>)
    requires r.early == [] && forall g :: g in data ==> g.payload == []
    ensures Once(r, data, seen)
  {
  }

  /** Until the client has heard from the server nothing but the handshake is sent. */
  lemma OpeningIsEmpty(k: Conn, actor: Side, a: Action)
    requires Opening(k) && Ready(Me(k, actor), a, SentBy(k, Peer(actor)))
    ensures var (t, out) := Local(Me(k, actor), a, SentBy(k, Peer(actor)));
            t.rcv.early == [] && forall g :: g in out ==> g.payload == []
  {
    if a.Arrive? {
      assert a.i < |k.cs| ==> k.cs[a.i] in k.cs;
      assert a.i < |k.sc| ==> k.sc[a.i] in k.sc;
    }
  }

  lemma OpeningOnce(k: Conn, actor: Side, a: Action, side: Side)
    requires Opening(k) && Ready(Me(k, actor), a, SentBy(k, Peer(actor)))
    ensures OnceAt(Step(k, actor, a), side)
  {
    hide Once, Local;
    OpeningIsEmpty(k, actor, a);
    var k' := Step(k, actor, a);
    NothingSentOnce(Me(k', side).rcv, SentBy(k', Peer(side)), SeenBy(k', side));
  }

  lemma OnceStep(k: Conn, actor: Side, a: Action, side: Side)
    requires Inv(k) && OnceAt(k, side)
    requires a.Arrive? ==> a.i !in SeenBy(k, actor)
    ensures OnceAt(Next(k, actor, a), side)
  {
    hide Half, Local, Once;
    InvReady(k, actor, a);
    if !Joined(k, side) {
      OpeningOnce(k, actor, a, side);
    } else if actor == side {
      IncomingOnce(Me(k, side), Me(k, Peer(side)), SentBy(k, side), SentBy(k, Peer(side)), SeenBy(k, side), a);
    } else {
      OutgoingOnce(Me(k, actor), Me(k, side), SentBy(k, actor), SentBy(k, side), SeenBy(k, side), a);
    }
  }

  /** No segment is delivered twice. (A retransmission is a segment of its own.) */
  ghost predicate NoRepeats(k: Conn, steps: seq<(Side, Action)>)
    requires Inv(k)
    decreases |steps|
  {
    steps == [] ||
    (&& (steps[0].1.Arrive? ==> steps[0].1.i !in SeenBy(k, steps[0].0))
     && NoRepeats(Next(k, steps[0].0, steps[0].1), steps[1..]))
  }

  lemma {:induction false} OnceRun(k: Conn, steps: seq<(Side, Action)>, side: Side)
    requires Inv(k) && OnceAt(k, side) && NoRepeats(k, steps)
    ensures OnceAt(Run(k, steps), side)
    decreases |steps|
  {
    hide Inv, Once, Step;
    if steps != [] {
      OnceStep(k, steps[0].0, steps[0].1, side);
      OnceRun(Next(k, steps[0].0, steps[0].1), steps[1..], side);
    }
  }

  /** In every run without repeated delivery the early-arrival queue is in order and without
      overlap, and RCV.NXT, less the peer's FIN if it counts it, is the first byte that has not
      been accepted: every byte before it has been, that byte has not, and whatever else was
      accepted is queued. Until the FIN is counted, bytes that appear on the network again are
      never early. */
  lemma EarlyQueueIsExact(iss: nat, steps: seq<(Side, Action)>, side: Side)
    requires Inv(Init(iss)) && NoRepeats(Init(iss), steps)
    ensures var k := Reached(iss, steps);
            var r := Me(k, side).rcv;
            && Sorted(r.early)
            && (forall e :: e in r.early ==> DataEnd(r) < e.seqNum)
            && (forall b :: r.irs < b < DataEnd(r) ==> Taken(r.taken, b))
            && (forall e :: e in r.taken ==> !(e.seqNum <= DataEnd(r) < e.seqNum + e.len))
            && (forall e :: e in r.taken ==> e.seqNum + e.len <= DataEnd(r) || e in r.early)
            && (!r.finCounted ==> RepeatsAreOld(SentBy(k, Peer(side)), r.nxt))
  {
    hide Inv, Step;
    assert OnceAt(Init(iss), side);
    OnceRun(Init(iss), steps, side);
    assert OnceAt(Reached(iss, steps), side);
    NothingAcceptedIsForgotten(iss, steps, side);
  }
}
