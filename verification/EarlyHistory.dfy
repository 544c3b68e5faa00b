/** What the early-arrival queue remembers in every run, repeated delivery included: all that
    was ever accepted lies below RCV.NXT or is still queued. And when, exactly, repeated
    delivery keeps RCV.NXT from being the first byte that has not arrived. */
module EarlyHistory {
  import opened Ring
  import opened TcbModel
  import opened HalfConnection
  import opened Connection
  import opened Runs
  import opened Guarantees
  import opened Coalescing

  /** The stretch is the payload of a segment on the network. */
  ghost predicate FromLog(e: Early, data: seq<Segment>) {
    0 < e.len && exists g :: g in data && g.seqNum == e.seqNum && |g.payload| == e.len
  }

  /** Byte k is part of something that was accepted. */
  ghost predicate Taken(taken: set<Early>, k: nat) {
    exists e :: e in taken && e.seqNum <= k < e.seqNum + e.len
  }

  ghost predicate History(r: Rcv, data: seq<Segment>) {
    && SortedWithRepeats(r.early)
    && (r.early != [] ==> r.early[0].seqNum != DataEnd(r))
    && (forall e :: e in r.early ==> e in r.taken)
    && (forall e :: e in r.taken ==> FromLog(e, data))
    && (forall e :: e in r.taken ==> e.seqNum + e.len <= DataEnd(r) || e in r.early)
    && (forall k :: r.irs < k < DataEnd(r) ==> Taken(r.taken, k))
  }

  lemma HistoryStart(r: Rcv, data: seq<Segment>)
    requires r.early == [] && r.taken == {} && r.nxt <= r.irs + 1
    ensures History(r, data)
  {
  }

  lemma HistoryGrows(r: Rcv, data: seq<Segment>, data': seq<Segment>)
    requires History(r, data) && data <= data'
    ensures History(r, data')
  {
    forall e | e in r.taken ensures FromLog(e, data') {
      var g :| g in data && g.seqNum == e.seqNum && |g.payload| == e.len;
      assert g in data';
    }
  }

  /** Segments are cut at common boundaries: two of them are the same stretch or do not overlap,
      and none straddles RCV.NXT. */
  lemma SegmentsAgree(s: Snd, r: Rcv, data: seq<Segment>, a: Early, b: Early)
    requires forall g :: g in data ==> DataOk(g, s, r)
    requires FromLog(a, data) && FromLog(b, data)
    ensures a == b || a.seqNum + a.len <= b.seqNum || b.seqNum + b.len <= a.seqNum
    ensures forall c :: c in s.cuts ==> c <= a.seqNum || a.seqNum + a.len <= c
  {
    var g :| g in data && g.seqNum == a.seqNum && |g.payload| == a.len;
    var h :| h in data && h.seqNum == b.seqNum && |h.payload| == b.len;
    assert DataOk(g, s, r) && DataOk(h, s, r);
  }

  lemma AcceptEarlyHistory(s: Snd, r: Rcv, data: seq<Segment>, g: Segment)
    requires History(r, data) && !r.finCounted && g in data && g.payload != []
    requires forall h :: h in data ==> DataOk(h, s, r)
    requires CanAccept(r, g.seqNum, g.payload) && r.nxt < g.seqNum
    ensures History(Accept(r, g.seqNum, g.payload), data)
  {
    hide DataOk, SortedWithRepeats, FromLog, Store;
    var e := Early(g.seqNum, |g.payload|);
    var r' := Accept(r, g.seqNum, g.payload);
    GivesEntry(g, data);
    forall d | d in r.early ensures d == e || d.seqNum + d.len <= e.seqNum || e.seqNum + e.len <= d.seqNum {
      SegmentsAgree(s, r, data, d, e);
    }
    PushAmongRepeats(r.early, e);
    PushHead(r.early, e);
    TakenGrows(r.taken, e);
  }

  lemma GivesEntry(g: Segment, data: seq<Segment>)
    requires g in data && g.payload != []
    ensures FromLog(Early(g.seqNum, |g.payload|), data)
  {
  }

  lemma TakenGrows(taken: set<Early>, e: Early)
    ensures forall k: nat :: Taken(taken, k) ==> Taken(taken + {e}, k)
    ensures forall k :: e.seqNum <= k < e.seqNum + e.len ==> Taken(taken + {e}, k)
  {
    forall k: nat | Taken(taken, k) ensures Taken(taken + {e}, k) {
      var d :| d in taken && d.seqNum <= k < d.seqNum + d.len;
      assert d in taken + {e};
    }
    assert e in taken + {e};
  }

  /** A push changes the head only by a smaller entry, or of an empty queue. */
  lemma PushHead(q: seq<Early>, e: Early)
    ensures Push(q, e) != [] && Push(q, e)[0] == if q != [] && q[0].seqNum < e.seqNum + e.len then q[0] else e
  {
  }

  lemma AcceptInOrderHistory(s: Snd, r: Rcv, data: seq<Segment>, g: Segment)
    requires History(r, data) && !r.finCounted && g in data && g.payload != []
    requires CanAccept(r, g.seqNum, g.payload) && r.nxt == g.seqNum && r.irs < r.nxt
    ensures History(Accept(r, g.seqNum, g.payload), data)
  {
    hide SortedWithRepeats, FromLog, Store;
    var e := Early(g.seqNum, |g.payload|);
    var r' := Accept(r, g.seqNum, g.payload);
    var n := r.nxt + |g.payload|;
    GivesEntry(g, data);
    CoalesceSorted(r.early, n);
    CoalesceKeeps(r.early, n);
    TakenGrows(r.taken, e);
    forall k | r.irs < k < r'.nxt ensures Taken(r'.taken, k) {
      if k >= n {
        CoalesceCovers(r.early, n, k);
        var d :| d in r.early && d.seqNum <= k < d.seqNum + d.len;
        assert d in r'.taken;
      }
    }
  }

  /** What a step of a side can do to its receive half. */
  lemma RcvStep(t: Tcb, a: Action, incoming: seq<Segment>)
    requires Ready(t, a, incoming) && t.state !in {Listen, SynSent}
    requires t.state in {FinWait1, FinWait2} ==> !t.rcv.finCounted
    ensures var r, r' := t.rcv, Local(t, a, incoming).0.rcv;
            || (&& r'.early == r.early && r'.taken == r.taken && r'.irs == r.irs
                && DataEnd(r') == DataEnd(r) && r.nxt <= r'.nxt)
            || (&& a.Arrive? && a.i < |incoming|
                && var g := incoming[a.i];
                   && Receiving(t.state) && g.payload != [] && InWindow(r, g.seqNum) && CanAccept(r, g.seqNum, g.payload)
                   && r' == Accept(r, g.seqNum, g.payload))
  {
    hide Accept, OnAck;
  }

  lemma HistoryKept(x: Tcb, y: Tcb, xy: seq<Segment>, yx: seq<Segment>, a: Action)
    requires Pair(x, y, xy, yx) && Ready(x, a, yx) && History(x.rcv, yx)
    ensures History(Local(x, a, yx).0.rcv, yx)
  {
    hide Local, Half, Accept, DataOk;
    RcvStep(x, a, yx);
    var r, r' := x.rcv, Local(x, a, yx).0.rcv;
    if r'.early == r.early && r'.taken == r.taken && DataEnd(r') == DataEnd(r) && r'.irs == r.irs {
    } else {
      var g := yx[a.i];
      HalfFacts(y.snd, r, yx, xy);
      if g.seqNum == r.nxt {
        AcceptInOrderHistory(y.snd, r, yx, g);
      } else {
        AcceptEarlyHistory(y.snd, r, yx, g);
      }
    }
  }

  lemma HalfFacts(s: Snd, r: Rcv, data: seq<Segment>, acks: seq<Segment>)
    requires Half(s, r, data, acks)
    ensures forall g :: g in data ==> DataOk(g, s, r)
    ensures r.irs < r.lbr <= r.nxt && (!r.finCounted ==> r.nxt in s.cuts)
  {
  }

  ghost predicate HistoryAt(k: Conn, side: Side) {
    History(Me(k, side).rcv, SentBy(k, Peer(side)))
  }

  /** Until the client has heard from the server nothing has been accepted. */
  lemma OpeningHistory(k: Conn, actor: Side, a: Action, side: Side)
    requires Opening(k) && Ready(Me(k, actor), a, SentBy(k, Peer(actor)))
    ensures HistoryAt(Step(k, actor, a), side)
  {
    hide History;
    if a.Arrive? {
      assert a.i < |k.cs| ==> k.cs[a.i] in k.cs;
      assert a.i < |k.sc| ==> k.sc[a.i] in k.sc;
    }
    var k' := Step(k, actor, a);
    HistoryStart(Me(k', side).rcv, SentBy(k', Peer(side)));
  }

  lemma HistoryStep(k: Conn, actor: Side, a: Action, side: Side)
    requires Inv(k) && HistoryAt(k, side)
    ensures HistoryAt(Next(k, actor, a), side)
  {
    hide Half, Local, History;
    InvReady(k, actor, a);
    if !Joined(k, side) {
      OpeningHistory(k, actor, a, side);
    } else if actor == side {
      HistoryKept(Me(k, side), Me(k, Peer(side)), SentBy(k, side), SentBy(k, Peer(side)), a);
    } else {
      HistoryGrows(Me(k, side).rcv, SentBy(k, actor), SentBy(Next(k, actor, a), actor));
    }
  }

  lemma {:induction false} HistoryRun(k: Conn, steps: seq<(Side, Action)>, side: Side)
    requires Inv(k) && HistoryAt(k, side)
    ensures HistoryAt(Run(k, steps), side)
    decreases |steps|
  {
    hide Inv, History, Step;
    if steps != [] {
      HistoryStep(k, steps[0].0, steps[0].1, side);
      HistoryRun(Next(k, steps[0].0, steps[0].1), steps[1..], side);
    }
  }

  /** In every run: the queue is in order, any two entries are the same or disjoint, all that was
      ever accepted lies below RCV.NXT or is queued, and RCV.NXT has passed only over bytes
      that were accepted. */
  lemma NothingAcceptedIsForgotten(iss: nat, steps: seq<(Side, Action)>, side: Side)
    ensures var r := Me(Reached(iss, steps), side).rcv;
            && SortedWithRepeats(r.early)
            && (forall e :: e in r.taken ==> e.seqNum + e.len <= DataEnd(r) || e in r.early)
            && (forall e :: e in r.early ==> e in r.taken)
            && (forall k :: r.irs < k < DataEnd(r) ==> Taken(r.taken, k))
  {
    hide Inv, Step;
    InitInv(iss);
    HistoryStart(Me(Init(iss), side).rcv, SentBy(Init(iss), Peer(side)));
    HistoryRun(Init(iss), steps, side);
    assert HistoryAt(Reached(iss, steps), side);
  }

  // ---- repeated delivery ---------------------------------------------------

  lemma Arrives(t: Tcb, g: Segment, newIss: nat)
    requires Receiving(t.state) && CanProcess(t, g) && !g.fin && g.hasAck && g.payload != [] && InWindow(t.rcv, g.seqNum)
    ensures OnSegment(t, g, newIss).0.rcv == Accept(t.rcv, g.seqNum, g.payload)
  {
    hide Accept, OnAck;
  }

  /** Beyond RCV.NXT, what has been accepted is what is queued. */
  lemma TakenIsQueued(r: Rcv, data: seq<Segment>, k: nat)
    requires History(r, data) && DataEnd(r) <= k
    ensures Taken(r.taken, k) <==> Covered(r.early, k)
  {
  }

  lemma CleanQueue(s: Snd, r: Rcv, data: seq<Segment>, n: nat)
    requires History(r, data) && n in s.cuts && forall g :: g in data ==> DataOk(g, s, r)
    ensures CleanAt(r.early, n)
  {
    hide DataOk, FromLog, SortedWithRepeats;
    forall e | e in r.early ensures n <= e.seqNum || e.seqNum + e.len <= n {
      SegmentsAgree(s, r, data, e, e);
    }
  }

  lemma AcceptExactly(s: Snd, r: Rcv, data: seq<Segment>, g: Segment)
    requires History(r, data) && !r.finCounted && r.irs < r.nxt && g in data && g.payload != []
    requires forall h :: h in data ==> DataOk(h, s, r)
    requires CanAccept(r, g.seqNum, g.payload) && r.nxt == g.seqNum
    ensures var n := r.nxt + |g.payload|;
            var r' := Accept(r, g.seqNum, g.payload);
            && (Taken(r'.taken, r'.nxt) <==> (StaleHead(r.early, n) && Covered(r.early, n)) || RepeatedInReach(r.early, n, true))
            && ((exists e :: e in r'.early && e.seqNum <= r'.nxt) <==> StaleHead(r.early, n) || RepeatedInReach(r.early, n, false))
  {
    hide DataOk, SortedWithRepeats, FromLog, Store, RepeatedInReach;
    var n := r.nxt + |g.payload|;
    assert DataOk(g, s, r);
    assert n in s.cuts by { EndsOnCut(s, r, g); }
    CleanQueue(s, r, data, n);
    AcceptInOrderHistory(s, r, data, g);
    var r' := Accept(r, g.seqNum, g.payload);
    TakenIsQueued(r', data, r'.nxt);
    StopsShortExactly(r.early, n);
    LeavesStaleExactly(r.early, n);
  }

  lemma EndsOnCut(s: Snd, r: Rcv, g: Segment)
    requires DataOk(g, s, r) && g.payload != []
    ensures g.seqNum + |g.payload| in s.cuts && g.hasAck && !g.fin
  {
  }

  /** When a segment arrives in order, in any state of any run, RCV.NXT becomes the first byte that
      has not been accepted, unless a stale entry blocks the way to a byte that has, or an
      entry on the way is repeated and accepted bytes follow it. Something stale is left in the
      queue exactly if it was there before or an entry on the way is repeated. */
  lemma ArrivalIsExact(iss: nat, steps: seq<(Side, Action)>, side: Side, i: nat, newIss: nat)
    requires var k := Reached(iss, steps);
             && Receiving(Me(k, side).state) && i < |SentBy(k, Peer(side))|
             && var r, g := Me(k, side).rcv, SentBy(k, Peer(side))[i];
                g.payload != [] && g.seqNum == r.nxt && 0 < r.wnd
    ensures var k := Reached(iss, steps);
            var r, g := Me(k, side).rcv, SentBy(k, Peer(side))[i];
            var n := r.nxt + |g.payload|;
            var r' := Me(Next(k, side, Arrive(i, newIss)), side).rcv;
            && r'.taken == r.taken + {Early(g.seqNum, |g.payload|)}
            && (forall b :: r.irs < b < r'.nxt ==> Taken(r'.taken, b))
            && (Taken(r'.taken, r'.nxt) <==> (StaleHead(r.early, n) && Covered(r.early, n)) || RepeatedInReach(r.early, n, true))
            && ((exists e :: e in r'.early && e.seqNum <= r'.nxt) <==> StaleHead(r.early, n) || RepeatedInReach(r.early, n, false))
  {
    hide Inv, Half, RepeatedInReach, DataOk, History, Run, OnSegment;
    var k := Reached(iss, steps);
    OpenIsJoined(k, side);
    var x, y := Me(k, side), Me(k, Peer(side));
    var xy, yx := SentBy(k, side), SentBy(k, Peer(side));
    var g := yx[i];
    HistoryHere(iss, steps, side);
    HalfFacts(y.snd, x.rcv, yx, xy);
    EndsOnCut(y.snd, x.rcv, g);
    InvReady(k, side, Arrive(i, newIss));
    Arrives(x, g, newIss);
    AcceptExactly(y.snd, x.rcv, yx, g);
    AcceptInOrderHistory(y.snd, x.rcv, yx, g);
    HistoryCovers(Accept(x.rcv, g.seqNum, g.payload), yx);
  }

  lemma HistoryHere(iss: nat, steps: seq<(Side, Action)>, side: Side)
    ensures HistoryAt(Reached(iss, steps), side)
  {
    hide Inv, History, Step;
    InitInv(iss);
    HistoryStart(Me(Init(iss), side).rcv, SentBy(Init(iss), Peer(side)));
    HistoryRun(Init(iss), steps, side);
  }

  lemma HistoryCovers(r: Rcv, data: seq<Segment>)
    requires History(r, data)
    ensures forall k :: r.irs < k < DataEnd(r) ==> Taken(r.taken, k)
  {
  }

  /** Behind a stale entry nothing is coalesced. */
  lemma StaleAccept(r: Rcv, at: nat, p: seq<byte>)
    requires CanAccept(r, at, p) && p != [] && StaleHead(r.early, r.nxt)
    ensures var r' := Accept(r, at, p);
            && StaleHead(r'.early, r'.nxt) && r'.early[0] == r.early[0]
            && multiset(r.early) <= multiset(r'.early)
            && r'.nxt == if at == r.nxt then r.nxt + |p| else r.nxt
  {
    hide Push, Store;
    PushHead(r.early, Early(at, |p|));
    PushContents(r.early, Early(at, |p|));
  }

  /** Once there is a stale entry at the head it stays for good, with all that is queued behind it:
      from then on nothing is coalesced, and RCV.NXT moves only with segments that arrive in
      order. */
  lemma {:induction false} StaleHeadStays(k: Conn, steps: seq<(Side, Action)>, side: Side)
    requires Inv(k) && StaleHead(Me(k, side).rcv.early, Me(k, side).rcv.nxt)
    ensures var r, r' := Me(k, side).rcv, Me(Run(k, steps), side).rcv;
            && StaleHead(r'.early, r'.nxt) && r'.early[0] == r.early[0]
            && multiset(r.early) <= multiset(r'.early)
    decreases |steps|
  {
    hide Inv, Local, Accept, CanAccept;
    if steps != [] {
      var (actor, a) := steps[0];
      InvReady(k, actor, a);
      if actor == side {
        QueuedIsOpen(k, side);
        RcvStep(Me(k, side), a, SentBy(k, Peer(side)));
        if a.Arrive? && a.i < |SentBy(k, Peer(side))| {
          var r, g := Me(k, side).rcv, SentBy(k, Peer(side))[a.i];
          if g.payload != [] && CanAccept(r, g.seqNum, g.payload) {
            StaleAccept(r, g.seqNum, g.payload);
          }
        }
      }
      StaleHeadStays(Next(k, actor, a), steps[1..], side);
    }
  }

  lemma QueuedIsOpen(k: Conn, side: Side)
    requires Inv(k) && Me(k, side).rcv.early != []
    ensures Me(k, side).state !in {Listen, SynSent}
    ensures Me(k, side).state in {FinWait1, FinWait2} ==> !Me(k, side).rcv.finCounted
  {
    hide Half;
  }
}
