/** Loss can always be repaired. From any state of an open connection some continuation reads everything
    written so far at the other end, and it does so even if all that is in flight is lost: it
    delivers only segments that are sent from then on. */
module Recovery {
  import opened Ring
  import opened TcbModel
  import opened HalfConnection
  import opened Connection
  import opened Runs
  import opened Guarantees
  import opened Lifecycle
  import opened CloseFailures
  import opened Coalescing
  import opened EarlyHistory
  import opened StepEffects

  // ---- runs ----------------------------------------------------------------

  lemma {:induction false} RunAppend(k: Conn, first: seq<(Side, Action)>, second: seq<(Side, Action)>)
    requires Inv(k)
    ensures Run(k, first + second) == Run(Run(k, first), second)
    decreases |first|
  {
    hide Inv, Step;
    if first == [] {
      assert first + second == second;
    } else {
      assert (first + second)[1..] == first[1..] + second;
      RunAppend(Next(k, first[0].0, first[0].1), first[1..], second);
    }
  }

  lemma {:induction false} LogsGrow(k: Conn, steps: seq<(Side, Action)>, side: Side)
    requires Inv(k)
    ensures SentBy(k, side) <= SentBy(Run(k, steps), side)
    decreases |steps|
  {
    hide Inv, Local;
    if steps != [] {
      InvReady(k, steps[0].0, steps[0].1);
      LogsGrow(Next(k, steps[0].0, steps[0].1), steps[1..], side);
    }
  }

  lemma OtherSide(k: Conn, side: Side, a: Action)
    requires Inv(k)
    ensures var k' := Next(k, side, a);
            Me(k', Peer(side)) == Me(k, Peer(side)) && SentBy(k', Peer(side)) == SentBy(k, Peer(side))
  {
    hide Inv, Local;
    InvReady(k, side, a);
  }

  /** Nothing is delivered that was sent before. */
  ghost predicate FreshOnly(k: Conn, steps: seq<(Side, Action)>) {
    forall i :: 0 <= i < |steps| && steps[i].1.Arrive? ==> |SentBy(k, Peer(steps[i].0))| <= steps[i].1.i
  }

  lemma FreshAppend(k: Conn, first: seq<(Side, Action)>, second: seq<(Side, Action)>)
    requires Inv(k) && FreshOnly(k, first) && FreshOnly(Run(k, first), second)
    ensures FreshOnly(k, first + second)
  {
    hide Inv, Run;
    var all := first + second;
    LogsGrow(k, first, Client);
    LogsGrow(k, first, Server);
    forall i | 0 <= i < |all| && all[i].1.Arrive? ensures |SentBy(k, Peer(all[i].0))| <= all[i].1.i {
      if i < |first| {
        assert all[i] == first[i];
      } else {
        assert all[i] == second[i - |first|];
      }
    }
  }

  // ---- one round -----------------------------------------------------------

  ghost predicate Up(k: Conn) {
    Inv(k) && k.c.state == Established && k.s.state == Established
  }

  /** The timer has not given up, or has nothing to do. */
  predicate CanTry(s: Snd) {
    s.rtx == [] || s.retries < MAX_RETRANSMISSIONS
  }

  /** The first byte that is not acknowledged. */
  function Frontier(s: Snd): nat {
    Max(s.una, s.first)
  }

  predicate SameStream(s: Snd, s': Snd) {
    s'.first == s.first && s'.lbw == s.lbw && s'.written == s.written
  }

  lemma UpFacts(k: Conn, side: Side)
    requires Up(k)
    ensures var s, r := Me(k, side).snd, Me(k, Peer(side)).rcv;
            && Half(s, r, SentBy(k, side), SentBy(k, Peer(side))) && !s.cancelled && !r.finCounted
            && Contiguous(s, r) && (s.una < s.first ==> s.wnd == MAX_BUF_SIZE)
  {
    hide Half;
    OpenIsJoined(k, side);
  }

  /** The receiver is at least up to what is acknowledged, at most up to what was sent, and on a boundary. */
  lemma Between(s: Snd, r: Rcv, data: seq<Segment>, acks: seq<Segment>)
    requires Half(s, r, data, acks) && !r.finCounted && !s.cancelled
    ensures Frontier(s) <= r.nxt <= s.lbw == s.first + |s.written|
    ensures r.nxt <= s.nxt + (if s.probing then 1 else 0)
    ensures r.lbr <= r.nxt && r.wnd + (r.nxt - r.lbr) == MAX_BUF_SIZE && r.pendingFin == 0
  {
    hide DataOk, AckOk, QueueOk, Holds, EarlyOk;
  }

  /** A segment the receiver has begun it has all of. */
  lemma OldIsWhole(s: Snd, r: Rcv, data: seq<Segment>, acks: seq<Segment>, g: Segment)
    requires Half(s, r, data, acks) && !r.finCounted && g in data && g.payload != [] && g.seqNum < r.nxt
    ensures g.seqNum + |g.payload| <= r.nxt
  {
    hide AckOk, QueueOk, Holds, EarlyOk, CrossOk;
    assert DataOk(g, s, r);
  }

  lemma ReadAll(k: Conn, side: Side)
    requires Up(k)
    ensures var k' := Next(k, side, Read(MAX_BUF_SIZE));
            var x, x' := Me(k, side), Me(k', side);
            && Up(k') && SentBy(k', side) == SentBy(k, side)
            && x'.snd == x.snd && x'.rcv.lbr == x'.rcv.nxt == x.rcv.nxt && x'.rcv.wnd == MAX_BUF_SIZE
  {
    hide Inv, Half, Load;
    UpFacts(k, Peer(side));
    Between(Me(k, Peer(side)).snd, Me(k, side).rcv, SentBy(k, Peer(side)), SentBy(k, side));
    InvReady(k, side, Read(MAX_BUF_SIZE));
    OtherSide(k, side, Read(MAX_BUF_SIZE));
    assert SentBy(k, side) + [] == SentBy(k, side);
  }

  /** A segment with payload at or below what the receiver waits for is on the network, sent last. */
  ghost predicate Offered(k: Conn, side: Side) {
    var log := SentBy(k, side);
    && log != []
    && var g := log[|log| - 1];
       g.payload != [] && Frontier(Me(k, side).snd) <= g.seqNum <= Me(k, Peer(side)).rcv.nxt
  }

  /** By `k'` the receiver has gone beyond what is acknowledged, and has said so. */
  ghost predicate Answers(k: Conn, k': Conn, side: Side) {
    var r, r' := Me(k, Peer(side)).rcv, Me(k', Peer(side)).rcv;
    && Up(k') && Me(k', side) == Me(k, side) && SentBy(k', side) == SentBy(k, side)
    && |SentBy(k', Peer(side))| == |SentBy(k, Peer(side))| + 1
    && PlainlyAcks(SentBy(k', Peer(side))[|SentBy(k, Peer(side))|], Me(k, Peer(side)).snd.nxt, r'.nxt, r'.wnd)
    && Frontier(Me(k, side).snd) < r'.nxt && r.nxt <= r'.nxt && r'.wnd + r'.nxt == MAX_BUF_SIZE + r.nxt
  }

  /** The receiver takes it in and answers. */
  lemma OfferIsAnswered(k: Conn, side: Side)
    requires Up(k) && Offered(k, side)
    requires var r := Me(k, Peer(side)).rcv; r.lbr == r.nxt && r.wnd == MAX_BUF_SIZE
    ensures Answers(k, Next(k, Peer(side), Arrive(|SentBy(k, side)| - 1, 0)), side)
  {
    hide Inv, Half, PlainlyAcks, Step, TakesPayload, InWindow;
    var y := Peer(side);
    var i := |SentBy(k, side)| - 1;
    var s, r, g := Me(k, side).snd, Me(k, y).rcv, SentBy(k, side)[i];
    assert Peer(y) == side;
    UpFacts(k, side);
    Between(s, r, SentBy(k, side), SentBy(k, y));
    DataIsTakenAndAnswered(k, y, i, 0);
    ArrivalStates(k, y, i, 0);
    OtherSide(k, y, Arrive(i, 0));
    NoFinYet(s, r, SentBy(k, side), SentBy(k, y), g);
    MovesPast(s, r, Me(Next(k, y, Arrive(i, 0)), y).rcv, SentBy(k, side), SentBy(k, y), g);
  }

  /** After a segment the receiver waits for, or has, its RCV.NXT lies at or beyond that segment's end. */
  lemma MovesPast(s: Snd, r: Rcv, r': Rcv, data: seq<Segment>, acks: seq<Segment>, g: Segment)
    requires Half(s, r, data, acks) && !r.finCounted && g in data && g.payload != [] && g.seqNum <= r.nxt
    requires TakesPayload(r, r', g) && r.wnd == MAX_BUF_SIZE
    ensures g.seqNum + |g.payload| <= r'.nxt && r.nxt <= r'.nxt && r'.wnd + r'.nxt == MAX_BUF_SIZE + r.nxt
  {
    hide Half;
    if g.seqNum < r.nxt {
      OldIsWhole(s, r, data, acks, g);
    }
  }

  lemma NoFinYet(s: Snd, r: Rcv, data: seq<Segment>, acks: seq<Segment>, g: Segment)
    requires Half(s, r, data, acks) && !s.cancelled && g in data
    ensures !g.fin && 0 < s.first
  {
    assert DataOk(g, s, r);
  }

  /** The answer comes back and is taken. */
  lemma AnswerTaken(k: Conn, side: Side, ack: nat, wnd: nat, seqNum: nat)
    requires Up(k) && SentBy(k, Peer(side)) != []
    requires PlainlyAcks(SentBy(k, Peer(side))[|SentBy(k, Peer(side))| - 1], seqNum, ack, wnd) && wnd <= MAX_BUF_SIZE
    requires Frontier(Me(k, side).snd) < ack && (wnd != 0 || ack <= Me(k, side).snd.nxt)
    ensures var k' := Next(k, side, Arrive(|SentBy(k, Peer(side))| - 1, 0));
            var s, s' := Me(k, side).snd, Me(k', side).snd;
            && Up(k') && Me(k', Peer(side)) == Me(k, Peer(side))
            && SameStream(s, s') && s'.una == ack && CanTry(s')
  {
    hide Inv, Half, Step;
    var j := |SentBy(k, Peer(side))| - 1;
    var s := Me(k, side).snd;
    NewAcksAreTaken(k, side, j, 0);
    ArrivalStates(k, side, j, 0);
    OtherSide(k, side, Arrive(j, 0));
    UpFacts(k, side);
    if s.rtx != [] {
      HeadRepeats(s, Me(k, Peer(side)).rcv, SentBy(k, side), SentBy(k, Peer(side)));
    }
  }

  /** The two together: SND.UNA moves on. */
  lemma Exchange(k: Conn, side: Side) returns (steps: seq<(Side, Action)>)
    requires Up(k) && Offered(k, side)
    requires var r := Me(k, Peer(side)).rcv; r.lbr == r.nxt && r.wnd == MAX_BUF_SIZE
    ensures steps == [(Peer(side), Arrive(|SentBy(k, side)| - 1, 0)), (side, Arrive(|SentBy(k, Peer(side))|, 0))]
    ensures var k' := Run(k, steps);
            && Up(k') && SameStream(Me(k, side).snd, Me(k', side).snd)
            && Frontier(Me(k, side).snd) < Me(k', side).snd.una && CanTry(Me(k', side).snd)
  {
    hide Inv, Half, Step, PlainlyAcks, Run;
    var y := Peer(side);
    OfferIsAnswered(k, side);
    var i := |SentBy(k, side)| - 1;
    var k1 := Next(k, y, Arrive(i, 0));
    UpFacts(k1, side);
    Between(Me(k1, side).snd, Me(k1, y).rcv, SentBy(k1, side), SentBy(k1, y));
    UpFacts(k, side);
    Between(Me(k, side).snd, Me(k, y).rcv, SentBy(k, side), SentBy(k, y));
    var r1 := Me(k1, y).rcv;
    ProbingPointers(Me(k, side).snd, Me(k, y).rcv, SentBy(k, side), SentBy(k, y));
    AnswerTaken(k1, side, r1.nxt, r1.wnd, Me(k, y).snd.nxt);
    var k2 := Next(k1, side, Arrive(|SentBy(k, y)|, 0));
    steps := [(y, Arrive(i, 0)), (side, Arrive(|SentBy(k, y)|, 0))];
    RunOne(k, y, Arrive(i, 0));
    RunSnoc(k, [(y, Arrive(i, 0))], side, Arrive(|SentBy(k, y)|, 0));
    assert steps == [(y, Arrive(i, 0))] + [(side, Arrive(|SentBy(k, y)|, 0))];
  }

  lemma ProbingPointers(s: Snd, r: Rcv, data: seq<Segment>, acks: seq<Segment>)
    requires Half(s, r, data, acks)
    ensures s.probing ==> s.nxt <= s.una && s.nxt < s.lbw
  {
    hide DataOk, AckOk, QueueOk, RcvOk, CrossOk, Holds;
  }

  // ---- putting a segment on the network ------------------------------------

  /** After `k'` the side has offered a segment, and nothing else has changed for the worse. */
  ghost predicate Puts(k: Conn, k': Conn, side: Side) {
    && Up(k') && Offered(k', side)
    && SameStream(Me(k, side).snd, Me(k', side).snd) && Frontier(Me(k', side).snd) == Frontier(Me(k, side).snd)
    && Me(k', Peer(side)) == Me(k, Peer(side)) && SentBy(k', Peer(side)) == SentBy(k, Peer(side))
    && |SentBy(k, side)| < |SentBy(k', side)|
  }

  lemma NothingQueued(s: Snd, r: Rcv, data: seq<Segment>, acks: seq<Segment>)
    requires Half(s, r, data, acks) && Contiguous(s, r) && !r.finCounted && !s.cancelled && s.rtx == []
    ensures s.nxt <= Frontier(s) && s.first <= s.nxt
    ensures !s.probing ==> s.una <= s.nxt && s.nxt + s.burst <= s.lbw
  {
    hide DataOk, AckOk, RcvOk, CrossOk, Holds;
  }

  lemma PutTimer(k: Conn, side: Side)
    requires Up(k) && Me(k, side).snd.rtx != [] && Me(k, side).snd.retries < MAX_RETRANSMISSIONS
    requires Frontier(Me(k, side).snd) < Me(k, side).snd.lbw
    ensures Puts(k, Next(k, side, Timeout), side)
  {
    hide Inv, Half, Step;
    UpFacts(k, side);
    Between(Me(k, side).snd, Me(k, Peer(side)).rcv, SentBy(k, side), SentBy(k, Peer(side)));
    HalfSnd(Me(k, side).snd, Me(k, Peer(side)).rcv, SentBy(k, side), SentBy(k, Peer(side)));
    TimerResends(k, side);
    OtherSide(k, side, Timeout);
  }

  lemma PutData(k: Conn, side: Side)
    requires Up(k) && Me(k, side).snd.rtx == [] && 0 < Me(k, side).snd.burst && !Me(k, side).snd.probing
    requires Me(k, side).snd.nxt == Frontier(Me(k, side).snd)
    ensures Puts(k, Next(k, side, SendOne), side)
  {
    hide Inv, Half, Step;
    UpFacts(k, side);
    Between(Me(k, side).snd, Me(k, Peer(side)).rcv, SentBy(k, side), SentBy(k, Peer(side)));
    SendOneCarriesTheStream(k, side);
    OtherSide(k, side, SendOne);
  }

  lemma PutProbe(k: Conn, side: Side)
    requires Up(k) && Me(k, side).snd.probing && Me(k, side).snd.wnd == 0
    ensures Puts(k, Next(k, side, SendProbe), side)
  {
    hide Inv, Half, Step;
    UpFacts(k, side);
    var s := Me(k, side).snd;
    Between(s, Me(k, Peer(side)).rcv, SentBy(k, side), SentBy(k, Peer(side)));
    HalfSnd(s, Me(k, Peer(side)).rcv, SentBy(k, side), SentBy(k, Peer(side)));
    ProbeTicks(k, side);
    OtherSide(k, side, SendProbe);
  }

  /** A step that only prepares: the side is as far as before, and nothing has been sent. */
  ghost predicate Prepares(k: Conn, k': Conn, side: Side) {
    && Up(k') && SameStream(Me(k, side).snd, Me(k', side).snd)
    && Me(k', side).snd.una == Me(k, side).snd.una && Me(k', side).snd.rtx == Me(k, side).snd.rtx
    && Me(k', Peer(side)) == Me(k, Peer(side))
    && SentBy(k', side) == SentBy(k, side) && SentBy(k', Peer(side)) == SentBy(k, Peer(side))
  }

  lemma PrepareThenPut(k: Conn, side: Side, a: Action, rest: seq<(Side, Action)>)
    requires Inv(k) && Prepares(k, Next(k, side, a), side) && Puts(Next(k, side, a), Run(Next(k, side, a), rest), side)
    ensures Puts(k, Run(k, [(side, a)] + rest), side)
  {
    hide Inv, Step, Offered;
    var steps := [(side, a)] + rest;
    assert steps[1..] == rest;
  }

  lemma RunOne(k: Conn, side: Side, a: Action)
    requires Inv(k)
    ensures Run(k, [(side, a)]) == Next(k, side, a)
  {
    hide Inv, Step;
    assert [(side, a)][1..] == [];
  }

  ghost predicate NoArrivals(steps: seq<(Side, Action)>) {
    forall i :: 0 <= i < |steps| ==> !steps[i].1.Arrive?
  }

  /** With data planned, or a probe running, one step sends. */
  lemma PutNow(k: Conn, side: Side) returns (steps: seq<(Side, Action)>)
    requires Up(k) && Frontier(Me(k, side).snd) < Me(k, side).snd.lbw && Me(k, side).snd.rtx == []
    requires var s := Me(k, side).snd; if s.probing then s.wnd == 0 else 0 < s.burst && s.nxt == Frontier(s)
    ensures NoArrivals(steps) && Puts(k, Run(k, steps), side)
  {
    hide Inv, Step, Puts;
    var a := if Me(k, side).snd.probing then SendProbe else SendOne;
    steps := [(side, a)];
    RunOne(k, side, a);
    if Me(k, side).snd.probing {
      PutProbe(k, side);
    } else {
      PutData(k, side);
    }
  }

  /** With nothing outstanding and nothing under way, Send plans if the window is open, and probes if not. */
  lemma PutIdle(k: Conn, side: Side) returns (steps: seq<(Side, Action)>)
    requires Up(k) && Frontier(Me(k, side).snd) < Me(k, side).snd.lbw && Me(k, side).snd.rtx == []
    requires !Me(k, side).snd.probing && Me(k, side).snd.nxt == Frontier(Me(k, side).snd)
    ensures NoArrivals(steps) && Puts(k, Run(k, steps), side)
  {
    hide Inv, Half, Step, Puts, Run;
    var s := Me(k, side).snd;
    UpFacts(k, side);
    if 0 < s.burst {
      steps := PutNow(k, side);
    } else {
      var a := if s.nxt < SendLimit(s) then PlanSend else StartProbe;
      if s.nxt < SendLimit(s) {
        PlanIsToTheLimit(k, side);
      } else {
        HalfSnd(s, Me(k, Peer(side)).rcv, SentBy(k, side), SentBy(k, Peer(side)));
        ProbeStarts(k, side);
      }
      OtherSide(k, side, a);
      var rest := PutNow(Next(k, side, a), side);
      PrepareThenPut(k, side, a, rest);
      steps := [(side, a)] + rest;
    }
  }

  /** A side that has anything left to deliver can always offer the receiver what it waits for. */
  lemma PutSegment(k: Conn, side: Side) returns (steps: seq<(Side, Action)>)
    requires Up(k) && Frontier(Me(k, side).snd) < Me(k, side).snd.lbw && CanTry(Me(k, side).snd)
    ensures NoArrivals(steps) && Puts(k, Run(k, steps), side)
  {
    hide Inv, Half, Step, Puts, Run;
    var s := Me(k, side).snd;
    UpFacts(k, side);
    if s.rtx != [] {
      steps := [(side, Timeout)];
      RunOne(k, side, Timeout);
      PutTimer(k, side);
    } else {
      NothingQueued(s, Me(k, Peer(side)).rcv, SentBy(k, side), SentBy(k, Peer(side)));
      HalfSnd(s, Me(k, Peer(side)).rcv, SentBy(k, side), SentBy(k, Peer(side)));
      if s.probing && s.wnd == 0 {
        steps := PutNow(k, side);
      } else if s.probing {
        ProbeStops(k, side);
        OtherSide(k, side, StopProbe);
        var rest := PutIdle(Next(k, side, StopProbe), side);
        PrepareThenPut(k, side, StopProbe, rest);
        steps := [(side, StopProbe)] + rest;
      } else {
        steps := PutIdle(k, side);
      }
    }
  }

  // ---- everything ----------------------------------------------------------

  lemma NewArrivals(k: Conn, first: seq<(Side, Action)>, second: seq<(Side, Action)>)
    requires NoArrivals(first) && FreshOnly(k, second)
    ensures FreshOnly(k, first + second)
  {
    var all := first + second;
    assert forall i :: 0 <= i < |first| ==> all[i] == first[i];
    assert forall i :: |first| <= i < |all| ==> all[i] == second[i - |first|];
  }

  /** One round acknowledges at least one byte more. */
  lemma Round(k: Conn, side: Side) returns (steps: seq<(Side, Action)>)
    requires Up(k) && Frontier(Me(k, side).snd) < Me(k, side).snd.lbw && CanTry(Me(k, side).snd)
    ensures FreshOnly(k, steps)
    ensures var k' := Run(k, steps);
            && Up(k') && SameStream(Me(k, side).snd, Me(k', side).snd)
            && Frontier(Me(k, side).snd) < Frontier(Me(k', side).snd) && CanTry(Me(k', side).snd)
  {
    hide Inv, Step, Run, Offered;
    var y := Peer(side);
    assert Peer(y) == side;
    ReadAll(k, y);
    OtherSide(k, y, Read(MAX_BUF_SIZE));
    var k1 := Next(k, y, Read(MAX_BUF_SIZE));
    var put := PutSegment(k1, side);
    var k2 := Run(k1, put);
    var swap := Exchange(k2, side);
    RunAppend(k1, put, swap);
    steps := [(y, Read(MAX_BUF_SIZE))] + (put + swap);
    RunOne(k, y, Read(MAX_BUF_SIZE));
    RunAppend(k, [(y, Read(MAX_BUF_SIZE))], put + swap);
    assert FreshOnly(k1, put + swap) by { NewArrivals(k1, put, swap); }
    FreshAppend(k, [(y, Read(MAX_BUF_SIZE))], put + swap);
  }

  lemma {:induction false} AllAcknowledged(k: Conn, side: Side) returns (steps: seq<(Side, Action)>)
    requires Up(k) && CanTry(Me(k, side).snd)
    ensures FreshOnly(k, steps)
    ensures var k' := Run(k, steps);
            && Up(k') && SameStream(Me(k, side).snd, Me(k', side).snd)
            && Me(k', side).snd.lbw <= Frontier(Me(k', side).snd)
    decreases Me(k, side).snd.lbw - Frontier(Me(k, side).snd)
  {
    hide Inv, Step;
    steps := [];
    if Frontier(Me(k, side).snd) < Me(k, side).snd.lbw {
      var first := Round(k, side);
      var k1 := Run(k, first);
      UpFacts(k1, side);
      var second := AllAcknowledged(k1, side);
      RunAppend(k, first, second);
      FreshAppend(k, first, second);
      steps := first + second;
    }
  }

  /** Whatever has happened, and though everything in flight be lost: while the two sides of a connection are open
      and the timer has not given up, all that either application has written so far can still be
      read by the other. */
  lemma LossIsAlwaysRepaired(k: Conn, side: Side) returns (steps: seq<(Side, Action)>)
    requires Up(k) && CanTry(Me(k, side).snd)
    ensures FreshOnly(k, steps)
    ensures var k' := Run(k, steps);
            Up(k') && Me(k', Peer(side)).rcv.read == Me(k, side).snd.written == Me(k', side).snd.written
  {
    hide Inv, Step, Run, Half, RcvOk;
    var y := Peer(side);
    var before := AllAcknowledged(k, side);
    var k1 := Run(k, before);
    ReadAll(k1, y);
    OtherSide(k1, y, Read(MAX_BUF_SIZE));
    var k2 := Next(k1, y, Read(MAX_BUF_SIZE));
    steps := before + [(y, Read(MAX_BUF_SIZE))];
    RunSnoc(k, before, y, Read(MAX_BUF_SIZE));
    FreshAppend(k, before, [(y, Read(MAX_BUF_SIZE))]);
    UpFacts(k2, side);
    var s, r := Me(k2, side).snd, Me(k2, y).rcv;
    Between(s, r, SentBy(k2, side), SentBy(k2, y));
    HalfRcv(s, r, SentBy(k2, side), SentBy(k2, y));
    RcvBounds(s, r);
    ReadIsStream(s, r);
  }

  // ---- when it cannot ------------------------------------------------------

  /** The side has been closed by its application or by its timer. */
  predicate Over(t: Tcb) {
    t.state == Closed || t.snd.cancelled
  }

  lemma {:induction false} OverStays(k: Conn, steps: seq<(Side, Action)>, side: Side)
    requires Inv(k) && Over(Me(k, side))
    ensures Over(Me(Run(k, steps), side))
    decreases |steps|
  {
    hide Inv, Local;
    if steps != [] {
      var (actor, a) := steps[0];
      InvReady(k, actor, a);
      if actor == side {
        OverStep(k, side, a);
      }
      OverStays(Next(k, actor, a), steps[1..], side);
    }
  }

  lemma OverStep(k: Conn, side: Side, a: Action)
    requires Inv(k) && Over(Me(k, side))
    ensures Over(Me(Next(k, side, a), side))
  {
    hide Inv, Local;
    InvReady(k, side, a);
    if Me(k, side).state == Closed {
      ClosedStep(Me(k, side), a, SentBy(k, Peer(side)));
    } else {
      CancelledIsJoined(k, side);
      CancelledStays(Me(k, side), a, SentBy(k, Peer(side)));
    }
  }

  /** The timer has tried five times in vain, the receiver lacks the first byte that is queued, `f`, and what
      was sent from position `n` of the log on does not bring it. */
  ghost predicate Exhausted(k: Conn, side: Side, f: nat, n: nat) {
    var x, r, log := Me(k, side), Me(k, Peer(side)).rcv, SentBy(k, side);
    && Inv(k) && x.state in {Established, CloseWait}
    && !x.snd.cancelled && x.snd.rtx != [] && x.snd.retries == MAX_RETRANSMISSIONS
    && Frontier(x.snd) == f == r.nxt
    && n <= |log| && forall i :: n <= i < |log| && log[i].payload != [] ==> f < log[i].seqNum
  }

  lemma ExhaustedFacts(s: Snd, r: Rcv, data: seq<Segment>, acks: seq<Segment>)
    requires Half(s, r, data, acks) && Contiguous(s, r) && !s.cancelled && s.rtx != []
    ensures !r.finCounted && s.rtx[0].hdr.seqNum == Frontier(s) < s.nxt && 0 < s.wnd && !s.probing
    ensures forall g :: g in acks && g.hasAck ==> g.ackNum <= r.nxt
  {
    hide DataOk, CrossOk, Holds, EarlyOk;
    FinNotCounted(s, r);
    HeadRepeats(s, r, data, acks);
    assert RtxOk(s.rtx[0], s, data);
    TilesPositive(s.rtx, Start(s.rtx, Top(s)), Top(s), s.rtx[0]);
    forall g | g in acks && g.hasAck ensures g.ackNum <= r.nxt {
      assert AckOk(g, s, r);
    }
  }

  /** A step of the sender: it is over, or the queue and the counter stay, and data it sends is new. */
  lemma SenderStays(t: Tcb, a: Action, incoming: seq<Segment>, f: nat)
    requires Ready(t, a, incoming) && t.state in {Established, CloseWait}
    requires var s := t.snd;
             && !s.cancelled && s.rtx != [] && s.retries == MAX_RETRANSMISSIONS && !s.probing && 0 < s.wnd
             && s.rtx[0].hdr.seqNum == f == Frontier(s) < s.nxt
    requires a.Arrive? && a.i < |incoming| && incoming[a.i].hasAck ==> incoming[a.i].ackNum <= f
    ensures var (t', out) := Local(t, a, incoming);
            Over(t') ||
            (&& t'.state in {Established, CloseWait} && t'.snd.rtx != []
             && t'.snd.retries == MAX_RETRANSMISSIONS && Frontier(t'.snd) == f
             && forall i :: 0 <= i < |out| && out[i].payload != [] ==> f < out[i].seqNum)
  {
    hide Store, Load, Accept;
  }

  lemma ExhaustedStep(k: Conn, actor: Side, a: Action, side: Side, f: nat, n: nat)
    requires Exhausted(k, side, f, n)
    requires actor == Peer(side) && a.Arrive? ==> n <= a.i
    ensures Over(Me(Next(k, actor, a), side)) || Exhausted(Next(k, actor, a), side, f, n)
  {
    hide Inv, Half, Local, RcvOk;
    var y := Peer(side);
    assert Peer(y) == side;
    OpenIsJoined(k, side);
    InvReady(k, actor, a);
    OtherSide(k, actor, a);
    var xy, yx := SentBy(k, side), SentBy(k, y);
    ExhaustedFacts(Me(k, side).snd, Me(k, y).rcv, xy, yx);
    var k' := Next(k, actor, a);
    if actor == side {
      SenderStays(Me(k, side), a, yx, f);
      var out := Local(Me(k, side), a, yx).1;
      assert forall i :: 0 <= i < |xy| ==> (xy + out)[i] == xy[i];
      assert forall i :: |xy| <= i < |xy + out| ==> (xy + out)[i] == out[i - |xy|];
    } else {
      OpenIsJoined(k', side);
      HalfRcv(Me(k', side).snd, Me(k', y).rcv, SentBy(k', side), SentBy(k', y));
      FinNotCounted(Me(k', side).snd, Me(k', y).rcv);
      PeerHears(k, side);
      RcvStep(Me(k, y), a, xy);
      if a.Arrive? && a.i < |xy| && CanAccept(Me(k, y).rcv, xy[a.i].seqNum, xy[a.i].payload) {
        EarlyStays(Me(k, y).rcv, xy[a.i]);
      }
    }
  }

  lemma PeerHears(k: Conn, side: Side)
    requires Inv(k) && Open(Me(k, side).state)
    ensures Me(k, Peer(side)).state !in {Listen, SynSent}
    ensures Me(k, Peer(side)).state in {FinWait1, FinWait2} ==> !Me(k, Peer(side)).rcv.finCounted
  {
    hide Half;
    OpenIsJoined(k, side);
  }

  lemma EarlyStays(r: Rcv, g: Segment)
    requires CanAccept(r, g.seqNum, g.payload)
    ensures r.nxt < g.seqNum ==> Accept(r, g.seqNum, g.payload).nxt == r.nxt
    ensures Accept(r, g.seqNum, g.payload).finCounted == r.finCounted
  {
  }

  /** What was among the first `n` segments a side sent is delivered no more. */
  ghost predicate LostBelow(steps: seq<(Side, Action)>, side: Side, n: nat) {
    forall i :: 0 <= i < |steps| && steps[i].0 == Peer(side) && steps[i].1.Arrive? ==> n <= steps[i].1.i
  }

  lemma {:induction false} ExhaustedRun(k: Conn, steps: seq<(Side, Action)>, side: Side, f: nat, n: nat)
    requires Exhausted(k, side, f, n) && LostBelow(steps, side, n)
    ensures var k' := Run(k, steps);
            Over(Me(k', side)) || Exhausted(k', side, f, n)
    decreases |steps|
  {
    hide Step, Exhausted, Inv, Over;
    assert Inv(k) by { ExhaustedInv(k, side, f, n); }
    if steps != [] {
      var (actor, a) := steps[0];
      ExhaustedStep(k, actor, a, side, f, n);
      var k' := Next(k, actor, a);
      assert forall i :: 0 <= i < |steps[1..]| ==> steps[1..][i] == steps[i + 1];
      if Over(Me(k', side)) {
        OverStays(k', steps[1..], side);
      } else {
        ExhaustedRun(k', steps[1..], side, f, n);
      }
    }
  }

  lemma ExhaustedInv(k: Conn, side: Side, f: nat, n: nat)
    requires Exhausted(k, side, f, n)
    ensures Inv(k)
  {
  }

  /** Once the timer has tried five times in vain, with the first byte it has queued missing at the receiver and
      all in flight lost, that byte never arrives: along every continuation the receiver waits for
      it until the side is closed, by its application or by the timer. */
  lemma NoRepairAfterFiveTries(k: Conn, steps: seq<(Side, Action)>, side: Side)
    requires Up(k) && !CanTry(Me(k, side).snd) && Me(k, Peer(side)).rcv.nxt == Frontier(Me(k, side).snd)
    requires FreshOnly(k, steps)
    ensures var k' := Run(k, steps);
            Over(Me(k', side)) || Me(k', Peer(side)).rcv.nxt == Me(k, Peer(side)).rcv.nxt
  {
    hide Inv, Half, Run;
    UpFacts(k, side);
    HalfSnd(Me(k, side).snd, Me(k, Peer(side)).rcv, SentBy(k, side), SentBy(k, Peer(side)));
    var f, n := Frontier(Me(k, side).snd), |SentBy(k, side)|;
    assert Peer(Peer(side)) == side;
    assert LostBelow(steps, side, n);
    ExhaustedRun(k, steps, side, f, n);
  }

  /** A continuation that keeps the connection, delivers nothing that is in flight, and makes the peer read all
      that has been written. */
  ghost predicate Repairs(k: Conn, steps: seq<(Side, Action)>, side: Side)
    requires Inv(k)
  {
    && FreshOnly(k, steps)
    && var k' := Run(k, steps);
       Up(k') && Me(k', Peer(side)).rcv.read == Me(k, side).snd.written
  }

  lemma {:induction false} FirstStays(k: Conn, steps: seq<(Side, Action)>, side: Side)
    requires Inv(k) && Me(k, side).state != Listen
    ensures Me(Run(k, steps), side).snd.first == Me(k, side).snd.first
    decreases |steps|
  {
    hide Inv, Local;
    if steps != [] {
      var (actor, a) := steps[0];
      InvReady(k, actor, a);
      if actor == side {
        FirstKept(Me(k, side), a, SentBy(k, Peer(side)));
      }
      FirstStays(Next(k, actor, a), steps[1..], side);
    }
  }

  lemma FirstKept(t: Tcb, a: Action, incoming: seq<Segment>)
    requires Ready(t, a, incoming) && t.state != Listen
    ensures var t' := Local(t, a, incoming).0;
            t'.state != Listen && t'.snd.first == t.snd.first
  {
    hide Accept, Store, Load;
  }

  lemma ReadIsTooShort(k: Conn, k': Conn, side: Side)
    requires Up(k) && Up(k') && Me(k', Peer(side)).rcv.nxt < Me(k, side).snd.lbw
    requires Me(k', side).snd.first == Me(k, side).snd.first
    ensures |Me(k', Peer(side)).rcv.read| < |Me(k, side).snd.written|
  {
    hide Inv, Half, RcvOk;
    var y := Peer(side);
    UpFacts(k, side);
    Between(Me(k, side).snd, Me(k, y).rcv, SentBy(k, side), SentBy(k, y));
    UpFacts(k', side);
    HalfRcv(Me(k', side).snd, Me(k', y).rcv, SentBy(k', side), SentBy(k', y));
    RcvBounds(Me(k', side).snd, Me(k', y).rcv);
    ReadIsStream(Me(k', side).snd, Me(k', y).rcv);
  }

  /** So where the first byte outstanding is missing and what is in flight is lost, all can still be repaired if
      and only if the timer has not given up. */
  lemma RepairableExactly(k: Conn, side: Side)
    requires Up(k)
    requires var s := Me(k, side).snd; Me(k, Peer(side)).rcv.nxt == Frontier(s) < s.lbw
    ensures (exists steps :: Repairs(k, steps, side)) <==> CanTry(Me(k, side).snd)
  {
    hide Inv, Run, Half, RcvOk, CanTry, FreshOnly;
    if CanTry(Me(k, side).snd) {
      var steps := LossIsAlwaysRepaired(k, side);
      assert Repairs(k, steps, side);
    } else {
      forall steps ensures !Repairs(k, steps, side) {
        if Repairs(k, steps, side) {
          NoRepairAfterFiveTries(k, steps, side);
          UpFacts(Run(k, steps), side);
          FirstStays(k, steps, side);
          ReadIsTooShort(k, Run(k, steps), side);
          assert false;
        }
      }
    }
  }
}
