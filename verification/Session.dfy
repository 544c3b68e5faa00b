/** Two TCB objects, the network between them, and the two applications. `steps` is the run
    the objects have gone through: every method extends it, and `Valid` says that what the
    objects hold is what that run leads to. So what is proved of runs is proved of them. */
module Session {
  import opened Ring
  import opened TcbModel
  import opened HalfConnection
  import opened Connection
  import opened Runs
  import opened Guarantees
  import opened EndpointModel
  import opened StepEffects

  /** What the TCBs' methods ask of their callers, in any state of any run. */
  lemma AlwaysReady(k: Conn, side: Side)
    requires Inv(k)
    ensures var x := Me(k, side);
            && (x.snd.rtx != [] ==> x.snd.rtx[0].len <= MAX_BUF_SIZE)
            && (!x.snd.cancelled ==> x.snd.una <= x.snd.lbw <= x.snd.una + MAX_BUF_SIZE)
            && (Open(x.state) ==> x.rcv.lbr <= x.rcv.nxt <= x.rcv.lbr + MAX_BUF_SIZE + 1)
            && (x.state == Listen ==> side == Server && SentBy(k, side) == [])
  {
    hide Half;
    if Joined(k, side) {
      HalfReady(Me(k, side).snd, Me(k, Peer(side)).rcv, SentBy(k, side), SentBy(k, Peer(side)));
      HalfBounds(Me(k, Peer(side)).snd, Me(k, side).rcv, SentBy(k, Peer(side)), SentBy(k, side));
    }
  }

  lemma HalfReady(s: Snd, r: Rcv, data: seq<Segment>, acks: seq<Segment>)
    requires Half(s, r, data, acks)
    ensures s.rtx != [] ==> s.rtx[0].len <= MAX_BUF_SIZE
    ensures !s.cancelled ==> s.una <= s.lbw <= s.una + MAX_BUF_SIZE
  {
    assert s.rtx != [] ==> RtxOk(s.rtx[0], s, data);
  }

  lemma HalfBounds(s: Snd, r: Rcv, data: seq<Segment>, acks: seq<Segment>)
    requires Half(s, r, data, acks)
    ensures r.lbr <= r.nxt <= r.lbr + MAX_BUF_SIZE + 1
  {
  }

  /** One more step of a run, seen from the side that takes it. */
  lemma OneStep(iss: nat, steps: seq<(Side, Action)>, side: Side, a: Action)
    ensures var k := Reached(iss, steps);
            var k' := Reached(iss, steps + [(side, a)]);
            && Ready(Me(k, side), a, SentBy(k, Peer(side)))
            && var (t, out) := Local(Me(k, side), a, SentBy(k, Peer(side)));
               && Me(k', side) == t && SentBy(k', side) == SentBy(k, side) + out
               && Me(k', Peer(side)) == Me(k, Peer(side)) && SentBy(k', Peer(side)) == SentBy(k, Peer(side))
  {
    hide Inv, Local;
    InitInv(iss);
    InvReady(Reached(iss, steps), side, a);
    RunSnoc(Init(iss), steps, side, a);
  }

  lemma NextIsReached(iss: nat, steps: seq<(Side, Action)>, side: Side, a: Action)
    ensures Reached(iss, steps + [(side, a)]) == Next(Reached(iss, steps), side, a)
  {
    hide Inv, Step;
    InitInv(iss);
    RunSnoc(Init(iss), steps, side, a);
  }

  /** Only the arrival of a segment looks at the network. */
  lemma StepAlone(t: Tcb, a: Action, incoming: seq<Segment>)
    requires !a.Arrive? && Ready(t, a, incoming)
    ensures Ready(t, a, []) && Local(t, a, []) == Local(t, a, incoming)
  {
  }

  lemma WriteStep(t: Tcb, data: seq<byte>, incoming: seq<Segment>)
    requires Ready(t, Connection.Write(data), incoming)
    ensures var t' := Local(t, Connection.Write(data), incoming).0;
            && Local(t, Connection.Write(data), incoming).1 == []
            && (!Sending(t) ==> t' == t)
            && (Sending(t) ==> var n := Min(Room(t.snd), |data|);
                               t' == t.(snd := WriteChunk(t.snd, data[..n])) && t'.snd.written == t.snd.written + data[..n])
            && (t.snd.una <= t.snd.lbw <= t.snd.una + MAX_BUF_SIZE ==> t.(snd := WriteChunk(t.snd, [])) == t)
  {
    if t.snd.una <= t.snd.lbw <= t.snd.una + MAX_BUF_SIZE {
      StoreNothing(t.snd.buf, t.snd.lbw);
      assert t.snd.written + [] == t.snd.written;
    }
  }

  lemma ReadStep(t: Tcb, amount: nat, incoming: seq<Segment>)
    requires Ready(t, Connection.Read(amount), incoming)
    ensures Local(t, Connection.Read(amount), incoming) ==
            (if Open(t.state) then t.(rcv := ReadChunk(t.rcv, Min(amount, t.rcv.nxt - t.rcv.lbr))) else t, [])
  {
  }

  /** A call of Read in state `t` that leads to `t'` and turns the caller's slice `was` into `data` has added to
      what was read before what it put into the slice, as many bytes as it says, if it says so; has
      met the end of file or blocked exactly when it should; and, but in CLOSING and TIME_WAIT, has
      put into the slice the next bytes that were `written`. */
  ghost predicate HandedOver(t: Tcb, t': Tcb, written: seq<byte>, amount: nat, readAll: bool, res: ReadResult,
                             was: seq<byte>, data: seq<byte>)
  {
    if !Open(t.state) then res == ReadRefused && data == was
    else
      && t.rcv.lbr <= t.rcv.nxt
      && var there := t.rcv.nxt - t.rcv.lbr;
         var n, m := |t.rcv.read|, Min(amount, there);
         && !res.ReadRefused?
         && (res.EndOfFile? <==> t.state == CloseWait && (there == 0 || (readAll && there < amount)))
         && (res.ReadBlocks? <==> t.state != CloseWait && there < amount && (readAll || there == 0))
         && m <= |data| == |was|
         && (res.ReadBytes? || res.ReadBlocks? ==> res.n <= |data| && t'.rcv.read == t.rcv.read + data[..res.n])
         && t'.rcv.read == t.rcv.read + data[..m]
         && data[m..] == was[m..]
         && (!PastFin(t.state) ==> n + m <= |written| && data[..m] == written[n..n + m])
  }

  lemma Continues(t: Tcb, t': Tcb, written: seq<byte>, amount: nat, readAll: bool, res: ReadResult,
                  was: seq<byte>, data: seq<byte>)
    requires Open(t.state) ==> t.rcv.lbr <= t.rcv.nxt && amount <= |was|
    requires if !Open(t.state) then res == ReadRefused && data == was
             else
               var m := Min(amount, t.rcv.nxt - t.rcv.lbr);
               && t' == t.(rcv := ReadChunk(t.rcv, m))
               && data == Load(t.rcv.buf, t.rcv.lbr, m) + was[m..]
               && res == ReadAnswer(t.state, t.rcv, amount, readAll)
    requires t'.state !in {Closing, TimeWait, Closed} ==> t'.rcv.read <= written
    ensures HandedOver(t, t', written, amount, readAll, res, was, data)
  {
    if Open(t.state) {
      ReadAnswerExactly(t.state, t.rcv, amount, readAll);
      var n, m := |t.rcv.read|, Min(amount, t.rcv.nxt - t.rcv.lbr);
      assert data[..m] == Load(t.rcv.buf, t.rcv.lbr, m);
      assert t'.rcv.read[n..] == data[..m];
      if t'.rcv.read <= written {
        assert written[n..n + m] == t'.rcv.read[n..];
      }
    }
  }

  lemma CloseStep(t: Tcb, incoming: seq<Segment>)
    ensures Local(t, Connection.Close, incoming) ==
            if Sending(t) && t.snd.nxt == t.snd.lbw then (CloseConn(t).0, [CloseConn(t).1]) else (t, [])
    ensures CloseConn(t).0.snd.cancelled
  {
  }

  /** A round of Send has sent `out`: all of the stream from where it was to the end of the window or of the data,
      in order, in segments of at most 1360 bytes. */
  ghost predicate SentToTheLimit(s: Snd, s': Snd, out: seq<Segment>) {
    && s'.nxt == (if s.nxt < SendLimit(s) then SendLimit(s) else s.nxt) && s'.burst == 0
    && s.first <= s.nxt <= s'.nxt <= s.first + |s.written|
    && Payloads(out) == s.written[s.nxt - s.first..s'.nxt - s.first]
    && forall g :: g in out ==> 0 < |g.payload| <= 1360
  }

  lemma BurstReachesTheLimit(k: Conn, side: Side)
    requires Inv(k) && Sending(Me(k, side)) && !Me(k, side).snd.probing && Me(k, side).snd.burst == 0
    ensures var x := Me(k, side);
            var (s', out) := EmitAll(Me(Next(k, side, PlanSend), side).snd, x.rcv);
            SentToTheLimit(x.snd, s', out)
  {
    hide Inv, Half, Step, Load, Holds, EmitAll;
    var x := Me(k, side);
    PlanIsToTheLimit(k, side);
    OpenIsJoined(k, side);
    HalfReady(x.snd, Me(k, Peer(side)).rcv, SentBy(k, side), SentBy(k, Peer(side)));
    var plan := Me(Next(k, side, PlanSend), side).snd;
    BurstCarriesThePlan(plan, x.rcv);
    StreamAt(x.snd, Me(k, Peer(side)).rcv, SentBy(k, side), SentBy(k, Peer(side)), plan.burst);
  }

  lemma StreamAt(s: Snd, r: Rcv, data: seq<Segment>, acks: seq<Segment>, n: nat)
    requires Half(s, r, data, acks) && !s.cancelled && !s.probing
    ensures s.first <= s.nxt <= s.lbw == s.first + |s.written|
    ensures s.nxt + n <= s.lbw ==> Load(s.buf, s.nxt, n) == s.written[s.nxt - s.first..s.nxt + n - s.first]
  {
    hide DataOk, AckOk, QueueOk, RcvOk, CrossOk;
    if s.nxt + n <= s.lbw {
      HoldsLoad(s.buf, s.written, s.first, Max(s.una, s.first), s.lbw, s.nxt, n);
    }
  }

  lemma PlannedStillSends(k: Conn, side: Side)
    requires Inv(k) && Sending(Me(k, side))
    ensures var t := Me(Next(k, side, PlanSend), side);
            Sending(t) && t.rcv == Me(k, side).rcv
  {
    hide Inv, Step;
    PlanIsToTheLimit(k, side);
  }

  lemma EmitStep(t: Tcb, incoming: seq<Segment>, sent: seq<Segment>)
    requires Sending(t) && 0 < t.snd.burst
    ensures var (t', out) := Local(t, Connection.SendOne, incoming);
            && Sending(t') && t'.rcv == t.rcv && t'.snd.burst < t.snd.burst
            && EmitAll(t'.snd, t.rcv).0 == EmitAll(t.snd, t.rcv).0
            && sent + EmitAll(t.snd, t.rcv).1 == sent + out + EmitAll(t'.snd, t.rcv).1
  {
    var (t', out) := Local(t, Connection.SendOne, incoming);
    assert sent + (out + EmitAll(t'.snd, t.rcv).1) == sent + out + EmitAll(t'.snd, t.rcv).1;
  }

  lemma NothingLeft(s: Snd, r: Rcv, sent: seq<Segment>)
    requires s.burst == 0
    ensures EmitAll(s, r) == (s, []) && sent + EmitAll(s, r).1 == sent
  {
  }

  lemma TimeoutStep(t: Tcb)
    ensures Local(t, Connection.Timeout, []) == OnTimeout(t)
  {
  }

  lemma ArriveStep(t: Tcb, i: nat, newIss: nat, incoming: seq<Segment>)
    requires Ready(t, Arrive(i, newIss), incoming)
    ensures i < |incoming| ==> CanProcess(t, incoming[i])
    ensures Local(t, Arrive(i, newIss), incoming) == if i < |incoming| then OnSegment(t, incoming[i], newIss) else (t, [])
    ensures i < |incoming| && t.state == Listen ==>
              OnSegment(t, incoming[i], newIss) ==
                if incoming[i].syn && !incoming[i].hasAck then HandleListen(t, incoming[i], newIss) else (t, [])
  {
  }

  class Network {
    const client: Endpoint
    var server: Endpoint
    ghost const iss: nat
    ghost var steps: seq<(Side, Action)>

    ghost function Footprint(): set<object>
      reads this
    {
      {this} + client.Parts() + server.Parts()
    }

    ghost predicate Valid()
      reads this, client.Parts(), server.Parts()
    {
      && this !in client.Parts() && this !in server.Parts()
      && client.Parts() !! server.Parts() && client !in server.Parts() && server !in client.Parts()
      && client.Valid() && server.Valid()
      && var k := Reached(iss, steps);
         client.View() == k.c && client.sent == k.cs && server.View() == k.s && server.sent == k.sc
    }

    function At(side: Side): Endpoint
      reads this
    {
      if side == Client then client else server
    }

    ghost function State(): Conn
      reads this
    {
      Reached(iss, steps)
    }

    lemma Frames()
      ensures forall o :: o in client.Parts() ==> allocated(o)
      ensures forall o :: o in server.Parts() ==> allocated(o)
    {
      client.PartsAllocated();
      server.PartsAllocated();
    }

    /** Connect at one end, a listener at the other. */
    constructor (newIss: nat)
      ensures Valid() && fresh(Footprint()) && iss == newIss && steps == []
    {
      hide Endpoint.Valid, Endpoint.View, Endpoint.Parts, Inv;
      var c := new Endpoint.Connect(newIss);
      c.PartsAllocated();
      var l := new Endpoint.Listen();
      l.PartsAllocated();
      client, server, iss, steps := c, l, newIss, [];
      new;
      assert Reached(iss, []) == Init(iss);
    }

    // ---- the applications ----------------------------------------------------

    /** Write takes what there is room for, and that becomes part of the stream. */
    method Write(side: Side, data: seq<byte>) returns (res: WriteResult)
      requires Valid()
      modifies Footprint()
      ensures Valid() && server == old(server) && steps == old(steps) + [(side, Connection.Write(data))]
      ensures var t := old(At(side).View());
              if Connection.Sending(t) then
                && t.snd.una <= t.snd.lbw <= t.snd.una + MAX_BUF_SIZE
                && var n := Min(t.snd.una + MAX_BUF_SIZE - t.snd.lbw, |data|);
                   && res == (if n == |data| then Written(n) else WriteBlocks(n))
                   && At(side).View().snd.written == t.snd.written + data[..n]
              else data == [] || res == WriteRefused
    {
      hide Endpoint.Valid, Endpoint.View, Endpoint.Parts, Reached, Local, Inv;
      Frames();
      AlwaysReady(State(), side);
      OneStep(iss, steps, side, Connection.Write(data));
      WriteStep(At(side).View(), data, At(Peer(side)).sent);
      if At(side).HasClosed() {
        res := WriteRefused;
      } else {
        res := At(side).Write(data, false, false);
      }
      steps := steps + [(side, Connection.Write(data))];
    }

    /** Read hands over the next bytes of the peer's stream: whatever the network has done, the
        caller's slice holds what the peer's application wrote there. */
    method Read(side: Side, data: array<byte>, amount: nat, readAll: bool) returns (res: ReadResult)
      requires Valid() && amount <= data.Length && data !in Footprint()
      modifies Footprint(), data
      ensures Valid() && server == old(server) && steps == old(steps) + [(side, Connection.Read(amount))]
      ensures HandedOver(old(At(side).View()), At(side).View(), At(Peer(side)).View().snd.written, amount, readAll, res,
                         old(data[..]), data[..])
    {
      hide Endpoint.Valid, Endpoint.View, Endpoint.Parts, Reached, Local, Inv, HandedOver, Load, ReadAnswer, ReadChunk;
      Frames();
      AlwaysReady(State(), side);
      OneStep(iss, steps, side, Connection.Read(amount));
      ReadStep(At(side).View(), amount, At(Peer(side)).sent);
      ghost var t := At(side).View();
      var st := At(side).Status();
      if Open(st) {
        res := At(side).Read(data, amount, readAll, false, false);
      } else {
        res := ReadRefused;
      }
      steps := steps + [(side, Connection.Read(amount))];
      BytesReadArePrefix(iss, steps, side);
      Continues(t, At(side).View(), At(Peer(side)).View().snd.written, amount, readAll, res, old(data[..]), data[..]);
    }

    /** Close sends the FIN once everything has been sent. */
    method Close(side: Side) returns (done: bool)
      requires Valid()
      modifies Footprint()
      ensures Valid() && server == old(server) && steps == old(steps) + [(side, Connection.Close)]
      ensures done <==> Connection.Sending(old(At(side).View())) && old(At(side).View()).snd.nxt == old(At(side).View()).snd.lbw
      ensures done <==> At(side).View().snd.cancelled && !old(At(side).View()).snd.cancelled
    {
      hide Endpoint.Valid, Endpoint.View, Endpoint.Parts, Reached, Local, Inv;
      Frames();
      OneStep(iss, steps, side, Connection.Close);
      CloseStep(At(side).View(), At(Peer(side)).sent);
      done := false;
      if At(side).Sending() {
        done := At(side).Close();
      }
      steps := steps + [(side, Connection.Close)];
    }

    // ---- the goroutines and timers -------------------------------------------

    /** Send decides how much to send. */
    method PlanSend(side: Side)
      requires Valid()
      modifies Footprint()
      ensures Valid() && server == old(server) && steps == old(steps) + [(side, Connection.PlanSend)]
    {
      hide Endpoint.Valid, Endpoint.View, Endpoint.Parts, Reached, Local, Inv;
      Frames();
      OneStep(iss, steps, side, Connection.PlanSend);
      StepAlone(At(side).View(), Connection.PlanSend, At(Peer(side)).sent);
      At(side).PlanSend();
      steps := steps + [(side, Connection.PlanSend)];
    }

    /** Send emits one segment. */
    method SendOne(side: Side)
      requires Valid()
      modifies Footprint()
      ensures Valid() && server == old(server) && steps == old(steps) + [(side, Connection.SendOne)]
    {
      hide Endpoint.Valid, Endpoint.View, Endpoint.Parts, Reached, Local, Inv;
      Frames();
      OneStep(iss, steps, side, Connection.SendOne);
      StepAlone(At(side).View(), Connection.SendOne, At(Peer(side)).sent);
      At(side).SendOne();
      steps := steps + [(side, Connection.SendOne)];
    }

    /** One round of Send's loop: decide, and emit all of it, segment by segment. */
    method SendBurst(side: Side)
      requires Valid() && Connection.Sending(At(side).View()) && !At(side).View().snd.probing && At(side).View().snd.burst == 0
      modifies Footprint()
      ensures Valid() && server == old(server) && old(steps) + [(side, Connection.PlanSend)] <= steps
      ensures old(At(side).sent) <= At(side).sent
      ensures SentToTheLimit(old(At(side).View()).snd, At(side).View().snd, At(side).sent[|old(At(side).sent)|..])
    {
      hide Endpoint.Valid, Endpoint.View, Endpoint.Parts, Reached, Local, EmitAll, Inv, SentToTheLimit, Step;
      ghost var r, was := At(side).View().rcv, At(side).sent;
      ghost var k := State();
      ghost var plan := Me(Next(k, side, Connection.PlanSend), side).snd;
      ghost var all := EmitAll(plan, r);
      Frames();
      PlannedStillSends(k, side);
      BurstReachesTheLimit(k, side);
      NextIsReached(iss, steps, side, Connection.PlanSend);
      PlanSend(side);
      assert was + EmitAll(plan, r).1 == was + all.1;
      assert At(side).View().snd == plan;
      assert At(side).sent == was by { PlanIsToTheLimit(k, side); }
      var left := At(side).BurstLeft();
      while left > 0
        invariant Valid() && server == old(server) && old(steps) + [(side, Connection.PlanSend)] <= steps
        invariant var t := At(side).View(); Connection.Sending(t) && t.rcv == r && left == t.snd.burst
        invariant var rest := EmitAll(At(side).View().snd, r); all.0 == rest.0 && was + all.1 == At(side).sent + rest.1
        decreases left
      {
        EmitStep(At(side).View(), At(Peer(side)).sent, At(side).sent);
        OneStep(iss, steps, side, Connection.SendOne);
        SendOne(side);
        left := At(side).BurstLeft();
      }
      NothingLeft(At(side).View().snd, r, At(side).sent);
      assert At(side).sent[|was|..] == all.1;
    }

    /** The window is closed: start the probe. */
    method StartProbe(side: Side)
      requires Valid()
      modifies Footprint()
      ensures Valid() && server == old(server) && steps == old(steps) + [(side, Connection.StartProbe)]
    {
      hide Endpoint.Valid, Endpoint.View, Endpoint.Parts, Reached, Local, Inv;
      Frames();
      OneStep(iss, steps, side, Connection.StartProbe);
      StepAlone(At(side).View(), Connection.StartProbe, At(Peer(side)).sent);
      At(side).StartProbe();
      steps := steps + [(side, Connection.StartProbe)];
    }

    /** The probe's timer ticks. */
    method SendProbe(side: Side)
      requires Valid()
      modifies Footprint()
      ensures Valid() && server == old(server) && steps == old(steps) + [(side, Connection.SendProbe)]
    {
      hide Endpoint.Valid, Endpoint.View, Endpoint.Parts, Reached, Local, Inv;
      Frames();
      OneStep(iss, steps, side, Connection.SendProbe);
      StepAlone(At(side).View(), Connection.SendProbe, At(Peer(side)).sent);
      At(side).SendProbe();
      steps := steps + [(side, Connection.SendProbe)];
    }

    /** The window has reopened. */
    method StopProbe(side: Side)
      requires Valid()
      modifies Footprint()
      ensures Valid() && server == old(server) && steps == old(steps) + [(side, Connection.StopProbe)]
    {
      hide Endpoint.Valid, Endpoint.View, Endpoint.Parts, Reached, Local, Inv;
      Frames();
      OneStep(iss, steps, side, Connection.StopProbe);
      StepAlone(At(side).View(), Connection.StopProbe, At(Peer(side)).sent);
      At(side).StopProbe();
      steps := steps + [(side, Connection.StopProbe)];
    }

    /** The retransmission timer fires. */
    method Timeout(side: Side)
      requires Valid()
      modifies Footprint()
      ensures Valid() && server == old(server) && steps == old(steps) + [(side, Connection.Timeout)]
    {
      hide Endpoint.Valid, Endpoint.View, Endpoint.Parts, Reached, Local, Inv;
      Frames();
      AlwaysReady(State(), side);
      OneStep(iss, steps, side, Connection.Timeout);
      StepAlone(At(side).View(), Connection.Timeout, At(Peer(side)).sent);
      TimeoutStep(At(side).View());
      At(side).Timeout();
      steps := steps + [(side, Connection.Timeout)];
    }

    /** The wait for the peer's last segments is over. */
    method TimeWaitOver(side: Side)
      requires Valid()
      modifies Footprint()
      ensures Valid() && server == old(server) && steps == old(steps) + [(side, Connection.TimeWaitOver)]
    {
      hide Endpoint.Valid, Endpoint.View, Endpoint.Parts, Reached, Local, Inv;
      Frames();
      OneStep(iss, steps, side, Connection.TimeWaitOver);
      StepAlone(At(side).View(), Connection.TimeWaitOver, At(Peer(side)).sent);
      At(side).TimeWaitOver();
      steps := steps + [(side, Connection.TimeWaitOver)];
    }

    // ---- the network ---------------------------------------------------------

    /** The network delivers the i-th segment the peer has ever sent, for the first time or again. */
    method Deliver(side: Side, i: nat, newIss: nat)
      requires Valid()
      modifies Footprint()
      ensures Valid() && fresh({server} - {old(server)}) && steps == old(steps) + [(side, Arrive(i, newIss))]
    {
      hide Endpoint.Valid, Endpoint.View, Endpoint.Parts, Reached, Local, OnSegment, HandleListen, CanProcess, Inv;
      Frames();
      AlwaysReady(State(), side);
      OneStep(iss, steps, side, Arrive(i, newIss));
      ArriveStep(At(side).View(), i, newIss, At(Peer(side)).sent);
      var log := At(Peer(side)).sent;
      if i < |log| {
        var st := At(side).Status();
        if st != Listen {
          At(side).ReceivePacket(log[i], newIss);
        } else if log[i].syn && !log[i].hasAck {
          server := new Endpoint.Spawn(log[i], newIss);
        }
      }
      steps := steps + [(side, Arrive(i, newIss))];
    }
  }
}
