/** TCP Tahoe, as switched on for a socket (pkg/tcp/tcp_handler_cc.go). */
module CongestionControl {
  import opened TcbModel

  const INIT_CWND := 1360
  const INIT_THRESHOLD := 65535
  const CEILING := MSS_DATA * MSS_DATA + 1

  datatype Cc = Cc(cwnd: nat, ssthresh: nat)

  datatype Event = NewAck | Loss

  const START := Cc(INIT_CWND, INIT_THRESHOLD)

  function Grow(c: Cc): Cc
    requires c.cwnd > 0
  {
    if c.cwnd < c.ssthresh then c.(cwnd := c.cwnd + MSS_DATA)
    else c.(cwnd := c.cwnd + MSS_DATA * MSS_DATA / c.cwnd)
  }

  function Shrink(c: Cc): Cc {
    Cc(INIT_CWND, c.cwnd / 2)
  }

  predicate Bounded(c: Cc) {
    INIT_CWND <= c.cwnd <= CEILING && INIT_CWND / 2 <= c.ssthresh <= CEILING / 2
  }

  lemma Product(c: nat, q: nat)
    requires c >= 1 && q >= 1
    ensures c + q <= c * q + 1
  {
    assert (c - 1) * (q - 1) == c * q - c - q + 1;
  }

  /** A quotient and its divisor add up to no more than the dividend plus one. */
  lemma QuotientSum(k: nat, c: nat)
    requires 1 <= c <= k
    ensures 1 <= k / c && c + k / c <= k + 1
  {
    var q := k / c;
    assert k == c * q + k % c;
    if q >= 1 {
      Product(c, q);
    }
  }

  /** In congestion avoidance a new acknowledgement adds the whole number of bytes that comes closest, from
      below, to one segment for every window's worth of acknowledged segments. */
  lemma AvoidanceGrowth(c: Cc)
    requires c.ssthresh <= c.cwnd && 0 < c.cwnd
    ensures var d := Grow(c).cwnd - c.cwnd;
            0 <= d && d * c.cwnd <= MSS_DATA * MSS_DATA < (d + 1) * c.cwnd && Grow(c).ssthresh == c.ssthresh
  {
    var k, q := MSS_DATA * MSS_DATA, MSS_DATA * MSS_DATA / c.cwnd;
    assert k == c.cwnd * q + k % c.cwnd;
    assert (q + 1) * c.cwnd == c.cwnd * q + c.cwnd;
  }

  lemma GrowBounded(c: Cc)
    requires Bounded(c)
    ensures Bounded(Grow(c))
    ensures c.cwnd <= Grow(c).cwnd && (Grow(c).cwnd == c.cwnd <==> c.cwnd == CEILING)
  {
    if c.cwnd >= c.ssthresh && c.cwnd < CEILING {
      QuotientSum(MSS_DATA * MSS_DATA, c.cwnd);
    }
  }

  ghost function After(c: Cc, events: seq<Event>): (r: Cc)
    requires Bounded(c)
    ensures Bounded(r)
  {
    if events == [] then c else
      var b := After(c, events[..|events| - 1]);
      match events[|events| - 1]
      case NewAck => (GrowBounded(b); Grow(b))
      case Loss => Shrink(b)
  }

  /** Whatever the acknowledgements and losses, CWND stays between one segment and
      1849601 and SSTHRESH between 680 and 924800: no division by zero, no overflow of 32 bits. */
  lemma WindowsStayBounded(events: seq<Event>)
    ensures 1360 <= After(START, events).cwnd <= 1849601
    ensures 680 <= After(START, events).ssthresh <= 924800
  {
    assert Bounded(After(START, events));
  }

  /** From any reachable state, with no further loss, CWND never decreases, and enough new
      acknowledgements bring it to exactly 1849601, where it stays. */
  lemma {:induction false} LosslessClimb(c: Cc, n: nat)
    requires Bounded(c)
    ensures var w := After(c, seq(n, _ => NewAck)).cwnd;
            && c.cwnd <= w <= CEILING
            && (w == CEILING || w >= c.cwnd + n)
  {
    if n > 0 {
      LosslessClimb(c, n - 1);
      var all := seq(n, _ => NewAck);
      assert all[..n - 1] == seq(n - 1, _ => NewAck);
      GrowBounded(After(c, all[..n - 1]));
    }
  }

  lemma LosslessLimit(events: seq<Event>, n: nat)
    requires n >= CEILING
    ensures After(After(START, events), seq(n, _ => NewAck)).cwnd == 1849601
  {
    LosslessClimb(After(START, events), n);
  }

  /** A loss halves what had been reached into SSTHRESH and restarts slow start, which
      then adds a full segment per acknowledgement until it reaches that half. */
  lemma {:induction false} SlowStartAfterLoss(c: Cc, n: nat)
    requires Bounded(c) && (n > 0 ==> INIT_CWND + (n - 1) * MSS_DATA < c.cwnd / 2)
    ensures After(Shrink(c), seq(n, _ => NewAck)) == Cc(INIT_CWND + n * MSS_DATA, c.cwnd / 2)
  {
    if n > 0 {
      SlowStartAfterLoss(c, n - 1);
      var all := seq(n, _ => NewAck);
      assert all[..n - 1] == seq(n - 1, _ => NewAck);
    }
  }

  /** The congestion fields of a TCB. */
  class Window {
    var cwnd: nat
    var ssthresh: nat

    ghost function View(): Cc
      reads this
    {
      Cc(cwnd, ssthresh)
    }

    constructor SetCcForSocket()
      ensures View() == START && Bounded(View())
    {
      cwnd := INIT_CWND;
      ssthresh := INIT_THRESHOLD;
    }

    method UpdateCwndWindow()
      requires Bounded(View())
      modifies this
      ensures View() == Grow(old(View())) && Bounded(View())
    {
      GrowBounded(View());
      if cwnd < ssthresh {
        cwnd := cwnd + MSS_DATA;
      } else {
        cwnd := cwnd + MSS_DATA * MSS_DATA / cwnd;
      }
    }

    method AfterLoss()
      requires Bounded(View())
      modifies this
      ensures View() == Shrink(old(View())) && Bounded(View())
    {
      ssthresh := cwnd / 2;
      cwnd := INIT_CWND;
    }
  }
}
