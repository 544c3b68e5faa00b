/** The early-arrival queue as a value: what Push and updateAckNum do to queues with and
    without repeated entries (pkg/tcp/tcp_early_arrivals.go). */
module Coalescing {
  import opened TcbModel

  ghost predicate Sorted(q: seq<Early>) {
    forall i, j :: 0 <= i < j < |q| ==> q[i].seqNum + q[i].len <= q[j].seqNum
  }

  lemma {:induction false} InsertIndexSplits(q: seq<Early>, end: nat)
    requires Sorted(q) && forall e :: e in q ==> 0 < e.len
    ensures var i := InsertIndex(q, end);
            && (forall j :: 0 <= j < i ==> q[j].seqNum < end)
            && (forall j :: i <= j < |q| ==> end <= q[j].seqNum)
  {
    if q != [] && q[0].seqNum < end {
      InsertIndexSplits(q[1..], end);
    } else if q != [] {
      assert forall j :: 0 < j < |q| ==> q[0].seqNum < q[j].seqNum;
    }
  }

  lemma SortedAround(before: seq<Early>, e: Early, after: seq<Early>)
    requires Sorted(before) && Sorted(after)
    requires forall j :: 0 <= j < |before| ==> before[j].seqNum + before[j].len <= e.seqNum
    requires forall j :: 0 <= j < |after| ==> e.seqNum + e.len <= after[j].seqNum
    ensures Sorted(before + [e] + after)
  {
    var p, n := before + [e] + after, |before|;
    assert forall j :: 0 <= j < n ==> p[j] == before[j];
    assert p[n] == e;
    assert forall j :: n < j < |p| ==> p[j] == after[j - n - 1];
  }

  lemma SortedSlices(q: seq<Early>, i: nat)
    requires Sorted(q) && i <= |q|
    ensures Sorted(q[..i]) && Sorted(q[i..])
  {
  }

  lemma SortedTail(q: seq<Early>)
    requires Sorted(q) && q != []
    ensures Sorted(q[1..]) && forall e :: e in q[1..] ==> e in q && q[0].seqNum + q[0].len <= e.seqNum
  {
    forall e | e in q[1..] ensures e in q && q[0].seqNum + q[0].len <= e.seqNum {
      var j :| 0 <= j < |q[1..]| && q[1..][j] == e;
      assert e == q[j + 1];
    }
  }

  /** Pushing an entry that overlaps none keeps the queue in order. */
  lemma PushSorted(q: seq<Early>, e: Early)
    requires Sorted(q) && 0 < e.len && forall d :: d in q ==> 0 < d.len
    requires forall d :: d in q ==> d.seqNum + d.len <= e.seqNum || e.seqNum + e.len <= d.seqNum
    ensures Sorted(Push(q, e))
  {
    hide Sorted, InsertIndex;
    var i := InsertIndex(q, e.seqNum + e.len);
    InsertIndexSplits(q, e.seqNum + e.len);
    SortedSlices(q, i);
    forall j | 0 <= j < |q| ensures if j < i then q[j].seqNum + q[j].len <= e.seqNum else e.seqNum + e.len <= q[j].seqNum {
      assert q[j] in q;
    }
    SortedAround(q[..i], e, q[i..]);
  }

  /** It adds just that entry. */
  lemma PushContents(q: seq<Early>, e: Early)
    ensures multiset(Push(q, e)) == multiset(q) + multiset{e}
  {
    var i := InsertIndex(q, e.seqNum + e.len);
    assert q == q[..i] + q[i..];
  }

  lemma PushMembers(q: seq<Early>, e: Early)
    ensures forall d :: d in Push(q, e) <==> d in q || d == e
  {
    hide Push;
    PushContents(q, e);
    forall d ensures d in Push(q, e) <==> d in q || d == e {
      assert d in Push(q, e) <==> d in multiset(Push(q, e));
    }
  }

  ghost predicate Covered(q: seq<Early>, k: nat) {
    exists e :: e in q && e.seqNum <= k < e.seqNum + e.len
  }

  /** Coalescing an ordered queue leaves only entries beyond a gap. */
  lemma {:induction false} CoalesceStopsAtGap(q: seq<Early>, n: nat)
    requires Sorted(q) && forall e :: e in q ==> 0 < e.len && n <= e.seqNum
    ensures var (q', n') := Coalesce(q, n);
            && Sorted(q')
            && (forall e :: e in q' ==> e in q && n' < e.seqNum)
            && (forall e :: e in q ==> e in q' || e.seqNum + e.len <= n')
  {
    hide Sorted;
    if q != [] {
      SortedTail(q);
      if q[0].seqNum == n {
        CoalesceStopsAtGap(q[1..], n + q[0].len);
      }
    }
  }

  /** It passes only over bytes the queue accounts for. */
  lemma {:induction false} CoalesceCovers(q: seq<Early>, n: nat, k: nat)
    requires n <= k < Coalesce(q, n).1
    ensures Covered(q, k)
  {
    if q != [] && q[0].seqNum == n {
      if n + q[0].len <= k {
        CoalesceCovers(q[1..], n + q[0].len, k);
        var e :| e in q[1..] && e.seqNum <= k < e.seqNum + e.len;
        assert e in q;
      } else {
        assert q[0] in q;
      }
    }
  }

  /** Nothing is lost: an entry that is taken off has been passed over. */
  lemma {:induction false} CoalesceKeeps(q: seq<Early>, n: nat)
    ensures var (q', n') := Coalesce(q, n);
            && n <= n'
            && (forall e :: e in q' ==> e in q)
            && (forall e :: e in q ==> e in q' || e.seqNum + e.len <= n')
  {
    if q != [] && q[0].seqNum == n {
      CoalesceKeeps(q[1..], n + q[0].len);
    }
  }

  // ---- repeated entries ----------------------------------------------------

  /** In order, with repeats: any two entries are the same or do not overlap. */
  ghost predicate SortedWithRepeats(q: seq<Early>) {
    && (forall e :: e in q ==> 0 < e.len)
    && (forall i, j :: 0 <= i < j < |q| ==> q[i] == q[j] || q[i].seqNum + q[i].len <= q[j].seqNum)
  }

  /** No entry straddles `n`. */
  ghost predicate CleanAt(q: seq<Early>, n: nat) {
    forall e :: e in q ==> n <= e.seqNum || e.seqNum + e.len <= n
  }

  /** The first entry lies below `n`: it was left behind. */
  predicate StaleHead(q: seq<Early>, n: nat) {
    q != [] && q[0].seqNum < n
  }

  ghost predicate CoveredFromTo(q: seq<Early>, lo: nat, hi: nat) {
    forall k :: lo <= k < hi ==> Covered(q, k)
  }

  /** Up to the start of an entry, or through the byte after its end. */
  function Reach(e: Early, through: bool): nat {
    if through then e.seqNum + e.len + 1 else e.seqNum
  }

  ghost predicate Repeated(q: seq<Early>, e: Early) {
    multiset(q)[e] >= 2
  }

  /** A repeated entry that the queue accounts for every byte up to, starting at `n`. */
  ghost predicate RepeatedInReach(q: seq<Early>, n: nat, through: bool) {
    exists e :: e in q && Repeated(q, e) && n <= e.seqNum && CoveredFromTo(q, n, Reach(e, through))
  }

  lemma RepeatedTail(q: seq<Early>, e: Early)
    requires q != []
    ensures Repeated(q, e) <==> if e == q[0] then q[0] in q[1..] else Repeated(q[1..], e)
  {
    assert q == [q[0]] + q[1..];
    assert e in q[1..] <==> multiset(q[1..])[e] >= 1;
  }

  lemma CoveredTail(q: seq<Early>, k: nat)
    requires q != []
    ensures Covered(q, k) <==> q[0].seqNum <= k < q[0].seqNum + q[0].len || Covered(q[1..], k)
  {
    assert forall e :: e in q <==> e == q[0] || e in q[1..];
    assert q[0] in q;
  }

  lemma CoveredFromToTail(q: seq<Early>, n: nat, hi: nat)
    requires q != [] && q[0].seqNum == n
    ensures CoveredFromTo(q, n, hi) <==> CoveredFromTo(q[1..], n + q[0].len, hi)
  {
    hide Covered;
    forall k ensures n <= k ==> (Covered(q, k) <==> k < n + q[0].len || Covered(q[1..], k)) {
      if n <= k {
        CoveredTail(q, k);
      }
    }
  }

  lemma TailSorted(q: seq<Early>, n: nat)
    requires SortedWithRepeats(q) && q != [] && q[0].seqNum == n
    ensures SortedWithRepeats(q[1..]) && CleanAt(q[1..], n + q[0].len)
    ensures forall e :: e in q[1..] ==> e == q[0] || n + q[0].len <= e.seqNum
  {
    var t := q[1..];
    assert forall i :: 0 <= i < |t| ==> t[i] == q[i + 1];
    forall e | e in t ensures 0 < e.len && (e == q[0] || n + q[0].len <= e.seqNum) {
      var i :| 0 <= i < |t| && t[i] == e;
      assert e == q[i + 1];
    }
  }

  /** Copies of an entry stand next to each other. */
  lemma RepeatIsNext(q: seq<Early>)
    requires SortedWithRepeats(q) && q != [] && q[0] in q[1..]
    ensures q[1] == q[0]
  {
    var j :| 0 <= j < |q[1..]| && q[1..][j] == q[0];
    assert q[0] == q[j + 1];
    if j > 0 {
      assert q[1] in q;
    }
  }

  /** With the first entry repeated, updateAckNum stops right after it. */
  lemma RepeatStops(q: seq<Early>, n: nat)
    requires SortedWithRepeats(q) && q != [] && q[0].seqNum == n && q[0] in q[1..]
    ensures Coalesce(q, n) == (q[1..], n + q[0].len) && Repeated(q, q[0])
  {
    RepeatIsNext(q);
    RepeatedTail(q, q[0]);
    assert q[0] in q && q[1..][0] == q[1];
  }

  /** Taking off the first entry leaves behind just the repeats the queue had in reach, but for a
      repeat of that very entry. */
  lemma TailRepeats(q: seq<Early>, n: nat, through: bool)
    requires SortedWithRepeats(q) && q != [] && q[0].seqNum == n && q[0] !in q[1..]
    ensures RepeatedInReach(q[1..], n + q[0].len, through) <==> RepeatedInReach(q, n, through)
  {
    hide CoveredFromTo, Repeated, SortedWithRepeats;
    var t, m := q[1..], n + q[0].len;
    TailSorted(q, n);
    if RepeatedInReach(q, n, through) {
      var e :| e in q && Repeated(q, e) && n <= e.seqNum && CoveredFromTo(q, n, Reach(e, through));
      RepeatedTail(q, e);
      CoveredFromToTail(q, n, Reach(e, through));
      assert e in t && Repeated(t, e);
    }
    if RepeatedInReach(t, m, through) {
      var e :| e in t && Repeated(t, e) && m <= e.seqNum && CoveredFromTo(t, m, Reach(e, through));
      RepeatedTail(q, e);
      CoveredFromToTail(q, n, Reach(e, through));
    }
  }

  lemma AllBeyond(q: seq<Early>, n: nat)
    requires SortedWithRepeats(q) && q != [] && n < q[0].seqNum
    ensures forall e :: e in q ==> n < e.seqNum
  {
    forall e | e in q ensures n < e.seqNum {
      var i :| 0 <= i < |q| && q[i] == e;
      assert i > 0 ==> q[0] == q[i] || q[0].seqNum + q[0].len <= q[i].seqNum;
    }
  }

  /** The queue is left with an entry below the new acknowledgement number. */
  ghost predicate LeavesStale(q: seq<Early>, n: nat) {
    var (q', n') := Coalesce(q, n);
    exists e :: e in q' && e.seqNum <= n'
  }

  /** When something stale is left behind, exactly: when it was there already, or when an entry
      that updateAckNum comes to is repeated. */
  lemma {:induction false} LeavesStaleExactly(q: seq<Early>, n: nat)
    requires SortedWithRepeats(q)
    ensures LeavesStale(q, n) <==> StaleHead(q, n) || RepeatedInReach(q, n, false)
  {
    hide SortedWithRepeats, RepeatedInReach, LeavesStale;
    if q == [] {
      EmptyQueue(n);
    } else if q[0].seqNum < n {
      StaleStays(q, n);
    } else if q[0].seqNum > n {
      NothingInReach(q, n);
    } else if q[0] in q[1..] {
      RepeatLeavesStale(q, n);
    } else {
      TailSorted(q, n);
      TailRepeats(q, n, false);
      LeavesStaleExactly(q[1..], n + q[0].len);
      LeavesStaleTail(q, n);
      assert q[1..] != [] ==> q[1..][0] in q[1..];
    }
  }

  lemma EmptyQueue(n: nat)
    ensures !LeavesStale([], n) && forall through :: !RepeatedInReach([], n, through)
  {
  }

  lemma StaleStays(q: seq<Early>, n: nat)
    requires StaleHead(q, n)
    ensures LeavesStale(q, n)
  {
    assert q[0] in q;
  }

  lemma LeavesStaleTail(q: seq<Early>, n: nat)
    requires q != [] && q[0].seqNum == n
    ensures LeavesStale(q, n) <==> LeavesStale(q[1..], n + q[0].len)
  {
  }

  lemma RepeatLeavesStale(q: seq<Early>, n: nat)
    requires SortedWithRepeats(q) && q != [] && q[0].seqNum == n && q[0] in q[1..]
    ensures LeavesStale(q, n) && RepeatedInReach(q, n, false)
  {
    hide SortedWithRepeats, CoveredFromTo, Repeated;
    RepeatStops(q, n);
    EmptyRange(q, n);
    assert q[0] in q;
  }

  lemma EmptyRange(q: seq<Early>, n: nat)
    ensures CoveredFromTo(q, n, n)
  {
  }

  lemma NothingInReach(q: seq<Early>, n: nat)
    requires SortedWithRepeats(q) && q != [] && n < q[0].seqNum
    ensures !Covered(q, n) && !LeavesStale(q, n)
    ensures forall through :: !RepeatedInReach(q, n, through)
  {
    AllBeyond(q, n);
    assert !Covered(q, n);
  }

  /** updateAckNum stops at a byte the queue accounts for. */
  ghost predicate StopsShort(q: seq<Early>, n: nat) {
    var (q', n') := Coalesce(q, n);
    Covered(q', n')
  }

  /** When it stops short of the first missing byte, exactly: when a stale entry blocks the way to
      bytes that are there, or when an entry on the way is repeated and bytes follow it. */
  lemma {:induction false} StopsShortExactly(q: seq<Early>, n: nat)
    requires SortedWithRepeats(q) && CleanAt(q, n)
    ensures StopsShort(q, n) <==> (StaleHead(q, n) && Covered(q, n)) || RepeatedInReach(q, n, true)
  {
    hide SortedWithRepeats, CoveredFromTo, CleanAt, Covered;
    if q == [] {
      assert !Covered(q, n) by { NothingCovered(n); }
    } else if q[0].seqNum < n {
      if RepeatedInReach(q, n, true) {
        ReachCovers(q, n);
      }
    } else if q[0].seqNum > n {
      NothingInReach(q, n);
    } else {
      TailSorted(q, n);
      StopsShortExactly(q[1..], n + q[0].len);
      if q[0] in q[1..] {
        RepeatBlocks(q, n);
      } else {
        TailRepeats(q, n, true);
        assert q[1..] != [] ==> q[1] in q[1..];
      }
    }
  }

  lemma NothingCovered(n: nat)
    ensures !Covered([], n)
  {
  }

  lemma ReachCovers(q: seq<Early>, n: nat)
    requires RepeatedInReach(q, n, true)
    ensures Covered(q, n)
  {
  }

  lemma RepeatBlocks(q: seq<Early>, n: nat)
    requires SortedWithRepeats(q) && q != [] && q[0].seqNum == n && q[0] in q[1..]
    ensures StopsShort(q, n) <==> RepeatedInReach(q, n, true)
  {
    hide CoveredFromTo, RepeatedInReach, SortedWithRepeats, Covered;
    RepeatStops(q, n);
    var t, m := q[1..], n + q[0].len;
    CoveredFromToTail(q, n, m + 1);
    OneByte(t, m);
    if RepeatedInReach(q, n, true) {
      ReachPastHead(q, n);
    } else if Covered(t, m) {
      HeadInReach(q, n);
    }
  }

  lemma ReachPastHead(q: seq<Early>, n: nat)
    requires SortedWithRepeats(q) && q != [] && q[0].seqNum == n && RepeatedInReach(q, n, true)
    ensures CoveredFromTo(q, n, n + q[0].len + 1)
  {
    hide CoveredFromTo, Repeated, SortedWithRepeats;
    var e :| e in q && Repeated(q, e) && n <= e.seqNum && CoveredFromTo(q, n, Reach(e, true));
    TailSorted(q, n);
    if e != q[0] {
      assert e in q[1..];
    }
    Shorter(q, n, n + q[0].len + 1, Reach(e, true));
  }

  lemma HeadInReach(q: seq<Early>, n: nat)
    requires q != [] && q[0].seqNum == n && Repeated(q, q[0]) && CoveredFromTo(q, n, n + q[0].len + 1)
    ensures RepeatedInReach(q, n, true)
  {
    assert q[0] in q;
  }

  lemma OneByte(q: seq<Early>, n: nat)
    ensures CoveredFromTo(q, n, n + 1) <==> Covered(q, n)
  {
  }

  lemma Shorter(q: seq<Early>, lo: nat, mid: nat, hi: nat)
    requires CoveredFromTo(q, lo, hi) && mid <= hi
    ensures CoveredFromTo(q, lo, mid)
  {
  }

  // ---- pushing among repeats -----------------------------------------------

  lemma {:induction false} InsertIndexAmongRepeats(q: seq<Early>, end: nat)
    requires SortedWithRepeats(q)
    ensures var i := InsertIndex(q, end);
            && (forall j :: 0 <= j < i ==> q[j].seqNum < end)
            && (forall j :: i <= j < |q| ==> end <= q[j].seqNum)
  {
    if q != [] && q[0].seqNum < end {
      SortedTailWithRepeats(q);
      InsertIndexAmongRepeats(q[1..], end);
      assert forall j :: 0 < j < |q| ==> q[j] == q[1..][j - 1];
    } else if q != [] {
      assert forall j :: 0 <= j < |q| ==> q[j] in q;
      assert forall j :: 0 < j < |q| ==> q[0] == q[j] || q[0].seqNum + q[0].len <= q[j].seqNum;
    }
  }

  lemma SortedTailWithRepeats(q: seq<Early>)
    requires SortedWithRepeats(q) && q != []
    ensures SortedWithRepeats(q[1..])
  {
    assert forall i :: 0 <= i < |q[1..]| ==> q[1..][i] == q[i + 1];
  }

  /** Pushing an entry that equals or avoids every other keeps the order. */
  lemma PushAmongRepeats(q: seq<Early>, e: Early)
    requires SortedWithRepeats(q) && 0 < e.len
    requires forall d :: d in q ==> d == e || d.seqNum + d.len <= e.seqNum || e.seqNum + e.len <= d.seqNum
    ensures SortedWithRepeats(Push(q, e))
    ensures forall d :: d in Push(q, e) <==> d in q || d == e
  {
    hide InsertIndex, SortedWithRepeats;
    var i := InsertIndex(q, e.seqNum + e.len);
    InsertIndexAmongRepeats(q, e.seqNum + e.len);
    forall j | 0 <= j < |q| ensures if j < i then q[j] == e || q[j].seqNum + q[j].len <= e.seqNum else e.seqNum + e.len <= q[j].seqNum {
      assert q[j] in q;
    }
    Inserted(q, i, e);
    assert q == q[..i] + q[i..];
  }

  lemma Inserted(q: seq<Early>, i: nat, e: Early)
    requires SortedWithRepeats(q) && 0 < e.len && i <= |q|
    requires forall j :: 0 <= j < i ==> q[j] == e || q[j].seqNum + q[j].len <= e.seqNum
    requires forall j :: i <= j < |q| ==> e.seqNum + e.len <= q[j].seqNum
    ensures SortedWithRepeats(q[..i] + [e] + q[i..])
  {
    var p := q[..i] + [e] + q[i..];
    forall j, k | 0 <= j < k < |p| ensures p[j] == p[k] || p[j].seqNum + p[j].len <= p[k].seqNum {
      if k < i {
        assert p[j] == q[j] && p[k] == q[k];
      } else if i < j {
        assert p[j] == q[j - 1] && p[k] == q[k - 1];
      } else if j < i < k {
        assert p[j] == q[j] && p[k] == q[k - 1];
      }
    }
  }

  lemma CoalesceSorted(q: seq<Early>, n: nat)
    requires SortedWithRepeats(q)
    ensures SortedWithRepeats(Coalesce(q, n).0)
    ensures var (q', n') := Coalesce(q, n); q' != [] ==> q'[0].seqNum != n'
  {
    hide SortedWithRepeats;
    if q != [] && q[0].seqNum == n {
      SortedTailWithRepeats(q);
      CoalesceSorted(q[1..], n + q[0].len);
    }
  }
}
