/** The circular byte buffer shared by the two halves of a TCB, and its meaning
    as a window onto an unbounded array of bytes indexed by sequence number. */
module Ring {

  /** Buffer size in bytes (pkg/tcp/tcp_handler.go:31). It is 2^16 - 1, not 2^16. */
  const MAX_BUF_SIZE: nat := 65535

  newtype byte = x: int | 0 <= x < 256

  type RingBuf = b: seq<byte> | |b| == MAX_BUF_SIZE witness seq(MAX_BUF_SIZE, _ => 0)

  /** A new buffer, `make([]byte, MAX_BUF_SIZE)`. */
  function EmptyRing(): RingBuf {
    seq(MAX_BUF_SIZE, _ => 0)
  }

  function Min(a: nat, b: nat): nat {
    if a < b then a else b
  }

  function Max(a: nat, b: nat): nat {
    if a < b then b else a
  }

  function SequenceToBufferInd(s: nat): nat {
    s % MAX_BUF_SIZE
  }

  /** The byte the ring holds for sequence number `s`. */
  function At(b: RingBuf, s: nat): byte {
    b[SequenceToBufferInd(s)]
  }

  /** The `n` bytes of the unbounded array starting at sequence number `at`. */
  function Load(b: RingBuf, at: nat, n: nat): (d: seq<byte>)
    ensures |d| == n
  {
    seq(n, i requires 0 <= i < n => At(b, at + i))
  }

  /** How far slot `i` lies beyond the slot of `at`, going round the ring. */
  function Offset(at: nat, i: nat): nat
    requires i < MAX_BUF_SIZE
  {
    var a := SequenceToBufferInd(at);
    if a <= i then i - a else i + MAX_BUF_SIZE - a
  }

  lemma OffsetOfSlot(at: nat, s: nat)
    requires at <= s < at + MAX_BUF_SIZE
    ensures Offset(at, SequenceToBufferInd(s)) == s - at
  {
    var q, a, t := at / MAX_BUF_SIZE, at % MAX_BUF_SIZE, s - at;
    assert s == q * MAX_BUF_SIZE + (a + t);
    if a + t < MAX_BUF_SIZE {
      assert s % MAX_BUF_SIZE == a + t;
    } else {
      assert s == (q + 1) * MAX_BUF_SIZE + (a + t - MAX_BUF_SIZE);
      assert s % MAX_BUF_SIZE == a + t - MAX_BUF_SIZE;
    }
  }

  /** Going once round the ring leads back to the same slot. */
  lemma OneTurn(s: nat)
    ensures SequenceToBufferInd(s + MAX_BUF_SIZE) == SequenceToBufferInd(s)
  {
  }

  /** The ring after writing `d` at sequence number `at`. */
  function Store(b: RingBuf, at: nat, d: seq<byte>): (r: RingBuf)
    requires |d| <= MAX_BUF_SIZE
  {
    seq(MAX_BUF_SIZE, i requires 0 <= i < MAX_BUF_SIZE =>
      if Offset(at, i) < |d| then d[Offset(at, i)] else b[i])
  }

  /** In a window of one buffer length around the write, `Store` is an update of
      the unbounded array: the written range has the new bytes, all else is kept. */
  lemma StoreAt(b: RingBuf, at: nat, d: seq<byte>, s: nat)
    requires |d| <= MAX_BUF_SIZE
    requires at + |d| <= s + MAX_BUF_SIZE && s < at + MAX_BUF_SIZE
    ensures At(Store(b, at, d), s) == if at <= s < at + |d| then d[s - at] else At(b, s)
  {
    if at <= s {
      OffsetOfSlot(at, s);
    } else {
      OneTurn(s);
      OffsetOfSlot(at, s + MAX_BUF_SIZE);
    }
  }

  /** What was stored is what is loaded back. */
  lemma LoadStore(b: RingBuf, at: nat, d: seq<byte>)
    requires |d| <= MAX_BUF_SIZE
    ensures Load(Store(b, at, d), at, |d|) == d
  {
    forall i | 0 <= i < |d| ensures Load(Store(b, at, d), at, |d|)[i] == d[i] {
      StoreAt(b, at, d, at + i);
    }
  }

  /** A store outside `[lo, hi)` and within one turn of it is not seen by a load there. */
  lemma LoadFrame(b: RingBuf, at: nat, d: seq<byte>, lo: nat, n: nat)
    requires |d| <= MAX_BUF_SIZE
    requires (lo + n <= at && at + |d| <= lo + MAX_BUF_SIZE) ||
             (at + |d| <= lo && lo + n <= at + MAX_BUF_SIZE)
    ensures Load(Store(b, at, d), lo, n) == Load(b, lo, n)
  {
    forall i | 0 <= i < n ensures Load(Store(b, at, d), lo, n)[i] == Load(b, lo, n)[i] {
      StoreAt(b, at, d, lo + i);
    }
  }

  /** The ring agrees with stream `w`, whose first byte has sequence number `first`,
      on the sequence numbers from `lo` up to `hi`. */
  ghost predicate Holds(b: RingBuf, w: seq<byte>, first: nat, lo: nat, hi: nat)
    requires first <= lo && hi <= first + |w|
  {
    forall k :: lo <= k < hi ==> At(b, k) == w[k - first]
  }

  lemma HoldsLoad(b: RingBuf, w: seq<byte>, first: nat, lo: nat, hi: nat, at: nat, n: nat)
    requires first <= lo && hi <= first + |w| && Holds(b, w, first, lo, hi)
    requires lo <= at && at + n <= hi
    ensures Load(b, at, n) == w[at - first..at + n - first]
  {
  }

  // ---- the in-place copies -------------------------------------------------

  function Splice(s: seq<byte>, lo: nat, d: seq<byte>): seq<byte>
    requires lo + |d| <= |s|
  {
    s[..lo] + d + s[lo + |d|..]
  }

  lemma SpliceTwice(s: seq<byte>, lo: nat, a: seq<byte>, b: seq<byte>)
    requires lo + |a| + |b| <= |s|
    ensures Splice(Splice(s, lo, a), lo + |a|, b) == Splice(s, lo, a + b)
  {
  }

  /** Go's `copy(dst[lo:], src)` for a source that fits. */
  method CopyAt(dst: array<byte>, lo: nat, src: seq<byte>)
    requires lo + |src| <= dst.Length
    modifies dst
    ensures dst[..] == Splice(old(dst[..]), lo, src)
  {
    var i := 0;
    while i < |src|
      invariant i <= |src|
      invariant forall k :: 0 <= k < dst.Length ==> dst[k] == if lo <= k < lo + i then src[k - lo] else old(dst[k])
    {
      dst[lo + i] := src[i];
      i := i + 1;
    }
  }

  lemma SlotOfSum(at: nat, i: nat)
    requires i <= MAX_BUF_SIZE
    ensures var a := SequenceToBufferInd(at);
            SequenceToBufferInd(at + i) == if a + i < MAX_BUF_SIZE then a + i else a + i - MAX_BUF_SIZE
  {
    if i < MAX_BUF_SIZE {
      OffsetOfSlot(at, at + i);
    } else {
      OneTurn(at);
    }
  }

  /** The piece up to the end of the buffer and the piece from its start make up the range. */
  lemma TwoPieces(b: RingBuf, at: nat, n: nat)
    requires n <= MAX_BUF_SIZE + 1
    ensures var ind := SequenceToBufferInd(at);
            Load(b, at, n) == if ind + n >= MAX_BUF_SIZE then b[ind..] + b[..ind + n - MAX_BUF_SIZE] else b[ind..ind + n]
  {
    var ind := SequenceToBufferInd(at);
    var pieces := if ind + n >= MAX_BUF_SIZE then b[ind..] + b[..ind + n - MAX_BUF_SIZE] else b[ind..ind + n];
    forall i | 0 <= i < n ensures Load(b, at, n)[i] == pieces[i] {
      SlotOfSum(at, i);
    }
  }

  /** The buffer itself. `ring` is what the cells hold. */
  class RingBuffer {
    const cells: array<byte>
    ghost var ring: RingBuf

    ghost predicate Valid()
      reads this, cells
    {
      cells.Length == MAX_BUF_SIZE && ring == cells[..]
    }

    constructor ()
      ensures Valid() && fresh(cells) && ring == EmptyRing()
    {
      cells := new byte[MAX_BUF_SIZE](_ => 0);
      ring := EmptyRing();
    }

    /** The one- or two-piece copy into a buffer that `Write` and `Receive` perform. */
    method CopyIn(at: nat, d: seq<byte>)
      requires Valid() && |d| <= MAX_BUF_SIZE
      modifies this, cells
      ensures Valid() && ring == Store(old(ring), at, d)
    {
      var ind := SequenceToBufferInd(at);
      if ind + |d| >= MAX_BUF_SIZE {
        var toEnd := MAX_BUF_SIZE - ind;
        CopyAt(cells, ind, d[..toEnd]);
        CopyAt(cells, 0, d[toEnd..]);
      } else {
        CopyAt(cells, ind, d);
      }
      assert cells[..] == Store(ring, at, d);
      ring := cells[..];
    }

    /** The one- or two-piece copy out of a buffer that `Send`, the retransmitters
        and the zero-window probe perform. */
    method CopyOut(at: nat, n: nat) returns (d: seq<byte>)
      requires Valid() && n <= MAX_BUF_SIZE
      ensures d == Load(ring, at, n)
    {
      var ind := SequenceToBufferInd(at);
      TwoPieces(ring, at, n);
      if ind + n >= MAX_BUF_SIZE {
        d := cells[ind..] + cells[..ind + n - MAX_BUF_SIZE];
      } else {
        d := cells[ind..ind + n];
      }
    }

    /** The copy of `Read`, into the caller's slice at `off`. One byte more than the
        buffer holds can be asked for, when RCV.NXT counts the peer's FIN. */
    method CopyToUser(at: nat, n: nat, data: array<byte>, off: nat)
      requires Valid() && n <= MAX_BUF_SIZE + 1 && off + n <= data.Length && cells != data
      modifies data
      ensures Valid()
      ensures data[..] == Splice(old(data[..]), off, Load(ring, at, n))
    {
      hide Load, Splice;
      var ind := SequenceToBufferInd(at);
      TwoPieces(ring, at, n);
      if ind + n >= MAX_BUF_SIZE {
        var toEnd := MAX_BUF_SIZE - ind;
        CopyAt(data, off, cells[ind..]);
        CopyAt(data, off + toEnd, cells[..n - toEnd]);
        SpliceTwice(old(data[..]), off, cells[ind..], cells[..n - toEnd]);
      } else {
        CopyAt(data, off, cells[ind..ind + n]);
      }
    }
  }
}
