/** The early-arrival queue of a TCB. */
module EarlyQueue {
  import opened TcbModel

  class EarlyArrivalQueue {
    var entries: seq<Early>

    constructor ()
      ensures entries == []
    {
      entries := [];
    }

    predicate IsEmpty()
      reads this
    {
      |entries| == 0
    }

    function Peek(): Early
      requires !IsEmpty()
      reads this
    {
      entries[0]
    }

    method Pop() returns (e: Early)
      requires !IsEmpty()
      modifies this
      ensures [e] + entries == old(entries)
    {
      e := entries[0];
      entries := entries[1..];
    }

    method Push(e: Early)
      modifies this
      ensures entries == TcbModel.Push(old(entries), e)
    {
      var i := 0;
      while i < |entries| && !(e.seqNum + e.len <= entries[i].seqNum)
        invariant i <= |entries|
        invariant InsertIndex(entries, e.seqNum + e.len) == i + InsertIndex(entries[i..], e.seqNum + e.len)
      {
        assert entries[i..][1..] == entries[i + 1..];
        i := i + 1;
      }
      entries := entries[..i] + [e] + entries[i..];
    }
  }
}
