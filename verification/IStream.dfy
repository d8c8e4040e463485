/** The byte buffers of a stream (IStream in mqas/src/core/connect.cpp): appended at the back,
    consumed through an offset, and emptied only once the offset has reached the end. */
module IStream {
  import opened Bytes

  function Total(counts: seq<nat>): nat {
    if counts == [] then 0 else Total(counts[..|counts| - 1]) + counts[|counts| - 1]
  }

  class Stream {
    var buf: seq<u8>
    var bufWritePos: nat
    var readBuf: seq<u8>
    var bufReadPos: nat
    // Everything ever accepted for writing and handed to the transport, received and consumed.
    ghost var accepted: seq<u8>
    ghost var drained: seq<u8>
    ghost var received: seq<u8>
    ghost var consumed: seq<u8>

    ghost function Outgoing(): seq<u8>
      requires bufWritePos <= |buf|
      reads this
    {
      buf[bufWritePos..]
    }

    ghost function Unread(): seq<u8>
      requires bufReadPos <= |readBuf|
      reads this
    {
      readBuf[bufReadPos..]
    }

    // No byte is lost, repeated or reordered, in either direction.
    ghost predicate Valid()
      reads this
    {
      && bufWritePos <= |buf| && bufReadPos <= |readBuf|
      && accepted == drained + Outgoing()
      && received == consumed + Unread()
    }

    constructor ()
      ensures Valid() && Outgoing() == [] && Unread() == [] && accepted == [] && received == []
    {
      buf, bufWritePos, readBuf, bufReadPos := [], 0, [], 0;
      accepted, drained, received, consumed := [], [], [], [];
    }

    /* ---------- writing ---------- */

    method WriteBuf(data: seq<u8>)
      requires Valid()
      modifies this`buf, this`accepted
      ensures Valid() && accepted == old(accepted) + data
      ensures Outgoing() == old(Outgoing()) + data
    {
      if data == [] {
        return;
      }
      buf := buf + data;
      accepted := accepted + data;
    }

    // `wantWrite` is what the transport answers when told there is something to write.
    method Write(data: seq<u8>, wantWrite: bool) returns (ok: bool)
      requires Valid()
      modifies this`buf, this`accepted
      ensures Valid() && ok == (data != [] && wantWrite)
      ensures accepted == old(accepted) + if ok then data else []
      ensures Outgoing() == old(Outgoing()) + if ok then data else []
    {
      if data == [] {
        return false;
      }
      if !wantWrite {
        return false;
      }
      buf := buf + data;
      accepted := accepted + data;
      return true;
    }

    method ReaderRead(count: nat) returns (d: seq<u8>)
      requires Valid()
      modifies this`bufWritePos, this`drained
      ensures Valid() && accepted == old(accepted) && buf == old(buf)
      ensures |d| == if |old(Outgoing())| > count then count else |old(Outgoing())|
      ensures old(Outgoing()) == d + Outgoing() && drained == old(drained) + d
    {
      var rsz := |buf| - bufWritePos;
      var sz := if rsz > count then count else rsz;
      d := buf[bufWritePos..bufWritePos + sz];
      bufWritePos := bufWritePos + sz;
      drained := drained + d;
    }

    function ReaderSize(): (n: int)
      requires Valid()
      reads this
      ensures n == |Outgoing()|
    {
      |buf| - bufWritePos
    }

    // One write event: the transport reads as often and as much as it likes.
    method DoWrite(counts: seq<nat>) returns (d: seq<u8>)
      requires Valid()
      modifies this`buf, this`bufWritePos, this`drained
      ensures Valid() && accepted == old(accepted)
      ensures old(Outgoing()) == d + Outgoing() && drained == old(drained) + d
      ensures |d| == if Total(counts) > |old(Outgoing())| then |old(Outgoing())| else Total(counts)
      ensures Outgoing() == [] ==> buf == [] && bufWritePos == 0
    {
      d := [];
      for i := 0 to |counts|
        invariant Valid() && accepted == old(accepted)
        invariant old(Outgoing()) == d + Outgoing() && drained == old(drained) + d
        invariant |d| == if Total(counts[..i]) > |old(Outgoing())| then |old(Outgoing())| else Total(counts[..i])
      {
        assert counts[..i + 1][..i] == counts[..i];
        var more := ReaderRead(counts[i]);
        d := d + more;
      }
      assert counts[..|counts|] == counts;
      if bufWritePos == |buf| {
        buf := [];
        bufWritePos := 0;
      }
    }

    /* ---------- reading ---------- */

    method AppendUnread(data: seq<u8>)
      requires Valid()
      modifies this`readBuf, this`received
      ensures Valid() && received == old(received) + data && consumed == old(consumed)
      ensures Unread() == old(Unread()) + data
    {
      readBuf := readBuf + data;
      received := received + data;
    }

    // The transport's read callback; `do_read` leads here.
    method ReadFunc(data: seq<u8>)
      requires Valid()
      modifies this`readBuf, this`received
      ensures Valid() && received == old(received) + data && consumed == old(consumed)
      ensures Unread() == old(Unread()) + data
    {
      if |data| == 0 {
        return;
      }
      AppendUnread(data);
    }

    predicate HasUnreadData()
      requires Valid()
      reads this
      ensures HasUnreadData() <==> Unread() != []
    {
      readBuf != [] && bufReadPos < |readBuf|
    }

    function ReadAllNotMove(): (d: seq<u8>)
      requires Valid()
      reads this
      ensures d == Unread()
    {
      if |readBuf| - bufReadPos == 0 then [] else readBuf[bufReadPos..]
    }

    method MoveReadPosUncheck(sz: nat)
      requires Valid() && sz <= |Unread()|
      modifies this`readBuf, this`bufReadPos, this`consumed
      ensures Valid() && received == old(received)
      ensures Unread() == old(Unread())[sz..] && consumed == old(consumed) + old(Unread())[..sz]
      ensures Unread() == [] ==> readBuf == [] && bufReadPos == 0
    {
      consumed := consumed + readBuf[bufReadPos..bufReadPos + sz];
      bufReadPos := bufReadPos + sz;
      if bufReadPos == |readBuf| {
        bufReadPos := 0;
        readBuf := [];
      }
    }

    method Read(sz: nat) returns (d: seq<u8>)
      requires Valid()
      modifies this`readBuf, this`bufReadPos, this`consumed
      ensures Valid() && received == old(received) && consumed == old(consumed) + d
      ensures old(Unread()) == d + Unread()
      ensures |d| == if sz > |old(Unread())| then |old(Unread())| else sz
    {
      var unread := |readBuf| - bufReadPos;
      var rsz := if sz > unread then unread else sz;
      if rsz == 0 {
        return [];
      }
      d := readBuf[bufReadPos..bufReadPos + rsz];
      MoveReadPosUncheck(rsz);
    }

    method ReadAll() returns (d: seq<u8>)
      requires Valid()
      modifies this`readBuf, this`bufReadPos, this`consumed
      ensures Valid() && received == old(received) && consumed == old(consumed) + d
      ensures d == old(Unread()) && Unread() == []
    {
      var rsz := |readBuf| - bufReadPos;
      d := Read(rsz);
    }
  }
}
