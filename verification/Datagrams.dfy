/** The two packed datagram queues: IConnect's outgoing one (mqas/src/core/engine.cpp) and
    datagram_buffer (mqas/src/tools/datagram_buffer.cpp). Each keeps its datagrams' bytes back
    to back with a queue of sizes, and is a plain queue of datagrams to its users. */
module Datagrams {
  import opened Bytes
  import opened Wrappers

  function Sum(sizes: seq<nat>): nat {
    if sizes == [] then 0 else sizes[0] + Sum(sizes[1..])
  }

  // The datagrams packed in `bytes`.
  function Unpack(bytes: seq<u8>, sizes: seq<nat>): (d: seq<seq<u8>>)
    requires Sum(sizes) == |bytes|
    ensures |d| == |sizes| && forall i :: 0 <= i < |d| ==> |d[i]| == sizes[i]
  {
    if sizes == [] then [] else [bytes[..sizes[0]]] + Unpack(bytes[sizes[0]..], sizes[1..])
  }

  lemma {:induction false} SumAppend(sizes: seq<nat>, n: nat)
    ensures Sum(sizes + [n]) == Sum(sizes) + n
  {
    if sizes == [] {
      assert [n][1..] == [];
    } else {
      SumAppend(sizes[1..], n);
      assert (sizes + [n])[1..] == sizes[1..] + [n];
    }
  }

  lemma {:induction false} UnpackAppend(bytes: seq<u8>, sizes: seq<nat>, more: seq<u8>)
    requires Sum(sizes) == |bytes|
    ensures Sum(sizes + [|more|]) == |bytes + more|
    ensures Unpack(bytes + more, sizes + [|more|]) == Unpack(bytes, sizes) + [more]
  {
    SumAppend(sizes, |more|);
    var all := sizes + [|more|];
    if sizes == [] {
      assert all[1..] == [] && bytes + more == more && more[..|more|] == more && more[|more|..] == [];
      assert Unpack(bytes + more, all) == [more] + Unpack([], []);
    } else {
      var n := sizes[0];
      UnpackAppend(bytes[n..], sizes[1..], more);
      assert all[1..] == sizes[1..] + [|more|];
      assert (bytes + more)[n..] == bytes[n..] + more && (bytes + more)[..n] == bytes[..n];
    }
  }

  lemma {:induction false} SumOfPositive(sizes: seq<nat>)
    requires forall i :: 0 <= i < |sizes| ==> sizes[i] > 0
    ensures Sum(sizes) == 0 <==> sizes == []
  {
  }

  /* ---------- IConnect ---------- */

  predicate AllPositive(q: seq<i16>) { forall i :: 0 <= i < |q| ==> q[i] > 0 }

  // The sizes in a queue of shorts.
  function Sizes(q: seq<i16>): (r: seq<nat>)
    requires AllPositive(q)
    ensures |r| == |q| && forall i :: 0 <= i < |r| ==> r[i] == q[i]
  {
    seq(|q|, i requires 0 <= i < |q| => q[i] as nat)
  }

  lemma SizesAppend(q: seq<i16>, n: i16)
    requires AllPositive(q) && n > 0
    ensures AllPositive(q + [n]) && Sizes(q + [n]) == Sizes(q) + [n]
  {
  }

  lemma SizesTail(q: seq<i16>)
    requires AllPositive(q) && q != []
    ensures AllPositive(q[1..]) && Sizes(q[1..]) == Sizes(q)[1..]
  {
  }

  // A size survives the conversion to short exactly up to 32767; beyond, it changes.
  lemma ShortIff(n: nat)
    ensures ToI16(n) == n <==> n <= 32767
  {
  }

  // With positive sizes that add up, all bytes are written exactly when no datagram is left:
  // the two conditions under which on_dg_write resets the buffer are one.
  lemma ResetConditionsAgree(buf: seq<u8>, q: seq<i16>, p: nat)
    requires AllPositive(q) && p <= |buf| && Sum(Sizes(q)) == |buf| - p
    ensures p == |buf| <==> q == []
  {
    SumOfPositive(Sizes(q));
  }

  class Connect {
    const datagramSupported: bool
    var datagramBuf: seq<u8>
    var datagramQueue: seq<i16>  // std::queue<short>
    var datagramBufWriteP: nat

    constructor (supported: bool)
      ensures Valid() && Contents() == [] && datagramSupported == supported
    {
      datagramSupported := supported;
      datagramBuf, datagramQueue, datagramBufWriteP := [], [], 0;
    }

    ghost predicate Valid()
      reads this
    {
      && AllPositive(datagramQueue)
      && datagramBufWriteP <= |datagramBuf|
      && Sum(Sizes(datagramQueue)) == |datagramBuf| - datagramBufWriteP
    }

    ghost function Contents(): seq<seq<u8>>
      requires Valid()
      reads this
    {
      Unpack(datagramBuf[datagramBufWriteP..], Sizes(datagramQueue))
    }

    function DatagramBufSize(): (n: int)
      requires Valid()
      reads this
      ensures n == Sum(Sizes(datagramQueue))
    {
      |datagramBuf| - datagramBufWriteP
    }

    // A datagram joins the queue, if it is one at all; its size is kept as a short, so this
    // is a queue exactly as long as no datagram exceeds 32767 bytes.
    method WriteDatagram(data: seq<u8>) returns (ok: bool)
      requires Valid()
      modifies this`datagramBuf, this`datagramQueue
      ensures ok == (data != [] && datagramSupported)
      ensures !ok ==> Valid() && Contents() == old(Contents())
      ensures ok ==> (Valid() <==> |data| <= 32767)
      ensures ok && |data| <= 32767 ==> Contents() == old(Contents()) + [data]
    {
      if data == [] {
        return false;
      }
      if !datagramSupported {
        return false;
      }
      ghost var bytes, q := datagramBuf[datagramBufWriteP..], datagramQueue;
      var n := ToI16(|data|);
      datagramBuf := datagramBuf + data;
      datagramQueue := datagramQueue + [n];
      assert datagramBuf[datagramBufWriteP..] == bytes + data;
      assert datagramQueue[|q|] == n;
      ShortIff(|data|);
      if n > 0 {
        SizesAppend(q, n);
        SumAppend(Sizes(q), n);
        if n == |data| {
          UnpackAppend(bytes, Sizes(q), data);
        }
      }
      return true;
    }

    // The transport asks for the next datagram and gives room for sz bytes. One that does not
    // fit stays, whole.
    method OnDgWrite(sz: nat) returns (d: seq<u8>)
      requires Valid()
      modifies this
      ensures Valid()
      ensures old(Contents()) == [] || |old(Contents())[0]| > sz ==> d == [] && unchanged(this)
      ensures old(Contents()) != [] && |old(Contents())[0]| <= sz ==>
                d == old(Contents())[0] && Contents() == old(Contents())[1..]
      ensures Contents() == [] && d != [] ==> datagramBuf == [] && datagramBufWriteP == 0
    {
      if datagramQueue == [] {
        return [];
      }
      var dgSz: nat := datagramQueue[0];
      if dgSz > sz {
        return [];
      }
      SizesTail(datagramQueue);
      ghost var bytes := datagramBuf[datagramBufWriteP..];
      d := datagramBuf[datagramBufWriteP..datagramBufWriteP + dgSz];
      assert d == bytes[..dgSz];
      datagramBufWriteP := datagramBufWriteP + dgSz;
      datagramQueue := datagramQueue[1..];
      assert datagramBuf[datagramBufWriteP..] == bytes[dgSz..];
      ResetConditionsAgree(datagramBuf, datagramQueue, datagramBufWriteP);
      if datagramBufWriteP == |datagramBuf| || datagramQueue == [] {
        datagramBufWriteP := 0;
        datagramBuf := [];
      }
    }
  }

  /* ---------- datagram_buffer ---------- */

  class DatagramBuffer {
    var splitQueue: seq<nat>
    var buffer: seq<u8>
    var writePos: nat
    var readPos: nat

    constructor ()
      ensures Valid() && Contents() == []
    {
      splitQueue, buffer, writePos, readPos := [], [], 0, 0;
    }

    // The queued sizes span the backing bytes between the two positions; what lies behind
    // the write position is left over from before.
    ghost predicate Valid()
      reads this
    {
      readPos + Sum(splitQueue) == writePos <= |buffer|
    }

    ghost function Contents(): seq<seq<u8>>
      requires Valid()
      reads this
    {
      Unpack(buffer[readPos..writePos], splitQueue)
    }

    method Push(data: seq<u8>)
      requires Valid()
      modifies this
      ensures Valid() && Contents() == old(Contents()) + [data]
      ensures |buffer| >= old(|buffer|)
      ensures old(Contents()) == [] ==> readPos == 0 && writePos == |data|
    {
      if splitQueue == [] {
        writePos := 0;
        readPos := 0;
      }
      ghost var bytes := buffer[readPos..writePos];
      var size := writePos + |data|;
      if |buffer| < size {
        buffer := buffer + seq(size - |buffer|, _ => 0);
      }
      buffer := buffer[..writePos] + data + buffer[size..];
      UnpackAppend(bytes, splitQueue, data);
      writePos := writePos + |data|;
      splitQueue := splitQueue + [|data|];
      assert buffer[readPos..writePos] == bytes + data;
    }

    method Pop() returns (d: Option<seq<u8>>)
      requires Valid()
      modifies this
      ensures Valid() && buffer == old(buffer)
      ensures d == if old(Contents()) == [] then None else Some(old(Contents())[0])
      ensures Contents() == if old(Contents()) == [] then [] else old(Contents())[1..]
    {
      if splitQueue == [] {
        return None;
      }
      ghost var bytes := buffer[readPos..writePos];
      var size := splitQueue[0];
      d := Some(buffer[readPos..readPos + size]);
      assert buffer[readPos..readPos + size] == bytes[..size];
      readPos := readPos + size;
      splitQueue := splitQueue[1..];
      assert buffer[readPos..writePos] == bytes[size..];
    }

    function Count(): (n: nat)
      requires Valid()
      reads this
      ensures n == |Contents()|
    {
      |splitQueue|
    }

    predicate Empty()
      requires Valid()
      reads this
      ensures Empty() <==> Contents() == []
    {
      splitQueue == []
    }
  }
}
