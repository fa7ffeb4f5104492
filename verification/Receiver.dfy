// The receiving half of a connection: struct rsock, reassembly of arriving data
// and in-order reading by the application.
module TransportReceiver {
  import opened Common
  import opened TransportTypes

  datatype Slot = Slot(ch: byte, full: bool)

  const EMPTY: Slot := Slot(35, false) // '#'

  datatype Receiver = Receiver(rwnd: int, lastRead: int, prevAck: int, recvBuffer: seq<Slot>)

  function InitReceiver(): Receiver { Receiver(MAX_RBUFFER_SIZE, -1, 0, []) }

  // The number of occupied slots.
  function Filled(b: seq<Slot>): (n: nat)
    ensures n <= |b|
  {
    if b == [] then 0 else (if b[0].full then 1 else 0) + Filled(b[1..])
  }

  function FirstGap(b: seq<Slot>, from: nat): (g: nat)
    requires from <= |b|
    ensures from <= g <= |b|
    ensures forall k :: from <= k < g ==> b[k].full
    ensures g < |b| ==> !b[g].full
    decreases |b| - from
  {
    if from < |b| && b[from].full then FirstGap(b, from + 1) else from
  }

  // --- Storing a data packet ------------------------------------------------

  predicate Old(r: Receiver, p: DataPacket) { p.seqNum < r.prevAck }

  // False while the receiver thread waits for the application to read.
  predicate Fits(r: Receiver, p: DataPacket) {
    p.seqNum + |p.buf| - r.lastRead <= MAX_RBUFFER_SIZE
  }

  function NewSize(r: Receiver, p: DataPacket): nat {
    Max(|r.recvBuffer|, p.seqNum + |p.buf| - 1 - r.lastRead)
  }

  // The deque after resizing and copying the payload to its place.
  function Written(r: Receiver, p: DataPacket): seq<Slot> {
    var start := p.seqNum - r.lastRead - 1;
    seq(NewSize(r, p), k =>
      if start <= k < start + |p.buf| then Slot(p.buf[k - start], true)
      else if 0 <= k < |r.recvBuffer| then r.recvBuffer[k]
      else EMPTY)
  }

  // The deque index where the scan for a gap starts; indices outside the deque
  // are undefined behaviour.
  predicate Storable(r: Receiver, p: DataPacket) {
    && p.seqNum > r.lastRead
    && 0 <= r.prevAck - r.lastRead - 1 <= NewSize(r, p)
  }

  function Store(r: Receiver, p: DataPacket): Receiver
    requires Storable(r, p)
  {
    var b := Written(r, p);
    Receiver(r.rwnd - (Filled(b) - Filled(r.recvBuffer)), r.lastRead,
             FirstGap(b, r.prevAck - r.lastRead - 1) + r.lastRead + 1, b)
  }

  // The acknowledgement sent after a store.
  function AckOf(r: Receiver): AckPacket { AckPacket(r.prevAck, CDiv(r.rwnd, MAX_DATA_SIZE)) }

  // --- Reading --------------------------------------------------------------

  predicate CanRead(r: Receiver, n: nat) { n <= r.prevAck - r.lastRead - 1 }

  // Every slot the read takes is there and filled, as app_recv asserts.
  predicate ReadSafe(r: Receiver, n: nat) {
    n <= |r.recvBuffer| && forall k :: 0 <= k < n ==> r.recvBuffer[k].full
  }

  function ReadBytes(r: Receiver, n: nat): seq<byte>
    requires n <= |r.recvBuffer|
  {
    seq(n, k requires 0 <= k < n => r.recvBuffer[k].ch)
  }

  function AfterRead(r: Receiver, n: nat): Receiver
    requires n <= |r.recvBuffer|
  {
    Receiver(r.rwnd + n, r.lastRead + n, r.prevAck, r.recvBuffer[n..])
  }

  // --- Counting lemmas ------------------------------------------------------

  lemma {:induction false} FilledUpdate(b: seq<Slot>, i: nat, s: Slot)
    requires i < |b| && s.full
    ensures Filled(b[i := s]) == Filled(b) + if b[i].full then 0 else 1
  {
    if i == 0 {
      assert b[i := s][1..] == b[1..];
    } else {
      assert b[i := s][1..] == b[1..][i - 1 := s];
      FilledUpdate(b[1..], i - 1, s);
    }
  }

  lemma {:induction false} FilledConcat(a: seq<Slot>, b: seq<Slot>)
    ensures Filled(a + b) == Filled(a) + Filled(b)
  {
    if a == [] {
      assert a + b == b;
    } else {
      assert (a + b)[1..] == a[1..] + b;
      FilledConcat(a[1..], b);
    }
  }

  lemma {:induction false} FilledUniform(b: seq<Slot>, full: bool)
    requires forall k :: 0 <= k < |b| ==> b[k].full == full
    ensures Filled(b) == if full then |b| else 0
  {
    if b != [] {
      FilledUniform(b[1..], full);
    }
  }

  // --- The mutable socket ---------------------------------------------------

  datatype Handled = Dropped | MustWait | Stored(ack: AckPacket)

  class RecvSocket {
    var rwnd: int
    var lastRead: int
    var prevAck: int
    var recvBuffer: seq<Slot>

    function View(): Receiver
      reads this
    {
      Receiver(rwnd, lastRead, prevAck, recvBuffer)
    }

    constructor ()
      ensures View() == InitReceiver()
    {
      rwnd, lastRead, prevAck, recvBuffer := MAX_RBUFFER_SIZE, -1, 0, [];
    }

    // One attempt to handle a packet; MustWait is where the source pauses and
    // looks again.
    method RecvBufferHandle(dpkt: DataPacket) returns (h: Handled)
      requires !Old(View(), dpkt) && Fits(View(), dpkt) ==> Storable(View(), dpkt)
      modifies this`recvBuffer, this`rwnd, this`prevAck
      ensures h.Dropped? <==> Old(old(View()), dpkt)
      ensures h.MustWait? <==> !Old(old(View()), dpkt) && !Fits(old(View()), dpkt)
      ensures View() == if h.Stored? then Store(old(View()), dpkt) else old(View())
      ensures h.Stored? ==> h.ack == AckOf(View())
    {
      if dpkt.seqNum < prevAck { return Dropped; }
      if dpkt.seqNum + |dpkt.buf| - lastRead > MAX_RBUFFER_SIZE { return MustWait; }
      CopyPayload(dpkt);
      var newAck := ScanForGap();
      prevAck := newAck;
      return Stored(AckPacket(newAck, CDiv(rwnd, MAX_DATA_SIZE)));
    }

    // Resize, then copy byte by byte, counting the slots newly occupied.
    method CopyPayload(dpkt: DataPacket)
      requires Storable(View(), dpkt)
      modifies this`recvBuffer, this`rwnd
      ensures recvBuffer == Written(old(View()), dpkt)
      ensures rwnd == old(rwnd) - (Filled(recvBuffer) - Filled(old(recvBuffer)))
    {
      var size := dpkt.seqNum + |dpkt.buf| - 1 - lastRead;
      if size > |recvBuffer| {
        var fill := seq(size - |recvBuffer|, _ => EMPTY);
        FilledConcat(recvBuffer, fill);
        FilledUniform(fill, false);
        recvBuffer := recvBuffer + fill;
      }
      var start := dpkt.seqNum - lastRead - 1;
      ghost var resized := recvBuffer;
      for i := start to start + |dpkt.buf|
        invariant |recvBuffer| == |resized|
        invariant forall k :: 0 <= k < |recvBuffer| ==>
          recvBuffer[k] == if start <= k < i then Slot(dpkt.buf[k - start], true) else resized[k]
        invariant rwnd == old(rwnd) - (Filled(recvBuffer) - Filled(resized))
      {
        FilledUpdate(recvBuffer, i, Slot(dpkt.buf[i - start], true));
        if !recvBuffer[i].full { rwnd := rwnd - 1; }
        recvBuffer := recvBuffer[i := Slot(dpkt.buf[i - start], true)];
      }
    }

    method ScanForGap() returns (newAck: int)
      requires 0 <= prevAck - lastRead - 1 <= |recvBuffer|
      ensures newAck == FirstGap(recvBuffer, prevAck - lastRead - 1) + lastRead + 1
    {
      var from := prevAck - lastRead - 1;
      newAck := |recvBuffer| + lastRead + 1;
      var i := from;
      while i < |recvBuffer|
        invariant from <= i <= |recvBuffer|
        invariant FirstGap(recvBuffer, from) == FirstGap(recvBuffer, i)
      {
        if !recvBuffer[i].full { return i + lastRead + 1; }
        i := i + 1;
      }
    }

    // One pass of the waiting loop; ok is false where the source pauses.
    method AppRecv(buf: array<byte>, len: nat) returns (ok: bool)
      requires len <= buf.Length
      requires CanRead(View(), len) ==> ReadSafe(View(), len)
      modifies this, buf
      ensures ok == CanRead(old(View()), len)
      ensures View() == if ok then AfterRead(old(View()), len) else old(View())
      ensures ok ==> buf[..len] == ReadBytes(old(View()), len)
      ensures buf[len..] == old(buf[len..])
      ensures !ok ==> buf[..] == old(buf[..])
    {
      ok := !(len > prevAck - lastRead - 1);
      if !ok { return; }
      for i := 0 to len
        invariant recvBuffer == old(recvBuffer)[i..]
        invariant rwnd == old(rwnd) + i && lastRead == old(lastRead) + i && prevAck == old(prevAck)
        invariant forall k :: 0 <= k < i ==> buf[k] == old(recvBuffer)[k].ch
        invariant buf[len..] == old(buf[len..])
      {
        assert recvBuffer[0].full;
        buf[i] := recvBuffer[0].ch;
        recvBuffer := recvBuffer[1..];
        rwnd := rwnd + 1;
        lastRead := lastRead + 1;
      }
    }
  }
}
