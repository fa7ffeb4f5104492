// The sending half of a connection: struct ssock, the application's send path,
// the rate thread, the timeout thread and the processing of acknowledgements.
module TransportSender {
  import opened Common
  import opened TransportTypes

  // --- Congestion and acknowledgement state ---------------------------------

  datatype Window = Window(
    swnd: int, cwnd: int, rwnd: int, ssthresh: int, cwndCnt: int,
    currAck: int, numDupacks: int)

  function Usable(cwnd: int, rwnd: int): int { Min(Min(cwnd, rwnd), MAX_SWND) }

  function InitWindow(): Window {
    Window(INIT_SWND_SIZE, INIT_CWND_SIZE, PacketsIn(MAX_RBUFFER_SIZE), INIT_SSTHRESH, 0, -1, 0)
  }

  function OnTimeout(w: Window): Window {
    w.(ssthresh := Max(1, w.cwnd / 2), cwnd := 1, swnd := Usable(1, w.rwnd))
  }

  // The acknowledgement that makes update_window retransmit.
  predicate ThirdDuplicate(w: Window, ack: int) {
    w.currAck == ack && w.numDupacks + 1 == 3
  }

  // Whether growing the window divides by cwnd.
  predicate Divides(cwnd: int, ssthresh: int, cwndCnt: int, bytes: int) {
    cwnd >= ssthresh && cwndCnt + bytes >= cwnd
  }

  // Slow start, or additive increase with the remainder carried over: the new
  // (cwnd, cwndCnt) when bytes are newly acknowledged.
  function Grow(cwnd: int, ssthresh: int, cwndCnt: int, bytes: int): (int, int)
    requires Divides(cwnd, ssthresh, cwndCnt, bytes) ==> cwnd != 0
  {
    if cwnd < ssthresh then (cwnd + 1, cwndCnt)
    else
      var credit := cwndCnt + bytes;
      if credit >= cwnd then (cwnd + CDiv(credit, cwnd), CMod(credit, cwnd)) else (cwnd, credit)
  }

  predicate GrowSafe(w: Window, ack: int) {
    w.currAck < ack && Divides(w.cwnd, w.ssthresh, w.cwndCnt, ack - w.currAck) ==> w.cwnd != 0
  }

  function OnDuplicate(w: Window): Window {
    var d := w.(numDupacks := w.numDupacks + 1);
    if d.numDupacks == 3 then
      d.(ssthresh := Max(1, w.cwnd / 2), cwnd := w.ssthresh, swnd := Usable(w.ssthresh, w.rwnd))
    else d
  }

  function OnNewAck(w: Window, a: AckPacket): Window
    requires w.currAck < a.ack && GrowSafe(w, a.ack)
  {
    var (cwnd, cwndCnt) := Grow(w.cwnd, w.ssthresh, w.cwndCnt, a.ack - w.currAck);
    Window(Usable(cwnd, a.rwnd), cwnd, a.rwnd, w.ssthresh, cwndCnt, a.ack, 0)
  }

  function OnAck(w: Window, a: AckPacket): Window
    requires GrowSafe(w, a.ack)
  {
    if w.currAck > a.ack then w
    else if w.currAck == a.ack then OnDuplicate(w)
    else OnNewAck(w, a)
  }

  // --- The whole socket -----------------------------------------------------

  // Where the rate thread is: about to look at the window, or in the unlocked
  // gap before (Fetching) or after (Holding) it took bytes from the send buffer.
  datatype RatePc = Idle | Fetching | Holding(data: seq<byte>)

  datatype Sender = Sender(
    w: Window, basePtr: int, currPtr: int,
    sendBuffer: seq<byte>, pktBuffer: seq<DataPacket>, byteSeqNum: int, pc: RatePc)

  function InitSender(): Sender {
    Sender(InitWindow(), -1, 0, [], [], 0, Idle)
  }

  predicate CanQueue(s: Sender, buf: seq<byte>) {
    |s.sendBuffer| + |buf| <= MAX_SBUFFER_SIZE
  }

  function Queue(s: Sender, buf: seq<byte>): Sender {
    s.(sendBuffer := s.sendBuffer + buf)
  }

  // What the rate thread does in one locked look at the window. Violated means
  // that one of its two assertions fails.
  datatype RateChoice = Stop | Fetch | Resend(pkt: DataPacket) | Violated

  function Choose(s: Sender): RateChoice {
    var offset := s.currPtr - s.basePtr;
    if offset > s.w.swnd then Stop
    else if offset > |s.pktBuffer| || offset < 0 then // compared as unsigned
      if offset == |s.pktBuffer| + 1 then Fetch else Violated
    else if offset >= 1 then Resend(s.pktBuffer[offset - 1])
    else Violated
  }

  function AfterChoice(s: Sender): Sender {
    match Choose(s)
    case Fetch => s.(pc := Fetching)
    case Resend(_) => s.(currPtr := s.currPtr + 1)
    case _ => s
  }

  function ChunkSize(s: Sender): nat { Min(|s.sendBuffer|, MAX_DATA_SIZE) }

  function TakeData(s: Sender): Sender {
    var n := ChunkSize(s);
    s.(sendBuffer := s.sendBuffer[n..], pc := Holding(s.sendBuffer[..n]))
  }

  // Second critical section of the new-packet path: append, send the last packet.
  function Push(s: Sender, data: seq<byte>): Sender {
    s.(pktBuffer := s.pktBuffer + [DataPacket(s.byteSeqNum, data)],
       byteSeqNum := s.byteSeqNum + |data|,
       currPtr := s.currPtr + 1,
       pc := Idle)
  }

  function TimedOut(s: Sender): Sender {
    s.(w := OnTimeout(s.w), currPtr := s.basePtr + 1)
  }

  // The number of packets update_window pops for a new acknowledgement.
  function PopCount(s: Sender, ack: int): int {
    CDiv(ack, MAX_DATA_SIZE) - s.basePtr - 1
  }

  // The pop loop ends without failing its assertion, and no division by zero.
  predicate AckSafe(s: Sender, a: AckPacket) {
    && GrowSafe(s.w, a.ack)
    && (s.w.currAck < a.ack ==> 0 <= PopCount(s, a.ack) <= |s.pktBuffer|)
  }

  function Acked(s: Sender, a: AckPacket): Sender
    requires AckSafe(s, a)
  {
    if s.w.currAck > a.ack then s
    else if s.w.currAck == a.ack then
      s.(w := OnDuplicate(s.w),
         currPtr := if ThirdDuplicate(s.w, a.ack) then s.basePtr + 1 else s.currPtr)
    else
      var base := CDiv(a.ack, MAX_DATA_SIZE) - 1;
      s.(w := OnNewAck(s.w, a), basePtr := base, currPtr := Max(s.currPtr, base + 1),
         pktBuffer := s.pktBuffer[PopCount(s, a.ack)..])
  }

  // --- The mutable socket ---------------------------------------------------

  class SendSocket {
    var swnd: int
    var cwnd: int
    var rwnd: int
    var ssthresh: int
    var cwndCnt: int
    var currAck: int
    var numDupacks: int
    var basePtr: int
    var currPtr: int
    var sendBuffer: seq<byte>
    var pktBuffer: seq<DataPacket>
    var byteSeqNum: int // local variables of the rate thread
    var pc: RatePc

    function View(): Sender
      reads this
    {
      Sender(Window(swnd, cwnd, rwnd, ssthresh, cwndCnt, currAck, numDupacks),
             basePtr, currPtr, sendBuffer, pktBuffer, byteSeqNum, pc)
    }

    constructor ()
      ensures View() == InitSender()
    {
      rwnd := PacketsIn(MAX_RBUFFER_SIZE);
      swnd := INIT_SWND_SIZE;
      cwnd := INIT_CWND_SIZE;
      ssthresh := INIT_SSTHRESH;
      cwndCnt := 0;
      currAck, numDupacks := -1, 0;
      basePtr, currPtr := -1, 0;
      sendBuffer, pktBuffer, byteSeqNum, pc := [], [], 0, Idle;
    }

    // One pass of the waiting loop; ok is false where the source pauses and retries.
    method SendBufferHandle(buf: array<byte>) returns (ok: bool)
      modifies this`sendBuffer
      ensures ok == CanQueue(old(View()), buf[..])
      ensures View() == if ok then Queue(old(View()), buf[..]) else old(View())
    {
      ok := |sendBuffer| + buf.Length <= MAX_SBUFFER_SIZE;
      if !ok { return; }
      for i := 0 to buf.Length
        invariant sendBuffer == old(sendBuffer) + buf[..i]
      {
        sendBuffer := sendBuffer + [buf[i]];
      }
    }

    method GetData() returns (ok: bool)
      requires pc == Fetching
      modifies this`sendBuffer, this`pc
      ensures ok == (old(sendBuffer) != [])
      ensures View() == if ok then TakeData(old(View())) else old(View())
    {
      if sendBuffer == [] { return false; }
      var sz := Min(|sendBuffer|, MAX_DATA_SIZE);
      var ptr := [];
      for i := 0 to sz
        invariant ptr == old(sendBuffer)[..i]
        invariant sendBuffer == old(sendBuffer)[i..]
      {
        ptr := ptr + [sendBuffer[0]];
        sendBuffer := sendBuffer[1..];
      }
      pc := Holding(ptr);
      return true;
    }

    method TimeoutHandler()
      modifies this`ssthresh, this`cwnd, this`swnd, this`currPtr
      ensures View() == TimedOut(old(View()))
    {
      ssthresh := Max(1, cwnd / 2);
      cwnd := 1;
      swnd := Usable(cwnd, rwnd);
      currPtr := basePtr + 1;
    }

    // First critical section of the rate thread. The two preconditions are its
    // assertions; choice tells the caller whether to pause, fetch or go on.
    method RateSection() returns (choice: RateChoice)
      requires pc == Idle
      requires Choose(View()) != Violated
      modifies this`currPtr, this`pc
      ensures choice == Choose(old(View()))
      ensures View() == AfterChoice(old(View()))
    {
      if currPtr - basePtr > swnd { return Stop; }
      var offset := currPtr - basePtr;
      if offset > |pktBuffer| {
        assert offset == |pktBuffer| + 1;
        pc := Fetching;
        return Fetch;
      }
      assert offset >= 1;
      choice := Resend(pktBuffer[offset - 1]);
      currPtr := currPtr + 1;
    }

    method PushSection() returns (sent: DataPacket)
      requires pc.Holding?
      modifies this`pktBuffer, this`byteSeqNum, this`currPtr, this`pc
      ensures View() == Push(old(View()), old(pc).data)
      ensures sent == pktBuffer[|pktBuffer| - 1]
    {
      pktBuffer := pktBuffer + [DataPacket(byteSeqNum, pc.data)];
      byteSeqNum := byteSeqNum + |pktBuffer[|pktBuffer| - 1].buf|;
      var offset := |pktBuffer|;
      sent := pktBuffer[offset - 1];
      currPtr := currPtr + 1;
      pc := Idle;
    }

    // Slow start or congestion avoidance, on the acknowledgement of new data.
    method GrowWindow(bytes: int)
      requires Divides(cwnd, ssthresh, cwndCnt, bytes) ==> cwnd != 0
      modifies this`cwnd, this`cwndCnt
      ensures (cwnd, cwndCnt) == Grow(old(cwnd), ssthresh, old(cwndCnt), bytes)
    {
      if cwnd < ssthresh {
        cwnd := cwnd + 1;
      } else {
        cwndCnt := cwndCnt + bytes;
        if cwndCnt >= cwnd {
          var tmp := CDiv(cwndCnt, cwnd);
          cwndCnt := CMod(cwndCnt, cwnd);
          cwnd := cwnd + tmp;
        }
      }
    }

    // The loop at the end of update_window.
    method PopAcked(count: int)
      requires 0 <= count <= |pktBuffer|
      modifies this`pktBuffer
      ensures pktBuffer == old(pktBuffer)[count..]
    {
      var tmp := count;
      while tmp != 0
        invariant 0 <= tmp <= count
        invariant pktBuffer == old(pktBuffer)[count - tmp..]
      {
        tmp := tmp - 1;
        assert pktBuffer != [];
        pktBuffer := pktBuffer[1..];
      }
    }

    // The part of update_window for a repeated acknowledgement.
    method RepeatedAck()
      modifies this`numDupacks, this`ssthresh, this`cwnd, this`currPtr, this`swnd
      ensures View().w == OnDuplicate(old(View().w))
      ensures currPtr == if old(numDupacks) + 1 == 3 then basePtr + 1 else old(currPtr)
    {
      numDupacks := numDupacks + 1;
      if numDupacks == 3 {
        var tmp := ssthresh;
        ssthresh := Max(1, cwnd / 2);
        cwnd := tmp;
        currPtr := basePtr + 1;
        swnd := Usable(cwnd, rwnd);
      }
    }

    method UpdateWindow(apkt: AckPacket)
      requires AckSafe(View(), apkt)
      modifies this
      ensures View() == Acked(old(View()), apkt)
    {
      if currAck > apkt.ack { return; }
      if currAck == apkt.ack {
        RepeatedAck();
      } else {
        numDupacks := 0;
        rwnd := apkt.rwnd;
        GrowWindow(apkt.ack - currAck);
        swnd := Usable(cwnd, rwnd);
        var tmp := CDiv(apkt.ack, MAX_DATA_SIZE) - basePtr - 1;
        basePtr := CDiv(apkt.ack, MAX_DATA_SIZE) - 1;
        currPtr := Max(currPtr, basePtr + 1);
        PopAcked(tmp);
      }
      currAck := apkt.ack;
    }
  }
}
