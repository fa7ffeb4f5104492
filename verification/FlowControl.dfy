// Flow control: the receive window is respected across both ends, stale
// acknowledgements and the sender's unlocked gap.
module FlowControl {
  import opened Common
  import opened TransportTypes
  import opened TransportSender
  import opened TransportReceiver
  import opened Reassembly
  import opened Transport
  import Congestion

  // Bytes below limit fit into the receive buffer, if not at once then as soon as the
  // application has read one of the bytes it can read.
  predicate Room(limit: int, r: Receiver) {
    && limit <= r.lastRead + 1 + MAX_RBUFFER_SIZE
    && (limit == r.lastRead + 1 + MAX_RBUFFER_SIZE ==> CanRead(r, 1))
  }

  // The end of the window that an acknowledgement opens.
  function WindowEnd(a: AckPacket): int { PacketBytes(PacketsIn(a.ack) + a.rwnd) }

  // Before the first acknowledgement the window is the initial one at most.
  predicate SenderRoom(t: Sender, r: Receiver) {
    if t.w.currAck < 0 then t.w.swnd <= INIT_SWND_SIZE
    else Room(PacketBytes(t.basePtr + 1 + t.w.rwnd), r)
  }

  // The packets cut so far, and the one being cut in the unlocked gap.
  function Cutting(s: System): nat { |s.pushed| + if s.tx.pc.Idle? then 0 else 1 }

  ghost predicate AcksRoom(acks: multiset<AckPacket>, r: Receiver) {
    forall a :: a in acks ==> Room(WindowEnd(a), r)
  }

  ghost predicate FlowInv(s: System) {
    && Room(PacketBytes(Cutting(s)), s.rx.inbox.r)
    && SenderRoom(s.tx, s.rx.inbox.r)
    && AcksRoom(s.acks, s.rx.inbox.r)
  }

  // --- The receiver --------------------------------------------------------------------

  lemma {:induction false} FilledAt(b: seq<Slot>, k: nat)
    requires k < |b| && b[k].full
    ensures Filled(b) >= 1
  {
    if k > 0 {
      FilledAt(b[1..], k - 1);
    }
  }

  // The bytes up to prev_ack are unread, and the last packet stored is.
  lemma UnreadBytes(x: Rx, a: Simple, p: DataPacket)
    requires Refines(x, a) && p.seqNum in a.got && p.seqNum >= a.read
    ensures Filled(x.inbox.r.recvBuffer) >= Max(1, x.inbox.r.prevAck - a.read)
  {
    var r := x.inbox.r;
    var n, k := r.prevAck - a.read, p.seqNum - a.read;
    assert SlotHolds(r.recvBuffer[k], r.lastRead + 1 + k, a.got);
    FilledAt(r.recvBuffer, k);
    ReadablePrefix(r, a, n);
    ReadCounts(r.recvBuffer, n);
  }

  // What the receiver advertises there is room for.
  lemma AdvertisedRoom(r: Receiver)
    requires r.rwnd == MAX_RBUFFER_SIZE - Filled(r.recvBuffer) >= 0 && r.prevAck >= r.lastRead + 1 >= 0
    requires Filled(r.recvBuffer) >= Max(1, r.prevAck - r.lastRead - 1)
    ensures Room(WindowEnd(AckOf(r)), r)
  {
    CDivModExact(r.rwnd, MAX_DATA_SIZE);
  }

  // The acknowledgement sent after a store.
  lemma StoredRoom(x: Rx, a: Simple)
    requires Refines(x, a) && RxStep(x, Resume).Next? && x.inbox.waiting.value.buf != []
    ensures var x' := RxStep(x, Resume).s;
      x'.out.acks == x.out.acks + [AckOf(x'.inbox.r)] && Room(WindowEnd(AckOf(x'.inbox.r)), x'.inbox.r)
  {
    var x', a', p := RxStep(x, Resume).s, SimpleStep(a, Resume).s, x.inbox.waiting.value;
    ResumeRefines(x, a);
    assert Covers(p, p.seqNum) && p.seqNum in a'.got;
    UnreadBytes(x', a', p);
    WindowIsFreeSpace(x', a');
    AdvertisedRoom(x'.inbox.r);
  }

  lemma ResumeRoom(s: System, a: Simple, stream: seq<byte>)
    requires Inv(s, a, stream) && ReceiveStep(s, Resume).Next?
    ensures var s' := ReceiveStep(s, Resume).s;
      && s'.acks == s.acks + multiset{AckOf(s'.rx.inbox.r)}
      && Room(WindowEnd(AckOf(s'.rx.inbox.r)), s'.rx.inbox.r)
  {
    PacketNotEmpty(s, a, stream, s.rx.inbox.waiting.value);
    StoredRoom(s.rx, a);
    OneAckMore(s.acks, s.rx.out.acks, AckOf(ReceiveStep(s, Resume).s.rx.inbox.r));
  }

  // Reading and storing only make more room.
  lemma RoomGrows(s: System, r: Receiver)
    requires FlowInv(s) && r.lastRead >= s.rx.inbox.r.lastRead
    requires r.prevAck >= s.rx.inbox.r.prevAck && r.prevAck >= r.lastRead + 1
    ensures Room(PacketBytes(Cutting(s)), r) && SenderRoom(s.tx, r) && AcksRoom(s.acks, r)
  {
  }

  lemma ReceiverMoves(x: Rx, a: Simple, e: RxEvent)
    requires Refines(x, a) && RxStep(x, e).Next?
    ensures var r, r' := x.inbox.r, RxStep(x, e).s.inbox.r;
      r'.lastRead >= r.lastRead && r'.prevAck >= r.prevAck && r'.prevAck >= r'.lastRead + 1
    ensures !e.Resume? ==> RxStep(x, e).s.out.acks == x.out.acks
  {
  }

  lemma ReceiverFlow(s: System, a: Simple, stream: seq<byte>, e: RxEvent)
    requires Inv(s, a, stream) && FlowInv(s) && ReceiveStep(s, e).Next?
    ensures FlowInv(ReceiveStep(s, e).s)
  {
    var s' := ReceiveStep(s, e).s;
    ReceiverMoves(s.rx, a, e);
    RoomGrows(s, s'.rx.inbox.r);
    if e.Resume? {
      ResumeRoom(s, a, stream);
    } else {
      AcksUnchanged(s.acks, s.rx.out.acks);
    }
  }

  lemma AcksUnchanged(acks: multiset<AckPacket>, sent: seq<AckPacket>)
    ensures acks + multiset(sent) - multiset(sent) == acks
  {
  }

  lemma PacketNotEmpty(s: System, a: Simple, stream: seq<byte>, p: DataPacket)
    requires Inv(s, a, stream) && p in s.pushed
    ensures |p.buf| >= 1 && End(p) <= PacketBytes(|s.pushed|)
  {
    var i :| 0 <= i < |s.pushed| && s.pushed[i] == p;
    assert Piece(s.pushed, i, stream);
  }

  // --- The sender ------------------------------------------------------------------------

  // A new packet is cut only inside the window known at that moment.
  lemma CutRoom(t: Sender, pushed: seq<DataPacket>, r: Receiver)
    requires Pointers(t, pushed) && Congestion.Sound(t.w) && Choose(t).Fetch?
    requires SenderRoom(t, r) && r.lastRead >= -1
    ensures Room(PacketBytes(|pushed| + 1), r)
  {
  }

  lemma RateFlow(s: System, a: Simple, stream: seq<byte>)
    requires Inv(s, a, stream) && FlowInv(s) && RateStep(s).Next?
    ensures FlowInv(RateStep(s).s)
  {
    var s' := RateStep(s).s;
    if Choose(s.tx).Fetch? {
      CutRoom(s.tx, s.pushed, s.rx.inbox.r);
      assert Cutting(s') == |s.pushed| + 1;
    } else {
      assert Cutting(s') == Cutting(s);
    }
  }

  lemma AckFlow(s: System, a: Simple, stream: seq<byte>, ack: AckPacket)
    requires Inv(s, a, stream) && FlowInv(s) && AckStep(s, ack).Next?
    ensures FlowInv(AckStep(s, ack).s)
  {
    AckIsSafe(s, a, stream, ack);
    assert Room(WindowEnd(ack), s.rx.inbox.r);
  }

  lemma TimeoutFlow(s: System, a: Simple, stream: seq<byte>)
    requires Inv(s, a, stream) && FlowInv(s) && s.timers > 0
    ensures FlowInv(Apply(s, TimeoutFires).s)
  {
  }

  lemma OtherFlow(s: System, e: Event)
    requires FlowInv(s) && Apply(s, e).Next?
    requires !e.RateSection? && !e.AckArrives? && !e.Receive? && !e.TimeoutFires?
    ensures FlowInv(Apply(s, e).s)
  {
    var s' := Apply(s, e).s;
    assert s'.rx == s.rx && Cutting(s') == Cutting(s);
    assert AcksRoom(s'.acks, s.rx.inbox.r);
  }

  lemma StepFlow(s: System, a: Simple, stream: seq<byte>, e: Event)
    requires Inv(s, a, stream) && FlowInv(s) && Apply(s, e).Next?
    ensures FlowInv(Apply(s, e).s)
  {
    match e
    case RateSection => RateFlow(s, a, stream);
    case AckArrives(ack) => AckFlow(s, a, stream, ack);
    case Receive(r) => ReceiverFlow(s, a, stream, r);
    case TimeoutFires => TimeoutFlow(s, a, stream);
    case _ => OtherFlow(s, e);
  }

  lemma {:induction false} RunFlow(es: seq<Event>)
    requires Run(INIT, es).Next?
    ensures FlowInv(Run(INIT, es).s)
  {
    if es != [] {
      var before, e := es[..|es| - 1], es[|es| - 1];
      RunFlow(before);
      var a, stream := RunKeeps(before);
      StepFlow(Run(INIT, before).s, a, stream, e);
    }
  }

  // --- Theorem -----------------------------------------------------------------------------

  // Whatever packet the receiver picked up, it waits for nothing but the application:
  // there is a byte to read, and reading it is enough for the packet to fit.
  lemma WaitsForReaderOnly(s: System, p: DataPacket)
    requires Reachable(s) && p in s.pushed && !Fits(s.rx.inbox.r, p)
    ensures CanRead(s.rx.inbox.r, 1) && |s.rx.inbox.r.recvBuffer| >= 1
    ensures Fits(AfterRead(s.rx.inbox.r, 1), p)
  {
    var a, stream := ReachableInv(s);
    var es :| Run(INIT, es) == Next(s);
    RunFlow(es);
    PacketNotEmpty(s, a, stream, p);
  }

  // --- The price of short packets ------------------------------------------------------------

  // However short the packets are, each uses up 1024 bytes of what the application reads.
  lemma PacketsBounded(s: System)
    requires Reachable(s)
    ensures PacketBytes(|s.pushed|) <= |s.rx.out.bytes| + MAX_RBUFFER_SIZE
  {
    var a, stream := ReachableInv(s);
    var es :| Run(INIT, es) == Next(s);
    RunFlow(es);
  }

  lemma {:induction false} FlattenShort(pkts: seq<DataPacket>, size: nat)
    requires forall p :: p in pkts ==> |p.buf| <= size
    ensures |Flatten(pkts)| <= size * |pkts|
  {
    if pkts != [] {
      FlattenShort(pkts[..|pkts| - 1], size);
      assert pkts[|pkts| - 1] in pkts;
      assert size * |pkts| == size * (|pkts| - 1) + size;
    }
  }

  // A sender whose packets stay below full size sends only so many of them, ever: with
  // packets of one byte ten at most, with packets of 1023 bytes 10240.
  lemma ShortPacketsEnd(s: System, size: nat)
    requires Reachable(s) && forall p :: p in s.pushed ==> |p.buf| <= size
    ensures (1024 - size) * |s.pushed| <= MAX_RBUFFER_SIZE
  {
    PacketsBounded(s);
    var a, stream := ReachableInv(s);
    FlattenCut(s.pushed, stream, |s.pushed|);
    FlattenShort(s.pushed, size);
    assert s.pushed[..|s.pushed|] == s.pushed && stream[..|stream|] == stream;
    assert |s.rx.out.bytes| <= size * |s.pushed|;
  }
}
