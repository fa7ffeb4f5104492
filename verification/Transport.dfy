// One direction of a connection as a state machine: every critical section of
// every thread is a step, and the network loses, duplicates and reorders.
module Transport {
  import opened Common
  import opened TransportTypes
  import opened TransportSender
  import opened TransportReceiver
  import opened Reassembly
  import Congestion

  datatype Event =
    | AppSend(buf: seq<byte>)
    | RateSection
    | FetchData
    | PushPacket
    | TimeoutFires
    | TimerInterrupted
    | AckArrives(a: AckPacket)
    | Receive(e: RxEvent)
    | DropData(p: DataPacket)
    | CopyData(p: DataPacket)
    | DropAck(a: AckPacket)
    | CopyAck(a: AckPacket)

  // timers counts the timer threads asleep; accepted holds every byte app_send took,
  // pushed every packet ever cut; the bytes app_recv returned are rx.out.bytes.
  datatype System = System(
    tx: Sender, rx: Rx, data: multiset<DataPacket>, acks: multiset<AckPacket>,
    timers: nat, accepted: seq<byte>, pushed: seq<DataPacket>)

  const INIT: System := System(InitSender(), Rx(INIT_INBOX, Trace([], [])), multiset{}, multiset{}, 0, [], [])

  // A rate thread that has used up the window starts a timer before it pauses.
  function RateStep(s: System): Outcome<System> {
    if !s.tx.pc.Idle? then Blocked
    else match Choose(s.tx)
      case Stop => Next(s.(timers := s.timers + 1))
      case Violated => Fault
      case Fetch => Next(s.(tx := AfterChoice(s.tx)))
      case Resend(p) => Next(s.(tx := AfterChoice(s.tx), data := s.data + multiset{p}))
  }

  function PushStep(s: System): Outcome<System> {
    if !s.tx.pc.Holding? then Blocked
    else
      var p := DataPacket(s.tx.byteSeqNum, s.tx.pc.data);
      Next(s.(tx := Push(s.tx, s.tx.pc.data), data := s.data + multiset{p}, pushed := s.pushed + [p]))
  }

  function AckStep(s: System, a: AckPacket): Outcome<System> {
    if a !in s.acks then Blocked
    else if !AckSafe(s.tx, a) then Fault
    else Next(s.(tx := Acked(s.tx, a), acks := s.acks - multiset{a}))
  }

  function ReceiveStep(s: System, e: RxEvent): Outcome<System> {
    if e.Arrive? && e.p !in s.data then Blocked
    else match RxStep(s.rx, e)
      case Blocked => Blocked
      case Fault => Fault
      case Next(x) => Next(s.(
        rx := x,
        data := if e.Arrive? then s.data - multiset{e.p} else s.data,
        acks := s.acks + multiset(x.out.acks) - multiset(s.rx.out.acks)))
  }

  function Apply(s: System, e: Event): Outcome<System> {
    match e
    case AppSend(buf) =>
      if !CanQueue(s.tx, buf) then Blocked
      else Next(s.(tx := Queue(s.tx, buf), accepted := s.accepted + buf))
    case RateSection => RateStep(s)
    case FetchData =>
      if s.tx.pc.Fetching? && s.tx.sendBuffer != [] then Next(s.(tx := TakeData(s.tx))) else Blocked
    case PushPacket => PushStep(s)
    case TimeoutFires =>
      if s.timers == 0 then Blocked else Next(s.(tx := TimedOut(s.tx), timers := s.timers - 1))
    case TimerInterrupted => if s.timers == 0 then Blocked else Next(s.(timers := s.timers - 1))
    case AckArrives(a) => AckStep(s, a)
    case Receive(e) => ReceiveStep(s, e)
    case DropData(p) => Next(s.(data := s.data - multiset{p}))
    case CopyData(p) => if p in s.data then Next(s.(data := s.data + multiset{p})) else Blocked
    case DropAck(a) => Next(s.(acks := s.acks - multiset{a}))
    case CopyAck(a) => if a in s.acks then Next(s.(acks := s.acks + multiset{a})) else Blocked
  }

  function Run(s: System, es: seq<Event>): Outcome<System> {
    if es == [] then Next(s)
    else match Run(s, es[..|es| - 1])
      case Next(t) => Apply(t, es[|es| - 1])
      case other => other
  }

  ghost predicate Leads(s: System, t: System) { exists es :: Run(s, es) == Next(t) }

  ghost predicate Reachable(s: System) { Leads(INIT, s) }

  // --- How packets cut the stream ---------------------------------------------------

  function End(p: DataPacket): int { p.seqNum + |p.buf| }

  // The sequence number where packet i starts, or the end of the stream.
  function Boundary(pkts: seq<DataPacket>, i: nat, total: nat): int
    requires i <= |pkts|
  {
    if i < |pkts| then pkts[i].seqNum else total
  }

  ghost predicate Piece(pkts: seq<DataPacket>, i: nat, stream: seq<byte>)
    requires i < |pkts|
  {
    var p := pkts[i];
    && 1 <= |p.buf| <= MAX_DATA_SIZE
    && 0 <= p.seqNum <= PacketBytes(i)
    && (i == 0 ==> p.seqNum == 0)
    && End(p) == Boundary(pkts, i + 1, |stream|)
    && End(p) <= |stream| && p.buf == stream[p.seqNum..End(p)]
  }

  // The packets cut the stream into consecutive, non-empty pieces.
  ghost predicate Cut(pkts: seq<DataPacket>, stream: seq<byte>) {
    && (pkts == [] ==> stream == [])
    && forall i :: 0 <= i < |pkts| ==> Piece(pkts, i, stream)
  }

  lemma CutExtends(pkts: seq<DataPacket>, stream: seq<byte>, data: seq<byte>)
    requires Cut(pkts, stream) && 1 <= |data| <= MAX_DATA_SIZE
    ensures Cut(pkts + [DataPacket(|stream|, data)], stream + data)
  {
    var longer := pkts + [DataPacket(|stream|, data)];
    StreamLength(pkts, stream);
    forall i | 0 <= i < |longer| ensures Piece(longer, i, stream + data) {
      if i < |pkts| {
        assert Piece(pkts, i, stream);
        assert (stream + data)[pkts[i].seqNum..End(pkts[i])] == stream[pkts[i].seqNum..End(pkts[i])];
      }
    }
  }

  // Short packets only make the stream shorter than its packets could hold.
  lemma StreamLength(pkts: seq<DataPacket>, stream: seq<byte>)
    requires Cut(pkts, stream)
    ensures |stream| <= PacketBytes(|pkts|)
  {
    if pkts != [] {
      assert Piece(pkts, |pkts| - 1, stream);
    }
  }

  lemma {:induction false} Ordered(pkts: seq<DataPacket>, stream: seq<byte>, i: nat, j: nat)
    requires Cut(pkts, stream) && i < j <= |pkts|
    ensures End(pkts[i]) <= Boundary(pkts, j, |stream|)
    decreases j
  {
    assert Piece(pkts, i, stream);
    if i + 1 < j {
      Ordered(pkts, stream, i, j - 1);
      assert Piece(pkts, j - 1, stream);
    }
  }

  lemma DistinctPackets(pkts: seq<DataPacket>, stream: seq<byte>, i: nat, j: nat, x: int)
    requires Cut(pkts, stream) && i < |pkts| && j < |pkts| && Covers(pkts[i], x) && Covers(pkts[j], x)
    ensures i == j
  {
    if i < j { Ordered(pkts, stream, i, j); }
    if j < i { Ordered(pkts, stream, j, i); }
  }

  lemma {:induction false} PacketAt(pkts: seq<DataPacket>, stream: seq<byte>, n: nat, x: nat) returns (i: nat)
    requires Cut(pkts, stream) && n <= |pkts| && x < Boundary(pkts, n, |stream|)
    ensures i < |pkts| && Covers(pkts[i], x)
  {
    if pkts != [] { assert Piece(pkts, 0, stream); }
    assert Piece(pkts, n - 1, stream);
    if x >= pkts[n - 1].seqNum {
      i := n - 1;
    } else {
      i := PacketAt(pkts, stream, n - 1, x);
    }
  }

  // --- Invariant ----------------------------------------------------------------------

  function Held(pc: RatePc): seq<byte> { if pc.Holding? then pc.data else [] }

  // The number of packets popped after acknowledgement ack.
  function PacketsBelow(ack: int): int { if ack < 0 then 0 else PacketsIn(ack) }

  ghost predicate Pointers(t: Sender, pushed: seq<DataPacket>) {
    && t.basePtr + 1 == PacketsBelow(t.w.currAck) <= |pushed|
    && t.pktBuffer == pushed[t.basePtr + 1..]
    && t.basePtr + 1 <= t.currPtr <= |pushed|
  }

  // stream is what was cut into packets so far.
  ghost predicate SenderInv(t: Sender, accepted: seq<byte>, pushed: seq<DataPacket>, stream: seq<byte>) {
    && accepted == stream + Held(t.pc) + t.sendBuffer
    && |stream| == t.byteSeqNum
    && Cut(pushed, stream)
    && |t.sendBuffer| <= MAX_SBUFFER_SIZE
    && (t.pc.Holding? ==> 1 <= |t.pc.data| <= MAX_DATA_SIZE)
    && Pointers(t, pushed)
    && Congestion.Sound(t.w)
  }

  ghost predicate AcksInv(acks: multiset<AckPacket>, currAck: int, prevAck: int) {
    && (forall a :: a in acks ==> 0 <= a.ack <= prevAck && 0 <= a.rwnd)
    && currAck <= prevAck
  }

  ghost predicate DataInv(data: multiset<DataPacket>, waiting: Option<DataPacket>, pushed: seq<DataPacket>) {
    && (forall p :: p in data ==> p in pushed)
    && (waiting.Some? ==> waiting.value in pushed)
  }

  // A packet was received as a whole or not at all.
  ghost predicate Whole(p: DataPacket, got: map<int, byte>) {
    forall x :: Covers(p, x) ==> (x in got <==> p.seqNum in got)
  }

  ghost predicate GotInv(rx: Rx, a: Simple, pushed: seq<DataPacket>, stream: seq<byte>) {
    && Refines(rx, a)
    && (forall x :: x in a.got ==> 0 <= x < |stream| && a.got[x] == stream[x])
    && (forall i :: 0 <= i < |pushed| ==> Whole(pushed[i], a.got))
    && a.read <= |stream| && rx.out.bytes == stream[..a.read]
  }

  ghost predicate Inv(s: System, a: Simple, stream: seq<byte>) {
    && SenderInv(s.tx, s.accepted, s.pushed, stream)
    && AcksInv(s.acks, s.tx.w.currAck, s.rx.inbox.r.prevAck)
    && DataInv(s.data, s.rx.inbox.waiting, s.pushed)
    && GotInv(s.rx, a, s.pushed, stream)
  }

  // What the specification of the receiver makes of a step, and the stream after it.
  function SpecStep(a: Simple, e: Event): Simple {
    if e.Receive? && SimpleStep(a, e.e).Next? then SimpleStep(a, e.e).s else a
  }

  function StreamStep(s: System, stream: seq<byte>, e: Event): seq<byte> {
    if e.PushPacket? then stream + Held(s.tx.pc) else stream
  }

  // One step causes no fault and keeps the invariant.
  ghost predicate Keeps(s: System, a: Simple, stream: seq<byte>, e: Event) {
    && !Apply(s, e).Fault?
    && (Apply(s, e).Next? ==> Inv(Apply(s, e).s, SpecStep(a, e), StreamStep(s, stream, e)))
  }

  // --- Sender steps ---------------------------------------------------------------------

  lemma AppSendKeeps(s: System, a: Simple, stream: seq<byte>, buf: seq<byte>)
    requires Inv(s, a, stream)
    ensures Keeps(s, a, stream, AppSend(buf))
  {
  }

  lemma RateKeeps(s: System, a: Simple, stream: seq<byte>)
    requires Inv(s, a, stream)
    ensures Keeps(s, a, stream, RateSection)
  {
    hide GotInv, AcksInv, Cut;
    var choice := Choose(s.tx);
    if choice.Resend? {
      assert choice.pkt == s.pushed[s.tx.currPtr];
      assert DataInv(s.data + multiset{choice.pkt}, s.rx.inbox.waiting, s.pushed);
    }
  }

  lemma TimeoutKeeps(s: System, a: Simple, stream: seq<byte>)
    requires Inv(s, a, stream)
    ensures Keeps(s, a, stream, TimeoutFires)
  {
    hide GotInv, DataInv, Cut;
  }

  lemma InterruptKeeps(s: System, a: Simple, stream: seq<byte>)
    requires Inv(s, a, stream)
    ensures Keeps(s, a, stream, TimerInterrupted)
  {
  }

  lemma DataLossKeeps(s: System, a: Simple, stream: seq<byte>, e: Event)
    requires Inv(s, a, stream) && (e.DropData? || e.CopyData?)
    ensures Keeps(s, a, stream, e)
  {
    if Apply(s, e).Next? {
      assert DataInv(Apply(s, e).s.data, s.rx.inbox.waiting, s.pushed);
    }
  }

  lemma AckLossKeeps(s: System, a: Simple, stream: seq<byte>, e: Event)
    requires Inv(s, a, stream) && (e.DropAck? || e.CopyAck?)
    ensures Keeps(s, a, stream, e)
  {
    if Apply(s, e).Next? {
      assert AcksInv(Apply(s, e).s.acks, s.tx.w.currAck, s.rx.inbox.r.prevAck);
    }
  }

  lemma FetchKeeps(s: System, a: Simple, stream: seq<byte>)
    requires Inv(s, a, stream)
    ensures Keeps(s, a, stream, FetchData)
  {
    hide GotInv, DataInv, AcksInv, Cut, Congestion.Sound;
    var n := ChunkSize(s.tx);
    assert s.tx.sendBuffer == s.tx.sendBuffer[..n] + s.tx.sendBuffer[n..];
  }

  lemma PushKeeps(s: System, a: Simple, stream: seq<byte>)
    requires Inv(s, a, stream)
    ensures Keeps(s, a, stream, PushPacket)
  {
    hide Refines, AcksInv, Congestion.Sound;
    if !s.tx.pc.Holding? { return; }
    var s', longer := PushStep(s).s, stream + s.tx.pc.data;
    CutExtends(s.pushed, stream, s.tx.pc.data);
    var p := DataPacket(|stream|, s.tx.pc.data);
    assert s'.pushed == s.pushed + [p];
    assert Whole(p, a.got);
    assert GotInv(s'.rx, a, s'.pushed, longer);
  }

  // No byte beyond the packets cut so far was ever received.
  lemma AckBounded(s: System, a: Simple, stream: seq<byte>)
    requires Inv(s, a, stream)
    ensures 0 <= s.rx.inbox.r.prevAck <= s.tx.byteSeqNum
  {
    var m := s.rx.inbox.r.prevAck;
    assert m == Expected(a);
    assert 0 <= m - 1 < m ==> m - 1 in a.got;
  }

  lemma AckIsSafe(s: System, a: Simple, stream: seq<byte>, ack: AckPacket)
    requires Inv(s, a, stream) && ack in s.acks
    ensures AckSafe(s.tx, ack)
    ensures s.tx.w.currAck < ack.ack ==>
      && CDiv(ack.ack, MAX_DATA_SIZE) == PacketsBelow(ack.ack)
      && PacketsBelow(s.tx.w.currAck) <= PacketsBelow(ack.ack) <= |s.pushed|
  {
    Congestion.SoundAfterAck(s.tx.w, ack);
    AckBounded(s, a, stream);
    StreamLength(s.pushed, stream);
    CDivModExact(ack.ack, MAX_DATA_SIZE);
  }

  lemma AckMovesPointers(t: Sender, pushed: seq<DataPacket>, ack: AckPacket)
    requires AckSafe(t, ack) && Pointers(t, pushed) && Congestion.Sound(t.w)
    requires t.w.currAck < ack.ack ==>
      && CDiv(ack.ack, MAX_DATA_SIZE) == PacketsBelow(ack.ack)
      && PacketsBelow(t.w.currAck) <= PacketsBelow(ack.ack) <= |pushed|
    ensures Pointers(Acked(t, ack), pushed) && Congestion.Sound(Acked(t, ack).w)
    ensures Acked(t, ack).w.currAck == Max(t.w.currAck, ack.ack)
  {
    Congestion.SoundAfterAck(t.w, ack);
    if t.w.currAck < ack.ack {
      var k := PopCount(t, ack.ack);
      assert t.pktBuffer[k..] == pushed[t.basePtr + 1 + k..];
    }
  }

  lemma AckedSenderInv(t: Sender, accepted: seq<byte>, pushed: seq<DataPacket>, stream: seq<byte>, ack: AckPacket)
    requires AckSafe(t, ack) && SenderInv(t, accepted, pushed, stream)
    requires t.w.currAck < ack.ack ==>
      && CDiv(ack.ack, MAX_DATA_SIZE) == PacketsBelow(ack.ack)
      && PacketsBelow(t.w.currAck) <= PacketsBelow(ack.ack) <= |pushed|
    ensures SenderInv(Acked(t, ack), accepted, pushed, stream)
    ensures Acked(t, ack).w.currAck == Max(t.w.currAck, ack.ack)
  {
    AckMovesPointers(t, pushed, ack);
  }

  lemma AckKeeps(s: System, a: Simple, stream: seq<byte>, ack: AckPacket)
    requires Inv(s, a, stream)
    ensures Keeps(s, a, stream, AckArrives(ack))
  {
    hide Acked, AckSafe, SenderInv, DataInv, GotInv;
    if ack in s.acks {
      AckIsSafe(s, a, stream, ack);
      AckedSenderInv(s.tx, s.accepted, s.pushed, stream, ack);
      assert AcksInv(s.acks - multiset{ack}, Acked(s.tx, ack).w.currAck, s.rx.inbox.r.prevAck);
    }
  }

  // --- Receiver steps -----------------------------------------------------------------

  lemma WindowAdvertised(x: Rx, a: Simple)
    requires Refines(x, a)
    ensures AckOf(x.inbox.r).rwnd >= 0
  {
  }

  lemma ArriveKeeps(s: System, a: Simple, stream: seq<byte>, p: DataPacket)
    requires Inv(s, a, stream)
    ensures Keeps(s, a, stream, Receive(Arrive(p)))
  {
    StepRefines(s.rx, a, Arrive(p));
    if !ReceiveStep(s, Arrive(p)).Next? { return; }
    var s', a' := ReceiveStep(s, Arrive(p)).s, SimpleStep(a, Arrive(p)).s;
    assert a'.got == a.got && a'.read == a.read;
    assert GotInv(s'.rx, a', s.pushed, stream);
  }

  lemma StoreKeepsGot(a: Simple, p: DataPacket, pushed: seq<DataPacket>, stream: seq<byte>)
    requires Cut(pushed, stream) && p in pushed
    requires forall x :: x in a.got ==> 0 <= x < |stream| && a.got[x] == stream[x]
    requires forall i :: 0 <= i < |pushed| ==> Whole(pushed[i], a.got)
    ensures var got := a.got + Payload(p);
      && (forall x :: x in got ==> 0 <= x < |stream| && got[x] == stream[x])
      && (forall i :: 0 <= i < |pushed| ==> Whole(pushed[i], got))
  {
    var got := a.got + Payload(p);
    var j :| 0 <= j < |pushed| && pushed[j] == p;
    assert Piece(pushed, j, stream);
    forall x | x in got ensures 0 <= x < |stream| && got[x] == stream[x] {
      if x in Payload(p) { assert Covers(p, x); }
    }
    forall i | 0 <= i < |pushed| ensures Whole(pushed[i], got) {
      assert Whole(pushed[i], a.got);
      WholeKept(pushed, stream, i, j, a.got);
    }
  }

  lemma WholeKept(pushed: seq<DataPacket>, stream: seq<byte>, i: nat, j: nat, got: map<int, byte>)
    requires Cut(pushed, stream) && i < |pushed| && j < |pushed| && Whole(pushed[i], got)
    ensures Whole(pushed[i], got + Payload(pushed[j]))
  {
    var p, q := pushed[i], pushed[j];
    assert Piece(pushed, i, stream);
    assert Covers(p, p.seqNum);
    forall x | Covers(p, x) ensures x in got + Payload(q) <==> p.seqNum in got + Payload(q) {
      if Covers(q, x) { DistinctPackets(pushed, stream, i, j, x); }
      if Covers(q, p.seqNum) { DistinctPackets(pushed, stream, i, j, p.seqNum); }
    }
  }

  lemma OneAckMore(acks: multiset<AckPacket>, sent: seq<AckPacket>, a: AckPacket)
    ensures acks + multiset(sent + [a]) - multiset(sent) == acks + multiset{a}
  {
  }

  // What the receiver sends after a store.
  lemma ResumeSends(x: Rx, a: Simple)
    requires Refines(x, a) && RxStep(x, Resume).Next?
    ensures var x' := RxStep(x, Resume).s;
      && x'.out.acks == x.out.acks + [AckOf(x'.inbox.r)]
      && x'.inbox.r.prevAck >= x.inbox.r.prevAck && AckOf(x'.inbox.r).rwnd >= 0
  {
    StepRefines(x, a, Resume);
    AckProgress(x, a, Resume);
    WindowAdvertised(RxStep(x, Resume).s, SimpleStep(a, Resume).s);
  }

  // The acknowledgement sent after a store is the new prev_ack, which only grows.
  lemma ResumeAcks(s: System, a: Simple)
    requires Refines(s.rx, a) && ReceiveStep(s, Resume).Next?
    requires AcksInv(s.acks, s.tx.w.currAck, s.rx.inbox.r.prevAck) && s.rx.inbox.r.prevAck >= 0
    ensures var s' := ReceiveStep(s, Resume).s;
      AcksInv(s'.acks, s.tx.w.currAck, s'.rx.inbox.r.prevAck)
  {
    hide RxStep, Refines;
    ResumeSends(s.rx, a);
    OneAckMore(s.acks, s.rx.out.acks, AckOf(ReceiveStep(s, Resume).s.rx.inbox.r));
  }

  lemma ResumeKeeps(s: System, a: Simple, stream: seq<byte>)
    requires Inv(s, a, stream)
    ensures Keeps(s, a, stream, Receive(Resume))
  {
    StepRefines(s.rx, a, Resume);
    if ReceiveStep(s, Resume).Next? {
      var s', a' := ReceiveStep(s, Resume).s, SimpleStep(a, Resume).s;
      assert GotInv(s'.rx, a', s.pushed, stream) by {
        StoreKeepsGot(a, s.rx.inbox.waiting.value, s.pushed, stream);
      }
      assert AcksInv(s'.acks, s'.tx.w.currAck, s'.rx.inbox.r.prevAck) by {
        AckBounded(s, a, stream);
        ResumeAcks(s, a);
      }
    }
  }

  lemma ReadKeeps(s: System, a: Simple, stream: seq<byte>, n: nat)
    requires Inv(s, a, stream)
    ensures Keeps(s, a, stream, Receive(Read(n)))
  {
    hide DataInv, Cut, Congestion.Sound, Pointers;
    StepRefines(s.rx, a, Read(n));
    if ReceiveStep(s, Read(n)).Next? {
      var s', a' := ReceiveStep(s, Read(n)).s, SimpleStep(a, Read(n)).s;
      AckBounded(s, a, stream);
      var bytes := seq(n, k requires 0 <= k < n => a.got[a.read + k]);
      assert bytes == stream[a.read..a.read + n];
      assert stream[..a.read + n] == stream[..a.read] + bytes;
      assert GotInv(s'.rx, a', s.pushed, stream);
    }
  }

  // --- Runs ----------------------------------------------------------------------------

  lemma InitReceiverHolds()
    ensures GotInv(INIT.rx, INIT_SIMPLE, [], [])
  {
    hide InitSender;
    LeastMissingUnique({}, 0, 0);
    assert INIT_SIMPLE.got.Keys == {};
  }

  lemma InitSenderHolds(t: Sender)
    requires t.w == InitWindow() && t.basePtr == -1 && t.currPtr == 0 && t.pc == Idle && t.byteSeqNum == 0
    requires t.sendBuffer == [] && t.pktBuffer == []
    ensures SenderInv(t, [], [], [])
  {
    hide Congestion.Sound;
    Congestion.InitSound();
    assert Pointers(t, []);
    assert Cut([], []);
  }

  lemma InitNetworkHolds()
    ensures AcksInv(INIT.acks, INIT.tx.w.currAck, INIT.rx.inbox.r.prevAck)
    ensures DataInv(INIT.data, INIT.rx.inbox.waiting, INIT.pushed)
  {
  }

  lemma InitHolds()
    ensures Inv(INIT, INIT_SIMPLE, [])
  {
    hide GotInv, SenderInv, AcksInv, DataInv;
    InitReceiverHolds();
    InitSenderHolds(INIT.tx);
    InitNetworkHolds();
  }

  // Every step of every thread and of the network keeps the invariant, and no
  // assertion of the source fails.
  lemma StepKeeps(s: System, a: Simple, stream: seq<byte>, e: Event)
    requires Inv(s, a, stream)
    ensures Keeps(s, a, stream, e)
  {
    hide Keeps, Inv;
    match e
    case AppSend(buf) => AppSendKeeps(s, a, stream, buf);
    case RateSection => RateKeeps(s, a, stream);
    case FetchData => FetchKeeps(s, a, stream);
    case PushPacket => PushKeeps(s, a, stream);
    case AckArrives(ack) => AckKeeps(s, a, stream, ack);
    case Receive(Arrive(p)) => ArriveKeeps(s, a, stream, p);
    case Receive(Resume) => ResumeKeeps(s, a, stream);
    case Receive(Read(n)) => ReadKeeps(s, a, stream, n);
    case TimeoutFires => TimeoutKeeps(s, a, stream);
    case TimerInterrupted => InterruptKeeps(s, a, stream);
    case DropData(_) => DataLossKeeps(s, a, stream, e);
    case CopyData(_) => DataLossKeeps(s, a, stream, e);
    case _ => AckLossKeeps(s, a, stream, e);
  }

  lemma {:induction false} RunKeeps(es: seq<Event>) returns (a: Simple, stream: seq<byte>)
    ensures !Run(INIT, es).Fault?
    ensures Run(INIT, es).Next? ==> Inv(Run(INIT, es).s, a, stream)
  {
    if es == [] {
      InitHolds();
      a, stream := INIT_SIMPLE, [];
    } else {
      a, stream := RunKeeps(es[..|es| - 1]);
      if Run(INIT, es[..|es| - 1]).Next? {
        var s, e := Run(INIT, es[..|es| - 1]).s, es[|es| - 1];
        StepKeeps(s, a, stream, e);
        a, stream := SpecStep(a, e), StreamStep(s, stream, e);
      }
    }
  }

  lemma ReachableInv(s: System) returns (a: Simple, stream: seq<byte>)
    requires Reachable(s)
    ensures Inv(s, a, stream)
  {
    var es :| Run(INIT, es) == Next(s);
    a, stream := RunKeeps(es);
  }

  // --- Theorems ----------------------------------------------------------------------

  // In no run does an assertion fail, a scan leave the deque, or a division meet zero.
  lemma NeverFaults(es: seq<Event>)
    ensures !Run(INIT, es).Fault?
  {
    var _, _ := RunKeeps(es);
  }

  // What the application has read is a prefix of what the other one sent.
  lemma StreamSafety(s: System)
    requires Reachable(s)
    ensures s.rx.out.bytes <= s.accepted
  {
    var a, stream := ReachableInv(s);
  }

  // Only whole packets were received: the receiver waits at the start of one.
  lemma WaitsAtBoundary(s: System, a: Simple, stream: seq<byte>, i: nat)
    requires Inv(s, a, stream) && i < |s.pushed| && Covers(s.pushed[i], s.rx.inbox.r.prevAck)
    ensures s.pushed[i].seqNum == s.rx.inbox.r.prevAck
  {
    var m, first := s.rx.inbox.r.prevAck, s.pushed[i].seqNum;
    assert m == Expected(a) && m !in a.got.Keys;
    assert Piece(s.pushed, i, stream);
    assert Whole(s.pushed[i], a.got) && Covers(s.pushed[i], first);
    assert first < m ==> first in a.got.Keys;
  }

  // A packet that starts at m has a number of at least m / 1024.
  lemma PopsNoNeededPacket(currAck: int, m: int, i: nat)
    requires currAck <= m <= PacketBytes(i)
    ensures PacketsBelow(currAck) <= i
  {
  }

  // The packet the receiver is waiting for is still in the sender's buffer.
  lemma NeededPacketKept(s: System)
    requires Reachable(s) && s.rx.inbox.r.prevAck < s.tx.byteSeqNum
    ensures exists k :: 0 <= k < |s.tx.pktBuffer| && s.tx.pktBuffer[k].seqNum == s.rx.inbox.r.prevAck
  {
    var a, stream := ReachableInv(s);
    AckBounded(s, a, stream);
    var m := s.rx.inbox.r.prevAck;
    var i := PacketAt(s.pushed, stream, |s.pushed|, m);
    WaitsAtBoundary(s, a, stream, i);
    assert Piece(s.pushed, i, stream);
    PopsNoNeededPacket(s.tx.w.currAck, m, i);
    var k := i - s.tx.basePtr - 1;
    assert s.tx.pktBuffer[k] == s.pushed[i];
  }

  // On the path without the gap the packet sent is the one at currptr, in the window.
  lemma ResendIsCurrent(s: System)
    requires Reachable(s) && Choose(s.tx).Resend?
    ensures 0 <= s.tx.currPtr < |s.pushed| && Choose(s.tx) == Resend(s.pushed[s.tx.currPtr])
    ensures 1 <= s.tx.currPtr - s.tx.basePtr <= s.tx.w.swnd
  {
    var a, stream := ReachableInv(s);
  }

  // pkt_buffer is exactly the packets from number baseptr + 1 on, and the pointers
  // stay in range across the unlocked gap.
  lemma SenderIndices(s: System)
    requires Reachable(s)
    ensures s.tx.basePtr + 1 <= s.tx.currPtr <= s.tx.basePtr + 1 + |s.tx.pktBuffer|
    ensures 0 <= s.tx.basePtr + 1 <= |s.pushed| && s.tx.pktBuffer == s.pushed[s.tx.basePtr + 1..]
    ensures s.tx.w.currAck >= 0 ==> s.tx.basePtr == PacketsIn(s.tx.w.currAck) - 1
  {
    var a, stream := ReachableInv(s);
  }

  lemma CounterOrder(s: System)
    requires Reachable(s)
    ensures forall a :: a in s.acks ==> 0 <= a.ack <= s.rx.inbox.r.prevAck
    ensures s.tx.w.currAck <= s.rx.inbox.r.prevAck <= s.tx.byteSeqNum <= |s.accepted|
    ensures s.rx.inbox.r.lastRead < s.rx.inbox.r.prevAck
  {
    var a, stream := ReachableInv(s);
    AckBounded(s, a, stream);
  }

  lemma WindowAccounting(s: System)
    requires Reachable(s)
    ensures s.rx.inbox.r.rwnd == MAX_RBUFFER_SIZE - Filled(s.rx.inbox.r.recvBuffer)
    ensures |s.rx.inbox.r.recvBuffer| <= MAX_RBUFFER_SIZE - 1
    ensures 1 <= s.rx.inbox.r.rwnd <= MAX_RBUFFER_SIZE
  {
    var a, stream := ReachableInv(s);
  }

  function Flatten(pkts: seq<DataPacket>): seq<byte> {
    if pkts == [] then [] else Flatten(pkts[..|pkts| - 1]) + pkts[|pkts| - 1].buf
  }

  lemma {:induction false} FlattenCut(pkts: seq<DataPacket>, stream: seq<byte>, n: nat)
    requires Cut(pkts, stream) && n <= |pkts|
    ensures 0 <= Boundary(pkts, n, |stream|) <= |stream|
    ensures Flatten(pkts[..n]) == stream[..Boundary(pkts, n, |stream|)]
  {
    if n == 0 {
      if pkts != [] { assert Piece(pkts, 0, stream); }
    } else {
      FlattenCut(pkts, stream, n - 1);
      assert Piece(pkts, n - 1, stream);
      var p := pkts[n - 1];
      assert pkts[..n][..n - 1] == pkts[..n - 1];
      assert stream[..End(p)] == stream[..p.seqNum] + p.buf;
    }
  }

  lemma {:induction false} FlattenConcat(a: seq<DataPacket>, b: seq<DataPacket>)
    ensures Flatten(a + b) == Flatten(a) + Flatten(b)
  {
    if b == [] {
      assert a + b == a;
    } else {
      assert (a + b)[..|a + b| - 1] == a + b[..|b| - 1];
      FlattenConcat(a, b[..|b| - 1]);
    }
  }

  // No byte is lost or doubled at the sender, and every packet carries the number
  // of bytes before it.
  lemma ByteConservation(s: System)
    requires Reachable(s)
    ensures 0 <= s.tx.basePtr + 1 <= |s.pushed|
    ensures s.accepted == Flatten(s.pushed[..s.tx.basePtr + 1]) + Flatten(s.tx.pktBuffer)
                          + Held(s.tx.pc) + s.tx.sendBuffer
    ensures forall i :: 0 <= i < |s.pushed| ==> s.pushed[i].seqNum == |Flatten(s.pushed[..i])|
    ensures |s.tx.sendBuffer| <= MAX_SBUFFER_SIZE
  {
    var a, stream := ReachableInv(s);
    var k := s.tx.basePtr + 1;
    FlattenCut(s.pushed, stream, |s.pushed|);
    assert s.pushed[..|s.pushed|] == s.pushed == s.pushed[..k] + s.tx.pktBuffer;
    FlattenConcat(s.pushed[..k], s.tx.pktBuffer);
    assert stream[..|stream|] == stream;
    forall i | 0 <= i < |s.pushed| ensures s.pushed[i].seqNum == |Flatten(s.pushed[..i])| {
      FlattenCut(s.pushed, stream, i);
    }
  }

  lemma CongestionSafety(s: System)
    requires Reachable(s)
    ensures s.tx.w.cwnd >= 1 && s.tx.w.ssthresh >= 1 && s.tx.w.cwndCnt >= 0
    ensures s.tx.w.swnd <= Min(Min(s.tx.w.cwnd, s.tx.w.rwnd), MAX_SWND)
  {
    var a, stream := ReachableInv(s);
  }
}
