// What the transport does not guarantee, and exactly when it goes wrong.
module TransportLimits {
  import opened Common
  import opened TransportTypes
  import opened TransportSender
  import opened TransportReceiver
  import opened Reassembly
  import opened Transport

  lemma Extend(from: System, s: System, e: Event, t: System)
    requires Leads(from, s) && Apply(s, e) == Next(t)
    ensures Leads(from, t)
  {
    var es :| Run(from, es) == Next(s);
    var longer := es + [e];
    assert longer[..|longer| - 1] == es;
    assert Run(from, longer) == Next(t);
  }

  // No loss, no duplication and no timeout.
  predicate Smooth(es: seq<Event>) {
    forall e :: e in es ==>
      !e.DropData? && !e.CopyData? && !e.DropAck? && !e.CopyAck? && !e.TimeoutFires?
  }

  ghost predicate LeadsSmoothly(s: System, t: System) { exists es :: Smooth(es) && Run(s, es) == Next(t) }

  lemma LeadsAnyway(s: System, t: System)
    requires LeadsSmoothly(s, t)
    ensures Leads(s, t)
  {
  }

  lemma Continue(from: System, s: System, e: Event, t: System)
    requires LeadsSmoothly(from, s) && Apply(s, e) == Next(t) && Smooth([e])
    ensures LeadsSmoothly(from, t)
  {
    var es :| Smooth(es) && Run(from, es) == Next(s);
    var longer := es + [e];
    assert longer[..|longer| - 1] == es && e in [e];
    assert Smooth(longer) && Run(from, longer) == Next(t);
  }

  lemma Stay(s: System)
    ensures Leads(s, s) && LeadsSmoothly(s, s)
  {
    assert Run(s, []) == Next(s) && Smooth([]);
  }

  // --- Single steps of an exhibited run -----------------------------------------------------

  // A sender at the end of its buffer cuts the next packet if the window is open.
  lemma CutNext(from: System, s: System, n: nat) returns (t: System, p: DataPacket)
    requires LeadsSmoothly(from, s) && s.tx.pc.Idle? && s.tx.currPtr == s.tx.basePtr + 1 + |s.tx.pktBuffer|
    requires s.tx.w.swnd >= |s.tx.pktBuffer| + 1 && n == ChunkSize(s.tx) && n > 0
    ensures LeadsSmoothly(from, t) && p == DataPacket(s.tx.byteSeqNum, s.tx.sendBuffer[..n])
    ensures t == s.(tx := t.tx, data := s.data + multiset{p}, pushed := s.pushed + [p])
    ensures t.tx == Sender(s.tx.w, s.tx.basePtr, s.tx.currPtr + 1, s.tx.sendBuffer[n..],
                           s.tx.pktBuffer + [p], s.tx.byteSeqNum + n, Idle)
  {
    var s1 := s.(tx := s.tx.(pc := Fetching));
    assert Choose(s.tx) == Fetch;
    Continue(from, s, RateSection, s1);
    var s2 := s1.(tx := TakeData(s1.tx));
    Continue(from, s1, FetchData, s2);
    var data := s.tx.sendBuffer[..n];
    p := DataPacket(s.tx.byteSeqNum, data);
    t := s2.(tx := Push(s2.tx, data), data := s.data + multiset{p}, pushed := s.pushed + [p]);
    Continue(from, s2, PushPacket, t);
  }

  // One byte is accepted and sent as a packet of its own.
  lemma SendByte(from: System, s: System, x: byte) returns (t: System, p: DataPacket)
    requires LeadsSmoothly(from, s) && s.tx.pc.Idle? && s.tx.currPtr == s.tx.basePtr + 1 + |s.tx.pktBuffer|
    requires s.tx.w.swnd >= |s.tx.pktBuffer| + 1 && s.tx.sendBuffer == []
    ensures LeadsSmoothly(from, t) && p == DataPacket(s.tx.byteSeqNum, [x])
    ensures t == s.(tx := t.tx, data := s.data + multiset{p}, accepted := s.accepted + [x],
                    pushed := s.pushed + [p])
    ensures t.tx == Sender(s.tx.w, s.tx.basePtr, s.tx.currPtr + 1, [], s.tx.pktBuffer + [p],
                           s.tx.byteSeqNum + 1, Idle)
  {
    assert s.tx.sendBuffer + [x] == [x];
    var s1 := s.(tx := s.tx.(sendBuffer := [x]), accepted := s.accepted + [x]);
    Continue(from, s, AppSend([x]), s1);
    t, p := CutNext(from, s1, 1);
    assert [x][..1] == [x] && [x][1..] == [];
  }

  // The receiver picks up a packet that is not old.
  lemma PickUp(from: System, s: System, p: DataPacket) returns (t: System)
    requires LeadsSmoothly(from, s) && p in s.data && s.rx.inbox.waiting.None? && !Old(s.rx.inbox.r, p)
    ensures LeadsSmoothly(from, t) && Apply(s, Receive(Arrive(p))) == Next(t)
    ensures t == s.(rx := s.rx.(inbox := Inbox(s.rx.inbox.r, Some(p))), data := s.data - multiset{p})
  {
    t := s.(rx := s.rx.(inbox := Inbox(s.rx.inbox.r, Some(p))), data := s.data - multiset{p});
    assert s.acks + multiset(s.rx.out.acks) - multiset(s.rx.out.acks) == s.acks;
    Continue(from, s, Receive(Arrive(p)), t);
  }

  // The receiver stores the packet it holds and acknowledges.
  lemma ResumeStep(from: System, s: System, p: DataPacket) returns (t: System)
    requires LeadsSmoothly(from, s) && s.rx.inbox.waiting == Some(p) && s.acks == multiset{}
    requires Fits(s.rx.inbox.r, p) && Storable(s.rx.inbox.r, p)
    ensures LeadsSmoothly(from, t) && Apply(s, Receive(Resume)) == Next(t)
    ensures t == s.(rx := t.rx, acks := multiset{AckOf(Store(s.rx.inbox.r, p))})
    ensures t.rx.inbox == Inbox(Store(s.rx.inbox.r, p), None)
  {
    var r' := Store(s.rx.inbox.r, p);
    var sent := s.rx.out.acks;
    assert RxStep(s.rx, Resume) == Next(Rx(Inbox(r', None), s.rx.out.(acks := sent + [AckOf(r')])));
    assert s.acks + multiset(sent + [AckOf(r')]) - multiset(sent) == multiset{AckOf(r')};
    t := Apply(s, Receive(Resume)).s;
    Continue(from, s, Receive(Resume), t);
  }

  // The only acknowledgement on the way arrives.
  lemma TakeAck(from: System, s: System, ack: AckPacket) returns (t: System)
    requires LeadsSmoothly(from, s) && s.acks == multiset{ack} && AckSafe(s.tx, ack)
    ensures LeadsSmoothly(from, t) && t == s.(tx := Acked(s.tx, ack), acks := multiset{})
  {
    hide AckSafe, Acked, LeadsSmoothly;
    assert s.acks - multiset{ack} == multiset{};
    t := s.(tx := Acked(s.tx, ack), acks := multiset{});
    Continue(from, s, AckArrives(ack), t);
  }

  // A receiver that has n bytes in order, of which none was read since base.
  ghost predicate InOrder(r: Receiver, base: int, n: nat) {
    && r.lastRead == base - 1 && r.prevAck == base + n && r.rwnd == MAX_RBUFFER_SIZE - n
    && |r.recvBuffer| == n && forall k :: 0 <= k < n ==> r.recvBuffer[k].full
  }

  // The next packet in order is stored behind the others.
  lemma StoreInOrder(r: Receiver, p: DataPacket, base: int, n: nat)
    requires InOrder(r, base, n) && p.seqNum == base + n && n + |p.buf| <= MAX_RBUFFER_SIZE
    ensures Storable(r, p) && InOrder(Store(r, p), base, n + |p.buf|)
    ensures AckOf(Store(r, p)) == AckPacket(base + n + |p.buf|, PacketsIn(MAX_RBUFFER_SIZE - n - |p.buf|))
  {
    var b := Written(r, p);
    FilledUniform(b, true);
    FilledUniform(r.recvBuffer, true);
    CDivModExact(MAX_RBUFFER_SIZE - n - |p.buf|, MAX_DATA_SIZE);
  }

  // --- Connections that are dead for good --------------------------------------------------

  // The widest window the sender can still get without a new acknowledgement.
  function Limit(w: Window): int { Max(w.swnd, Min(1, w.rwnd)) }

  // Nothing under way can still have an effect.
  ghost predicate Spent(s: System) {
    && s.tx.pc.Idle? && s.rx.inbox.waiting.None?
    && (forall p :: p in s.data ==> p.seqNum < s.rx.inbox.r.prevAck)
    && (forall a :: a in s.acks ==> a.ack < s.tx.w.currAck)
  }

  // The sender can only repeat packets the receiver has already passed by; those are
  // dropped without an acknowledgement, and nothing else is under way.
  ghost predicate Stuck(s: System) {
    && Spent(s)
    && Limit(s.tx.w) <= |s.tx.pktBuffer|
    && (forall k :: 0 <= k < Limit(s.tx.w) ==> s.tx.pktBuffer[k].seqNum < s.rx.inbox.r.prevAck)
  }

  // An old packet is dropped; reading moves nothing but the reader.
  lemma StuckReceiver(x: Rx, e: RxEvent)
    requires x.inbox.waiting.None? && RxStep(x, e).Next?
    requires e.Arrive? ==> e.p.seqNum < x.inbox.r.prevAck
    ensures var x' := RxStep(x, e).s;
      && x'.inbox.waiting.None? && x'.inbox.r.prevAck == x.inbox.r.prevAck
      && x'.out.acks == x.out.acks
  {
  }

  lemma StuckReceive(s: System, e: RxEvent)
    requires Stuck(s) && ReceiveStep(s, e).Next?
    ensures var s' := ReceiveStep(s, e).s;
      && s' == s.(rx := s'.rx, data := s'.data) && s'.rx.inbox.waiting.None?
      && (forall p :: p in s'.data ==> p in s.data)
      && s'.rx.inbox.r.prevAck == s.rx.inbox.r.prevAck
  {
    StuckReceiver(s.rx, e);
    var sent := multiset(s.rx.out.acks);
    assert s.acks + sent - sent == s.acks;
  }

  // The rate thread starts another timer or repeats an old packet.
  lemma StuckSend(s: System)
    requires Stuck(s) && RateStep(s).Next? && s.tx.basePtr + 1 <= s.tx.currPtr
    ensures Stuck(RateStep(s).s)
  {
  }

  lemma StuckStep(s: System, e: Event)
    requires Stuck(s) && Apply(s, e).Next? && s.tx.basePtr + 1 <= s.tx.currPtr
    ensures Stuck(Apply(s, e).s)
    ensures Apply(s, e).s.rx.inbox.r.prevAck == s.rx.inbox.r.prevAck
    ensures Apply(s, e).s.pushed == s.pushed
  {
    match e
    case Receive(r) => StuckReceive(s, r);
    case RateSection => StuckSend(s);
    case AckArrives(a) => assert Acked(s.tx, a) == s.tx;
    case TimeoutFires => assert Limit(OnTimeout(s.tx.w)) <= Limit(s.tx.w);
    case _ =>
  }

  // Whatever happens next, no new packet is sent and the receiver never gets another
  // byte, however much the application sends or reads.
  lemma {:induction false} StuckForever(s: System, es: seq<Event>)
    requires Reachable(s) && Stuck(s)
    ensures Run(s, es).Next? ==>
      var t := Run(s, es).s;
      && Reachable(t) && Stuck(t)
      && t.pushed == s.pushed && |t.rx.out.bytes| <= s.rx.inbox.r.prevAck
      && t.rx.inbox.r.prevAck == s.rx.inbox.r.prevAck
  {
    if es == [] {
      var a, stream := ReachableInv(s);
    } else {
      StuckForever(s, es[..|es| - 1]);
      if Run(s, es).Next? {
        var t, e := Run(s, es[..|es| - 1]).s, es[|es| - 1];
        var a, stream := ReachableInv(t);
        StuckStep(t, e);
        Extend(INIT, t, e, Apply(t, e).s);
        var a', stream' := ReachableInv(Run(s, es).s);
      }
    }
  }

  lemma NoMoreThan(s: System)
    requires Reachable(s) && Stuck(s)
    ensures forall es, t :: Run(s, es) == Next(t) ==> |t.rx.out.bytes| <= s.rx.inbox.r.prevAck
  {
    forall es, t | Run(s, es) == Next(t) ensures |t.rx.out.bytes| <= s.rx.inbox.r.prevAck {
      StuckForever(s, es);
    }
  }
}
