// The packet sent after the unlocked gap of the rate thread.
module SendGap {
  import opened Common
  import opened TransportTypes
  import opened TransportSender
  import opened TransportReceiver
  import opened Transport
  import opened TransportLimits
  import Deadlocks

  // A packet about to be pushed is the one at currptr and inside the window.
  ghost predicate GapInWindow(s: System) {
    s.tx.pc.Idle? || (s.tx.currPtr == |s.pushed| && |s.pushed| - s.tx.basePtr <= s.tx.w.swnd)
  }

  // Whether an event in the gap leaves the new packet in its place. A timeout or a third
  // duplicate does if there is no older packet to go back to and a window of one packet
  // left; a new acknowledgement does if its window is wide enough for the packets after it.
  predicate Harmless(s: System, e: Event) {
    var w := s.tx.w;
    match e
    case TimeoutFires => s.tx.pktBuffer == [] && w.rwnd >= 1
    case AckArrives(a) =>
      if a.ack < w.currAck then true
      else if a.ack == w.currAck then
        ThirdDuplicate(w, a.ack) ==> s.tx.pktBuffer == [] && Usable(w.ssthresh, w.rwnd) >= 1
      else GrowSafe(w, a.ack) && |s.pushed| - PacketsIn(a.ack) < OnAck(w, a).swnd
    case _ => true
  }

  lemma TimeoutInGapIff(s: System)
    requires Reachable(s) && GapInWindow(s) && !s.tx.pc.Idle?
    ensures GapInWindow(s.(tx := TimedOut(s.tx))) <==> Harmless(s, TimeoutFires)
  {
    var a, stream := ReachableInv(s);
  }

  lemma AckInGapIff(s: System, ack: AckPacket)
    requires Reachable(s) && GapInWindow(s) && !s.tx.pc.Idle? && ack in s.acks
    ensures AckSafe(s.tx, ack)
    ensures GapInWindow(s.(tx := Acked(s.tx, ack))) <==> Harmless(s, AckArrives(ack))
  {
    var a, stream := ReachableInv(s);
    AckIsSafe(s, a, stream, ack);
    if ack.ack > s.tx.w.currAck {
      assert s.tx.currPtr == |s.pushed| >= PacketsBelow(ack.ack);
    }
  }

  // The packet to be pushed leaves its place with exactly the events that are not harmless.
  lemma GapKeptIff(s: System, e: Event)
    requires Reachable(s) && GapInWindow(s) && !s.tx.pc.Idle? && Apply(s, e).Next?
    ensures GapInWindow(Apply(s, e).s) <==> Harmless(s, e)
  {
    match e
    case TimeoutFires => TimeoutInGapIff(s);
    case AckArrives(ack) => AckInGapIff(s, ack);
    case _ =>
  }

  // The rate thread enters the gap only for a packet in the window.
  lemma GapEntered(s: System, e: Event)
    requires Reachable(s) && s.tx.pc.Idle? && Apply(s, e).Next?
    ensures GapInWindow(Apply(s, e).s)
  {
    var a, stream := ReachableInv(s);
  }

  // --- A timeout in the gap -----------------------------------------------------------------

  // k packets of one byte are sent and none has arrived.
  ghost predicate Burst(s: System, k: nat) {
    && s.tx == Sender(InitWindow(), -1, k, [], s.pushed, k, Idle) && |s.pushed| == k
    && s.rx == INIT.rx && s.acks == multiset{} && s.timers == 0
    && (k > 0 ==> s.pushed[0] in s.data && s.pushed[0].seqNum == 0 && |s.pushed[0].buf| == 1)
  }

  lemma {:induction false} ReachBurst(k: nat, x: byte) returns (s: System)
    requires k <= 5
    ensures LeadsSmoothly(INIT, s) && Burst(s, k)
  {
    if k == 0 {
      Stay(INIT);
      s := INIT;
    } else {
      var before := ReachBurst(k - 1, x);
      var p;
      s, p := SendByte(INIT, before, x);
    }
  }

  // The window is used up, and a timer starts. The application sends a byte, which wakes
  // the rate thread; it finds the window still used up and starts a second timer.
  lemma TwoTimers(x: byte, y: byte) returns (s: System)
    ensures LeadsSmoothly(INIT, s) && s.timers == 2 && |s.pushed| == 5
    ensures s.tx == Sender(InitWindow(), -1, 5, [y], s.pushed, 5, Idle)
    ensures s.rx == INIT.rx && s.acks == multiset{}
    ensures s.pushed[0] in s.data && s.pushed[0].seqNum == 0 && |s.pushed[0].buf| == 1
  {
    var s1 := ReachBurst(5, x);
    assert Choose(s1.tx) == Stop;
    var s2 := s1.(timers := 1);
    Continue(INIT, s1, RateSection, s2);
    assert s1.tx.sendBuffer + [y] == [y];
    var s3 := s2.(tx := s2.tx.(sendBuffer := [y]), accepted := s2.accepted + [y]);
    Continue(INIT, s2, AppSend([y]), s3);
    s := s3.(timers := 2);
    Continue(INIT, s3, RateSection, s);
  }

  // The window after the acknowledgement of the first byte.
  const WIDER: Window := Window(9, 11, 9, INIT_SSTHRESH, 0, 1, 0)

  lemma FirstAck(t: Sender)
    requires t.w == InitWindow() && t.basePtr == -1 && t.currPtr == 5
    ensures AckSafe(t, AckPacket(1, 9)) && Acked(t, AckPacket(1, 9)) == t.(w := WIDER)
  {
    CDivModExact(1, MAX_DATA_SIZE);
    assert t.pktBuffer[0..] == t.pktBuffer;
  }

  lemma WindowOpens(s: System) returns (t: System)
    requires LeadsSmoothly(INIT, s) && s.acks == multiset{AckPacket(1, 9)} && s.timers == 2
    requires s.tx == Sender(InitWindow(), -1, 5, s.tx.sendBuffer, s.tx.pktBuffer, 5, Idle)
    requires |s.tx.pktBuffer| == 5
    ensures LeadsSmoothly(INIT, t) && t == s.(tx := s.tx.(w := WIDER, pc := Fetching), acks := multiset{}, timers := 1)
  {
    hide AckSafe, Acked, LeadsSmoothly;
    FirstAck(s.tx);
    var s1 := TakeAck(INIT, s, AckPacket(1, 9));
    var s2 := s1.(timers := 1);
    Continue(INIT, s1, TimerInterrupted, s2);
    assert Choose(s2.tx) == Fetch;
    t := s2.(tx := s2.tx.(pc := Fetching));
    Continue(INIT, s2, RateSection, t);
  }

  // The first packet arrives, and its acknowledgement, which interrupts the second timer
  // and opens the window. The rate thread goes for new data while the first timer runs.
  lemma GapReached(x: byte, y: byte) returns (s: System)
    ensures LeadsSmoothly(INIT, s) && s.timers == 1 && |s.pushed| == 5
    ensures s.tx == Sender(WIDER, -1, 5, [y], s.pushed, 5, Fetching)
  {
    hide Apply, Store, Storable, AckOf, LeadsSmoothly;
    var s1 := TwoTimers(x, y);
    var p := s1.pushed[0];
    var s2 := PickUp(INIT, s1, p);
    StoreInOrder(s2.rx.inbox.r, p, 0, 0);
    var s3 := ResumeStep(INIT, s2, p);
    s := WindowOpens(s3);
  }

  // The first timer fires in the gap: the packet sent in the end is not the one at
  // currptr, and it is beyond the window of one packet.
  lemma GapOvershoots(x: byte, y: byte) returns (before: System, s: System)
    ensures LeadsSmoothly(INIT, before) && GapInWindow(before) && before.tx.pc.Fetching?
    ensures Run(before, [TimeoutFires, FetchData]) == Next(s) && s.tx.pc == Holding([y])
    ensures s.tx.currPtr < |s.pushed| && |s.pushed| - s.tx.basePtr > s.tx.w.swnd
  {
    before := GapReached(x, y);
    var late := before.(tx := TimedOut(before.tx), timers := 0);
    assert [y][..1] == [y] && [y][1..] == [];
    s := late.(tx := TakeData(late.tx));
    Deadlocks.Steps(before, [TimeoutFires, FetchData], [before, late, s]);
  }
}
