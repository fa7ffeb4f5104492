// What the sender does after a sign of loss, and when that helps.
module Recovery {
  import opened Common
  import opened TransportTypes
  import opened TransportSender
  import opened TransportReceiver
  import opened Reassembly
  import opened Transport
  import opened TransportLimits
  import Congestion
  import Deadlocks
  import FlowControl

  lemma Then(s: System, t: System, u: System)
    requires Leads(s, t) && Leads(t, u)
    ensures Leads(s, u)
  {
    var es :| Run(s, es) == Next(t);
    var fs :| Run(t, fs) == Next(u);
    Deadlocks.RunConcat(s, es, fs);
    assert Run(s, es + fs) == Next(u);
  }

  // --- Going back ----------------------------------------------------------------------

  // A timeout, or an acknowledgement repeated for the third time.
  predicate LossSignal(w: Window, e: Event) {
    e.TimeoutFires? || (e.AckArrives? && ThirdDuplicate(w, e.a.ack))
  }

  function Times(e: Event, n: nat): seq<Event> { seq(n, _ => e) }

  function WithPackets(data: multiset<DataPacket>, pkts: seq<DataPacket>, i: nat, j: nat): multiset<DataPacket>
    requires i <= j <= |pkts|
  {
    data + multiset(pkts[i..j])
  }

  // The state after the next n packets of the buffer, from number currptr on, were sent again.
  function Swept(s: System, n: nat): System
    requires 0 <= s.tx.currPtr - s.tx.basePtr - 1 && s.tx.currPtr - s.tx.basePtr - 1 + n <= |s.tx.pktBuffer|
  {
    var j := s.tx.currPtr - s.tx.basePtr - 1;
    s.(tx := s.tx.(currPtr := s.tx.currPtr + n), data := WithPackets(s.data, s.tx.pktBuffer, j, j + n))
  }

  lemma SweepNone(s: System)
    requires 0 <= s.tx.currPtr - s.tx.basePtr - 1 <= |s.tx.pktBuffer|
    ensures Swept(s, 0) == s
  {
    var j := s.tx.currPtr - s.tx.basePtr - 1;
    assert s.tx.pktBuffer[j..j] == [];
    assert s.data + multiset([]) == s.data;
  }

  lemma ChoosesNext(t: Sender)
    requires 0 <= t.currPtr - t.basePtr - 1 < Min(|t.pktBuffer|, t.w.swnd)
    ensures Choose(t) == Resend(t.pktBuffer[t.currPtr - t.basePtr - 1])
  {
  }

  lemma ResendStep(s: System, p: DataPacket)
    requires s.tx.pc.Idle? && Choose(s.tx) == Resend(p)
    ensures Apply(s, RateSection)
         == Next(s.(tx := s.tx.(currPtr := s.tx.currPtr + 1), data := s.data + multiset{p}))
  {
    hide Choose;
  }

  lemma OnePacketMore(data: multiset<DataPacket>, pkts: seq<DataPacket>, i: nat, j: nat)
    requires i <= j < |pkts|
    ensures WithPackets(data, pkts, i, j) + multiset{pkts[j]} == WithPackets(data, pkts, i, j + 1)
  {
    assert pkts[i..j + 1] == pkts[i..j] + [pkts[j]];
  }

  lemma SweepOne(s: System, n: nat)
    requires s.tx.pc.Idle? && 0 <= s.tx.currPtr - s.tx.basePtr - 1
    requires s.tx.currPtr - s.tx.basePtr - 1 + n < Min(|s.tx.pktBuffer|, s.tx.w.swnd)
    ensures Apply(Swept(s, n), RateSection) == Next(Swept(s, n + 1))
  {
    hide Choose, Apply, WithPackets;
    var u, j := Swept(s, n), s.tx.currPtr - s.tx.basePtr - 1;
    var p := s.tx.pktBuffer[j + n];
    ChoosesNext(u.tx);
    ResendStep(u, p);
    OnePacketMore(s.data, s.tx.pktBuffer, j, j + n);
  }

  // From number currptr on the rate thread repeats the packets of the buffer, each once and
  // in order, as far as buffer and window allow.
  lemma {:induction false} Repeats(s: System, n: nat)
    requires s.tx.pc.Idle? && 0 <= s.tx.currPtr - s.tx.basePtr - 1 <= |s.tx.pktBuffer|
    requires n == 0 || s.tx.currPtr - s.tx.basePtr - 1 + n <= Min(|s.tx.pktBuffer|, s.tx.w.swnd)
    ensures Run(s, Times(RateSection, n)) == Next(Swept(s, n))
  {
    hide Apply, Swept;
    if n == 0 {
      SweepNone(s);
    } else {
      Repeats(s, n - 1);
      assert Times(RateSection, n)[..n - 1] == Times(RateSection, n - 1);
      SweepOne(s, n - 1);
    }
  }

  // The usable window after a sign of loss.
  function LossWindow(w: Window, e: Event): int {
    Usable(if e.TimeoutFires? then 1 else w.ssthresh, w.rwnd)
  }

  // What comes after the last packet of a sweep.
  predicate EndsSweep(t: Sender, size: int) { Choose(t) == if size > |t.pktBuffer| then Fetch else Stop }

  lemma LossGoesBack(s: System, e: Event)
    requires LossSignal(s.tx.w, e) && Apply(s, e).Next?
    ensures var t := Apply(s, e).s;
      && t.tx.w.swnd == LossWindow(s.tx.w, e) && t.tx.currPtr == t.tx.basePtr + 1 && t.tx.pc == s.tx.pc
      && t.tx.pktBuffer == s.tx.pktBuffer && t.tx.sendBuffer == s.tx.sendBuffer
  {
  }

  // A sweep that is as long as buffer and window allow.
  lemma SweepEnds(s: System, n: nat, size: int)
    requires 0 <= s.tx.currPtr - s.tx.basePtr - 1 && s.tx.w.swnd == size
    requires var k := s.tx.currPtr - s.tx.basePtr - 1 + n;
      k == |s.tx.pktBuffer| || (k < |s.tx.pktBuffer| && size <= k)
    ensures EndsSweep(Swept(s, n).tx, size)
  {
  }

  // After a sign of loss exactly the buffered packets inside the new window are sent
  // again, in one sweep that ends with new data only if the window is not used up.
  lemma LossRepeats(s: System, e: Event)
    requires s.tx.pc.Idle? && LossSignal(s.tx.w, e) && Apply(s, e).Next?
    ensures var t, size := Apply(s, e).s, LossWindow(s.tx.w, e);
      var n := Min(|s.tx.pktBuffer|, Max(0, size));
      && t.tx.w.swnd == size && t.tx.pktBuffer == s.tx.pktBuffer && t.tx.currPtr == t.tx.basePtr + 1
      && Run(t, Times(RateSection, n)) == Next(Swept(t, n)) && EndsSweep(Swept(t, n).tx, size)
  {
    hide Swept;
    var t, size := Apply(s, e).s, LossWindow(s.tx.w, e);
    LossGoesBack(s, e);
    var n := Min(|t.tx.pktBuffer|, Max(0, size));
    Repeats(t, n);
    SweepEnds(t, n, size);
  }

  // How the rate thread comes out of the gap.
  function OutOfGap(pc: RatePc): seq<Event> {
    if pc.Fetching? then [FetchData, PushPacket] else [PushPacket]
  }

  // Its state then: a packet more in the buffer and on the network, and one step forward.
  ghost predicate OutOf(t: System, u: System) {
    && u.tx.pc.Idle? && |u.tx.pktBuffer| == |t.tx.pktBuffer| + 1 && t.tx.pktBuffer <= u.tx.pktBuffer
    && u.tx.basePtr == t.tx.basePtr && u.tx.w == t.tx.w && u.tx.currPtr == t.tx.currPtr + 1
    && u.data == t.data + multiset{u.tx.pktBuffer[|t.tx.pktBuffer|]}
  }

  lemma LeavesGap(t: System) returns (u: System)
    requires t.tx.pc.Holding? || (t.tx.pc.Fetching? && t.tx.sendBuffer != [])
    ensures Run(t, OutOfGap(t.tx.pc)) == Next(u) && OutOf(t, u)
  {
    if t.tx.pc.Fetching? {
      var h := Apply(t, FetchData).s;
      u := Apply(h, PushPacket).s;
      Deadlocks.Steps(t, [FetchData, PushPacket], [t, h, u]);
    } else {
      u := Apply(t, PushPacket).s;
      Deadlocks.Steps(t, [PushPacket], [t, u]);
    }
  }

  // A sign of loss in the gap: the new packet is sent in place of the first one, and then the
  // sweep goes on with the second, each once and in order, as far as the window reaches.
  lemma LossInGapRepeats(s: System, e: Event) returns (u: System)
    requires s.tx.pc.Holding? || (s.tx.pc.Fetching? && s.tx.sendBuffer != [])
    requires LossSignal(s.tx.w, e) && Apply(s, e).Next?
    ensures var t, size := Apply(s, e).s, LossWindow(s.tx.w, e);
      var n := Min(|s.tx.pktBuffer|, Max(0, size - 1));
      && Run(t, OutOfGap(s.tx.pc)) == Next(u) && OutOf(t, u) && s.tx.pktBuffer == t.tx.pktBuffer
      && u.tx.currPtr == u.tx.basePtr + 2
      && Run(u, Times(RateSection, n)) == Next(Swept(u, n)) && EndsSweep(Swept(u, n).tx, size)
  {
    hide Swept, Apply;
    var t, size := Apply(s, e).s, LossWindow(s.tx.w, e);
    LossGoesBack(s, e);
    u := LeavesGap(t);
    var n := Min(|s.tx.pktBuffer|, Max(0, size - 1));
    Repeats(u, n);
    SweepEnds(u, n, size);
  }

  // --- The window of the connection --------------------------------------------------------------

  // What update_window and the timeout handler were called with.
  function Signals(es: seq<Event>): seq<Congestion.WinEvent> {
    if es == [] then []
    else
      var e := es[|es| - 1];
      Signals(es[..|es| - 1])
      + if e.TimeoutFires? then [Congestion.Expired] else if e.AckArrives? then [Congestion.AckIn(e.a)] else []
  }

  // All laws of the congestion window hold in every run of the connection: its window is the
  // window after those calls, whatever else happened.
  lemma {:induction false} WindowOfRun(es: seq<Event>)
    requires Run(INIT, es).Next?
    ensures Run(INIT, es).s.tx.w == Congestion.WinRun(InitWindow(), Signals(es))
  {
    hide Apply, Congestion.WinStep;
    if es == [] {
      FirstWindow();
    } else {
      var before, e := es[..|es| - 1], es[|es| - 1];
      WindowOfRun(before);
      WindowStep(Run(INIT, before).s, e);
      var ws := Signals(before);
      if e.TimeoutFires? {
        assert (ws + [Congestion.Expired])[..|ws|] == ws;
      } else if e.AckArrives? {
        assert (ws + [Congestion.AckIn(e.a)])[..|ws|] == ws;
      } else {
        assert ws + [] == ws;
      }
    }
  }

  lemma FirstWindow()
    ensures INIT.tx.w == InitWindow() && Congestion.WinRun(InitWindow(), []) == InitWindow()
  {
    Congestion.InitSound();
  }

  lemma WindowStep(s: System, e: Event)
    requires Apply(s, e).Next? && Congestion.Sound(s.tx.w)
    ensures Apply(s, e).s.tx.w ==
      if e.TimeoutFires? then Congestion.WinStep(s.tx.w, Congestion.Expired)
      else if e.AckArrives? then Congestion.WinStep(s.tx.w, Congestion.AckIn(e.a))
      else s.tx.w
  {
  }

  // --- Where the thread stands -----------------------------------------------------------------

  // Only the rate thread's own steps move it, cut packets or take bytes.
  lemma OnlyThreadMoves(s: System, e: Event)
    requires Apply(s, e).Next? && !e.RateSection? && !e.FetchData? && !e.PushPacket?
    ensures var t := Apply(s, e).s;
      && t.tx.pc == s.tx.pc && t.tx.byteSeqNum == s.tx.byteSeqNum && t.pushed == s.pushed
      && s.tx.sendBuffer <= t.tx.sendBuffer && (!e.AppSend? ==> t.tx.sendBuffer == s.tx.sendBuffer)
  {
  }

  // How many packets the rate thread puts on the network with an event.
  function PutsAt(s: System, e: Event): int
    requires Apply(s, e).Next?
  {
    if e.RateSection? || e.PushPacket? then |Apply(s, e).s.data| - |s.data| else 0
  }

  function Puts(s: System, es: seq<Event>): int
    requires Run(s, es).Next?
  {
    if es == [] then 0
    else Puts(s, es[..|es| - 1]) + PutsAt(Run(s, es[..|es| - 1]).s, es[|es| - 1])
  }

  // An acknowledgement of new data.
  predicate Advances(w: Window, e: Event) { e.AckArrives? && e.a.ack > w.currAck }

  // No sign of loss and no new acknowledgement in a run.
  predicate Steady(s: System, es: seq<Event>)
    requires Run(s, es).Next?
  {
    es == [] ||
    var before, e := es[..|es| - 1], es[|es| - 1];
    Steady(s, before) && !LossSignal(Run(s, before).s.tx.w, e) && !Advances(Run(s, before).s.tx.w, e)
  }

  // Then currptr counts exactly the packets put on the network, resent or new.
  lemma {:induction false} CurrPtrCounts(s: System, es: seq<Event>)
    requires Run(s, es).Next? && Steady(s, es)
    ensures Run(s, es).s.tx.currPtr == s.tx.currPtr + Puts(s, es)
  {
    hide Apply, PutsAt, LossSignal, Advances;
    if es != [] {
      CurrPtrCounts(s, es[..|es| - 1]);
      StepCounts(Run(s, es[..|es| - 1]).s, es[|es| - 1]);
    }
  }

  lemma StepCounts(s: System, e: Event)
    requires Apply(s, e).Next? && !LossSignal(s.tx.w, e) && !Advances(s.tx.w, e)
    ensures Apply(s, e).s.tx.currPtr == s.tx.currPtr + PutsAt(s, e)
  {
  }

  // A new acknowledgement takes currptr past the packets it covers and never back.
  lemma AckNeverGoesBack(s: System, e: Event)
    requires Reachable(s) && Advances(s.tx.w, e) && Apply(s, e).Next?
    ensures var c, covered := Apply(s, e).s.tx.currPtr, PacketsIn(e.a.ack);
      c >= s.tx.currPtr && c >= covered && (c == s.tx.currPtr || c == covered)
  {
    hide GrowSafe, OnNewAck;
    var a, stream := ReachableInv(s);
    AckIsSafe(s, a, stream, e.a);
  }

  // --- Getting through -------------------------------------------------------------------

  ghost predicate CanAdvance(s: System) {
    exists t :: Leads(s, t) && t.rx.inbox.r.prevAck > s.rx.inbox.r.prevAck
  }

  // A packet that arrives where the receiver is waiting gets through, after a read of
  // one byte if need be.
  lemma Delivers(s: System, p: DataPacket) returns (t: System)
    requires Reachable(s) && p in s.data && s.rx.inbox.waiting.None? && p.seqNum == s.rx.inbox.r.prevAck
    ensures Leads(s, t) && t.rx.inbox.r.prevAck > s.rx.inbox.r.prevAck
  {
    hide Apply, Leads, LeadsSmoothly;
    Stay(s);
    var t1 := PickUp(s, s, p);
    LeadsAnyway(s, t1);
    Then(INIT, s, t1);
    var t2 := MakeRoom(t1, p);
    Then(INIT, t1, t2);
    t := Stores(t2, p);
    Then(s, t1, t2);
    Then(s, t2, t);
  }

  lemma Stores(s: System, p: DataPacket) returns (t: System)
    requires Reachable(s) && s.rx.inbox.waiting == Some(p) && Fits(s.rx.inbox.r, p)
    requires p.seqNum == s.rx.inbox.r.prevAck
    ensures Leads(s, t) && t.rx.inbox.r.prevAck > s.rx.inbox.r.prevAck
  {
    hide Leads, Storable, Store, AckOf;
    var a, stream := ReachableInv(s);
    StepRefines(s.rx, a, Resume);
    AckProgress(s.rx, a, Resume);
    FlowControl.PacketNotEmpty(s, a, stream, p);
    t := Apply(s, Receive(Resume)).s;
    Stay(s);
    Extend(s, s, Receive(Resume), t);
  }

  lemma MakeRoom(s: System, p: DataPacket) returns (t: System)
    requires Reachable(s) && s.rx.inbox.waiting == Some(p)
    ensures Leads(s, t) && t.rx.inbox.waiting == Some(p) && Fits(t.rx.inbox.r, p)
    ensures t.rx.inbox.r.prevAck == s.rx.inbox.r.prevAck
  {
    hide Leads;
    Stay(s);
    t := s;
    if !Fits(s.rx.inbox.r, p) {
      var a, stream := ReachableInv(s);
      FlowControl.WaitsForReaderOnly(s, p);
      StepRefines(s.rx, a, Read(1));
      t := Apply(s, Receive(Read(1))).s;
      Extend(s, s, Receive(Read(1)), t);
    }
  }

  // No packet of the buffer starts before its first one.
  lemma FirstIsAwaitedOrOld(s: System)
    requires Reachable(s) && s.tx.pktBuffer != []
    ensures s.tx.pktBuffer[0].seqNum <= s.rx.inbox.r.prevAck
  {
    var a, stream := ReachableInv(s);
    var first := s.tx.basePtr + 1;
    assert s.tx.pktBuffer[0] == s.pushed[first] && Piece(s.pushed, first, stream);
    if s.rx.inbox.r.prevAck < s.tx.byteSeqNum {
      NeededPacketKept(s);
      var k :| 0 <= k < |s.tx.pktBuffer| && s.tx.pktBuffer[k].seqNum == s.rx.inbox.r.prevAck;
      if k > 0 { Ordered(s.pushed, stream, first, first + k); }
    } else {
      Ordered(s.pushed, stream, first, |s.pushed|);
    }
  }

  // With an empty packet buffer everything sent was received.
  lemma NothingAwaited(s: System)
    requires Reachable(s) && s.tx.pktBuffer == []
    ensures s.rx.inbox.r.prevAck == s.tx.byteSeqNum
  {
    var a, stream := ReachableInv(s);
    AckBounded(s, a, stream);
    if s.rx.inbox.r.prevAck < s.tx.byteSeqNum { NeededPacketKept(s); }
  }

  ghost predicate Hopeful(s: System) {
    && s.tx.w.rwnd >= 1
    && (s.tx.pktBuffer == [] || s.tx.pktBuffer[0].seqNum == s.rx.inbox.r.prevAck)
  }

  lemma NewPacket(s: System) returns (t: System, p: DataPacket)
    requires Reachable(s) && s.tx.pc.Idle? && s.tx.pktBuffer == [] && s.tx.currPtr == s.tx.basePtr + 1
    requires s.tx.w.swnd >= 1
    ensures Leads(s, t) && p in t.data && p.seqNum == s.rx.inbox.r.prevAck && t.rx == s.rx
  {
    NothingAwaited(s);
    Stay(s);
    var s1 := s;
    if s.tx.sendBuffer == [] {
      s1 := Apply(s, AppSend([0])).s;
      Continue(s, s, AppSend([0]), s1);
    }
    t, p := CutNext(s, s1, ChunkSize(s1.tx));
  }

  lemma RepeatedPacket(s: System) returns (t: System, p: DataPacket)
    requires s.tx.pc.Idle? && s.tx.pktBuffer != [] && s.tx.currPtr == s.tx.basePtr + 1
    requires s.tx.w.swnd >= 1
    ensures Leads(s, t) && p in t.data && p == s.tx.pktBuffer[0] && t.rx == s.rx
  {
    p := s.tx.pktBuffer[0];
    assert Choose(s.tx) == Resend(p);
    t := Apply(s, RateSection).s;
    Stay(s);
    Extend(s, s, RateSection, t);
  }

  lemma SendsAwaited(s: System) returns (t: System, p: DataPacket)
    requires Reachable(s) && s.tx.pc.Idle? && s.tx.currPtr == s.tx.basePtr + 1 && s.tx.w.swnd >= 1
    requires s.tx.pktBuffer == [] || s.tx.pktBuffer[0].seqNum == s.rx.inbox.r.prevAck
    ensures Leads(s, t) && p in t.data && p.seqNum == s.rx.inbox.r.prevAck && t.rx == s.rx
  {
    if s.tx.pktBuffer == [] {
      t, p := NewPacket(s);
    } else {
      t, p := RepeatedPacket(s);
    }
  }

  // With at most one packet allowed, the thread is at the first packet or has stopped there
  // with a timer, which takes it back.
  lemma GoesBack(s: System) returns (t: System)
    requires Reachable(s) && s.tx.pc.Idle? && s.tx.w.swnd <= 1 && s.tx.w.rwnd >= 1
    ensures Leads(s, t) && t.tx.pc.Idle? && t.tx.w.swnd >= 1 && t.tx.currPtr == t.tx.basePtr + 1
    ensures t.tx.pktBuffer == s.tx.pktBuffer && t.rx == s.rx
  {
    hide Leads;
    SenderIndices(s);
    Stay(s);
    t := s;
    if Choose(s.tx).Stop? {
      var s1 := s.(timers := s.timers + 1);
      Extend(s, s, RateSection, s1);
      t := s.(tx := TimedOut(s.tx));
      Extend(s, s1, TimeoutFires, t);
    }
  }

  lemma Recover(s: System) returns (t: System)
    requires Reachable(s) && Spent(s) && Hopeful(s) && s.tx.w.swnd <= 1
    ensures Leads(s, t) && t.rx.inbox.r.prevAck > s.rx.inbox.r.prevAck
  {
    var s1 := GoesBack(s);
    Then(INIT, s, s1);
    var s2, p := SendsAwaited(s1);
    Then(s, s1, s2);
    Then(INIT, s, s2);
    t := Delivers(s2, p);
    Then(s, s2, t);
  }

  lemma HopelessSticks(s: System)
    requires Reachable(s) && Spent(s) && s.tx.w.swnd <= 1 && !Hopeful(s)
    ensures Stuck(s)
  {
    hide Leads, Spent;
    CongestionSafety(s);
    if s.tx.pktBuffer != [] { FirstIsAwaitedOrOld(s); }
  }

  lemma NeverAdvances(s: System)
    requires Reachable(s) && Stuck(s)
    ensures !CanAdvance(s)
  {
    hide Stuck, Apply;
    forall t | Leads(s, t) ensures t.rx.inbox.r.prevAck == s.rx.inbox.r.prevAck {
      var es :| Run(s, es) == Next(t);
      StuckForever(s, es);
    }
  }

  // When nothing is under way and a timeout has reduced the window to one packet, the
  // connection can still deliver something if and only if the receiver's window is not
  // known as zero and the first packet of the buffer, if there is one, is the one the
  // receiver is waiting for.
  lemma RecoversIff(s: System)
    requires Reachable(s) && Spent(s) && s.tx.w.swnd <= 1
    ensures CanAdvance(s) <==> Hopeful(s)
  {
    hide Leads, Stuck, Spent;
    if Hopeful(s) {
      var t := Recover(s);
    } else {
      HopelessSticks(s);
      NeverAdvances(s);
    }
  }
}
