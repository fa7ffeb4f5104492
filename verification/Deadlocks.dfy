// Runs that end in a connection that is dead for good.
module Deadlocks {
  import opened Common
  import opened TransportTypes
  import opened TransportSender
  import opened TransportReceiver
  import opened Reassembly
  import opened Transport
  import opened TransportLimits

  lemma {:induction false} RunConcat(s: System, es: seq<Event>, fs: seq<Event>)
    requires Run(s, es).Next?
    ensures Run(s, es + fs) == Run(Run(s, es).s, fs)
  {
    if fs == [] {
      assert es + fs == es;
    } else {
      assert (es + fs)[..|es + fs| - 1] == es + fs[..|fs| - 1];
      RunConcat(s, es, fs[..|fs| - 1]);
    }
  }

  // --- Rounds of one full packet ---------------------------------------------------------------

  // The sender's window after i acknowledged packets of 1024 bytes, none of which the
  // application has read.
  function RoundWindow(i: nat): Window {
    if i == 0 then InitWindow() else Window(10 - i, 10 + i, 10 - i, INIT_SSTHRESH, 0, 1024 * i, 0)
  }

  function RoundSender(i: nat, rest: seq<byte>): Sender {
    Sender(RoundWindow(i), i - 1, i, rest, [], 1024 * i, Idle)
  }

  // The same with packet p sent.
  function Sending(i: nat, p: DataPacket, rest: seq<byte>): Sender {
    Sender(RoundWindow(i), i - 1, i + 1, rest, [p], 1024 * (i + 1), Idle)
  }

  ghost predicate Quiet(s: System) {
    s.rx.inbox.waiting == None && s.data == multiset{} && s.acks == multiset{}
  }

  ghost predicate Round(s: System, i: nat, all: seq<byte>) {
    && |all| == MAX_RBUFFER_SIZE && i < 10 && Quiet(s)
    && s.accepted == all && s.tx == RoundSender(i, all[1024 * i..])
    && InOrder(s.rx.inbox.r, 0, 1024 * i)
  }

  lemma CutRound(s: System, i: nat, all: seq<byte>) returns (t: System, p: DataPacket)
    requires LeadsSmoothly(INIT, s) && |all| == MAX_RBUFFER_SIZE && i < 10
    requires s.tx == RoundSender(i, all[1024 * i..]) && s.data == multiset{}
    ensures LeadsSmoothly(INIT, t) && p.seqNum == 1024 * i && |p.buf| == 1024
    ensures t == s.(tx := Sending(i, p, all[1024 * (i + 1)..]), data := multiset{p}, pushed := t.pushed)
  {
    var rest := all[1024 * i..];
    assert rest[1024..] == all[1024 * (i + 1)..];
    t, p := CutNext(INIT, s, 1024);
    assert [] + [p] == [p];
  }

  lemma AckedSender(i: nat, p: DataPacket, rest: seq<byte>)
    requires i < 10
    ensures AckSafe(Sending(i, p, rest), AckPacket(1024 * (i + 1), 9 - i))
    ensures Acked(Sending(i, p, rest), AckPacket(1024 * (i + 1), 9 - i)) == RoundSender(i + 1, rest)
  {
    CDivModExact(1024 * (i + 1), MAX_DATA_SIZE);
    assert [p][1..] == [];
  }

  lemma AckRound(s: System, i: nat, p: DataPacket, rest: seq<byte>) returns (t: System)
    requires LeadsSmoothly(INIT, s) && s.acks == multiset{AckPacket(1024 * (i + 1), 9 - i)} && i < 10
    requires s.tx == Sending(i, p, rest)
    ensures LeadsSmoothly(INIT, t) && t == s.(tx := RoundSender(i + 1, rest), acks := multiset{})
  {
    hide AckSafe, Acked, LeadsSmoothly;
    AckedSender(i, p, rest);
    t := TakeAck(INIT, s, AckPacket(1024 * (i + 1), 9 - i));
  }

  lemma NextRound(s: System, i: nat, all: seq<byte>) returns (u: System)
    requires LeadsSmoothly(INIT, s) && Round(s, i, all) && i < 9
    ensures LeadsSmoothly(INIT, u) && Round(u, i + 1, all)
  {
    hide Apply, Store, Storable, AckOf, LeadsSmoothly;
    var s1, p := CutRound(s, i, all);
    var s2 := PickUp(INIT, s1, p);
    StoreInOrder(s.rx.inbox.r, p, 0, 1024 * i);
    var s3 := ResumeStep(INIT, s2, p);
    u := AckRound(s3, i, p, all[1024 * (i + 1)..]);
  }

  lemma {:induction false} ReachRound(i: nat, all: seq<byte>) returns (s: System)
    requires |all| == MAX_RBUFFER_SIZE && i < 10
    ensures LeadsSmoothly(INIT, s) && Round(s, i, all)
  {
    if i == 0 {
      Stay(INIT);
      assert INIT.tx.sendBuffer + all == all == all[0..] && INIT.accepted + all == all;
      s := INIT.(tx := RoundSender(0, all), accepted := all);
      Continue(INIT, INIT, AppSend(all), s);
    } else {
      var before := ReachRound(i - 1, all);
      s := NextRound(before, i - 1, all);
    }
  }

  lemma ReadInOrder(r: Receiver, n: nat, m: nat)
    requires InOrder(r, 0, n) && m <= n
    ensures CanRead(r, m) && ReadSafe(r, m) && InOrder(AfterRead(r, m), m, n - m)
  {
  }

  lemma Reads(s: System, n: nat, m: nat) returns (t: System)
    requires LeadsSmoothly(INIT, s) && InOrder(s.rx.inbox.r, 0, n) && m <= n
    ensures LeadsSmoothly(INIT, t) && t == s.(rx := t.rx) && t.rx.inbox.waiting == s.rx.inbox.waiting
    ensures InOrder(t.rx.inbox.r, m, n - m)
  {
    hide InOrder, CanRead, ReadSafe, AfterRead, ReadBytes, LeadsSmoothly;
    var r, sent := s.rx.inbox.r, s.rx.out.acks;
    ReadInOrder(r, n, m);
    assert s.acks + multiset(sent) - multiset(sent) == s.acks;
    t := s.(rx := Rx(s.rx.inbox.(r := AfterRead(r, m)), s.rx.out.(bytes := s.rx.out.bytes + ReadBytes(r, m))));
    assert RxStep(s.rx, Read(m)) == Next(t.rx);
    Continue(INIT, s, Receive(Read(m)), t);
  }

  // --- Without any loss: a window advertised as zero ---------------------------------------------

  lemma ZeroWindowSticks(s: System)
    requires s.tx.pc.Idle? && Quiet(s) && s.tx.w.swnd <= 0 && s.tx.w.rwnd <= 0
    ensures Stuck(s)
  {
  }

  // The receiver holds the tenth packet, which fits since one byte was read.
  lemma LastRound(all: seq<byte>) returns (t: System, p: DataPacket)
    requires |all| == MAX_RBUFFER_SIZE
    ensures LeadsSmoothly(INIT, t) && t.accepted == all && t.data == multiset{} && t.acks == multiset{}
    ensures t.tx == Sending(9, p, all[10240..]) && p.seqNum == 9216 && |p.buf| == 1024
    ensures t.rx.inbox.waiting == Some(p) && InOrder(t.rx.inbox.r, 1, 9215)
  {
    var s := ReachRound(9, all);
    var s1, s2;
    s1, p := CutRound(s, 9, all);
    s2 := PickUp(INIT, s1, p);
    t := Reads(s2, 9216, 1);
  }

  // Ten packets, of which the application reads one byte before the last is stored,
  // close the window for good: all that is accepted afterwards is never delivered.
  lemma DeadlockReachable(all: seq<byte>) returns (s: System)
    requires |all| == MAX_RBUFFER_SIZE
    ensures LeadsSmoothly(INIT, s) && Stuck(s) && s.accepted == all
    ensures forall es, t :: Run(s, es) == Next(t) ==> |t.rx.out.bytes| <= MAX_RBUFFER_SIZE
  {
    hide Apply, Store, Storable, AckOf, LeadsSmoothly;
    var t, p := LastRound(all);
    StoreInOrder(t.rx.inbox.r, p, 1, 9215);
    var t' := ResumeStep(INIT, t, p);
    s := AckRound(t', 9, p, all[10240..]);
    ZeroWindowSticks(s);
    LeadsAnyway(INIT, s);
    NoMoreThan(s);
  }

  // --- With one loss: an acknowledgement ------------------------------------------------------------

  // The rate thread finds the window used up and starts a timer; the packet arrives, its
  // acknowledgement is lost, and the timer fires. No acknowledgement comes in between.
  function LosingAck(p: DataPacket): seq<Event> {
    [RateSection, Receive(Arrive(p)), Receive(Resume), DropAck(AckPacket(10240, 9)), TimeoutFires]
  }

  // The tenth packet is sent when everything before it was read. Its acknowledgement is
  // the only thing ever lost. The packet is repeated after each timeout, but the receiver,
  // which has it, never acknowledges it again.
  lemma LostAckIsFatal(all: seq<byte>) returns (before: System, p: DataPacket, s: System)
    requires |all| == MAX_RBUFFER_SIZE
    ensures LeadsSmoothly(INIT, before) && Choose(before.tx).Stop?
    ensures Run(before, LosingAck(p)) == Next(s)
    ensures Reachable(s) && Stuck(s) && s.accepted == all
    ensures forall es, t :: Run(s, es) == Next(t) ==> |t.rx.out.bytes| <= MAX_RBUFFER_SIZE
  {
    before, p := WindowUsedUp(all);
    s := LoseAck(before, p, all[10240..]);
    OldPacketSticks(s, p);
    NoMoreThan(s);
  }

  lemma WindowUsedUp(all: seq<byte>) returns (s: System, p: DataPacket)
    requires |all| == MAX_RBUFFER_SIZE
    ensures LeadsSmoothly(INIT, s) && s.tx == Sending(9, p, all[10240..]) && Choose(s.tx).Stop?
    ensures p.seqNum == 9216 && |p.buf| == 1024 && InOrder(s.rx.inbox.r, 9216, 0)
    ensures s.rx.inbox.waiting == None && s.data == multiset{p} && s.acks == multiset{} && s.accepted == all
  {
    var s1 := ReachRound(9, all);
    var s2 := Reads(s1, 9216, 9216);
    s, p := CutRound(s2, 9, all);
  }

  lemma LoseAck(s: System, p: DataPacket, rest: seq<byte>) returns (t: System)
    requires LeadsSmoothly(INIT, s) && s.tx == Sending(9, p, rest) && Choose(s.tx).Stop?
    requires p.seqNum == 9216 && |p.buf| == 1024 && InOrder(s.rx.inbox.r, 9216, 0)
    requires s.rx.inbox.waiting == None && s.data == multiset{p} && s.acks == multiset{}
    ensures Run(s, LosingAck(p)) == Next(t) && Reachable(t)
    ensures Quiet(t) && t.tx == TimedOut(s.tx) && t.accepted == s.accepted && t.rx.inbox.r.prevAck == 10240
  {
    hide Apply, Store, Storable, AckOf, LeadsSmoothly, Leads, Run, TimedOut;
    var s1 := StartTimer(s);
    var s2 := PickUp(INIT, s1, p);
    StoreInOrder(s2.rx.inbox.r, p, 9216, 0);
    var s3 := ResumeStep(INIT, s2, p);
    var s4;
    s4, t := DropThenTimeout(s3, AckPacket(10240, 9));
    Steps(s, LosingAck(p), [s, s1, s2, s3, s4, t]);
  }

  lemma StartTimer(s: System) returns (t: System)
    requires LeadsSmoothly(INIT, s) && s.tx.pc.Idle? && Choose(s.tx).Stop?
    ensures LeadsSmoothly(INIT, t) && Apply(s, RateSection) == Next(t) && t == s.(timers := s.timers + 1)
  {
    t := s.(timers := s.timers + 1);
    Continue(INIT, s, RateSection, t);
  }

  lemma DropThenTimeout(s: System, ack: AckPacket) returns (t: System, u: System)
    requires LeadsSmoothly(INIT, s) && s.acks == multiset{ack} && s.timers > 0
    ensures Apply(s, DropAck(ack)) == Next(t) && Apply(t, TimeoutFires) == Next(u) && Reachable(u)
    ensures u == s.(acks := multiset{}, tx := TimedOut(s.tx), timers := s.timers - 1)
  {
    hide Leads, LeadsSmoothly, TimedOut;
    LeadsAnyway(INIT, s);
    assert s.acks - multiset{ack} == multiset{};
    t := s.(acks := multiset{});
    Extend(INIT, s, DropAck(ack), t);
    u := t.(tx := TimedOut(s.tx), timers := s.timers - 1);
    Extend(INIT, t, TimeoutFires, u);
  }

  // A run given state by state.
  lemma {:induction false} Steps(s: System, es: seq<Event>, ts: seq<System>)
    requires |ts| == |es| + 1 && ts[0] == s
    requires forall i :: 0 <= i < |es| ==> Apply(ts[i], es[i]) == Next(ts[i + 1])
    ensures Run(s, es) == Next(ts[|es|])
  {
    if es != [] {
      Steps(s, es[..|es| - 1], ts[..|es|]);
    }
  }

  lemma OldPacketSticks(s: System, p: DataPacket)
    requires s.tx.pc.Idle? && s.tx.pktBuffer == [p] && p.seqNum < s.rx.inbox.r.prevAck && s.tx.w.swnd <= 1
    requires Quiet(s)
    ensures Stuck(s)
  {
  }

  // --- Without any loss: short packets ---------------------------------------------------------------

  // The sender's window after k acknowledged packets of one byte.
  function TinyWindow(k: nat): Window {
    if k == 0 then InitWindow() else Window(9, 10 + k, 9, INIT_SSTHRESH, 0, k, 0)
  }

  ghost predicate Tiny(s: System, k: nat) {
    && s.tx == Sender(TinyWindow(k), -1, k, [], s.tx.pktBuffer, k, Idle)
    && |s.tx.pktBuffer| == k && (forall i :: 0 <= i < k ==> s.tx.pktBuffer[i].seqNum < k)
    && Quiet(s) && InOrder(s.rx.inbox.r, 0, k) && |s.accepted| == k
  }

  lemma TinyAcked(t: Sender, k: nat)
    requires k < 9 && t == Sender(TinyWindow(k), -1, k + 1, [], t.pktBuffer, k + 1, Idle)
    ensures AckSafe(t, AckPacket(k + 1, 9))
    ensures Acked(t, AckPacket(k + 1, 9)) == t.(w := TinyWindow(k + 1))
  {
    CDivModExact(k + 1, MAX_DATA_SIZE);
    assert t.pktBuffer[0..] == t.pktBuffer;
  }

  lemma AckTiny(s: System, k: nat) returns (t: System)
    requires LeadsSmoothly(INIT, s) && k < 9 && s.acks == multiset{AckPacket(k + 1, 9)}
    requires s.tx == Sender(TinyWindow(k), -1, k + 1, [], s.tx.pktBuffer, k + 1, Idle)
    ensures LeadsSmoothly(INIT, t) && t == s.(tx := s.tx.(w := TinyWindow(k + 1)), acks := multiset{})
  {
    hide AckSafe, Acked, LeadsSmoothly;
    TinyAcked(s.tx, k);
    t := TakeAck(INIT, s, AckPacket(k + 1, 9));
  }

  lemma NextTiny(s: System, k: nat, x: byte) returns (t: System)
    requires LeadsSmoothly(INIT, s) && Tiny(s, k) && k < 9
    ensures LeadsSmoothly(INIT, t) && Tiny(t, k + 1)
  {
    hide Apply, Store, Storable, AckOf, LeadsSmoothly;
    var s1, p := SendByte(INIT, s, x);
    var s2 := PickUp(INIT, s1, p);
    StoreInOrder(s2.rx.inbox.r, p, 0, k);
    var s3 := ResumeStep(INIT, s2, p);
    t := AckTiny(s3, k);
  }

  lemma {:induction false} ReachTiny(k: nat, x: byte) returns (s: System)
    requires k <= 9
    ensures LeadsSmoothly(INIT, s) && Tiny(s, k)
  {
    if k == 0 {
      Stay(INIT);
      s := INIT;
    } else {
      var before := ReachTiny(k - 1, x);
      s := NextTiny(before, k - 1, x);
    }
  }

  // Nine packets of one byte, each received and acknowledged before the next is sent, stop
  // a connection for good: none of them is ever popped, and they use up the whole window.
  lemma ShortPacketsStarve(x: byte) returns (s: System)
    ensures LeadsSmoothly(INIT, s) && Stuck(s) && Choose(s.tx).Stop?
    ensures s.tx.w.rwnd == 9 && s.tx.w.currAck == s.rx.inbox.r.prevAck == |s.accepted| == 9
    ensures forall es, t :: Run(s, es) == Next(t) ==> |t.rx.out.bytes| <= 9
  {
    s := ReachTiny(9, x);
    NoMoreThan(s);
  }
}
