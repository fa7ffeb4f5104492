// Reassembly against its simple specification: the set of bytes received so far.
module Reassembly {
  import opened Common
  import opened TransportTypes
  import opened TransportReceiver

  // What happens at the receiver: a datagram is picked up, the picked up packet
  // is stored once it fits, the application reads.
  datatype RxEvent = Arrive(p: DataPacket) | Resume | Read(n: nat)

  // Everything visible from outside: acknowledgements sent and bytes read.
  datatype Trace = Trace(acks: seq<AckPacket>, bytes: seq<byte>)

  // --- The implementation: the deque and the packet its thread holds -----------

  datatype Inbox = Inbox(r: Receiver, waiting: Option<DataPacket>)

  const INIT_INBOX: Inbox := Inbox(InitReceiver(), None)

  datatype Rx = Rx(inbox: Inbox, out: Trace)

  function RxStep(x: Rx, e: RxEvent): Outcome<Rx> {
    var Inbox(r, waiting) := x.inbox;
    match e
    case Arrive(p) =>
      if waiting.Some? then Blocked
      else if Old(r, p) then Next(x)
      else Next(x.(inbox := Inbox(r, Some(p))))
    case Resume =>
      if waiting.None? || !Fits(r, waiting.value) then Blocked
      else if !Storable(r, waiting.value) then Fault
      else
        var r' := Store(r, waiting.value);
        Next(Rx(Inbox(r', None), x.out.(acks := x.out.acks + [AckOf(r')])))
    case Read(n) =>
      if !CanRead(r, n) then Blocked
      else if !ReadSafe(r, n) then Fault
      else Next(Rx(Inbox(AfterRead(r, n), waiting), x.out.(bytes := x.out.bytes + ReadBytes(r, n))))
  }

  // --- The specification: which bytes were received, how many were read --------

  datatype Simple = Simple(got: map<int, byte>, read: nat, waiting: Option<DataPacket>, out: Trace)

  const INIT_SIMPLE: Simple := Simple(map[], 0, None, Trace([], []))

  // The least sequence number never received.
  function LeastMissing(got: set<int>, from: int): (n: int)
    ensures from <= n && n !in got
    ensures forall x :: from <= x < n ==> x in got
    decreases got
  {
    if from in got then LeastMissing(got - {from}, from + 1) else from
  }

  function Expected(a: Simple): int { LeastMissing(a.got.Keys, 0) }

  predicate Covers(p: DataPacket, x: int) { p.seqNum <= x < p.seqNum + |p.buf| }

  function Payload(p: DataPacket): map<int, byte> {
    map x | p.seqNum <= x < p.seqNum + |p.buf| && Covers(p, x) :: p.buf[x - p.seqNum]
  }

  // Bytes received and not read yet.
  function Unread(a: Simple): set<int> { set x | x in a.got && x >= a.read }

  function SimpleStep(a: Simple, e: RxEvent): Outcome<Simple> {
    match e
    case Arrive(p) =>
      if a.waiting.Some? then Blocked
      else if p.seqNum < Expected(a) then Next(a)
      else Next(a.(waiting := Some(p)))
    case Resume =>
      if a.waiting.None? || a.waiting.value.seqNum + |a.waiting.value.buf| >= a.read + MAX_RBUFFER_SIZE then Blocked
      else
        var b := a.(got := a.got + Payload(a.waiting.value), waiting := None);
        var ack := AckPacket(Expected(b), CDiv(MAX_RBUFFER_SIZE - |Unread(b)|, MAX_DATA_SIZE));
        Next(b.(out := b.out.(acks := b.out.acks + [ack])))
    case Read(n) =>
      if a.read + n > Expected(a) then Blocked
      else
        var bytes := seq(n, k requires 0 <= k < n => a.got[a.read + k]);
        Next(a.(read := a.read + n, out := a.out.(bytes := a.out.bytes + bytes)))
  }

  // --- Refinement ----------------------------------------------------------------

  // A slot holds exactly what was received for sequence number x.
  ghost predicate SlotHolds(slot: Slot, x: int, got: map<int, byte>) {
    && (slot.full <==> x in got)
    && (slot.full ==> got[x] == slot.ch)
  }

  // The deque b, whose first slot stands for sequence number base.
  ghost predicate DequeHolds(b: seq<Slot>, base: int, got: map<int, byte>) {
    && (forall k :: 0 <= k < |b| ==> SlotHolds(b[k], base + k, got))
    && (forall x :: x in got ==> 0 <= x < base + |b|)
  }

  ghost predicate Refines(x: Rx, a: Simple) {
    var r := x.inbox.r;
    && a.read == r.lastRead + 1
    && r.lastRead + 1 <= r.prevAck <= r.lastRead + 1 + |r.recvBuffer|
    && r.prevAck == Expected(a)
    && DequeHolds(r.recvBuffer, r.lastRead + 1, a.got)
    && r.rwnd == MAX_RBUFFER_SIZE - Filled(r.recvBuffer)
    && |r.recvBuffer| <= MAX_RBUFFER_SIZE - 1
    && x.inbox.waiting == a.waiting
    && (a.waiting.Some? ==> a.waiting.value.seqNum >= r.prevAck)
    && x.out == a.out
  }

  lemma LeastMissingUnique(got: set<int>, from: int, n: int)
    requires from <= n && n !in got
    requires forall x :: from <= x < n ==> x in got
    ensures LeastMissing(got, from) == n
  {
  }

  lemma {:induction false} FilledIsCardinality(b: seq<Slot>, base: int, occupied: set<int>)
    requires forall k :: 0 <= k < |b| ==> (b[k].full <==> base + k in occupied)
    requires forall x :: x in occupied ==> base <= x < base + |b|
    ensures Filled(b) == |occupied|
  {
    if b == [] {
      assert occupied == {};
    } else {
      var rest := occupied - {base};
      forall k | 0 <= k < |b[1..]| ensures b[1..][k].full <==> base + 1 + k in rest {
        assert b[1..][k] == b[k + 1];
      }
      FilledIsCardinality(b[1..], base + 1, rest);
      assert occupied == if b[0].full then rest + {base} else rest by { assert base + 0 in occupied <==> b[0].full; }
    }
  }

  // The byte count behind the advertised window.
  lemma WindowIsFreeSpace(x: Rx, a: Simple)
    requires Refines(x, a)
    ensures x.inbox.r.rwnd == MAX_RBUFFER_SIZE - |Unread(a)|
    ensures 1 <= x.inbox.r.rwnd <= MAX_RBUFFER_SIZE
  {
    var r := x.inbox.r;
    forall k | 0 <= k < |r.recvBuffer|
      ensures r.recvBuffer[k].full <==> r.lastRead + 1 + k in Unread(a)
    {
      assert SlotHolds(r.recvBuffer[k], r.lastRead + 1 + k, a.got);
    }
    FilledIsCardinality(r.recvBuffer, r.lastRead + 1, Unread(a));
  }

  lemma StoreKeepsDeque(r: Receiver, got: map<int, byte>, p: DataPacket)
    requires Storable(r, p) && p.seqNum >= 0
    requires DequeHolds(r.recvBuffer, r.lastRead + 1, got)
    ensures DequeHolds(Written(r, p), r.lastRead + 1, got + Payload(p))
  {
  }

  lemma StoreMovesAck(r: Receiver, a: Simple, p: DataPacket, got: map<int, byte>)
    requires Storable(r, p) && got == a.got + Payload(p)
    requires r.prevAck == Expected(a) && DequeHolds(Written(r, p), r.lastRead + 1, got)
    ensures Store(r, p).prevAck == LeastMissing(got.Keys, 0)
  {
    var b := Written(r, p);
    var gap := FirstGap(b, r.prevAck - r.lastRead - 1);
    var ack := gap + r.lastRead + 1;
    forall n | 0 <= n < ack ensures n in got.Keys {
      if n >= r.prevAck {
        var k := n - r.lastRead - 1;
        assert SlotHolds(b[k], r.lastRead + 1 + k, got);
      }
    }
    assert ack !in got.Keys by {
      if gap < |b| { assert SlotHolds(b[gap], r.lastRead + 1 + gap, got); }
    }
    LeastMissingUnique(got.Keys, 0, ack);
  }

  lemma ResumeRefines(x: Rx, a: Simple)
    requires Refines(x, a)
    ensures SimpleStep(a, Resume).Blocked? <==> RxStep(x, Resume).Blocked?
    ensures RxStep(x, Resume).Next? ==> Refines(RxStep(x, Resume).s, SimpleStep(a, Resume).s)
    ensures !RxStep(x, Resume).Fault?
  {
    var Inbox(r, waiting) := x.inbox;
    if waiting.None? || !Fits(r, waiting.value) { return; }
    var p := waiting.value;
    var r', got := Store(r, p), a.got + Payload(p);
    StoreKeepsDeque(r, a.got, p);
    StoreMovesAck(r, a, p, got);
    var x' := Rx(Inbox(r', None), x.out);
    var b := a.(got := got, waiting := None);
    assert Refines(x', b);
    WindowIsFreeSpace(x', b);
  }

  lemma ReadKeepsDeque(b: seq<Slot>, base: int, got: map<int, byte>, n: nat)
    requires n <= |b| && DequeHolds(b, base, got)
    ensures DequeHolds(b[n..], base + n, got)
  {
  }

  // Everything below prev_ack is there to be read.
  lemma ReadablePrefix(r: Receiver, a: Simple, n: nat)
    requires CanRead(r, n) && a.read == r.lastRead + 1 && r.prevAck == Expected(a)
    requires n <= |r.recvBuffer| && DequeHolds(r.recvBuffer, r.lastRead + 1, a.got)
    ensures forall k :: 0 <= k < n ==>
      r.recvBuffer[k].full && a.read + k in a.got && a.got[a.read + k] == r.recvBuffer[k].ch
  {
  }

  lemma ReadCounts(b: seq<Slot>, n: nat)
    requires n <= |b| && forall k :: 0 <= k < n ==> b[k].full
    ensures Filled(b[n..]) == Filled(b) - n
  {
    assert b == b[..n] + b[n..];
    FilledConcat(b[..n], b[n..]);
    FilledUniform(b[..n], true);
  }

  lemma ReadRefines(x: Rx, a: Simple, n: nat)
    requires Refines(x, a)
    ensures SimpleStep(a, Read(n)).Blocked? <==> RxStep(x, Read(n)).Blocked?
    ensures RxStep(x, Read(n)).Next? ==> Refines(RxStep(x, Read(n)).s, SimpleStep(a, Read(n)).s)
    ensures !RxStep(x, Read(n)).Fault?
  {
    var r := x.inbox.r;
    if !CanRead(r, n) { return; }
    ReadablePrefix(r, a, n);
    var bytes := seq(n, k requires 0 <= k < n => a.got[a.read + k]);
    assert bytes == ReadBytes(r, n);
    ReadCounts(r.recvBuffer, n);
    ReadKeepsDeque(r.recvBuffer, r.lastRead + 1, a.got, n);
  }

  function RxRun(es: seq<RxEvent>): Outcome<Rx> {
    if es == [] then Next(Rx(INIT_INBOX, Trace([], [])))
    else match RxRun(es[..|es| - 1])
      case Next(x) => RxStep(x, es[|es| - 1])
      case other => other
  }

  function SimpleRun(es: seq<RxEvent>): Outcome<Simple> {
    if es == [] then Next(INIT_SIMPLE)
    else match SimpleRun(es[..|es| - 1])
      case Next(a) => SimpleStep(a, es[|es| - 1])
      case other => other
  }

  // For any packets, arriving in any order with any overlaps, and any reads in
  // between: the deque never faults, waits exactly when the specification does,
  // and sends the same acknowledgements and delivers the same bytes.
  lemma {:induction false} DequeRefinesSimple(es: seq<RxEvent>)
    ensures !RxRun(es).Fault?
    ensures RxRun(es).Blocked? <==> SimpleRun(es).Blocked?
    ensures RxRun(es).Next? ==> SimpleRun(es).Next? && Refines(RxRun(es).s, SimpleRun(es).s)
  {
    if es == [] {
      LeastMissingUnique({}, 0, 0);
    } else {
      DequeRefinesSimple(es[..|es| - 1]);
      if RxRun(es[..|es| - 1]).Next? {
        StepRefines(RxRun(es[..|es| - 1]).s, SimpleRun(es[..|es| - 1]).s, es[|es| - 1]);
      }
    }
  }

  lemma StepRefines(x: Rx, a: Simple, e: RxEvent)
    requires Refines(x, a)
    ensures !RxStep(x, e).Fault?
    ensures RxStep(x, e).Blocked? <==> SimpleStep(a, e).Blocked?
    ensures RxStep(x, e).Next? ==> SimpleStep(a, e).Next? && Refines(RxStep(x, e).s, SimpleStep(a, e).s)
  {
    match e
    case Arrive(p) =>
    case Resume => ResumeRefines(x, a);
    case Read(n) => ReadRefines(x, a, n);
  }

  // prev_ack never decreases, and a packet that starts where the receiver is
  // waiting moves it at least to the end of that packet.
  lemma AckProgress(x: Rx, a: Simple, e: RxEvent)
    requires Refines(x, a) && RxStep(x, e).Next?
    ensures RxStep(x, e).s.inbox.r.prevAck >= x.inbox.r.prevAck
    ensures e.Resume? && x.inbox.waiting.value.seqNum == x.inbox.r.prevAck ==>
      RxStep(x, e).s.inbox.r.prevAck >= x.inbox.r.prevAck + |x.inbox.waiting.value.buf|
  {
    StepRefines(x, a, e);
    var x', a' := RxStep(x, e).s, SimpleStep(a, e).s;
    assert x'.inbox.r.prevAck == Expected(a') && x.inbox.r.prevAck == Expected(a);
    assert Expected(a') !in a'.got;
    assert 0 <= Expected(a') < Expected(a) ==> Expected(a') in a.got;
  }
}
