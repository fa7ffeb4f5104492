// How the bytes of the application are taken in and packed.
module Packing {
  import opened Common
  import opened TransportTypes
  import opened TransportSender
  import opened Transport

  // app_send has to wait if and only if the bytes accepted and not cut into packets yet, with
  // the new ones, are more than 10240.
  lemma QueueIff(s: System, buf: seq<byte>)
    requires Reachable(s)
    ensures Apply(s, AppSend(buf)).Blocked? <==>
      |s.accepted| - |Flatten(s.pushed)| - |Held(s.tx.pc)| + |buf| > 10240
    ensures !Apply(s, AppSend(buf)).Blocked? ==>
      Apply(s, AppSend(buf)).Next? && Apply(s, AppSend(buf)).s.accepted == s.accepted + buf
  {
    var a, stream := ReachableInv(s);
    FlattenCut(s.pushed, stream, |s.pushed|);
    assert s.pushed[..|s.pushed|] == s.pushed && stream[..|stream|] == stream;
  }

  // The thread waits for bytes only if there are none, and otherwise takes a full packet from
  // the front, or everything if that is less.
  lemma FetchTakesAll(s: System)
    requires s.tx.pc.Fetching?
    ensures Apply(s, FetchData).Blocked? <==> s.tx.sendBuffer == []
    ensures Apply(s, FetchData).Next? ==>
      var t := Apply(s, FetchData).s.tx;
      && Held(t.pc) + t.sendBuffer == s.tx.sendBuffer && 1 <= |Held(t.pc)| <= 1024
      && (|Held(t.pc)| == 1024 || t.sendBuffer == [])
  {
    var n := ChunkSize(s.tx);
    assert s.tx.sendBuffer == s.tx.sendBuffer[..n] + s.tx.sendBuffer[n..];
  }

  // --- A message accepted as a whole ------------------------------------------------------------

  // No app_send after the first bytes were taken.
  predicate AcceptedFirst(es: seq<Event>) {
    forall i, j :: 0 <= i < j < |es| && es[i].FetchData? ==> !es[j].AppSend?
  }

  // Only the last packet can be short, and only if it took the last byte.
  ghost predicate FullInv(s: System) {
    var none := s.tx.sendBuffer == [];
    && (forall i :: 0 <= i < |s.pushed| - 1 ==> |s.pushed[i].buf| == 1024)
    && (s.pushed != [] ==> |s.pushed[|s.pushed| - 1].buf| == 1024 || (none && !s.tx.pc.Holding?))
    && (s.tx.pc.Holding? ==> |s.tx.pc.data| == 1024 || none)
  }

  lemma FullPush(s: System)
    requires FullInv(s) && PushStep(s).Next?
    ensures FullInv(PushStep(s).s)
  {
    var s' := PushStep(s).s;
    assert s'.pushed[..|s.pushed|] == s.pushed;
  }

  // No other step cuts a packet, takes bytes or queues some.
  lemma FullOther(s: System, e: Event)
    requires FullInv(s) && Apply(s, e).Next? && !e.AppSend? && !e.PushPacket? && !e.FetchData?
    ensures FullInv(Apply(s, e).s)
  {
    hide FullInv;
    OtherParts(s, e);
    FullSame(s, Apply(s, e).s);
  }

  lemma OtherParts(s: System, e: Event)
    requires Apply(s, e).Next? && !e.AppSend? && !e.PushPacket? && !e.FetchData?
    ensures var t := Apply(s, e).s;
      && t.pushed == s.pushed && t.tx.sendBuffer == s.tx.sendBuffer
      && t.tx.pc.Holding? == s.tx.pc.Holding? && (s.tx.pc.Holding? ==> t.tx.pc == s.tx.pc)
  {
  }

  lemma FullSame(s: System, t: System)
    requires FullInv(s) && t.pushed == s.pushed && t.tx.sendBuffer == s.tx.sendBuffer
    requires t.tx.pc.Holding? == s.tx.pc.Holding? && (s.tx.pc.Holding? ==> t.tx.pc == s.tx.pc)
    ensures FullInv(t)
  {
  }

  lemma FullStep(s: System, e: Event)
    requires FullInv(s) && Apply(s, e).Next? && !e.AppSend?
    ensures FullInv(Apply(s, e).s)
  {
    if e.PushPacket? {
      FullPush(s);
    } else if e.FetchData? {
      FetchTakesAll(s);
    } else {
      FullOther(s, e);
    }
  }

  lemma NothingTaken(s: System, e: Event)
    requires s.pushed == [] && !s.tx.pc.Holding? && Apply(s, e).Next? && !e.FetchData?
    ensures Apply(s, e).s.pushed == [] && !Apply(s, e).s.tx.pc.Holding?
  {
  }

  lemma {:induction false} FullRun(es: seq<Event>)
    requires AcceptedFirst(es) && Run(INIT, es).Next?
    ensures FullInv(Run(INIT, es).s)
    ensures (forall i :: 0 <= i < |es| ==> !es[i].FetchData?) ==>
      Run(INIT, es).s.pushed == [] && !Run(INIT, es).s.tx.pc.Holding?
  {
    hide Apply;
    if es != [] {
      var n := |es| - 1;
      var before, e := es[..n], es[n];
      FullRun(before);
      var s := Run(INIT, before).s;
      if exists i :: 0 <= i < n && es[i].FetchData? {
        FullStep(s, e);
      } else {
        assert forall i :: 0 <= i < n ==> before[i] == es[i];
        if e.FetchData? { FullStep(s, e); } else { NothingTaken(s, e); }
      }
    }
  }

  lemma {:induction false} FlattenFull(pkts: seq<DataPacket>)
    requires forall i :: 0 <= i < |pkts| ==> |pkts[i].buf| == 1024
    ensures |Flatten(pkts)| == 1024 * |pkts|
  {
    if pkts != [] {
      FlattenFull(pkts[..|pkts| - 1]);
    }
  }

  lemma PacketCount(pkts: seq<DataPacket>)
    requires pkts != [] && 1 <= |pkts[|pkts| - 1].buf| <= 1024
    requires forall i :: 0 <= i < |pkts| - 1 ==> |pkts[i].buf| == 1024
    ensures |pkts| == (|Flatten(pkts)| + 1023) / 1024
  {
    FlattenFull(pkts[..|pkts| - 1]);
  }

  // With nothing queued or held everything accepted was cut into packets, none of them empty.
  lemma AllCut(s: System)
    requires Reachable(s) && s.tx.sendBuffer == Held(s.tx.pc) == []
    ensures |s.accepted| == |Flatten(s.pushed)|
    ensures forall p :: p in s.pushed ==> 1 <= |p.buf| <= 1024
  {
    var a, stream := ReachableInv(s);
    FlattenCut(s.pushed, stream, |s.pushed|);
    assert s.pushed[..|s.pushed|] == s.pushed && stream[..|stream|] == stream;
    forall p | p in s.pushed ensures 1 <= |p.buf| <= 1024 {
      var i :| 0 <= i < |s.pushed| && s.pushed[i] == p;
      assert Piece(s.pushed, i, stream);
    }
  }

  // A message accepted before any of it was taken is cut into full packets and a rest: n bytes
  // take n / 1024 packets, rounded up.
  lemma MessageInFullPackets(es: seq<Event>)
    requires AcceptedFirst(es) && Run(INIT, es).Next?
    ensures var s := Run(INIT, es).s;
      && (forall i :: 0 <= i < |s.pushed| - 1 ==> |s.pushed[i].buf| == 1024)
      && (s.tx.sendBuffer == Held(s.tx.pc) == [] ==> |s.pushed| == (|s.accepted| + 1023) / 1024)
  {
    hide Run, Flatten;
    FullRun(es);
    var s := Run(INIT, es).s;
    if s.tx.sendBuffer == Held(s.tx.pc) == [] {
      assert Reachable(s);
      AllCut(s);
      if s.pushed == [] { NoPackets(); } else { PacketCount(s.pushed); }
    }
  }

  lemma NoPackets()
    ensures Flatten([]) == []
  {
  }
}
