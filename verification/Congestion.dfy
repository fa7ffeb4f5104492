// Laws of the congestion window over whole runs of acknowledgements and timeouts.
module Congestion {
  import opened Common
  import opened TransportTypes
  import opened TransportSender

  datatype WinEvent = AckIn(a: AckPacket) | Expired

  // What every run keeps: the divisor in congestion avoidance is positive and the
  // usable window is within all three limits.
  predicate Sound(w: Window) {
    && w.cwnd >= 1 && w.ssthresh >= 1 && w.cwndCnt >= 0
    && w.numDupacks >= 0 && w.currAck >= -1
    && w.swnd <= Usable(w.cwnd, w.rwnd)
  }

  function WinStep(w: Window, e: WinEvent): (w': Window)
    requires Sound(w)
    ensures Sound(w')
  {
    match e
    case AckIn(a) => SoundAfterAck(w, a); OnAck(w, a)
    case Expired => OnTimeout(w)
  }

  lemma SoundAfterAck(w: Window, a: AckPacket)
    requires Sound(w)
    ensures GrowSafe(w, a.ack) && Sound(OnAck(w, a))
  {
  }

  // The cost of additive increase is paid exactly: nothing of the credit is lost.
  lemma GrowthBounds(cwnd: int, ssthresh: int, cwndCnt: int, bytes: int)
    requires cwnd >= 1 && cwndCnt >= 0 && bytes >= 0
    ensures var (c, n) := Grow(cwnd, ssthresh, cwndCnt, bytes);
      && c >= cwnd && n >= 0
      && (cwnd >= ssthresh ==> (c - cwnd) * cwnd + n == cwndCnt + bytes && n < cwnd)
  {
    if cwnd >= ssthresh && cwndCnt + bytes >= cwnd {
      CDivModExact(cwndCnt + bytes, cwnd);
    }
  }

  lemma InitSound()
    ensures Sound(InitWindow())
  {
  }

  function WinRun(w: Window, es: seq<WinEvent>): (w': Window)
    requires Sound(w)
    ensures Sound(w')
  {
    if es == [] then w else WinStep(WinRun(w, es[..|es| - 1]), es[|es| - 1])
  }

  // --- Acknowledgement history ----------------------------------------------------

  function Highest(es: seq<WinEvent>): (h: int)
    ensures h >= -1
    ensures forall i :: 0 <= i < |es| && es[i].AckIn? ==> es[i].a.ack <= h
    ensures h == -1 || exists i :: 0 <= i < |es| && es[i].AckIn? && es[i].a.ack == h
  {
    if es == [] then -1
    else
      var h, e := Highest(es[..|es| - 1]), es[|es| - 1];
      if e.AckIn? && e.a.ack > h then e.a.ack else h
  }

  // How often an acknowledgement number arrived.
  function Copies(es: seq<WinEvent>, ack: int): nat {
    if es == [] then 0
    else Copies(es[..|es| - 1], ack) + if es[|es| - 1].AckIn? && es[|es| - 1].a.ack == ack then 1 else 0
  }

  // The initial acknowledgement -1 stands for no arrival.
  function FirstArrivals(ack: int): nat { if ack == -1 then 0 else 1 }

  lemma {:induction false} NoCopies(es: seq<WinEvent>, ack: int)
    requires forall i :: 0 <= i < |es| && es[i].AckIn? ==> es[i].a.ack < ack
    ensures Copies(es, ack) == 0
  {
    if es != [] {
      NoCopies(es[..|es| - 1], ack);
    }
  }

  // curr_ack is the highest acknowledgement seen, num_dupacks counts its repeats,
  // whatever stale acknowledgements and timeouts came in between.
  lemma {:induction false} AckHistory(es: seq<WinEvent>)
    ensures WinRun(InitWindow(), es).currAck == Highest(es)
    ensures WinRun(InitWindow(), es).numDupacks == Copies(es, Highest(es)) - FirstArrivals(Highest(es))
  {
    if es != [] {
      var before, e := es[..|es| - 1], es[|es| - 1];
      AckHistory(before);
      if e.AckIn? && e.a.ack > Highest(before) {
        NoCopies(before, e.a.ack);
      }
    }
  }

  // Event i makes the sender go back and retransmit without a timeout.
  predicate Rewinds(es: seq<WinEvent>, i: nat)
    requires i < |es|
  {
    es[i].AckIn? && ThirdDuplicate(WinRun(InitWindow(), es[..i]), es[i].a.ack)
  }

  lemma FastRetransmitIff(es: seq<WinEvent>, i: nat)
    requires i < |es|
    ensures Rewinds(es, i) <==>
      && es[i].AckIn?
      && es[i].a.ack == Highest(es[..i])
      && Copies(es[..i + 1], es[i].a.ack) == FirstArrivals(es[i].a.ack) + 3
  {
    AckHistory(es[..i]);
    assert es[..i + 1][..i] == es[..i];
  }

  lemma {:induction false} CopiesMonotone(es: seq<WinEvent>, i: nat, j: nat, ack: int)
    requires i <= j <= |es|
    ensures Copies(es[..i], ack) <= Copies(es[..j], ack)
    decreases j - i
  {
    if i < j {
      CopiesMonotone(es, i, j - 1, ack);
      assert es[..j][..j - 1] == es[..j - 1];
    }
  }

  // Fast retransmit happens at most once per acknowledgement number.
  lemma FastRetransmitOnce(es: seq<WinEvent>, i: nat, j: nat)
    requires i < j < |es| && Rewinds(es, i) && Rewinds(es, j)
    ensures es[i].a.ack < es[j].a.ack
  {
    FastRetransmitIff(es, i);
    FastRetransmitIff(es, j);
    assert es[..j][i] == es[i];
    assert es[..j + 1][..j] == es[..j];
    CopiesMonotone(es, i + 1, j, es[i].a.ack);
  }

  // --- Additive increase ------------------------------------------------------------

  // A run from w with no timeout and no third duplicate.
  predicate Undisturbed(w: Window, es: seq<WinEvent>)
    requires Sound(w)
  {
    forall i :: 0 <= i < |es| ==> es[i].AckIn? && !ThirdDuplicate(WinRun(w, es[..i]), es[i].a.ack)
  }

  // The values of cwnd, from the start to the end of a run.
  function Windows(w: Window, es: seq<WinEvent>): (cs: seq<int>)
    requires Sound(w)
    ensures |cs| == |es| + 1 && cs[|es|] == WinRun(w, es).cwnd
  {
    if es == [] then [w.cwnd] else Windows(w, es[..|es| - 1]) + [WinRun(w, es).cwnd]
  }

  // Each increment weighted by the window it was added to.
  function Spent(cs: seq<int>): int {
    var n := |cs|;
    if n < 2 then 0 else Spent(cs[..n - 1]) + (cs[n - 1] - cs[n - 2]) * cs[n - 2]
  }

  lemma UndisturbedPrefix(w: Window, es: seq<WinEvent>)
    requires Sound(w) && es != [] && Undisturbed(w, es)
    ensures Undisturbed(w, es[..|es| - 1])
    ensures es[|es| - 1].AckIn? && !ThirdDuplicate(WinRun(w, es[..|es| - 1]), es[|es| - 1].a.ack)
  {
    var n := |es| - 1;
    forall i | 0 <= i < n
      ensures es[..n][i].AckIn? && !ThirdDuplicate(WinRun(w, es[..n][..i]), es[..n][i].a.ack)
    {
      assert es[..n][..i] == es[..i];
    }
  }

  // One acknowledgement in congestion avoidance.
  lemma CreditStep(w: Window, a: AckPacket)
    requires Sound(w) && w.cwnd >= w.ssthresh && !ThirdDuplicate(w, a.ack)
    ensures var w' := WinStep(w, AckIn(a));
      && w'.cwnd >= w.cwnd && w'.ssthresh == w.ssthresh
      && (w'.cwnd - w.cwnd) * w.cwnd + w'.cwndCnt == w.cwndCnt + (w'.currAck - w.currAck)
  {
    if w.currAck < a.ack {
      GrowthBounds(w.cwnd, w.ssthresh, w.cwndCnt, a.ack - w.currAck);
    }
  }

  // Bytes acknowledged are either spent on the window, cwnd for each unit of
  // increase, or still in cwndCnt; the window never shrinks.
  lemma {:induction false} CreditLaw(w: Window, es: seq<WinEvent>)
    requires Sound(w) && w.cwnd >= w.ssthresh && Undisturbed(w, es)
    ensures var end := WinRun(w, es);
      && end.ssthresh == w.ssthresh
      && Spent(Windows(w, es)) + end.cwndCnt == w.cwndCnt + (end.currAck - w.currAck)
    ensures Growing(Windows(w, es)) && Windows(w, es)[0] == w.cwnd
  {
    if es != [] {
      var before := es[..|es| - 1];
      UndisturbedPrefix(w, es);
      CreditLaw(w, before);
      var cs, end := Windows(w, before), WinRun(w, before);
      assert end.cwnd >= w.cwnd by { GrowingEnds(cs); }
      CreditStep(end, es[|es| - 1].a);
      assert Windows(w, es)[..|es|] == cs;
    }
  }

  predicate Growing(cs: seq<int>) { forall i :: 0 < i < |cs| ==> cs[i - 1] <= cs[i] }

  lemma {:induction false} GrowingEnds(cs: seq<int>)
    requires Growing(cs) && cs != []
    ensures cs[0] <= cs[|cs| - 1]
  {
    if |cs| > 1 {
      GrowingEnds(cs[..|cs| - 1]);
    }
  }

  lemma SquareStep(c0: int, c: int, d: int, spent: int)
    requires 1 <= c0 <= c <= d
    requires (c - c0) * c0 <= spent && c * c >= c0 * c0 + 2 * spent
    ensures (d - c0) * c0 <= spent + (d - c) * c
    ensures d * d >= c0 * c0 + 2 * (spent + (d - c) * c)
  {
  }

  lemma {:induction false} SpentBounds(cs: seq<int>)
    requires cs != [] && cs[0] >= 1 && Growing(cs)
    ensures var c0, c := cs[0], cs[|cs| - 1];
      (c - c0) * c0 <= Spent(cs) && c * c >= c0 * c0 + 2 * Spent(cs)
  {
    if |cs| > 1 {
      var before := cs[..|cs| - 1];
      SpentBounds(before);
      GrowingEnds(before);
      SquareStep(cs[0], before[|before| - 1], cs[|cs| - 1], Spent(before));
    }
  }

  // A window grown from c0 to c on some credit, of which a part is left.
  predicate WithinCredit(c0: int, c: int, credit: int, left: int) {
    && (c - c0) * c0 <= credit
    && c * c >= c0 * c0 + 2 * (credit - left)
  }

  lemma FromSpent(cs: seq<int>, c0: int, c: int, credit: int, left: int)
    requires cs != [] && cs[0] == c0 && cs[|cs| - 1] == c && c0 >= 1 && Growing(cs)
    requires Spent(cs) + left == credit && left >= 0
    ensures WithinCredit(c0, c, credit, left)
  {
    SpentBounds(cs);
  }

  // The window gains at most one unit per cwnd bytes of credit, and grows at
  // least like the square root of the bytes acknowledged.
  lemma IncreaseBounds(w: Window, es: seq<WinEvent>)
    requires Sound(w) && w.cwnd >= w.ssthresh && Undisturbed(w, es)
    ensures var end := WinRun(w, es);
      WithinCredit(w.cwnd, end.cwnd, w.cwndCnt + (end.currAck - w.currAck), end.cwndCnt)
  {
    CreditLaw(w, es);
    var end := WinRun(w, es);
    FromSpent(Windows(w, es), w.cwnd, end.cwnd, w.cwndCnt + (end.currAck - w.currAck), end.cwndCnt);
  }

  // --- Slow start and loss --------------------------------------------------------------------

  // How many events of a run acknowledge new data.
  function NewAcks(w: Window, es: seq<WinEvent>): nat
    requires Sound(w)
  {
    if es == [] then 0
    else
      var before, e := es[..|es| - 1], es[|es| - 1];
      NewAcks(w, before) + if e.AckIn? && e.a.ack > WinRun(w, before).currAck then 1 else 0
  }

  // Below ssthresh the window grows by one for each acknowledgement of new data.
  lemma {:induction false} SlowStartLaw(w: Window, es: seq<WinEvent>)
    requires Sound(w) && Undisturbed(w, es) && w.cwnd + NewAcks(w, es) <= w.ssthresh
    ensures var end := WinRun(w, es);
      end.cwnd == w.cwnd + NewAcks(w, es) && end.ssthresh == w.ssthresh && end.cwndCnt == w.cwndCnt
  {
    if es != [] {
      UndisturbedPrefix(w, es);
      SlowStartLaw(w, es[..|es| - 1]);
    }
  }

  // After a timeout the window starts from one packet, and regains half of what it was,
  // where slow start ends, with the last of cwnd / 2 - 1 new acknowledgements.
  lemma TimeoutRecovery(w: Window, es: seq<WinEvent>)
    requires Sound(w) && Undisturbed(OnTimeout(w), es)
    requires NewAcks(OnTimeout(w), es) < Max(1, w.cwnd / 2)
    ensures var end := WinRun(OnTimeout(w), es);
      && end.cwnd == 1 + NewAcks(OnTimeout(w), es)
      && end.ssthresh == Max(1, w.cwnd / 2)
      && (end.cwnd < end.ssthresh <==> NewAcks(OnTimeout(w), es) < Max(1, w.cwnd / 2) - 1)
  {
    SlowStartLaw(OnTimeout(w), es);
  }

  // A timeout, or an acknowledgement repeated for the third time.
  predicate LossAfter(before: seq<WinEvent>, e: WinEvent) {
    e.Expired? || ThirdDuplicate(WinRun(InitWindow(), before), e.a.ack)
  }

  function LastLoss(es: seq<WinEvent>): (i: int)
    ensures -1 <= i < |es|
  {
    if es == [] then -1
    else if LossAfter(es[..|es| - 1], es[|es| - 1]) then |es| - 1
    else LastLoss(es[..|es| - 1])
  }

  // Half the window at the last sign of loss, or the initial threshold if there was none.
  function LastHalf(es: seq<WinEvent>): int {
    var i := LastLoss(es);
    if i < 0 then INIT_SSTHRESH else Max(1, WinRun(InitWindow(), es[..i]).cwnd / 2)
  }

  lemma {:induction false} ThresholdLaw(es: seq<WinEvent>)
    ensures WinRun(InitWindow(), es).ssthresh == LastHalf(es)
  {
    if es != [] {
      var before := es[..|es| - 1];
      ThresholdLaw(before);
      var i := LastLoss(before);
      if i >= 0 { assert before[..i] == es[..i]; }
    }
  }

  // The third duplicate is meant to continue with half the window. In every run it continues
  // with half the window of the loss before, or 256 packets if there was none; so it halves the
  // window if and only if the two halves are the same.
  lemma ThirdDuplicateHalvesIff(es: seq<WinEvent>, i: nat)
    requires i < |es| && Rewinds(es, i)
    ensures var w, w' := WinRun(InitWindow(), es[..i]), WinRun(InitWindow(), es[..i + 1]);
      && w'.cwnd == LastHalf(es[..i]) && w'.ssthresh == Max(1, w.cwnd / 2)
      && (w'.cwnd == Max(1, w.cwnd / 2) <==> LastHalf(es[..i]) == Max(1, w.cwnd / 2))
  {
    ThresholdLaw(es[..i]);
    assert es[..i + 1][..i] == es[..i];
  }

  // On a new connection it does not: the first loss signal lets the window jump from 11
  // packets to 256.
  lemma LossEnlargesWindow(rwnd: int)
    ensures var a := AckIn(AckPacket(0, rwnd));
      && WinRun(InitWindow(), [a]).cwnd == 11
      && WinRun(InitWindow(), [a, a, a, a]).cwnd == 256
  {
    var a := AckIn(AckPacket(0, rwnd));
    InitSound();
    var w1 := WinStep(InitWindow(), a);
    assert [a][..0] == [] && [a, a][..1] == [a] && [a, a, a][..2] == [a, a] && [a, a, a, a][..3] == [a, a, a];
    assert WinRun(InitWindow(), [a]) == w1;
    var w2 := w1.(numDupacks := 1);
    assert WinRun(InitWindow(), [a, a]) == w2;
    var w3 := w1.(numDupacks := 2);
    assert WinRun(InitWindow(), [a, a, a]) == w3;
  }

  // --- The whole window, read off the history ------------------------------------------------

  // An acknowledgement above everything before it.
  predicate NewAfter(before: seq<WinEvent>, e: WinEvent) { e.AckIn? && e.a.ack > Highest(before) }

  function LastNew(es: seq<WinEvent>): (i: int)
    ensures -1 <= i < |es|
    ensures i >= 0 ==> es[i].AckIn?
  {
    if es == [] then -1
    else if NewAfter(es[..|es| - 1], es[|es| - 1]) then |es| - 1
    else LastNew(es[..|es| - 1])
  }

  // The receive window that the highest acknowledgement brought when it first came.
  function LastAdvertised(es: seq<WinEvent>): int {
    var i := LastNew(es);
    if i < 0 then 10 else es[i].a.rwnd
  }

  // Whether some event changed the window.
  predicate Moved(es: seq<WinEvent>) {
    es != [] &&
    var before, e := es[..|es| - 1], es[|es| - 1];
    Moved(before) || NewAfter(before, e) || LossAfter(before, e)
  }

  // m is the least of three numbers.
  predicate Least(m: int, a: int, b: int, c: int) { m <= a && m <= b && m <= c && (m == a || m == b || m == c) }

  // The usable window is the least of the congestion window, the last advertised window and
  // 32767, from the first event on that changes it, and 5 packets before; it opens as well
  // as it closes.
  lemma {:induction false} UsableLaw(es: seq<WinEvent>)
    ensures var w := WinRun(InitWindow(), es);
      && w.rwnd == LastAdvertised(es)
      && (if Moved(es) then Least(w.swnd, w.cwnd, LastAdvertised(es), 32767) else w.swnd == 5)
  {
    if es != [] {
      UsableLaw(es[..|es| - 1]);
      AckHistory(es[..|es| - 1]);
    }
  }

  // An event that is neither a new acknowledgement nor a sign of loss changes nothing, except
  // that a repeat is counted.
  lemma OthersChangeNothing(es: seq<WinEvent>, e: WinEvent)
    requires !NewAfter(es, e) && !LossAfter(es, e)
    ensures var w := WinRun(InitWindow(), es);
      WinRun(InitWindow(), es + [e])
      == w.(numDupacks := if e.a.ack == w.currAck then w.numDupacks + 1 else w.numDupacks)
  {
    AckHistory(es);
    assert (es + [e])[..|es|] == es;
  }

  // Event e comes in congestion avoidance and acknowledges new data.
  predicate Earns(before: seq<WinEvent>, e: WinEvent) {
    NewAfter(before, e) && WinRun(InitWindow(), before).cwnd >= WinRun(InitWindow(), before).ssthresh
  }

  // The bytes acknowledged in congestion avoidance.
  function Earned(es: seq<WinEvent>): int {
    if es == [] then 0
    else
      var before, e := es[..|es| - 1], es[|es| - 1];
      Earned(before) + if Earns(before, e) then e.a.ack - Highest(before) else 0
  }

  // What the increments in congestion avoidance cost, each weighted with the window before it.
  function Paid(es: seq<WinEvent>): int {
    if es == [] then 0
    else
      var before, e := es[..|es| - 1], es[|es| - 1];
      var c, d := WinRun(InitWindow(), before).cwnd, WinRun(InitWindow(), es).cwnd;
      Paid(before) + if Earns(before, e) then (d - c) * c else 0
  }

  // In every run, whatever timeouts and duplicates are in it, cwnd_cnt is the credit earned
  // and not spent: no loss signal forfeits it.
  lemma {:induction false} CreditKept(es: seq<WinEvent>)
    ensures WinRun(InitWindow(), es).cwndCnt == Earned(es) - Paid(es)
  {
    if es != [] {
      var before, e := es[..|es| - 1], es[|es| - 1];
      CreditKept(before);
      AckHistory(before);
      var w := WinRun(InitWindow(), before);
      if NewAfter(before, e) {
        GrowthBounds(w.cwnd, w.ssthresh, w.cwndCnt, e.a.ack - w.currAck);
      }
    }
  }
}
