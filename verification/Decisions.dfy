// What a node decides, told from the sequence of messages it got.
module LedgerDecisions {
  import opened LedgerPeer

  datatype PeerEvent = Copy(t: Trans, from: int) | Ballot(v: Vote, from: int) | Decide(t: Trans)

  predicate Valid(p: Peer, e: PeerEvent) {
    match e
    case Copy(t, _) => t.src < |p.money|
    case Ballot(_, _) => true
    case Decide(t) => t.src < |p.money| && t.dest < |p.money|
  }

  function PeerStep(p: Peer, me: nat, adj: seq<nat>, e: PeerEvent): (q: Peer)
    requires Valid(p, e)
    ensures |q.money| == |p.money|
  {
    match e
    case Copy(t, from) => ReceiveTransaction(p, me, adj, t, from).0
    case Ballot(v, from) => ReceiveVote(p, me, adj, v, from).0
    case Decide(t) => ReachConsensus(p, t)
  }

  predicate AllValid(p: Peer, es: seq<PeerEvent>) { forall e :: e in es ==> Valid(p, e) }

  function PeerRun(p: Peer, me: nat, adj: seq<nat>, es: seq<PeerEvent>): (q: Peer)
    requires AllValid(p, es)
    ensures |q.money| == |p.money|
  {
    if es == [] then p
    else
      assert Valid(p, es[|es| - 1]);
      PeerStep(PeerRun(p, me, adj, es[..|es| - 1]), me, adj, es[|es| - 1])
  }

  // --- The votes a decision finds, read off the history ------------------------------------

  // A copy of a transaction opens a new tally, a decision closes it.
  predicate Turns(e: PeerEvent, st: Stamp) { !e.Ballot? && e.t.stamp == st }

  function LastTurn(es: seq<PeerEvent>, st: Stamp): (i: int)
    ensures -1 <= i < |es|
    ensures i >= 0 ==> Turns(es[i], st)
    ensures forall j :: i < j < |es| ==> !Turns(es[j], st)
  {
    if es == [] then -1
    else if Turns(es[|es| - 1], st) then |es| - 1
    else LastTurn(es[..|es| - 1], st)
  }

  // Whether an event is a ballot on st with this answer, as a number.
  function Weight(e: PeerEvent, st: Stamp, yes: bool): nat {
    if e.Ballot? && e.v.stamp == st && e.v.yes == yes then 1 else 0
  }

  // How many ballots on st are in favour, or against.
  function Count(es: seq<PeerEvent>, st: Stamp, yes: bool): nat {
    if es == [] then 0 else Count(es[..|es| - 1], st, yes) + Weight(es[|es| - 1], st, yes)
  }

  // Whether votes on st are counted after a history that started in p.
  predicate Open(p: Peer, es: seq<PeerEvent>, st: Stamp) {
    var i := LastTurn(es, st);
    if i < 0 then st in p.allVotes else es[i].Copy?
  }

  // The votes in favour, or against, since the last copy.
  function Found(p: Peer, es: seq<PeerEvent>, st: Stamp, yes: bool): nat
    requires Open(p, es, st)
  {
    var i := LastTurn(es, st);
    var before := if i >= 0 then 0 else if yes then p.allVotes[st].0 else p.allVotes[st].1;
    before + Count(es[i + 1..], st, yes)
  }

  predicate Passes(p: Peer, es: seq<PeerEvent>, st: Stamp) {
    Open(p, es, st) && Found(p, es, st, true) > Found(p, es, st, false)
  }

  lemma FoundNext(p: Peer, es: seq<PeerEvent>, e: PeerEvent, st: Stamp, yes: bool)
    ensures Turns(e, st) ==>
      && (Open(p, es + [e], st) <==> e.Copy?)
      && (e.Copy? ==> Found(p, es + [e], st, yes) == 0)
    ensures !Turns(e, st) ==>
      && (Open(p, es + [e], st) <==> Open(p, es, st))
      && (Open(p, es, st) ==> Found(p, es + [e], st, yes) == Found(p, es, st, yes) + Weight(e, st, yes))
  {
    var fs := es + [e];
    assert fs[..|es|] == es && fs[|es|] == e;
    if Turns(e, st) {
      assert fs[|es| + 1..] == [];
    } else {
      var i := LastTurn(es, st);
      assert fs[i + 1..] == es[i + 1..] + [e];
      assert (es[i + 1..] + [e])[..|es| - i - 1] == es[i + 1..];
    }
  }

  // What one event does to the entry of st.
  lemma TallyNext(p: Peer, me: nat, adj: seq<nat>, e: PeerEvent, st: Stamp)
    requires Valid(p, e)
    ensures var q := PeerStep(p, me, adj, e);
      && (Turns(e, st) ==> (st in q.allVotes <==> e.Copy?) && (e.Copy? ==> q.allVotes[st] == (0, 0)))
      && (!Turns(e, st) ==> (st in q.allVotes <==> st in p.allVotes))
      && (!Turns(e, st) && st in p.allVotes ==>
            q.allVotes[st] == (p.allVotes[st].0 + Weight(e, st, true), p.allVotes[st].1 + Weight(e, st, false)))
  {
  }

  // Node q, which came from p, counts what its history says.
  ghost predicate Counts(p: Peer, q: Peer, es: seq<PeerEvent>, st: Stamp) {
    && (st in q.allVotes <==> Open(p, es, st))
    && (Open(p, es, st) ==> q.allVotes[st] == (Found(p, es, st, true), Found(p, es, st, false)))
  }

  lemma CountsNext(p: Peer, q: Peer, me: nat, adj: seq<nat>, es: seq<PeerEvent>, e: PeerEvent, st: Stamp)
    requires Valid(q, e) && Counts(p, q, es, st)
    ensures Counts(p, PeerStep(q, me, adj, e), es + [e], st)
  {
    hide Open, Found, PeerStep, Turns;
    FoundNext(p, es, e, st, true);
    FoundNext(p, es, e, st, false);
    TallyNext(q, me, adj, e, st);
  }

  lemma NoHistory(p: Peer, st: Stamp)
    ensures Counts(p, p, [], st)
  {
    assert LastTurn([], st) == -1;
  }

  // A node's tallies are exactly the votes found by reading its history.
  lemma {:induction false} TallyLaw(p: Peer, me: nat, adj: seq<nat>, es: seq<PeerEvent>, st: Stamp)
    requires AllValid(p, es)
    ensures Counts(p, PeerRun(p, me, adj, es), es, st)
  {
    hide Counts, PeerStep;
    if es == [] {
      NoHistory(p, st);
    } else {
      var n := |es| - 1;
      TallyLaw(p, me, adj, es[..n], st);
      assert Valid(p, es[n]) by { assert es[n] in es; }
      assert es == es[..n] + [es[n]];
      CountsNext(p, PeerRun(p, me, adj, es[..n]), me, adj, es[..n], es[n], st);
    }
  }

  // --- The ledger ------------------------------------------------------------------------------

  // The transactions of the decisions that find a majority, in their order.
  function Committed(p: Peer, es: seq<PeerEvent>): seq<Trans> {
    if es == [] then []
    else
      var before, e := es[..|es| - 1], es[|es| - 1];
      Committed(p, before) + if e.Decide? && Passes(p, before, e.t.stamp) then [e.t] else []
  }

  // The ledger after any history whatever: exactly those transactions were added.
  lemma {:induction false} LedgerLaw(p: Peer, me: nat, adj: seq<nat>, es: seq<PeerEvent>)
    requires AllValid(p, es)
    ensures PeerRun(p, me, adj, es).ledger == p.ledger + Committed(p, es)
  {
    if es != [] {
      var before, e := es[..|es| - 1], es[|es| - 1];
      LedgerLaw(p, me, adj, before);
      assert Valid(p, e) by { assert e in es; }
      if e.Decide? { TallyLaw(p, me, adj, before, e.t.stamp); }
    }
  }

  // How often a ledger holds a transaction with time stamp st.
  function Commits(ledger: seq<Trans>, st: Stamp): nat {
    if ledger == [] then 0
    else Commits(ledger[..|ledger| - 1], st) + if ledger[|ledger| - 1].stamp == st then 1 else 0
  }

  lemma {:induction false} CommitsConcat(a: seq<Trans>, b: seq<Trans>, st: Stamp)
    ensures Commits(a + b, st) == Commits(a, st) + Commits(b, st)
  {
    if b == [] {
      assert a + b == a;
    } else {
      assert (a + b)[..|a + b| - 1] == a + b[..|b| - 1];
      CommitsConcat(a, b[..|b| - 1], st);
    }
  }

  // How many decisions on st find a majority.
  function Wins(p: Peer, es: seq<PeerEvent>, st: Stamp): nat {
    if es == [] then 0
    else
      var before, e := es[..|es| - 1], es[|es| - 1];
      Wins(p, before, st) + if e.Decide? && e.t.stamp == st && Passes(p, before, st) then 1 else 0
  }

  lemma {:induction false} WinsCommitted(p: Peer, es: seq<PeerEvent>, st: Stamp)
    ensures Commits(Committed(p, es), st) == Wins(p, es, st)
  {
    if es != [] {
      var before, e := es[..|es| - 1], es[|es| - 1];
      hide Passes;
      WinsCommitted(p, before, st);
      var tail := if e.Decide? && Passes(p, before, e.t.stamp) then [e.t] else [];
      assert tail != [] ==> tail[..0] == [];
      assert Commits(tail, st) == if tail != [] && e.t.stamp == st then 1 else 0;
      CommitsConcat(Committed(p, before), tail, st);
    }
  }

  // A transaction is committed exactly as often as a decision on it finds more votes in
  // favour than against since the last copy, with no decision in between.
  lemma CommitLaw(p: Peer, me: nat, adj: seq<nat>, es: seq<PeerEvent>, st: Stamp)
    requires AllValid(p, es)
    ensures Commits(PeerRun(p, me, adj, es).ledger, st) == Commits(p.ledger, st) + Wins(p, es, st)
  {
    LedgerLaw(p, me, adj, es);
    CommitsConcat(p.ledger, Committed(p, es), st);
    WinsCommitted(p, es, st);
  }

  // How many copies of a transaction arrived.
  function Copies(es: seq<PeerEvent>, st: Stamp): nat {
    if es == [] then 0
    else Copies(es[..|es| - 1], st) + if es[|es| - 1].Copy? && es[|es| - 1].t.stamp == st then 1 else 0
  }

  // So it takes as many copies to commit a transaction several times.
  lemma {:induction false} WinsPerCopy(p: Peer, es: seq<PeerEvent>, st: Stamp)
    requires st !in p.allVotes
    ensures Wins(p, es, st) + (if Open(p, es, st) then 1 else 0) <= Copies(es, st)
  {
    if es != [] {
      hide Found;
      var before, e := es[..|es| - 1], es[|es| - 1];
      WinsPerCopy(p, before, st);
      assert es == before + [e];
      FoundNext(p, before, e, st, true);
    }
  }

  lemma {:induction false} NoWins(p: Peer, es: seq<PeerEvent>, st: Stamp)
    requires st !in p.allVotes && forall e :: e in es && e.Copy? ==> e.t.stamp != st
    ensures Wins(p, es, st) == 0 && !Open(p, es, st)
  {
    if es != [] {
      NoWins(p, es[..|es| - 1], st);
      assert es[|es| - 1] in es;
    }
  }

  // A decided transaction is not committed again as long as no late copy of it arrives.
  lemma NoCopyNoCommit(p: Peer, me: nat, adj: seq<nat>, es: seq<PeerEvent>, st: Stamp)
    requires AllValid(p, es) && st !in p.allVotes && forall e :: e in es && e.Copy? ==> e.t.stamp != st
    ensures Commits(PeerRun(p, me, adj, es).ledger, st) == Commits(p.ledger, st)
  {
    CommitLaw(p, me, adj, es, st);
    NoWins(p, es, st);
  }

  lemma {:induction false} LastTurnAt(a: seq<PeerEvent>, e: PeerEvent, b: seq<PeerEvent>, st: Stamp)
    requires Turns(e, st) && forall x :: x in b ==> !Turns(x, st)
    ensures LastTurn(a + [e] + b, st) == |a| && (a + [e] + b)[|a| + 1..] == b
  {
    var es := a + [e] + b;
    assert es[|a|] == e;
    forall j | |a| < j < |es| ensures !Turns(es[j], st) {
      assert es[j] in b;
    }
  }

  // With any history before the copy and any other messages and decisions between the votes,
  // the decision commits exactly if more votes are in favour than against.
  lemma MajorityRule(p: Peer, me: nat, adj: seq<nat>, before: seq<PeerEvent>, t: Trans, from: int,
                     votes: seq<PeerEvent>)
    requires AllValid(p, before + [Copy(t, from)] + votes) && t.src < |p.money| && t.dest < |p.money|
    requires forall e :: e in votes ==> !Turns(e, t.stamp)
    ensures var es := before + [Copy(t, from)] + votes;
      && AllValid(p, es + [Decide(t)])
      && PeerRun(p, me, adj, es + [Decide(t)]).ledger == PeerRun(p, me, adj, es).ledger
         + if Count(votes, t.stamp, true) > Count(votes, t.stamp, false) then [t] else []
  {
    var es := before + [Copy(t, from)] + votes;
    LastTurnAt(before, Copy(t, from), votes, t.stamp);
    assert (es + [Decide(t)])[..|es|] == es;
    LedgerLaw(p, me, adj, es);
    LedgerLaw(p, me, adj, es + [Decide(t)]);
    assert es[|before|] == Copy(t, from);
  }

  // Two nodes, after any histories of their own, decide alike on a transaction if and only
  // if the votes they counted since their last copies of it have the same majority.
  lemma AgreeIff(p: Peer, me: nat, adj: seq<nat>, es: seq<PeerEvent>,
                 q: Peer, other: nat, adj': seq<nat>, fs: seq<PeerEvent>, t: Trans)
    requires AllValid(p, es + [Decide(t)]) && AllValid(q, fs + [Decide(t)])
    ensures AllValid(p, es) && AllValid(q, fs)
    ensures (PeerRun(p, me, adj, es + [Decide(t)]).ledger == PeerRun(p, me, adj, es).ledger + [t]
             <==> PeerRun(q, other, adj', fs + [Decide(t)]).ledger == PeerRun(q, other, adj', fs).ledger + [t])
       <==> (Passes(p, es, t.stamp) <==> Passes(q, fs, t.stamp))
  {
    DecidesIff(p, me, adj, es, t);
    DecidesIff(q, other, adj', fs, t);
  }

  lemma DecidesIff(p: Peer, me: nat, adj: seq<nat>, es: seq<PeerEvent>, t: Trans)
    requires AllValid(p, es + [Decide(t)])
    ensures AllValid(p, es)
    ensures PeerRun(p, me, adj, es + [Decide(t)]).ledger
         == PeerRun(p, me, adj, es).ledger + if Passes(p, es, t.stamp) then [t] else []
  {
    forall e | e in es ensures Valid(p, e) {
      assert e in es + [Decide(t)];
    }
    assert (es + [Decide(t)])[..|es|] == es;
    LedgerLaw(p, me, adj, es);
    LedgerLaw(p, me, adj, es + [Decide(t)]);
  }
}
