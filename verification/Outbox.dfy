// What a node sends, told from the sequence of messages it got.
module LedgerOutbox {
  import opened LedgerPeer
  import opened LedgerDecisions

  function Out(p: Peer, me: nat, adj: seq<nat>, e: PeerEvent): seq<Msg>
    requires Valid(p, e)
  {
    match e
    case Copy(t, from) => ReceiveTransaction(p, me, adj, t, from).1
    case Ballot(v, from) => ReceiveVote(p, me, adj, v, from).1
    case Decide(_) => []
  }

  // Whether a copy of a transaction came before.
  predicate Had(es: seq<PeerEvent>, st: Stamp) { exists i :: 0 <= i < |es| && es[i].Copy? && es[i].t.stamp == st }

  // A node knows, and has voted on, exactly the transactions it got a copy of.
  ghost predicate Knows(p: Peer, es: seq<PeerEvent>) {
    && (forall st :: st in p.hist <==> Had(es, st))
    && (forall st :: st in p.histVote <==> Had(es, st))
    && (forall st :: st in p.allVotes ==> Had(es, st))
  }

  lemma HadNext(es: seq<PeerEvent>, e: PeerEvent, st: Stamp)
    ensures Had(es + [e], st) <==> Had(es, st) || (e.Copy? && e.t.stamp == st)
  {
    if Had(es, st) {
      var i :| 0 <= i < |es| && es[i].Copy? && es[i].t.stamp == st;
      assert (es + [e])[i] == es[i];
    }
    if e.Copy? && e.t.stamp == st { assert (es + [e])[|es|] == e; }
  }

  lemma KnowsNext(p: Peer, me: nat, adj: seq<nat>, es: seq<PeerEvent>, e: PeerEvent)
    requires Valid(p, e) && Knows(p, es)
    ensures Knows(PeerStep(p, me, adj, e), es + [e])
  {
    hide Had;
    forall st ensures Had(es + [e], st) <==> Had(es, st) || (e.Copy? && e.t.stamp == st) {
      HadNext(es, e, st);
    }
  }

  lemma {:induction false} KnowsLaw(users: nat, me: nat, adj: seq<nat>, es: seq<PeerEvent>)
    requires AllValid(InitPeer(users), es)
    ensures Knows(PeerRun(InitPeer(users), me, adj, es), es)
  {
    if es != [] {
      hide Knows, PeerStep;
      var n := |es| - 1;
      KnowsLaw(users, me, adj, es[..n]);
      assert Valid(InitPeer(users), es[n]) by { assert es[n] in es; }
      assert es == es[..n] + [es[n]];
      KnowsNext(PeerRun(InitPeer(users), me, adj, es[..n]), me, adj, es[..n], es[n]);
    }
  }

  // The balance of a user after a history: the initial money and what the decisions moved.
  function Balance(users: nat, es: seq<PeerEvent>, u: nat): int {
    INIT_MONEY + Replay(Committed(InitPeer(users), es), u)
  }

  lemma {:induction false} BalanceLaw(users: nat, me: nat, adj: seq<nat>, es: seq<PeerEvent>, u: nat)
    requires AllValid(InitPeer(users), es) && u < users
    ensures PeerRun(InitPeer(users), me, adj, es).money[u] == Balance(users, es, u)
  {
    BalancedRun(users, me, adj, es);
    LedgerLaw(InitPeer(users), me, adj, es);
    assert [] + Committed(InitPeer(users), es) == Committed(InitPeer(users), es);
  }

  lemma {:induction false} BalancedRun(users: nat, me: nat, adj: seq<nat>, es: seq<PeerEvent>)
    requires AllValid(InitPeer(users), es)
    ensures Balanced(PeerRun(InitPeer(users), me, adj, es))
  {
    if es != [] {
      var n := |es| - 1;
      BalancedRun(users, me, adj, es[..n]);
      assert Valid(InitPeer(users), es[n]) by { assert es[n] in es; }
      if es[n].Decide? { ConsensusBalanced(PeerRun(InitPeer(users), me, adj, es[..n]), es[n].t); }
    }
  }

  // After any history a node answers the first copy of a transaction with copies for all
  // neighbours but the sender, and with its vote, for or against, for all neighbours; it sends
  // nothing else, ever.
  lemma OutLaw(users: nat, me: nat, adj: seq<nat>, es: seq<PeerEvent>, e: PeerEvent)
    requires AllValid(InitPeer(users), es) && Valid(InitPeer(users), e)
    ensures Out(PeerRun(InitPeer(users), me, adj, es), me, adj, e) ==
      if e.Copy? && !Had(es, e.t.stamp) then
        var t := e.t;
        var vote := Vote(t.stamp, me, t.money <= Balance(users, es, t.src), t.src, t.dest, t.money);
        Broadcast(me, adj, e.from, TransMsg(t)) + Broadcast(me, adj, -1, VoteMsg(vote))
      else []
  {
    hide Had, Committed;
    KnowsLaw(users, me, adj, es);
    if e.Copy? { BalanceLaw(users, me, adj, es, e.t.src); }
  }

  // A counted vote would be passed on by a node that had not voted itself.
  lemma RelayIff(p: Peer, me: nat, adj: seq<nat>, v: Vote, from: int)
    ensures var (q, out) := ReceiveVote(p, me, adj, v, from);
      && out == (if v.stamp in p.allVotes && v.stamp !in p.histVote then Broadcast(me, adj, from, VoteMsg(v)) else [])
      && q.histVote == p.histVote + (if v.stamp in p.allVotes then {v.stamp} else {})
  {
  }
}
