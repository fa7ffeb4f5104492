// The votes of the ledger network and the ledgers they were cast on.
module LedgerVotes {
  import opened Common
  import opened LedgerPeer
  import opened LedgerNetwork

  // A vote says whether the ledger its voter had then gives the payer enough money; that
  // ledger is still the beginning of the voter's ledger.
  ghost predicate CastOk(peers: seq<Peer>, c: Cast) {
    && c.vote.voter < |peers| && c.ledger <= peers[c.vote.voter].ledger
    && (c.vote.yes <==> INIT_MONEY + Replay(c.ledger, c.vote.src) >= c.vote.money)
  }

  ghost predicate WasCast(cast: seq<Cast>, v: Vote) { exists c :: c in cast && c.vote == v }

  ghost predicate CastInv(s: System) {
    && (forall c :: c in s.cast ==> CastOk(s.peers, c))
    && (forall m :: m in s.net && m.body.VoteMsg? ==> WasCast(s.cast, m.body.v))
  }

  lemma CastStays(cast: seq<Cast>, longer: seq<Cast>, v: Vote)
    requires WasCast(cast, v) && cast <= longer
    ensures WasCast(longer, v)
  {
    var c :| c in cast && c.vote == v;
    assert c in longer;
  }

  // The messages that handling a transaction adds.
  lemma OwnVoteOnly(p: Peer, u: nat, adj: seq<nat>, t: Trans, from: int)
    requires t.src < |p.money|
    ensures var (q, out) := ReceiveTransaction(p, u, adj, t, from);
      && q.ledger == p.ledger
      && forall m :: m in out && m.body.VoteMsg? ==> t.stamp !in p.histVote && m.body.v == MyVote(p, u, t)
  {
  }

  lemma HandlingCasts(adj: Graph, s: System, u: nat, t: Trans, from: int)
    requires |s.peers| == |adj| && u < |adj| && PeerInv(s.peers[u], |adj|) && t.src < |adj| && CastInv(s)
    ensures CastInv(HandleTransaction(adj, s, u, t, from))
  {
    hide ReceiveTransaction;
    var p, s' := s.peers[u], HandleTransaction(adj, s, u, t, from);
    OwnVoteOnly(p, u, adj[u], t, from);
    var c := Cast(MyVote(p, u, t), p.ledger);
    forall d | d in s'.cast ensures CastOk(s'.peers, d) {
      if d in s.cast { assert CastOk(s.peers, d); }
    }
    forall m | m in s'.net && m.body.VoteMsg? ensures WasCast(s'.cast, m.body.v) {
      if m in s.net {
        CastStays(s.cast, s'.cast, m.body.v);
      } else {
        assert c in s'.cast;
      }
    }
  }

  // Ledgers only grow, and no vote is added.
  lemma CastsKept(s: System, s': System)
    requires CastInv(s) && s'.cast == s.cast && |s'.peers| == |s.peers|
    requires forall u :: 0 <= u < |s.peers| ==> s.peers[u].ledger <= s'.peers[u].ledger
    requires forall m :: m in s'.net ==> m in s.net
    ensures CastInv(s')
  {
    forall c | c in s'.cast ensures CastOk(s'.peers, c) {
      assert CastOk(s.peers, c);
    }
  }

  lemma DeliverCasts(adj: Graph, s: System, i: nat)
    requires WellFormed(adj) && Inv(adj, s) && CastInv(s) && i < |s.net| && Apply(adj, s, Deliver(i)).Next?
    ensures CastInv(Apply(adj, s, Deliver(i)).s)
  {
    var m, rest := s.net[i], s.(net := Without(s.net, i));
    CastsKept(s, rest);
    assert MsgInv(adj, s.peers, s.issued, m) && PeerInv(s.peers[m.to], |adj|);
    if m.body.TransMsg? {
      assert WellIssued(|adj|, m.body.t.stamp, s.issued[m.body.t.stamp]);
      HandlingCasts(adj, rest, m.to, m.body.t, m.from);
      DeliverIsHandling(adj, s, i);
    } else {
      VoteDelivered(adj, s, i);
      VoteKeepsLedger(s.peers[m.to], m.to, adj[m.to], m.body.v, m.from);
      CastsKept(rest, Apply(adj, s, Deliver(i)).s);
    }
  }

  lemma VoteKeepsLedger(p: Peer, u: nat, adj: seq<nat>, v: Vote, from: int)
    ensures ReceiveVote(p, u, adj, v, from).0.ledger == p.ledger
  {
  }

  lemma CastStep(adj: Graph, s: System, e: Event)
    requires WellFormed(adj) && Inv(adj, s) && CastInv(s) && Apply(adj, s, e).Next?
    ensures CastInv(Apply(adj, s, e).s) && s.cast <= Apply(adj, s, e).s.cast
  {
    match e
    case Initiate(u, t) =>
      assert PeerInv(s.peers[u], |adj|);
      HandlingCasts(adj, s.(issued := s.issued[t.stamp := (u, t)]), u, t, u);
    case Deliver(i) => DeliverCasts(adj, s, i);
    case Wake(u, t) => CastsKept(s, Apply(adj, s, e).s);
  }

  lemma {:induction false} CastRun(adj: Graph, es: seq<Event>)
    requires WellFormed(adj) && Run(adj, Init(adj), es).Next?
    ensures Inv(adj, Run(adj, Init(adj), es).s) && CastInv(Run(adj, Init(adj), es).s)
  {
    InitHolds(adj);
    RunKeeps(adj, Init(adj), es);
    if es != [] {
      var before := es[..|es| - 1];
      CastRun(adj, before);
      CastStep(adj, Run(adj, Init(adj), before).s, es[|es| - 1]);
    }
  }

  // Every vote on its way, and every vote ever cast, says whether the ledger of its voter,
  // as it was when the vote was cast, gives the payer enough money.
  lemma VoteFollowsLedger(adj: Graph, s: System, m: Msg)
    requires WellFormed(adj) && Reachable(adj, s) && m in s.net && m.body.VoteMsg?
    ensures |s.peers| == |adj| && m.from < |adj| && m.body.v.voter == m.from
    ensures exists c :: c in s.cast && c.vote == m.body.v && CastOk(s.peers, c)
  {
    var es :| Run(adj, Init(adj), es) == Next(s);
    CastRun(adj, es);
    VotesGoOneHop(adj, s, m);
    assert WasCast(s.cast, m.body.v);
  }
}
