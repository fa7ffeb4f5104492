// Whether the nodes of the ledger network come to the same decision, and how often.
module LedgerAgreement {
  import opened Common
  import opened LedgerPeer
  import opened LedgerDecisions
  import opened LedgerNetwork
  import opened LedgerHistory
  import LedgerVotes

  // --- When two nodes agree ----------------------------------------------------------------

  // Two decisions on a transaction, by any nodes after any runs, come out alike if and only
  // if the votes that reached the two nodes since their last copies have the same majority.
  lemma DecideAlikeIff(adj: Graph, es: seq<Event>, s: System, u: nat, fs: seq<Event>, s': System, v: nat, t: Trans)
    requires Run(adj, Init(adj), es) == Next(s) && u < |adj| && Apply(adj, s, Wake(u, t)).Next?
    requires Run(adj, Init(adj), fs) == Next(s') && v < |adj| && Apply(adj, s', Wake(v, t)).Next?
    ensures (CommitsNow(adj, s, u, t) <==> CommitsNow(adj, s', v, t))
       <==> (Passes(InitPeer(|adj|), Local(adj, es, u), t.stamp)
             <==> Passes(InitPeer(|adj|), Local(adj, fs, v), t.stamp))
  {
    hide CommitsNow, Passes;
    CommitsIff(adj, es, s, u, t);
    CommitsIff(adj, fs, s', v, t);
  }

  // All votes that were cast on st in some run are in favour.
  ghost predicate Unanimous(s: System, st: Stamp) {
    forall c :: c in s.cast && c.vote.stamp == st ==> c.vote.yes
  }

  // A node has counted no vote against st.
  predicate NoneAgainst(p: Peer, st: Stamp) { st in p.allVotes ==> p.allVotes[st].1 == 0 }

  lemma NoneAgainstNext(adj: Graph, s: System, e: Event, u: nat, st: Stamp)
    requires Inv(adj, s) && LedgerVotes.CastInv(s) && Unanimous(s, st)
    requires u < |adj| && Apply(adj, s, e).Next? && NoneAgainst(s.peers[u], st)
    ensures NoneAgainst(Apply(adj, s, e).s.peers[u], st)
  {
    hide PeerStep, Apply;
    var p, xs := s.peers[u], At(s, e, u);
    LocalStep(adj, s, e, u);
    if xs != [] {
      TallyNext(p, u, adj[u], xs[0], st);
      if xs[0].Ballot? {
        var v := xs[0].v;
        assert LedgerVotes.WasCast(s.cast, v) by { assert e.Deliver? && s.net[e.i] in s.net; }
        assert v.stamp == st ==> v.yes;
      }
    }
  }

  lemma {:induction false} UnanimousRun(adj: Graph, es: seq<Event>, u: nat, st: Stamp)
    requires WellFormed(adj) && u < |adj| && Run(adj, Init(adj), es).Next?
    requires Unanimous(Run(adj, Init(adj), es).s, st)
    ensures NoneAgainst(Run(adj, Init(adj), es).s.peers[u], st)
  {
    if es != [] {
      var before, e := es[..|es| - 1], es[|es| - 1];
      var s := Run(adj, Init(adj), before).s;
      LedgerVotes.CastRun(adj, before);
      LedgerVotes.CastStep(adj, s, e);
      UnanimousRun(adj, before, u, st);
      NoneAgainstNext(adj, s, e, u, st);
    }
  }

  // When all votes cast are in favour, a decision commits if and only if a vote was counted.
  lemma UnanimousCommitsIff(adj: Graph, s: System, u: nat, t: Trans)
    requires WellFormed(adj) && Reachable(adj, s) && u < |adj| && (u, t) in s.sleeping
    requires Unanimous(s, t.stamp)
    ensures |s.peers| == |adj| && (CommitsNow(adj, s, u, t) <==> Tally(s.peers[u], t.stamp) > 0)
  {
    var es :| Run(adj, Init(adj), es) == Next(s);
    ReachableInv(adj, s);
    UnanimousRun(adj, es, u, t.stamp);
    StepKeeps(adj, s, Wake(u, t));
  }

  // Two nodes that decide after such votes decide differently if and only if exactly one of
  // them found no vote at all.
  lemma UnanimousDifferIff(adj: Graph, s: System, u: nat, s': System, v: nat, t: Trans)
    requires WellFormed(adj) && Reachable(adj, s) && Reachable(adj, s')
    requires u < |adj| && (u, t) in s.sleeping && Unanimous(s, t.stamp)
    requires v < |adj| && (v, t) in s'.sleeping && Unanimous(s', t.stamp)
    ensures |s.peers| == |s'.peers| == |adj|
    ensures (CommitsNow(adj, s, u, t) <==> !CommitsNow(adj, s', v, t))
       <==> (Tally(s.peers[u], t.stamp) == 0 <==> Tally(s'.peers[v], t.stamp) > 0)
  {
    hide CommitsNow, Tally, Reachable;
    UnanimousCommitsIff(adj, s, u, t);
    UnanimousCommitsIff(adj, s', v, t);
  }

  // --- Exhibited runs -------------------------------------------------------------------------

  // A state a run leads to, as far as the runs below need it.
  ghost predicate Leads(adj: Graph, es: seq<Event>, s: System, peers: seq<Peer>, net: seq<Msg>,
                        sleeping: multiset<(nat, Trans)>)
  {
    && Run(adj, Init(adj), es) == Next(s) && |peers| == |adj|
    && s.peers == peers && s.net == net && s.sleeping == sleeping
  }

  lemma Go(adj: Graph, es: seq<Event>, s: System, e: Event, t: System)
    requires Run(adj, Init(adj), es) == Next(s) && |s.peers| == |adj| && Apply(adj, s, e) == Next(t)
    ensures Run(adj, Init(adj), es + [e]) == Next(t)
  {
    assert (es + [e])[..|es|] == es;
  }

  lemma Started(adj: Graph, u: nat, t: Trans, q: Peer, out: seq<Msg>) returns (s: System)
    requires u < |adj| && t.src == u && t.dest < |adj|
    requires ReceiveTransaction(InitPeer(|adj|), u, adj[u], t, u) == (q, out)
    ensures Leads(adj, [Initiate(u, t)], s, Init(adj).peers[u := q], out, multiset{(u, t)})
  {
    hide ReceiveTransaction;
    var s0 := Init(adj);
    assert Run(adj, s0, []) == Next(s0) && s0.net + out == out;
    s := Apply(adj, s0, Initiate(u, t)).s;
    Go(adj, [], s0, Initiate(u, t), s);
    assert [] + [Initiate(u, t)] == [Initiate(u, t)];
  }

  lemma GotCopy(adj: Graph, es: seq<Event>, s: System, i: nat, t: Trans, q: Peer, out: seq<Msg>)
    returns (s': System)
    requires Run(adj, Init(adj), es) == Next(s) && |s.peers| == |adj| && i < |s.net|
    requires s.net[i].body == TransMsg(t) && s.net[i].to < |adj| && t.src < |s.peers[s.net[i].to].money|
    requires ReceiveTransaction(s.peers[s.net[i].to], s.net[i].to, adj[s.net[i].to], t, s.net[i].from) == (q, out)
    ensures Leads(adj, es + [Deliver(i)], s', s.peers[s.net[i].to := q], Without(s.net, i) + out,
                  s.sleeping + multiset{(s.net[i].to, t)})
  {
    hide ReceiveTransaction, Run;
    DeliverIsHandling(adj, s, i);
    s' := Apply(adj, s, Deliver(i)).s;
    Go(adj, es, s, Deliver(i), s');
  }

  lemma GotVote(adj: Graph, es: seq<Event>, s: System, i: nat, v: Vote, q: Peer) returns (s': System)
    requires Run(adj, Init(adj), es) == Next(s) && |s.peers| == |adj| && i < |s.net|
    requires s.net[i].body == VoteMsg(v) && s.net[i].to < |adj|
    requires ReceiveVote(s.peers[s.net[i].to], s.net[i].to, adj[s.net[i].to], v, s.net[i].from) == (q, [])
    ensures Leads(adj, es + [Deliver(i)], s', s.peers[s.net[i].to := q], Without(s.net, i), s.sleeping)
  {
    hide ReceiveVote, Run;
    s' := Apply(adj, s, Deliver(i)).s;
    assert s' == HandleVote(adj, s.(net := Without(s.net, i)), s.net[i].to, v, s.net[i].from);
    Go(adj, es, s, Deliver(i), s');
  }

  lemma Decided(adj: Graph, es: seq<Event>, s: System, u: nat, t: Trans) returns (s': System)
    requires Run(adj, Init(adj), es) == Next(s) && |s.peers| == |adj| && (u, t) in s.sleeping
    requires u < |adj| && t.src < |s.peers[u].money| && t.dest < |s.peers[u].money|
    ensures Leads(adj, es + [Wake(u, t)], s', s.peers[u := ReachConsensus(s.peers[u], t)], s.net,
                  s.sleeping - multiset{(u, t)})
  {
    hide ReachConsensus, Run;
    s' := Apply(adj, s, Wake(u, t)).s;
    Go(adj, es, s, Wake(u, t), s');
  }

  lemma BroadcastToOne(me: nat, v: nat, from: int, body: Body)
    ensures Broadcast(me, [v], from, body) == if v == from then [] else [Msg(me, v, body)]
  {
  }

  lemma BroadcastToTwo(me: nat, v: nat, w: nat, from: int, body: Body)
    ensures Broadcast(me, [v, w], from, body)
         == (if v == from then [] else [Msg(me, v, body)]) + (if w == from then [] else [Msg(me, w, body)])
  {
    assert [v, w][..1] == [v];
    BroadcastToOne(me, v, from, body);
  }

  // A node that has t and nothing else, with some tally.
  function Informed(users: nat, t: Trans, tally: (nat, nat)): Peer {
    Peer({t.stamp}, map[t.stamp := tally], {t.stamp}, [], seq(users, _ => INIT_MONEY))
  }

  function VoteOf(me: nat, t: Trans): Vote { Vote(t.stamp, me, true, t.src, t.dest, t.money) }

  // The messages with a transaction and with a vote on it.
  function C(from: nat, to: nat, t: Trans): Msg { Msg(from, to, TransMsg(t)) }

  function V(from: nat, to: nat, t: Trans): Msg { Msg(from, to, VoteMsg(VoteOf(from, t))) }

  predicate Payable(t: Trans, users: nat) { t.src == 0 && t.dest < users && 0 < users && t.money <= INIT_MONEY }

  // A fresh node receives t.
  lemma FirstCopy(users: nat, me: nat, adj: seq<nat>, from: nat, t: Trans)
    requires Payable(t, users)
    ensures ReceiveTransaction(InitPeer(users), me, adj, t, from)
         == (Informed(users, t, (0, 0)),
             Broadcast(me, adj, from, TransMsg(t)) + Broadcast(me, adj, -1, VoteMsg(VoteOf(me, t))))
  {
    var (q, out) := LedgerPeer.BroadcastTransaction(InitPeer(users), me, adj, t, from);
    assert q == Informed(users, t, (0, 0)).(histVote := {});
    assert MyVote(q, me, t) == VoteOf(me, t);
  }

  lemma FirstVote(users: nat, me: nat, adj: seq<nat>, v: Vote, t: Trans, from: int)
    requires v.stamp == t.stamp && v.yes
    ensures ReceiveVote(Informed(users, t, (0, 0)), me, adj, v, from) == (Informed(users, t, (1, 0)), [])
  {
    assert map[t.stamp := (0, 0)][t.stamp := (1, 0)] == map[t.stamp := (1, 0)];
  }

  // --- Two nodes with different ledgers ---------------------------------------------------------

  const PAIR: Graph := [[1], [0]]

  lemma CopyInPair(me: nat, from: nat, t: Trans)
    requires Payable(t, 2) && me < 2 && from < 2
    ensures ReceiveTransaction(InitPeer(2), me, PAIR[me], t, from)
         == (Informed(2, t, (0, 0)), if from == me then [C(me, 1 - me, t), V(me, 1 - me, t)] else [V(me, 1 - me, t)])
  {
    assert PAIR[me] == [1 - me];
    FirstCopy(2, me, PAIR[me], from, t);
    BroadcastToOne(me, 1 - me, from, TransMsg(t));
    BroadcastToOne(me, 1 - me, -1, VoteMsg(VoteOf(me, t)));
    assert [C(me, 1 - me, t)] + [V(me, 1 - me, t)] == [C(me, 1 - me, t), V(me, 1 - me, t)];
    assert [] + [V(me, 1 - me, t)] == [V(me, 1 - me, t)];
  }

  // A vote that comes before its transaction is not counted.
  lemma EarlyVote(users: nat, me: nat, adj: seq<nat>, v: Vote, from: int)
    ensures ReceiveVote(InitPeer(users), me, adj, v, from) == (InitPeer(users), [])
  {
  }

  // Node 0 starts a transaction, and its vote overtakes it on the way to node 1. Node 1 gets
  // the transaction and votes on it, too late to count the other vote.
  lemma Overtaken(t: Trans) returns (es: seq<Event>, s: System)
    requires Payable(t, 2)
    ensures Leads(PAIR, es, s, [Informed(2, t, (0, 0)), Informed(2, t, (0, 0))], [V(1, 0, t)],
                  multiset{(0, t), (1, t)})
  {
    hide ReceiveTransaction, Run;
    var blank, informed := InitPeer(2), Informed(2, t, (0, 0));
    CopyInPair(0, 0, t);
    CopyInPair(1, 0, t);
    assert Init(PAIR).peers == [blank, blank];
    var s1 := Started(PAIR, 0, t, informed, [C(0, 1, t), V(0, 1, t)]);
    assert s1.peers == [informed, blank];
    EarlyVote(2, 1, [0], VoteOf(0, t), 0);
    var s2 := GotVote(PAIR, [Initiate(0, t)], s1, 1, VoteOf(0, t), blank);
    assert s2.net == [C(0, 1, t)] && s2.peers == [informed, blank];
    s := GotCopy(PAIR, [Initiate(0, t)] + [Deliver(1)], s2, 0, t, informed, [V(1, 0, t)]);
    assert s.net == [V(1, 0, t)] && s.peers == [informed, informed];
    es := [Initiate(0, t)] + [Deliver(1)] + [Deliver(0)];
  }

  // When a vote arrives before its transaction, one node of two commits it and the other
  // never does, with everything delivered and decided.
  lemma LedgersDiverge(t: Trans) returns (s: System)
    requires Payable(t, 2)
    ensures Reachable(PAIR, s) && s.net == [] && s.sleeping == multiset{}
    ensures |s.peers| == 2 && s.peers[0].ledger == [t] && s.peers[1].ledger == []
  {
    hide Run, ReceiveVote;
    var es, s1 := Overtaken(t);
    FirstVote(2, 0, [1], VoteOf(1, t), t, 1);
    var s2 := GotVote(PAIR, es, s1, 0, VoteOf(1, t), Informed(2, t, (1, 0)));
    assert s2.net == [] && s2.peers == [Informed(2, t, (1, 0)), Informed(2, t, (0, 0))];
    var s3 := Decided(PAIR, es + [Deliver(0)], s2, 0, t);
    s := Decided(PAIR, es + [Deliver(0)] + [Wake(0, t)], s3, 1, t);
  }

  // --- One node that commits twice ------------------------------------------------------------------

  const TRIANGLE: Graph := [[1, 2], [0, 2], [0, 1]]

  // In the triangle the smaller neighbour of nodes 1 and 2 is node 0.
  lemma CopyInTriangle(me: nat, other: nat, t: Trans)
    requires Payable(t, 3) && ((me == 1 && other == 2) || (me == 2 && other == 1))
    ensures ReceiveTransaction(InitPeer(3), me, TRIANGLE[me], t, 0)
         == (Informed(3, t, (0, 0)), [C(me, other, t), V(me, 0, t), V(me, other, t)])
  {
    assert TRIANGLE[me] == [0, other];
    FirstCopy(3, me, TRIANGLE[me], 0, t);
    BroadcastToTwo(me, 0, other, 0, TransMsg(t));
    BroadcastToTwo(me, 0, other, -1, VoteMsg(VoteOf(me, t)));
    assert [] + [C(me, other, t)] == [C(me, other, t)];
    assert [C(me, other, t)] + ([V(me, 0, t)] + [V(me, other, t)]) == [C(me, other, t), V(me, 0, t), V(me, other, t)];
  }

  lemma StartInTriangle(t: Trans)
    requires Payable(t, 3)
    ensures ReceiveTransaction(InitPeer(3), 0, TRIANGLE[0], t, 0)
         == (Informed(3, t, (0, 0)), [C(0, 1, t), C(0, 2, t), V(0, 1, t), V(0, 2, t)])
  {
    FirstCopy(3, 0, TRIANGLE[0], 0, t);
    BroadcastToTwo(0, 1, 2, 0, TransMsg(t));
    BroadcastToTwo(0, 1, 2, -1, VoteMsg(VoteOf(0, t)));
    assert ([C(0, 1, t)] + [C(0, 2, t)]) + ([V(0, 1, t)] + [V(0, 2, t)])
        == [C(0, 1, t), C(0, 2, t), V(0, 1, t), V(0, 2, t)];
  }

  // Node 1 after its first decision, and when it got another copy and some votes.
  function Once(t: Trans): Peer
    requires Payable(t, 3)
  {
    Peer({t.stamp}, map[], {t.stamp}, [t], Transfer(seq(3, _ => INIT_MONEY), t))
  }

  function Again(t: Trans, tally: (nat, nat)): Peer
    requires Payable(t, 3)
  {
    Once(t).(allVotes := map[t.stamp := tally])
  }

  // Node 1 gets the transaction and the vote of node 0, and decides.
  lemma FirstDecision(t: Trans) returns (es: seq<Event>, s: System)
    requires Payable(t, 3)
    ensures Leads(TRIANGLE, es, s, [Informed(3, t, (0, 0)), Once(t), InitPeer(3)],
                  [C(0, 2, t), V(0, 2, t), C(1, 2, t), V(1, 0, t), V(1, 2, t)], multiset{(0, t)})
  {
    hide ReceiveTransaction, ReceiveVote, Run;
    var blank, informed := InitPeer(3), Informed(3, t, (0, 0));
    StartInTriangle(t);
    CopyInTriangle(1, 2, t);
    assert Init(TRIANGLE).peers == [blank, blank, blank];
    var s1 := Started(TRIANGLE, 0, t, informed, [C(0, 1, t), C(0, 2, t), V(0, 1, t), V(0, 2, t)]);
    assert s1.peers == [informed, blank, blank];
    var s2 := GotCopy(TRIANGLE, [Initiate(0, t)], s1, 0, t, informed, [C(1, 2, t), V(1, 0, t), V(1, 2, t)]);
    assert s2.peers == [informed, informed, blank];
    assert s2.net == [C(0, 2, t), V(0, 1, t), V(0, 2, t), C(1, 2, t), V(1, 0, t), V(1, 2, t)];
    FirstVote(3, 1, [0, 2], VoteOf(0, t), t, 0);
    var s3 := GotVote(TRIANGLE, [Initiate(0, t)] + [Deliver(0)], s2, 1, VoteOf(0, t), Informed(3, t, (1, 0)));
    assert s3.peers == [informed, Informed(3, t, (1, 0)), blank];
    s := Decided(TRIANGLE, [Initiate(0, t)] + [Deliver(0)] + [Deliver(1)], s3, 1, t);
    FirstCommit(t);
    es := [Initiate(0, t)] + [Deliver(0)] + [Deliver(1)] + [Wake(1, t)];
  }

  lemma FirstCommit(t: Trans)
    requires Payable(t, 3)
    ensures ReachConsensus(Informed(3, t, (1, 0)), t) == Once(t)
  {
    assert map[t.stamp := (1, 0)] - {t.stamp} == map[];
    assert [] + [t] == [t];
  }

  // Another copy is not forwarded but resets the tally.
  lemma SecondCopy(t: Trans)
    requires Payable(t, 3)
    ensures ReceiveTransaction(Once(t), 1, [0, 2], t, 2) == (Again(t, (0, 0)), [])
  {
    var (q, out) := LedgerPeer.BroadcastTransaction(Once(t), 1, [0, 2], t, 2);
    assert map[][t.stamp := (0, 0)] == map[t.stamp := (0, 0)];
    assert q == Again(t, (0, 0)) && out == [];
    var (r, out') := LedgerPeer.BroadcastVote(q, 1, [0, 2], MyVote(q, 1, t), -1);
    assert r == q && out + out' == [];
  }

  lemma SecondVote(t: Trans)
    requires Payable(t, 3)
    ensures ReceiveVote(Again(t, (0, 0)), 1, [0, 2], VoteOf(2, t), 2) == (Again(t, (1, 0)), [])
  {
    assert map[t.stamp := (0, 0)][t.stamp := (1, 0)] == map[t.stamp := (1, 0)];
  }

  // Then node 2 gets the transaction, and its copy and its vote reach node 1.
  lemma SecondTally(t: Trans) returns (es: seq<Event>, s: System)
    requires Payable(t, 3)
    ensures Leads(TRIANGLE, es, s, [Informed(3, t, (0, 0)), Again(t, (1, 0)), Informed(3, t, (0, 0))], s.net,
                  multiset{(0, t), (1, t), (2, t)})
  {
    hide ReceiveTransaction, ReceiveVote, Run;
    var fs, s1 := FirstDecision(t);
    var informed := Informed(3, t, (0, 0));
    CopyInTriangle(2, 1, t);
    var s2 := GotCopy(TRIANGLE, fs, s1, 0, t, informed, [C(2, 1, t), V(2, 0, t), V(2, 1, t)]);
    assert s2.peers == [informed, Once(t), informed];
    assert s2.net == [V(0, 2, t), C(1, 2, t), V(1, 0, t), V(1, 2, t), C(2, 1, t), V(2, 0, t), V(2, 1, t)];
    SecondCopy(t);
    var s3 := GotCopy(TRIANGLE, fs + [Deliver(0)], s2, 4, t, Again(t, (0, 0)), []);
    assert s3.peers == [informed, Again(t, (0, 0)), informed];
    assert s3.net[5] == V(2, 1, t);
    SecondVote(t);
    s := GotVote(TRIANGLE, fs + [Deliver(0)] + [Deliver(4)], s3, 5, VoteOf(2, t), Again(t, (1, 0)));
    assert s.peers == [informed, Again(t, (1, 0)), informed];
    es := fs + [Deliver(0)] + [Deliver(4)] + [Deliver(5)];
  }

  // Three nodes that all know each other, two votes of different nodes: the second copy comes
  // after the first decision, and node 1 commits the transaction twice.
  lemma CommittedTwice(t: Trans) returns (s: System)
    requires Payable(t, 3)
    ensures Reachable(TRIANGLE, s) && |s.peers| == 3 && s.peers[1].ledger == [t, t]
  {
    hide Run;
    var es, s1 := SecondTally(t);
    s := Decided(TRIANGLE, es, s1, 1, t);
    assert [t] + [t] == [t, t];
  }
}
