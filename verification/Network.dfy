// The ledger network: transactions flood a graph of nodes, votes go to neighbours.
module LedgerNetwork {
  import opened Common
  import opened LedgerPeer

  // adj[u] lists the neighbours of node u.
  type Graph = seq<seq<nat>>

  predicate WellFormed(adj: Graph) {
    forall u, v :: 0 <= u < |adj| && v in adj[u] ==> v < |adj|
  }

  // A vote of its own that a node cast, with its ledger at that moment.
  datatype Cast = Cast(vote: Vote, ledger: seq<Trans>)

  // issued records who started which transaction, forwarded and voted who broadcast
  // a transaction or a vote for which time stamp, cast the votes that nodes cast.
  datatype System = System(
    peers: seq<Peer>, net: seq<Msg>, sleeping: multiset<(nat, Trans)>,
    issued: map<Stamp, (nat, Trans)>, forwarded: seq<(nat, Stamp)>, voted: seq<(nat, Stamp)>,
    cast: seq<Cast>)

  // Messages are delivered once each, in any order.
  datatype Event = Initiate(u: nat, t: Trans) | Deliver(i: nat) | Wake(u: nat, t: Trans)

  function Init(adj: Graph): System {
    System(seq(|adj|, _ => InitPeer(|adj|)), [], multiset{}, map[], [], [], [])
  }

  predicate Known(s: System, t: Trans) { t.src < |s.peers| && t.dest < |s.peers| }

  function HandleTransaction(adj: Graph, s: System, u: nat, t: Trans, from: int): (s': System)
    requires u < |s.peers| == |adj| && t.src < |s.peers[u].money|
    ensures |s'.peers| == |adj|
  {
    var p := s.peers[u];
    var (q, out) := ReceiveTransaction(p, u, adj[u], t, from);
    s.(peers := s.peers[u := q], net := s.net + out, sleeping := s.sleeping + multiset{(u, t)},
       forwarded := if t.stamp in p.hist then s.forwarded else s.forwarded + [(u, t.stamp)],
       voted := if t.stamp in p.histVote then s.voted else s.voted + [(u, t.stamp)],
       cast := if t.stamp in p.histVote then s.cast else s.cast + [Cast(MyVote(p, u, t), p.ledger)])
  }

  function HandleVote(adj: Graph, s: System, u: nat, v: Vote, from: int): (s': System)
    requires u < |s.peers| == |adj|
    ensures |s'.peers| == |adj|
  {
    var p := s.peers[u];
    var (q, out) := ReceiveVote(p, u, adj[u], v, from);
    s.(peers := s.peers[u := q], net := s.net + out,
       voted := if v.stamp !in p.allVotes || v.stamp in p.histVote then s.voted else s.voted + [(u, v.stamp)])
  }

  // A new transaction carries a time stamp never used before.
  function Apply(adj: Graph, s: System, e: Event): (o: Outcome<System>)
    requires |s.peers| == |adj|
    ensures o.Next? ==> |o.s.peers| == |adj|
  {
    match e
    case Initiate(u, t) =>
      if u >= |adj| || t.src != u || !Known(s, t) || t.stamp in s.issued then Blocked
      else if t.src >= |s.peers[u].money| then Fault
      else Next(HandleTransaction(adj, s.(issued := s.issued[t.stamp := (u, t)]), u, t, u))
    case Deliver(i) =>
      if i >= |s.net| then Blocked
      else
        var m, rest := s.net[i], s.(net := Without(s.net, i));
        if m.to >= |adj| then Fault
        else if m.body.VoteMsg? then Next(HandleVote(adj, rest, m.to, m.body.v, m.from))
        else if m.body.t.src >= |s.peers[m.to].money| then Fault
        else Next(HandleTransaction(adj, rest, m.to, m.body.t, m.from))
    case Wake(u, t) =>
      if (u, t) !in s.sleeping then Blocked
      else if u >= |adj| || t.src >= |s.peers[u].money| || t.dest >= |s.peers[u].money| then Fault
      else Next(s.(peers := s.peers[u := ReachConsensus(s.peers[u], t)], sleeping := s.sleeping - multiset{(u, t)}))
  }

  function Run(adj: Graph, s: System, es: seq<Event>): (o: Outcome<System>)
    requires |s.peers| == |adj|
    ensures o.Next? ==> |o.s.peers| == |adj|
  {
    if es == [] then Next(s)
    else match Run(adj, s, es[..|es| - 1])
      case Next(t) => Apply(adj, t, es[|es| - 1])
      case other => other
  }

  ghost predicate Leads(adj: Graph, s: System, t: System)
    requires |s.peers| == |adj|
  {
    exists es :: Run(adj, s, es) == Next(t)
  }

  ghost predicate Reachable(adj: Graph, s: System) { Leads(adj, Init(adj), s) }

  // --- Graph reachability ----------------------------------------------------------------

  ghost predicate IsPath(adj: Graph, p: seq<nat>) {
    && p != []
    && (forall i :: 0 <= i < |p| ==> p[i] < |adj|)
    && (forall i {:trigger p[i]} :: 0 < i < |p| ==> p[i] in adj[p[i - 1]])
  }

  ghost predicate Connected(adj: Graph, a: nat, b: nat) {
    exists p :: IsPath(adj, p) && p[0] == a && p[|p| - 1] == b
  }

  lemma ConnectedSelf(adj: Graph, a: nat)
    requires a < |adj|
    ensures Connected(adj, a, a)
  {
    assert IsPath(adj, [a]);
  }

  lemma ConnectedStep(adj: Graph, a: nat, b: nat, c: nat)
    requires Connected(adj, a, b) && b < |adj| && c < |adj| && c in adj[b]
    ensures Connected(adj, a, c)
  {
    var p :| IsPath(adj, p) && p[0] == a && p[|p| - 1] == b;
    var q := p + [c];
    forall i | 0 < i < |q| ensures q[i] in adj[q[i - 1]] {
      if i < |p| { assert p[i] in adj[p[i - 1]]; }
    }
    assert IsPath(adj, q) && q[0] == a && q[|q| - 1] == c;
  }

  // --- Invariant ---------------------------------------------------------------------------

  // INIT_MONEY for each of so many users.
  function StartingMoney(users: nat): int { 100 * users }

  ghost predicate PeerInv(p: Peer, users: nat) {
    && |p.money| == users && Balanced(p) && Total(p.money) == StartingMoney(users)
    && p.hist == p.histVote && p.allVotes.Keys <= p.hist
  }

  ghost predicate MsgInv(adj: Graph, peers: seq<Peer>, issued: map<Stamp, (nat, Trans)>, m: Msg)
    requires |peers| == |adj|
  {
    && m.from < |adj| && m.to < |adj| && m.to in adj[m.from]
    && match m.body
       case TransMsg(t) => t.stamp in issued && issued[t.stamp].1 == t && t.stamp in peers[m.from].hist
       case VoteMsg(v) => v.voter == m.from && v.stamp in peers[m.from].hist
  }

  // Node u has the transaction of a time stamp only along a path from its origin.
  ghost predicate OriginInv(adj: Graph, issued: map<Stamp, (nat, Trans)>, u: nat, hist: set<Stamp>) {
    forall st :: st in hist ==> st in issued && Connected(adj, issued[st].0, u)
  }

  ghost predicate WellIssued(users: nat, st: Stamp, entry: (nat, Trans)) {
    && entry.0 < users && entry.1.stamp == st
    && entry.1.src < users && entry.1.dest < users
  }

  // Whoever started a transaction has it.
  ghost predicate IssuedInv(peers: seq<Peer>, issued: map<Stamp, (nat, Trans)>) {
    forall st :: st in issued ==> WellIssued(|peers|, st, issued[st]) && st in peers[issued[st].0].hist
  }

  predicate Carries(m: Msg, v: nat, st: Stamp) {
    m.to == v && m.body.TransMsg? && m.body.t.stamp == st
  }

  // A neighbour of a node that has the transaction has it too, or it is on its way.
  ghost predicate Covered(peers: seq<Peer>, net: seq<Msg>, v: nat, st: Stamp)
    requires v < |peers|
  {
    st in peers[v].hist || exists m :: m in net && Carries(m, v, st)
  }

  ghost predicate CoverInv(adj: Graph, peers: seq<Peer>, net: seq<Msg>)
    requires |peers| == |adj|
  {
    forall u, v, st :: 0 <= u < |adj| && v in adj[u] && v < |adj| && st in peers[u].hist ==> Covered(peers, net, v, st)
  }

  // Each pair occurs once, and exactly for the time stamps the node has.
  ghost predicate LogInv(peers: seq<Peer>, log: seq<(nat, Stamp)>) {
    && (forall i, j :: 0 <= i < j < |log| ==> log[i] != log[j])
    && (forall u: nat, st :: (u, st) in log <==> u < |peers| && st in peers[u].hist)
  }

  ghost predicate PeersInv(adj: Graph, peers: seq<Peer>, issued: map<Stamp, (nat, Trans)>)
    requires |peers| == |adj|
  {
    forall u :: 0 <= u < |adj| ==> PeerInv(peers[u], |adj|) && OriginInv(adj, issued, u, peers[u].hist)
  }

  ghost predicate NetInv(adj: Graph, peers: seq<Peer>, issued: map<Stamp, (nat, Trans)>, net: seq<Msg>)
    requires |peers| == |adj|
  {
    forall m :: m in net ==> MsgInv(adj, peers, issued, m)
  }

  ghost predicate SleepInv(users: nat, sleeping: multiset<(nat, Trans)>) {
    forall x :: x in sleeping ==> x.0 < users && x.1.src < users && x.1.dest < users
  }

  ghost predicate Inv(adj: Graph, s: System) {
    && |s.peers| == |adj|
    && PeersInv(adj, s.peers, s.issued)
    && NetInv(adj, s.peers, s.issued, s.net)
    && SleepInv(|adj|, s.sleeping)
    && IssuedInv(s.peers, s.issued)
    && CoverInv(adj, s.peers, s.net)
    && LogInv(s.peers, s.forwarded) && LogInv(s.peers, s.voted)
  }

  // --- Parts of a step ---------------------------------------------------------------------

  // Only node u changed its history, by st at most.
  ghost predicate Grown(peers: seq<Peer>, peers': seq<Peer>, u: nat, st: Stamp) {
    && |peers'| == |peers| && u < |peers|
    && (forall w :: 0 <= w < |peers| && w != u ==> peers'[w] == peers[w])
    && peers'[u].hist == peers[u].hist + {st}
  }

  // As CoverInv, but nothing is known about node u and st.
  ghost predicate CoverExcept(adj: Graph, peers: seq<Peer>, net: seq<Msg>, u: nat, st: Stamp)
    requires |peers| == |adj|
  {
    forall w, v, x :: 0 <= w < |adj| && v in adj[w] && v < |adj| && x in peers[w].hist && (v != u || x != st)
      ==> Covered(peers, net, v, x)
  }

  lemma CoverWithout(adj: Graph, peers: seq<Peer>, net: seq<Msg>, i: nat, st: Stamp)
    requires |peers| == |adj| && CoverInv(adj, peers, net) && i < |net|
    requires net[i].body.TransMsg? ==> net[i].body.t.stamp == st
    ensures CoverExcept(adj, peers, Without(net, i), net[i].to, st)
    ensures net[i].body.VoteMsg? ==> CoverInv(adj, peers, Without(net, i))
  {
  }

  lemma CoverRestored(adj: Graph, peers: seq<Peer>, net: seq<Msg>, peers': seq<Peer>, u: nat, t: Trans,
                      from: int, out: seq<Msg>)
    requires |peers| == |adj| && u < |adj| && Grown(peers, peers', u, t.stamp)
    requires CoverExcept(adj, peers, net, u, t.stamp)
    requires t.stamp !in peers[u].hist ==>
      forall v :: v in adj[u] && v != from ==> Msg(u, v, TransMsg(t)) in out
    requires 0 <= from < |adj| && (from == u || t.stamp in peers[from].hist)
    ensures CoverInv(adj, peers', net + out)
  {
    forall w, v, x | 0 <= w < |adj| && v in adj[w] && v < |adj| && x in peers'[w].hist
      ensures Covered(peers', net + out, v, x)
    {
      if v == u && x == t.stamp {
      } else if x in peers[w].hist {
        assert Covered(peers, net, v, x);
        if x !in peers[v].hist {
          var m :| m in net && Carries(m, v, x);
          assert m in net + out;
        }
      } else if v != from {
        var m := Msg(u, v, TransMsg(t));
        assert m in net + out && Carries(m, v, x);
      }
    }
  }

  lemma LogGrows(peers: seq<Peer>, peers': seq<Peer>, log: seq<(nat, Stamp)>, u: nat, st: Stamp)
    requires LogInv(peers, log) && Grown(peers, peers', u, st)
    ensures LogInv(peers', if st in peers[u].hist then log else log + [(u, st)])
  {
  }

  // A message node u sends because of transaction t: that transaction or its own vote.
  predicate FromTransaction(m: Msg, u: nat, adj: seq<nat>, t: Trans) {
    && m.from == u && m.to in adj
    && match m.body
       case TransMsg(x) => x == t
       case VoteMsg(v) => v.voter == u && v.stamp == t.stamp
  }

  // What handling a transaction does to the node.
  lemma TransactionAtPeer(p: Peer, u: nat, adj: seq<nat>, t: Trans, from: int, users: nat)
    requires PeerInv(p, users) && t.src < users
    ensures var (q, out) := ReceiveTransaction(p, u, adj, t, from);
      && PeerInv(q, users) && q.hist == p.hist + {t.stamp}
      && (t.stamp in p.hist ==> out == [])
      && (t.stamp !in p.hist ==> forall v :: v in adj && v != from ==> Msg(u, v, TransMsg(t)) in out)
      && forall m :: m in out ==> FromTransaction(m, u, adj, t)
  {
  }

  // A vote changes nothing but the tally, and is never passed on.
  lemma VoteAtPeer(p: Peer, u: nat, adj: seq<nat>, v: Vote, from: int, users: nat)
    requires PeerInv(p, users)
    ensures var (q, out) := ReceiveVote(p, u, adj, v, from);
      PeerInv(q, users) && q.hist == p.hist && out == []
  {
  }

  // As IssuedInv, but node u may be the origin of x and not have it yet.
  ghost predicate AlmostIssued(peers: seq<Peer>, issued: map<Stamp, (nat, Trans)>, u: nat, x: Stamp) {
    forall st :: st in issued ==>
      WellIssued(|peers|, st, issued[st]) && (st in peers[issued[st].0].hist || (st == x && issued[st].0 == u))
  }

  // The state in which node u handles transaction t: the message is out of the
  // network, and u may be its origin and not have it yet.
  ghost predicate Handling(adj: Graph, s: System, u: nat, t: Trans, from: nat) {
    && |s.peers| == |adj| && u < |adj| && from < |adj|
    && PeersInv(adj, s.peers, s.issued)
    && NetInv(adj, s.peers, s.issued, s.net)
    && SleepInv(|adj|, s.sleeping)
    && AlmostIssued(s.peers, s.issued, u, t.stamp)
    && t.stamp in s.issued && s.issued[t.stamp].1 == t && Connected(adj, s.issued[t.stamp].0, u)
    && CoverExcept(adj, s.peers, s.net, u, t.stamp)
    && (from == u || t.stamp in s.peers[from].hist)
    && LogInv(s.peers, s.forwarded) && LogInv(s.peers, s.voted)
  }

  lemma NetGrows(adj: Graph, peers: seq<Peer>, peers': seq<Peer>, issued: map<Stamp, (nat, Trans)>,
                 net: seq<Msg>, u: nat, t: Trans, out: seq<Msg>)
    requires |peers| == |adj| && NetInv(adj, peers, issued, net) && Grown(peers, peers', u, t.stamp)
    requires WellFormed(adj) && t.stamp in issued && issued[t.stamp].1 == t
    requires forall m :: m in out ==> FromTransaction(m, u, adj[u], t)
    ensures NetInv(adj, peers', issued, net + out)
  {
  }

  lemma PeersGrow(adj: Graph, peers: seq<Peer>, peers': seq<Peer>, issued: map<Stamp, (nat, Trans)>,
                  u: nat, st: Stamp)
    requires |peers| == |adj| && PeersInv(adj, peers, issued) && Grown(peers, peers', u, st)
    requires PeerInv(peers'[u], |adj|) && st in issued && Connected(adj, issued[st].0, u)
    ensures PeersInv(adj, peers', issued)
  {
  }

  lemma IssuedGrows(peers: seq<Peer>, peers': seq<Peer>, issued: map<Stamp, (nat, Trans)>, u: nat, st: Stamp)
    requires AlmostIssued(peers, issued, u, st) && Grown(peers, peers', u, st)
    ensures IssuedInv(peers', issued)
  {
  }

  lemma LogsGrow(adj: Graph, s: System, u: nat, t: Trans, from: nat)
    requires |s.peers| == |adj| && u < |adj| && t.src < |s.peers[u].money|
    requires Grown(s.peers, HandleTransaction(adj, s, u, t, from).peers, u, t.stamp)
    requires s.peers[u].hist == s.peers[u].histVote
    requires LogInv(s.peers, s.forwarded) && LogInv(s.peers, s.voted)
    ensures var s' := HandleTransaction(adj, s, u, t, from);
      LogInv(s'.peers, s'.forwarded) && LogInv(s'.peers, s'.voted)
  {
    var s' := HandleTransaction(adj, s, u, t, from);
    LogGrows(s.peers, s'.peers, s.forwarded, u, t.stamp);
    LogGrows(s.peers, s'.peers, s.voted, u, t.stamp);
  }

  // Node u afterwards, and that no other node changed.
  lemma HandlingGrows(adj: Graph, s: System, u: nat, t: Trans, from: nat)
    requires |s.peers| == |adj| && u < |adj| && t.src < |adj| && PeerInv(s.peers[u], |adj|)
    ensures var s' := HandleTransaction(adj, s, u, t, from);
      && Grown(s.peers, s'.peers, u, t.stamp) && PeerInv(s'.peers[u], |adj|)
      && s'.issued == s.issued && s'.sleeping == s.sleeping + multiset{(u, t)}
      && s'.net == s.net + ReceiveTransaction(s.peers[u], u, adj[u], t, from).1
  {
    TransactionAtPeer(s.peers[u], u, adj[u], t, from, |adj|);
  }

  lemma HandleTransactionKeeps(adj: Graph, s: System, u: nat, t: Trans, from: nat)
    requires WellFormed(adj) && Handling(adj, s, u, t, from)
    ensures t.src < |s.peers[u].money| && Inv(adj, HandleTransaction(adj, s, u, t, from))
  {
    assert WellIssued(|adj|, t.stamp, s.issued[t.stamp]) && PeerInv(s.peers[u], |adj|);
    var s', out := HandleTransaction(adj, s, u, t, from), ReceiveTransaction(s.peers[u], u, adj[u], t, from).1;
    HandlingGrows(adj, s, u, t, from);
    assert CoverInv(adj, s'.peers, s'.net) && NetInv(adj, s'.peers, s'.issued, s'.net) by {
      TransactionAtPeer(s.peers[u], u, adj[u], t, from, |adj|);
      CoverRestored(adj, s.peers, s.net, s'.peers, u, t, from, out);
      NetGrows(adj, s.peers, s'.peers, s.issued, s.net, u, t, out);
    }
    LogsGrow(adj, s, u, t, from);
    PeersGrow(adj, s.peers, s'.peers, s.issued, u, t.stamp);
    IssuedGrows(s.peers, s'.peers, s.issued, u, t.stamp);
    assert SleepInv(|adj|, s'.sleeping);
  }

  // --- Steps -----------------------------------------------------------------------------------

  ghost predicate Keeps(adj: Graph, s: System, e: Event)
    requires |s.peers| == |adj|
  {
    !Apply(adj, s, e).Fault? && (Apply(adj, s, e).Next? ==> Inv(adj, Apply(adj, s, e).s))
  }

  lemma FreshStamp(adj: Graph, s: System, u: nat, t: Trans)
    requires Inv(adj, s) && u < |adj| && t.src == u && Known(s, t) && t.stamp !in s.issued
    ensures Handling(adj, s.(issued := s.issued[t.stamp := (u, t)]), u, t, u)
  {
    var issued := s.issued[t.stamp := (u, t)];
    forall m | m in s.net ensures MsgInv(adj, s.peers, issued, m) {
      assert MsgInv(adj, s.peers, s.issued, m);
    }
    forall w | 0 <= w < |adj| ensures PeerInv(s.peers[w], |adj|) && OriginInv(adj, issued, w, s.peers[w].hist) {
      assert OriginInv(adj, s.issued, w, s.peers[w].hist);
    }
    ConnectedSelf(adj, u);
    assert AlmostIssued(s.peers, issued, u, t.stamp);
  }

  lemma InitiateKeeps(adj: Graph, s: System, u: nat, t: Trans)
    requires WellFormed(adj) && Inv(adj, s)
    ensures Keeps(adj, s, Initiate(u, t))
  {
    hide Handling, HandleTransaction;
    if u < |adj| && t.src == u && Known(s, t) && t.stamp !in s.issued {
      FreshStamp(adj, s, u, t);
      HandleTransactionKeeps(adj, s.(issued := s.issued[t.stamp := (u, t)]), u, t, u);
    }
  }

  lemma NetShrinks(adj: Graph, s: System, i: nat)
    requires Inv(adj, s) && i < |s.net|
    ensures NetInv(adj, s.peers, s.issued, Without(s.net, i))
  {
  }

  lemma TakenOut(adj: Graph, s: System, i: nat)
    requires Inv(adj, s) && i < |s.net| && s.net[i].body.TransMsg?
    ensures Handling(adj, s.(net := Without(s.net, i)), s.net[i].to, s.net[i].body.t, s.net[i].from)
  {
    var m, t := s.net[i], s.net[i].body.t;
    assert MsgInv(adj, s.peers, s.issued, m);
    assert NetInv(adj, s.peers, s.issued, Without(s.net, i)) by { NetShrinks(adj, s, i); }
    assert CoverExcept(adj, s.peers, Without(s.net, i), m.to, t.stamp) by {
      CoverWithout(adj, s.peers, s.net, i, t.stamp);
    }
    assert Connected(adj, s.issued[t.stamp].0, m.to) by {
      assert OriginInv(adj, s.issued, m.from, s.peers[m.from].hist);
      ConnectedStep(adj, s.issued[t.stamp].0, m.from, m.to);
    }
    assert AlmostIssued(s.peers, s.issued, m.to, t.stamp);
  }

  lemma DeliverTransactionKeeps(adj: Graph, s: System, i: nat)
    requires WellFormed(adj) && Inv(adj, s) && i < |s.net| && s.net[i].body.TransMsg?
    ensures Keeps(adj, s, Deliver(i))
  {
    var m, rest := s.net[i], s.(net := Without(s.net, i));
    TakenOut(adj, s, i);
    HandleTransactionKeeps(adj, rest, m.to, m.body.t, m.from);
    DeliverIsHandling(adj, s, i);
  }

  lemma DeliverIsHandling(adj: Graph, s: System, i: nat)
    requires |s.peers| == |adj| && i < |s.net| && s.net[i].body.TransMsg?
    requires s.net[i].to < |adj| && s.net[i].body.t.src < |s.peers[s.net[i].to].money|
    ensures Apply(adj, s, Deliver(i))
         == Next(HandleTransaction(adj, s.(net := Without(s.net, i)), s.net[i].to, s.net[i].body.t, s.net[i].from))
  {
  }

  // What is left when a vote was delivered: a smaller network and another tally.
  lemma VoteDelivered(adj: Graph, s: System, i: nat)
    requires Inv(adj, s) && i < |s.net| && s.net[i].body.VoteMsg?
    ensures Apply(adj, s, Deliver(i)).Next?
    ensures var s' := Apply(adj, s, Deliver(i)).s;
      && s' == s.(peers := s'.peers, net := Without(s.net, i)) && |s'.peers| == |adj|
      && forall w :: 0 <= w < |adj| ==> PeerInv(s'.peers[w], |adj|) && s'.peers[w].hist == s.peers[w].hist
  {
    hide HandleVote, PeerInv, OriginInv, CoverInv, IssuedInv, LogInv;
    var m := s.net[i];
    assert MsgInv(adj, s.peers, s.issued, m);
    assert PeerInv(s.peers[m.to], |adj|);
    var rest := s.(net := Without(s.net, i));
    assert Apply(adj, s, Deliver(i)) == Next(HandleVote(adj, rest, m.to, m.body.v, m.from));
    VoteHandled(adj, rest, m.to, m.body.v, m.from);
    forall w | 0 <= w < |adj| ensures PeerInv(s.peers[w], |adj|) {
    }
  }

  lemma VoteHandled(adj: Graph, s: System, u: nat, v: Vote, from: int)
    requires |s.peers| == |adj| && u < |adj| && PeerInv(s.peers[u], |adj|)
    ensures var s' := HandleVote(adj, s, u, v, from);
      && s' == s.(peers := s.peers[u := s'.peers[u]])
      && PeerInv(s'.peers[u], |adj|) && s'.peers[u].hist == s.peers[u].hist
  {
  }

  lemma DeliverVoteKeeps(adj: Graph, s: System, i: nat)
    requires Inv(adj, s) && i < |s.net| && s.net[i].body.VoteMsg?
    ensures Keeps(adj, s, Deliver(i))
  {
    VoteDelivered(adj, s, i);
    var rest := s.(net := Without(s.net, i));
    assert Inv(adj, rest) by {
      NetShrinks(adj, s, i);
      CoverWithout(adj, s.peers, s.net, i, "");
    }
    SameHistories(adj, rest, Apply(adj, s, Deliver(i)).s.peers);
  }

  // The invariant of everything but balances depends on the histories alone.
  lemma SameHistories(adj: Graph, s: System, peers': seq<Peer>)
    requires Inv(adj, s) && |peers'| == |adj|
    requires forall w :: 0 <= w < |adj| ==> PeerInv(peers'[w], |adj|) && peers'[w].hist == s.peers[w].hist
    ensures Inv(adj, s.(peers := peers'))
  {
    forall w | 0 <= w < |adj| ensures PeerInv(peers'[w], |adj|) && OriginInv(adj, s.issued, w, peers'[w].hist) {
      assert OriginInv(adj, s.issued, w, s.peers[w].hist);
    }
    forall m | m in s.net ensures MsgInv(adj, peers', s.issued, m) {
      assert MsgInv(adj, s.peers, s.issued, m);
    }
    forall u, v, st | 0 <= u < |adj| && v in adj[u] && v < |adj| && st in peers'[u].hist
      ensures Covered(peers', s.net, v, st)
    {
      assert Covered(s.peers, s.net, v, st);
    }
    assert IssuedInv(peers', s.issued);
    assert LogInv(peers', s.forwarded) by { SameLog(s.peers, peers', s.forwarded); }
    assert LogInv(peers', s.voted) by { SameLog(s.peers, peers', s.voted); }
  }

  lemma SameLog(peers: seq<Peer>, peers': seq<Peer>, log: seq<(nat, Stamp)>)
    requires LogInv(peers, log) && |peers'| == |peers|
    requires forall w :: 0 <= w < |peers| ==> peers'[w].hist == peers[w].hist
    ensures LogInv(peers', log)
  {
  }

  lemma WakeKeeps(adj: Graph, s: System, u: nat, t: Trans)
    requires Inv(adj, s)
    ensures Keeps(adj, s, Wake(u, t))
  {
    if (u, t) in s.sleeping {
      var s' := Apply(adj, s, Wake(u, t)).s;
      ConsensusBalanced(s.peers[u], t);
      SameHistories(adj, s, s'.peers);
      assert SleepInv(|adj|, s'.sleeping);
    }
  }

  lemma StepKeeps(adj: Graph, s: System, e: Event)
    requires WellFormed(adj) && Inv(adj, s)
    ensures Keeps(adj, s, e)
  {
    match e
    case Initiate(u, t) => InitiateKeeps(adj, s, u, t);
    case Deliver(i) =>
      if i < |s.net| {
        if s.net[i].body.TransMsg? {
          DeliverTransactionKeeps(adj, s, i);
        } else {
          DeliverVoteKeeps(adj, s, i);
        }
      }
    case Wake(u, t) => WakeKeeps(adj, s, u, t);
  }

  lemma {:induction false} RunKeeps(adj: Graph, s: System, es: seq<Event>)
    requires WellFormed(adj) && Inv(adj, s)
    ensures !Run(adj, s, es).Fault?
    ensures Run(adj, s, es).Next? ==> Inv(adj, Run(adj, s, es).s)
  {
    if es != [] {
      RunKeeps(adj, s, es[..|es| - 1]);
      if Run(adj, s, es[..|es| - 1]).Next? {
        StepKeeps(adj, Run(adj, s, es[..|es| - 1]).s, es[|es| - 1]);
      }
    }
  }

  lemma {:induction false} InitialTotal(money: seq<int>, n: nat)
    requires n <= |money| && forall i :: 0 <= i < |money| ==> money[i] == INIT_MONEY
    ensures SumTo(money, n) == StartingMoney(n)
  {
    if n > 0 {
      InitialTotal(money, n - 1);
    }
  }

  lemma InitHolds(adj: Graph)
    ensures Inv(adj, Init(adj))
  {
    InitialTotal(InitPeer(|adj|).money, |adj|);
    assert PeerInv(InitPeer(|adj|), |adj|);
  }

  lemma ReachableInv(adj: Graph, s: System)
    requires WellFormed(adj) && Reachable(adj, s)
    ensures Inv(adj, s)
  {
    var es :| Run(adj, Init(adj), es) == Next(s);
    InitHolds(adj);
    RunKeeps(adj, Init(adj), es);
  }

  // --- Theorems ------------------------------------------------------------------------------

  lemma {:induction false} SpreadAlong(adj: Graph, s: System, st: Stamp, p: seq<nat>)
    requires |s.peers| == |adj| && WellFormed(adj) && CoverInv(adj, s.peers, s.net) && IsPath(adj, p)
    requires forall m :: m in s.net && m.body.TransMsg? ==> m.body.t.stamp != st
    requires st in s.peers[p[0]].hist
    ensures st in s.peers[p[|p| - 1]].hist
  {
    if |p| > 1 {
      var n := |p| - 1;
      SpreadAlong(adj, s, st, p[..n]);
      assert p[n] in adj[p[n - 1]];
      assert Covered(s.peers, s.net, p[n], st);
    }
  }

  // When no copy of a transaction is under way, the nodes that have it are exactly
  // those the originator is connected to, although nobody sends it back to the node
  // it came from.
  lemma FloodCoverage(adj: Graph, s: System, st: Stamp, u: nat)
    requires WellFormed(adj) && Reachable(adj, s) && u < |adj| && st in s.issued
    requires forall m :: m in s.net && m.body.TransMsg? ==> m.body.t.stamp != st
    ensures |s.peers| == |adj|
    ensures st in s.peers[u].hist <==> Connected(adj, s.issued[st].0, u)
  {
    ReachableInv(adj, s);
    if Connected(adj, s.issued[st].0, u) {
      var p :| IsPath(adj, p) && p[0] == s.issued[st].0 && p[|p| - 1] == u;
      SpreadAlong(adj, s, st, p);
    } else {
      assert OriginInv(adj, s.issued, u, s.peers[u].hist);
    }
  }

  // Each node forwards a transaction at most once, and votes at most once on it.
  lemma AtMostOnce(adj: Graph, s: System)
    requires WellFormed(adj) && Reachable(adj, s)
    ensures forall i, j :: 0 <= i < j < |s.forwarded| ==> s.forwarded[i] != s.forwarded[j]
    ensures forall i, j :: 0 <= i < j < |s.voted| ==> s.voted[i] != s.voted[j]
    ensures forall u: nat, st :: (u, st) in s.forwarded <==> (u, st) in s.voted
  {
    ReachableInv(adj, s);
  }

  // A vote is only ever sent by the node that cast it: votes reach neighbours and
  // are not relayed.
  lemma VotesGoOneHop(adj: Graph, s: System, m: Msg)
    requires WellFormed(adj) && Reachable(adj, s) && m in s.net && m.body.VoteMsg?
    ensures m.body.v.voter == m.from && m.from < |adj| && m.to in adj[m.from]
  {
    ReachableInv(adj, s);
    assert MsgInv(adj, s.peers, s.issued, m);
  }

  // Between handlers every open tally is for a transaction the node has forwarded and
  // voted on.
  lemma TalliesAreKnown(adj: Graph, s: System, u: nat)
    requires WellFormed(adj) && Reachable(adj, s) && u < |adj|
    ensures |s.peers| == |adj| && s.peers[u].allVotes.Keys <= s.peers[u].hist * s.peers[u].histVote
  {
    ReachableInv(adj, s);
    assert PeerInv(s.peers[u], |adj|);
  }

  // At every node the balances are the initial ones plus the ledger's transfers, and
  // the money of all users together stays what it was.
  lemma BalancesMatchLedger(adj: Graph, s: System, u: nat, user: nat)
    requires WellFormed(adj) && Reachable(adj, s) && u < |adj| && user < |adj|
    ensures |s.peers| == |adj| && |s.peers[u].money| == |adj|
    ensures Total(s.peers[u].money) == StartingMoney(|adj|)
    ensures s.peers[u].money[user] == INIT_MONEY + Replay(s.peers[u].ledger, user)
  {
    ReachableInv(adj, s);
    assert PeerInv(s.peers[u], |adj|);
  }
}
