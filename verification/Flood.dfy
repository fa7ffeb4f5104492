// Counting messages: a flood ends, and no vote is counted twice.
module LedgerFlood {
  import opened Common
  import opened LedgerPeer
  import opened LedgerNetwork

  // The copies of a transaction, the votes to one node on it, or those with one answer.
  datatype Kind = Copies(st: Stamp) | VotesTo(u: nat, st: Stamp) | AnswersTo(u: nat, st: Stamp, yes: bool)

  predicate Matches(k: Kind, m: Msg) {
    match k
    case Copies(st) => m.body.TransMsg? && m.body.t.stamp == st
    case VotesTo(u, st) => m.to == u && m.body.VoteMsg? && m.body.v.stamp == st
    case AnswersTo(u, st, yes) => m.to == u && m.body.VoteMsg? && m.body.v.stamp == st && m.body.v.yes == yes
  }

  function Count(k: Kind, net: seq<Msg>): nat {
    if net == [] then 0 else Count(k, net[..|net| - 1]) + if Matches(k, net[|net| - 1]) then 1 else 0
  }

  lemma {:induction false} CountConcat(k: Kind, a: seq<Msg>, b: seq<Msg>)
    ensures Count(k, a + b) == Count(k, a) + Count(k, b)
  {
    if b == [] {
      assert a + b == a;
    } else {
      assert (a + b)[..|a + b| - 1] == a + b[..|b| - 1];
      CountConcat(k, a, b[..|b| - 1]);
    }
  }

  lemma CountWithout(k: Kind, net: seq<Msg>, i: nat)
    requires i < |net|
    ensures Count(k, Without(net, i)) == Count(k, net) - if Matches(k, net[i]) then 1 else 0
  {
    assert net == net[..i] + ([net[i]] + net[i + 1..]);
    CountConcat(k, net[..i], [net[i]] + net[i + 1..]);
    CountConcat(k, [net[i]], net[i + 1..]);
    CountConcat(k, net[..i], net[i + 1..]);
    assert Count(k, [net[i]]) == if Matches(k, net[i]) then 1 else 0 by { assert [net[i]][..0] == []; }
  }

  lemma {:induction false} CountNone(k: Kind, net: seq<Msg>)
    requires forall m :: m in net ==> !Matches(k, m)
    ensures Count(k, net) == 0
  {
    if net != [] {
      CountNone(k, net[..|net| - 1]);
    }
  }

  lemma {:induction false} CountAtMost(k: Kind, net: seq<Msg>)
    ensures Count(k, net) <= |net|
  {
    if net != [] {
      CountAtMost(k, net[..|net| - 1]);
    }
  }

  lemma {:induction false} CountVotes(u: nat, st: Stamp, me: nat, adj: seq<nat>, v: Vote)
    requires v.stamp == st
    ensures Count(VotesTo(u, st), Broadcast(me, adj, -1, VoteMsg(v))) == Occurrences(adj, u)
  {
    if adj != [] {
      var n := |adj| - 1;
      CountVotes(u, st, me, adj[..n], v);
      var out := Broadcast(me, adj[..n], -1, VoteMsg(v));
      var last := Msg(me, adj[n], VoteMsg(v));
      assert (out + [last])[..|out|] == out;
    }
  }

  // --- The flood ends -----------------------------------------------------------------------

  // The neighbours of the nodes below n that do not have st yet.
  function Unsent(adj: Graph, peers: seq<Peer>, st: Stamp, n: nat): nat
    requires |peers| == |adj| && n <= |adj|
  {
    if n == 0 then 0
    else Unsent(adj, peers, st, n - 1) + if st in peers[n - 1].hist then 0 else |adj[n - 1]|
  }

  function Measure(adj: Graph, s: System, st: Stamp): nat
    requires |s.peers| == |adj|
  {
    Count(Copies(st), s.net) + Unsent(adj, s.peers, st, |adj|)
  }

  lemma {:induction false} UnsentGrown(adj: Graph, peers: seq<Peer>, peers': seq<Peer>, u: nat, x: Stamp,
                                       st: Stamp, n: nat)
    requires |peers| == |adj| && Grown(peers, peers', u, x) && n <= |adj|
    ensures Unsent(adj, peers', st, n)
         == Unsent(adj, peers, st, n) - if u < n && st == x && st !in peers[u].hist then |adj[u]| else 0
  {
    if n > 0 {
      UnsentGrown(adj, peers, peers', u, x, st, n - 1);
    }
  }

  lemma {:induction false} UnsentSame(adj: Graph, peers: seq<Peer>, peers': seq<Peer>, st: Stamp, n: nat)
    requires |peers| == |peers'| == |adj| && n <= |adj|
    requires forall w :: 0 <= w < |adj| ==> peers'[w].hist == peers[w].hist
    ensures Unsent(adj, peers', st, n) == Unsent(adj, peers, st, n)
  {
    if n > 0 {
      UnsentSame(adj, peers, peers', st, n - 1);
    }
  }

  // Handling a transaction does not increase the measure.
  lemma HandlingMeasure(adj: Graph, s: System, u: nat, t: Trans, from: int, st: Stamp)
    requires |s.peers| == |adj| && u < |adj| && PeerInv(s.peers[u], |adj|) && t.src < |adj|
    ensures Measure(adj, HandleTransaction(adj, s, u, t, from), st) <= Measure(adj, s, st)
    ensures t.stamp != st ==> Measure(adj, HandleTransaction(adj, s, u, t, from), st) == Measure(adj, s, st)
  {
    var s' := HandleTransaction(adj, s, u, t, from);
    var (q, out) := BroadcastTransaction(s.peers[u], u, adj[u], t, from);
    var (r, out') := BroadcastVote(q, u, adj[u], MyVote(q, u, t), -1);
    assert s'.net == s.net + (out + out');
    CountConcat(Copies(st), s.net, out + out');
    CountConcat(Copies(st), out, out');
    CountNone(Copies(st), out');
    if t.stamp == st { CountAtMost(Copies(st), out); } else { CountNone(Copies(st), out); }
    assert Grown(s.peers, s'.peers, u, t.stamp);
    UnsentGrown(adj, s.peers, s'.peers, u, t.stamp, st, |adj|);
  }

  predicate DeliversCopy(s: System, e: Event, st: Stamp) {
    e.Deliver? && e.i < |s.net| && Matches(Copies(st), s.net[e.i])
  }

  // Each delivery of a copy lowers the measure; nothing else raises it.
  lemma MeasureStep(adj: Graph, s: System, e: Event, st: Stamp)
    requires WellFormed(adj) && Inv(adj, s) && Apply(adj, s, e).Next?
    ensures Measure(adj, Apply(adj, s, e).s, st) + (if DeliversCopy(s, e, st) then 1 else 0) <= Measure(adj, s, st)
  {
    match e
    case Initiate(u, t) => StartStep(adj, s, u, t, st);
    case Deliver(i) =>
      CountWithout(Copies(st), s.net, i);
      if s.net[i].body.TransMsg? {
        TransactionStep(adj, s, i, st);
      } else {
        VoteStep(adj, s, i, st);
      }
    case Wake(u, t) => WakeStep(adj, s, u, t, st);
  }

  lemma WakeStep(adj: Graph, s: System, u: nat, t: Trans, st: Stamp)
    requires Inv(adj, s) && Apply(adj, s, Wake(u, t)).Next?
    ensures Measure(adj, Apply(adj, s, Wake(u, t)).s, st) == Measure(adj, s, st)
  {
    UnsentSame(adj, s.peers, Apply(adj, s, Wake(u, t)).s.peers, st, |adj|);
  }

  lemma StartStep(adj: Graph, s: System, u: nat, t: Trans, st: Stamp)
    requires Inv(adj, s) && Apply(adj, s, Initiate(u, t)).Next?
    ensures Measure(adj, Apply(adj, s, Initiate(u, t)).s, st) <= Measure(adj, s, st)
  {
    assert PeerInv(s.peers[u], |adj|);
    HandlingMeasure(adj, s.(issued := s.issued[t.stamp := (u, t)]), u, t, u, st);
  }

  lemma VoteStep(adj: Graph, s: System, i: nat, st: Stamp)
    requires Inv(adj, s) && i < |s.net| && s.net[i].body.VoteMsg?
    ensures Apply(adj, s, Deliver(i)).Next?
    ensures Measure(adj, Apply(adj, s, Deliver(i)).s, st) == Measure(adj, s, st)
  {
    VoteDelivered(adj, s, i);
    CountWithout(Copies(st), s.net, i);
    UnsentSame(adj, s.peers, Apply(adj, s, Deliver(i)).s.peers, st, |adj|);
  }

  lemma TransactionStep(adj: Graph, s: System, i: nat, st: Stamp)
    requires WellFormed(adj) && Inv(adj, s) && i < |s.net| && s.net[i].body.TransMsg?
    ensures Apply(adj, s, Deliver(i)).Next?
    ensures Measure(adj, Apply(adj, s, Deliver(i)).s, st) <= Measure(adj, s.(net := Without(s.net, i)), st)
  {
    var m := s.net[i];
    assert MsgInv(adj, s.peers, s.issued, m) && PeerInv(s.peers[m.to], |adj|);
    assert WellIssued(|adj|, m.body.t.stamp, s.issued[m.body.t.stamp]);
    HandlingMeasure(adj, s.(net := Without(s.net, i)), m.to, m.body.t, m.from, st);
    DeliverIsHandling(adj, s, i);
  }

  // How many copies of st are delivered in a run from s.
  function Deliveries(adj: Graph, s: System, es: seq<Event>, st: Stamp): nat
    requires |s.peers| == |adj| && Run(adj, s, es).Next?
  {
    if es == [] then 0
    else
      var before := es[..|es| - 1];
      Deliveries(adj, s, before, st) + if DeliversCopy(Run(adj, s, before).s, es[|es| - 1], st) then 1 else 0
  }

  // The edges out of the nodes below n.
  function Edges(adj: Graph, n: nat): nat
    requires n <= |adj|
  {
    if n == 0 then 0 else Edges(adj, n - 1) + |adj[n - 1]|
  }

  lemma {:induction false} NobodyHasIt(adj: Graph, peers: seq<Peer>, st: Stamp, n: nat)
    requires |peers| == |adj| && n <= |adj| && forall w :: 0 <= w < |adj| ==> peers[w].hist == {}
    ensures Unsent(adj, peers, st, n) == Edges(adj, n)
  {
    if n > 0 {
      NobodyHasIt(adj, peers, st, n - 1);
    }
  }

  // A flood is finite: in every run the copies of a transaction that are delivered, those
  // still under way and the edges out of nodes that do not have it yet are together at
  // most the edges of the graph.
  lemma {:induction false} FloodTerminates(adj: Graph, es: seq<Event>, st: Stamp)
    requires WellFormed(adj) && Run(adj, Init(adj), es).Next?
    ensures var s := Run(adj, Init(adj), es).s;
      Deliveries(adj, Init(adj), es, st) + Count(Copies(st), s.net) + Unsent(adj, s.peers, st, |adj|)
      <= Edges(adj, |adj|)
  {
    InitHolds(adj);
    if es == [] {
      NobodyHasIt(adj, Init(adj).peers, st, |adj|);
    } else {
      var before := es[..|es| - 1];
      FloodTerminates(adj, before, st);
      RunKeeps(adj, Init(adj), before);
      MeasureStep(adj, Run(adj, Init(adj), before).s, es[|es| - 1], st);
    }
  }

  // --- Votes ------------------------------------------------------------------------------------

  // How often the nodes below n that voted on st list u as a neighbour.
  function Voters(adj: Graph, peers: seq<Peer>, u: nat, st: Stamp, n: nat): nat
    requires |peers| == |adj| && n <= |adj|
  {
    if n == 0 then 0
    else Voters(adj, peers, u, st, n - 1) + if st in peers[n - 1].hist then Occurrences(adj[n - 1], u) else 0
  }

  lemma {:induction false} VotersGrown(adj: Graph, peers: seq<Peer>, peers': seq<Peer>, w: nat, x: Stamp,
                                       u: nat, st: Stamp, n: nat)
    requires |peers| == |adj| && Grown(peers, peers', w, x) && n <= |adj|
    ensures Voters(adj, peers', u, st, n) == Voters(adj, peers, u, st, n)
         + if w < n && st == x && st !in peers[w].hist then Occurrences(adj[w], u) else 0
  {
    if n > 0 {
      VotersGrown(adj, peers, peers', w, x, u, st, n - 1);
    }
  }

  lemma {:induction false} VotersSame(adj: Graph, peers: seq<Peer>, peers': seq<Peer>, u: nat, st: Stamp, n: nat)
    requires |peers| == |peers'| == |adj| && n <= |adj|
    requires forall w :: 0 <= w < |adj| ==> peers'[w].hist == peers[w].hist
    ensures Voters(adj, peers', u, st, n) == Voters(adj, peers, u, st, n)
  {
    if n > 0 {
      VotersSame(adj, peers, peers', u, st, n - 1);
    }
  }

  // Votes counted at u and votes on their way to u come from different ballots.
  ghost predicate TallyInv(adj: Graph, s: System, u: nat, st: Stamp)
    requires |s.peers| == |adj| && u < |adj|
  {
    Tally(s.peers[u], st) + Count(VotesTo(u, st), s.net) <= Voters(adj, s.peers, u, st, |adj|)
  }

  lemma HandlingTally(adj: Graph, s: System, w: nat, t: Trans, from: int, u: nat, st: Stamp)
    requires |s.peers| == |adj| && w < |adj| && u < |adj| && PeerInv(s.peers[w], |adj|) && t.src < |adj|
    requires TallyInv(adj, s, u, st)
    ensures TallyInv(adj, HandleTransaction(adj, s, w, t, from), u, st)
  {
    var k, s' := VotesTo(u, st), HandleTransaction(adj, s, w, t, from);
    var (q, out) := BroadcastTransaction(s.peers[w], w, adj[w], t, from);
    var v := MyVote(q, w, t);
    var (r, out') := BroadcastVote(q, w, adj[w], v, -1);
    assert s'.net == s.net + (out + out');
    CountConcat(k, s.net, out + out');
    CountConcat(k, out, out');
    CountNone(k, out);
    if t.stamp == st { CountVotes(u, st, w, adj[w], v); } else { CountNone(k, out'); }
    assert Grown(s.peers, s'.peers, w, t.stamp);
    VotersGrown(adj, s.peers, s'.peers, w, t.stamp, u, st, |adj|);
  }

  lemma VoteTally(adj: Graph, s: System, i: nat, u: nat, st: Stamp)
    requires Inv(adj, s) && i < |s.net| && s.net[i].body.VoteMsg? && u < |adj| && TallyInv(adj, s, u, st)
    ensures Apply(adj, s, Deliver(i)).Next? && TallyInv(adj, Apply(adj, s, Deliver(i)).s, u, st)
  {
    var m := s.net[i];
    VoteDelivered(adj, s, i);
    CountWithout(VotesTo(u, st), s.net, i);
    var s' := Apply(adj, s, Deliver(i)).s;
    VotersSame(adj, s.peers, s'.peers, u, st, |adj|);
    assert MsgInv(adj, s.peers, s.issued, m) && PeerInv(s.peers[m.to], |adj|);
    TallyOfVote(s.peers[m.to], m.to, adj[m.to], m.body.v, m.from, st);
    assert s'.peers == s.peers[m.to := ReceiveVote(s.peers[m.to], m.to, adj[m.to], m.body.v, m.from).0];
  }

  lemma TallyOfVote(p: Peer, u: nat, adj: seq<nat>, v: Vote, from: int, st: Stamp)
    ensures Tally(ReceiveVote(p, u, adj, v, from).0, st) <= Tally(p, st) + if v.stamp == st then 1 else 0
  {
  }

  lemma TallyStep(adj: Graph, s: System, e: Event, u: nat, st: Stamp)
    requires WellFormed(adj) && Inv(adj, s) && Apply(adj, s, e).Next? && u < |adj| && TallyInv(adj, s, u, st)
    ensures TallyInv(adj, Apply(adj, s, e).s, u, st)
  {
    match e
    case Initiate(w, t) =>
      assert PeerInv(s.peers[w], |adj|);
      HandlingTally(adj, s.(issued := s.issued[t.stamp := (w, t)]), w, t, w, u, st);
    case Deliver(i) =>
      if s.net[i].body.VoteMsg? {
        VoteTally(adj, s, i, u, st);
      } else {
        var m := s.net[i];
        assert MsgInv(adj, s.peers, s.issued, m) && PeerInv(s.peers[m.to], |adj|);
        assert WellIssued(|adj|, m.body.t.stamp, s.issued[m.body.t.stamp]);
        CountWithout(VotesTo(u, st), s.net, i);
        HandlingTally(adj, s.(net := Without(s.net, i)), m.to, m.body.t, m.from, u, st);
        DeliverIsHandling(adj, s, i);
      }
    case Wake(w, t) =>
      VotersSame(adj, s.peers, Apply(adj, s, e).s.peers, u, st, |adj|);
  }

  lemma {:induction false} TallyRun(adj: Graph, es: seq<Event>, u: nat, st: Stamp)
    requires WellFormed(adj) && u < |adj| && Run(adj, Init(adj), es).Next?
    ensures TallyInv(adj, Run(adj, Init(adj), es).s, u, st)
  {
    InitHolds(adj);
    if es != [] {
      TallyRun(adj, es[..|es| - 1], u, st);
      RunKeeps(adj, Init(adj), es[..|es| - 1]);
      TallyStep(adj, Run(adj, Init(adj), es[..|es| - 1]).s, es[|es| - 1], u, st);
    }
  }

  // A node counts each neighbour's vote at most once, even after late copies of the
  // transaction reset its tally.
  lemma NoVoteCountedTwice(adj: Graph, s: System, u: nat, st: Stamp)
    requires WellFormed(adj) && Reachable(adj, s) && u < |adj|
    ensures |s.peers| == |adj| && Tally(s.peers[u], st) <= Voters(adj, s.peers, u, st, |adj|)
  {
    ReachableInv(adj, s);
    var es :| Run(adj, Init(adj), es) == Next(s);
    TallyRun(adj, es, u, st);
  }
}
