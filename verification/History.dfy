// The history of each node in a run of the ledger network.
module LedgerHistory {
  import opened Common
  import opened LedgerPeer
  import opened LedgerDecisions
  import opened LedgerNetwork

  // What an event is to node u.
  function At(s: System, e: Event, u: nat): seq<PeerEvent> {
    match e
    case Initiate(w, t) => if w == u then [Copy(t, u)] else []
    case Deliver(i) =>
      if i < |s.net| && s.net[i].to == u then [Delivered(s.net[i])] else []
    case Wake(w, t) => if w == u then [Decide(t)] else []
  }

  function Delivered(m: Msg): PeerEvent {
    match m.body
    case TransMsg(t) => Copy(t, m.from)
    case VoteMsg(v) => Ballot(v, m.from)
  }

  // Everything that happened at node u.
  function Local(adj: Graph, es: seq<Event>, u: nat): seq<PeerEvent>
    requires Run(adj, Init(adj), es).Next?
  {
    if es == [] then []
    else
      var before := es[..|es| - 1];
      Local(adj, before, u) + At(Run(adj, Init(adj), before).s, es[|es| - 1], u)
  }

  lemma LocalStep(adj: Graph, s: System, e: Event, u: nat)
    requires |s.peers| == |adj| && u < |adj| && Apply(adj, s, e).Next?
    ensures var p, p', xs := s.peers[u], Apply(adj, s, e).s.peers[u], At(s, e, u);
      if xs == [] then p' == p
      else |xs| == 1 && Valid(p, xs[0]) && p' == PeerStep(p, u, adj[u], xs[0])
  {
  }

  // What a node is after a run depends on what happened at it and on nothing else.
  lemma {:induction false} LocalRun(adj: Graph, es: seq<Event>, u: nat)
    requires u < |adj| && Run(adj, Init(adj), es).Next?
    ensures AllValid(InitPeer(|adj|), Local(adj, es, u))
    ensures Run(adj, Init(adj), es).s.peers[u] == PeerRun(InitPeer(|adj|), u, adj[u], Local(adj, es, u))
  {
    if es != [] {
      var before, e := es[..|es| - 1], es[|es| - 1];
      LocalRun(adj, before, u);
      hide PeerStep, Apply, At;
      var xs, x := Local(adj, before, u), At(Run(adj, Init(adj), before).s, e, u);
      LocalStep(adj, Run(adj, Init(adj), before).s, e, u);
      if x == [] {
        assert xs + x == xs;
      } else {
        assert x == [x[0]] && (xs + x)[..|xs + x| - 1] == xs;
      }
    }
  }

  // The ledger of every node in every run: exactly the transactions of those of its decisions
  // that found a majority among the votes that reached it since its last copy.
  lemma LedgerFromHistory(adj: Graph, es: seq<Event>, u: nat, st: Stamp)
    requires u < |adj| && Run(adj, Init(adj), es).Next?
    ensures var ledger, local := Run(adj, Init(adj), es).s.peers[u].ledger, Local(adj, es, u);
      && ledger == Committed(InitPeer(|adj|), local)
      && Commits(ledger, st) == Wins(InitPeer(|adj|), local, st)
  {
    var p, local := InitPeer(|adj|), Local(adj, es, u);
    LocalRun(adj, es, u);
    LedgerLaw(p, u, adj[u], local);
    assert p.ledger + Committed(p, local) == Committed(p, local);
    WinsCommitted(p, local, st);
  }

  // Whether the decision that node u can take now commits.
  ghost predicate CommitsNow(adj: Graph, s: System, u: nat, t: Trans) {
    && |s.peers| == |adj| && u < |adj| && Apply(adj, s, Wake(u, t)).Next?
    && Apply(adj, s, Wake(u, t)).s.peers[u].ledger == s.peers[u].ledger + [t]
  }

  // It does if and only if the votes that reached the node since its last copy have a majority
  // in favour.
  lemma CommitsIff(adj: Graph, es: seq<Event>, s: System, u: nat, t: Trans)
    requires Run(adj, Init(adj), es) == Next(s) && u < |adj| && Apply(adj, s, Wake(u, t)).Next?
    ensures CommitsNow(adj, s, u, t) <==> Passes(InitPeer(|adj|), Local(adj, es, u), t.stamp)
  {
    LocalRun(adj, es, u);
    TallyLaw(InitPeer(|adj|), u, adj[u], Local(adj, es, u), t.stamp);
  }
}
