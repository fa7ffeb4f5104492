// Every vote that was cast arrives, or is on its way.
module LedgerArrival {
  import opened Common
  import opened LedgerPeer
  import D = LedgerDecisions
  import opened LedgerNetwork
  import opened LedgerHistory
  import opened LedgerFlood

  // The votes with one answer that are owed to node u: one from each vote cast, for each time
  // its voter lists u as a neighbour.
  function Owed(adj: Graph, cast: seq<Cast>, u: nat, st: Stamp, yes: bool): nat {
    if cast == [] then 0
    else
      var v := cast[|cast| - 1].vote;
      Owed(adj, cast[..|cast| - 1], u, st, yes)
      + if v.stamp == st && v.yes == yes && v.voter < |adj| then Occurrences(adj[v.voter], u) else 0
  }

  lemma {:induction false} CountAnswers(u: nat, st: Stamp, yes: bool, me: nat, adj: seq<nat>, v: Vote)
    ensures Count(AnswersTo(u, st, yes), Broadcast(me, adj, -1, VoteMsg(v)))
         == if v.stamp == st && v.yes == yes then Occurrences(adj, u) else 0
  {
    if adj != [] {
      var n := |adj| - 1;
      CountAnswers(u, st, yes, me, adj[..n], v);
      var out := Broadcast(me, adj[..n], -1, VoteMsg(v));
      var last := Msg(me, adj[n], VoteMsg(v));
      assert (out + [last])[..|out|] == out;
    }
  }

  // What one handled transaction adds to the votes under way it adds to those owed.
  lemma HandlingArrival(adj: Graph, s: System, w: nat, t: Trans, from: int, u: nat, st: Stamp, yes: bool)
    requires |s.peers| == |adj| && w < |adj| && PeerInv(s.peers[w], |adj|) && t.src < |adj|
    ensures var s', k := HandleTransaction(adj, s, w, t, from), AnswersTo(u, st, yes);
      Count(k, s'.net) - Owed(adj, s'.cast, u, st, yes) == Count(k, s.net) - Owed(adj, s.cast, u, st, yes)
  {
    var k, s', p := AnswersTo(u, st, yes), HandleTransaction(adj, s, w, t, from), s.peers[w];
    var (q, out) := BroadcastTransaction(p, w, adj[w], t, from);
    var v := MyVote(q, w, t);
    var (r, out') := BroadcastVote(q, w, adj[w], v, -1);
    assert s'.net == s.net + (out + out');
    CountConcat(k, s.net, out + out');
    CountConcat(k, out, out');
    CountNone(k, out);
    CountAnswers(u, st, yes, w, adj[w], v);
    assert v == MyVote(p, w, t);
    assert t.stamp !in p.histVote ==> s'.cast[..|s.cast|] == s.cast;
  }

  ghost predicate Arrives(adj: Graph, es: seq<Event>, s: System, u: nat, st: Stamp, yes: bool)
    requires Run(adj, Init(adj), es) == Next(s)
  {
    D.Count(Local(adj, es, u), st, yes) + Count(AnswersTo(u, st, yes), s.net) == Owed(adj, s.cast, u, st, yes)
  }

  lemma LocalNext(adj: Graph, es: seq<Event>, e: Event, u: nat, st: Stamp, yes: bool)
    requires Run(adj, Init(adj), es).Next? && Run(adj, Init(adj), es + [e]).Next?
    ensures D.Count(Local(adj, es + [e], u), st, yes) == D.Count(Local(adj, es, u), st, yes)
         + D.Count(At(Run(adj, Init(adj), es).s, e, u), st, yes)
  {
    assert (es + [e])[..|es|] == es;
    var xs, x := Local(adj, es, u), At(Run(adj, Init(adj), es).s, e, u);
    if x == [] {
      assert xs + x == xs;
    } else {
      assert x == [x[0]] && (xs + x)[..|xs|] == xs && x[..0] == [];
    }
  }

  // How one event changes votes delivered, under way and owed.
  lemma ArrivalStep(adj: Graph, s: System, e: Event, u: nat, st: Stamp, yes: bool)
    requires WellFormed(adj) && Inv(adj, s) && Apply(adj, s, e).Next? && u < |adj|
    ensures var t, k := Apply(adj, s, e).s, AnswersTo(u, st, yes);
      D.Count(At(s, e, u), st, yes) + Count(k, t.net) - Owed(adj, t.cast, u, st, yes)
      == Count(k, s.net) - Owed(adj, s.cast, u, st, yes)
  {
    var k := AnswersTo(u, st, yes);
    match e
    case Initiate(w, t) =>
      assert PeerInv(s.peers[w], |adj|);
      NoBallot(At(s, e, u), st, yes);
      HandlingArrival(adj, s.(issued := s.issued[t.stamp := (w, t)]), w, t, w, u, st, yes);
    case Deliver(i) =>
      var m, rest := s.net[i], s.(net := Without(s.net, i));
      assert MsgInv(adj, s.peers, s.issued, m) && PeerInv(s.peers[m.to], |adj|);
      CountWithout(k, s.net, i);
      if m.body.TransMsg? {
        assert WellIssued(|adj|, m.body.t.stamp, s.issued[m.body.t.stamp]);
        NoBallot(At(s, e, u), st, yes);
        HandlingArrival(adj, rest, m.to, m.body.t, m.from, u, st, yes);
        DeliverIsHandling(adj, s, i);
      } else {
        VoteDelivered(adj, s, i);
        OneBallot(At(s, e, u), m, u, st, yes);
      }
    case Wake(w, t) => NoBallot(At(s, e, u), st, yes);
  }

  lemma NoBallot(xs: seq<D.PeerEvent>, st: Stamp, yes: bool)
    requires |xs| <= 1 && (xs != [] ==> !xs[0].Ballot?)
    ensures D.Count(xs, st, yes) == 0
  {
    assert xs != [] ==> xs[..0] == [];
  }

  lemma OneBallot(xs: seq<D.PeerEvent>, m: Msg, u: nat, st: Stamp, yes: bool)
    requires m.body.VoteMsg? && xs == if m.to == u then [Delivered(m)] else []
    ensures D.Count(xs, st, yes) == if Matches(AnswersTo(u, st, yes), m) then 1 else 0
  {
    assert xs != [] ==> xs[..0] == [];
  }

  lemma NothingOwed(adj: Graph, u: nat, st: Stamp, yes: bool)
    ensures Run(adj, Init(adj), []) == Next(Init(adj)) && Arrives(adj, [], Init(adj), u, st, yes)
  {
  }

  // In every run, for every node and both answers: the votes delivered to it and those on
  // their way to it are exactly the votes its neighbours cast.
  lemma {:induction false} VotesArrive(adj: Graph, es: seq<Event>, u: nat, st: Stamp, yes: bool)
    requires WellFormed(adj) && u < |adj| && Run(adj, Init(adj), es).Next?
    ensures Arrives(adj, es, Run(adj, Init(adj), es).s, u, st, yes)
  {
    hide Apply, At, Inv, Local, Count, D.Count, Owed;
    if es == [] {
      NothingOwed(adj, u, st, yes);
    } else {
      var n := |es| - 1;
      var before, e := es[..n], es[n];
      VotesArrive(adj, before, u, st, yes);
      InitHolds(adj);
      RunKeeps(adj, Init(adj), before);
      assert es == before + [e];
      LocalNext(adj, before, e, u, st, yes);
      ArrivalStep(adj, Run(adj, Init(adj), before).s, e, u, st, yes);
    }
  }

  // --- Who casts -----------------------------------------------------------------------------------

  // The record of votes cast goes with the record of who voted.
  ghost predicate Aligned(s: System) {
    && |s.cast| == |s.voted|
    && forall i :: 0 <= i < |s.cast| ==> s.voted[i] == (s.cast[i].vote.voter, s.cast[i].vote.stamp)
  }

  lemma AlignedHandling(adj: Graph, s: System, u: nat, t: Trans, from: int)
    requires |s.peers| == |adj| && u < |adj| && t.src < |s.peers[u].money| && Aligned(s)
    ensures Aligned(HandleTransaction(adj, s, u, t, from))
  {
    hide ReceiveTransaction;
  }

  lemma AlignedStep(adj: Graph, s: System, e: Event)
    requires WellFormed(adj) && Inv(adj, s) && Aligned(s) && Apply(adj, s, e).Next?
    ensures Aligned(Apply(adj, s, e).s)
  {
    match e
    case Initiate(u, t) => AlignedHandling(adj, s.(issued := s.issued[t.stamp := (u, t)]), u, t, u);
    case Deliver(i) =>
      var m := s.net[i];
      assert MsgInv(adj, s.peers, s.issued, m) && PeerInv(s.peers[m.to], |adj|);
      if m.body.TransMsg? {
        assert WellIssued(|adj|, m.body.t.stamp, s.issued[m.body.t.stamp]);
        AlignedHandling(adj, s.(net := Without(s.net, i)), m.to, m.body.t, m.from);
        DeliverIsHandling(adj, s, i);
      } else {
        VoteDelivered(adj, s, i);
      }
    case Wake(u, t) =>
  }

  lemma {:induction false} AlignedRun(adj: Graph, es: seq<Event>)
    requires WellFormed(adj) && Run(adj, Init(adj), es).Next?
    ensures Aligned(Run(adj, Init(adj), es).s)
  {
    if es != [] {
      hide Apply;
      AlignedRun(adj, es[..|es| - 1]);
      InitHolds(adj);
      RunKeeps(adj, Init(adj), es[..|es| - 1]);
      AlignedStep(adj, Run(adj, Init(adj), es[..|es| - 1]).s, es[|es| - 1]);
    }
  }

  lemma AlignedReachable(adj: Graph, s: System)
    requires WellFormed(adj) && Reachable(adj, s)
    ensures Aligned(s)
  {
    var es :| Run(adj, Init(adj), es) == Next(s);
    AlignedRun(adj, es);
  }

  // A node has cast a vote on a transaction if and only if it has the transaction, and
  // then exactly one.
  lemma CastsOnce(adj: Graph, s: System, u: nat, st: Stamp)
    requires WellFormed(adj) && Reachable(adj, s) && u < |adj|
    ensures |s.peers| == |adj|
    ensures st in s.peers[u].hist <==> exists c :: c in s.cast && c.vote.voter == u && c.vote.stamp == st
    ensures forall i, j :: 0 <= i < j < |s.cast| ==>
      s.cast[i].vote.voter != s.cast[j].vote.voter || s.cast[i].vote.stamp != s.cast[j].vote.stamp
  {
    hide PeersInv, NetInv, CoverInv, IssuedInv, Run;
    AlignedReachable(adj, s);
    ReachableInv(adj, s);
    if st in s.peers[u].hist {
      assert (u, st) in s.voted;
      var i :| 0 <= i < |s.voted| && s.voted[i] == (u, st);
      assert s.cast[i] in s.cast;
    }
    if c :| c in s.cast && c.vote.voter == u && c.vote.stamp == st {
      var i :| 0 <= i < |s.cast| && s.cast[i] == c;
      assert s.voted[i] in s.voted;
    }
  }
}
