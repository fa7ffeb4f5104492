// One node of the ledger network: what it does with transactions and votes.
module LedgerPeer {

  type Stamp = string

  const INIT_MONEY: int := 100

  datatype Trans = Trans(stamp: Stamp, src: nat, dest: nat, money: int)

  datatype Vote = Vote(stamp: Stamp, voter: nat, yes: bool, src: nat, dest: nat, money: int)

  datatype Body = TransMsg(t: Trans) | VoteMsg(v: Vote)

  datatype Msg = Msg(from: nat, to: nat, body: Body)

  // The maps keyed by transactions and votes compare time stamps only.
  datatype Peer = Peer(
    hist: set<Stamp>, allVotes: map<Stamp, (nat, nat)>, histVote: set<Stamp>,
    ledger: seq<Trans>, money: seq<int>)

  function InitPeer(users: nat): Peer {
    Peer({}, map[], {}, [], seq(users, _ => INIT_MONEY))
  }

  // The messages of a broadcast to all neighbours but one; from is negative when
  // nobody is to be left out.
  function Broadcast(me: nat, adj: seq<nat>, from: int, body: Body): (out: seq<Msg>)
    ensures forall m :: m in out ==> m.from == me && m.to in adj && m.to != from && m.body == body
    ensures forall v :: v in adj && v != from ==> Msg(me, v, body) in out
    ensures |out| <= |adj|
  {
    if adj == [] then []
    else Broadcast(me, adj[..|adj| - 1], from, body)
         + if adj[|adj| - 1] == from then [] else [Msg(me, adj[|adj| - 1], body)]
  }

  function Occurrences(adj: seq<nat>, u: nat): (n: nat)
    ensures n <= |adj|
  {
    if adj == [] then 0 else Occurrences(adj[..|adj| - 1], u) + if adj[|adj| - 1] == u then 1 else 0
  }

  // How many messages go to node v.
  function SentTo(out: seq<Msg>, v: nat): nat {
    if out == [] then 0 else SentTo(out[..|out| - 1], v) + if out[|out| - 1].to == v then 1 else 0
  }

  // Exactly one message for each time a node is listed as a neighbour, and none to the one
  // left out.
  lemma {:induction false} BroadcastExact(me: nat, adj: seq<nat>, from: int, body: Body, v: nat)
    ensures SentTo(Broadcast(me, adj, from, body), v) == if v == from then 0 else Occurrences(adj, v)
  {
    if adj != [] {
      var n := |adj| - 1;
      BroadcastExact(me, adj[..n], from, body, v);
      var out := Broadcast(me, adj[..n], from, body);
      assert (out + [Msg(me, adj[n], body)])[..|out|] == out;
      assert out + [] == out;
    }
  }

  function BroadcastTransaction(p: Peer, me: nat, adj: seq<nat>, t: Trans, from: int): (Peer, seq<Msg>) {
    var q := p.(allVotes := p.allVotes[t.stamp := (0, 0)]);
    if t.stamp in p.hist then (q, [])
    else (q.(hist := p.hist + {t.stamp}), Broadcast(me, adj, from, TransMsg(t)))
  }

  function BroadcastVote(p: Peer, me: nat, adj: seq<nat>, v: Vote, from: int): (Peer, seq<Msg>) {
    if v.stamp in p.histVote then (p, [])
    else (p.(histVote := p.histVote + {v.stamp}), Broadcast(me, adj, from, VoteMsg(v)))
  }

  function MyVote(p: Peer, me: nat, t: Trans): Vote
    requires t.src < |p.money|
  {
    Vote(t.stamp, me, t.money <= p.money[t.src], t.src, t.dest, t.money)
  }

  function ReceiveTransaction(p: Peer, me: nat, adj: seq<nat>, t: Trans, from: int): (Peer, seq<Msg>)
    requires t.src < |p.money|
  {
    var (q, out) := BroadcastTransaction(p, me, adj, t, from);
    var (r, out') := BroadcastVote(q, me, adj, MyVote(q, me, t), -1);
    (r, out + out')
  }

  function ReceiveVote(p: Peer, me: nat, adj: seq<nat>, v: Vote, from: int): (Peer, seq<Msg>) {
    if v.stamp !in p.allVotes then (p, [])
    else
      var (y, n) := p.allVotes[v.stamp];
      var q := p.(allVotes := p.allVotes[v.stamp := if v.yes then (y + 1, n) else (y, n + 1)]);
      BroadcastVote(q, me, adj, v, from)
  }

  // All the votes counted so far.
  function Tally(p: Peer, stamp: Stamp): nat {
    if stamp in p.allVotes then p.allVotes[stamp].0 + p.allVotes[stamp].1 else 0
  }

  // More votes for than against; no entry counts as no votes.
  predicate Accepted(p: Peer, stamp: Stamp) {
    stamp in p.allVotes && p.allVotes[stamp].0 > p.allVotes[stamp].1
  }

  function Credit(money: seq<int>, i: nat, x: int): (m: seq<int>)
    requires i < |money|
    ensures |m| == |money|
  {
    money[i := money[i] + x]
  }

  // The debit first, then the credit: source and destination may coincide.
  function Transfer(money: seq<int>, t: Trans): (m: seq<int>)
    requires t.src < |money| && t.dest < |money|
    ensures |m| == |money|
  {
    Credit(Credit(money, t.src, -t.money), t.dest, t.money)
  }

  function ReachConsensus(p: Peer, t: Trans): Peer
    requires t.src < |p.money| && t.dest < |p.money|
  {
    var q := p.(allVotes := p.allVotes - {t.stamp});
    if Accepted(p, t.stamp) then q.(ledger := p.ledger + [t], money := Transfer(p.money, t)) else q
  }

  // --- Balances ------------------------------------------------------------------------

  // What the ledger says user u gained.
  function Replay(ledger: seq<Trans>, u: nat): int {
    if ledger == [] then 0
    else
      var t := ledger[|ledger| - 1];
      Replay(ledger[..|ledger| - 1], u)
      - (if t.src == u then t.money else 0) + (if t.dest == u then t.money else 0)
  }

  // The money of the first n users.
  function SumTo(money: seq<int>, n: nat): int
    requires n <= |money|
  {
    if n == 0 then 0 else SumTo(money, n - 1) + money[n - 1]
  }

  function Total(money: seq<int>): int { SumTo(money, |money|) }

  ghost predicate Balanced(p: Peer) {
    forall u :: 0 <= u < |p.money| ==> p.money[u] == INIT_MONEY + Replay(p.ledger, u)
  }

  lemma {:induction false} CreditSum(money: seq<int>, i: nat, x: int, n: nat)
    requires i < |money| && n <= |money|
    ensures SumTo(Credit(money, i, x), n) == SumTo(money, n) + if i < n then x else 0
  {
    if n > 0 {
      CreditSum(money, i, x, n - 1);
    }
  }

  // Committing a transaction moves money and creates none.
  lemma TransferConserves(money: seq<int>, t: Trans)
    requires t.src < |money| && t.dest < |money|
    ensures Total(Transfer(money, t)) == Total(money)
  {
    CreditSum(money, t.src, -t.money, |money|);
    CreditSum(Credit(money, t.src, -t.money), t.dest, t.money, |money|);
  }

  lemma ConsensusBalanced(p: Peer, t: Trans)
    requires Balanced(p) && t.src < |p.money| && t.dest < |p.money|
    ensures Balanced(ReachConsensus(p, t)) && Total(ReachConsensus(p, t).money) == Total(p.money)
  {
    var q := ReachConsensus(p, t);
    if Accepted(p, t.stamp) {
      TransferConserves(p.money, t);
      assert q.ledger[..|q.ledger| - 1] == p.ledger;
    }
  }
}

// The node with its state in variables that the handlers update.
module LedgerNode {
  import opened LedgerPeer

  class Node {
    const me: nat
    const adj: seq<nat>
    var hist: set<Stamp>
    var allVotes: map<Stamp, (nat, nat)>
    var histVote: set<Stamp>
    var ledger: seq<Trans>
    var money: seq<int>

    function View(): Peer
      reads this
    {
      Peer(hist, allVotes, histVote, ledger, money)
    }

    constructor (me: nat, adj: seq<nat>, users: nat)
      ensures this.me == me && this.adj == adj && View() == InitPeer(users)
    {
      this.me, this.adj := me, adj;
      hist, allVotes, histVote, ledger := {}, map[], {}, [];
      money := seq(users, _ => INIT_MONEY);
    }

    // The loop both broadcasts share.
    method SendToNeighbours(from: int, body: Body) returns (out: seq<Msg>)
      ensures out == Broadcast(me, adj, from, body)
    {
      out := [];
      for i := 0 to |adj|
        invariant out == Broadcast(me, adj[..i], from, body)
      {
        assert adj[..i + 1][..i] == adj[..i];
        if adj[i] == from { continue; }
        out := out + [Msg(me, adj[i], body)];
      }
      assert adj[..|adj|] == adj;
    }

    method BroadcastTransaction(t: Trans, from: int) returns (out: seq<Msg>)
      modifies this`hist, this`allVotes
      ensures (View(), out) == LedgerPeer.BroadcastTransaction(old(View()), me, adj, t, from)
    {
      allVotes := allVotes[t.stamp := (0, 0)];
      if t.stamp in hist {
        out := [];
      } else {
        hist := hist + {t.stamp};
        out := SendToNeighbours(from, TransMsg(t));
      }
    }

    method BroadcastVote(v: Vote, from: int) returns (out: seq<Msg>)
      modifies this`histVote
      ensures (View(), out) == LedgerPeer.BroadcastVote(old(View()), me, adj, v, from)
    {
      if v.stamp in histVote {
        out := [];
      } else {
        histVote := histVote + {v.stamp};
        out := SendToNeighbours(from, VoteMsg(v));
      }
    }

    method ReceiveTransaction(t: Trans, from: int) returns (out: seq<Msg>)
      requires t.src < |money|
      modifies this`hist, this`allVotes, this`histVote
      ensures (View(), out) == LedgerPeer.ReceiveTransaction(old(View()), me, adj, t, from)
    {
      out := BroadcastTransaction(t, from);
      var valid := if t.money > money[t.src] then -1 else 0;
      var vpkt := Vote(t.stamp, me, valid != -1, t.src, t.dest, t.money);
      var more := BroadcastVote(vpkt, -1);
      out := out + more;
    }

    method ReceiveVote(v: Vote, from: int) returns (out: seq<Msg>)
      modifies this`allVotes, this`histVote
      ensures (View(), out) == LedgerPeer.ReceiveVote(old(View()), me, adj, v, from)
    {
      if v.stamp !in allVotes { return []; }
      var (y, n) := allVotes[v.stamp];
      if v.yes {
        allVotes := allVotes[v.stamp := (y + 1, n)];
      } else {
        allVotes := allVotes[v.stamp := (y, n + 1)];
      }
      out := BroadcastVote(v, from);
    }

    method ReachConsensus(t: Trans)
      requires t.src < |money| && t.dest < |money|
      modifies this`allVotes, this`ledger, this`money
      ensures View() == LedgerPeer.ReachConsensus(old(View()), t)
    {
      if t.stamp !in allVotes {
        allVotes := allVotes[t.stamp := (0, 0)]; // operator[] of std::map
      }
      if allVotes[t.stamp].0 > allVotes[t.stamp].1 {
        ledger := ledger + [t];
        money := money[t.src := money[t.src] - t.money];
        money := money[t.dest := money[t.dest] + t.money];
      }
      allVotes := allVotes - {t.stamp};
      assert allVotes == old(allVotes) - {t.stamp};
    }
  }
}
