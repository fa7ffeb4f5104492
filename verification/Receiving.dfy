// The file server told from the sequence of packets it got, whoever sent them.
module FileReceiving {
  import opened Common
  import opened Hello
  import opened AlternatingBit

  // The server and its replies after any packets; None where it fails.
  function ServeAll(ps: seq<Packet>): Option<(Server, seq<Reply>)> {
    if ps == [] then Some((INIT_SERVER, []))
    else match ServeAll(ps[..|ps| - 1])
      case None => None
      case Some((s, out)) =>
        match Serve(s, ps[|ps| - 1])
        case None => None
        case Some((t, more)) => Some((t, out + more))
  }

  // --- The same, read off the packets ------------------------------------------------------

  // The sequence number before the next packet.
  function LastSeq(ps: seq<Packet>): int { if ps == [] then -1 else ps[|ps| - 1].seqNum }

  // A data packet that repeats the number of the packet before it is a duplicate.
  predicate Repeats(ps: seq<Packet>, p: Packet) { p.Data? && p.seqNum == LastSeq(ps) }

  // What the last first packet announced.
  function Title(ps: seq<Packet>): Option<Hello> {
    if ps == [] then None
    else
      var p := ps[|ps| - 1];
      if p.Syn? then Parse(p.text) else Title(ps[..|ps| - 1])
  }

  // The data since the last first packet, each packet once.
  function Collected(ps: seq<Packet>): seq<byte> {
    if ps == [] then []
    else
      var before, p := ps[..|ps| - 1], ps[|ps| - 1];
      if p.Syn? then [] else if Repeats(before, p) then Collected(before) else Collected(before) + p.buf
  }

  // Whether any data came since then.
  predicate Started(ps: seq<Packet>) {
    ps != [] && ps[|ps| - 1].Data? && (Started(ps[..|ps| - 1]) || !Repeats(ps[..|ps| - 1], ps[|ps| - 1]))
  }

  // A file is open from its first packet on until data reaches the size announced.
  predicate Open(ps: seq<Packet>) {
    Title(ps).Some? && (Started(ps) ==> |Collected(ps)| < Title(ps).value.size)
  }

  // The server fails with a first packet it cannot parse, and with new data when no file is
  // open.
  predicate Fails(ps: seq<Packet>, p: Packet) {
    match p
    case Syn(_, text) => Parse(text).None?
    case Data(_, _) => !Repeats(ps, p) && !Open(ps)
  }

  // Every packet is acknowledged with its own number; the data that completes the file is
  // answered with the digest of it as well.
  function Answer(ps: seq<Packet>, p: Packet): seq<Reply> {
    [Ack(p.seqNum)] + if p.Data? && !Repeats(ps, p) && !Open(ps + [p]) then [Digest(Collected(ps + [p]))] else []
  }

  ghost predicate Is(s: Server, ps: seq<Packet>) {
    && s.ack == LastSeq(ps) && s.file == Collected(ps) && s.open == Open(ps)
    && s.curs == (if Open(ps) then |Collected(ps)| else 0)
    && (Title(ps).Some? ==> s.name == Title(ps).value.name && s.filesize == Title(ps).value.size)
  }

  lemma ServeNext(s: Server, ps: seq<Packet>, p: Packet)
    requires Is(s, ps)
    ensures Serve(s, p).None? <==> Fails(ps, p)
    ensures Serve(s, p).Some? ==> Is(Serve(s, p).value.0, ps + [p]) && Serve(s, p).value.1 == Answer(ps, p)
  {
    hide Parse;
    assert (ps + [p])[..|ps|] == ps && (ps + [p])[|ps|] == p;
  }

  // Some packet made the server fail.
  predicate Failed(ps: seq<Packet>) { exists i :: 0 <= i < |ps| && Fails(ps[..i], ps[i]) }

  lemma FailedNext(ps: seq<Packet>, p: Packet)
    ensures Failed(ps + [p]) <==> Failed(ps) || Fails(ps, p)
  {
    hide Fails;
    var qs := ps + [p];
    assert qs[..|ps|] == ps && qs[|ps|] == p;
    assert forall i :: 0 <= i < |ps| ==> qs[..i] == ps[..i] && qs[i] == ps[i];
  }

  // For any packets in any order: the server fails exactly where the history says, and is what
  // the history says otherwise.
  lemma {:induction false} ServerLaw(ps: seq<Packet>)
    ensures ServeAll(ps).None? <==> Failed(ps)
    ensures ServeAll(ps).Some? ==> Is(ServeAll(ps).value.0, ps)
  {
    hide Parse, Serve, Fails, Is, Failed;
    if ps == [] {
      NothingServed();
    } else {
      var n := |ps| - 1;
      ServerLaw(ps[..n]);
      assert ps[..n] + [ps[n]] == ps;
      FailedNext(ps[..n], ps[n]);
      if ServeAll(ps[..n]).Some? { ServeNext(ServeAll(ps[..n]).value.0, ps[..n], ps[n]); }
    }
  }

  lemma NothingServed()
    ensures Is(INIT_SERVER, []) && !Failed([])
  {
  }

  // Its replies are one answer after the other.
  lemma {:induction false} RepliesLaw(ps: seq<Packet>, p: Packet)
    requires ServeAll(ps + [p]).Some?
    ensures ServeAll(ps).Some? && ServeAll(ps + [p]).value.1 == ServeAll(ps).value.1 + Answer(ps, p)
  {
    hide Parse, Serve, Is;
    assert (ps + [p])[..|ps|] == ps;
    ServerLaw(ps);
    ServeNext(ServeAll(ps).value.0, ps, p);
  }
}
