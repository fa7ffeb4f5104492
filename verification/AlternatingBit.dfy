// Stop-and-wait file transfer with an alternating bit and bounded retries, over
// FIFO channels that lose and duplicate.
module AlternatingBit {
  import opened Common
  import opened Hello

  const BUFSIZE: nat := 1024
  const MAX_RETRIES: nat := 10

  datatype Packet = Syn(seqNum: int, text: string) | Data(seqNum: int, buf: seq<byte>)

  // What the server sends: the sequence number just received, and the checksum of
  // the complete file, which stands here as the file it was computed from.
  datatype Reply = Ack(seqNum: int) | Digest(file: seq<byte>)

  // --- The server --------------------------------------------------------------------

  datatype Server = Server(
    ack: int, curs: int, filesize: int, name: string, file: seq<byte>, open: bool)

  const INIT_SERVER: Server := Server(-1, 0, 0, "", [], false)

  // One pass of the receive loop; None where the text of the first packet cannot be
  // parsed or data arrives while no file is open.
  function Serve(s: Server, p: Packet): Option<(Server, seq<Reply>)> {
    var t := s.(ack := p.seqNum);
    match p
    case Syn(n, text) =>
      (match Parse(text)
       case None => None
       case Some(h) => Some((t.(name := h.name, filesize := h.size, curs := 0, file := [], open := true), [Ack(n)])))
    case Data(n, buf) =>
      if s.ack == n then Some((t, [Ack(n)]))
      else if !s.open then None
      else if s.curs + |buf| >= s.filesize then
        Some((t.(file := s.file + buf, curs := 0, open := false), [Ack(n), Digest(s.file + buf)]))
      else Some((t.(file := s.file + buf, curs := s.curs + |buf|), [Ack(n)]))
  }

  class FileServer {
    var ack: int
    var curs: int
    var filesize: int
    var name: string
    var file: seq<byte>
    var open: bool

    function View(): Server
      reads this
    {
      Server(ack, curs, filesize, name, file, open)
    }

    constructor ()
      ensures View() == INIT_SERVER
    {
      ack, curs, filesize, name, file, open := -1, 0, 0, "", [], false;
    }

    method Receive(p: Packet) returns (replies: seq<Reply>)
      requires Serve(View(), p).Some?
      modifies this
      ensures Some((View(), replies)) == Serve(old(View()), p)
    {
      var flg := p.Data? && ack == p.seqNum;
      ack := p.seqNum;
      replies := [Ack(ack)];
      if flg { return; }
      if p.Syn? {
        var h := Parse(p.text).value;
        name, filesize := h.name, h.size;
        curs := 0;
        file, open := [], true;
      } else {
        curs := curs + |p.buf|;
        file := file + p.buf;
        if curs >= filesize {
          open := false;
          assert [Ack(ack)] + [Digest(file)] == [Ack(ack), Digest(file)];
          replies := replies + [Digest(file)];
          curs := 0;
        }
      }
    }
  }

  // --- The client ----------------------------------------------------------------------

  datatype Job = Job(name: string, file: seq<byte>)

  // In units of BUFSIZE, with its value written out.
  function NumChunks(filesize: nat): nat {
    filesize / 1024 + (if filesize % 1024 == 0 then 0 else 1)
  }

  // The number of bytes in the first m chunks.
  function Upto(file: seq<byte>, m: nat): nat { Min(1024 * m, |file|) }

  function Prefix(file: seq<byte>, m: nat): seq<byte> { file[..Upto(file, m)] }

  function Chunk(file: seq<byte>, k: nat): seq<byte>
    requires 1 <= k
  {
    file[Upto(file, k - 1)..Upto(file, k)]
  }

  // Packet 0 announces the transfer, packet k carries chunk k.
  function PacketOf(job: Job, k: nat): Packet {
    if k == 0 then Syn(0, Format(job.name, |job.file|, NumChunks(|job.file|)))
    else Data(k % 2, Chunk(job.file, k))
  }

  lemma ChunkBounds(file: seq<byte>, k: nat)
    requires 1 <= k <= NumChunks(|file|)
    ensures 1 <= |Chunk(file, k)| <= 1024 && (k < NumChunks(|file|) ==> |Chunk(file, k)| == 1024)
    ensures Prefix(file, k) == Prefix(file, k - 1) + Chunk(file, k)
    ensures |Prefix(file, k)| >= |file| <==> k == NumChunks(|file|)
  {
  }

  lemma AllChunks(file: seq<byte>, m: nat)
    requires m >= NumChunks(|file|)
    ensures Prefix(file, m) == file
  {
  }

  // The reading loop of the client: fread of up to BUFSIZE bytes at a time, with the
  // sequence bit flipped after every packet.
  method CutFile(file: seq<byte>) returns (pkts: seq<Packet>)
    ensures |pkts| == NumChunks(|file|)
    ensures forall k :: 1 <= k <= |pkts| ==> pkts[k - 1] == Data(k % 2, Chunk(file, k))
  {
    pkts := [];
    var sn := 1;
    var at := 0;
    while at < |file|
      invariant at == Upto(file, |pkts|) && sn == (|pkts| + 1) % 2
      invariant |pkts| <= NumChunks(|file|) && (at < |file| ==> |pkts| < NumChunks(|file|))
      invariant forall k :: 1 <= k <= |pkts| ==> pkts[k - 1] == Data(k % 2, Chunk(file, k))
      decreases |file| - at
    {
      var flen := Min(BUFSIZE, |file| - at);
      pkts := pkts + [Data(sn, file[at..at + flen])];
      at := at + flen;
      sn := 1 - sn;
    }
  }

  // sendPacket against the results of its receive calls, None for a timeout: the
  // packet is sent until it is acknowledged, at most MAX_RETRIES times.
  method SendPacket(seqNum: int, received: seq<Option<Reply>>) returns (ok: bool, cnt: nat)
    requires |received| >= MAX_RETRIES
    ensures 1 <= cnt <= MAX_RETRIES
    ensures forall i :: 0 <= i < cnt - 1 ==> received[i] != Some(Ack(seqNum))
    ensures ok <==> received[cnt - 1] == Some(Ack(seqNum))
    ensures !ok ==> cnt == MAX_RETRIES
  {
    cnt := 0;
    while true
      invariant 0 <= cnt < MAX_RETRIES
      invariant forall i :: 0 <= i < cnt ==> received[i] != Some(Ack(seqNum))
      decreases MAX_RETRIES - cnt
    {
      cnt := cnt + 1;
      if received[cnt - 1] == Some(Ack(seqNum)) { return true, cnt; }
      if cnt == MAX_RETRIES { return false, cnt; }
    }
  }

  // --- The whole system -----------------------------------------------------------------

  // Packet k was sent cnt times and is to be sent (again), or its reply is awaited.
  datatype Client = Ready(k: nat, cnt: nat) | Waiting(k: nat, cnt: nat) | Finished | Aborted(k: nat)

  // sent counts datagrams from the client, writes and digests count what the server
  // appended and reported since the file was last truncated.
  datatype System = System(
    client: Client, server: Server, data: seq<Packet>, replies: seq<Reply>,
    sent: nat, writes: nat, digests: nat)

  const INIT: System := System(Ready(0, 0), INIT_SERVER, [], [], 0, 0, 0)

  datatype Event =
    | Transmit | GetReply | ReplyTimeout | ServerReceives
    | LoseData(i: nat) | RepeatData(i: nat) | LoseReply(i: nat) | RepeatReply(i: nat)

  function NextPacket(job: Job, k: nat): Client {
    if k < NumChunks(|job.file|) then Ready(k + 1, 0) else Finished
  }

  function Retry(k: nat, cnt: nat): Client {
    if cnt == MAX_RETRIES then Aborted(k) else Ready(k, cnt)
  }

  function ServerStep(s: System): Outcome<System> {
    if s.data == [] then Blocked
    else
      var p := s.data[0];
      match Serve(s.server, p)
      case None => Fault
      case Some((server, out)) =>
        var appended := p.Data? && p.seqNum != s.server.ack;
        Next(s.(server := server, data := s.data[1..], replies := s.replies + out,
                writes := if p.Syn? then 0 else if appended then s.writes + 1 else s.writes,
                digests := if p.Syn? then 0 else s.digests + |out| - 1))
  }

  function Apply(job: Job, s: System, e: Event): Outcome<System> {
    match e
    case Transmit =>
      if !s.client.Ready? then Blocked
      else Next(s.(client := Waiting(s.client.k, s.client.cnt + 1),
                   data := s.data + [PacketOf(job, s.client.k)], sent := s.sent + 1))
    case GetReply =>
      if !s.client.Waiting? || s.replies == [] then Blocked
      else
        var k := s.client.k;
        var matched := s.replies[0] == Ack(PacketOf(job, k).seqNum);
        Next(s.(client := if matched then NextPacket(job, k) else Retry(k, s.client.cnt),
                replies := s.replies[1..]))
    case ReplyTimeout =>
      if !s.client.Waiting? then Blocked
      else Next(s.(client := Retry(s.client.k, s.client.cnt)))
    case ServerReceives => ServerStep(s)
    case LoseData(i) => if i < |s.data| then Next(s.(data := Without(s.data, i))) else Blocked
    case RepeatData(i) => if i < |s.data| then Next(s.(data := Twice(s.data, i))) else Blocked
    case LoseReply(i) => if i < |s.replies| then Next(s.(replies := Without(s.replies, i))) else Blocked
    case RepeatReply(i) => if i < |s.replies| then Next(s.(replies := Twice(s.replies, i))) else Blocked
  }

  function Run(job: Job, s: System, es: seq<Event>): Outcome<System> {
    if es == [] then Next(s)
    else match Run(job, s, es[..|es| - 1])
      case Next(t) => Apply(job, t, es[|es| - 1])
      case other => other
  }

  ghost predicate Leads(job: Job, s: System, t: System) { exists es :: Run(job, s, es) == Next(t) }

  ghost predicate Reachable(job: Job, s: System) { Leads(job, INIT, s) }

  // --- What the first packet announces -----------------------------------------------------

  // What the server reads from the first packet.
  function Announced(job: Job): Option<Hello> {
    Parse(Format(job.name, |job.file|, NumChunks(|job.file|)))
  }

  // The size the server expects is not reached with the first m chunks.
  predicate StaysOpen(job: Job, m: nat)
    requires Announced(job).Some?
  {
    m == 0 || Upto(job.file, m) < Announced(job).value.size
  }

  // The first packet can be read, and the size read is more than all chunks but the last.
  predicate Sane(job: Job) {
    && Announced(job).Some?
    && (NumChunks(|job.file|) <= 1 || Announced(job).value.size > 1024 * (NumChunks(|job.file|) - 1))
  }

  lemma SaneOpen(job: Job, m: nat)
    requires Sane(job) && m < NumChunks(|job.file|)
    ensures StaysOpen(job, m)
  {
    hide Parse, Format;
  }

  // A name without blanks is announced with the true size.
  lemma PlainIsSane(job: Job)
    requires PlainName(job.name)
    ensures Sane(job) && Announced(job) == Some(Hello(job.name, |job.file|, NumChunks(|job.file|)))
  {
    HelloRoundTrip(job.name, |job.file|, NumChunks(|job.file|));
  }

  // Of a name with blanks the first word is taken for the name and the second for the size.
  lemma TwoWords(job: Job, first: string, second: string)
    requires PlainName(first) && PlainName(second) && job.name == first + " " + second
    ensures Announced(job) == Some(Hello(first, Atoi(second), |job.file|))
  {
    var n, chunks := Decimal(|job.file|), Decimal(NumChunks(|job.file|));
    DecimalDigits(|job.file|);
    DecimalDigits(NumChunks(|job.file|));
    AtoiDecimal(|job.file|);
    assert Format(job.name, |job.file|, NumChunks(|job.file|))
        == first + " " + (second + " " + (n + " " + chunks));
    TokenOf(first, second + " " + (n + " " + chunks));
    TokenOf(second, n + " " + chunks);
    TokenOf(n, chunks);
  }

  // --- Invariant ------------------------------------------------------------------------

  // The packet the client works on; one past the last when it is finished.
  function Current(job: Job, c: Client): nat {
    match c
    case Ready(k, _) => k
    case Waiting(k, _) => k
    case Aborted(k) => k
    case Finished => NumChunks(|job.file|) + 1
  }

  // Near packet k a sequence bit tells packet k from packet k - 1.
  function IndexOf(k: nat, bit: int): int { if bit == k % 2 then k else k - 1 }

  ghost predicate DataOk(job: Job, k: nat, m: int, p: Packet) {
    var i := IndexOf(k, p.seqNum);
    m <= i && 0 <= i <= NumChunks(|job.file|) && p == PacketOf(job, i)
  }

  ghost predicate ReplyOk(job: Job, k: nat, m: int, r: Reply) {
    match r
    case Ack(bit) => (bit == 0 || bit == 1) && 0 <= IndexOf(k, bit) <= m
    case Digest(file) => file == job.file
  }

  // Once the current packet k is under way, or acknowledged, nothing older follows.
  ghost predicate DataInv(job: Job, k: nat, m: int, data: seq<Packet>) {
    && (forall i :: 0 <= i < |data| ==> DataOk(job, k, m, data[i]))
    && (forall i, j :: 0 <= i <= j < |data| && data[i].seqNum == k % 2 ==> data[j].seqNum == k % 2)
  }

  ghost predicate RepliesInv(job: Job, k: nat, m: int, replies: seq<Reply>) {
    && (forall i :: 0 <= i < |replies| ==> ReplyOk(job, k, m, replies[i]))
    && (forall i, j :: 0 <= i <= j < |replies| && replies[i] == Ack(k % 2) && replies[j].Ack? ==>
          replies[j] == Ack(k % 2))
  }

  // The most datagrams k packets can take, MAX_RETRIES each.
  function Budget(k: nat): nat { 10 * k }

  ghost predicate ClientInv(job: Job, s: System) {
    var n := NumChunks(|job.file|);
    match s.client
    case Ready(k, cnt) => k <= n && cnt < MAX_RETRIES && k + cnt <= s.sent <= Budget(k) + cnt
    case Waiting(k, cnt) => k <= n && 1 <= cnt <= MAX_RETRIES && k + cnt <= s.sent <= Budget(k) + cnt
    case Aborted(k) => k <= n && k + MAX_RETRIES <= s.sent <= Budget(k + 1)
    case Finished => n + 1 <= s.sent <= Budget(n + 1)
  }

  // The server after packet m, of which 0 opens the file.
  ghost predicate ServerInv(job: Job, s: Server, m: int, writes: nat, digests: nat) {
    if m < 0 then s.ack == -1 && !s.open && writes == digests == 0 && s.file == []
    else
      && m <= NumChunks(|job.file|) && s.ack == m % 2 && writes == m
      && Announced(job).Some? && s.name == Announced(job).value.name && s.filesize == Announced(job).value.size
      && s.file == Prefix(job.file, m)
      && (s.open <==> StaysOpen(job, m))
      && s.curs == (if s.open then |s.file| else 0)
      && digests == (if s.open then 0 else 1)
  }

  // m is the last packet the server processed.
  ghost predicate Inv(job: Job, s: System, m: int) {
    var k := Current(job, s.client);
    && (m == k || m == k - 1) && m >= -1
    && ClientInv(job, s)
    && ServerInv(job, s.server, m, s.writes, s.digests)
    && DataInv(job, k, m, s.data)
    && RepliesInv(job, k, m, s.replies)
  }

  ghost predicate Keeps(job: Job, s: System, m: int, e: Event) {
    && !Apply(job, s, e).Fault?
    && (Apply(job, s, e).Next? ==>
          Inv(job, Apply(job, s, e).s, m) || (e.ServerReceives? && Inv(job, Apply(job, s, e).s, m + 1)))
  }

  // --- Steps ------------------------------------------------------------------------------

  lemma TransmitKeeps(job: Job, s: System, m: int)
    requires Inv(job, s, m)
    ensures Keeps(job, s, m, Transmit)
  {
    hide Parse, Format, Chunk, ServerInv, RepliesInv;
    if s.client.Ready? {
      var k := s.client.k;
      assert PacketOf(job, k).seqNum == k % 2;
      assert DataOk(job, k, m, PacketOf(job, k));
    }
  }

  // The acknowledgement of the current packet: everything older is gone.
  lemma MatchKeeps(job: Job, s: System, m: int)
    requires Inv(job, s, m) && s.client.Waiting? && s.replies != []
    requires s.replies[0] == Ack(s.client.k % 2)
    ensures m == s.client.k
    ensures DataInv(job, m + 1, m, s.data) && RepliesInv(job, m + 1, m, s.replies[1..])
  {
    hide Parse, Format, ServerInv, ClientInv, PacketOf;
    assert ReplyOk(job, s.client.k, m, s.replies[0]);
    forall i | 0 <= i < |s.data| ensures DataOk(job, m + 1, m, s.data[i]) && s.data[i].seqNum == m % 2 {
      assert DataOk(job, m, m, s.data[i]);
    }
    forall i | 1 <= i < |s.replies|
      ensures ReplyOk(job, m + 1, m, s.replies[i]) && (s.replies[i].Ack? ==> s.replies[i] == Ack(m % 2))
    {
      assert ReplyOk(job, m, m, s.replies[i]);
    }
  }

  lemma ReplyTaken(job: Job, k: nat, m: int, replies: seq<Reply>)
    requires RepliesInv(job, k, m, replies) && replies != []
    ensures RepliesInv(job, k, m, replies[1..])
  {
  }

  lemma GetReplyKeeps(job: Job, s: System, m: int)
    requires Inv(job, s, m)
    ensures Keeps(job, s, m, GetReply)
  {
    hide Parse, Format, Chunk, ServerInv;
    if s.client.Waiting? && s.replies != [] {
      var k := s.client.k;
      assert PacketOf(job, k).seqNum == k % 2;
      if s.replies[0] == Ack(k % 2) {
        MatchKeeps(job, s, m);
        assert Current(job, NextPacket(job, k)) == m + 1;
        assert Inv(job, Apply(job, s, GetReply).s, m);
      } else {
        ReplyTaken(job, k, m, s.replies);
        assert Inv(job, Apply(job, s, GetReply).s, m);
      }
    }
  }

  // The first packet, new or repeated, opens an empty file.
  lemma ServeFirst(job: Job, s: Server)
    requires Announced(job).Some?
    ensures Serve(s, PacketOf(job, 0)).Some?
    ensures var (t, out) := Serve(s, PacketOf(job, 0)).value;
      out == [Ack(0)] && ServerInv(job, t, 0, 0, 0)
  {
    hide Parse, Format;
    assert Prefix(job.file, 0) == [];
  }

  lemma ServeDuplicate(job: Job, s: Server, m: nat, writes: nat, digests: nat)
    requires ServerInv(job, s, m, writes, digests) && m > 0
    ensures Serve(s, PacketOf(job, m)) == Some((s, [Ack(m % 2)]))
  {
    hide Parse, Format;
  }

  // A new chunk is appended; it completes the file exactly if it reaches the size expected.
  lemma ServeNew(job: Job, s: Server, m: nat, writes: nat, digests: nat)
    requires ServerInv(job, s, m, writes, digests) && m < NumChunks(|job.file|) && StaysOpen(job, m)
    ensures Serve(s, PacketOf(job, m + 1)).Some?
    ensures var (t, out) := Serve(s, PacketOf(job, m + 1)).value;
      && out == [Ack((m + 1) % 2)] + (if StaysOpen(job, m + 1) then [] else [Digest(Prefix(job.file, m + 1))])
      && ServerInv(job, t, m + 1, writes + 1, digests + |out| - 1)
  {
    hide Parse, Format;
    ChunkBounds(job.file, m + 1);
  }

  lemma ServerAck(job: Job, s: Server, m: nat, writes: nat, digests: nat)
    requires ServerInv(job, s, m, writes, digests)
    ensures s.ack == m % 2
  {
  }

  // What the server makes of the next datagram, the packet it has or the one after it.
  lemma ServeOk(job: Job, s: System, k: nat, m: int)
    requires Sane(job) && s.data != []
    requires ServerInv(job, s.server, m, s.writes, s.digests)
    requires DataOk(job, k, m, s.data[0]) && (m == k || m == k - 1)
    ensures ServerStep(s).Next?
    ensures var t, i := ServerStep(s).s, IndexOf(k, s.data[0].seqNum);
      && ServerInv(job, t.server, i, t.writes, t.digests)
      && OneReply(job, i, s.replies, t.replies)
      && t == s.(server := t.server, data := s.data[1..], replies := t.replies, writes := t.writes,
                 digests := t.digests)
  {
    hide Parse, Format, ServerInv;
    var i := IndexOf(k, s.data[0].seqNum);
    if m >= 0 { ServerAck(job, s.server, m, s.writes, s.digests); }
    if i == 0 {
      ServeFirst(job, s.server);
    } else if i == m {
      ServeDuplicate(job, s.server, m, s.writes, s.digests);
    } else {
      SaneOpen(job, m);
      ServeNew(job, s.server, m, s.writes, s.digests);
      if i < NumChunks(|job.file|) { SaneOpen(job, i); } else { AllChunks(job.file, i); }
    }
  }

  // An acknowledgement of packet i is added, and the digest of the whole file at most with
  // the last packet.
  ghost predicate OneReply(job: Job, i: int, replies: seq<Reply>, replies': seq<Reply>) {
    || replies' == replies + [Ack(i % 2)]
    || (replies' == replies + [Ack(i % 2), Digest(job.file)] && i == NumChunks(|job.file|))
  }

  lemma DataTaken(job: Job, k: nat, m: int, data: seq<Packet>)
    requires DataInv(job, k, m, data) && data != []
    ensures DataInv(job, k, IndexOf(k, data[0].seqNum), data[1..])
  {
  }

  lemma RepliesGrow(job: Job, k: nat, m: int, i: int, replies: seq<Reply>, replies': seq<Reply>)
    requires RepliesInv(job, k, m, replies) && 0 <= i && m <= i && (i == k || i == k - 1)
    requires OneReply(job, i, replies, replies')
    ensures RepliesInv(job, k, i, replies')
  {
  }

  lemma ServerKeeps(job: Job, s: System, m: int)
    requires Sane(job) && Inv(job, s, m)
    ensures Keeps(job, s, m, ServerReceives)
  {
    hide Parse, Format, ServerStep, ServerInv, DataInv, RepliesInv;
    if s.data == [] {
      NothingToServe(s);
    } else {
      var k := Current(job, s.client);
      FirstData(job, k, m, s.data);
      ServeOk(job, s, k, m);
      var t, i := ServerStep(s).s, IndexOf(k, s.data[0].seqNum);
      DataTaken(job, k, m, s.data);
      RepliesGrow(job, k, m, i, s.replies, t.replies);
      assert i == m || i == m + 1;
      assert Inv(job, t, i);
    }
  }

  lemma NothingToServe(s: System)
    requires s.data == []
    ensures ServerStep(s).Blocked?
  {
  }

  lemma FirstData(job: Job, k: nat, m: int, data: seq<Packet>)
    requires DataInv(job, k, m, data) && data != []
    ensures DataOk(job, k, m, data[0])
  {
  }

  lemma DataChannelKeeps(job: Job, s: System, m: int, e: Event)
    requires Inv(job, s, m) && (e.LoseData? || e.RepeatData?)
    ensures Keeps(job, s, m, e)
  {
    hide Parse, Format, ServerInv, RepliesInv, PacketOf;
    if Apply(job, s, e).Next? {
      var data := Apply(job, s, e).s.data;
      assert DataInv(job, Current(job, s.client), m, data);
    }
  }

  lemma ReplyChannelKeeps(job: Job, s: System, m: int, e: Event)
    requires Inv(job, s, m) && (e.LoseReply? || e.RepeatReply?)
    ensures Keeps(job, s, m, e)
  {
    hide Parse, Format, ServerInv, DataInv, PacketOf;
    if Apply(job, s, e).Next? {
      var replies := Apply(job, s, e).s.replies;
      assert RepliesInv(job, Current(job, s.client), m, replies);
    }
  }

  lemma TimeoutKeeps(job: Job, s: System, m: int)
    requires Inv(job, s, m)
    ensures Keeps(job, s, m, ReplyTimeout)
  {
    hide Parse, Format, PacketOf, ServerInv, DataInv, RepliesInv;
  }

  lemma StepKeeps(job: Job, s: System, m: int, e: Event)
    requires Sane(job) && Inv(job, s, m)
    ensures Keeps(job, s, m, e)
  {
    hide Keeps, Inv;
    match e
    case Transmit => TransmitKeeps(job, s, m);
    case GetReply => GetReplyKeeps(job, s, m);
    case ReplyTimeout => TimeoutKeeps(job, s, m);
    case ServerReceives => ServerKeeps(job, s, m);
    case LoseData(_) => DataChannelKeeps(job, s, m, e);
    case RepeatData(_) => DataChannelKeeps(job, s, m, e);
    case _ => ReplyChannelKeeps(job, s, m, e);
  }

  lemma {:induction false} RunKeeps(job: Job, es: seq<Event>) returns (m: int)
    requires Sane(job)
    ensures !Run(job, INIT, es).Fault?
    ensures Run(job, INIT, es).Next? ==> Inv(job, Run(job, INIT, es).s, m)
  {
    m := -1;
    if es != [] {
      m := RunKeeps(job, es[..|es| - 1]);
      if Run(job, INIT, es[..|es| - 1]).Next? {
        var s, e := Run(job, INIT, es[..|es| - 1]).s, es[|es| - 1];
        StepKeeps(job, s, m, e);
        if Run(job, INIT, es).Next? && !Inv(job, Run(job, INIT, es).s, m) {
          m := m + 1;
        }
      }
    }
  }

  lemma ReachableInv(job: Job, s: System) returns (m: int)
    requires Sane(job) && Reachable(job, s)
    ensures Inv(job, s, m)
  {
    var es :| Run(job, INIT, es) == Next(s);
    m := RunKeeps(job, es);
  }

  // --- Theorems ----------------------------------------------------------------------------

  // The file is always the chunks before the current one, or those and the current
  // one, each appended exactly once: sendPacket for packet k has returned only if
  // the client is past k, and then at least k chunks are in the file.
  lemma FileIsPrefix(job: Job, s: System)
    requires Sane(job) && Reachable(job, s)
    ensures s.server.file == Prefix(job.file, s.writes)
    ensures Current(job, s.client) - 1 <= s.writes <= Current(job, s.client)
  {
    hide Parse, Format;
    var m := ReachableInv(job, s);
  }

  // The server's test for completion first succeeds on the last chunk, once; with a name
  // without blanks the size announced is that of the file, and it does succeed.
  lemma CompletionTest(job: Job, s: System)
    requires Sane(job) && Reachable(job, s) && job.file != []
    ensures s.digests == (if s.writes == NumChunks(|job.file|) && Announced(job).value.size <= |job.file| then 1 else 0)
    ensures s.digests == 1 ==> s.server.file == job.file && !s.server.open
    ensures forall file :: Digest(file) in s.replies ==> file == job.file
  {
    hide Parse, Format;
    var m := ReachableInv(job, s);
    if s.writes < NumChunks(|job.file|) { SaneOpen(job, s.writes); } else { AllChunks(job.file, s.writes); }
    forall file | Digest(file) in s.replies ensures file == job.file {
      var i :| 0 <= i < |s.replies| && s.replies[i] == Digest(file);
      assert ReplyOk(job, Current(job, s.client), m, s.replies[i]);
    }
  }

  // A client that is done left a complete file behind, under the name announced.
  lemma TransferComplete(job: Job, s: System)
    requires Sane(job) && Reachable(job, s) && s.client.Finished?
    ensures s.server.file == job.file && s.writes == NumChunks(|job.file|)
    ensures s.server.name == Announced(job).value.name && (PlainName(job.name) ==> s.server.name == job.name)
  {
    var m := ReachableInv(job, s);
    AllChunks(job.file, s.writes);
    if PlainName(job.name) { PlainIsSane(job); }
  }

  // Every run sends a bounded number of datagrams, and gives up only after sending
  // one packet MAX_RETRIES times.
  lemma RetriesBounded(job: Job, s: System)
    requires Sane(job) && Reachable(job, s)
    ensures s.sent <= Budget(NumChunks(|job.file|) + 1)
    ensures s.client.Aborted? ==> s.client.k + MAX_RETRIES <= s.sent <= Budget(s.client.k + 1)
    ensures s.client.Finished? ==> NumChunks(|job.file|) + 1 <= s.sent
  {
    hide Parse, Format;
    var m := ReachableInv(job, s);
  }

  lemma Extend(job: Job, s: System, e: Event, t: System)
    requires Reachable(job, s) && Apply(job, s, e) == Next(t)
    ensures Reachable(job, t)
  {
    var es :| Run(job, INIT, es) == Next(s);
    var longer := es + [e];
    assert longer[..|longer| - 1] == es;
    assert Run(job, INIT, longer) == Next(t);
  }

  lemma OpenBefore(job: Job, m: nat, k: nat)
    requires Announced(job).Some? && m <= k && StaysOpen(job, k)
    ensures StaysOpen(job, m)
  {
    hide Parse, Format;
  }

  // The server after packet k of a run without losses.
  ghost predicate Served(job: Job, s: System, k: int) {
    && ServerInv(job, s.server, k, s.writes, s.digests) && s.data == []
    && (s.replies == [] || (k >= 0 && !StaysOpen(job, k)))
  }

  // Without losses every packet is sent once, as long as the file is open for it.
  lemma {:induction false} LosslessRun(job: Job, k: nat) returns (s: System)
    requires Announced(job).Some? && k <= NumChunks(|job.file|) && (k > 0 ==> StaysOpen(job, k - 1))
    ensures Reachable(job, s) && s.client == NextPacket(job, k) && s.sent == k + 1 && Served(job, s, k)
  {
    hide Parse, Format, Apply, ServerInv;
    var before := INIT;
    if k == 0 {
      assert Run(job, INIT, []) == Next(INIT);
      InitServer(job);
    } else {
      OpenBefore(job, if k == 1 then 0 else k - 2, k - 1);
      before := LosslessRun(job, k - 1);
    }
    s := Exchange(job, before, k);
  }

  lemma InitServer(job: Job)
    ensures ServerInv(job, INIT.server, -1, INIT.writes, INIT.digests)
  {
  }

  // Packet k is sent, served and acknowledged.
  lemma Exchange(job: Job, s: System, k: nat) returns (t: System)
    requires Announced(job).Some? && k <= NumChunks(|job.file|) && (k > 0 ==> StaysOpen(job, k - 1))
    requires Reachable(job, s) && s.client == Ready(k, 0) && Served(job, s, k - 1)
    ensures Reachable(job, t) && t.client == NextPacket(job, k) && t.sent == s.sent + 1 && Served(job, t, k)
  {
    hide Parse, Format, ServerInv, Apply, Reachable;
    var s1 := SendOnce(job, s, k);
    var s2 := ServeOnce(job, s1, k);
    t := s2.(client := NextPacket(job, k), replies := s2.replies[1..]);
    AckTaken(job, s2, k);
    Extend(job, s2, GetReply, t);
  }

  lemma SendOnce(job: Job, s: System, k: nat) returns (t: System)
    requires Reachable(job, s) && s.client == Ready(k, 0) && s.data == []
    ensures Reachable(job, t)
    ensures t == s.(client := Waiting(k, 1), data := [PacketOf(job, k)], sent := s.sent + 1)
  {
    hide Parse, Format;
    t := Apply(job, s, Transmit).s;
    assert s.data + [PacketOf(job, k)] == [PacketOf(job, k)];
    Extend(job, s, Transmit, t);
  }

  lemma ServeOnce(job: Job, s: System, k: nat) returns (t: System)
    requires Announced(job).Some? && k <= NumChunks(|job.file|) && (k > 0 ==> StaysOpen(job, k - 1))
    requires Reachable(job, s) && s.client == Waiting(k, 1) && s.data == [PacketOf(job, k)] && s.replies == []
    requires ServerInv(job, s.server, k - 1, s.writes, s.digests)
    ensures Reachable(job, t) && t.client == Waiting(k, 1) && t.sent == s.sent && t.data == []
    ensures ServerInv(job, t.server, k, t.writes, t.digests)
    ensures t.replies != [] && t.replies[0] == Ack(k % 2) && (|t.replies| > 1 ==> !StaysOpen(job, k))
  {
    hide Parse, Format, ServerInv, Reachable;
    if k == 0 {
      ServeFirst(job, s.server);
    } else {
      ServeNew(job, s.server, k - 1, s.writes, s.digests);
      ServerAck(job, s.server, k - 1, s.writes, s.digests);
    }
    t := ServerStep(s).s;
    Extend(job, s, ServerReceives, t);
  }

  lemma AckTaken(job: Job, s: System, k: nat)
    requires s.client == Waiting(k, 1) && s.replies != [] && s.replies[0] == Ack(k % 2)
    ensures Apply(job, s, GetReply) == Next(s.(client := NextPacket(job, k), replies := s.replies[1..]))
  {
  }

  // Once complete, the file stays as it is: repeats of the last chunk change nothing.
  lemma {:induction false} CompleteStays(job: Job, s: System, es: seq<Event>)
    requires Sane(job) && Reachable(job, s) && job.file != []
    requires s.writes == NumChunks(|job.file|)
    ensures Run(job, s, es).Next? ==>
      var t := Run(job, s, es).s;
      && Reachable(job, t) && t.writes == NumChunks(|job.file|)
      && t.server.file == job.file && t.digests == s.digests
  {
    hide Parse, Format, Apply;
    CompletionTest(job, s);
    if es == [] {
      FileIsPrefix(job, s);
      AllChunks(job.file, s.writes);
    } else {
      CompleteStays(job, s, es[..|es| - 1]);
      if Run(job, s, es).Next? {
        var t, e := Run(job, s, es[..|es| - 1]).s, es[|es| - 1];
        var u := Apply(job, t, e).s;
        WritesKept(job, t, e, u);
        Extend(job, t, e, u);
        CompletionTest(job, u);
        FileIsPrefix(job, u);
        AllChunks(job.file, u.writes);
      }
    }
  }

  lemma WritesKept(job: Job, s: System, e: Event, t: System)
    requires Sane(job) && Reachable(job, s) && job.file != [] && s.writes == NumChunks(|job.file|)
    requires Apply(job, s, e) == Next(t)
    ensures t.writes == NumChunks(|job.file|)
  {
    hide Parse, Format, Apply, Reachable, DataInv, RepliesInv;
    var m := ReachableInv(job, s);
    StepKeeps(job, s, m, e);
  }

  // How often a receive of the client returned, with a reply or with a timeout.
  function Results(es: seq<Event>): nat {
    if es == [] then 0
    else Results(es[..|es| - 1]) + if es[|es| - 1].GetReply? || es[|es| - 1].ReplyTimeout? then 1 else 0
  }

  // After every datagram the client waits for one result, and after every result that is not
  // the acknowledgement it waits for it sends again or gives up.
  lemma {:induction false} OneResultEach(job: Job, es: seq<Event>)
    requires Run(job, INIT, es).Next?
    ensures var s := Run(job, INIT, es).s;
      s.sent == Results(es) + if s.client.Waiting? then 1 else 0
  {
    hide Parse, Format;
    if es != [] {
      OneResultEach(job, es[..|es| - 1]);
      ResultStep(job, Run(job, INIT, es[..|es| - 1]).s, es[|es| - 1]);
    }
  }

  lemma ResultStep(job: Job, s: System, e: Event)
    requires Apply(job, s, e).Next?
    ensures var t := Apply(job, s, e).s;
      t.sent - (if t.client.Waiting? then 1 else 0)
      == s.sent - (if s.client.Waiting? then 1 else 0) + if e.GetReply? || e.ReplyTimeout? then 1 else 0
  {
    hide Parse, Format, PacketOf, Serve;
  }

  // The client waits for the acknowledgement of packet k and finds it next.
  predicate Confirms(s: System, e: Event) {
    e.GetReply? && s.client.Waiting? && s.replies != [] && s.replies[0] == Ack(s.client.k % 2)
  }

  // How often that happened in a run.
  function Confirmed(job: Job, es: seq<Event>): nat
    requires Run(job, INIT, es).Next?
  {
    if es == [] then 0
    else
      var before := es[..|es| - 1];
      Confirmed(job, before) + if Confirms(Run(job, INIT, before).s, es[|es| - 1]) then 1 else 0
  }

  // What the channel and the server did to the number of datagrams on their way.
  function Traffic(es: seq<Event>): int {
    if es == [] then 0
    else
      var e := es[|es| - 1];
      Traffic(es[..|es| - 1])
      + if e.RepeatData? then 1 else if e.ServerReceives? || e.LoseData? then -1 else 0
  }

  // The client is past exactly the packets whose acknowledgement it took while waiting for it,
  // and every datagram it counts is put on the channel.
  lemma {:induction false} ProgressLaw(job: Job, es: seq<Event>)
    requires Run(job, INIT, es).Next?
    ensures var s := Run(job, INIT, es).s;
      Current(job, s.client) == Confirmed(job, es) && |s.data| == s.sent + Traffic(es)
    ensures var s := Run(job, INIT, es).s;
      s.client.Finished? || Current(job, s.client) <= NumChunks(|job.file|)
  {
    hide Parse, Format, Confirms;
    if es != [] {
      ProgressLaw(job, es[..|es| - 1]);
      ProgressStep(job, Run(job, INIT, es[..|es| - 1]).s, es[|es| - 1]);
    }
  }

  lemma ProgressStep(job: Job, s: System, e: Event)
    requires Apply(job, s, e).Next? && (s.client.Finished? || Current(job, s.client) <= NumChunks(|job.file|))
    ensures var t := Apply(job, s, e).s;
      && Current(job, t.client) == Current(job, s.client) + (if Confirms(s, e) then 1 else 0)
      && (t.client.Finished? || Current(job, t.client) <= NumChunks(|job.file|))
      && |t.data| - t.sent == |s.data| - s.sent + Traffic([e])
  {
    hide Parse, Format, Serve;
    assert [e][..0] == [];
    if e.GetReply? && s.client.Waiting? { assert PacketOf(job, s.client.k).seqNum == s.client.k % 2; }
  }

  // --- File names ---------------------------------------------------------------------------

  ghost predicate WrongName(job: Job, s: System) {
    s.server.name != job.name && forall i :: 0 <= i < |s.data| && s.data[i].Syn? ==> s.data[i] == PacketOf(job, 0)
  }

  lemma WrongNameStays(job: Job, s: System, e: Event)
    requires !PlainName(job.name) && WrongName(job, s) && Apply(job, s, e).Next?
    ensures WrongName(job, Apply(job, s, e).s)
  {
    hide Parse, Format;
    if e.ServerReceives? {
      HelloRoundTrip(job.name, |job.file|, NumChunks(|job.file|));
    }
  }

  lemma {:induction false} WrongNameRun(job: Job, es: seq<Event>)
    requires !PlainName(job.name) && job.name != ""
    ensures Run(job, INIT, es).Next? ==> WrongName(job, Run(job, INIT, es).s)
  {
    if es != [] {
      WrongNameRun(job, es[..|es| - 1]);
      if Run(job, INIT, es).Next? {
        WrongNameStays(job, Run(job, INIT, es[..|es| - 1]).s, es[|es| - 1]);
      }
    }
  }

  // A transfer can end with the file under its name if and only if that name, which
  // is never empty, has no blank in it.
  lemma NameCondition(job: Job)
    requires job.name != ""
    ensures PlainName(job.name) <==>
      exists s :: Reachable(job, s) && s.client.Finished? && s.server.name == job.name
  {
    if PlainName(job.name) {
      PlainIsSane(job);
      var n := NumChunks(|job.file|);
      if n > 0 { SaneOpen(job, n - 1); }
      var s := LosslessRun(job, n);
      TransferComplete(job, s);
    } else {
      forall s | Reachable(job, s) ensures s.server.name != job.name {
        var es :| Run(job, INIT, es) == Next(s);
        WrongNameRun(job, es);
      }
    }
  }

  // --- Faults ----------------------------------------------------------------------------------

  // The first chunk that reaches the size the server expects.
  function Closing(job: Job, m: nat, bound: nat): (c: nat)
    requires Announced(job).Some? && 1 <= m <= bound && !StaysOpen(job, bound)
    requires StaysOpen(job, m - 1)
    ensures m <= c <= bound && !StaysOpen(job, c) && StaysOpen(job, c - 1)
    decreases bound - m
  {
    if StaysOpen(job, m) then Closing(job, m + 1, bound) else m
  }

  lemma UnreadableFaults(job: Job)
    requires Announced(job).None?
    ensures Run(job, INIT, [Transmit, ServerReceives]).Fault?
  {
    hide Parse, Format;
    assert [Transmit, ServerReceives][..1] == [Transmit] && [Transmit][..0] == [];
    assert Run(job, INIT, []) == Next(INIT);
    assert INIT.data + [PacketOf(job, 0)] == [PacketOf(job, 0)];
    assert Run(job, INIT, [Transmit]) == Next(INIT.(client := Waiting(0, 1), data := [PacketOf(job, 0)], sent := 1));
  }

  // A file closed by chunk c is written to when chunk c + 1 comes.
  lemma ClosedEarlyFaults(job: Job, c: nat) returns (es: seq<Event>)
    requires Announced(job).Some? && 1 <= c < NumChunks(|job.file|)
    requires !StaysOpen(job, c) && StaysOpen(job, c - 1)
    ensures Run(job, INIT, es).Fault?
  {
    hide Parse, Format, Apply, ServerInv;
    var s := LosslessRun(job, c);
    var t := SendOnce(job, s, c + 1);
    WriteToClosed(job, t, c);
    var before :| Run(job, INIT, before) == Next(t);
    es := before + [ServerReceives];
    assert es[..|es| - 1] == before;
  }

  lemma WriteToClosed(job: Job, s: System, c: nat)
    requires c >= 1 && s.data == [PacketOf(job, c + 1)]
    requires ServerInv(job, s.server, c, s.writes, s.digests) && !StaysOpen(job, c)
    ensures Apply(job, s, ServerReceives).Fault?
  {
    hide Parse, Format;
  }

  ghost predicate NeverFaults(job: Job) { forall es :: !Run(job, INIT, es).Fault? }

  // The server can be made to fail in some run if and only if the first packet cannot be read
  // or announces a size that is reached before the last chunk. A name without blanks does
  // neither; of a name with blanks the second word is taken for the size.
  lemma NeverFaultsIff(job: Job)
    ensures NeverFaults(job) <==> Sane(job)
  {
    hide Parse, Format;
    if Sane(job) {
      forall es ensures !Run(job, INIT, es).Fault? {
        var m := RunKeeps(job, es);
      }
    } else if Announced(job).None? {
      UnreadableFaults(job);
    } else {
      var c := Closing(job, 1, NumChunks(|job.file|) - 1);
      var es := ClosedEarlyFaults(job, c);
    }
  }
}
