// The NBD side: vdr/os_proxy/os_proxy.cpp. Requests come in through the
// framing reader, replies go out through the queued writer. Field layout and
// payload rules of requests and simple replies are those of the NBD protocol
// document, section "Transmission phase".
module OsProxies {
  import opened Cipher
  import opened Timers
  import opened Protocol
  import opened TcpReaders
  import opened TcpWriters
  import opened Wire

  const NBD_REQUEST_MAGIC: nat := 0x25609513
  const NBD_REPLY_MAGIC: nat := 0x67446698
  const NBD_CMD_READ: nat := 0
  const NBD_CMD_WRITE: nat := 1
  const NBD_CMD_DISC: nat := 2
  const HDR_SIZE: nat := 28
  const REPLY_HDR_SIZE: nat := 16

  // ------------------------------------------------------------------
  // Requests, as the client writes them

  datatype NbdRequest = NbdRequest(kind: nat, id: ID, offset: nat, len: nat, data: Data) {
    // Only a write carries its len bytes.
    predicate Valid() {
      kind < U32 && id < U64 && offset < U64 && len < U32 && |data| == if kind == NBD_CMD_WRITE then len else 0
    }
  }

  function Header(r: NbdRequest): (d: Data)
    ensures |d| == HDR_SIZE
  {
    BigEndian(NBD_REQUEST_MAGIC, 4) + BigEndian(r.kind, 4) + BigEndian(r.id, 8) + BigEndian(r.offset, 8) + BigEndian(r.len, 4)
  }

  function EncodeNbd(r: NbdRequest): Data {
    Header(r) + r.data
  }

  function EncodeAll(rs: seq<NbdRequest>): (packets: seq<Data>)
    ensures |packets| == |rs|
  {
    seq(|rs|, i requires 0 <= i < |rs| => EncodeNbd(rs[i]))
  }

  // The fields of struct nbd_request.
  function Magic(h: Data): nat requires |h| >= HDR_SIZE { Value(h[..4]) }
  function Kind(h: Data): nat requires |h| >= HDR_SIZE { Value(h[4..8]) }
  function Handle(h: Data): ID requires |h| >= HDR_SIZE { Value(h[8..16]) }
  function From(h: Data): nat requires |h| >= HDR_SIZE { Value(h[16..24]) }
  function Len(h: Data): nat requires |h| >= HDR_SIZE { Value(h[24..28]) }

  lemma HeaderFields(r: NbdRequest, tail: Data)
    requires r.Valid()
    ensures var h := Header(r) + tail;
            Magic(h) == NBD_REQUEST_MAGIC && Kind(h) == r.kind && Handle(h) == r.id && From(h) == r.offset && Len(h) == r.len
  {
    hide BigEndian, Value, Range;
    Ranges();
    var h := Header(r) + tail;
    assert h[..4] == BigEndian(NBD_REQUEST_MAGIC, 4);
    assert h[4..8] == BigEndian(r.kind, 4);
    assert h[8..16] == BigEndian(r.id, 8);
    assert h[16..24] == BigEndian(r.offset, 8);
    assert h[24..28] == BigEndian(r.len, 4);
    ValueOfBigEndian(NBD_REQUEST_MAGIC, 4);
    ValueOfBigEndian(r.kind, 4);
    ValueOfBigEndian(r.id, 8);
    ValueOfBigEndian(r.offset, 8);
    ValueOfBigEndian(r.len, 4);
  }

  lemma RequestMagic()
    ensures BigEndian(NBD_REQUEST_MAGIC, 4) == [0x25, 0x60, 0x95, 0x13]
  {
    hide BigEndian, ToByte;
    HighByteFirst(0x25, 0x60, 0x95, 0x13, 0x2560, NBD_REQUEST_MAGIC);
    SameByte(ToByte(0x25), 0x25);
    SameByte(ToByte(0x60), 0x60);
    SameByte(ToByte(0x95), 0x95);
    SameByte(ToByte(0x13), 0x13);
  }

  // Where they lie: the client's magic number first, high byte first.
  lemma NbdRequestLayout(r: NbdRequest)
    ensures var h := Header(r);
            && h[..4] == [0x25, 0x60, 0x95, 0x13] && h[4..8] == BigEndian(r.kind, 4)
            && h[8..16] == BigEndian(r.id, 8) && h[16..24] == BigEndian(r.offset, 8) && h[24..] == BigEndian(r.len, 4)
  {
    RequestMagic();
    hide BigEndian;
  }

  // ------------------------------------------------------------------
  // Framing

  // OnHeaderCB: every request but a read is taken to carry len bytes.
  function PacketSize(h: Data): (n: nat)
    ensures n >= HDR_SIZE
  {
    if |h| < HDR_SIZE || Kind(h) == NBD_CMD_READ then HDR_SIZE else HDR_SIZE + Len(h)
  }

  const NBD_SIZER: Sizer := h => PacketSize(h)

  lemma NbdSizerOk()
    ensures SizerOk(HDR_SIZE, NBD_SIZER)
  {
  }

  ghost function Packets(bytes: Data): Parsed {
    NbdSizerOk();
    Parse(HDR_SIZE, NBD_SIZER, bytes)
  }

  // The reader and the client agree on where this request ends.
  predicate Framed(r: NbdRequest) {
    r.kind == NBD_CMD_READ || r.kind == NBD_CMD_WRITE || r.len == 0
  }

  lemma SizeOfEncoded(r: NbdRequest, tail: Data)
    requires r.Valid()
    ensures (EncodeNbd(r) + tail)[..HDR_SIZE] == Header(r)
    ensures PacketSize(Header(r)) == |EncodeNbd(r)| <==> Framed(r)
  {
    HeaderFields(r, []);
    assert Header(r) + [] == Header(r);
    assert (EncodeNbd(r) + tail)[..HDR_SIZE] == Header(r);
  }

  // The reader finds exactly the client's requests in the client's stream if
  // and only if every request with a length is a read or a write (a trim of
  // 4096 bytes, say, would swallow what follows it).
  lemma {:induction false} StreamFramed(rs: seq<NbdRequest>)
    requires forall r :: r in rs ==> r.Valid()
    ensures Packets(Concat(EncodeAll(rs))) == Parsed(EncodeAll(rs), []) <==> forall r :: r in rs ==> Framed(r)
  {
    NbdSizerOk();
    hide Parse, PacketSize, Header;
    if rs == [] {
      ParseStep(HDR_SIZE, NBD_SIZER, []);
    } else {
      var r, first, more := rs[0], EncodeNbd(rs[0]), EncodeAll(rs[1..]);
      var stream := Concat(EncodeAll(rs));
      assert EncodeAll(rs)[1..] == more;
      assert stream == first + Concat(more);
      SizeOfEncoded(r, Concat(more));
      ParseStep(HDR_SIZE, NBD_SIZER, stream);
      StreamFramed(rs[1..]);
      if Framed(r) {
        assert stream[..|first|] == first && stream[|first|..] == Concat(more);
        assert EncodeAll(rs) == [first] + more;
        FramedRest(rs, Packets(Concat(more)).packets, more);
      } else {
        assert r in rs;
        FirstPacketDiffers(stream, EncodeAll(rs));
      }
    }
  }

  lemma FramedRest(rs: seq<NbdRequest>, found: seq<Data>, more: seq<Data>)
    requires rs != [] && Framed(rs[0])
    ensures [EncodeNbd(rs[0])] + found == [EncodeNbd(rs[0])] + more <==> found == more
    ensures (forall r :: r in rs ==> Framed(r)) <==> (forall r :: r in rs[1..] ==> Framed(r))
  {
    hide EncodeNbd, Framed;
    var head := [EncodeNbd(rs[0])];
    assert (head + found)[1..] == found && (head + more)[1..] == more;
    assert rs == [rs[0]] + rs[1..];
  }

  lemma FirstPacketDiffers(stream: Data, packets: seq<Data>)
    requires packets != [] && |packets[0]| >= HDR_SIZE && |stream| >= HDR_SIZE
    requires PacketSize(stream[..HDR_SIZE]) != |packets[0]|
    ensures Packets(stream).packets != packets
  {
    NbdSizerOk();
    hide Parse, PacketSize;
    ParseStep(HDR_SIZE, NBD_SIZER, stream);
  }

  // ------------------------------------------------------------------
  // What a packet makes the proxy do

  datatype Call =
    | CallRead(id: ID, size: nat, offset: nat)
    | CallWrite(id: ID, data: Data, offset: nat)
    | CallDisconnect
    | CallReplyRest

  datatype Proxy = Running | Exited | Aborted

  // OnPacketCB; None where an assertion fails.
  function OnPacket(packet: Data): Option<Call>
    requires |packet| >= HDR_SIZE
  {
    if Magic(packet) != NBD_REQUEST_MAGIC || Len(packet) !in {0x1000, 0} then None
    else if Kind(packet) == NBD_CMD_READ then Some(CallRead(Handle(packet), Len(packet), From(packet)))
    else if Kind(packet) == NBD_CMD_WRITE then Some(CallWrite(Handle(packet), packet[HDR_SIZE..], From(packet)))
    else if Kind(packet) == NBD_CMD_DISC then Some(CallDisconnect)
    else Some(CallReplyRest)
  }

  function AfterPacket(was: (seq<Call>, Proxy), packet: Data): (seq<Call>, Proxy)
    requires |packet| >= HDR_SIZE
  {
    if was.1 != Running then was
    else match OnPacket(packet)
      case None => (was.0, Aborted)
      case Some(call) => (was.0 + [call], if call == CallDisconnect then Exited else Running)
  }

  function AfterPackets(was: (seq<Call>, Proxy), packets: seq<Data>): (seq<Call>, Proxy)
    requires forall p :: p in packets ==> |p| >= HDR_SIZE
    decreases |packets|
  {
    if packets == [] then was
    else
      var last := packets[|packets| - 1];
      AfterPacket(AfterPackets(was, packets[..|packets| - 1]), last)
  }

  lemma OneMorePacket(was: (seq<Call>, Proxy), packets: seq<Data>, packet: Data)
    requires |packet| >= HDR_SIZE && forall p :: p in packets ==> |p| >= HDR_SIZE
    ensures AfterPackets(was, packets + [packet]) == AfterPacket(AfterPackets(was, packets), packet)
  {
    assert (packets + [packet])[..|packets|] == packets;
  }

  // What the client asked for; requests of other kinds are only logged.
  function Meant(r: NbdRequest): Call {
    if r.kind == NBD_CMD_READ then CallRead(r.id, r.len, r.offset)
    else if r.kind == NBD_CMD_WRITE then CallWrite(r.id, r.data, r.offset)
    else if r.kind == NBD_CMD_DISC then CallDisconnect
    else CallReplyRest
  }

  function AllMeant(rs: seq<NbdRequest>): seq<Call> {
    seq(|rs|, i requires 0 <= i < |rs| => Meant(rs[i]))
  }

  // OnPacketCB asserts that a request is for one block or for nothing.
  predicate Accepted(r: NbdRequest) {
    r.len in {0, 0x1000}
  }

  // The process goes on after it.
  predicate GoesOn(r: NbdRequest) {
    Accepted(r) && r.kind != NBD_CMD_DISC
  }

  // How many requests come before the first that ends it.
  function Served(rs: seq<NbdRequest>): (k: nat)
    ensures k <= |rs| && (forall i :: 0 <= i < k ==> GoesOn(rs[i])) && (k < |rs| ==> !GoesOn(rs[k]))
  {
    if rs == [] || !GoesOn(rs[0]) then 0 else 1 + Served(rs[1..])
  }

  // Those are dealt with as they were meant. The next one ends the process: by
  // its wish if it is a disconnect request, by an assertion if it is refused.
  function Outcome(rs: seq<NbdRequest>): (seq<Call>, Proxy) {
    var k := Served(rs);
    if k == |rs| then (AllMeant(rs), Running)
    else if Accepted(rs[k]) then (AllMeant(rs[..k]) + [CallDisconnect], Exited)
    else (AllMeant(rs[..k]), Aborted)
  }

  lemma FirstToEnd(rs: seq<NbdRequest>, k: nat)
    requires k <= |rs| && (forall i :: 0 <= i < k ==> GoesOn(rs[i])) && (k < |rs| ==> !GoesOn(rs[k]))
    ensures Served(rs) == k
  {
  }

  lemma OneMoreServed(init: seq<NbdRequest>, last: NbdRequest)
    ensures var k := Served(init);
            Served(init + [last]) == if k < |init| then k else if GoesOn(last) then k + 1 else k
  {
    var rs, k := init + [last], Served(init);
    assert forall i :: 0 <= i < |init| ==> rs[i] == init[i];
    FirstToEnd(rs, if k < |init| then k else if GoesOn(last) then k + 1 else k);
  }

  lemma {:induction false} AllServed(rs: seq<NbdRequest>)
    requires forall r :: r in rs ==> r.Valid() && Framed(r)
    ensures forall p :: p in EncodeAll(rs) ==> |p| >= HDR_SIZE
    ensures AfterPackets(([], Running), EncodeAll(rs)) == Outcome(rs)
  {
    hide Accepted, GoesOn, Framed, NbdRequest.Valid, EncodeNbd, OnPacket, Served;
    if rs == [] {
      assert EncodeAll(rs) == [] && AllMeant(rs) == [];
    } else {
      var init, last := rs[..|rs| - 1], rs[|rs| - 1];
      AllServed(init);
      assert EncodeAll(rs) == EncodeAll(init) + [EncodeNbd(last)];
      assert EncodeAll(rs)[..|rs| - 1] == EncodeAll(init);
      AsMeant(last);
      assert rs == init + [last];
      OutcomeMore(init, last);
    }
  }

  lemma OutcomeMore(init: seq<NbdRequest>, last: NbdRequest)
    ensures var (calls, state) := Outcome(init);
            Outcome(init + [last]) ==
            if state != Running then (calls, state)
            else if !Accepted(last) then (calls, Aborted)
            else (calls + [Meant(last)], if Meant(last) == CallDisconnect then Exited else Running)
  {
    hide Served, Accepted;
    OneMoreServed(init, last);
    var rs, k := init + [last], Served(init);
    assert rs[..k] == init[..k];
    if k == |init| {
      assert init[..k] == init && AllMeant(rs) == AllMeant(init) + [Meant(last)];
    }
  }

  // What OnPacketCB makes of a client's request.
  lemma AsMeant(r: NbdRequest)
    requires r.Valid() && Framed(r)
    ensures |EncodeNbd(r)| >= HDR_SIZE
    ensures OnPacket(EncodeNbd(r)) ==
            if r.len != 0 && r.len != 4096 then None
            else if r.kind == 0 then Some(CallRead(r.id, r.len, r.offset))
            else if r.kind == 1 then Some(CallWrite(r.id, r.data, r.offset))
            else if r.kind == 2 then Some(CallDisconnect)
            else Some(CallReplyRest)
    ensures OnPacket(EncodeNbd(r)) == if Accepted(r) then Some(Meant(r)) else None
  {
    HeaderFields(r, r.data);
    assert EncodeNbd(r)[HDR_SIZE..] == r.data;
  }

  // However the stream of a client's requests is cut into chunks, exactly those
  // before the first that ends the process are dealt with, in order: reads and
  // writes are passed to the master, others ignored. The process then has
  // exited if that first one is a disconnect request of an accepted length,
  // and aborted if it is of a refused one.
  lemma RequestsReachTheMaster(rs: seq<NbdRequest>, chunks: seq<Data>)
    requires forall r :: r in rs ==> r.Valid() && Framed(r)
    requires Concat(chunks) == Concat(EncodeAll(rs))
    ensures SizerOk(HDR_SIZE, NBD_SIZER)
    ensures var p := Feed(HDR_SIZE, NBD_SIZER, Parsed([], []), chunks);
            && p == Parsed(EncodeAll(rs), [])
            && (forall d :: d in p.packets ==> |d| >= HDR_SIZE)
            && AfterPackets(([], Running), p.packets) == Outcome(rs)
  {
    NbdSizerOk();
    hide Parse, Feed, AfterPackets, Header, EncodeNbd, PacketSize, Outcome, Framed, NbdRequest.Valid;
    StreamFramed(rs);
    AllServed(rs);
    ParseStep(HDR_SIZE, NBD_SIZER, []);
    ChunkIndependent(HDR_SIZE, NBD_SIZER, [], chunks);
    assert [] + Concat(chunks) == Concat(chunks);
  }

  // At any moment before the end of the stream, the same of a prefix.
  lemma PrefixReachesTheMaster(rs: seq<NbdRequest>, bytes: Data, rest: Data)
    requires forall r :: r in rs ==> r.Valid() && Framed(r)
    requires bytes + rest == Concat(EncodeAll(rs))
    ensures var n := |Packets(bytes).packets|;
            && n <= |rs| && Packets(bytes).packets == EncodeAll(rs[..n])
            && (forall d :: d in Packets(bytes).packets ==> |d| >= HDR_SIZE)
            && AfterPackets(([], Running), Packets(bytes).packets) == Outcome(rs[..n])
  {
    NbdSizerOk();
    hide Parse, Feed, AfterPackets, Header, EncodeNbd, PacketSize, Outcome, Framed, NbdRequest.Valid;
    StreamFramed(rs);
    ParseMore(HDR_SIZE, NBD_SIZER, bytes, rest);
    var n := |Packets(bytes).packets|;
    assert Packets(bytes).packets == EncodeAll(rs)[..n] == EncodeAll(rs[..n]);
    AllServed(rs[..n]);
  }

  // All of a client's requests are dealt with exactly if each is for one block
  // or for nothing, and none disconnects.
  lemma ServedIff(rs: seq<NbdRequest>)
    requires forall r :: r in rs ==> r.Valid() && Framed(r)
    ensures forall p :: p in EncodeAll(rs) ==> |p| >= HDR_SIZE
    ensures AfterPackets(([], Running), EncodeAll(rs)) == (AllMeant(rs), Running) <==>
            forall r :: r in rs ==> (r.len == 0 || r.len == 4096) && r.kind != 2
  {
    assert forall r :: GoesOn(r) <==> (r.len == 0 || r.len == 4096) && r.kind != 2;
    hide AfterPackets, EncodeAll, Framed, NbdRequest.Valid, GoesOn, AllMeant;
    AllServed(rs);
    assert Served(rs) < |rs| ==> rs[Served(rs)] in rs;
  }

  // A read of two blocks is one that is refused.
  lemma LongRead(id: ID, offset: nat)
    requires id < U64 && offset < U64
    ensures var r := NbdRequest(NBD_CMD_READ, id, offset, 8192, []);
            r.Valid() && Framed(r) && |EncodeNbd(r)| >= HDR_SIZE && AfterPacket(([], Running), EncodeNbd(r)) == ([], Aborted)
  {
    AsMeant(NbdRequest(NBD_CMD_READ, id, offset, 8192, []));
  }

  // The master takes a write's BLOCK_SIZE bytes from its packet without
  // looking at their number: the packet holds them exactly if the write has
  // the length of a block. One of length 0, accepted too, has none.
  predicate Whole(call: Call) {
    call.CallWrite? ==> |call.data| == BLOCK_SIZE
  }

  lemma WritesAreWhole(rs: seq<NbdRequest>)
    requires forall r :: r in rs ==> r.Valid() && Framed(r)
    ensures (forall call :: call in Outcome(rs).0 ==> Whole(call)) <==>
            forall i :: 0 <= i < Served(rs) && rs[i].kind == NBD_CMD_WRITE ==> rs[i].len != 0
  {
    var calls := Outcome(rs).0;
    forall i | 0 <= i < Served(rs) ensures calls[i] in calls && (Whole(calls[i]) <==> rs[i].kind == NBD_CMD_WRITE ==> rs[i].len != 0) {
      assert rs[i] in rs && Accepted(rs[i]);
    }
  }

  // ------------------------------------------------------------------
  // Replies

  predicate ValidReply(r: OsReply) {
    r.id < U64 && -0x8000_0000 <= r.status < 0x8000_0000 && (r.ReadDone? ==> |r.data| == BLOCK_SIZE)
  }

  function ReplyHeader(id: ID, status: int): (d: Data)
    ensures |d| == REPLY_HDR_SIZE
  {
    BigEndian(NBD_REPLY_MAGIC, 4) + BigEndian(ToUnsigned(status), 4) + BigEndian(id, 8)
  }

  lemma ReplyMagic()
    ensures BigEndian(NBD_REPLY_MAGIC, 4) == [0x67, 0x44, 0x66, 0x98]
  {
    hide BigEndian, ToByte;
    HighByteFirst(0x67, 0x44, 0x66, 0x98, 0x6744, NBD_REPLY_MAGIC);
    SameByte(ToByte(0x67), 0x67);
    SameByte(ToByte(0x44), 0x44);
    SameByte(ToByte(0x66), 0x66);
    SameByte(ToByte(0x98), 0x98);
  }

  lemma NbdReplyLayout(id: ID, status: int)
    requires -0x8000_0000 <= status < 0x8000_0000
    ensures var h := ReplyHeader(id, status);
            && h[..4] == [0x67, 0x44, 0x66, 0x98] && h[8..] == BigEndian(id, 8)
            && h[4..8] == BigEndian(if status < 0 then status + 0x1_0000_0000 else status, 4)
  {
    ReplyMagic();
    hide BigEndian;
  }

  function EncodeNbdReply(r: OsReply): Data {
    ReplyHeader(r.id, r.status) + (if r.ReadDone? then r.data else [])
  }

  function EncodeReplies(rs: seq<OsReply>): seq<Data> {
    seq(|rs|, i requires 0 <= i < |rs| => EncodeNbdReply(rs[i]))
  }

  // What the client reads: a header, and behind it, if it answers a read and
  // carries no error, as many bytes as that read asked for.
  datatype Seen = Seen(id: ID, error: nat, data: Data)

  function DataSize(lens: map<ID, nat>, id: ID, error: nat): nat {
    if id in lens && error == 0 then lens[id] else 0
  }

  ghost function ClientParse(lens: map<ID, nat>, bytes: Data): Option<seq<Seen>>
    decreases |bytes|
  {
    if bytes == [] then Some([])
    else if |bytes| < REPLY_HDR_SIZE || Value(bytes[..4]) != NBD_REPLY_MAGIC then None
    else
      var error, id := Value(bytes[4..8]), Value(bytes[8..16]);
      var end := REPLY_HDR_SIZE + DataSize(lens, id, error);
      if |bytes| < end then None
      else match ClientParse(lens, bytes[end..])
        case None => None
        case Some(more) => Some([Seen(id, error, bytes[REPLY_HDR_SIZE..end])] + more)
  }

  // What the client should see of a reply.
  function Sight(r: OsReply): Seen {
    Seen(r.id, ToUnsigned(r.status), if r.ReadDone? && r.status == 0 then r.data else [])
  }

  function Sights(rs: seq<OsReply>): seq<Seen> {
    seq(|rs|, i requires 0 <= i < |rs| => Sight(rs[i]))
  }

  lemma ReplyFields(r: OsReply, tail: Data)
    requires ValidReply(r)
    ensures var bytes := EncodeNbdReply(r) + tail;
            && |bytes| >= REPLY_HDR_SIZE && Value(bytes[..4]) == NBD_REPLY_MAGIC
            && Value(bytes[4..8]) == ToUnsigned(r.status) && Value(bytes[8..16]) == r.id
  {
    hide BigEndian, Value, Range;
    Ranges();
    var bytes := EncodeNbdReply(r) + tail;
    assert bytes[..4] == BigEndian(NBD_REPLY_MAGIC, 4);
    assert bytes[4..8] == BigEndian(ToUnsigned(r.status), 4);
    assert bytes[8..16] == BigEndian(r.id, 8);
    ValueOfBigEndian(NBD_REPLY_MAGIC, 4);
    ValueOfBigEndian(ToUnsigned(r.status), 4);
    ValueOfBigEndian(r.id, 8);
  }

  // The length of the stream a client parsed can be read off what it saw.
  function SeenSize(seen: seq<Seen>): nat {
    if seen == [] then 0 else REPLY_HDR_SIZE + |seen[0].data| + SeenSize(seen[1..])
  }

  lemma {:induction false} ParsedSize(lens: map<ID, nat>, bytes: Data)
    ensures ClientParse(lens, bytes).Some? ==>
              var seen := ClientParse(lens, bytes).value;
              && SeenSize(seen) == |bytes|
              && forall x :: x in seen ==> |x.data| == DataSize(lens, x.id, x.error)
    decreases |bytes|
  {
    if ClientParse(lens, bytes).Some? && bytes != [] {
      var error, id := Value(bytes[4..8]), Value(bytes[8..16]);
      var end := REPLY_HDR_SIZE + DataSize(lens, id, error);
      ParsedSize(lens, bytes[end..]);
      var more := ClientParse(lens, bytes[end..]).value;
      assert ([Seen(id, error, bytes[REPLY_HDR_SIZE..end])] + more)[1..] == more;
    }
  }

  // The client knows its reads by their IDs.
  ghost predicate Answers(lens: map<ID, nat>, rs: seq<OsReply>) {
    forall r :: r in rs ==> ValidReply(r) && (r.ReadDone? <==> r.id in lens)
  }

  // A read that failed.
  predicate Failed(r: OsReply) {
    r.ReadDone? && r.status != 0
  }

  // A read of one block that succeeded, or a write.
  ghost predicate AsAsked(lens: map<ID, nat>, r: OsReply) {
    r.ReadDone? ==> !Failed(r) && r.id in lens && lens[r.id] == BLOCK_SIZE
  }

  lemma {:induction false} StreamSize(rs: seq<OsReply>)
    requires forall r :: r in rs ==> ValidReply(r)
    ensures SeenSize(Sights(rs)) <= |Concat(EncodeReplies(rs))|
    ensures SeenSize(Sights(rs)) == |Concat(EncodeReplies(rs))| <==> forall r :: r in rs ==> !Failed(r)
  {
    hide EncodeNbdReply, Sight, Failed, ValidReply;
    if rs != [] {
      var r, more := rs[0], rs[1..];
      StreamSize(more);
      assert Sights(rs)[1..] == Sights(more) && EncodeReplies(rs)[1..] == EncodeReplies(more);
      assert r in rs;
      ReplySize(r);
      assert (forall x :: x in rs ==> !Failed(x)) <==> !Failed(r) && (forall x :: x in more ==> !Failed(x)) by {
        assert rs == [r] + more;
      }
    }
  }

  lemma ReplySize(r: OsReply)
    requires ValidReply(r)
    ensures |EncodeNbdReply(r)| == REPLY_HDR_SIZE + |Sight(r).data| + if Failed(r) then BLOCK_SIZE else 0
  {
  }

  lemma ClientParseStep(lens: map<ID, nat>, bytes: Data)
    requires |bytes| >= REPLY_HDR_SIZE && Value(bytes[..4]) == NBD_REPLY_MAGIC
    ensures var error, id := Value(bytes[4..8]), Value(bytes[8..16]);
            var end := REPLY_HDR_SIZE + DataSize(lens, id, error);
            |bytes| >= end ==>
              var later := ClientParse(lens, bytes[end..]);
              ClientParse(lens, bytes) ==
                if later.None? then None else Some([Seen(id, error, bytes[REPLY_HDR_SIZE..end])] + later.value)
  {
  }

  lemma NoError(r: OsReply)
    requires ValidReply(r)
    ensures ToUnsigned(r.status) == 0 <==> r.status == 0
  {
  }

  ghost predicate Readable(lens: map<ID, nat>, r: OsReply) {
    ValidReply(r) && (r.ReadDone? <==> r.id in lens) && AsAsked(lens, r)
  }

  // Reading one reply off the front of a stream.
  lemma ParseOne(lens: map<ID, nat>, r: OsReply, more: Data)
    requires Readable(lens, r)
    ensures var later := ClientParse(lens, more);
            ClientParse(lens, EncodeNbdReply(r) + more) == if later.None? then None else Some([Sight(r)] + later.value)
  {
    hide ClientParse, BigEndian, Value, ToUnsigned;
    var first, stream := EncodeNbdReply(r), EncodeNbdReply(r) + more;
    ReplyFields(r, more);
    ClientParseStep(lens, stream);
    NoError(r);
    hide ReplyHeader;
    assert stream[|first|..] == more && stream[REPLY_HDR_SIZE..|first|] == Sight(r).data;
  }

  lemma {:induction false} GoodStreamParses(lens: map<ID, nat>, rs: seq<OsReply>)
    requires forall r :: r in rs ==> Readable(lens, r)
    ensures ClientParse(lens, Concat(EncodeReplies(rs))) == Some(Sights(rs))
  {
    assert ClientParse(lens, []) == Some([]);
    hide ClientParse, EncodeNbdReply, EncodeReplies, Sight, Sights, Readable;
    RepliesCons(rs);
    if rs != [] {
      assert rs[0] in rs;
      GoodStreamParses(lens, rs[1..]);
      ParseOne(lens, rs[0], Concat(EncodeReplies(rs[1..])));
    }
  }

  lemma RepliesCons(rs: seq<OsReply>)
    ensures rs == [] ==> Concat(EncodeReplies(rs)) == [] && Sights(rs) == []
    ensures rs != [] ==>
              && Concat(EncodeReplies(rs)) == EncodeNbdReply(rs[0]) + Concat(EncodeReplies(rs[1..]))
              && Sights(rs) == [Sight(rs[0])] + Sights(rs[1..])
  {
    hide EncodeNbdReply, Sight;
    if rs != [] {
      assert EncodeReplies(rs)[1..] == EncodeReplies(rs[1..]);
    }
  }

  // The client reads back exactly the replies, in the order they were made,
  // if and only if every read among them was of one block and succeeded: a
  // block of data follows the header of every read, where the client expects
  // as many bytes as it asked for, and none behind an error.
  lemma RepliesReachTheClient(lens: map<ID, nat>, rs: seq<OsReply>)
    requires Answers(lens, rs)
    ensures ClientParse(lens, Concat(EncodeReplies(rs))) == Some(Sights(rs)) <==> forall r :: r in rs ==> AsAsked(lens, r)
  {
    hide ClientParse, EncodeReplies, Concat;
    if forall r :: r in rs ==> AsAsked(lens, r) {
      GoodStreamParses(lens, rs);
    } else if ClientParse(lens, Concat(EncodeReplies(rs))) == Some(Sights(rs)) {
      StreamSize(rs);
      ParsedSize(lens, Concat(EncodeReplies(rs)));
      var r :| r in rs && !AsAsked(lens, r);
      SeenAsAsked(lens, rs, r);
    }
  }

  lemma SeenAsAsked(lens: map<ID, nat>, rs: seq<OsReply>, r: OsReply)
    requires Answers(lens, rs) && r in rs && !Failed(r)
    requires forall x :: x in Sights(rs) ==> |x.data| == DataSize(lens, x.id, x.error)
    ensures AsAsked(lens, r)
  {
    var i :| 0 <= i < |rs| && rs[i] == r;
    assert Sights(rs)[i] == Sight(r);
    assert Sight(r) in Sights(rs);
    NoError(r);
  }

  // A failed read of a block, and a successful read of length 0: the client
  // takes the data for the next header, and gives up.
  lemma MisreadData(id: ID, status: int, len: nat, data: Data)
    requires id < U64 && ((status == 1 && len == BLOCK_SIZE) || (status == 0 && len == 0))
    requires |data| == BLOCK_SIZE && Value(data[..4]) != NBD_REPLY_MAGIC
    ensures ClientParse(map[id := len], EncodeNbdReply(ReadDone(id, status, data))) == None
  {
    var lens, r := map[id := len], ReadDone(id, status, data);
    var stream := EncodeNbdReply(r);
    assert ClientParse(lens, data) == None;
    hide ClientParse, BigEndian, Value, ToUnsigned;
    assert stream + [] == stream;
    ReplyFields(r, []);
    NoError(r);
    ClientParseStep(lens, stream);
    hide ReplyHeader;
    assert stream[REPLY_HDR_SIZE..] == data;
  }

  // The reply to a read that a minion answered, at the front of the client's
  // stream: its header carries an error, 1, exactly if the minion's status was
  // not 0, whatever its number. Without one the client takes the block and
  // reads on behind it; with one it reads on right behind the header, where
  // the data begin.
  lemma MinionStatusSeen(lens: map<ID, nat>, id: ID, status: int, data: Data, rest: Data)
    requires id < U64 && |data| == BLOCK_SIZE && id in lens && lens[id] == BLOCK_SIZE
    ensures var stream := EncodeNbdReply(ReadDone(id, OsStatus(status), data)) + rest;
            && Value(stream[8..16]) == id && Value(stream[4..8]) == (if status == 0 then 0 else 1)
            && var later := ClientParse(lens, if status == 0 then rest else data + rest);
               ClientParse(lens, stream) ==
                 if later.None? then None
                 else Some([if status == 0 then Seen(id, 0, data) else Seen(id, 1, [])] + later.value)
  {
    var r := ReadDone(id, OsStatus(status), data);
    assert ToUnsigned(OsStatus(status)) == if status == 0 then 0 else 1;
    hide ClientParse, BigEndian, Value, ToUnsigned;
    ReplyFields(r, rest);
    hide ReplyHeader;
    ReadBehindHeader(lens, ReplyHeader(id, r.status), data, rest);
  }

  lemma ReadBehindHeader(lens: map<ID, nat>, header: Data, data: Data, rest: Data)
    requires |header| == REPLY_HDR_SIZE && |data| == BLOCK_SIZE
    requires var stream := header + data + rest;
             Value(stream[..4]) == NBD_REPLY_MAGIC && Value(stream[8..16]) in lens && lens[Value(stream[8..16])] == BLOCK_SIZE
    ensures var stream := header + data + rest;
            var error, id := Value(stream[4..8]), Value(stream[8..16]);
            var later := ClientParse(lens, if error == 0 then rest else data + rest);
            ClientParse(lens, stream) ==
              if later.None? then None
              else Some([Seen(id, error, if error == 0 then data else [])] + later.value)
  {
    hide ClientParse, Value;
    ClientParseStep(lens, header + data + rest);
    Slices(header, data, rest);
  }

  lemma Slices(header: Data, data: Data, rest: Data)
    requires |header| == REPLY_HDR_SIZE && |data| == BLOCK_SIZE
    ensures var stream := header + data + rest;
            && stream[REPLY_HDR_SIZE..] == data + rest && stream[REPLY_HDR_SIZE + BLOCK_SIZE..] == rest
            && stream[REPLY_HDR_SIZE..REPLY_HDR_SIZE + BLOCK_SIZE] == data
            && stream[REPLY_HDR_SIZE..REPLY_HDR_SIZE] == []
  {
  }

  // ------------------------------------------------------------------

  class OsProxy {
    const writer: TcpWriter
    var calls: seq<Call>              // made on the master, Disconnect and ReplyRest
    var state: Proxy
    ghost var handled: seq<Data>      // packets, in order
    ghost var replies: seq<OsReply>  // in completion order

    ghost predicate Valid()
      reads this, writer
    {
      && (forall p :: p in handled ==> |p| >= HDR_SIZE)
      && (calls, state) == AfterPackets(([], Running), handled)
      && writer.Valid() && writer.accepted == Concat(EncodeReplies(replies))
    }

    constructor ()
      ensures Valid() && fresh(writer) && handled == [] && replies == []
    {
      writer := new TcpWriter();
      calls, state, handled, replies := [], Running, [], [];
    }

    method OnHeaderCB(header: Data) returns (aborts: bool, n: nat)
      requires |header| == HDR_SIZE
      ensures aborts <==> Magic(header) != NBD_REQUEST_MAGIC
      ensures n == NBD_SIZER(header)
    {
      aborts := Value(header[..4]) != NBD_REQUEST_MAGIC;
      if Value(header[4..8]) == NBD_CMD_READ {
        return aborts, HDR_SIZE;
      }
      return aborts, HDR_SIZE + Value(header[24..28]);
    }

    method OnPacketCB(packet: Data)
      requires Valid() && state == Running && |packet| >= HDR_SIZE
      modifies this`calls, this`state, this`handled
      ensures Valid() && handled == old(handled) + [packet]
    {
      hide Magic, Kind, Handle, From, Len, Value, AfterPackets, Concat, TcpWriter.Valid;
      OneMorePacket(([], Running), handled, packet);
      handled := handled + [packet];
      if Magic(packet) != NBD_REQUEST_MAGIC || !(Len(packet) == 0x1000 || Len(packet) == 0) {
        state := Aborted;
        return;
      }
      var kind := Kind(packet);
      if kind == NBD_CMD_READ {
        calls := calls + [CallRead(Handle(packet), Len(packet), From(packet))];
      } else if kind == NBD_CMD_WRITE {
        calls := calls + [CallWrite(Handle(packet), packet[HDR_SIZE..], From(packet))];
      } else if kind == NBD_CMD_DISC {
        calls, state := calls + [CallDisconnect], Exited;
      } else {
        calls := calls + [CallReplyRest];
      }
    }

    method SendNbdReply(id: ID, status: int)
      requires writer.Valid()
      modifies writer
      ensures writer.Valid() && writer.accepted == old(writer.accepted) + ReplyHeader(id, status)
    {
      writer.Write(BigEndian(NBD_REPLY_MAGIC, 4) + BigEndian(ToUnsigned(status), 4) + BigEndian(id, 8));
    }

    // Replies are queued whole: each read's data right behind its header.
    method ReplyRead(id: ID, status: int, data: Data)
      requires Valid()
      modifies writer, this`replies
      ensures Valid() && replies == old(replies) + [ReadDone(id, status, data)]
    {
      hide AfterPackets, Concat, BigEndian;
      SendNbdReply(id, status);
      writer.Write(data);
      assert writer.accepted == old(writer.accepted) + (ReplyHeader(id, status) + data);
      Queued(ReadDone(id, status, data));
    }

    method ReplyWrite(id: ID, status: int)
      requires Valid()
      modifies writer, this`replies
      ensures Valid() && replies == old(replies) + [WriteDone(id, status)]
    {
      SendNbdReply(id, status);
      Queued(WriteDone(id, status));
    }

    ghost method Queued(r: OsReply)
      requires (forall p :: p in handled ==> |p| >= HDR_SIZE) && (calls, state) == AfterPackets(([], Running), handled)
      requires writer.Valid() && writer.accepted == Concat(EncodeReplies(replies)) + EncodeNbdReply(r)
      modifies this`replies
      ensures Valid() && replies == old(replies) + [r]
    {
      hide AfterPackets, Concat, EncodeNbdReply, TcpWriter.Valid;
      ConcatMore(EncodeReplies(replies), EncodeNbdReply(r));
      assert EncodeReplies(replies + [r]) == EncodeReplies(replies) + [EncodeNbdReply(r)];
      replies := replies + [r];
    }
  }
}
