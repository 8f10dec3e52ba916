// The datagrams between master and minions: structs request and reply of
// vdr/include/protocols.hpp, filled and read by vdr/minion_proxy and
// minion/master_proxy.
module Wire {
  import opened Cipher
  import opened Timers
  import opened Protocol
  import opened Systems

  // ------------------------------------------------------------------
  // Big-endian integers

  function Range(n: nat): (r: nat)
    ensures r > 0
  {
    if n == 0 then 1 else 256 * Range(n - 1)
  }

  function BigEndian(x: nat, n: nat): (d: Data)
    ensures |d| == n
  {
    if n == 0 then [] else BigEndian(x / 256, n - 1) + [ToByte(x % 256)]
  }

  function Value(d: Data): nat {
    if d == [] then 0 else Value(d[..|d| - 1]) * 256 + d[|d| - 1] as nat
  }

  lemma ValueMore(d: Data, b: Byte)
    ensures Value(d + [b]) == Value(d) * 256 + b as nat
  {
    assert (d + [b])[..|d|] == d;
  }

  lemma Digits(high: nat, low: nat)
    requires low < 256
    ensures (high * 256 + low) / 256 == high && (high * 256 + low) % 256 == low
  {
  }

  lemma BigEndianDigits(high: nat, low: nat, n: nat)
    requires low < 256
    ensures BigEndian(high * 256 + low, n + 1) == BigEndian(high, n) + [ToByte(low)]
  {
    Digits(high, low);
  }

  lemma BigEndianMore(high: nat, b: Byte, n: nat)
    ensures BigEndian(high * 256 + b as nat, n + 1) == BigEndian(high, n) + [b]
  {
    hide BigEndian;
    BigEndianDigits(high, b as nat, n);
    SameByte(ToByte(b as nat), b);
  }

  lemma RangeMore(high: nat, b: Byte, n: nat)
    requires high < Range(n)
    ensures high * 256 + b as nat < Range(n + 1)
  {
  }

  lemma HighDigits(x: nat, n: nat)
    requires n > 0 && x < Range(n)
    ensures x / 256 < Range(n - 1) && x / 256 * 256 + ToByte(x % 256) as nat == x
  {
  }

  lemma NothingBack(x: nat)
    requires x < Range(0)
    ensures Value(BigEndian(x, 0)) == x
  {
  }

  lemma {:induction false} ValueOfBigEndian(x: nat, n: nat)
    requires x < Range(n)
    ensures Value(BigEndian(x, n)) == x
  {
    hide Value, BigEndian, Range, ToByte;
    if n == 0 {
      NothingBack(x);
    } else {
      var high, b := x / 256, ToByte(x % 256);
      HighDigits(x, n);
      ValueOfBigEndian(high, n - 1);
      BigEndianMore(high, b, n - 1);
      ValueMore(BigEndian(high, n - 1), b);
    }
  }

  lemma {:induction false} BigEndianOfValue(d: Data)
    ensures Value(d) < Range(|d|) && BigEndian(Value(d), |d|) == d
  {
    if d == [] {
      assert BigEndian(0, 0) == [];
    } else {
      hide Value, BigEndian, Range;
      var init, last := d[..|d| - 1], d[|d| - 1];
      assert d == init + [last];
      BigEndianOfValue(init);
      ValueMore(init, last);
      BigEndianMore(Value(init), last, |init|);
      RangeMore(Value(init), last, |init|);
    }
  }

  const U32: nat := 0x1_0000_0000
  const U64: nat := 0x1_0000_0000_0000_0000

  lemma Ranges()
    ensures Range(4) == U32 && Range(8) == U64
  {
    assert Range(1) == 256 && Range(2) == 0x1_0000 && Range(3) == 0x100_0000 && Range(4) == U32;
    assert Range(5) == 0x100_0000_0000 && Range(6) == 0x1_0000_0000_0000 && Range(7) == 0x100_0000_0000_0000;
  }

  lemma NoDigits()
    ensures BigEndian(0, 0) == []
  {
  }

  lemma TwoDigits(x: nat, a: nat, b: nat, n: nat)
    requires a < 256 && b < 256
    ensures BigEndian((x * 256 + a) * 256 + b, n + 2) == BigEndian(x, n) + [ToByte(a), ToByte(b)]
  {
    hide BigEndian, ToByte;
    BigEndianDigits(x, a, n);
    BigEndianDigits(x * 256 + a, b, n + 1);
  }

  // The most significant byte comes first ...
  lemma HighByteFirst(a: nat, b: nat, c: nat, d: nat, high: nat, x: nat)
    requires a < 256 && b < 256 && c < 256 && d < 256
    requires high == a * 256 + b && x == (high * 256 + c) * 256 + d
    ensures BigEndian(x, 4) == [ToByte(a), ToByte(b), ToByte(c), ToByte(d)]
  {
    hide BigEndian, ToByte;
    FirstTwo(a, b);
    LastTwo([ToByte(a), ToByte(b)], c, d, high, x);
  }

  lemma LastTwo(first: Data, c: nat, d: nat, high: nat, x: nat)
    requires c < 256 && d < 256 && x == (high * 256 + c) * 256 + d && BigEndian(high, 2) == first
    ensures BigEndian(x, 4) == first + [ToByte(c), ToByte(d)]
  {
    hide BigEndian, ToByte;
    TwoDigits(high, c, d, 2);
  }

  lemma FirstTwo(a: nat, b: nat)
    requires a < 256 && b < 256
    ensures BigEndian(a * 256 + b, 2) == [ToByte(a), ToByte(b)]
  {
    hide BigEndian, ToByte;
    NoDigits();
    TwoDigits(0, a, b, 0);
  }

  function ShiftedBy(high: nat, n: nat): nat {
    if n == 0 then high else 256 * ShiftedBy(high, n - 1)
  }

  lemma {:induction false} HighBytesFirst(high: nat, low: nat, n: nat)
    requires low < Range(n)
    ensures BigEndian(ShiftedBy(high, n) + low, 4 + n) == BigEndian(high, 4) + BigEndian(low, n)
  {
    hide BigEndian, ToByte;
    if n == 0 {
      NoDigits();
    } else {
      ShiftedOnce(high, low, n);
      hide Range, ShiftedBy;
      HighBytesFirst(high, low / 256, n - 1);
      BigEndianDigits(ShiftedBy(high, n - 1) + low / 256, low % 256, 3 + n);
      BigEndianDigits(low / 256, low % 256, n - 1);
    }
  }

  lemma ShiftedOnce(high: nat, low: nat, n: nat)
    requires n > 0 && low < Range(n)
    ensures low / 256 < Range(n - 1)
    ensures ShiftedBy(high, n) + low == (ShiftedBy(high, n - 1) + low / 256) * 256 + low % 256
  {
  }

  // ... and so does the more significant half of eight.
  lemma HighHalfFirst(high: nat, low: nat)
    requires low < U32
    ensures BigEndian(high * U32 + low, 8) == BigEndian(high, 4) + BigEndian(low, 4)
  {
    hide BigEndian;
    Ranges();
    assert ShiftedBy(high, 1) == high * 0x100 && ShiftedBy(high, 2) == high * 0x1_0000 && ShiftedBy(high, 3) == high * 0x100_0000;
    HighBytesFirst(high, low, 4);
  }

  // int to uint32_t and back, as htonl and ntohl convert.
  function ToUnsigned(x: int): nat {
    x % U32
  }

  function ToSigned(u: nat): int {
    if u < 0x8000_0000 then u else u - U32
  }

  // ------------------------------------------------------------------
  // Struct request: type, ID, four bytes of padding, block number, data.

  const READ: nat := 0
  const WRITE: nat := 1
  const ID_SIZE: nat := 8
  const REQUEST_SIZE: nat := 4120
  const REPLY_SIZE: nat := 4112

  // A message fits the wire's fields.
  predicate Fits(msg: Msg) {
    msg.id < U64 && msg.slot < U64 && (msg.WriteMsg? ==> |msg.data| == BLOCK_SIZE)
  }

  // The bytes of a request. Padding, and the data of a read, are whatever
  // was in memory.
  function EncodeRequest(msg: Msg, padding: Data, memory: Data): Data {
    BigEndian(if msg.ReadMsg? then READ else WRITE, 4) + BigEndian(msg.id, ID_SIZE) + padding
    + BigEndian(msg.slot, 8) + (if msg.ReadMsg? then memory else msg.data)
  }

  lemma SmallNumber(n: nat)
    requires n < 256
    ensures BigEndian(n, 4) == [0, 0, 0, ToByte(n)] && ToByte(0) == 0 && ToByte(1) == 1
  {
    HighByteFirst(0, 0, 0, n, 0, n);
  }

  // Where the fields of struct request lie.
  lemma RequestLayout(msg: Msg, padding: Data, memory: Data)
    requires Fits(msg) && |padding| == 4 && |memory| == BLOCK_SIZE
    ensures var d := EncodeRequest(msg, padding, memory);
            && |d| == 4120
            && d[..4] == [0, 0, 0, if msg.ReadMsg? then 0 else 1]
            && d[4..12] == BigEndian(msg.id, 8) && d[12..16] == padding && d[16..24] == BigEndian(msg.slot, 8)
            && d[24..] == if msg.ReadMsg? then memory else msg.data
  {
    hide BigEndian, ToByte;
    SmallNumber(0);
    SmallNumber(1);
  }

  // What the minion makes of a datagram; None where it throws.
  function DecodeRequest(d: Data): Option<Msg>
    requires |d| == REQUEST_SIZE
  {
    var id, slot := Value(d[4..12]), Value(d[16..24]);
    var kind := Value(d[..4]);
    if kind == READ then Some(ReadMsg(id, slot))
    else if kind == WRITE then Some(WriteMsg(id, slot, d[24..]))
    else None
  }

  lemma RequestRoundTrip(msg: Msg, padding: Data, memory: Data)
    requires Fits(msg) && |padding| == 4 && |memory| == BLOCK_SIZE
    ensures var d := EncodeRequest(msg, padding, memory);
            |d| == REQUEST_SIZE && DecodeRequest(d) == Some(msg)
  {
    hide BigEndian, Value, Range;
    Ranges();
    var d := EncodeRequest(msg, padding, memory);
    var kind := if msg.ReadMsg? then READ else WRITE;
    assert d[..4] == BigEndian(kind, 4);
    assert d[4..12] == BigEndian(msg.id, ID_SIZE);
    assert d[16..24] == BigEndian(msg.slot, 8);
    assert d[24..] == if msg.ReadMsg? then memory else msg.data;
    ValueOfBigEndian(kind, 4);
    ValueOfBigEndian(msg.id, ID_SIZE);
    ValueOfBigEndian(msg.slot, 8);
  }

  // ------------------------------------------------------------------
  // Struct reply: status, type, ID, data.

  predicate ReplyFits(rep: Reply) {
    && rep.id < U64 && -0x8000_0000 <= rep.status < 0x8000_0000
    && (rep.ReadReply? ==> |rep.data| == BLOCK_SIZE)
  }

  function EncodeReply(rep: Reply, memory: Data): Data {
    BigEndian(ToUnsigned(rep.status), 4) + BigEndian(if rep.ReadReply? then READ else WRITE, 4)
    + BigEndian(rep.id, ID_SIZE) + (if rep.ReadReply? then rep.data else memory)
  }

  // Where the fields of struct reply lie; the status is in two's complement.
  lemma ReplyLayout(rep: Reply, memory: Data)
    requires ReplyFits(rep) && |memory| == BLOCK_SIZE
    ensures var d := EncodeReply(rep, memory);
            && |d| == 4112
            && d[..4] == BigEndian(if rep.status < 0 then rep.status + 0x1_0000_0000 else rep.status, 4)
            && d[4..8] == [0, 0, 0, if rep.ReadReply? then 0 else 1]
            && d[8..16] == BigEndian(rep.id, 8) && d[16..] == if rep.ReadReply? then rep.data else memory
  {
    hide BigEndian, ToByte;
    SmallNumber(0);
    SmallNumber(1);
  }

  // What proxy number minion makes of a datagram; None where it throws.
  function DecodeReply(d: Data, minion: nat): Option<Reply>
    requires |d| == REPLY_SIZE
  {
    var status, kind, id := ToSigned(Value(d[..4])), Value(d[4..8]), Value(d[8..16]);
    if kind == READ then Some(ReadReply(minion, id, status, d[16..]))
    else if kind == WRITE then Some(WriteReply(minion, id, status))
    else None
  }

  lemma ReplyRoundTrip(rep: Reply, memory: Data)
    requires ReplyFits(rep) && |memory| == BLOCK_SIZE
    ensures var d := EncodeReply(rep, memory);
            |d| == REPLY_SIZE && DecodeReply(d, rep.minion) == Some(rep)
  {
    hide BigEndian, Value, Range;
    Ranges();
    var d := EncodeReply(rep, memory);
    var kind := if rep.ReadReply? then READ else WRITE;
    assert d[..4] == BigEndian(ToUnsigned(rep.status), 4);
    assert d[4..8] == BigEndian(kind, 4);
    assert d[8..16] == BigEndian(rep.id, ID_SIZE);
    assert d[16..] == if rep.ReadReply? then rep.data else memory;
    ValueOfBigEndian(ToUnsigned(rep.status), 4);
    ValueOfBigEndian(kind, 4);
    ValueOfBigEndian(rep.id, ID_SIZE);
  }

  // ------------------------------------------------------------------
  // The code that fills and reads the structs

  method Memcpy(dst: array<Byte>, at: nat, src: Data)
    requires at + |src| <= dst.Length
    modifies dst
    ensures dst[..] == old(dst[..at]) + src + old(dst[at + |src|..])
  {
    for i := 0 to |src|
      invariant dst[..at] == old(dst[..at]) && dst[at + |src|..] == old(dst[at + |src|..])
      invariant dst[at..at + i] == src[..i]
    {
      dst[at + i] := src[i];
    }
    assert dst[..] == dst[..at] + dst[at..at + |src|] + dst[at + |src|..];
  }

  // MinionProxy::CreateUdpRequestIMP
  method CreateUdpRequest(req: array<Byte>, kind: nat, id: ID, block: nat)
    requires req.Length == REQUEST_SIZE
    modifies req
    ensures req[..] == BigEndian(kind, 4) + BigEndian(id, ID_SIZE) + old(req[12..16]) + BigEndian(block, 8) + old(req[24..])
  {
    hide BigEndian;
    Memcpy(req, 0, BigEndian(kind, 4));
    Memcpy(req, 4, BigEndian(id, ID_SIZE));
    Memcpy(req, 16, BigEndian(block, 8));
  }

  // MinionProxy::ReadReq
  method ReadReq(req: array<Byte>, id: ID, block: nat)
    requires req.Length == REQUEST_SIZE
    modifies req
    ensures req[..] == EncodeRequest(ReadMsg(id, block), old(req[12..16]), old(req[24..]))
  {
    CreateUdpRequest(req, READ, id, block);
  }

  // MinionProxy::WriteReq
  method WriteReq(req: array<Byte>, id: ID, block: nat, data: Data)
    requires req.Length == REQUEST_SIZE && |data| == BLOCK_SIZE
    modifies req
    ensures req[..] == EncodeRequest(WriteMsg(id, block, data), old(req[12..16]), old(req[24..]))
  {
    CreateUdpRequest(req, WRITE, id, block);
    Memcpy(req, 24, data);
  }

  // MasterProxy::OnPacketCB, up to the call of the minion
  method OnPacket(req: array<Byte>) returns (call: Option<Msg>)
    requires req.Length == REQUEST_SIZE
    ensures call == DecodeRequest(req[..])
  {
    var kind := Value(req[..4]);
    assert req[..4] == req[..][..4] && req[4..12] == req[..][4..12] && req[16..24] == req[..][16..24] && req[24..] == req[..][24..];
    if kind == READ {
      return Some(ReadMsg(Value(req[4..12]), Value(req[16..24])));
    } else if kind == WRITE {
      var dataPtr := req[24..];
      return Some(WriteMsg(Value(req[4..12]), Value(req[16..24]), dataPtr));
    } else {
      return None;
    }
  }

  // MasterProxy::ConstructReplyImp
  method ConstructReply(rep: array<Byte>, id: ID, kind: nat, status: int)
    requires rep.Length == REPLY_SIZE
    modifies rep
    ensures rep[..] == BigEndian(ToUnsigned(status), 4) + BigEndian(kind, 4) + BigEndian(id, ID_SIZE) + old(rep[16..])
  {
    hide BigEndian;
    Memcpy(rep, 8, BigEndian(id, ID_SIZE));
    Memcpy(rep, 4, BigEndian(kind, 4));
    Memcpy(rep, 0, BigEndian(ToUnsigned(status), 4));
  }

  // MasterProxy::ReplyRead
  method ReplyRead(rep: array<Byte>, id: ID, status: int, data: Data, ghost minion: nat)
    requires rep.Length == REPLY_SIZE && |data| == BLOCK_SIZE
    modifies rep
    ensures rep[..] == EncodeReply(ReadReply(minion, id, status, data), old(rep[16..]))
  {
    ConstructReply(rep, id, READ, status);
    Memcpy(rep, 16, data);
  }

  // MasterProxy::ReplyWrite
  method ReplyWrite(rep: array<Byte>, id: ID, status: int, ghost minion: nat)
    requires rep.Length == REPLY_SIZE
    modifies rep
    ensures rep[..] == EncodeReply(WriteReply(minion, id, status), old(rep[16..]))
  {
    ConstructReply(rep, id, WRITE, status);
  }

  // MinionProxy::RecieveFromMinionCB, up to the call of the master
  method RecieveFromMinion(rep: array<Byte>, minionID: nat) returns (call: Option<Reply>)
    requires rep.Length == REPLY_SIZE
    ensures call == DecodeReply(rep[..], minionID)
  {
    assert rep[..4] == rep[..][..4] && rep[4..8] == rep[..][4..8] && rep[8..16] == rep[..][8..16] && rep[16..] == rep[..][16..];
    var kind := Value(rep[4..8]);
    if kind == READ {
      var buffer := rep[16..];
      return Some(ReadReply(minionID, Value(rep[8..16]), ToSigned(Value(rep[..4])), buffer));
    } else if kind == WRITE {
      return Some(WriteReply(minionID, Value(rep[8..16]), ToSigned(Value(rep[..4]))));
    } else {
      return None;
    }
  }
}
