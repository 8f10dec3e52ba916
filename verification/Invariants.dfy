// The inductive invariant of the replicated device, one predicate per part of
// the state it speaks about.
module Invariants {
  import opened Cipher
  import opened BlockTables
  import opened Timers
  import opened Protocol
  import opened Registers
  import opened Systems

  // The locations whose minions have not acknowledged.
  ghost function Remaining(locs: seq<Location>, acked: set<nat>): seq<Location>
    requires |locs| == 2
  {
    (if locs[0].minion in acked then [] else [locs[0]]) + (if locs[1].minion in acked then [] else [locs[1]])
  }

  // The master's write entries are the outstanding writes. An entry waits for
  // exactly the minions that have not acknowledged, and its buffer is the
  // payload, encrypted once as soon as the encryptor has passed over it.
  ghost predicate WritesOk(c: Config, r: Register, wr: map<ID, WriteEntry>, enc: map<ID, bool>) {
    && enc.Keys <= wr.Keys
    && (forall id :: id in wr <==> IsPending(r, id))
    && (forall id :: id in wr ==> WriteOk(c, r, id, wr[id], id in enc && !enc[id]))
  }

  ghost predicate WriteOk(c: Config, r: Register, id: ID, e: WriteEntry, plain: bool) {
    && id in r.issued && id in r.acks
    && e.block == r.issued[id].block < c.blocks
    && |c.place(e.block)| == 2
    && e.locs == Remaining(c.place(e.block), r.acks[id]) && e.locs != []
    && e.data == (if plain then r.issued[id].data else Xor(r.issued[id].data))
  }

  ghost predicate ReadsOk(c: Config, r: Register, rd: map<ID, ReadEntry>, dec: map<ID, Decryption>) {
    && (forall id :: id in rd ==>
          && id in r.readers && id !in r.done && id !in dec
          && rd[id].block == r.readers[id].block && rd[id].locs == c.place(rd[id].block))
    && (forall id :: id in dec ==>
          && id in r.readers && id !in r.done && dec[id].status == 0
          && Expected(r, id, if dec[id].done then dec[id].data else Xor(dec[id].data)))
  }

  // A value that may be returned for a read.
  ghost predicate Expected(r: Register, id: ID, data: Data)
    requires id in r.readers
  {
    r.readers[id].covered ==> data in r.readers[id].allowed
  }

  // Every message in flight is to a replica of its request's block. A write
  // carries its payload encrypted exactly once, has left the encryptor, and
  // is the outstanding or the last acknowledged write of its block.
  ghost predicate MsgOk(c: Config, r: Register, enc: map<ID, bool>, i: nat, msg: Msg) {
    match msg
    case ReadMsg(id, slot) =>
      id in r.readers && Location(i, slot) in c.place(r.readers[id].block)
    case WriteMsg(id, slot, data) =>
      && id in r.issued && id !in enc && Location(i, slot) in c.place(r.issued[id].block)
      && data == Xor(r.issued[id].data)
      && (IsPending(r, id) || IsCommitted(r, id))
  }

  // In a channel no older write to a slot follows a newer one: old* new*.
  ghost predicate OldThenNew(r: Register, ch: seq<Msg>) {
    forall i, j | 0 <= i < j < |ch| && ch[i].WriteMsg? && ch[j].WriteMsg? && ch[i].slot == ch[j].slot ::
      IsPending(r, ch[i].id) ==> IsPending(r, ch[j].id)
  }

  ghost predicate ChannelsOk(c: Config, r: Register, enc: map<ID, bool>, chan: map<nat, seq<Msg>>) {
    && (forall i: nat :: i in chan <==> i < c.minions)
    && (forall i, k :: i in chan && 0 <= k < |chan[i]| ==> MsgOk(c, r, enc, i, chan[i][k]))
    && (forall i :: i in chan ==> OldThenNew(r, chan[i]))
  }

  // Only messages of write id are on their way to slot.
  ghost predicate OnlyFrom(ch: seq<Msg>, slot: nat, id: ID) {
    forall k :: 0 <= k < |ch| && ch[k].WriteMsg? && ch[k].slot == slot ==> ch[k].id == id
  }

  // The replica at loc holds write id for good: no older write is under way.
  ghost predicate Stored(r: Register, mem: map<Location, Data>, chan: map<nat, seq<Msg>>, id: ID, loc: Location)
    requires id in r.issued
  {
    loc in mem && mem[loc] == Xor(r.issued[id].data) && loc.minion in chan && OnlyFrom(chan[loc.minion], loc.slot, id)
  }

  // A replica holds the acknowledged value or, for good, the outstanding one.
  ghost predicate SlotOk(r: Register, mem: map<Location, Data>, chan: map<nat, seq<Msg>>, b: nat, loc: Location) {
    && loc in mem
    && (b in r.comm && r.comm[b] in r.issued ==>
          || mem[loc] == Xor(r.issued[r.comm[b]].data)
          || (b in r.pend && r.pend[b] in r.issued && Stored(r, mem, chan, r.pend[b], loc)))
  }

  ghost predicate SlotsOk(c: Config, r: Register, mem: map<Location, Data>, chan: map<nat, seq<Msg>>) {
    forall b, loc :: 0 <= b < c.blocks && loc in c.place(b) ==> SlotOk(r, mem, chan, b, loc)
  }

  // A minion acknowledges an outstanding write only once it is stored.
  ghost predicate AcksOk(c: Config, r: Register, mem: map<Location, Data>, chan: map<nat, seq<Msg>>, replies: set<Reply>) {
    forall id, loc | IsPending(r, id) && loc in c.place(r.issued[id].block) ::
      Acked(r, replies, id, loc.minion) ==> Stored(r, mem, chan, id, loc)
  }

  ghost predicate Acked(r: Register, replies: set<Reply>, id: ID, i: nat) {
    || (id in r.acks && i in r.acks[id])
    || (exists status :: WriteReply(i, id, status) in replies)
  }

  ghost predicate RepliesOk(c: Config, r: Register, enc: map<ID, bool>, replies: set<Reply>) {
    forall rep :: rep in replies ==> ReplyOk(c, r, enc, rep)
  }

  ghost predicate ReplyOk(c: Config, r: Register, enc: map<ID, bool>, rep: Reply) {
    match rep
    case ReadReply(_, id, status, data) => status == 0 && id in r.readers && Expected(r, id, Xor(data))
    case WriteReply(_, id, status) => status == 0 && id in r.issued && id !in enc
  }

  // ------------------------------------------------------------------
  // Timers and requests

  // Sent and not completed.
  ghost predicate Waiting(rd: map<ID, ReadEntry>, wr: map<ID, WriteEntry>, enc: map<ID, bool>, id: ID) {
    id in rd || (id in wr && id !in enc)
  }

  ghost function HandleOf(rd: map<ID, ReadEntry>, wr: map<ID, WriteEntry>, id: ID): nat {
    if id in rd then rd[id].handle else if id in wr then wr[id].handle else 0
  }

  ghost predicate HasTimerFor(cbs: seq<Entry<ID>>, id: ID) {
    exists x :: x in cbs && x.cb == id
  }

  // Live timers and waiting requests correspond one to one, and every stored
  // handle names its request's timer.
  ghost predicate Matched(rd: map<ID, ReadEntry>, wr: map<ID, WriteEntry>, enc: map<ID, bool>, cbs: seq<Entry<ID>>) {
    && (forall x :: x in cbs ==> Waiting(rd, wr, enc, x.cb) && HandleOf(rd, wr, x.cb) == x.handle)
    && (forall id :: Waiting(rd, wr, enc, id) ==> HasTimerFor(cbs, id))
    && (forall x, y :: x in cbs && y in cbs && (x.handle == y.handle || x.cb == y.cb) ==> x == y)
  }

  ghost predicate TimerOk(m: MasterState, enc: map<ID, bool>) {
    Sorted(m.timer.cbs) && NeverEarly(m.timer) && Matched(m.readReqs, m.writeReqs, enc, m.timer.cbs)
  }

  ghost predicate Inv(c: Config, s: System) {
    && GoodConfig(c)
    && RegisterOk(c, s.reg)
    && WritesOk(c, s.reg, s.m.writeReqs, s.enc)
    && ReadsOk(c, s.reg, s.m.readReqs, s.dec)
    && ChannelsOk(c, s.reg, s.enc, s.chan)
    && SlotsOk(c, s.reg, s.mem, s.chan)
    && AcksOk(c, s.reg, s.mem, s.chan, s.replies)
    && RepliesOk(c, s.reg, s.enc, s.replies)
    && TimerOk(s.m, s.enc)
    && Conforms(c, s.hist) && s.reg == Replay(s.hist)
  }
}
