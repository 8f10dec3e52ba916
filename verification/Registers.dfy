// What the device promises the operating system, without replicas, messages
// or timers: an array of blocks under concurrent reads and writes. The state
// is a function of the events seen so far; Permits says which event may come
// next. The replicated system is shown to produce only permitted events.
module Registers {
  import opened Cipher
  import opened BlockTables
  import opened Protocol

  // The device: how many minions and blocks, and where replicas are kept.
  datatype Config = Config(minions: nat, blocks: nat, place: nat -> seq<Location>)

  // All that is used of the placement.
  ghost predicate GoodConfig(c: Config) {
    && (forall b :: 0 <= b < c.blocks ==>
          && |c.place(b)| == 2
          && c.place(b)[0].minion != c.place(b)[1].minion
          && c.place(b)[0].minion < c.minions && c.place(b)[1].minion < c.minions)
    && (forall b, b', loc | 0 <= b < c.blocks && 0 <= b' < c.blocks :: loc in c.place(b) && loc in c.place(b') ==> b == b')
  }

  // BlockTable's placement is one, from two minions on.
  function Device(minions: nat, perGroup: nat): Config
    requires minions > 0 && perGroup > 0
  {
    Config(minions, minions * perGroup, (b: nat) => Locations(minions, perGroup, b))
  }

  lemma DeviceGood(minions: nat, perGroup: nat)
    requires minions >= 2 && perGroup > 0
    ensures GoodConfig(Device(minions, perGroup))
  {
    var c := Device(minions, perGroup);
    forall b | 0 <= b < c.blocks
      ensures |c.place(b)| == 2 && c.place(b)[0].minion != c.place(b)[1].minion
      ensures c.place(b)[0].minion < c.minions && c.place(b)[1].minion < c.minions
    {
      ReplicasApart(minions, perGroup, b);
      PlaceThenOccupant(minions, perGroup, b, 0);
      PlaceThenOccupant(minions, perGroup, b, 1);
    }
    forall b, b', loc | 0 <= b < c.blocks && 0 <= b' < c.blocks && loc in c.place(b) && loc in c.place(b')
      ensures b == b'
    {
      var i: nat :| i < 2 && Locations(minions, perGroup, b)[i] == loc;
      var j: nat :| j < 2 && Locations(minions, perGroup, b')[j] == loc;
      NoSharedSlot(minions, perGroup, b, b', i, j);
    }
  }

  datatype Event =
    | ReadIssued(id: ID, block: nat)
    | WriteIssued(id: ID, block: nat, data: Data)
    | MinionAcked(id: ID, minion: nat)
    | WriteAnswered(id: ID, status: int)
    | ReadAnswered(id: ID, status: int, data: Data)

  datatype Payload = Payload(block: nat, data: Data)

  // A read: whether its block had an acknowledged write when it was issued,
  // and the values a regular register may return for it.
  datatype Reader = Reader(block: nat, covered: bool, allowed: set<Data>)

  datatype Register = Register(
    issued: map<ID, Payload>,   // all writes
    pend: map<nat, ID>,         // per block: the outstanding write
    comm: map<nat, ID>,         // per block: the last acknowledged write
    acks: map<ID, set<nat>>,    // per write: the minions that acknowledged it
    readers: map<ID, Reader>,   // all reads
    done: set<ID>)              // answered requests

  const BLANK := Register(map[], map[], map[], map[], map[], {})

  ghost predicate Known(r: Register, id: ID) {
    id in r.issued || id in r.readers
  }

  ghost predicate IsPending(r: Register, id: ID) {
    id in r.issued && r.issued[id].block in r.pend && r.pend[r.issued[id].block] == id
  }

  ghost predicate IsCommitted(r: Register, id: ID) {
    id in r.issued && r.issued[id].block in r.comm && r.comm[r.issued[id].block] == id
  }

  ghost function DataOf(r: Register, m: map<nat, ID>, block: nat): set<Data> {
    if block in m && m[block] in r.issued then {r.issued[m[block]].data} else {}
  }

  ghost function MinionsOf(c: Config, block: nat): set<nat> {
    set loc | loc in c.place(block) :: loc.minion
  }

  ghost predicate Permits(c: Config, r: Register, ev: Event) {
    match ev
    case ReadIssued(id, block) => !Known(r, id) && block < c.blocks
    case WriteIssued(id, block, _) => !Known(r, id) && block < c.blocks && block !in r.pend
    case MinionAcked(id, minion) => IsPending(r, id) && minion in MinionsOf(c, r.issued[id].block)
    // a write is answered, once, when every minion holding a replica has
    // acknowledged it
    case WriteAnswered(id, status) =>
      && IsPending(r, id) && id !in r.done && status == 0
      && id in r.acks && r.acks[id] == MinionsOf(c, r.issued[id].block)
    // a read is answered, once, with an allowed value
    case ReadAnswered(id, status, data) =>
      && id in r.readers && id !in r.done && status == 0
      && (r.readers[id].covered ==> data in r.readers[id].allowed)
  }

  ghost function Update(r: Register, ev: Event): Register {
    match ev
    case ReadIssued(id, block) =>
      r.(readers := r.readers[id := Reader(block, block in r.comm, DataOf(r, r.comm, block) + DataOf(r, r.pend, block))])
    case WriteIssued(id, block, data) =>
      r.(issued := r.issued[id := Payload(block, data)],
         pend := r.pend[block := id],
         acks := r.acks[id := {}],
         readers := map x | x in r.readers ::
           if r.readers[x].block == block then r.readers[x].(allowed := r.readers[x].allowed + {data}) else r.readers[x])
    case MinionAcked(id, minion) =>
      r.(acks := r.acks[id := (if id in r.acks then r.acks[id] else {}) + {minion}])
    case WriteAnswered(id, _) =>
      if id in r.issued then
        var block := r.issued[id].block;
        r.(pend := r.pend - {block}, comm := r.comm[block := id], done := r.done + {id})
      else r
    case ReadAnswered(id, _, _) => r.(done := r.done + {id})
  }

  ghost function Replay(hist: seq<Event>): Register {
    if hist == [] then BLANK else Update(Replay(hist[..|hist| - 1]), hist[|hist| - 1])
  }

  ghost predicate Conforms(c: Config, hist: seq<Event>) {
    forall k :: 0 <= k < |hist| ==> Permits(c, Replay(hist[..k]), hist[k])
  }

  lemma ConformsMore(c: Config, hist: seq<Event>, ev: Event)
    requires Conforms(c, hist) && Permits(c, Replay(hist), ev)
    ensures Conforms(c, hist + [ev]) && Replay(hist + [ev]) == Update(Replay(hist), ev)
  {
    var more := hist + [ev];
    assert more[..|more| - 1] == hist;
    forall k | 0 <= k < |more| ensures Permits(c, Replay(more[..k]), more[k]) {
      if k < |hist| {
        assert more[..k] == hist[..k];
      }
    }
  }

  // ------------------------------------------------------------------
  // What permitted events keep

  ghost predicate RegisterOk(c: Config, r: Register) {
    ShapeOk(c, r) && BlocksOk(r) && ReadersOk(r)
  }

  ghost predicate ShapeOk(c: Config, r: Register) {
    && r.issued.Keys !! r.readers.Keys
    && r.acks.Keys == r.issued.Keys
    && (forall id :: id in r.issued ==> r.issued[id].block < c.blocks)
    && (forall id :: id in r.issued ==> r.acks[id] <= MinionsOf(c, r.issued[id].block))
    && (forall id :: id in r.issued && id in r.done ==> r.acks[id] == MinionsOf(c, r.issued[id].block))
    && (forall id :: id in r.readers ==> r.readers[id].block < c.blocks)
    && (forall id :: id in r.done ==> Known(r, id))
  }

  // Per block: the outstanding and the last acknowledged write.
  ghost predicate BlocksOk(r: Register) {
    && (forall b :: b in r.pend ==> r.pend[b] in r.issued && r.issued[r.pend[b]].block == b && r.pend[b] !in r.done)
    && (forall b :: b in r.comm ==> r.comm[b] in r.issued && r.issued[r.comm[b]].block == b && r.comm[b] in r.done)
    && (forall id :: id in r.issued ==> IsPending(r, id) || (id in r.done && r.issued[id].block in r.comm))
  }

  ghost predicate ReadersOk(r: Register) {
    forall id :: id in r.readers ==> ReaderOk(r, r.readers[id])
  }

  // The acknowledged and the outstanding value stay allowed.
  ghost predicate ReaderOk(r: Register, e: Reader) {
    && (e.covered ==> e.block in r.comm && DataOf(r, r.comm, e.block) <= e.allowed)
    && (DataOf(r, r.pend, e.block) <= e.allowed)
  }

  lemma RegisterStep(c: Config, r: Register, ev: Event)
    requires RegisterOk(c, r) && Permits(c, r, ev)
    ensures RegisterOk(c, Update(r, ev))
  {
    hide RegisterOk, Permits, Update;
    match ev
    case ReadIssued(id, block) => ReadIssuedStep(c, r, id, block);
    case WriteIssued(id, block, data) => WriteIssuedStep(c, r, id, block, data);
    case MinionAcked(id, minion) => MinionAckedStep(c, r, id, minion);
    case WriteAnswered(id, status) => WriteAnsweredStep(c, r, id, status);
    case ReadAnswered(id, status, data) => ReadAnsweredStep(c, r, id, status, data);
  }

  lemma ReadIssuedStep(c: Config, r: Register, id: ID, block: nat)
    requires RegisterOk(c, r) && Permits(c, r, ReadIssued(id, block))
    ensures RegisterOk(c, Update(r, ReadIssued(id, block)))
  {
    var r' := Update(r, ReadIssued(id, block));
    assert forall x :: IsPending(r', x) <==> IsPending(r, x);
    forall x | x in r'.readers ensures ReaderOk(r', r'.readers[x]) {
      assert x != id ==> ReaderOk(r, r.readers[x]);
    }
  }

  lemma MinionAckedStep(c: Config, r: Register, id: ID, minion: nat)
    requires RegisterOk(c, r) && Permits(c, r, MinionAcked(id, minion))
    ensures RegisterOk(c, Update(r, MinionAcked(id, minion)))
  {
    var r' := Update(r, MinionAcked(id, minion));
    assert forall x :: IsPending(r', x) <==> IsPending(r, x);
    forall x | x in r'.readers ensures ReaderOk(r', r'.readers[x]) {
      assert ReaderOk(r, r.readers[x]);
    }
  }

  lemma ReadAnsweredStep(c: Config, r: Register, id: ID, status: int, data: Data)
    requires RegisterOk(c, r) && Permits(c, r, ReadAnswered(id, status, data))
    ensures RegisterOk(c, Update(r, ReadAnswered(id, status, data)))
  {
    var r' := Update(r, ReadAnswered(id, status, data));
    assert forall x :: IsPending(r', x) <==> IsPending(r, x);
    forall x | x in r'.readers ensures ReaderOk(r', r'.readers[x]) {
      assert ReaderOk(r, r.readers[x]);
    }
  }

  lemma WriteIssuedStep(c: Config, r: Register, id: ID, block: nat, data: Data)
    requires RegisterOk(c, r) && Permits(c, r, WriteIssued(id, block, data))
    ensures RegisterOk(c, Update(r, WriteIssued(id, block, data)))
  {
    WriteIssuedShape(c, r, id, block, data);
    WriteIssuedReaders(c, r, id, block, data);
    WriteIssuedBlocks(r, id, block, data);
    hide ReadersOk, BlocksOk, ShapeOk, Update;
  }

  lemma WriteIssuedShape(c: Config, r: Register, id: ID, block: nat, data: Data)
    requires ShapeOk(c, r) && !Known(r, id) && block < c.blocks
    ensures id !in r.done && ShapeOk(c, Update(r, WriteIssued(id, block, data)))
  {
  }

  lemma WriteIssuedBlocks(r: Register, id: ID, block: nat, data: Data)
    requires BlocksOk(r) && id !in r.issued && id !in r.done && block !in r.pend
    ensures BlocksOk(Update(r, WriteIssued(id, block, data)))
  {
    var r' := Update(r, WriteIssued(id, block, data));
    forall x | x in r'.issued ensures IsPending(r', x) || (x in r'.done && r'.issued[x].block in r'.comm) {
      assert x != id ==> IsPending(r, x) || (x in r.done && r.issued[x].block in r.comm);
    }
  }

  lemma WriteIssuedReaders(c: Config, r: Register, id: ID, block: nat, data: Data)
    requires ReadersOk(r) && id !in r.issued
    requires forall b :: b in r.comm ==> r.comm[b] in r.issued
    requires forall b :: b in r.pend ==> r.pend[b] in r.issued
    ensures ReadersOk(Update(r, WriteIssued(id, block, data)))
  {
    var r' := Update(r, WriteIssued(id, block, data));
    forall x | x in r'.readers ensures ReaderOk(r', r'.readers[x]) {
      var b := r.readers[x].block;
      assert ReaderOk(r, r.readers[x]);
      assert DataOf(r', r'.comm, b) == DataOf(r, r.comm, b);
      assert b != block ==> DataOf(r', r'.pend, b) == DataOf(r, r.pend, b);
    }
  }

  lemma WriteAnsweredStep(c: Config, r: Register, id: ID, status: int)
    requires RegisterOk(c, r) && Permits(c, r, WriteAnswered(id, status))
    ensures RegisterOk(c, Update(r, WriteAnswered(id, status)))
  {
    WriteAnsweredReaders(r, id, status);
    WriteAnsweredBlocks(r, id, status);
    WriteAnsweredShape(c, r, id, status);
    hide ReadersOk, BlocksOk, ShapeOk, Update;
  }

  lemma WriteAnsweredShape(c: Config, r: Register, id: ID, status: int)
    requires ShapeOk(c, r) && id in r.issued && r.acks[id] == MinionsOf(c, r.issued[id].block)
    ensures ShapeOk(c, Update(r, WriteAnswered(id, status)))
  {
    hide MinionsOf;
  }

  lemma WriteAnsweredBlocks(r: Register, id: ID, status: int)
    requires BlocksOk(r) && IsPending(r, id)
    ensures BlocksOk(Update(r, WriteAnswered(id, status)))
  {
    var r' := Update(r, WriteAnswered(id, status));
    forall x | x in r'.issued ensures IsPending(r', x) || (x in r'.done && r'.issued[x].block in r'.comm) {
      assert IsPending(r, x) || (x in r.done && r.issued[x].block in r.comm);
    }
  }

  lemma WriteAnsweredReaders(r: Register, id: ID, status: int)
    requires ReadersOk(r) && IsPending(r, id)
    ensures ReadersOk(Update(r, WriteAnswered(id, status)))
  {
    var r' := Update(r, WriteAnswered(id, status));
    forall x | x in r'.readers ensures ReaderOk(r', r'.readers[x]) {
      assert ReaderOk(r, r.readers[x]);
    }
  }
}
