// The master's request bookkeeping (vdr/master/master.cpp) as functions on its
// state: which requests are waiting for which minions, under which timer.
// Class Masters.Master is proved against these functions, and the replicated
// system (Replication.dfy) is built from them.
module Protocol {
  import opened Cipher
  import opened BlockTables
  import opened Timers

  type ID = nat // the eight bytes of a request handle, read as a number

  const TIMEOUT: int := 10_000_000_000 // nanoseconds

  // m_readRequests and m_writeRequests: the stored timer handle, the minions
  // that have not answered, and the request itself.
  datatype ReadEntry = ReadEntry(handle: nat, block: nat, locs: seq<Location>)
  datatype WriteEntry = WriteEntry(handle: nat, block: nat, data: Data, locs: seq<Location>)

  datatype Msg =
    | ReadMsg(id: ID, slot: nat)
    | WriteMsg(id: ID, slot: nat, data: Data)

  datatype Packet = Packet(minion: nat, msg: Msg)

  // The calls on the OS proxy. os::WriteReply keeps the status as a bool.
  datatype OsReply =
    | ReadDone(id: ID, status: int, data: Data)
    | WriteDone(id: ID, status: int)

  function OsStatus(status: int): int {
    if status == 0 then 0 else 1
  }

  datatype MasterState = MasterState(
    readReqs: map<ID, ReadEntry>,
    writeReqs: map<ID, WriteEntry>,
    timer: TimerState<ID>)

  function ReadPackets(id: ID, locs: seq<Location>): seq<Packet> {
    seq(|locs|, i requires 0 <= i < |locs| => Packet(locs[i].minion, ReadMsg(id, locs[i].slot)))
  }

  function WritePackets(id: ID, data: Data, locs: seq<Location>): seq<Packet> {
    seq(|locs|, i requires 0 <= i < |locs| => Packet(locs[i].minion, WriteMsg(id, locs[i].slot, data)))
  }

  // SendReadRequestsIMP: set a timer, store its handle, ask every location.
  function SendRead(m: MasterState, id: ID, clk: Clock): (MasterState, seq<Packet>)
    requires id in m.readReqs
  {
    var e := m.readReqs[id];
    (m.(timer := AfterSet(m.timer, clk, TIMEOUT, id), readReqs := m.readReqs[id := e.(handle := m.timer.counter)]),
     ReadPackets(id, e.locs))
  }

  // SendWriteRequestsIMP
  function SendWrite(m: MasterState, id: ID, clk: Clock): (MasterState, seq<Packet>)
    requires id in m.writeReqs
  {
    var e := m.writeReqs[id];
    (m.(timer := AfterSet(m.timer, clk, TIMEOUT, id), writeReqs := m.writeReqs[id := e.(handle := m.timer.counter)]),
     WritePackets(id, e.data, e.locs))
  }

  // Master::Read; map::insert keeps an entry that is already there.
  function StartRead(m: MasterState, id: ID, block: nat, locs: seq<Location>, clk: Clock): (MasterState, seq<Packet>) {
    var known := if id in m.readReqs then m.readReqs else m.readReqs[id := ReadEntry(0, block, locs)];
    SendRead(m.(readReqs := known), id, clk)
  }

  // Master::Write, up to the encryption it starts.
  function StartWrite(m: MasterState, id: ID, block: nat, data: Data, locs: seq<Location>): MasterState
    requires id !in m.readReqs && id !in m.writeReqs
  {
    m.(writeReqs := m.writeReqs[id := WriteEntry(0, block, data, locs)])
  }

  // Position of the first location on a minion, |locs| if there is none.
  function FindMinion(locs: seq<Location>, minion: nat): (k: nat)
    ensures k <= |locs|
    ensures k < |locs| ==> locs[k].minion == minion
    ensures forall i :: 0 <= i < k ==> locs[i].minion != minion
  {
    if locs == [] || locs[0].minion == minion then 0 else 1 + FindMinion(locs[1..], minion)
  }

  // The reply is to a request that still waits for this minion.
  predicate AwaitsRead(m: MasterState, id: ID, minion: nat) {
    id in m.readReqs && FindMinion(m.readReqs[id].locs, minion) < |m.readReqs[id].locs|
  }

  predicate AwaitsWrite(m: MasterState, id: ID, minion: nat) {
    id in m.writeReqs && FindMinion(m.writeReqs[id].locs, minion) < |m.writeReqs[id].locs|
  }

  predicate CompletesWrite(m: MasterState, id: ID, minion: nat) {
    AwaitsWrite(m, id, minion) && |m.writeReqs[id].locs| == 1
  }

  predicate HasTimer(m: MasterState, handle: nat) {
    Find(m.timer.cbs, handle) < |m.timer.cbs|
  }

  // ProcessReadReplyIMP: the first answer completes the read.
  function TakeReadReply(m: MasterState, id: ID, minion: nat, clk: Clock): MasterState
    requires AwaitsRead(m, id, minion) ==> HasTimer(m, m.readReqs[id].handle)
  {
    if AwaitsRead(m, id, minion) then
      m.(readReqs := m.readReqs - {id}, timer := AfterCancel(m.timer, m.readReqs[id].handle, clk))
    else m
  }

  // ProcessWriteReplyIMP: the last missing answer completes the write.
  function TakeWriteReply(m: MasterState, id: ID, minion: nat, clk: Clock): MasterState
    requires CompletesWrite(m, id, minion) ==> HasTimer(m, m.writeReqs[id].handle)
  {
    if CompletesWrite(m, id, minion) then
      m.(writeReqs := m.writeReqs - {id}, timer := AfterCancel(m.timer, m.writeReqs[id].handle, clk))
    else if AwaitsWrite(m, id, minion) then
      var e := m.writeReqs[id];
      var k := FindMinion(e.locs, minion);
      m.(writeReqs := m.writeReqs[id := e.(locs := e.locs[..k] + e.locs[k + 1..])])
    else m
  }

  // OnTimerIMP: resend to whoever has not answered, under a new timer.
  function Retry(m: MasterState, id: ID, clk: Clock): (MasterState, seq<Packet>) {
    if id in m.readReqs then SendRead(m, id, clk)
    else if id in m.writeReqs then SendWrite(m, id, clk)
    else (m, [])
  }

  // Timer::CallBackWrapper with OnTimerIMP as the callback.
  function Expire(m: MasterState, setClk: Clock, eraseClk: Clock): (MasterState, seq<Packet>)
    requires m.timer.cbs != []
  {
    var (m1, out) := Retry(m, m.timer.cbs[0].cb, setClk);
    (m1.(timer := AfterErase(m1.timer, 0, eraseClk)), out)
  }

  // The calls OnTimerIMP makes on the timer while it is being fired.
  function RetryCalls(m: MasterState, clk: Clock): (calls: seq<Op<ID>>)
    requires m.timer.cbs != [] && m.timer.cbs[0].deadline <= clk.now && clk.Valid()
    ensures Callable(m.timer, calls)
  {
    var id := m.timer.cbs[0].cb;
    if id in m.readReqs || id in m.writeReqs then
      assert [SetOp(clk, TIMEOUT, id)][1..] == [];
      [SetOp(clk, TIMEOUT, id)]
    else []
  }

  // A retry is one re-entrant firing of the timer.
  lemma RetryIsFiring(m: MasterState, setClk: Clock, eraseClk: Clock)
    requires Sorted(m.timer.cbs) && m.timer.cbs != []
    requires m.timer.cbs[0].deadline <= setClk.now && setClk.Valid()
    ensures Expire(m, setClk, eraseClk).0.timer == AfterFire(m.timer, RetryCalls(m, setClk), eraseClk)
  {
    var calls := RetryCalls(m, setClk);
    FiringStaysFirst(m.timer, calls);
    var id := m.timer.cbs[0].cb;
    if id in m.readReqs || id in m.writeReqs {
      var after := AfterSet(m.timer, setClk, TIMEOUT, id);
      assert calls[1..] == [];
      assert AfterCalls(m.timer, calls) == AfterCalls(after, calls[1..]) == after;
    } else {
      assert AfterCalls(m.timer, calls) == m.timer;
    }
  }

  // Acknowledgements are told apart by minion only: one minion's, delivered
  // twice, completes a write exactly if both replicas are on that minion. So
  // at least two minions are needed (ReplicasApart).
  lemma DuplicateReply(m: MasterState, id: ID, first: Location, second: Location, clk: Clock)
    requires id in m.writeReqs && m.writeReqs[id].locs == [first, second]
    ensures !CompletesWrite(m, id, first.minion)
    ensures CompletesWrite(TakeWriteReply(m, id, first.minion, clk), id, first.minion) <==> second.minion == first.minion
  {
    var e := m.writeReqs[id];
    var m1 := TakeWriteReply(m, id, first.minion, clk);
    assert FindMinion(e.locs, first.minion) == 0;
    assert m1.writeReqs[id].locs == [second];
    assert FindMinion([second], first.minion) == if second.minion == first.minion then 0 else 1 + FindMinion([second][1..], first.minion);
    assert [second][1..] == [];
  }
}
