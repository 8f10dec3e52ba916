// The replicated device as a transition system: the master with its timer,
// the encryption jobs, the channels to the minions, their memories and the
// replies on their way back (vdr/master, framework/timer, minion/minion).
//
// Channels to a minion may lose messages but keep order. A reply, once sent,
// stays available for ever: delivering it late, twice, out of order or never
// are all runs of the system.
module Systems {
  import opened Cipher
  import opened BlockTables
  import opened Timers
  import opened Protocol
  import opened Registers

  datatype Reply =
    | ReadReply(minion: nat, id: ID, status: int, data: Data)
    | WriteReply(minion: nat, id: ID, status: int)

  // A read reply handed to the decryptor; done once the buffer is transformed.
  datatype Decryption = Decryption(status: int, data: Data, done: bool)

  datatype System = System(
    m: MasterState,
    enc: map<ID, bool>,          // writes being encrypted; true once transformed
    dec: map<ID, Decryption>,
    chan: map<nat, seq<Msg>>,    // per minion
    mem: map<Location, Data>,
    replies: set<Reply>,
    clock: int,
    hist: seq<Event>,
    reg: Register)               // Replay(hist)

  datatype Step =
    | OsRead(id: ID, block: nat, clk: Clock)
    | OsWrite(id: ID, block: nat, data: Data)
    | EncryptBuffer(id: ID)
    | EncryptionDone(id: ID, clk: Clock)
    | MinionStep(minion: nat)
    | Lose(minion: nat, k: nat)
    | Deliver(rep: Reply, clk: Clock)
    | TimerFires(setClk: Clock, eraseClk: Clock)
    | DecryptBuffer(id: ID)
    | DecryptionDone(id: ID)

  ghost predicate Init(c: Config, s: System) {
    && s.m == MasterState(map[], map[], TimerState([], 0, false, None))
    && s.enc == map[] && s.dec == map[]
    && (forall i: nat :: i in s.chan <==> i < c.minions)
    && (forall i :: i in s.chan ==> s.chan[i] == [])
    && (forall b, loc :: 0 <= b < c.blocks && loc in c.place(b) ==> loc in s.mem) // any contents
    && s.replies == {} && s.hist == [] && s.reg == BLANK
  }

  // The clock does not go back, pending deadlines are distinct, and the next
  // handle is not that of a pending timer.
  ghost predicate CanSet(s: System, clk: Clock) {
    && clk.Valid() && s.clock <= clk.now
    && (forall x :: x in s.m.timer.cbs ==> x.deadline != clk.now + TIMEOUT && x.handle != s.m.timer.counter)
  }

  // What can happen at all.
  ghost predicate Possible(c: Config, s: System, step: Step) {
    match step
    case OsRead(_, block, clk) => block < c.blocks && clk.Valid() && s.clock <= clk.now
    case OsWrite(_, block, _) => block < c.blocks
    case EncryptBuffer(id) => id in s.enc && !s.enc[id]
    case EncryptionDone(id, clk) => id in s.enc && s.enc[id] && clk.Valid() && s.clock <= clk.now
    case MinionStep(i) => i in s.chan && s.chan[i] != []
    case Lose(i, k) => i in s.chan && k < |s.chan[i]|
    case Deliver(rep, clk) => rep in s.replies && clk.Valid() && s.clock <= clk.now
    case TimerFires(setClk, eraseClk) =>
      && s.m.timer.armed.Some? && s.m.timer.armed.value <= setClk.now && setClk.Valid() && s.clock <= setClk.now
      && eraseClk.Valid() && setClk.settime <= eraseClk.now
    case DecryptBuffer(id) => id in s.dec && !s.dec[id].done
    case DecryptionDone(id) => id in s.dec && s.dec[id].done
  }

  // The rules the environment keeps: request IDs are new, a block has one
  // outstanding write, and a timer can be set.
  ghost predicate FreshID(s: System, step: Step) {
    (step.OsRead? ==> !Known(s.reg, step.id)) && (step.OsWrite? ==> !Known(s.reg, step.id))
  }

  ghost predicate OneWrite(s: System, step: Step) {
    step.OsWrite? ==> step.block !in s.reg.pend
  }

  ghost predicate Settable(s: System, step: Step) {
    match step
    case OsRead(_, _, clk) => CanSet(s, clk)
    case EncryptionDone(_, clk) => CanSet(s, clk)
    case TimerFires(clk, _) => CanSet(s, clk)
    case _ => true
  }

  ghost predicate Enabled(c: Config, s: System, step: Step): (b: bool)
    ensures b ==> Possible(c, s, step)
  {
    Possible(c, s, step) && FreshID(s, step) && OneWrite(s, step) && Settable(s, step)
  }

  // What the code asserts, or relies on, when it takes the step.
  ghost predicate Asserts(c: Config, s: System, step: Step)
    requires Possible(c, s, step)
  {
    match step
    case OsRead(_, _, _) => true
    case OsWrite(id, _, _) => id !in s.m.readReqs && id !in s.m.writeReqs
    case EncryptBuffer(id) => id in s.m.writeReqs
    case EncryptionDone(id, _) => id in s.m.writeReqs
    case MinionStep(i) => Location(i, s.chan[i][0].slot) in s.mem
    case Lose(_, _) => true
    case Deliver(ReadReply(i, id, _, _), _) =>
      AwaitsRead(s.m, id, i) ==> HasTimer(s.m, s.m.readReqs[id].handle)
    case Deliver(WriteReply(i, id, _), _) =>
      CompletesWrite(s.m, id, i) ==> HasTimer(s.m, s.m.writeReqs[id].handle)
    case TimerFires(setClk, _) =>
      && Sorted(s.m.timer.cbs) && s.m.timer.cbs != [] && s.m.timer.cbs[0].deadline <= setClk.now
      && (s.m.timer.cbs[0].cb in s.m.readReqs <==> s.m.timer.cbs[0].cb !in s.m.writeReqs)
    case DecryptBuffer(_) => true
    case DecryptionDone(_) => true
  }

  // The messages of a packet sequence that go to one minion.
  ghost function For(out: seq<Packet>, i: nat): seq<Msg> {
    if out == [] then []
    else (if out[0].minion == i then [out[0].msg] else []) + For(out[1..], i)
  }

  ghost function Send(chan: map<nat, seq<Msg>>, out: seq<Packet>): map<nat, seq<Msg>> {
    map i | i in chan :: chan[i] + For(out, i)
  }

  ghost function Emit(s: System, ev: Event): System {
    s.(hist := s.hist + [ev], reg := Update(s.reg, ev))
  }

  // Minion::RetriveCopyStatus
  function CopyStatus(data: Data, stored: Data): int {
    if data == stored then 0 else 1
  }

  ghost function Process(s: System, i: nat): System
    requires i in s.chan && s.chan[i] != []
    requires Location(i, s.chan[i][0].slot) in s.mem
  {
    var s1 := s.(chan := s.chan[i := s.chan[i][1..]]);
    match s.chan[i][0]
    case ReadMsg(id, slot) =>
      var data := s.mem[Location(i, slot)];
      s1.(replies := s.replies + {ReadReply(i, id, CopyStatus(data, data), data)})
    case WriteMsg(id, slot, data) =>
      var mem := s.mem[Location(i, slot) := data];
      s1.(mem := mem, replies := s.replies + {WriteReply(i, id, CopyStatus(data, mem[Location(i, slot)]))})
  }

  ghost function Receive(c: Config, s: System, rep: Reply, clk: Clock): System
    requires Possible(c, s, Deliver(rep, clk)) && Asserts(c, s, Deliver(rep, clk))
  {
    match rep
    case ReadReply(i, id, status, data) =>
      var s1 := s.(m := TakeReadReply(s.m, id, i, clk), clock := clk.settime);
      if AwaitsRead(s.m, id, i) then s1.(dec := s.dec[id := Decryption(status, data, false)]) else s1
    case WriteReply(i, id, status) =>
      var s1 := s.(m := TakeWriteReply(s.m, id, i, clk), clock := clk.settime);
      if CompletesWrite(s.m, id, i) then Emit(Emit(s1, MinionAcked(id, i)), WriteAnswered(id, OsStatus(status)))
      else if AwaitsWrite(s.m, id, i) then Emit(s1, MinionAcked(id, i))
      else s1
  }

  ghost function Apply(c: Config, s: System, step: Step): System
    requires Possible(c, s, step) && Asserts(c, s, step)
  {
    match step
    case OsRead(id, block, clk) =>
      var (m, out) := StartRead(s.m, id, block, c.place(block), clk);
      Emit(s.(m := m, chan := Send(s.chan, out), clock := clk.settime), ReadIssued(id, block))
    case OsWrite(id, block, data) =>
      Emit(s.(m := StartWrite(s.m, id, block, data, c.place(block)), enc := s.enc[id := false]),
           WriteIssued(id, block, data))
    case EncryptBuffer(id) =>
      var e := s.m.writeReqs[id];
      s.(m := s.m.(writeReqs := s.m.writeReqs[id := e.(data := Xor(e.data))]), enc := s.enc[id := true])
    case EncryptionDone(id, clk) =>
      var (m, out) := SendWrite(s.m, id, clk);
      s.(m := m, chan := Send(s.chan, out), enc := s.enc - {id}, clock := clk.settime)
    case MinionStep(i) => Process(s, i)
    case Lose(i, k) => s.(chan := s.chan[i := s.chan[i][..k] + s.chan[i][k + 1..]])
    case Deliver(rep, clk) => Receive(c, s, rep, clk)
    case TimerFires(setClk, eraseClk) =>
      var (m, out) := Expire(s.m, setClk, eraseClk);
      s.(m := m, chan := Send(s.chan, out), clock := eraseClk.settime)
    case DecryptBuffer(id) =>
      s.(dec := s.dec[id := Decryption(s.dec[id].status, Xor(s.dec[id].data), true)])
    case DecryptionDone(id) =>
      Emit(s.(dec := s.dec - {id}), ReadAnswered(id, OsStatus(s.dec[id].status), s.dec[id].data))
  }
}
