// Runs of the replicated device, spelled out: one as it should be, so the
// environment's rules leave room for work to be done, and one each that breaks
// a single rule, to show what goes wrong then.
module Examples {
  import opened Cipher
  import opened BlockTables
  import opened Timers
  import opened Protocol
  import opened Registers
  import opened Systems
  import opened Invariants
  import opened Replication

  // ------------------------------------------------------------------
  // Runs with a rule dropped

  datatype Rule = NoneDropped | OneWriteDropped | FreshIDDropped

  ghost predicate Allowed(c: Config, s: System, step: Step, rule: Rule): (b: bool)
    ensures b ==> Possible(c, s, step)
  {
    && Possible(c, s, step) && Settable(s, step)
    && (rule.OneWriteDropped? || OneWrite(s, step))
    && (rule.FreshIDDropped? || FreshID(s, step))
  }

  ghost predicate Follows(c: Config, s: System, step: Step, rule: Rule, s': System) {
    Allowed(c, s, step, rule) && Asserts(c, s, step) && s' == Apply(c, s, step)
  }

  ghost predicate ReachesIn(c: Config, s: System, rule: Rule, n: nat)
    decreases n
  {
    if n == 0 then Init(c, s)
    else exists before, step :: ReachesIn(c, before, rule, n - 1) && Follows(c, before, step, rule, s)
  }

  ghost predicate Reaches(c: Config, s: System, rule: Rule) {
    exists n: nat :: ReachesIn(c, s, rule, n)
  }

  lemma Go(c: Config, s: System, step: Step, rule: Rule) returns (s': System)
    requires Reaches(c, s, rule) && Allowed(c, s, step, rule) && Asserts(c, s, step)
    ensures s' == Apply(c, s, step) && Reaches(c, s', rule)
  {
    hide Allowed, Asserts, Apply, Init;
    s' := Apply(c, s, step);
    var n: nat :| ReachesIn(c, s, rule, n);
    assert Follows(c, s, step, rule, s');
    assert ReachesIn(c, s', rule, n + 1);
  }

  // With no rule dropped, these are the runs of the device.
  lemma {:induction false} NoneDroppedReachable(c: Config, s: System, n: nat)
    requires GoodConfig(c) && ReachesIn(c, s, NoneDropped, n)
    ensures Reachable(c, s)
    decreases n
  {
    hide Possible, FreshID, OneWrite, Settable, Asserts, Apply, Init, GoodConfig;
    if n == 0 {
      assert Legal(c, s, []) && Run(c, s, []) == Some(s);
    } else {
      var before, step :| ReachesIn(c, before, NoneDropped, n - 1) && Follows(c, before, step, NoneDropped, s);
      NoneDroppedReachable(c, before, n - 1);
      ReachableStep(c, before, step);
    }
  }

  // ------------------------------------------------------------------
  // Two minions of two slots

  const PLACES := [Location(0, 0), Location(1, 1)]       // of block 0
  const OTHER_PLACES := [Location(1, 0), Location(0, 1)] // of block 1

  ghost predicate Small(c: Config) {
    GoodConfig(c) && c.minions == 2 && c.blocks == 2 && c.place(0) == PLACES && c.place(1) == OTHER_PLACES
  }

  lemma SmallDevice()
    ensures Small(Device(2, 1))
  {
    hide GoodConfig, Place;
    DeviceGood(2, 1);
    ReplicaPlace(2, 1, 0, 0, 0);
    ReplicaPlace(2, 1, 0, 1, 1);
    ReplicaPlace(2, 1, 1, 0, 1);
    ReplicaPlace(2, 1, 1, 1, 0);
  }

  lemma ReplicaPlace(minions: nat, perGroup: nat, block: nat, i: nat, minion: nat)
    requires minions == 2 && perGroup == 1 && block < 2 && i < 2 && minion == if block == i then 0 else 1
    ensures Place(minions, perGroup, block, i) == Location(minion, i)
  {
    Once(block, perGroup);
    Once(i, perGroup);
    DivModUnique(block, perGroup, block, 0);
    GroupShift(minions, block, i);
  }

  lemma Once(a: nat, d: nat)
    requires d == 1
    ensures a * d == a
  {
  }

  ghost function Fresh(): System {
    var mem := map[Location(0, 0) := [], Location(1, 1) := [], Location(1, 0) := [], Location(0, 1) := []];
    System(MasterState(map[], map[], TimerState([], 0, false, None)), map[], map[], map[0 := [], 1 := []],
           mem, {}, 0, [], BLANK)
  }

  lemma FreshReached(c: Config, rule: Rule)
    requires Small(c)
    ensures Reaches(c, Fresh(), rule)
  {
    var s := Fresh();
    forall b, loc | 0 <= b < c.blocks && loc in c.place(b) ensures loc in s.mem {
      assert b == 0 || b == 1;
    }
    assert ReachesIn(c, s, rule, 0);
  }

  const ZERO: Clock := Clock(0, 0)
  const ONE: Clock := Clock(1, 1)
  const LATE: Clock := Clock(TIMEOUT, TIMEOUT)

  // ------------------------------------------------------------------
  // Single steps

  lemma Written(c: Config, s: System, rule: Rule, id: ID, d: Data) returns (s': System)
    requires Small(c) && Reaches(c, s, rule) && !Known(s.reg, id) && (rule.OneWriteDropped? || 0 !in s.reg.pend)
    requires id !in s.m.readReqs && id !in s.m.writeReqs
    ensures Reaches(c, s', rule)
    ensures var e := WriteEntry(0, 0, d, PLACES);
            s' == Emit(s.(m := s.m.(writeReqs := s.m.writeReqs[id := e]), enc := s.enc[id := false]), WriteIssued(id, 0, d))
  {
    hide GoodConfig, Reaches, Update, Receive, Process, Expire;
    s' := Go(c, s, OsWrite(id, 0, d), rule);
  }

  lemma Encrypted(c: Config, s: System, rule: Rule, id: ID, e: WriteEntry) returns (s': System)
    requires Reaches(c, s, rule) && id in s.m.writeReqs && s.m.writeReqs[id] == e && id in s.enc && !s.enc[id]
    ensures Reaches(c, s', rule)
    ensures s' == s.(m := s.m.(writeReqs := s.m.writeReqs[id := e.(data := Xor(e.data))]), enc := s.enc[id := true])
  {
    hide Reaches, Receive, Process, Expire;
    s' := Go(c, s, EncryptBuffer(id), rule);
  }

  lemma SentToBoth(chan: map<nat, seq<Msg>>, a: Msg, b: Msg)
    requires chan.Keys == {0, 1}
    ensures Send(chan, [Packet(0, a), Packet(1, b)]) == map[0 := chan[0] + [a], 1 := chan[1] + [b]]
  {
    var out, last := [Packet(0, a), Packet(1, b)], [Packet(1, b)];
    assert out[1..] == last && last[1..] == [];
    assert For(last, 0) == [] + For(last[1..], 0) && For(last, 1) == [b] + For(last[1..], 1);
    assert For(out, 0) == [a] + For(last, 0) && For(out, 1) == [] + For(last, 1);
    assert For(out, 0) == [a] && For(out, 1) == [b];
  }

  // A write of block 0 goes to both minions.
  lemma Sent(c: Config, s: System, rule: Rule, id: ID, e: WriteEntry, clk: Clock) returns (s': System)
    requires Reaches(c, s, rule) && id in s.m.writeReqs && s.m.writeReqs[id] == e && e.locs == PLACES
    requires id in s.enc && s.enc[id] && s.chan.Keys == {0, 1} && CanSet(s, clk)
    ensures Reaches(c, s', rule)
    ensures s' == s.(m := s.m.(timer := AfterSet(s.m.timer, clk, TIMEOUT, id),
                               writeReqs := s.m.writeReqs[id := e.(handle := s.m.timer.counter)]),
                     enc := s.enc - {id}, clock := clk.settime,
                     chan := map[0 := s.chan[0] + [WriteMsg(id, 0, e.data)], 1 := s.chan[1] + [WriteMsg(id, 1, e.data)]])
  {
    hide Reaches, Receive, Process, Expire, AfterSet, Send;
    s' := Go(c, s, EncryptionDone(id, clk), rule);
    assert WritePackets(id, e.data, PLACES) == [Packet(0, WriteMsg(id, 0, e.data)), Packet(1, WriteMsg(id, 1, e.data))];
    SentToBoth(s.chan, WriteMsg(id, 0, e.data), WriteMsg(id, 1, e.data));
  }

  lemma Lost(c: Config, s: System, rule: Rule, i: nat, msg: Msg, rest: seq<Msg>) returns (s': System)
    requires Reaches(c, s, rule) && i in s.chan && s.chan[i] == [msg] + rest
    ensures Reaches(c, s', rule) && s' == s.(chan := s.chan[i := rest])
  {
    hide Reaches, Receive, Process, Expire;
    s' := Go(c, s, Lose(i, 0), rule);
    assert s.chan[i][..0] + s.chan[i][1..] == rest;
  }

  lemma Stored(c: Config, s: System, rule: Rule, i: nat, id: ID, slot: nat, x: Data, rest: seq<Msg>) returns (s': System)
    requires Reaches(c, s, rule) && i in s.chan && s.chan[i] == [WriteMsg(id, slot, x)] + rest && Location(i, slot) in s.mem
    ensures Reaches(c, s', rule)
    ensures s' == s.(chan := s.chan[i := rest], mem := s.mem[Location(i, slot) := x], replies := s.replies + {WriteReply(i, id, 0)})
  {
    hide Reaches, Receive, Expire;
    s' := Go(c, s, MinionStep(i), rule);
    assert s.chan[i][1..] == rest;
  }

  lemma Read(c: Config, s: System, rule: Rule, i: nat, id: ID, slot: nat, x: Data, rest: seq<Msg>) returns (s': System)
    requires Reaches(c, s, rule) && i in s.chan && s.chan[i] == [ReadMsg(id, slot)] + rest
    requires Location(i, slot) in s.mem && s.mem[Location(i, slot)] == x
    ensures Reaches(c, s', rule)
    ensures s' == s.(chan := s.chan[i := rest], replies := s.replies + {ReadReply(i, id, 0, x)})
  {
    hide Reaches, Receive, Expire;
    s' := Go(c, s, MinionStep(i), rule);
    assert s.chan[i][1..] == rest;
  }

  // The first of two acknowledgements ...
  lemma Acknowledged(c: Config, s: System, rule: Rule, i: nat, id: ID, e: WriteEntry, other: Location, clk: Clock) returns (s': System)
    requires Reaches(c, s, rule) && WriteReply(i, id, 0) in s.replies && clk.Valid() && s.clock <= clk.now
    requires id in s.m.writeReqs && s.m.writeReqs[id] == e && i < 2 && e.locs == PLACES && other == PLACES[1 - i]
    ensures Reaches(c, s', rule)
    ensures s' == Emit(s.(m := s.m.(writeReqs := s.m.writeReqs[id := e.(locs := [other])]), clock := clk.settime), MinionAcked(id, i))
  {
    hide Reaches, Process, Expire, Update;
    FirstAckTaken(s.m, i, id, e, other, clk);
    hide TakeWriteReply, AwaitsWrite, CompletesWrite;
    s' := Go(c, s, Deliver(WriteReply(i, id, 0), clk), rule);
  }

  lemma FirstAckTaken(m: MasterState, i: nat, id: ID, e: WriteEntry, other: Location, clk: Clock)
    requires id in m.writeReqs && m.writeReqs[id] == e && i < 2 && e.locs == PLACES && other == PLACES[1 - i]
    ensures AwaitsWrite(m, id, i) && !CompletesWrite(m, id, i)
    ensures TakeWriteReply(m, id, i, clk) == m.(writeReqs := m.writeReqs[id := e.(locs := [other])])
  {
    InPlaces(i);
    assert PLACES[..i] + PLACES[i + 1..] == [other];
  }

  lemma InPlaces(i: nat)
    requires i < 2
    ensures FindMinion(PLACES, i) == i
  {
    assert PLACES[1..] == [Location(1, 1)];
    OneFound(Location(1, 1));
  }

  lemma OneFound(loc: Location)
    ensures FindMinion([loc], loc.minion) == 0
  {
  }

  // ... and the last, which answers the write.
  lemma Completed(c: Config, s: System, rule: Rule, id: ID, e: WriteEntry, loc: Location, clk: Clock) returns (s': System)
    requires Reaches(c, s, rule) && WriteReply(loc.minion, id, 0) in s.replies && clk.Valid() && s.clock <= clk.now
    requires id in s.m.writeReqs && s.m.writeReqs[id] == e && e.locs == [loc] && HasTimer(s.m, e.handle)
    ensures Reaches(c, s', rule)
    ensures s' == Emit(Emit(s.(m := s.m.(writeReqs := s.m.writeReqs - {id}, timer := AfterCancel(s.m.timer, e.handle, clk)),
                               clock := clk.settime), MinionAcked(id, loc.minion)), WriteAnswered(id, 0))
  {
    hide Reaches, Process, Expire, Update, AfterCancel, HasTimer;
    OneFound(loc);
    s' := Go(c, s, Deliver(WriteReply(loc.minion, id, 0), clk), rule);
  }

  lemma Asked(c: Config, s: System, rule: Rule, id: ID, block: nat, clk: Clock) returns (s': System)
    requires Small(c) && Reaches(c, s, rule) && (rule.FreshIDDropped? || !Known(s.reg, id)) && block < 2
    requires id !in s.m.readReqs && s.chan == map[0 := [], 1 := []] && CanSet(s, clk)
    ensures Reaches(c, s', rule)
    ensures s' == Emit(s.(m := s.m.(timer := AfterSet(s.m.timer, clk, TIMEOUT, id),
                                    readReqs := s.m.readReqs[id := ReadEntry(s.m.timer.counter, block, c.place(block))]),
                          chan := map[0 := [ReadMsg(id, block)], 1 := [ReadMsg(id, 1 - block)]], clock := clk.settime),
                       ReadIssued(id, block))
  {
    hide Reaches, Receive, Process, Expire, AfterSet, Send, Update, GoodConfig;
    s' := Go(c, s, OsRead(id, block, clk), rule);
    var first, second := Packet(0, ReadMsg(id, block)), Packet(1, ReadMsg(id, 1 - block));
    SentToBoth(s.chan, first.msg, second.msg);
    SentToBothSwapped(s.chan, first.msg, second.msg);
    assert ReadPackets(id, c.place(block)) == if block == 0 then [first, second] else [second, first];
    var e := ReadEntry(s.m.timer.counter, block, c.place(block));
    assert s.m.readReqs[id := e.(handle := 0)][id := e] == s.m.readReqs[id := e];
    assert s.chan[0] + [first.msg] == [first.msg] && s.chan[1] + [second.msg] == [second.msg];
  }

  lemma SentToBothSwapped(chan: map<nat, seq<Msg>>, a: Msg, b: Msg)
    requires chan.Keys == {0, 1}
    ensures Send(chan, [Packet(1, b), Packet(0, a)]) == map[0 := chan[0] + [a], 1 := chan[1] + [b]]
  {
    var out, last := [Packet(1, b), Packet(0, a)], [Packet(0, a)];
    assert out[1..] == last && last[1..] == [];
    assert For(last, 0) == [a] + For(last[1..], 0) && For(last, 1) == [] + For(last[1..], 1);
    assert For(out, 0) == [] + For(last, 0) && For(out, 1) == [b] + For(last, 1);
    assert For(out, 0) == [a] && For(out, 1) == [b];
  }

  lemma Taken(c: Config, s: System, rule: Rule, i: nat, id: ID, e: ReadEntry, x: Data, clk: Clock) returns (s': System)
    requires Small(c) && Reaches(c, s, rule) && ReadReply(i, id, 0, x) in s.replies && clk.Valid() && s.clock <= clk.now
    requires id in s.m.readReqs && s.m.readReqs[id] == e && e.block < 2 && e.locs == c.place(e.block) && i < 2
    requires HasTimer(s.m, e.handle)
    ensures Reaches(c, s', rule)
    ensures s' == s.(m := s.m.(readReqs := s.m.readReqs - {id}, timer := AfterCancel(s.m.timer, e.handle, clk)),
                     clock := clk.settime, dec := s.dec[id := Decryption(0, x, false)])
  {
    hide Reaches, Process, Expire, AfterCancel, HasTimer, GoodConfig;
    EveryMinionHolds(c, e.block, i);
    s' := Go(c, s, Deliver(ReadReply(i, id, 0, x), clk), rule);
  }

  lemma EveryMinionHolds(c: Config, block: nat, i: nat)
    requires Small(c) && block < 2 && i < 2
    ensures FindMinion(c.place(block), i) < 2 && |c.place(block)| == 2
  {
    hide GoodConfig;
    var locs := c.place(block);
    assert locs[0].minion == i || locs[1].minion == i;
  }

  lemma Decrypted(c: Config, s: System, rule: Rule, id: ID, x: Data) returns (s': System)
    requires Reaches(c, s, rule) && id in s.dec && s.dec[id] == Decryption(0, x, false)
    ensures Reaches(c, s', rule) && s' == Emit(s.(dec := s.dec - {id}), ReadAnswered(id, 0, Xor(x)))
  {
    hide Reaches, Receive, Process, Expire, Update;
    s' := Go(c, s, DecryptBuffer(id), rule);
    s' := Go(c, s', DecryptionDone(id), rule);
    assert s'.dec == s.dec - {id};
  }

  // ------------------------------------------------------------------
  // Timers

  // One timer pending, set at time 0.
  function OneTimer(handle: nat, id: ID): TimerState<ID> {
    TimerState([Entry(TIMEOUT, handle, id)], handle + 1, true, Some(TIMEOUT))
  }

  function NoTimer(counter: nat): TimerState<ID> {
    TimerState([], counter, false, None)
  }

  lemma FirstTimer(handle: nat, id: ID)
    requires handle + 1 < HANDLES
    ensures AfterSet(NoTimer(handle), ZERO, TIMEOUT, id) == OneTimer(handle, id)
  {
  }

  lemma OnlyTimer(handle: nat, id: ID, clk: Clock)
    ensures Find(OneTimer(handle, id).cbs, handle) == 0
    ensures AfterCancel(OneTimer(handle, id), handle, clk) == NoTimer(handle + 1)
  {
  }

  // ------------------------------------------------------------------
  // A block is written, both minions store and acknowledge it, and a read,
  // answered by the second of them, returns it.

  lemma WriteEncrypted(c: Config, rule: Rule, d: Data) returns (s: System)
    requires Small(c)
    ensures Reaches(c, s, rule)
    ensures s == Fresh().(m := MasterState(map[], map[1 := WriteEntry(0, 0, Xor(d), PLACES)], NoTimer(0)),
                          enc := map[1 := true], hist := [WriteIssued(1, 0, d)], reg := Update(BLANK, WriteIssued(1, 0, d)))
  {
    FreshReached(c, rule);
    hide Reaches, Small, Update, Xor;
    s := Fresh();
    s := Written(c, s, rule, 1, d);
    s := Encrypted(c, s, rule, 1, WriteEntry(0, 0, d, PLACES));
  }

  // The write, sent ...
  lemma WriteSent(c: Config, rule: Rule, d: Data) returns (s: System)
    requires Small(c)
    ensures Reaches(c, s, rule) && s.hist == [WriteIssued(1, 0, d)] && s.reg == Update(BLANK, WriteIssued(1, 0, d))
    ensures s.m == MasterState(map[], map[1 := WriteEntry(0, 0, Xor(d), PLACES)], OneTimer(0, 1))
    ensures s.clock == 0 && s.enc == map[] && s.dec == map[] && s.mem == Fresh().mem && s.replies == {}
    ensures s.chan == map[0 := [WriteMsg(1, 0, Xor(d))], 1 := [WriteMsg(1, 1, Xor(d))]]
  {
    s := WriteEncrypted(c, rule, d);
    FirstTimer(0, 1);
    assert CanSet(s, ZERO) && s.m.timer.counter == 0;
    hide Reaches, Small, Update, Xor, OneTimer, NoTimer, AfterSet, CanSet;
    var x := Xor(d);
    assert [] + [WriteMsg(1, 0, x)] == [WriteMsg(1, 0, x)] && [] + [WriteMsg(1, 1, x)] == [WriteMsg(1, 1, x)];
    s := Sent(c, s, rule, 1, WriteEntry(0, 0, x, PLACES), ZERO);
    assert s.enc == map[];
  }

  // ... stored by both minions ...
  lemma WriteStored(c: Config, rule: Rule, d: Data) returns (s: System)
    requires Small(c)
    ensures Reaches(c, s, rule) && s.hist == [WriteIssued(1, 0, d)] && s.reg == Update(BLANK, WriteIssued(1, 0, d))
    ensures s.m == MasterState(map[], map[1 := WriteEntry(0, 0, Xor(d), PLACES)], OneTimer(0, 1))
    ensures s.clock == 0 && s.dec == map[] && s.chan == map[0 := [], 1 := []]
    ensures s.mem == Fresh().mem[Location(0, 0) := Xor(d)][Location(1, 1) := Xor(d)]
    ensures s.replies == {WriteReply(0, 1, 0), WriteReply(1, 1, 0)}
  {
    hide Reaches, Small, Update, Xor, OneTimer;
    s := WriteSent(c, rule, d);
    s := Stored(c, s, rule, 0, 1, 0, Xor(d), []);
    s := Stored(c, s, rule, 1, 1, 1, Xor(d), []);
    assert s.chan == map[0 := [], 1 := []];
  }

  ghost function WriteDone(d: Data): Register {
    Update(Update(Update(Update(BLANK, WriteIssued(1, 0, d)), MinionAcked(1, 0)), MinionAcked(1, 1)), WriteAnswered(1, 0))
  }

  lemma OnlyWriteKnown(d: Data)
    ensures !Known(WriteDone(d), 2)
  {
  }

  lemma WriteAckedOnce(c: Config, rule: Rule, d: Data) returns (s: System)
    requires Small(c)
    ensures Reaches(c, s, rule) && s.reg == Update(Update(BLANK, WriteIssued(1, 0, d)), MinionAcked(1, 0))
    ensures s.m == MasterState(map[], map[1 := WriteEntry(0, 0, Xor(d), [Location(1, 1)])], OneTimer(0, 1))
    ensures s.clock == 0 && s.dec == map[] && s.chan == map[0 := [], 1 := []] && WriteReply(1, 1, 0) in s.replies
    ensures s.mem == Fresh().mem[Location(0, 0) := Xor(d)][Location(1, 1) := Xor(d)]
    ensures s.hist == [WriteIssued(1, 0, d), MinionAcked(1, 0)]
  {
    hide Reaches, Small, Update, Xor, OneTimer, Fresh;
    s := WriteStored(c, rule, d);
    s := Acknowledged(c, s, rule, 0, 1, WriteEntry(0, 0, Xor(d), PLACES), Location(1, 1), ZERO);
  }

  // ... and answered.
  lemma WriteAcknowledged(c: Config, rule: Rule, d: Data) returns (s: System)
    requires Small(c)
    ensures Reaches(c, s, rule) && s.reg == WriteDone(d)
    ensures s.m == MasterState(map[], map[], NoTimer(1)) && s.clock == 0 && s.dec == map[] && s.chan == map[0 := [], 1 := []]
    ensures s.mem == Fresh().mem[Location(0, 0) := Xor(d)][Location(1, 1) := Xor(d)]
    ensures s.hist == [WriteIssued(1, 0, d), MinionAcked(1, 0), MinionAcked(1, 1), WriteAnswered(1, 0)]
  {
    s := WriteAckedOnce(c, rule, d);
    OnlyTimer(0, 1, ZERO);
    assert HasTimer(s.m, 0);
    hide Reaches, Small, Update, Xor, OneTimer, NoTimer, AfterCancel, HasTimer, Fresh;
    s := Completed(c, s, rule, 1, WriteEntry(0, 0, Xor(d), [Location(1, 1)]), Location(1, 1), ZERO);
  }

  lemma ReadAsked(c: Config, rule: Rule, d: Data) returns (s: System)
    requires Small(c)
    ensures Reaches(c, s, rule) && s.clock == 0 && s.dec == map[] && s.chan == map[0 := [ReadMsg(2, 0)], 1 := [ReadMsg(2, 1)]]
    ensures s.m == MasterState(map[2 := ReadEntry(1, 0, PLACES)], map[], OneTimer(1, 2))
    ensures s.mem == Fresh().mem[Location(0, 0) := Xor(d)][Location(1, 1) := Xor(d)]
    ensures s.hist == [WriteIssued(1, 0, d), MinionAcked(1, 0), MinionAcked(1, 1), WriteAnswered(1, 0), ReadIssued(2, 0)]
  {
    hide Reaches, GoodConfig, Update, Xor, OneTimer, WriteDone, AfterSet, Known, Fresh;
    s := WriteAcknowledged(c, rule, d);
    OnlyWriteKnown(d);
    FirstTimer(1, 2);
    assert c.place(0) == PLACES && CanSet(s, ZERO) && s.m.timer.counter == 1;
    hide Small, NoTimer, CanSet;
    s := Asked(c, s, rule, 2, 0, ZERO);
  }

  // The read, asked of both minions and answered by both.
  lemma ReadServed(c: Config, rule: Rule, d: Data) returns (s: System)
    requires Small(c)
    ensures Reaches(c, s, rule) && s.clock == 0 && s.dec == map[] && s.chan == map[0 := [], 1 := []]
    ensures s.m == MasterState(map[2 := ReadEntry(1, 0, PLACES)], map[], OneTimer(1, 2))
    ensures s.mem == Fresh().mem[Location(0, 0) := Xor(d)][Location(1, 1) := Xor(d)]
    ensures ReadReply(0, 2, 0, Xor(d)) in s.replies && ReadReply(1, 2, 0, Xor(d)) in s.replies
    ensures s.hist == [WriteIssued(1, 0, d), MinionAcked(1, 0), MinionAcked(1, 1), WriteAnswered(1, 0), ReadIssued(2, 0)]
  {
    hide Reaches, Small, Xor, OneTimer;
    s := ReadAsked(c, rule, d);
    s := Read(c, s, rule, 0, 2, 0, Xor(d), []);
    s := Read(c, s, rule, 1, 2, 1, Xor(d), []);
    assert s.chan == map[0 := [], 1 := []];
  }

  lemma ReadAnsweredRight(c: Config, rule: Rule, d: Data) returns (s: System)
    requires Small(c)
    ensures Reaches(c, s, rule) && s.clock == 0 && s.dec == map[] && s.chan == map[0 := [], 1 := []]
    ensures s.m == MasterState(map[], map[], NoTimer(2))
    ensures s.mem == Fresh().mem[Location(0, 0) := Xor(d)][Location(1, 1) := Xor(d)]
    ensures ReadReply(0, 2, 0, Xor(d)) in s.replies
    ensures s.hist == [WriteIssued(1, 0, d), MinionAcked(1, 0), MinionAcked(1, 1), WriteAnswered(1, 0),
                       ReadIssued(2, 0), ReadAnswered(2, 0, d)]
  {
    s := ReadServed(c, rule, d);
    OnlyTimer(1, 2, ZERO);
    assert HasTimer(s.m, 1) && c.place(0) == PLACES;
    XorTwice(d);
    hide Reaches, Small, Update, Xor, OneTimer, NoTimer, AfterCancel, HasTimer;
    s := Taken(c, s, rule, 1, 2, ReadEntry(1, 0, PLACES), Xor(d), ZERO);
    s := Decrypted(c, s, rule, 2, Xor(d));
  }

  // By SmallDevice, on a device as BlockTable lays it out.
  lemma WriteThenRead(c: Config, d: Data) returns (s: System)
    requires Small(c)
    ensures Reachable(c, s)
    ensures s.hist == [WriteIssued(1, 0, d), MinionAcked(1, 0), MinionAcked(1, 1), WriteAnswered(1, 0),
                       ReadIssued(2, 0), ReadAnswered(2, 0, d)]
  {
    s := ReadAnsweredRight(c, NoneDropped, d);
    var n: nat :| ReachesIn(c, s, NoneDropped, n);
    hide ReachesIn, Reachable, Xor;
    NoneDroppedReachable(c, s, n);
  }

  // ------------------------------------------------------------------
  // An ID used twice: a reply to the first read of that ID, late, answers the
  // second one, of another block, with the first one's data.

  lemma ReusedID(c: Config, d: Data) returns (s: System)
    requires Small(c)
    ensures Reaches(c, s, FreshIDDropped)
    ensures s.hist == [WriteIssued(1, 0, d), MinionAcked(1, 0), MinionAcked(1, 1), WriteAnswered(1, 0),
                       ReadIssued(2, 0), ReadAnswered(2, 0, d), ReadIssued(2, 1), ReadAnswered(2, 0, d)]
    ensures forall loc :: loc in c.place(1) ==> loc in s.mem && s.mem[loc] == [] // never written
  {
    hide Reaches, GoodConfig, Update, Xor;
    s := ReadAnsweredRight(c, FreshIDDropped, d);
    FirstTimer(2, 2);
    OnlyTimer(2, 2, ZERO);
    assert Find(OneTimer(2, 2).cbs, 2) < |OneTimer(2, 2).cbs|;
    XorTwice(d);
    assert c.place(1) == OTHER_PLACES;
    hide Reaches, Small, Update, Xor, OneTimer, NoTimer, AfterSet, AfterCancel, Find;
    s := Asked(c, s, FreshIDDropped, 2, 1, ZERO);
    s := Taken(c, s, FreshIDDropped, 0, 2, ReadEntry(2, 1, OTHER_PLACES), Xor(d), ZERO);
    s := Decrypted(c, s, FreshIDDropped, 2, Xor(d));
  }

  // ------------------------------------------------------------------
  // Two writes of one block at once: a lost message of the first is sent again
  // behind the second, and both writes are answered with the replicas different
  // for good.

  lemma SecondTimer()
    ensures AfterSet(OneTimer(0, 1), ONE, TIMEOUT, 2) == BothTimers()
  {
  }

  function BothTimers(): TimerState<ID> {
    TimerState([Entry(TIMEOUT, 0, 1), Entry(TIMEOUT + 1, 1, 2)], 2, true, Some(TIMEOUT))
  }

  ghost function Entries(d1: Data, d2: Data): map<ID, WriteEntry> {
    map[1 := WriteEntry(0, 0, Xor(d1), PLACES), 2 := WriteEntry(1, 0, Xor(d2), PLACES)]
  }

  // The second write is issued while the first is under way ...
  lemma BothIssued(c: Config, d1: Data, d2: Data) returns (s: System)
    requires Small(c)
    ensures Reaches(c, s, OneWriteDropped) && s.clock == 0 && s.enc == map[2 := true] && s.dec == map[] && s.replies == {}
    ensures s.m == MasterState(map[], Entries(d1, d2)[2 := WriteEntry(0, 0, Xor(d2), PLACES)], OneTimer(0, 1))
    ensures s.chan == map[0 := [WriteMsg(1, 0, Xor(d1))], 1 := [WriteMsg(1, 1, Xor(d1))]]
    ensures s.mem == Fresh().mem && s.hist == [WriteIssued(1, 0, d1), WriteIssued(2, 0, d2)]
  {
    FirstWriteKnown(d1);
    hide Reaches, Small, Update, Xor, OneTimer, Known, Fresh;
    s := WriteSent(c, OneWriteDropped, d1);
    s := Written(c, s, OneWriteDropped, 2, d2);
    s := Encrypted(c, s, OneWriteDropped, 2, WriteEntry(0, 0, d2, PLACES));
    assert s.enc == map[2 := true];
    assert s.m.writeReqs == Entries(d1, d2)[2 := WriteEntry(0, 0, Xor(d2), PLACES)];
  }

  lemma FirstWriteKnown(d: Data)
    ensures !Known(Update(BLANK, WriteIssued(1, 0, d)), 2)
  {
  }

  // ... and sent.
  lemma BothSent(c: Config, d1: Data, d2: Data) returns (s: System)
    requires Small(c)
    ensures Reaches(c, s, OneWriteDropped) && s.clock == 1 && s.enc == map[] && s.dec == map[] && s.replies == {}
    ensures s.m == MasterState(map[], Entries(d1, d2), BothTimers())
    ensures s.chan == map[0 := [WriteMsg(1, 0, Xor(d1)), WriteMsg(2, 0, Xor(d2))], 1 := [WriteMsg(1, 1, Xor(d1)), WriteMsg(2, 1, Xor(d2))]]
    ensures s.mem == Fresh().mem && s.hist == [WriteIssued(1, 0, d1), WriteIssued(2, 0, d2)]
  {
    hide Reaches, Small, Xor, BothTimers, AfterSet, Fresh;
    s := BothIssued(c, d1, d2);
    SecondTimer();
    assert CanSet(s, ONE) && s.m.timer.counter == 1;
    hide OneTimer, CanSet;
    s := Sent(c, s, OneWriteDropped, 2, WriteEntry(0, 0, Xor(d2), PLACES), ONE);
    var x1, x2 := Xor(d1), Xor(d2);
    assert [WriteMsg(1, 0, x1)] + [WriteMsg(2, 0, x2)] == [WriteMsg(1, 0, x1), WriteMsg(2, 0, x2)];
    assert [WriteMsg(1, 1, x1)] + [WriteMsg(2, 1, x2)] == [WriteMsg(1, 1, x1), WriteMsg(2, 1, x2)];
    assert s.m.writeReqs == Entries(d1, d2);
    assert s.enc == map[];
  }

  // Minion 0 loses the first one; both store the second one last.
  lemma BothStored(c: Config, d1: Data, d2: Data) returns (s: System)
    requires Small(c)
    ensures Reaches(c, s, OneWriteDropped) && s.clock == 1 && s.m == MasterState(map[], Entries(d1, d2), BothTimers())
    ensures s.chan == map[0 := [], 1 := []] && Location(0, 0) in s.mem && Location(1, 1) in s.mem
    ensures s.mem[Location(1, 1)] == Xor(d2) && s.replies == {WriteReply(0, 2, 0), WriteReply(1, 1, 0), WriteReply(1, 2, 0)}
    ensures s.hist == [WriteIssued(1, 0, d1), WriteIssued(2, 0, d2)]
  {
    var rule, x1, x2 := OneWriteDropped, Xor(d1), Xor(d2);
    hide Reaches, Small, Xor, BothTimers, Entries;
    s := BothSent(c, d1, d2);
    s := Lost(c, s, rule, 0, WriteMsg(1, 0, x1), [WriteMsg(2, 0, x2)]);
    s := Stored(c, s, rule, 0, 2, 0, x2, []);
    s := Stored(c, s, rule, 1, 1, 1, x1, [WriteMsg(2, 1, x2)]);
    s := Stored(c, s, rule, 1, 2, 1, x2, []);
    assert s.chan == map[0 := [], 1 := []];
  }

  function FirstLeft(): TimerState<ID> {
    TimerState([Entry(TIMEOUT, 0, 1)], 2, true, Some(TIMEOUT))
  }

  lemma SecondCancelled()
    ensures Find(BothTimers().cbs, 1) == 1 < |BothTimers().cbs| && AfterCancel(BothTimers(), 1, ONE) == FirstLeft()
  {
    var cbs := BothTimers().cbs;
    assert cbs[1..] == [Entry(TIMEOUT + 1, 1, 2)];
    assert Find(cbs, 1) == 1 + Find(cbs[1..], 1);
    assert Remove(cbs, 1) == [Entry(TIMEOUT, 0, 1)];
  }

  // The second write is answered; the first still waits for minion 0.
  lemma SecondAnswered(c: Config, d1: Data, d2: Data) returns (s: System)
    requires Small(c)
    ensures Reaches(c, s, OneWriteDropped) && s.clock == 1
    ensures s.m == MasterState(map[], map[1 := WriteEntry(0, 0, Xor(d1), [Location(0, 0)])], FirstLeft())
    ensures s.chan == map[0 := [], 1 := []] && Location(0, 0) in s.mem && Location(1, 1) in s.mem && s.mem[Location(1, 1)] == Xor(d2)
    ensures s.hist == [WriteIssued(1, 0, d1), WriteIssued(2, 0, d2), MinionAcked(1, 1), MinionAcked(2, 0), MinionAcked(2, 1),
                       WriteAnswered(2, 0)]
  {
    var rule, x1, x2 := OneWriteDropped, Xor(d1), Xor(d2);
    SecondCancelled();
    hide Reaches, Small, Xor, BothTimers, FirstLeft, AfterCancel, Find, Update;
    s := BothStored(c, d1, d2);
    s := Acknowledged(c, s, rule, 1, 1, WriteEntry(0, 0, x1, PLACES), Location(0, 0), ONE);
    s := Acknowledged(c, s, rule, 0, 2, WriteEntry(1, 0, x2, PLACES), Location(1, 1), ONE);
    assert HasTimer(s.m, 1);
    s := Completed(c, s, rule, 2, WriteEntry(1, 0, x2, [Location(1, 1)]), Location(1, 1), ONE);
    assert s.m.writeReqs == map[1 := WriteEntry(0, 0, x1, [Location(0, 0)])];
  }

  function AgainSet(): TimerState<ID> {
    TimerState([Entry(2 * TIMEOUT, 2, 1)], 3, true, Some(2 * TIMEOUT))
  }

  lemma FirstFires(e: WriteEntry)
    requires e.locs == [Location(0, 0)]
    ensures Expire(MasterState(map[], map[1 := e], FirstLeft()), LATE, LATE) ==
            (MasterState(map[], map[1 := e.(handle := 2)], AgainSet()), [Packet(0, WriteMsg(1, 0, e.data))])
  {
    SetAgain();
    EraseFirst();
    hide AfterSet, AfterErase;
    assert WritePackets(1, e.data, e.locs) == [Packet(0, WriteMsg(1, 0, e.data))];
    assert map[1 := e][1 := e.(handle := 2)] == map[1 := e.(handle := 2)];
  }

  function FirstAndAgain(): TimerState<ID> {
    TimerState([Entry(TIMEOUT, 0, 1), Entry(2 * TIMEOUT, 2, 1)], 3, true, Some(TIMEOUT))
  }

  lemma SetAgain()
    ensures AfterSet(FirstLeft(), LATE, TIMEOUT, 1) == FirstAndAgain()
  {
    var e := Entry(2 * TIMEOUT, 2, 1);
    assert Insert([Entry(TIMEOUT, 0, 1)], e) == [Entry(TIMEOUT, 0, 1)] + Insert([Entry(TIMEOUT, 0, 1)][1..], e);
    assert [Entry(TIMEOUT, 0, 1)][1..] == [];
  }

  lemma EraseFirst()
    ensures AfterErase(FirstAndAgain(), 0, LATE) == AgainSet()
  {
    assert Remove(FirstAndAgain().cbs, 0) == [Entry(2 * TIMEOUT, 2, 1)];
  }

  lemma SentToFirst(msg: Msg)
    ensures Send(map[0 := [], 1 := []], [Packet(0, msg)]) == map[0 := [msg], 1 := []]
  {
    var out := [Packet(0, msg)];
    assert out[1..] == [];
    assert For(out, 0) == [msg] + For(out[1..], 0) && For(out, 1) == [] + For(out[1..], 1);
    assert [] + For(out, 0) == [msg] && [] + For(out, 1) == [];
  }

  // It is sent again.
  lemma FirstSentAgain(c: Config, d1: Data, d2: Data) returns (s: System)
    requires Small(c)
    ensures Reaches(c, s, OneWriteDropped) && s.clock == TIMEOUT
    ensures s.m == MasterState(map[], map[1 := WriteEntry(2, 0, Xor(d1), [Location(0, 0)])], AgainSet())
    ensures s.chan == map[0 := [WriteMsg(1, 0, Xor(d1))], 1 := []]
    ensures Location(0, 0) in s.mem && Location(1, 1) in s.mem && s.mem[Location(1, 1)] == Xor(d2)
    ensures s.hist == [WriteIssued(1, 0, d1), WriteIssued(2, 0, d2), MinionAcked(1, 1), MinionAcked(2, 0), MinionAcked(2, 1),
                       WriteAnswered(2, 0)]
  {
    hide Reaches, Small, Xor, AgainSet, Expire, Send, Receive, Process;
    s := SecondAnswered(c, d1, d2);
    FirstFires(WriteEntry(0, 0, Xor(d1), [Location(0, 0)]));
    SentToFirst(WriteMsg(1, 0, Xor(d1)));
    s := Go(c, s, TimerFires(LATE, LATE), OneWriteDropped);
  }

  lemma OverlappingWrites(c: Config, d1: Data, d2: Data) returns (s: System)
    requires Small(c)
    ensures Reaches(c, s, OneWriteDropped)
    ensures s.hist == [WriteIssued(1, 0, d1), WriteIssued(2, 0, d2), MinionAcked(1, 1), MinionAcked(2, 0), MinionAcked(2, 1),
                       WriteAnswered(2, 0), MinionAcked(1, 0), WriteAnswered(1, 0)]
    ensures s.m.writeReqs == map[] && s.chan == map[0 := [], 1 := []]
    ensures Location(0, 0) in s.mem && s.mem[Location(0, 0)] == Xor(d1)
    ensures Location(1, 1) in s.mem && s.mem[Location(1, 1)] == Xor(d2)
    ensures Xor(d1) == Xor(d2) ==> d1 == d2
  {
    XorTwice(d1);
    XorTwice(d2);
    hide Reaches, Small, Xor, AfterCancel, Update;
    s := FirstSentAgain(c, d1, d2);
    s := Stored(c, s, OneWriteDropped, 0, 1, 0, Xor(d1), []);
    assert s.chan == map[0 := [], 1 := []];
    assert HasTimer(s.m, 2);
    s := Completed(c, s, OneWriteDropped, 1, WriteEntry(2, 0, Xor(d1), [Location(0, 0)]), Location(0, 0), LATE);
  }
}
