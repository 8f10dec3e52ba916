// Whole runs of the replicated device: no assertion of the code fails, the
// operating system sees a regular register, replicas agree whenever nothing
// is outstanding, data in flight is encrypted exactly once, timers match
// requests, and retransmission makes progress.
module Replication {
  import opened Cipher
  import opened BlockTables
  import opened Timers
  import opened Protocol
  import opened Registers
  import opened Regularity
  import opened Systems
  import opened Invariants
  import opened Preservation

  // The environment keeps its rules at every step, as long as the code does.
  ghost predicate Legal(c: Config, s: System, steps: seq<Step>)
    decreases |steps|
  {
    steps == [] ||
    (Enabled(c, s, steps[0]) && (Asserts(c, s, steps[0]) ==> Legal(c, Apply(c, s, steps[0]), steps[1..])))
  }

  // The state a run ends in; None if an assertion of the code failed.
  ghost function Run(c: Config, s: System, steps: seq<Step>): Option<System>
    requires Legal(c, s, steps)
    decreases |steps|
  {
    if steps == [] then Some(s)
    else if Asserts(c, s, steps[0]) then Run(c, Apply(c, s, steps[0]), steps[1..])
    else None
  }

  lemma {:induction false} RunKeeps(c: Config, s: System, steps: seq<Step>)
    requires Inv(c, s) && Legal(c, s, steps)
    ensures Run(c, s, steps).Some? && Inv(c, Run(c, s, steps).value)
    decreases |steps|
  {
    hide Inv, Enabled, Asserts, Apply;
    if steps != [] {
      StepKeeps(c, s, steps[0]);
      RunKeeps(c, Apply(c, s, steps[0]), steps[1..]);
    }
  }

  // The states runs can end in, from memories of any contents.
  ghost predicate Reachable(c: Config, s: System) {
    exists s0, steps :: Init(c, s0) && Legal(c, s0, steps) && Run(c, s0, steps) == Some(s)
  }

  lemma ReachableInv(c: Config, s: System)
    requires GoodConfig(c) && Reachable(c, s)
    ensures Inv(c, s)
  {
    var s0, steps :| Init(c, s0) && Legal(c, s0, steps) && Run(c, s0, steps) == Some(s);
    InitInv(c, s0);
    RunKeeps(c, s0, steps);
  }

  // On a device with two minions or more, in any run whatever, no assertion
  // of the code fails.
  lemma NoAssertionFails(minions: nat, perGroup: nat, s: System, steps: seq<Step>)
    requires minions >= 2 && perGroup > 0
    requires Init(Device(minions, perGroup), s) && Legal(Device(minions, perGroup), s, steps)
    ensures Run(Device(minions, perGroup), s, steps).Some?
  {
    DeviceGood(minions, perGroup);
    InitInv(Device(minions, perGroup), s);
    RunKeeps(Device(minions, perGroup), s, steps);
  }

  // ------------------------------------------------------------------
  // What the operating system sees: the history conforms to the register, so
  // all that module Regularity proves of histories holds of it.

  lemma ReadsOfTheDevice(c: Config, s: System, i: nat, k: nat, id: ID, b: nat, status: int, d: Data)
    requires GoodConfig(c) && Reachable(c, s)
    requires i < |s.hist| && k < |s.hist|
    requires s.hist[i] == ReadIssued(id, b) && s.hist[k] == ReadAnswered(id, status, d) && WrittenBefore(s.hist, i, b)
    ensures i < k && status == 0 && Returnable(s.hist, i, k, b, d)
  {
    ReachableInv(c, s);
    ReadsAreRegular(c, s.hist, i, k, id, b, status, d);
  }

  // With no write to the block overlapping it, a read of the device returns
  // what the last write wrote.
  lemma QuietReadsOfTheDevice(c: Config, s: System, i: nat, k: nat, id: ID, b: nat, status: int, d: Data,
                              j: nat, w: ID, last: Data)
    requires GoodConfig(c) && Reachable(c, s)
    requires i < |s.hist| && k < |s.hist|
    requires s.hist[i] == ReadIssued(id, b) && s.hist[k] == ReadAnswered(id, status, d)
    requires j < i && IssuesWrite(s.hist, j, w, b, last) && AnsweredBefore(s.hist, i, w)
    requires forall n, x, d' :: j < n < k && n < |s.hist| ==> !IssuesWrite(s.hist, n, x, b, d')
    ensures d == last
  {
    ReachableInv(c, s);
    QuietReadsAreExact(c, s.hist, i, k, id, b, status, d, j, w, last);
  }

  lemma AnswersOfTheDevice(c: Config, s: System, m: nat, n: nat)
    requires GoodConfig(c) && Reachable(c, s) && m < n < |s.hist|
    requires s.hist[m].WriteAnswered? || s.hist[m].ReadAnswered?
    requires s.hist[n].WriteAnswered? || s.hist[n].ReadAnswered?
    ensures s.hist[m].id != s.hist[n].id
  {
    ReachableInv(c, s);
    AtMostOneAnswer(c, s.hist, m, n);
  }

  // A write has been answered exactly when every minion that Translate names
  // for its block has acknowledged it.
  lemma AnsweredIffAcknowledged(c: Config, s: System, id: ID)
    requires GoodConfig(c) && Reachable(c, s) && id in s.reg.issued
    ensures Answered(s.hist, id) <==> forall i :: i in MinionsOf(c, s.reg.issued[id].block) ==> MinionAcked(id, i) in s.hist
  {
    ReachableInv(c, s);
    DoneInHistory(c, s, id);
    hide Inv, Answered;
    AcksInHistory(c, s);
    var b := s.reg.issued[id].block;
    if id !in s.reg.done {
      var loc := UnansweredWaits(c, s, id);
      assert loc.minion in MinionsOf(c, b);
    } else {
      DoneIsAcked(c, s, id);
    }
  }

  lemma DoneInHistory(c: Config, s: System, id: ID)
    requires Inv(c, s) && id in s.reg.issued
    ensures id in s.reg.done <==> Answered(s.hist, id)
  {
    assert s.hist[..|s.hist|] == s.hist;
    hide Answered, RegisterOk, WritesOk, ReadsOk, ChannelsOk, SlotsOk, AcksOk, RepliesOk, Conforms, TimerOk, GoodConfig;
    DoneIffAnswered(c, s.hist, |s.hist|, id);
  }

  lemma AcksInHistory(c: Config, s: System)
    requires Inv(c, s)
    ensures forall id, i :: id in s.reg.acks && i in s.reg.acks[id] <==> MinionAcked(id, i) in s.hist
  {
    SeenUpTo(c, s.hist, |s.hist|);
    assert s.hist[..|s.hist|] == s.hist;
  }

  lemma DoneIsAcked(c: Config, s: System, id: ID)
    requires Inv(c, s) && id in s.reg.issued && id in s.reg.done
    ensures id in s.reg.acks && s.reg.acks[id] == MinionsOf(c, s.reg.issued[id].block)
  {
    hide WritesOk, ReadsOk, ChannelsOk, SlotsOk, AcksOk, RepliesOk, Conforms, TimerOk, GoodConfig;
  }

  // An unanswered write still waits for some replica's minion.
  lemma UnansweredWaits(c: Config, s: System, id: ID) returns (loc: Location)
    requires Inv(c, s) && id in s.reg.issued && id !in s.reg.done
    ensures id in s.reg.acks && loc in c.place(s.reg.issued[id].block) && loc.minion !in s.reg.acks[id]
  {
    hide ReadsOk, ChannelsOk, SlotsOk, AcksOk, RepliesOk, Conforms, TimerOk, GoodConfig;
    assert IsPending(s.reg, id) && id in s.m.writeReqs;
    var e := s.m.writeReqs[id];
    assert WriteOk(c, s.reg, id, e, id in s.enc && !s.enc[id]);
    loc := e.locs[0];
  }

  // ------------------------------------------------------------------
  // Replicas

  // With no write outstanding, both replicas of an acknowledged block hold
  // the acknowledged data, encrypted, and so does every write under way to
  // them. With one outstanding, a replica holds one of the two values, and
  // its channel carries the old one's messages before the new one's; where
  // the new one is stored, nothing old is left.
  lemma ReplicasAgree(c: Config, s: System, b: nat, loc: Location)
    requires GoodConfig(c) && Reachable(c, s) && b in s.reg.comm && b < c.blocks && loc in c.place(b)
    ensures loc in s.mem && loc.minion in s.chan && s.reg.comm[b] in s.reg.issued
    ensures b in s.reg.pend ==> s.reg.pend[b] in s.reg.issued
    ensures b !in s.reg.pend ==>
              && s.mem[loc] == Xor(s.reg.issued[s.reg.comm[b]].data)
              && OnlyCarries(s.chan[loc.minion], loc.slot, s.mem[loc])
    ensures b in s.reg.pend ==>
              && OldThenNew(s.reg, s.chan[loc.minion])
              && CarriesEither(s.chan[loc.minion], loc.slot, s.reg.pend[b],
                               Xor(s.reg.issued[s.reg.pend[b]].data), Xor(s.reg.issued[s.reg.comm[b]].data))
              && (|| s.mem[loc] == Xor(s.reg.issued[s.reg.comm[b]].data)
                  || (&& s.mem[loc] == Xor(s.reg.issued[s.reg.pend[b]].data)
                      && OnlyFrom(s.chan[loc.minion], loc.slot, s.reg.pend[b])))
  {
    ReachableInv(c, s);
    ChannelCarries(c, s.reg, s.enc, s.chan, b, loc);
    hide Inv;
    SlotHolds(c, s, b, loc);
  }

  lemma SlotHolds(c: Config, s: System, b: nat, loc: Location)
    requires Inv(c, s) && b in s.reg.comm && b < c.blocks && loc in c.place(b)
    ensures loc in s.mem && s.reg.comm[b] in s.reg.issued && (b in s.reg.pend ==> s.reg.pend[b] in s.reg.issued)
    ensures || s.mem[loc] == Xor(s.reg.issued[s.reg.comm[b]].data)
            || (&& b in s.reg.pend && loc.minion in s.chan
                && s.mem[loc] == Xor(s.reg.issued[s.reg.pend[b]].data)
                && OnlyFrom(s.chan[loc.minion], loc.slot, s.reg.pend[b]))
  {
    hide WritesOk, ReadsOk, ChannelsOk, AcksOk, RepliesOk, Conforms, TimerOk, ShapeOk, ReadersOk;
    assert SlotOk(s.reg, s.mem, s.chan, b, loc);
  }

  lemma ChannelCarries(c: Config, r: Register, enc: map<ID, bool>, chan: map<nat, seq<Msg>>, b: nat, loc: Location)
    requires GoodConfig(c) && RegisterOk(c, r) && ChannelsOk(c, r, enc, chan)
    requires b in r.comm && b < c.blocks && loc in c.place(b)
    ensures loc.minion in chan && r.comm[b] in r.issued && (b in r.pend ==> r.pend[b] in r.issued)
    ensures OldThenNew(r, chan[loc.minion])
    ensures var ch, now := chan[loc.minion], Xor(r.issued[r.comm[b]].data);
            if b in r.pend
            then CarriesEither(ch, loc.slot, r.pend[b], Xor(r.issued[r.pend[b]].data), now)
            else OnlyCarries(ch, loc.slot, now)
  {
    hide ReadersOk, ShapeOk;
    assert loc.minion < c.minions;
    var ch := chan[loc.minion];
    hide GoodConfig;
    forall k | 0 <= k < |ch| && ch[k].WriteMsg? && ch[k].slot == loc.slot
      ensures ch[k].id in r.issued && ch[k].data == Xor(r.issued[ch[k].id].data)
      ensures (b in r.pend && ch[k].id == r.pend[b]) || ch[k].id == r.comm[b]
    {
      WriteUnderWay(c, r, enc, b, loc, ch[k]);
    }
  }

  // A write on its way to a replica of b is the outstanding or the last
  // acknowledged one.
  lemma WriteUnderWay(c: Config, r: Register, enc: map<ID, bool>, b: nat, loc: Location, msg: Msg)
    requires GoodConfig(c) && RegisterOk(c, r) && b in r.comm && b < c.blocks && loc in c.place(b)
    requires MsgOk(c, r, enc, loc.minion, msg) && msg.WriteMsg? && msg.slot == loc.slot
    ensures msg.id in r.issued && msg.data == Xor(r.issued[msg.id].data)
    ensures (b in r.pend && msg.id == r.pend[b]) || msg.id == r.comm[b]
  {
    hide ReadersOk;
    assert loc in c.place(r.issued[msg.id].block);
  }

  // Every write in a channel to slot carries data.
  ghost predicate OnlyCarries(ch: seq<Msg>, slot: nat, data: Data) {
    forall k :: 0 <= k < |ch| && ch[k].WriteMsg? && ch[k].slot == slot ==> ch[k].data == data
  }

  // ... next if it belongs to write id, now otherwise.
  ghost predicate CarriesEither(ch: seq<Msg>, slot: nat, id: ID, next: Data, now: Data) {
    forall k :: 0 <= k < |ch| && ch[k].WriteMsg? && ch[k].slot == slot ==>
      ch[k].data == if ch[k].id == id then next else now
  }

  // At the moment a write is answered, all its replicas hold its payload.
  lemma AnsweredMeansStored(c: Config, s: System, i: nat, id: ID, status: int, clk: Clock, loc: Location)
    requires GoodConfig(c) && Reachable(c, s) && Enabled(c, s, Deliver(WriteReply(i, id, status), clk))
    requires CompletesWrite(s.m, id, i)
    ensures Asserts(c, s, Deliver(WriteReply(i, id, status), clk)) && id in s.reg.issued
    ensures var s' := Apply(c, s, Deliver(WriteReply(i, id, status), clk));
            && s'.hist == s.hist + [MinionAcked(id, i), WriteAnswered(id, 0)]
            && (loc in c.place(s.reg.issued[id].block) ==>
                  loc in s'.mem && s'.mem[loc] == Xor(s.reg.issued[id].data))
  {
    ReachableInv(c, s);
    hide Inv;
    AnswerStores(c, s, i, id, status, clk, loc);
  }

  lemma AnswerStores(c: Config, s: System, i: nat, id: ID, status: int, clk: Clock, loc: Location)
    requires Inv(c, s) && Enabled(c, s, Deliver(WriteReply(i, id, status), clk)) && CompletesWrite(s.m, id, i)
    ensures Asserts(c, s, Deliver(WriteReply(i, id, status), clk)) && id in s.reg.issued
    ensures var s' := Apply(c, s, Deliver(WriteReply(i, id, status), clk));
            && s'.hist == s.hist + [MinionAcked(id, i), WriteAnswered(id, 0)]
            && (loc in c.place(s.reg.issued[id].block) ==>
                  loc in s'.mem && s'.mem[loc] == Xor(s.reg.issued[id].data))
  {
    hide RegisterOk, WritesOk, ReadsOk, ChannelsOk, SlotsOk, AcksOk, RepliesOk, Conforms, TimerOk, GoodConfig, HasTimer;
    WriteCompletedKeeps(c, s, i, id, status, clk);
    AckRecorded(c, s, i, id, status);
    var r1 := Update(s.reg, MinionAcked(id, i));
    LastAck(c, s, i, id);
    AllStored(c, r1, s.mem, s.chan, s.replies, id);
    CompletedShape(c, s, i, id, clk);
  }

  // Every write message in any channel, first sending or retransmission,
  // carries its payload encrypted exactly once, with no byte in clear.
  lemma EncryptedOnce(c: Config, s: System, i: nat, k: nat)
    requires GoodConfig(c) && Reachable(c, s) && i in s.chan && k < |s.chan[i]| && s.chan[i][k].WriteMsg?
    ensures var msg := s.chan[i][k];
            msg.id in s.reg.issued && msg.id !in s.enc && msg.data == Xor(s.reg.issued[msg.id].data)
            && Xor(msg.data) == s.reg.issued[msg.id].data
            && |msg.data| == |s.reg.issued[msg.id].data|
            && forall n :: 0 <= n < |msg.data| ==> msg.data[n] != s.reg.issued[msg.id].data[n]
  {
    ReachableInv(c, s);
    assert MsgOk(c, s.reg, s.enc, i, s.chan[i][k]);
    XorTwice(s.reg.issued[s.chan[i][k].id].data);
    NoByteInClear(s.reg.issued[s.chan[i][k].id].data);
  }

  // Live timers and waiting requests correspond one to one. (Whether a pending
  // timer fires is another matter: module Liveness.)
  lemma TimersMatchRequests(c: Config, s: System)
    requires GoodConfig(c) && Reachable(c, s)
    ensures var rd, wr, cbs := s.m.readReqs, s.m.writeReqs, s.m.timer.cbs;
            && (forall id :: Waiting(rd, wr, s.enc, id) <==> HasTimerFor(cbs, id))
            && (forall x :: x in cbs ==> x.handle == HandleOf(rd, wr, x.cb))
            && (forall x, y :: x in cbs && y in cbs && (x.cb == y.cb || x.handle == y.handle) ==> x == y)
  {
    ReachableInv(c, s);
  }

  // A reachable state's enabled steps lead to reachable states.
  lemma ReachableStep(c: Config, s: System, step: Step)
    requires GoodConfig(c) && Reachable(c, s) && Enabled(c, s, step)
    ensures Asserts(c, s, step) && Reachable(c, Apply(c, s, step))
  {
    hide Inv, Enabled, Asserts, Apply, Init;
    var s0, steps :| Init(c, s0) && Legal(c, s0, steps) && Run(c, s0, steps) == Some(s);
    ReachableInv(c, s);
    StepKeeps(c, s, step);
    OneMore(c, s0, steps, step);
  }

  lemma {:induction false} OneMore(c: Config, s: System, steps: seq<Step>, step: Step)
    requires Legal(c, s, steps) && Run(c, s, steps).Some?
    requires Enabled(c, Run(c, s, steps).value, step) && Asserts(c, Run(c, s, steps).value, step)
    ensures Legal(c, s, steps + [step]) && Run(c, s, steps + [step]) == Some(Apply(c, Run(c, s, steps).value, step))
    decreases |steps|
  {
    hide Enabled, Asserts, Apply;
    if steps == [] {
      assert steps + [step] == [step];
      assert [step][1..] == [];
    } else {
      assert (steps + [step])[1..] == steps[1..] + [step];
      OneMore(c, Apply(c, s, steps[0]), steps[1..], step);
    }
  }
}
