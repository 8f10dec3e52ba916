// Retransmission makes progress: acknowledgements still missing only ever
// decrease, every first-time acknowledgement removes one, and so rounds that
// each bring a new one empty both request maps.
module Progress {
  import opened Cipher
  import opened BlockTables
  import opened Timers
  import opened Protocol
  import opened Registers
  import opened Systems
  import opened Invariants
  import opened Preservation
  import opened Replication

  // The acknowledgements the master still waits for.
  ghost function Missing(m: MasterState): set<(ID, Location)> {
    (set id, loc | id in m.readReqs && loc in m.readReqs[id].locs :: (id, loc))
    + (set id, loc | id in m.writeReqs && loc in m.writeReqs[id].locs :: (id, loc))
  }

  ghost predicate Issues(step: Step) {
    step.OsRead? || step.OsWrite?
  }

  // A reply the master still waits for.
  ghost predicate FirstAck(s: System, step: Step) {
    match step
    case Deliver(ReadReply(i, id, _, _), _) => AwaitsRead(s.m, id, i)
    case Deliver(WriteReply(i, id, _), _) => AwaitsWrite(s.m, id, i)
    case _ => false
  }

  lemma SubsetSmaller<T>(a: set<T>, b: set<T>)
    requires a <= b
    ensures |a| <= |b| && (a != b ==> |a| < |b|)
  {
    assert b == a + (b - a);
    if a != b {
      assert b - a != {};
    }
  }

  // No location is waited for twice.
  ghost predicate OnceEach(locs: seq<Location>) {
    forall i, j :: 0 <= i < j < |locs| ==> locs[i] != locs[j]
  }

  lemma ReadReplyProgress(m: MasterState, id: ID, i: nat, clk: Clock)
    requires AwaitsRead(m, id, i) && HasTimer(m, m.readReqs[id].handle) && id !in m.writeReqs
    ensures Missing(TakeReadReply(m, id, i, clk)) < Missing(m)
  {
    var loc := m.readReqs[id].locs[FindMinion(m.readReqs[id].locs, i)];
    assert (id, loc) in Missing(m) && (id, loc) !in Missing(TakeReadReply(m, id, i, clk));
  }

  lemma WriteReplyProgress(m: MasterState, id: ID, i: nat, clk: Clock)
    requires AwaitsWrite(m, id, i) && id !in m.readReqs && OnceEach(m.writeReqs[id].locs)
    requires CompletesWrite(m, id, i) ==> HasTimer(m, m.writeReqs[id].handle)
    ensures Missing(TakeWriteReply(m, id, i, clk)) < Missing(m)
  {
    var locs := m.writeReqs[id].locs;
    var k := FindMinion(locs, i);
    var rest := locs[..k] + locs[k + 1..];
    OthersLeft(locs, k);
    hide FindMinion, HasTimer, AfterCancel, OnceEach;
    assert (id, locs[k]) in Missing(m) && (id, locs[k]) !in Missing(TakeWriteReply(m, id, i, clk));
  }

  lemma OthersLeft(locs: seq<Location>, k: nat)
    requires OnceEach(locs) && k < |locs|
    ensures forall loc :: loc in locs[..k] + locs[k + 1..] ==> loc in locs && loc != locs[k]
  {
    var rest := locs[..k] + locs[k + 1..];
    forall loc | loc in rest ensures loc in locs && loc != locs[k] {
      var j :| 0 <= j < |rest| && rest[j] == loc;
      assert loc == locs[if j < k then j else j + 1];
    }
  }

  // What the invariant says of the entry a reply is for.
  lemma AwaitedEntry(c: Config, s: System, id: ID, i: nat)
    requires Inv(c, s)
    ensures AwaitsRead(s.m, id, i) ==> id !in s.m.writeReqs
    ensures AwaitsWrite(s.m, id, i) ==> id !in s.m.readReqs && OnceEach(s.m.writeReqs[id].locs)
  {
    hide RegisterOk, WritesOk, ReadsOk, ChannelsOk, SlotsOk, AcksOk, RepliesOk, Conforms, TimerOk;
    ReadsAndWrites(c, s, id);
    if AwaitsWrite(s.m, id, i) {
      EntryLocations(c, s.reg, s.m.writeReqs, s.enc, id);
    }
  }

  lemma EntryLocations(c: Config, r: Register, wr: map<ID, WriteEntry>, enc: map<ID, bool>, id: ID)
    requires GoodConfig(c) && WritesOk(c, r, wr, enc) && id in wr
    ensures OnceEach(wr[id].locs)
  {
    assert WriteOk(c, r, id, wr[id], id in enc && !enc[id]);
  }

  // Every step other than a new request leaves at most as much missing, and
  // at most as many writes unsent; a first-time acknowledgement leaves less.
  lemma MissingStep(c: Config, s: System, step: Step)
    requires Inv(c, s) && Enabled(c, s, step) && Asserts(c, s, step) && !Issues(step)
    ensures Missing(Apply(c, s, step).m) <= Missing(s.m)
    ensures FirstAck(s, step) ==> Missing(Apply(c, s, step).m) < Missing(s.m)
    ensures Apply(c, s, step).enc.Keys <= s.enc.Keys
    ensures step.EncryptionDone? ==> Apply(c, s, step).enc.Keys < s.enc.Keys
  {
    hide Inv, Missing;
    if step.Deliver? {
      DeliverStep(c, s, step.rep, step.clk);
    } else {
      SameLocations(c, s, step);
      SameMissing(s.m, Apply(c, s, step).m);
    }
    UnsentStep(c, s, step);
    hide Apply, Asserts, Enabled, FirstAck;
  }

  lemma SameLocations(c: Config, s: System, step: Step)
    requires Enabled(c, s, step) && Asserts(c, s, step) && !Issues(step) && !step.Deliver?
    ensures var m, m' := s.m, Apply(c, s, step).m;
            && m'.readReqs.Keys == m.readReqs.Keys && m'.writeReqs.Keys == m.writeReqs.Keys
            && (forall id :: id in m.readReqs ==> m'.readReqs[id].locs == m.readReqs[id].locs)
            && (forall id :: id in m.writeReqs ==> m'.writeReqs[id].locs == m.writeReqs[id].locs)
  {
    hide AfterSet, AfterErase, Send, Settable;
    match step
    case EncryptBuffer(id) =>
    case EncryptionDone(id, _) =>
    case TimerFires(setClk, eraseClk) =>
      FiringSends(c, s, setClk, eraseClk);
      hide Apply;
      FiringLocations(s.m, setClk, eraseClk);
    case _ =>
  }

  lemma FiringSends(c: Config, s: System, setClk: Clock, eraseClk: Clock)
    requires Possible(c, s, TimerFires(setClk, eraseClk)) && Asserts(c, s, TimerFires(setClk, eraseClk))
    ensures s.m.timer.cbs != []
    ensures var s', (m, out) := Apply(c, s, TimerFires(setClk, eraseClk)), Expire(s.m, setClk, eraseClk);
            s'.m == m && s'.chan == Send(s.chan, out)
  {
    hide Expire, Send;
  }

  lemma FiringLocations(m: MasterState, setClk: Clock, eraseClk: Clock)
    requires m.timer.cbs != []
    ensures var m' := Expire(m, setClk, eraseClk).0;
            && m'.readReqs.Keys == m.readReqs.Keys && m'.writeReqs.Keys == m.writeReqs.Keys
            && (forall id :: id in m.readReqs ==> m'.readReqs[id].locs == m.readReqs[id].locs)
            && (forall id :: id in m.writeReqs ==> m'.writeReqs[id].locs == m.writeReqs[id].locs)
  {
    hide AfterSet, AfterErase;
  }

  lemma UnsentStep(c: Config, s: System, step: Step)
    requires Enabled(c, s, step) && Asserts(c, s, step) && !Issues(step)
    ensures Apply(c, s, step).enc.Keys <= s.enc.Keys
    ensures step.EncryptionDone? ==> Apply(c, s, step).enc.Keys < s.enc.Keys
  {
    hide AfterSet, Expire, TakeReadReply, TakeWriteReply, Send, Update, Settable;
  }

  // Buffers and handles may change, what is waited for stays.
  lemma SameMissing(m: MasterState, m': MasterState)
    requires m'.readReqs.Keys == m.readReqs.Keys && m'.writeReqs.Keys == m.writeReqs.Keys
    requires forall id :: id in m.readReqs ==> m'.readReqs[id].locs == m.readReqs[id].locs
    requires forall id :: id in m.writeReqs ==> m'.writeReqs[id].locs == m.writeReqs[id].locs
    ensures Missing(m') == Missing(m)
  {
  }

  lemma DeliverStep(c: Config, s: System, rep: Reply, clk: Clock)
    requires Inv(c, s) && Enabled(c, s, Deliver(rep, clk)) && Asserts(c, s, Deliver(rep, clk))
    ensures Missing(Apply(c, s, Deliver(rep, clk)).m) <= Missing(s.m)
    ensures FirstAck(s, Deliver(rep, clk)) ==> Missing(Apply(c, s, Deliver(rep, clk)).m) < Missing(s.m)
  {
    hide Inv;
    AwaitedEntry(c, s, rep.id, rep.minion);
    match rep
    case ReadReply(i, id, status, data) =>
      if AwaitsRead(s.m, id, i) {
        ReadReplyProgress(s.m, id, i, clk);
      }
    case WriteReply(i, id, status) =>
      if AwaitsWrite(s.m, id, i) {
        WriteReplyProgress(s.m, id, i, clk);
      }
  }

  // ------------------------------------------------------------------
  // Rounds

  ghost function FirstAcks(c: Config, s: System, steps: seq<Step>): nat
    requires Legal(c, s, steps)
    decreases |steps|
  {
    if steps == [] || !Asserts(c, s, steps[0]) then 0
    else (if FirstAck(s, steps[0]) then 1 else 0) + FirstAcks(c, Apply(c, s, steps[0]), steps[1..])
  }

  ghost predicate Quiet(steps: seq<Step>) {
    forall k :: 0 <= k < |steps| ==> !Issues(steps[k])
  }

  // Over a run without new requests, acknowledgements received and those
  // still missing never exceed what was missing at its start.
  lemma {:induction false} AcksAreBounded(c: Config, s: System, steps: seq<Step>)
    requires Inv(c, s) && Legal(c, s, steps) && Quiet(steps)
    ensures Run(c, s, steps).Some?
    ensures FirstAcks(c, s, steps) + |Missing(Run(c, s, steps).value.m)| <= |Missing(s.m)|
    decreases |steps|
  {
    hide Inv, Enabled, Asserts, Apply, Missing, FirstAck;
    if steps != [] {
      StepKeeps(c, s, steps[0]);
      MissingStep(c, s, steps[0]);
      SubsetSmaller(Missing(Apply(c, s, steps[0]).m), Missing(s.m));
      AcksAreBounded(c, Apply(c, s, steps[0]), steps[1..]);
    }
  }

  // A request in the maps still misses an acknowledgement.
  lemma EntryMissing(c: Config, s: System, id: ID)
    requires Inv(c, s) && (id in s.m.readReqs || id in s.m.writeReqs)
    ensures Missing(s.m) != {}
  {
    hide ChannelsOk, SlotsOk, AcksOk, RepliesOk, Conforms, TimerOk, BlocksOk, ReadersOk;
    if id in s.m.readReqs {
      hide WritesOk;
      assert s.reg.readers[id].block < c.blocks;
      assert (id, s.m.readReqs[id].locs[0]) in Missing(s.m);
    } else {
      hide ReadsOk, RegisterOk;
      assert WriteOk(c, s.reg, id, s.m.writeReqs[id], id in s.enc && !s.enc[id]);
      assert (id, s.m.writeReqs[id].locs[0]) in Missing(s.m);
    }
  }

  // Both request maps are empty exactly when nothing is missing.
  lemma NothingMissing(c: Config, s: System)
    requires Inv(c, s)
    ensures Missing(s.m) == {} <==> s.m.readReqs == map[] && s.m.writeReqs == map[]
  {
    if s.m.readReqs != map[] {
      var id :| id in s.m.readReqs;
      EntryMissing(c, s, id);
    } else if s.m.writeReqs != map[] {
      var id :| id in s.m.writeReqs;
      EntryMissing(c, s, id);
    }
  }

  // A sequence of rounds without new requests, each of which brings a missing
  // acknowledgement as long as one is missing.
  ghost predicate Rounds(c: Config, s: System, rounds: seq<seq<Step>>)
    decreases |rounds|
  {
    rounds == [] ||
    (&& Legal(c, s, rounds[0]) && Quiet(rounds[0])
     && (Missing(s.m) != {} ==> FirstAcks(c, s, rounds[0]) > 0)
     && (Run(c, s, rounds[0]).Some? ==> Rounds(c, Run(c, s, rounds[0]).value, rounds[1..])))
  }

  ghost function RunRounds(c: Config, s: System, rounds: seq<seq<Step>>): Option<System>
    requires Rounds(c, s, rounds)
    decreases |rounds|
  {
    if rounds == [] then Some(s)
    else if Run(c, s, rounds[0]).Some? then RunRounds(c, Run(c, s, rounds[0]).value, rounds[1..])
    else None
  }

  // As many rounds as acknowledgements were missing empty both maps.
  lemma {:induction false} RoundsFinish(c: Config, s: System, rounds: seq<seq<Step>>)
    requires Inv(c, s) && Rounds(c, s, rounds) && |rounds| >= |Missing(s.m)|
    ensures RunRounds(c, s, rounds).Some?
    ensures RunRounds(c, s, rounds).value.m.readReqs == map[] && RunRounds(c, s, rounds).value.m.writeReqs == map[]
    decreases |rounds|
  {
    hide Inv, Missing, FirstAcks, Run, Legal;
    if rounds == [] {
      NothingMissing(c, s);
    } else {
      AcksAreBounded(c, s, rounds[0]);
      RunKeeps(c, s, rounds[0]);
      RoundsFinish(c, Run(c, s, rounds[0]).value, rounds[1..]);
    }
  }
}
