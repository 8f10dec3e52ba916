// Every step of the replicated device keeps the invariant, and whatever the
// code asserts on the way holds.
module Preservation {
  import opened Cipher
  import opened BlockTables
  import opened Timers
  import opened Protocol
  import opened Registers
  import opened Systems
  import opened Invariants

  // ------------------------------------------------------------------
  // Sending

  lemma {:induction false} ForMember(out: seq<Packet>, i: nat, msg: Msg)
    ensures msg in For(out, i) <==> Packet(i, msg) in out
  {
    if out != [] {
      ForMember(out[1..], i, msg);
      assert out == [out[0]] + out[1..];
    }
  }

  // Every message a Send adds is one of the packets.
  lemma SendAdds(chan: map<nat, seq<Msg>>, out: seq<Packet>, i: nat, k: nat)
    requires i in chan && k < |Send(chan, out)[i]|
    ensures k < |chan[i]| ==> Send(chan, out)[i][k] == chan[i][k]
    ensures k >= |chan[i]| ==> Packet(i, Send(chan, out)[i][k]) in out
  {
    if k >= |chan[i]| {
      var added := For(out, i);
      assert Send(chan, out)[i][k] == added[k - |chan[i]|];
      ForMember(out, i, added[k - |chan[i]|]);
    }
  }

  // Resending the outstanding write id, or a read, to replicas of its block.
  ghost predicate GoodPackets(c: Config, r: Register, enc: map<ID, bool>, out: seq<Packet>, id: ID) {
    forall p :: p in out ==>
      && MsgOk(c, r, enc, p.minion, p.msg)
      && (p.msg.WriteMsg? ==> p.msg.id == id && IsPending(r, id))
  }

  lemma SendKeepsChannels(c: Config, r: Register, enc: map<ID, bool>, chan: map<nat, seq<Msg>>, out: seq<Packet>, id: ID)
    requires ChannelsOk(c, r, enc, chan) && GoodPackets(c, r, enc, out, id)
    ensures ChannelsOk(c, r, enc, Send(chan, out))
  {
    var chan' := Send(chan, out);
    forall i, k | i in chan' && 0 <= k < |chan'[i]| ensures MsgOk(c, r, enc, i, chan'[i][k]) {
      SendAdds(chan, out, i, k);
      if k < |chan[i]| {
        assert MsgOk(c, r, enc, i, chan[i][k]);
      }
    }
    forall i | i in chan' ensures OldThenNew(r, chan'[i]) {
      var ch' := chan'[i];
      forall a, b | 0 <= a < b < |ch'| && ch'[a].WriteMsg? && ch'[b].WriteMsg? && ch'[a].slot == ch'[b].slot
        ensures IsPending(r, ch'[a].id) ==> IsPending(r, ch'[b].id)
      {
        SendAdds(chan, out, i, a);
        SendAdds(chan, out, i, b);
        if b < |chan[i]| {
          assert OldThenNew(r, chan[i]);
        }
      }
    }
  }

  // Messages of one write do not disturb what another block's replica, or
  // its own, has stored.
  lemma SendKeepsStored(c: Config, r: Register, enc: map<ID, bool>, mem: map<Location, Data>,
                        chan: map<nat, seq<Msg>>, out: seq<Packet>, id: ID, w: ID, loc: Location)
    requires GoodConfig(c) && RegisterOk(c, r) && GoodPackets(c, r, enc, out, id)
    requires IsPending(r, w) && loc in c.place(r.issued[w].block) && Stored(r, mem, chan, w, loc)
    ensures Stored(r, mem, Send(chan, out), w, loc)
  {
    var ch' := Send(chan, out)[loc.minion];
    forall k | 0 <= k < |ch'| && ch'[k].WriteMsg? && ch'[k].slot == loc.slot ensures ch'[k].id == w {
      SendAdds(chan, out, loc.minion, k);
      if k >= |chan[loc.minion]| {
        assert MsgOk(c, r, enc, loc.minion, ch'[k]);
        assert loc in c.place(r.issued[id].block);
      }
    }
  }

  lemma SendKeepsReplicas(c: Config, r: Register, enc: map<ID, bool>, mem: map<Location, Data>,
                          chan: map<nat, seq<Msg>>, replies: set<Reply>, out: seq<Packet>, id: ID)
    requires GoodConfig(c) && RegisterOk(c, r) && GoodPackets(c, r, enc, out, id)
    requires SlotsOk(c, r, mem, chan) && AcksOk(c, r, mem, chan, replies)
    ensures SlotsOk(c, r, mem, Send(chan, out)) && AcksOk(c, r, mem, Send(chan, out), replies)
  {
    var chan' := Send(chan, out);
    forall b, loc | 0 <= b < c.blocks && loc in c.place(b) ensures SlotOk(r, mem, chan', b, loc) {
      assert SlotOk(r, mem, chan, b, loc);
      if b in r.pend && Stored(r, mem, chan, r.pend[b], loc) {
        SendKeepsStored(c, r, enc, mem, chan, out, id, r.pend[b], loc);
      }
    }
    forall w, loc | IsPending(r, w) && loc in c.place(r.issued[w].block)
      ensures Acked(r, replies, w, loc.minion) ==> Stored(r, mem, chan', w, loc)
    {
      if Acked(r, replies, w, loc.minion) {
        SendKeepsStored(c, r, enc, mem, chan, out, id, w, loc);
      }
    }
  }

  // The packets for a waiting request are good ones.
  lemma RequestPackets(c: Config, s: System, id: ID)
    requires GoodConfig(c) && RegisterOk(c, s.reg)
    requires WritesOk(c, s.reg, s.m.writeReqs, s.enc) && ReadsOk(c, s.reg, s.m.readReqs, s.dec)
    ensures id in s.m.readReqs ==>
              GoodPackets(c, s.reg, s.enc, ReadPackets(id, s.m.readReqs[id].locs), id)
    ensures id in s.m.writeReqs && id !in s.enc ==>
              GoodPackets(c, s.reg, s.enc, WritePackets(id, s.m.writeReqs[id].data, s.m.writeReqs[id].locs), id)
  {
    if id in s.m.readReqs {
      ReadPacketsGood(c, s.reg, s.m.readReqs, s.enc, s.dec, id);
    }
    if id in s.m.writeReqs && id !in s.enc {
      WritePacketsGood(c, s.reg, s.m.writeReqs, s.enc, id);
    }
    hide GoodPackets, WritesOk, ReadsOk;
  }

  lemma ReadPacketsGood(c: Config, r: Register, rd: map<ID, ReadEntry>, enc: map<ID, bool>, dec: map<ID, Decryption>, id: ID)
    requires ReadsOk(c, r, rd, dec) && id in rd
    ensures GoodPackets(c, r, enc, ReadPackets(id, rd[id].locs), id)
  {
    var locs := rd[id].locs;
    forall p | p in ReadPackets(id, locs) ensures MsgOk(c, r, enc, p.minion, p.msg) && p.msg.ReadMsg? {
      var i :| 0 <= i < |locs| && p == Packet(locs[i].minion, ReadMsg(id, locs[i].slot));
      assert Location(p.minion, p.msg.slot) == locs[i];
    }
  }

  lemma WritePacketsGood(c: Config, r: Register, wr: map<ID, WriteEntry>, enc: map<ID, bool>, id: ID)
    requires WritesOk(c, r, wr, enc) && id in wr && id !in enc
    ensures GoodPackets(c, r, enc, WritePackets(id, wr[id].data, wr[id].locs), id)
  {
    var e := wr[id];
    assert WriteOk(c, r, id, e, false);
    forall p | p in WritePackets(id, e.data, e.locs)
      ensures MsgOk(c, r, enc, p.minion, p.msg) && p.msg.WriteMsg? && p.msg.id == id
    {
      var i :| 0 <= i < |e.locs| && p == Packet(e.locs[i].minion, WriteMsg(id, e.locs[i].slot, e.data));
      assert Location(p.minion, p.msg.slot) == e.locs[i];
      assert e.locs[i] in c.place(e.block);
    }
  }

  // ------------------------------------------------------------------
  // Timers

  // A timer for id has been set; an older one for id, if any, is gone.
  lemma Rearmed(rd: map<ID, ReadEntry>, wr: map<ID, WriteEntry>, enc: map<ID, bool>, cbs: seq<Entry<ID>>,
                rd': map<ID, ReadEntry>, wr': map<ID, WriteEntry>, enc': map<ID, bool>, cbs': seq<Entry<ID>>,
                e: Entry<ID>)
    requires Matched(rd, wr, enc, cbs)
    requires forall x :: x in cbs' <==> x == e || (x in cbs && x.cb != e.cb)
    requires forall x :: x in cbs ==> x.handle != e.handle
    requires forall id :: id != e.cb ==>
               (Waiting(rd', wr', enc', id) <==> Waiting(rd, wr, enc, id)) && HandleOf(rd', wr', id) == HandleOf(rd, wr, id)
    requires Waiting(rd', wr', enc', e.cb) && HandleOf(rd', wr', e.cb) == e.handle
    ensures Matched(rd', wr', enc', cbs')
  {
    forall id | Waiting(rd', wr', enc', id) ensures HasTimerFor(cbs', id) {
      if id == e.cb {
        assert e in cbs';
      } else {
        assert HasTimerFor(cbs, id);
        var x :| x in cbs && x.cb == id;
        assert x in cbs';
      }
    }
  }

  // The timer of a completed request is gone.
  lemma Disarmed(rd: map<ID, ReadEntry>, wr: map<ID, WriteEntry>, enc: map<ID, bool>, cbs: seq<Entry<ID>>,
                 rd': map<ID, ReadEntry>, wr': map<ID, WriteEntry>, cbs': seq<Entry<ID>>, id: ID)
    requires Matched(rd, wr, enc, cbs)
    requires forall x :: x in cbs' <==> x in cbs && x.cb != id
    requires forall y :: y != id ==>
               (Waiting(rd', wr', enc, y) <==> Waiting(rd, wr, enc, y)) && HandleOf(rd', wr', y) == HandleOf(rd, wr, y)
    requires !Waiting(rd', wr', enc, id)
    ensures Matched(rd', wr', enc, cbs')
  {
    forall y | Waiting(rd', wr', enc, y) ensures HasTimerFor(cbs', y) {
      assert HasTimerFor(cbs, y);
      var x :| x in cbs && x.cb == y;
      assert x in cbs';
    }
  }

  // A waiting request's stored handle is found among the live timers, at its
  // own timer.
  lemma HandleFound(m: MasterState, enc: map<ID, bool>, id: ID)
    requires TimerOk(m, enc) && Waiting(m.readReqs, m.writeReqs, enc, id)
    ensures var h := HandleOf(m.readReqs, m.writeReqs, id);
            HasTimer(m, h) && m.timer.cbs[Find(m.timer.cbs, h)].cb == id
  {
    assert HasTimerFor(m.timer.cbs, id);
    var x :| x in m.timer.cbs && x.cb == id;
    var k := Find(m.timer.cbs, x.handle);
    assert k < |m.timer.cbs|;
    assert m.timer.cbs[k] in m.timer.cbs;
  }

  lemma SetTimer(ts: TimerState<ID>, clk: Clock, id: ID)
    requires Sorted(ts.cbs) && NeverEarly(ts) && clk.Valid()
    requires forall x :: x in ts.cbs ==> x.deadline != clk.now + TIMEOUT
    ensures var ts' := AfterSet(ts, clk, TIMEOUT, id);
            && Sorted(ts'.cbs) && NeverEarly(ts')
            && (forall x :: x in ts'.cbs <==> x == Entry(clk.now + TIMEOUT, ts.counter, id) || x in ts.cbs)
  {
    InsertSorted(ts.cbs, Entry(clk.now + TIMEOUT, ts.counter, id));
    SetNeverEarly(ts, clk, TIMEOUT, id);
  }

  // ------------------------------------------------------------------
  // The register moves on

  // Nothing already issued changes; reads only come to be allowed more.
  ghost predicate Grows(r: Register, r': Register) {
    && (forall id :: id in r.issued ==> id in r'.issued && r'.issued[id] == r.issued[id])
    && (forall id :: id in r.readers ==>
          && id in r'.readers && r'.readers[id].block == r.readers[id].block
          && r'.readers[id].covered == r.readers[id].covered
          && r.readers[id].allowed <= r'.readers[id].allowed)
  }

  // ... and no old write is newly outstanding or ceases to be.
  ghost predicate SamePending(r: Register, r': Register) {
    forall id :: id in r.issued ==>
      (IsPending(r', id) <==> IsPending(r, id)) && (IsCommitted(r', id) <==> IsCommitted(r, id))
  }

  lemma GrowingChannels(c: Config, r: Register, r': Register, enc: map<ID, bool>, enc': map<ID, bool>, chan: map<nat, seq<Msg>>)
    requires ChannelsOk(c, r, enc, chan) && Grows(r, r') && SamePending(r, r')
    requires forall id :: id in r.issued && id !in enc ==> id !in enc'
    ensures ChannelsOk(c, r', enc', chan)
  {
    forall i, k | i in chan && 0 <= k < |chan[i]| ensures MsgOk(c, r', enc', i, chan[i][k]) {
      assert MsgOk(c, r, enc, i, chan[i][k]);
    }
    forall i | i in chan ensures OldThenNew(r', chan[i]) {
      assert OldThenNew(r, chan[i]);
      forall k | 0 <= k < |chan[i]| && chan[i][k].WriteMsg? ensures chan[i][k].id in r.issued {
        assert MsgOk(c, r, enc, i, chan[i][k]);
      }
    }
  }

  lemma GrowingReplies(c: Config, r: Register, r': Register, enc: map<ID, bool>, enc': map<ID, bool>, replies: set<Reply>)
    requires RepliesOk(c, r, enc, replies) && Grows(r, r')
    requires forall id :: id in r.issued && id !in enc ==> id !in enc'
    ensures RepliesOk(c, r', enc', replies)
  {
    forall rep | rep in replies ensures ReplyOk(c, r', enc', rep) {
      assert ReplyOk(c, r, enc, rep);
    }
  }

  // Reads leave the replicas' side of the register alone.
  ghost predicate SameWriting(r: Register, r': Register) {
    r'.issued == r.issued && r'.pend == r.pend && r'.comm == r.comm && r'.acks == r.acks
  }

  lemma SameReplicas(c: Config, r: Register, r': Register, mem: map<Location, Data>, chan: map<nat, seq<Msg>>, replies: set<Reply>)
    requires SlotsOk(c, r, mem, chan) && AcksOk(c, r, mem, chan, replies) && SameWriting(r, r')
    ensures SlotsOk(c, r', mem, chan) && AcksOk(c, r', mem, chan, replies)
  {
    forall b, loc | 0 <= b < c.blocks && loc in c.place(b) ensures SlotOk(r', mem, chan, b, loc) {
      assert SlotOk(r, mem, chan, b, loc);
    }
    forall w, loc | IsPending(r', w) && loc in c.place(r'.issued[w].block)
      ensures Acked(r', replies, w, loc.minion) ==> Stored(r', mem, chan, w, loc)
    {
      assert IsPending(r, w);
      assert Acked(r', replies, w, loc.minion) ==> Acked(r, replies, w, loc.minion);
    }
  }

  lemma SameWrites(c: Config, r: Register, r': Register, wr: map<ID, WriteEntry>, enc: map<ID, bool>)
    requires WritesOk(c, r, wr, enc) && SameWriting(r, r')
    ensures WritesOk(c, r', wr, enc)
  {
    assert forall x :: IsPending(r', x) <==> IsPending(r, x);
    forall x | x in wr ensures WriteOk(c, r', x, wr[x], x in enc && !enc[x]) {
      assert WriteOk(c, r, x, wr[x], x in enc && !enc[x]);
    }
  }

  // A fresh ID is in none of the master's maps.
  lemma FreshRequest(c: Config, s: System, id: ID)
    requires WritesOk(c, s.reg, s.m.writeReqs, s.enc) && ReadsOk(c, s.reg, s.m.readReqs, s.dec)
    requires !Known(s.reg, id)
    ensures id !in s.m.readReqs && id !in s.m.writeReqs && id !in s.enc && id !in s.dec
  {
  }

  // ------------------------------------------------------------------
  // OsRead

  lemma UnknownNotDone(c: Config, r: Register, id: ID)
    requires RegisterOk(c, r) && !Known(r, id)
    ensures id !in r.done
  {
  }

  lemma ReadIssuedReads(c: Config, r: Register, rd: map<ID, ReadEntry>, dec: map<ID, Decryption>, id: ID, block: nat, handle: nat)
    requires ReadsOk(c, r, rd, dec) && !Known(r, id) && id !in r.done
    ensures ReadsOk(c, Update(r, ReadIssued(id, block)), rd[id := ReadEntry(handle, block, c.place(block))], dec)
  {
    var r' := Update(r, ReadIssued(id, block));
    assert id !in dec;
    forall x | x in dec ensures Expected(r', x, if dec[x].done then dec[x].data else Xor(dec[x].data)) {
      assert Expected(r, x, if dec[x].done then dec[x].data else Xor(dec[x].data));
    }
  }

  lemma OsReadKeeps(c: Config, s: System, id: ID, block: nat, clk: Clock)
    requires Inv(c, s) && Enabled(c, s, OsRead(id, block, clk))
    ensures Inv(c, Apply(c, s, OsRead(id, block, clk)))
  {
    hide RegisterOk, WritesOk, ReadsOk, ChannelsOk, SlotsOk, AcksOk, RepliesOk, Conforms;
    var ev := ReadIssued(id, block);
    var s' := Apply(c, s, OsRead(id, block, clk));
    var r, r' := s.reg, s'.reg;
    RegisterStep(c, r, ev);
    ConformsMore(c, s.hist, ev);
    SameWrites(c, r, r', s.m.writeReqs, s.enc);
    UnknownNotDone(c, r, id);
    ReadIssuedReads(c, r, s.m.readReqs, s.dec, id, block, s.m.timer.counter);
    FreshRequest(c, s, id);
    assert s'.m.readReqs == s.m.readReqs[id := ReadEntry(s.m.timer.counter, block, c.place(block))];
    GrowingChannels(c, r, r', s.enc, s.enc, s.chan);
    GrowingReplies(c, r, r', s.enc, s.enc, s.replies);
    SameReplicas(c, r, r', s.mem, s.chan, s.replies);
    RequestPackets(c, s', id);
    var out := ReadPackets(id, c.place(block));
    SendKeepsChannels(c, r', s.enc, s.chan, out, id);
    SendKeepsReplicas(c, r', s.enc, s.mem, s.chan, s.replies, out, id);
    SetTimer(s.m.timer, clk, id);
    Rearmed(s.m.readReqs, s.m.writeReqs, s.enc, s.m.timer.cbs,
            s'.m.readReqs, s'.m.writeReqs, s'.enc, s'.m.timer.cbs, Entry(clk.now + TIMEOUT, s.m.timer.counter, id));
  }

  // ------------------------------------------------------------------
  // OsWrite

  lemma WriteIssuedWrites(c: Config, r: Register, wr: map<ID, WriteEntry>, enc: map<ID, bool>, id: ID, block: nat, data: Data)
    requires GoodConfig(c) && WritesOk(c, r, wr, enc) && Permits(c, r, WriteIssued(id, block, data))
    ensures WritesOk(c, Update(r, WriteIssued(id, block, data)),
                     wr[id := WriteEntry(0, block, data, c.place(block))], enc[id := false])
  {
    var r' := Update(r, WriteIssued(id, block, data));
    var wr', enc' := wr[id := WriteEntry(0, block, data, c.place(block))], enc[id := false];
    forall x ensures x in wr' <==> IsPending(r', x) {
      assert x in wr <==> IsPending(r, x);
    }
    forall x | x in wr' ensures WriteOk(c, r', x, wr'[x], x in enc' && !enc'[x]) {
      if x != id {
        assert WriteOk(c, r, x, wr[x], x in enc && !enc[x]);
      }
    }
  }

  lemma WriteIssuedPending(c: Config, r: Register, id: ID, block: nat, data: Data)
    requires Permits(c, r, WriteIssued(id, block, data))
    ensures var r' := Update(r, WriteIssued(id, block, data)); Grows(r, r') && SamePending(r, r')
  {
  }

  lemma FreshNotAcked(c: Config, r: Register, enc: map<ID, bool>, replies: set<Reply>, id: ID, i: nat)
    requires RepliesOk(c, r, enc, replies) && id !in r.issued
    ensures forall status :: WriteReply(i, id, status) !in replies
  {
    forall status ensures WriteReply(i, id, status) !in replies {
      assert !ReplyOk(c, r, enc, WriteReply(i, id, status));
    }
  }

  lemma WriteIssuedSlots(c: Config, r: Register, mem: map<Location, Data>, chan: map<nat, seq<Msg>>, id: ID, block: nat, data: Data)
    requires RegisterOk(c, r) && Permits(c, r, WriteIssued(id, block, data)) && SlotsOk(c, r, mem, chan)
    ensures SlotsOk(c, Update(r, WriteIssued(id, block, data)), mem, chan)
  {
    hide ShapeOk, ReadersOk;
    var r' := Update(r, WriteIssued(id, block, data));
    forall b, loc | 0 <= b < c.blocks && loc in c.place(b) ensures SlotOk(r', mem, chan, b, loc) {
      assert SlotOk(r, mem, chan, b, loc);
    }
  }

  lemma WriteIssuedReplicas(c: Config, r: Register, enc: map<ID, bool>, mem: map<Location, Data>, chan: map<nat, seq<Msg>>,
                            replies: set<Reply>, id: ID, block: nat, data: Data)
    requires RegisterOk(c, r) && Permits(c, r, WriteIssued(id, block, data)) && RepliesOk(c, r, enc, replies)
    requires SlotsOk(c, r, mem, chan) && AcksOk(c, r, mem, chan, replies)
    ensures var r' := Update(r, WriteIssued(id, block, data));
            SlotsOk(c, r', mem, chan) && AcksOk(c, r', mem, chan, replies)
  {
    WriteIssuedSlots(c, r, mem, chan, id, block, data);
    hide SlotsOk;
    var r' := Update(r, WriteIssued(id, block, data));
    forall w, loc | IsPending(r', w) && loc in c.place(r'.issued[w].block)
      ensures Acked(r', replies, w, loc.minion) ==> Stored(r', mem, chan, w, loc)
    {
      FreshNotAcked(c, r, enc, replies, id, loc.minion);
      if Acked(r', replies, w, loc.minion) {
        assert IsPending(r, w) && Acked(r, replies, w, loc.minion);
      }
    }
  }

  lemma WriteIssuedReads(c: Config, r: Register, rd: map<ID, ReadEntry>, dec: map<ID, Decryption>, id: ID, block: nat, data: Data)
    requires ReadsOk(c, r, rd, dec)
    ensures ReadsOk(c, Update(r, WriteIssued(id, block, data)), rd, dec)
  {
  }

  lemma OsWriteKeeps(c: Config, s: System, id: ID, block: nat, data: Data)
    requires Inv(c, s) && Enabled(c, s, OsWrite(id, block, data))
    ensures Asserts(c, s, OsWrite(id, block, data))
    ensures Inv(c, Apply(c, s, OsWrite(id, block, data)))
  {
    hide RegisterOk, WritesOk, ReadsOk, ChannelsOk, SlotsOk, AcksOk, RepliesOk, Conforms, GoodConfig, TimerOk;
    hide Grows, SamePending;
    var ev := WriteIssued(id, block, data);
    FreshRequest(c, s, id);
    var s' := Apply(c, s, OsWrite(id, block, data));
    var r, r' := s.reg, s'.reg;
    RegisterStep(c, r, ev);
    ConformsMore(c, s.hist, ev);
    WriteIssuedPending(c, r, id, block, data);
    WriteIssuedTimers(s.m, s.enc, id, s'.m.writeReqs[id]);
    hide Update;
    WriteIssuedWrites(c, r, s.m.writeReqs, s.enc, id, block, data);
    WriteIssuedReads(c, r, s.m.readReqs, s.dec, id, block, data);
    GrowingChannels(c, r, r', s.enc, s'.enc, s.chan);
    GrowingReplies(c, r, r', s.enc, s'.enc, s.replies);
    WriteIssuedReplicas(c, r, s.enc, s.mem, s.chan, s.replies, id, block, data);
  }

  lemma WriteIssuedTimers(m: MasterState, enc: map<ID, bool>, id: ID, e: WriteEntry)
    requires TimerOk(m, enc) && id !in m.readReqs && id !in m.writeReqs && id !in enc
    ensures TimerOk(m.(writeReqs := m.writeReqs[id := e]), enc[id := false])
  {
    SameMatched(m.readReqs, m.writeReqs, enc, m.timer.cbs, m.writeReqs[id := e], enc[id := false]);
  }

  lemma SameMatched(rd: map<ID, ReadEntry>, wr: map<ID, WriteEntry>, enc: map<ID, bool>, cbs: seq<Entry<ID>>,
                    wr': map<ID, WriteEntry>, enc': map<ID, bool>)
    requires Matched(rd, wr, enc, cbs)
    requires forall id :: Waiting(rd, wr', enc', id) <==> Waiting(rd, wr, enc, id)
    requires forall id :: Waiting(rd, wr, enc, id) ==> HandleOf(rd, wr', id) == HandleOf(rd, wr, id)
    ensures Matched(rd, wr', enc', cbs)
  {
  }

  // ------------------------------------------------------------------
  // Encryption

  lemma EncryptBufferKeeps(c: Config, s: System, id: ID)
    requires Inv(c, s) && Enabled(c, s, EncryptBuffer(id))
    ensures Asserts(c, s, EncryptBuffer(id))
    ensures Inv(c, Apply(c, s, EncryptBuffer(id)))
  {
    hide RegisterOk, ReadsOk, ChannelsOk, SlotsOk, AcksOk, RepliesOk, Conforms;
    var s' := Apply(c, s, EncryptBuffer(id));
    var wr, wr' := s.m.writeReqs, s'.m.writeReqs;
    EncryptedWrites(c, s.reg, wr, s.enc, id);
    hide WritesOk;
    GrowingChannels(c, s.reg, s.reg, s.enc, s'.enc, s.chan);
    GrowingReplies(c, s.reg, s.reg, s.enc, s'.enc, s.replies);
    SameMatched(s.m.readReqs, wr, s.enc, s.m.timer.cbs, wr', s'.enc);
  }

  lemma EncryptedWrites(c: Config, r: Register, wr: map<ID, WriteEntry>, enc: map<ID, bool>, id: ID)
    requires WritesOk(c, r, wr, enc) && id in enc && !enc[id]
    ensures id in wr
    ensures WritesOk(c, r, wr[id := wr[id].(data := Xor(wr[id].data))], enc[id := true])
  {
    var wr', enc' := wr[id := wr[id].(data := Xor(wr[id].data))], enc[id := true];
    forall x | x in wr' ensures WriteOk(c, r, x, wr'[x], x in enc' && !enc'[x]) {
      assert WriteOk(c, r, x, wr[x], x in enc && !enc[x]);
    }
  }

  lemma EncryptingWrites(c: Config, r: Register, wr: map<ID, WriteEntry>, enc: map<ID, bool>)
    requires WritesOk(c, r, wr, enc)
    ensures enc.Keys <= wr.Keys
  {
  }

  lemma SentWrites(c: Config, r: Register, wr: map<ID, WriteEntry>, enc: map<ID, bool>, id: ID, handle: nat)
    requires WritesOk(c, r, wr, enc) && id in wr && (id in enc ==> enc[id])
    ensures WritesOk(c, r, wr[id := wr[id].(handle := handle)], enc - {id})
  {
    var wr', enc' := wr[id := wr[id].(handle := handle)], enc - {id};
    forall x | x in wr' ensures WriteOk(c, r, x, wr'[x], x in enc' && !enc'[x]) {
      assert WriteOk(c, r, x, wr[x], x in enc && !enc[x]);
    }
  }

  lemma EncryptionDoneKeeps(c: Config, s: System, id: ID, clk: Clock)
    requires Inv(c, s) && Enabled(c, s, EncryptionDone(id, clk))
    ensures Asserts(c, s, EncryptionDone(id, clk))
    ensures Inv(c, Apply(c, s, EncryptionDone(id, clk)))
  {
    hide RegisterOk, WritesOk, ReadsOk, ChannelsOk, SlotsOk, AcksOk, RepliesOk, Conforms;
    EncryptingWrites(c, s.reg, s.m.writeReqs, s.enc);
    var s' := Apply(c, s, EncryptionDone(id, clk));
    SentWrites(c, s.reg, s.m.writeReqs, s.enc, id, s.m.timer.counter);
    ReadsAndWrites(c, s, id);
    GrowingChannels(c, s.reg, s.reg, s.enc, s'.enc, s.chan);
    GrowingReplies(c, s.reg, s.reg, s.enc, s'.enc, s.replies);
    RequestPackets(c, s', id);
    var out := WritePackets(id, s.m.writeReqs[id].data, s.m.writeReqs[id].locs);
    SendKeepsChannels(c, s.reg, s'.enc, s.chan, out, id);
    SendKeepsReplicas(c, s.reg, s'.enc, s.mem, s.chan, s.replies, out, id);
    SetTimer(s.m.timer, clk, id);
    Rearmed(s.m.readReqs, s.m.writeReqs, s.enc, s.m.timer.cbs,
            s'.m.readReqs, s'.m.writeReqs, s'.enc, s'.m.timer.cbs, Entry(clk.now + TIMEOUT, s.m.timer.counter, id));
  }

  // No request is in both of the master's maps.
  lemma ReadsAndWrites(c: Config, s: System, id: ID)
    requires RegisterOk(c, s.reg)
    requires WritesOk(c, s.reg, s.m.writeReqs, s.enc) && ReadsOk(c, s.reg, s.m.readReqs, s.dec)
    ensures id in s.m.readReqs ==> id !in s.m.writeReqs && id in s.reg.readers
    ensures id in s.m.writeReqs ==> IsPending(s.reg, id)
  {
  }

  // ------------------------------------------------------------------
  // Minions and message loss

  // Dropping the k-th message of a channel.
  ghost function Drop(ch: seq<Msg>, k: nat): seq<Msg>
    requires k < |ch|
  {
    ch[..k] + ch[k + 1..]
  }

  lemma DropKeepsChannels(c: Config, r: Register, enc: map<ID, bool>, chan: map<nat, seq<Msg>>, i: nat, k: nat)
    requires ChannelsOk(c, r, enc, chan) && i in chan && k < |chan[i]|
    ensures ChannelsOk(c, r, enc, chan[i := Drop(chan[i], k)])
  {
    var chan' := chan[i := Drop(chan[i], k)];
    forall j, x | j in chan' && 0 <= x < |chan'[j]| ensures MsgOk(c, r, enc, j, chan'[j][x]) {
      assert chan'[j][x] == chan[j][if j == i && x >= k then x + 1 else x];
    }
    forall j | j in chan' ensures OldThenNew(r, chan'[j]) {
      assert OldThenNew(r, chan[j]);
      if j == i {
        var ch, ch' := chan[i], chan'[i];
        forall a, b | 0 <= a < b < |ch'| && ch'[a].WriteMsg? && ch'[b].WriteMsg? && ch'[a].slot == ch'[b].slot
          ensures IsPending(r, ch'[a].id) ==> IsPending(r, ch'[b].id)
        {
          assert ch'[a] == ch[if a >= k then a + 1 else a];
          assert ch'[b] == ch[if b >= k then b + 1 else b];
        }
      }
    }
  }

  lemma DropKeepsStored(r: Register, mem: map<Location, Data>, chan: map<nat, seq<Msg>>, i: nat, k: nat, w: ID, loc: Location)
    requires i in chan && k < |chan[i]| && w in r.issued && Stored(r, mem, chan, w, loc)
    ensures Stored(r, mem, chan[i := Drop(chan[i], k)], w, loc)
  {
    var chan' := chan[i := Drop(chan[i], k)];
    forall x | 0 <= x < |chan'[loc.minion]| ensures chan'[loc.minion][x] in chan[loc.minion] {
      assert chan'[loc.minion][x] == chan[loc.minion][if loc.minion == i && x >= k then x + 1 else x];
    }
  }

  lemma DropKeepsReplicas(c: Config, r: Register, mem: map<Location, Data>, chan: map<nat, seq<Msg>>, replies: set<Reply>, i: nat, k: nat)
    requires i in chan && k < |chan[i]|
    requires SlotsOk(c, r, mem, chan) && AcksOk(c, r, mem, chan, replies)
    ensures var chan' := chan[i := Drop(chan[i], k)];
            SlotsOk(c, r, mem, chan') && AcksOk(c, r, mem, chan', replies)
  {
    var chan' := chan[i := Drop(chan[i], k)];
    forall b, loc | 0 <= b < c.blocks && loc in c.place(b) ensures SlotOk(r, mem, chan', b, loc) {
      assert SlotOk(r, mem, chan, b, loc);
      if b in r.pend && r.pend[b] in r.issued && Stored(r, mem, chan, r.pend[b], loc) {
        DropKeepsStored(r, mem, chan, i, k, r.pend[b], loc);
      }
    }
    forall w, loc | IsPending(r, w) && loc in c.place(r.issued[w].block)
      ensures Acked(r, replies, w, loc.minion) ==> Stored(r, mem, chan', w, loc)
    {
      if Acked(r, replies, w, loc.minion) {
        DropKeepsStored(r, mem, chan, i, k, w, loc);
      }
    }
  }

  lemma LoseKeeps(c: Config, s: System, i: nat, k: nat)
    requires Inv(c, s) && Enabled(c, s, Lose(i, k))
    ensures Inv(c, Apply(c, s, Lose(i, k)))
  {
    hide RegisterOk, WritesOk, ReadsOk, ChannelsOk, SlotsOk, AcksOk, RepliesOk, Conforms, TimerOk;
    DropKeepsChannels(c, s.reg, s.enc, s.chan, i, k);
    DropKeepsReplicas(c, s.reg, s.mem, s.chan, s.replies, i, k);
  }

  // A write taken from the head of its channel is stored for good if it is
  // the outstanding one of its block: nothing older is left behind it.
  lemma StoringIsFinal(c: Config, r: Register, enc: map<ID, bool>, chan: map<nat, seq<Msg>>, i: nat, id: ID, slot: nat)
    requires GoodConfig(c) && RegisterOk(c, r) && ChannelsOk(c, r, enc, chan)
    requires i in chan && chan[i] != [] && chan[i][0].WriteMsg? && chan[i][0].id == id && chan[i][0].slot == slot
    requires IsPending(r, id)
    ensures OnlyFrom(chan[i][1..], slot, id)
  {
    var ch := chan[i];
    assert MsgOk(c, r, enc, i, ch[0]);
    forall k | 0 < k < |ch| && ch[k].WriteMsg? && ch[k].slot == slot ensures ch[k].id == id {
      assert MsgOk(c, r, enc, i, ch[k]);
      assert OldThenNew(r, ch);
      assert r.issued[ch[k].id].block == r.issued[id].block;
    }
  }

  // What the memory holds after a write has been processed.
  lemma StoreKeepsStored(c: Config, r: Register, enc: map<ID, bool>, mem: map<Location, Data>, chan: map<nat, seq<Msg>>,
                         i: nat, w: ID, loc: Location)
    requires GoodConfig(c) && RegisterOk(c, r) && ChannelsOk(c, r, enc, chan)
    requires i in chan && chan[i] != [] && chan[i][0].WriteMsg?
    requires IsPending(r, w) && Stored(r, mem, chan, w, loc)
    ensures Stored(r, mem[Location(i, chan[i][0].slot) := chan[i][0].data], chan[i := chan[i][1..]], w, loc)
  {
    var msg := chan[i][0];
    assert MsgOk(c, r, enc, i, msg);
    assert chan[i][1..] == Drop(chan[i], 0);
    DropKeepsStored(r, mem, chan, i, 0, w, loc);
    if loc == Location(i, msg.slot) {
      assert msg.id == w;
    }
  }

  lemma StoreKeepsSlots(c: Config, r: Register, enc: map<ID, bool>, mem: map<Location, Data>, chan: map<nat, seq<Msg>>, i: nat)
    requires GoodConfig(c) && RegisterOk(c, r) && ChannelsOk(c, r, enc, chan) && SlotsOk(c, r, mem, chan)
    requires i in chan && chan[i] != [] && chan[i][0].WriteMsg?
    ensures var msg := chan[i][0];
            SlotsOk(c, r, mem[Location(i, msg.slot) := msg.data], chan[i := chan[i][1..]])
  {
    var msg := chan[i][0];
    var here := Location(i, msg.slot);
    var mem', chan' := mem[here := msg.data], chan[i := chan[i][1..]];
    assert MsgOk(c, r, enc, i, msg);
    forall b, loc | 0 <= b < c.blocks && loc in c.place(b) ensures SlotOk(r, mem', chan', b, loc) {
      assert SlotOk(r, mem, chan, b, loc);
      if loc == here {
        assert r.issued[msg.id].block == b;
        if IsPending(r, msg.id) {
          StoringIsFinal(c, r, enc, chan, i, msg.id, msg.slot);
          assert Stored(r, mem', chan', msg.id, here);
        }
      } else if b in r.pend && Stored(r, mem, chan, r.pend[b], loc) {
        StoreKeepsStored(c, r, enc, mem, chan, i, r.pend[b], loc);
      }
    }
  }

  lemma StoreKeepsAcks(c: Config, r: Register, enc: map<ID, bool>, mem: map<Location, Data>, chan: map<nat, seq<Msg>>,
                       replies: set<Reply>, i: nat)
    requires GoodConfig(c) && RegisterOk(c, r) && ChannelsOk(c, r, enc, chan) && AcksOk(c, r, mem, chan, replies)
    requires i in chan && chan[i] != [] && chan[i][0].WriteMsg?
    ensures var msg := chan[i][0];
            AcksOk(c, r, mem[Location(i, msg.slot) := msg.data], chan[i := chan[i][1..]],
                   replies + {WriteReply(i, msg.id, 0)})
  {
    var msg := chan[i][0];
    var here := Location(i, msg.slot);
    var mem', chan' := mem[here := msg.data], chan[i := chan[i][1..]];
    var replies' := replies + {WriteReply(i, msg.id, 0)};
    forall w, loc | IsPending(r, w) && loc in c.place(r.issued[w].block)
      ensures Acked(r, replies', w, loc.minion) ==> Stored(r, mem', chan', w, loc)
    {
      AckedMore(r, replies, i, msg.id, w, loc.minion);
      if Acked(r, replies, w, loc.minion) {
        StoreKeepsStored(c, r, enc, mem, chan, i, w, loc);
      } else if w == msg.id && loc.minion == i {
        NewlyStored(c, r, enc, mem, chan, i, loc);
      }
    }
  }

  lemma AckedMore(r: Register, replies: set<Reply>, i: nat, id: ID, w: ID, j: nat)
    ensures Acked(r, replies + {WriteReply(i, id, 0)}, w, j) ==> Acked(r, replies, w, j) || (w == id && j == i)
  {
  }

  // The replica of a block on minion i is the slot its write was sent to.
  lemma NewlyStored(c: Config, r: Register, enc: map<ID, bool>, mem: map<Location, Data>, chan: map<nat, seq<Msg>>,
                    i: nat, loc: Location)
    requires GoodConfig(c) && RegisterOk(c, r) && ChannelsOk(c, r, enc, chan)
    requires i in chan && chan[i] != [] && chan[i][0].WriteMsg? && IsPending(r, chan[i][0].id)
    requires loc in c.place(r.issued[chan[i][0].id].block) && loc.minion == i
    ensures var msg := chan[i][0];
            Stored(r, mem[Location(i, msg.slot) := msg.data], chan[i := chan[i][1..]], msg.id, loc)
  {
    var msg := chan[i][0];
    assert MsgOk(c, r, enc, i, msg);
    assert loc == Location(i, msg.slot);
    StoringIsFinal(c, r, enc, chan, i, msg.id, msg.slot);
  }

  lemma HasSlot(c: Config, r: Register, enc: map<ID, bool>, mem: map<Location, Data>, chan: map<nat, seq<Msg>>, i: nat, msg: Msg)
    requires ShapeOk(c, r) && SlotsOk(c, r, mem, chan) && MsgOk(c, r, enc, i, msg)
    ensures Location(i, msg.slot) in mem
  {
    var b := if msg.ReadMsg? then r.readers[msg.id].block else r.issued[msg.id].block;
    assert SlotOk(r, mem, chan, b, Location(i, msg.slot));
  }

  lemma MinionStepKeeps(c: Config, s: System, i: nat)
    requires Inv(c, s) && Enabled(c, s, MinionStep(i))
    ensures Asserts(c, s, MinionStep(i))
    ensures Inv(c, Apply(c, s, MinionStep(i)))
  {
    hide WritesOk, ReadsOk, AcksOk, Conforms, TimerOk;
    var msg := s.chan[i][0];
    assert MsgOk(c, s.reg, s.enc, i, msg);
    var here := Location(i, msg.slot);
    HasSlot(c, s.reg, s.enc, s.mem, s.chan, i, msg);
    hide SlotsOk, ShapeOk, BlocksOk, ReadersOk, GoodConfig;
    var s' := Apply(c, s, MinionStep(i));
    assert s.chan[i][1..] == Drop(s.chan[i], 0);
    DropKeepsChannels(c, s.reg, s.enc, s.chan, i, 0);
    match msg
    case WriteMsg(id, slot, data) =>
      StoreKeepsSlots(c, s.reg, s.enc, s.mem, s.chan, i);
      StoreKeepsAcks(c, s.reg, s.enc, s.mem, s.chan, s.replies, i);
    case ReadMsg(id, slot) =>
      DropKeepsReplicas(c, s.reg, s.mem, s.chan, s.replies, i, 0);
      ReadReplyHarmless(c, s.reg, s.mem, s'.chan, s.replies, i, id, s.mem[here]);
      SlotExpected(c, s.reg, s.mem, s.chan, id, here);
  }

  lemma ReadReplyHarmless(c: Config, r: Register, mem: map<Location, Data>, chan: map<nat, seq<Msg>>, replies: set<Reply>,
                          i: nat, id: ID, data: Data)
    requires AcksOk(c, r, mem, chan, replies)
    ensures AcksOk(c, r, mem, chan, replies + {ReadReply(i, id, 0, data)})
  {
    var replies' := replies + {ReadReply(i, id, 0, data)};
    forall w, loc | IsPending(r, w) && loc in c.place(r.issued[w].block)
      ensures Acked(r, replies', w, loc.minion) ==> Stored(r, mem, chan, w, loc)
    {
      assert Acked(r, replies', w, loc.minion) ==> Acked(r, replies, w, loc.minion);
    }
  }

  // Whatever a replica holds while a read is under way may be returned for it.
  lemma SlotExpected(c: Config, r: Register, mem: map<Location, Data>, chan: map<nat, seq<Msg>>, id: ID, loc: Location)
    requires RegisterOk(c, r) && SlotsOk(c, r, mem, chan)
    requires id in r.readers && loc in c.place(r.readers[id].block)
    ensures loc in mem && Expected(r, id, Xor(mem[loc]))
  {
    var e := r.readers[id];
    assert ReaderOk(r, e);
    assert SlotOk(r, mem, chan, e.block, loc);
    if e.covered {
      var before := r.issued[r.comm[e.block]].data;
      XorTwice(before);
      assert before in DataOf(r, r.comm, e.block);
      if mem[loc] != Xor(before) {
        var after := r.issued[r.pend[e.block]].data;
        XorTwice(after);
        assert after in DataOf(r, r.pend, e.block);
      }
    }
  }

  // ------------------------------------------------------------------
  // Replies

  lemma CancelledTimers(ts: TimerState<ID>, h: nat, clk: Clock)
    requires Sorted(ts.cbs) && NeverEarly(ts) && Find(ts.cbs, h) < |ts.cbs| && clk.Valid()
    ensures var ts' := AfterCancel(ts, h, clk);
            && Sorted(ts'.cbs) && NeverEarly(ts')
            && forall x :: x in ts'.cbs <==> x in ts.cbs && x != ts.cbs[Find(ts.cbs, h)]
  {
    RemoveSorted(ts.cbs, Find(ts.cbs, h));
    CancelNeverEarly(ts, h, clk);
    hide Sorted, NeverEarly, Remove;
  }

  lemma CancelTimer(m: MasterState, enc: map<ID, bool>, id: ID, clk: Clock)
    requires TimerOk(m, enc) && Waiting(m.readReqs, m.writeReqs, enc, id) && clk.Valid()
    requires id in m.readReqs ==> id !in m.writeReqs
    ensures HasTimer(m, HandleOf(m.readReqs, m.writeReqs, id))
    ensures var ts := AfterCancel(m.timer, HandleOf(m.readReqs, m.writeReqs, id), clk);
            TimerOk(MasterState(m.readReqs - {id}, m.writeReqs - {id}, ts), enc)
  {
    hide AfterCancel, Find, Sorted, NeverEarly;
    HandleFound(m, enc, id);
    var h := HandleOf(m.readReqs, m.writeReqs, id);
    CancelledTimers(m.timer, h, clk);
    assert m.timer.cbs[Find(m.timer.cbs, h)] in m.timer.cbs;
    Disarmed(m.readReqs, m.writeReqs, enc, m.timer.cbs,
             m.readReqs - {id}, m.writeReqs - {id}, AfterCancel(m.timer, h, clk).cbs, id);
  }

  lemma AcceptedReads(c: Config, r: Register, rd: map<ID, ReadEntry>, dec: map<ID, Decryption>, id: ID, data: Data)
    requires ReadsOk(c, r, rd, dec) && id in rd && id in r.readers && Expected(r, id, Xor(data))
    ensures ReadsOk(c, r, rd - {id}, dec[id := Decryption(0, data, false)])
  {
  }

  lemma ReadReplyKeeps(c: Config, s: System, i: nat, id: ID, status: int, data: Data, clk: Clock)
    requires Inv(c, s) && Enabled(c, s, Deliver(ReadReply(i, id, status, data), clk))
    ensures Asserts(c, s, Deliver(ReadReply(i, id, status, data), clk))
    ensures Inv(c, Apply(c, s, Deliver(ReadReply(i, id, status, data), clk)))
  {
    hide RegisterOk, WritesOk, ReadsOk, ChannelsOk, SlotsOk, AcksOk, Conforms, TimerOk;
    if AwaitsRead(s.m, id, i) {
      assert ReplyOk(c, s.reg, s.enc, ReadReply(i, id, status, data));
      ReadsAndWrites(c, s, id);
      CancelTimer(s.m, s.enc, id, clk);
      AcceptedReads(c, s.reg, s.m.readReqs, s.dec, id, data);
      assert s.m.writeReqs - {id} == s.m.writeReqs;
    }
  }

  // Erasing the acknowledging minion's location leaves what remains.
  lemma OneLess(locs: seq<Location>, acked: set<nat>, i: nat)
    requires |locs| == 2 && locs[0].minion != locs[1].minion
    requires var rest := Remaining(locs, acked); FindMinion(rest, i) < |rest|
    ensures exists loc :: loc in locs && loc.minion == i
    ensures var rest := Remaining(locs, acked);
            var k := FindMinion(rest, i);
            rest[..k] + rest[k + 1..] == Remaining(locs, acked + {i})
  {
    var rest := Remaining(locs, acked);
    var k := FindMinion(rest, i);
    assert rest[k] in locs;
  }

  // One more acknowledgement.
  lemma AckedWrites(c: Config, r: Register, wr: map<ID, WriteEntry>, enc: map<ID, bool>, id: ID, i: nat)
    requires GoodConfig(c) && WritesOk(c, r, wr, enc) && id in wr
    requires FindMinion(wr[id].locs, i) < |wr[id].locs|
    ensures IsPending(r, id) && Permits(c, r, MinionAcked(id, i))
    ensures var k := FindMinion(wr[id].locs, i);
            var locs := wr[id].locs[..k] + wr[id].locs[k + 1..];
            var r' := Update(r, MinionAcked(id, i));
            && |c.place(r.issued[id].block)| == 2
            && locs == Remaining(c.place(r.issued[id].block), r'.acks[id])
            && (locs != [] ==> WritesOk(c, r', wr[id := wr[id].(locs := locs)], enc))
  {
    var e := wr[id];
    assert WriteOk(c, r, id, e, id in enc && !enc[id]);
    OneLess(c.place(e.block), r.acks[id], i);
    var k := FindMinion(e.locs, i);
    var locs := e.locs[..k] + e.locs[k + 1..];
    var r' := Update(r, MinionAcked(id, i));
    assert r'.acks[id] == r.acks[id] + {i};
    if locs != [] {
      ShorterEntry(c, r, wr, enc, id, i, locs);
    }
  }

  lemma ShorterEntry(c: Config, r: Register, wr: map<ID, WriteEntry>, enc: map<ID, bool>, id: ID, i: nat, locs: seq<Location>)
    requires WritesOk(c, r, wr, enc) && id in wr && id in r.issued && id in r.acks && locs != []
    requires |c.place(r.issued[id].block)| == 2 && locs == Remaining(c.place(r.issued[id].block), r.acks[id] + {i})
    ensures WritesOk(c, Update(r, MinionAcked(id, i)), wr[id := wr[id].(locs := locs)], enc)
  {
    var r' := Update(r, MinionAcked(id, i));
    var wr' := wr[id := wr[id].(locs := locs)];
    forall x ensures x in wr' <==> IsPending(r', x) {
      assert x in wr <==> IsPending(r, x);
    }
    forall x | x in wr' ensures WriteOk(c, r', x, wr'[x], x in enc && !enc[x]) {
      assert WriteOk(c, r, x, wr[x], x in enc && !enc[x]);
    }
  }

  lemma AckedReplicas(c: Config, r: Register, mem: map<Location, Data>, chan: map<nat, seq<Msg>>, replies: set<Reply>,
                      id: ID, i: nat, status: int)
    requires SlotsOk(c, r, mem, chan) && AcksOk(c, r, mem, chan, replies) && IsPending(r, id)
    requires WriteReply(i, id, status) in replies
    ensures var r' := Update(r, MinionAcked(id, i));
            SlotsOk(c, r', mem, chan) && AcksOk(c, r', mem, chan, replies)
  {
    var r' := Update(r, MinionAcked(id, i));
    forall b, loc | 0 <= b < c.blocks && loc in c.place(b) ensures SlotOk(r', mem, chan, b, loc) {
      assert SlotOk(r, mem, chan, b, loc);
    }
    forall w, loc | IsPending(r', w) && loc in c.place(r'.issued[w].block)
      ensures Acked(r', replies, w, loc.minion) ==> Stored(r', mem, chan, w, loc)
    {
      assert IsPending(r, w);
      assert Acked(r', replies, w, loc.minion) ==> Acked(r, replies, w, loc.minion);
    }
  }

  lemma ReadsIgnoreWrites(c: Config, r: Register, r': Register, rd: map<ID, ReadEntry>, dec: map<ID, Decryption>)
    requires ReadsOk(c, r, rd, dec) && r'.readers == r.readers
    requires forall id :: id in r.readers && id in r'.done ==> id in r.done
    ensures ReadsOk(c, r', rd, dec)
  {
  }

  // The state in which all of a write's minions have acknowledged.
  ghost predicate FullyAcked(c: Config, r: Register, id: ID) {
    IsPending(r, id) && id in r.acks && r.acks[id] == MinionsOf(c, r.issued[id].block)
  }

  // Both replicas then hold it, and nothing older is on its way to them.
  lemma AllStored(c: Config, r: Register, mem: map<Location, Data>, chan: map<nat, seq<Msg>>, replies: set<Reply>, id: ID)
    requires AcksOk(c, r, mem, chan, replies) && FullyAcked(c, r, id)
    ensures forall loc :: loc in c.place(r.issued[id].block) ==> Stored(r, mem, chan, id, loc)
  {
    forall loc | loc in c.place(r.issued[id].block) ensures Stored(r, mem, chan, id, loc) {
      assert loc.minion in MinionsOf(c, r.issued[id].block);
      assert Acked(r, replies, id, loc.minion);
    }
  }

  lemma AnsweredSlots(c: Config, r: Register, mem: map<Location, Data>, chan: map<nat, seq<Msg>>, id: ID)
    requires RegisterOk(c, r) && IsPending(r, id) && SlotsOk(c, r, mem, chan)
    requires forall loc :: loc in c.place(r.issued[id].block) ==> Stored(r, mem, chan, id, loc)
    ensures SlotsOk(c, Update(r, WriteAnswered(id, 0)), mem, chan)
  {
    var r' := Update(r, WriteAnswered(id, 0));
    forall b, loc | 0 <= b < c.blocks && loc in c.place(b) ensures SlotOk(r', mem, chan, b, loc) {
      assert SlotOk(r, mem, chan, b, loc);
      if b == r.issued[id].block {
        assert Stored(r, mem, chan, id, loc);
      }
    }
  }

  lemma AnsweredAcks(c: Config, r: Register, mem: map<Location, Data>, chan: map<nat, seq<Msg>>, replies: set<Reply>, id: ID)
    requires RegisterOk(c, r) && IsPending(r, id) && AcksOk(c, r, mem, chan, replies)
    ensures AcksOk(c, Update(r, WriteAnswered(id, 0)), mem, chan, replies)
  {
    var r' := Update(r, WriteAnswered(id, 0));
    forall w, loc | IsPending(r', w) && loc in c.place(r'.issued[w].block)
      ensures Acked(r', replies, w, loc.minion) ==> Stored(r', mem, chan, w, loc)
    {
      assert IsPending(r, w);
      assert Acked(r', replies, w, loc.minion) ==> Acked(r, replies, w, loc.minion);
    }
  }

  lemma AnsweredChannels(c: Config, r: Register, enc: map<ID, bool>, mem: map<Location, Data>, chan: map<nat, seq<Msg>>, id: ID)
    requires GoodConfig(c) && RegisterOk(c, r) && IsPending(r, id) && ChannelsOk(c, r, enc, chan)
    requires forall loc :: loc in c.place(r.issued[id].block) ==> Stored(r, mem, chan, id, loc)
    ensures ChannelsOk(c, Update(r, WriteAnswered(id, 0)), enc, chan)
  {
    hide BlocksOk, ReadersOk;
    var r' := Update(r, WriteAnswered(id, 0));
    forall i, k | i in chan && 0 <= k < |chan[i]| ensures MsgOk(c, r', enc, i, chan[i][k]) {
      var msg := chan[i][k];
      assert MsgOk(c, r, enc, i, msg);
      if msg.WriteMsg? && r.issued[msg.id].block == r.issued[id].block {
        assert Stored(r, mem, chan, id, Location(i, msg.slot));
        assert msg.id == id;
      }
    }
    forall i | i in chan ensures OldThenNew(r', chan[i]) {
      AnsweredOrder(c, r, enc, i, chan[i], id);
    }
  }

  lemma AnsweredOrder(c: Config, r: Register, enc: map<ID, bool>, i: nat, ch: seq<Msg>, id: ID)
    requires GoodConfig(c) && RegisterOk(c, r) && IsPending(r, id) && OldThenNew(r, ch)
    requires forall k :: 0 <= k < |ch| ==> MsgOk(c, r, enc, i, ch[k])
    ensures OldThenNew(Update(r, WriteAnswered(id, 0)), ch)
  {
    assert id in r.issued;
    hide GoodConfig, ShapeOk, BlocksOk, ReadersOk, MsgOk, IsPending, Update;
    var r' := Update(r, WriteAnswered(id, 0));
    forall a, b | 0 <= a < b < |ch| && ch[a].WriteMsg? && ch[b].WriteMsg? && ch[a].slot == ch[b].slot
      ensures IsPending(r', ch[a].id) ==> IsPending(r', ch[b].id)
    {
      SameSlot(c, r, enc, i, ch[a], ch[b]);
      StillPending(r, id, ch[a].id);
      StillPending(r, id, ch[b].id);
    }
  }

  lemma SameSlot(c: Config, r: Register, enc: map<ID, bool>, i: nat, x: Msg, y: Msg)
    requires GoodConfig(c) && ShapeOk(c, r) && MsgOk(c, r, enc, i, x) && MsgOk(c, r, enc, i, y)
    requires x.WriteMsg? && y.WriteMsg? && x.slot == y.slot
    ensures x.id in r.issued && y.id in r.issued && r.issued[x.id].block == r.issued[y.id].block
  {
  }

  lemma StillPending(r: Register, id: ID, x: ID)
    requires id in r.issued && x in r.issued
    ensures IsPending(Update(r, WriteAnswered(id, 0)), x) <==> IsPending(r, x) && r.issued[x].block != r.issued[id].block
  {
  }

  lemma AnsweredWrites(c: Config, r: Register, wr: map<ID, WriteEntry>, enc: map<ID, bool>, id: ID, i: nat)
    requires WritesOk(c, r, wr, enc) && id in wr && id !in enc
    ensures WritesOk(c, Update(Update(r, MinionAcked(id, i)), WriteAnswered(id, 0)), wr - {id}, enc)
  {
    var r' := Update(Update(r, MinionAcked(id, i)), WriteAnswered(id, 0));
    var wr' := wr - {id};
    forall x ensures x in wr' <==> IsPending(r', x) {
      assert x in wr <==> IsPending(r, x);
    }
    forall x | x in wr' ensures WriteOk(c, r', x, wr'[x], x in enc && !enc[x]) {
      assert WriteOk(c, r, x, wr[x], x in enc && !enc[x]);
    }
  }

  // Once no location remains, every minion of the block has acknowledged.
  lemma NoneRemaining(c: Config, r: Register, id: ID)
    requires RegisterOk(c, r) && GoodConfig(c) && IsPending(r, id)
    requires Remaining(c.place(r.issued[id].block), r.acks[id]) == []
    ensures FullyAcked(c, r, id)
  {
    var locs := c.place(r.issued[id].block);
    forall i | i in MinionsOf(c, r.issued[id].block) ensures i in r.acks[id] {
      assert i == locs[0].minion || i == locs[1].minion;
    }
  }

  // What recording an acknowledgement keeps.
  lemma AckRecorded(c: Config, s: System, i: nat, id: ID, status: int)
    requires Inv(c, s) && WriteReply(i, id, status) in s.replies && AwaitsWrite(s.m, id, i)
    ensures var r1 := Update(s.reg, MinionAcked(id, i));
            && status == 0 && id !in s.enc && id !in s.m.readReqs
            && NetworkOk(c, r1, s)
            && Conforms(c, s.hist + [MinionAcked(id, i)]) && r1 == Replay(s.hist + [MinionAcked(id, i)])
  {
    hide RegisterOk, WritesOk, ReadsOk, ChannelsOk, SlotsOk, AcksOk, Conforms, TimerOk;
    var r := s.reg;
    var r1 := Update(r, MinionAcked(id, i));
    assert ReplyOk(c, r, s.enc, WriteReply(i, id, status));
    ReadsAndWrites(c, s, id);
    AckedWrites(c, r, s.m.writeReqs, s.enc, id, i);
    hide RepliesOk, Remaining, GoodConfig;
    ConformsMore(c, s.hist, MinionAcked(id, i));
    RegisterStep(c, r, MinionAcked(id, i));
    AckedReplicas(c, r, s.mem, s.chan, s.replies, id, i, status);
    GrowingChannels(c, r, r1, s.enc, s.enc, s.chan);
    GrowingReplies(c, r, r1, s.enc, s.enc, s.replies);
  }

  lemma AckTakenKeeps(c: Config, s: System, i: nat, id: ID, status: int, clk: Clock)
    requires Inv(c, s) && Enabled(c, s, Deliver(WriteReply(i, id, status), clk))
    requires AwaitsWrite(s.m, id, i) && !CompletesWrite(s.m, id, i)
    ensures Asserts(c, s, Deliver(WriteReply(i, id, status), clk))
    ensures Inv(c, Apply(c, s, Deliver(WriteReply(i, id, status), clk)))
  {
    hide RegisterOk, WritesOk, ReadsOk, ChannelsOk, SlotsOk, AcksOk, RepliesOk, Conforms, TimerOk, GoodConfig;
    AckRecorded(c, s, i, id, status);
    AckedWrites(c, s.reg, s.m.writeReqs, s.enc, id, i);
    ReadsIgnoreWrites(c, s.reg, Update(s.reg, MinionAcked(id, i)), s.m.readReqs, s.dec);
    SameTimers(c, s, i, id, clk);
  }

  lemma WriteCompletedKeeps(c: Config, s: System, i: nat, id: ID, status: int, clk: Clock)
    requires Inv(c, s) && Enabled(c, s, Deliver(WriteReply(i, id, status), clk)) && CompletesWrite(s.m, id, i)
    ensures Asserts(c, s, Deliver(WriteReply(i, id, status), clk))
    ensures Inv(c, Apply(c, s, Deliver(WriteReply(i, id, status), clk)))
  {
    hide RegisterOk, WritesOk, ReadsOk, ChannelsOk, SlotsOk, AcksOk, RepliesOk, Conforms, TimerOk, GoodConfig;
    AckRecorded(c, s, i, id, status);
    CancelTimer(s.m, s.enc, id, clk);
    assert s.m.readReqs - {id} == s.m.readReqs;
    var r1 := Update(s.reg, MinionAcked(id, i));
    LastAck(c, s, i, id);
    NetworkAnswered(c, r1, s, id);
    ConformsMore(c, s.hist + [MinionAcked(id, i)], WriteAnswered(id, 0));
    CompletedShape(c, s, i, id, clk);
    hide Update, Emit, Permits, TakeWriteReply, CompletesWrite;
  }

  // The state after the last acknowledgement, written out.
  lemma CompletedShape(c: Config, s: System, i: nat, id: ID, clk: Clock)
    requires Enabled(c, s, Deliver(WriteReply(i, id, 0), clk)) && CompletesWrite(s.m, id, i)
    requires HasTimer(s.m, s.m.writeReqs[id].handle)
    ensures Apply(c, s, Deliver(WriteReply(i, id, 0), clk)) ==
            s.(m := MasterState(s.m.readReqs, s.m.writeReqs - {id}, AfterCancel(s.m.timer, s.m.writeReqs[id].handle, clk)),
               clock := clk.settime,
               hist := s.hist + [MinionAcked(id, i)] + [WriteAnswered(id, 0)],
               reg := Update(Update(s.reg, MinionAcked(id, i)), WriteAnswered(id, 0)))
  {
  }

  lemma WriteReplyKeeps(c: Config, s: System, i: nat, id: ID, status: int, clk: Clock)
    requires Inv(c, s) && Enabled(c, s, Deliver(WriteReply(i, id, status), clk))
    ensures Asserts(c, s, Deliver(WriteReply(i, id, status), clk))
    ensures Inv(c, Apply(c, s, Deliver(WriteReply(i, id, status), clk)))
  {
    if CompletesWrite(s.m, id, i) {
      hide Inv;
      WriteCompletedKeeps(c, s, i, id, status, clk);
    } else if AwaitsWrite(s.m, id, i) {
      hide Inv;
      AckTakenKeeps(c, s, i, id, status, clk);
    } else {
      hide RegisterOk, WritesOk, ReadsOk, ChannelsOk, SlotsOk, AcksOk, RepliesOk, Conforms, TimerOk, GoodConfig;
    }
  }

  lemma SameTimers(c: Config, s: System, i: nat, id: ID, clk: Clock)
    requires TimerOk(s.m, s.enc) && AwaitsWrite(s.m, id, i) && !CompletesWrite(s.m, id, i)
    ensures TimerOk(TakeWriteReply(s.m, id, i, clk), s.enc)
  {
    var m' := TakeWriteReply(s.m, id, i, clk);
    SameMatched(s.m.readReqs, s.m.writeReqs, s.enc, s.m.timer.cbs, m'.writeReqs, s.enc);
  }

  // The parts of the invariant that speak of the register and the network.
  ghost predicate NetworkOk(c: Config, r: Register, s: System) {
    && RegisterOk(c, r) && ChannelsOk(c, r, s.enc, s.chan) && RepliesOk(c, r, s.enc, s.replies)
    && SlotsOk(c, r, s.mem, s.chan) && AcksOk(c, r, s.mem, s.chan, s.replies)
  }

  // The last acknowledgement answers the write.
  lemma NetworkAnswered(c: Config, r: Register, s: System, id: ID)
    requires GoodConfig(c) && NetworkOk(c, r, s) && FullyAcked(c, r, id)
    ensures Permits(c, r, WriteAnswered(id, 0)) && NetworkOk(c, Update(r, WriteAnswered(id, 0)), s)
  {
    NotDone(c, r, id);
    hide RegisterOk, ChannelsOk, SlotsOk, AcksOk, RepliesOk, GoodConfig;
    RegisterStep(c, r, WriteAnswered(id, 0));
    AllStored(c, r, s.mem, s.chan, s.replies, id);
    AnsweredChannels(c, r, s.enc, s.mem, s.chan, id);
    AnsweredSlots(c, r, s.mem, s.chan, id);
    AnsweredAcks(c, r, s.mem, s.chan, s.replies, id);
    GrowingReplies(c, r, Update(r, WriteAnswered(id, 0)), s.enc, s.enc, s.replies);
  }

  // After the last acknowledgement the write is fully acknowledged, and the
  // master's maps follow the answered write.
  lemma LastAck(c: Config, s: System, i: nat, id: ID)
    requires GoodConfig(c) && RegisterOk(c, s.reg) && RegisterOk(c, Update(s.reg, MinionAcked(id, i)))
    requires WritesOk(c, s.reg, s.m.writeReqs, s.enc) && ReadsOk(c, s.reg, s.m.readReqs, s.dec)
    requires CompletesWrite(s.m, id, i) && id !in s.enc
    ensures var r1 := Update(s.reg, MinionAcked(id, i));
            && FullyAcked(c, r1, id)
            && WritesOk(c, Update(r1, WriteAnswered(id, 0)), s.m.writeReqs - {id}, s.enc)
            && ReadsOk(c, Update(r1, WriteAnswered(id, 0)), s.m.readReqs, s.dec)
  {
    hide RegisterOk, WritesOk, ReadsOk, GoodConfig;
    LastAckFull(c, s.reg, s.m.writeReqs, s.enc, id, i);
    AnsweredWrites(c, s.reg, s.m.writeReqs, s.enc, id, i);
    ReadsIgnoreWrites(c, s.reg, Update(Update(s.reg, MinionAcked(id, i)), WriteAnswered(id, 0)), s.m.readReqs, s.dec);
  }

  lemma LastAckFull(c: Config, r: Register, wr: map<ID, WriteEntry>, enc: map<ID, bool>, id: ID, i: nat)
    requires GoodConfig(c) && RegisterOk(c, r) && RegisterOk(c, Update(r, MinionAcked(id, i)))
    requires WritesOk(c, r, wr, enc) && id in wr && FindMinion(wr[id].locs, i) < |wr[id].locs| == 1
    ensures id !in r.readers && FullyAcked(c, Update(r, MinionAcked(id, i)), id)
  {
    hide RegisterOk, WritesOk, GoodConfig;
    AckedWrites(c, r, wr, enc, id, i);
    NoneRemaining(c, Update(r, MinionAcked(id, i)), id);
    NotDone(c, r, id);
  }

  lemma NotDone(c: Config, r: Register, id: ID)
    requires RegisterOk(c, r) && IsPending(r, id)
    ensures id !in r.done && id !in r.readers
  {
  }

  // ------------------------------------------------------------------
  // The timer

  // The first timer has fired and set a new one.
  lemma FiredTimers(ts: TimerState<ID>, setClk: Clock, eraseClk: Clock, id: ID)
    requires Sorted(ts.cbs) && NeverEarly(ts) && ts.cbs != [] && ts.cbs[0].deadline <= setClk.now
    requires setClk.Valid() && eraseClk.Valid() && forall x :: x in ts.cbs ==> x.deadline != setClk.now + TIMEOUT
    ensures AfterSet(ts, setClk, TIMEOUT, id).cbs != []
    ensures var ts' := AfterErase(AfterSet(ts, setClk, TIMEOUT, id), 0, eraseClk);
            && Sorted(ts'.cbs) && NeverEarly(ts')
            && forall x :: x in ts'.cbs <==>
                 x == Entry(setClk.now + TIMEOUT, ts.counter, id) || (x in ts.cbs && x != ts.cbs[0])
  {
    var more := AfterSet(ts, setClk, TIMEOUT, id);
    SetTimer(ts, setClk, id);
    assert more.cbs[0] == ts.cbs[0];
    hide AfterSet, NeverEarly;
    RemoveSorted(more.cbs, 0);
    EraseNeverEarly(more, 0, eraseClk);
  }

  lemma FiringTimer(m: MasterState, enc: map<ID, bool>, setClk: Clock, eraseClk: Clock)
    requires TimerOk(m, enc) && m.timer.cbs != [] && m.timer.cbs[0].deadline <= setClk.now
    requires setClk.Valid() && eraseClk.Valid()
    requires forall x :: x in m.timer.cbs ==> x.deadline != setClk.now + TIMEOUT && x.handle != m.timer.counter
    requires var id := m.timer.cbs[0].cb; id in m.readReqs <==> id !in m.writeReqs
    ensures TimerOk(Expire(m, setClk, eraseClk).0, enc)
  {
    var first := m.timer.cbs[0];
    assert first in m.timer.cbs;
    var e := Entry(setClk.now + TIMEOUT, m.timer.counter, first.cb);
    hide Sorted, NeverEarly, AfterSet, AfterErase;
    FiredTimers(m.timer, setClk, eraseClk, first.cb);
    var m' := Expire(m, setClk, eraseClk).0;
    Rearmed(m.readReqs, m.writeReqs, enc, m.timer.cbs, m'.readReqs, m'.writeReqs, enc, m'.timer.cbs, e);
  }

  lemma ResentReads(c: Config, r: Register, rd: map<ID, ReadEntry>, dec: map<ID, Decryption>, id: ID, handle: nat)
    requires ReadsOk(c, r, rd, dec) && id in rd
    ensures ReadsOk(c, r, rd[id := rd[id].(handle := handle)], dec)
  {
  }

  // The earliest timer belongs to a request in exactly one of the maps.
  lemma FirstTimer(c: Config, s: System)
    requires RegisterOk(c, s.reg)
    requires WritesOk(c, s.reg, s.m.writeReqs, s.enc) && ReadsOk(c, s.reg, s.m.readReqs, s.dec)
    requires TimerOk(s.m, s.enc) && s.m.timer.cbs != []
    ensures var id := s.m.timer.cbs[0].cb;
            && (id in s.m.readReqs <==> id !in s.m.writeReqs)
            && (id in s.m.writeReqs ==> id !in s.enc)
  {
    var first := s.m.timer.cbs[0];
    assert first in s.m.timer.cbs;
    ReadsAndWrites(c, s, first.cb);
  }

  lemma TimerFiresKeeps(c: Config, s: System, setClk: Clock, eraseClk: Clock)
    requires Inv(c, s) && Enabled(c, s, TimerFires(setClk, eraseClk))
    ensures Asserts(c, s, TimerFires(setClk, eraseClk))
    ensures Inv(c, Apply(c, s, TimerFires(setClk, eraseClk)))
  {
    hide RegisterOk, WritesOk, ReadsOk, ChannelsOk, SlotsOk, AcksOk, RepliesOk, Conforms;
    FirstTimer(c, s);
    FiringTimer(s.m, s.enc, setClk, eraseClk);
    hide TimerOk, GoodConfig, CanSet;
    var id := s.m.timer.cbs[0].cb;
    var s' := Apply(c, s, TimerFires(setClk, eraseClk));
    RequestPackets(c, s, id);
    var out := Retry(s.m, id, setClk).1;
    SendKeepsChannels(c, s.reg, s.enc, s.chan, out, id);
    SendKeepsReplicas(c, s.reg, s.enc, s.mem, s.chan, s.replies, out, id);
    if id in s.m.readReqs {
      ResentReads(c, s.reg, s.m.readReqs, s.dec, id, s.m.timer.counter);
    } else {
      SentWrites(c, s.reg, s.m.writeReqs, s.enc, id, s.m.timer.counter);
      assert s.enc - {id} == s.enc;
    }
  }

  // ------------------------------------------------------------------
  // Decryption

  lemma DecryptBufferKeeps(c: Config, s: System, id: ID)
    requires Inv(c, s) && Enabled(c, s, DecryptBuffer(id))
    ensures Inv(c, Apply(c, s, DecryptBuffer(id)))
  {
    hide RegisterOk, WritesOk, ChannelsOk, SlotsOk, AcksOk, RepliesOk, Conforms, TimerOk;
  }

  lemma DecryptedReads(c: Config, r: Register, rd: map<ID, ReadEntry>, dec: map<ID, Decryption>, id: ID)
    requires ReadsOk(c, r, rd, dec) && id in dec && dec[id].done
    ensures Permits(c, r, ReadAnswered(id, dec[id].status, dec[id].data))
    ensures ReadsOk(c, Update(r, ReadAnswered(id, dec[id].status, dec[id].data)), rd, dec - {id})
  {
  }

  lemma DecryptionDoneKeeps(c: Config, s: System, id: ID)
    requires Inv(c, s) && Enabled(c, s, DecryptionDone(id))
    ensures Inv(c, Apply(c, s, DecryptionDone(id)))
  {
    hide RegisterOk, WritesOk, ReadsOk, ChannelsOk, SlotsOk, AcksOk, RepliesOk, Conforms, TimerOk;
    var ev := ReadAnswered(id, s.dec[id].status, s.dec[id].data);
    var r, r' := s.reg, Update(s.reg, ev);
    DecryptedReads(c, r, s.m.readReqs, s.dec, id);
    RegisterStep(c, r, ev);
    ConformsMore(c, s.hist, ev);
    SameWrites(c, r, r', s.m.writeReqs, s.enc);
    SameReplicas(c, r, r', s.mem, s.chan, s.replies);
    GrowingChannels(c, r, r', s.enc, s.enc, s.chan);
    GrowingReplies(c, r, r', s.enc, s.enc, s.replies);
  }

  // ------------------------------------------------------------------
  // Whole runs

  lemma StepKeeps(c: Config, s: System, step: Step)
    requires Inv(c, s) && Enabled(c, s, step)
    ensures Asserts(c, s, step) && Inv(c, Apply(c, s, step))
  {
    hide Inv;
    match step
    case OsRead(id, block, clk) => OsReadKeeps(c, s, id, block, clk);
    case OsWrite(id, block, data) => OsWriteKeeps(c, s, id, block, data);
    case EncryptBuffer(id) => EncryptBufferKeeps(c, s, id);
    case EncryptionDone(id, clk) => EncryptionDoneKeeps(c, s, id, clk);
    case MinionStep(i) => MinionStepKeeps(c, s, i);
    case Lose(i, k) => LoseKeeps(c, s, i, k);
    case Deliver(ReadReply(i, id, status, data), clk) => ReadReplyKeeps(c, s, i, id, status, data, clk);
    case Deliver(WriteReply(i, id, status), clk) => WriteReplyKeeps(c, s, i, id, status, clk);
    case TimerFires(setClk, eraseClk) => TimerFiresKeeps(c, s, setClk, eraseClk);
    case DecryptBuffer(id) => DecryptBufferKeeps(c, s, id);
    case DecryptionDone(id) => DecryptionDoneKeeps(c, s, id);
  }

  lemma InitInv(c: Config, s: System)
    requires GoodConfig(c) && Init(c, s)
    ensures Inv(c, s)
  {
  }
}
