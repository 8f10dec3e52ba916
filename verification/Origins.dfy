// Reads of any block, written or not: what is returned is a value a regular
// register allows or, if no write to the block had been acknowledged when the
// read was issued, what the memory of one of its replicas held at the start.
module Origins {
  import opened Cipher
  import opened BlockTables
  import opened Timers
  import opened Protocol
  import opened Registers
  import opened Regularity
  import opened Systems
  import opened Invariants
  import opened Preservation
  import opened Replication

  // d is what a replica of b held at the start, decrypted.
  ghost predicate FromStart(c: Config, start: map<Location, Data>, b: nat, d: Data) {
    exists loc :: loc in c.place(b) && loc in start && d == Xor(start[loc])
  }

  // ... or what a write to b carries.
  ghost predicate Origin(c: Config, r: Register, start: map<Location, Data>, b: nat, d: Data) {
    FromStart(c, start, b, d) || exists w :: w in r.issued && r.issued[w] == Payload(b, d)
  }

  ghost predicate ReadOrigin(c: Config, r: Register, start: map<Location, Data>, id: ID, d: Data) {
    id in r.readers && Origin(c, r, start, r.readers[id].block, d)
  }

  ghost predicate SlotsTraced(c: Config, r: Register, start: map<Location, Data>, mem: map<Location, Data>) {
    forall b, loc :: 0 <= b < c.blocks && loc in c.place(b) ==> loc in mem && Origin(c, r, start, b, Xor(mem[loc]))
  }

  ghost predicate RepliesTraced(c: Config, r: Register, start: map<Location, Data>, replies: set<Reply>) {
    forall rep :: rep in replies && rep.ReadReply? ==> ReadOrigin(c, r, start, rep.id, Xor(rep.data))
  }

  ghost predicate JobsTraced(c: Config, r: Register, start: map<Location, Data>, dec: map<ID, Decryption>) {
    forall id :: id in dec ==> ReadOrigin(c, r, start, id, if dec[id].done then dec[id].data else Xor(dec[id].data))
  }

  ghost predicate AnswersTraced(c: Config, start: map<Location, Data>, hist: seq<Event>) {
    forall k :: 0 <= k < |hist| && hist[k].ReadAnswered? ==>
      ReadOrigin(c, Replay(hist[..k]), start, hist[k].id, hist[k].data)
  }

  // Every copy of a block's data anywhere in the system has such an origin.
  ghost predicate Traced(c: Config, start: map<Location, Data>, s: System) {
    && SlotsTraced(c, s.reg, start, s.mem)
    && RepliesTraced(c, s.reg, start, s.replies)
    && JobsTraced(c, s.reg, start, s.dec)
    && AnswersTraced(c, start, s.hist)
  }

  // ------------------------------------------------------------------
  // What a step keeps

  lemma UpdateGrows(r: Register, ev: Event)
    requires ev.ReadIssued? || ev.WriteIssued? ==> !Known(r, ev.id)
    ensures Grows(r, Update(r, ev))
  {
  }

  lemma GrowsOn(r: Register, r': Register, r'': Register)
    requires Grows(r, r') && Grows(r', r'')
    ensures Grows(r, r'')
  {
  }

  lemma DeliverGrows(c: Config, s: System, rep: Reply, clk: Clock)
    requires Possible(c, s, Deliver(rep, clk)) && Asserts(c, s, Deliver(rep, clk))
    ensures Grows(s.reg, Receive(c, s, rep, clk).reg)
  {
    assert Grows(s.reg, s.reg);
    hide Grows, Update, TakeReadReply, TakeWriteReply;
    if rep.WriteReply? {
      var acked, answer := Update(s.reg, MinionAcked(rep.id, rep.minion)), WriteAnswered(rep.id, OsStatus(rep.status));
      UpdateGrows(s.reg, MinionAcked(rep.id, rep.minion));
      UpdateGrows(acked, answer);
      GrowsOn(s.reg, acked, Update(acked, answer));
    }
  }

  lemma StepGrows(c: Config, s: System, step: Step)
    requires Enabled(c, s, step) && Asserts(c, s, step)
    ensures Grows(s.reg, Apply(c, s, step).reg)
  {
    assert Grows(s.reg, s.reg);
    hide Grows, Update, AfterSet, Expire, Receive, Send, Settable, OneWrite;
    match step
    case OsRead(id, block, _) => UpdateGrows(s.reg, ReadIssued(id, block));
    case OsWrite(id, block, data) => UpdateGrows(s.reg, WriteIssued(id, block, data));
    case Deliver(rep, clk) => DeliverGrows(c, s, rep, clk);
    case DecryptionDone(id) => UpdateGrows(s.reg, ReadAnswered(id, OsStatus(s.dec[id].status), s.dec[id].data));
    case _ =>
  }

  lemma StaysTraced(c: Config, start: map<Location, Data>, r: Register, r': Register,
                    mem: map<Location, Data>, replies: set<Reply>, dec: map<ID, Decryption>)
    requires Grows(r, r')
    requires SlotsTraced(c, r, start, mem) && RepliesTraced(c, r, start, replies) && JobsTraced(c, r, start, dec)
    ensures SlotsTraced(c, r', start, mem) && RepliesTraced(c, r', start, replies) && JobsTraced(c, r', start, dec)
  {
    forall b, d | Origin(c, r, start, b, d) ensures Origin(c, r', start, b, d) {
      if !FromStart(c, start, b, d) {
        var w :| w in r.issued && r.issued[w] == Payload(b, d);
        assert w in r'.issued && r'.issued[w] == Payload(b, d);
      }
    }
    hide Origin;
  }

  lemma AnswerAdded(c: Config, start: map<Location, Data>, hist: seq<Event>, ev: Event)
    requires AnswersTraced(c, start, hist)
    requires ev.ReadAnswered? ==> ReadOrigin(c, Replay(hist), start, ev.id, ev.data)
    ensures AnswersTraced(c, start, hist + [ev])
  {
    hide ReadOrigin;
    var more := hist + [ev];
    assert more[..|hist|] == hist;
    forall k | 0 <= k < |hist| && hist[k].ReadAnswered?
      ensures ReadOrigin(c, Replay(more[..k]), start, hist[k].id, hist[k].data)
    {
      assert more[..k] == hist[..k];
    }
  }

  // The events of a step; only the end of a decryption answers a read.
  lemma EventsOf(c: Config, s: System, step: Step) returns (evs: seq<Event>)
    requires Possible(c, s, step) && Asserts(c, s, step)
    ensures Apply(c, s, step).hist == s.hist + evs
    ensures if step.DecryptionDone? then evs == [ReadAnswered(step.id, OsStatus(s.dec[step.id].status), s.dec[step.id].data)]
            else forall ev :: ev in evs ==> !ev.ReadAnswered?
  {
    hide AfterSet, Expire, Receive, Send, Update;
    if step.Deliver? {
      DeliverEvents(c, s, step.rep, step.clk);
    }
    evs := Apply(c, s, step).hist[|s.hist|..];
  }

  lemma DeliverEvents(c: Config, s: System, rep: Reply, clk: Clock)
    requires Possible(c, s, Deliver(rep, clk)) && Asserts(c, s, Deliver(rep, clk))
    ensures var hist := Receive(c, s, rep, clk).hist;
            s.hist <= hist && forall ev :: ev in hist[|s.hist|..] ==> !ev.ReadAnswered?
  {
    hide TakeReadReply, TakeWriteReply, Update, HasTimer, AwaitsRead, AwaitsWrite, CompletesWrite;
  }

  lemma {:induction false} AnswersAdded(c: Config, start: map<Location, Data>, hist: seq<Event>, evs: seq<Event>)
    requires AnswersTraced(c, start, hist) && forall ev :: ev in evs ==> !ev.ReadAnswered?
    ensures AnswersTraced(c, start, hist + evs)
    decreases |evs|
  {
    hide AnswersTraced;
    if evs == [] {
      assert hist + evs == hist;
    } else {
      AnswerAdded(c, start, hist, evs[0]);
      AnswersAdded(c, start, hist + [evs[0]], evs[1..]);
      assert hist + [evs[0]] + evs[1..] == hist + evs;
    }
  }

  lemma HistoryTraced(c: Config, start: map<Location, Data>, s: System, step: Step)
    requires Possible(c, s, step) && Asserts(c, s, step) && s.reg == Replay(s.hist)
    requires AnswersTraced(c, start, s.hist) && JobsTraced(c, s.reg, start, s.dec)
    ensures AnswersTraced(c, start, Apply(c, s, step).hist)
  {
    var evs := EventsOf(c, s, step);
    if step.DecryptionDone? {
      AnswerAdded(c, start, s.hist, evs[0]);
    } else {
      hide Apply;
      AnswersAdded(c, start, s.hist, evs);
    }
  }

  // A minion answers a read from its memory ...
  lemma ReadTracedOn(c: Config, start: map<Location, Data>, r: Register, mem: map<Location, Data>, replies: set<Reply>,
                     i: nat, id: ID, slot: nat, status: int)
    requires SlotsTraced(c, r, start, mem) && RepliesTraced(c, r, start, replies)
    requires id in r.readers && r.readers[id].block < c.blocks && Location(i, slot) in c.place(r.readers[id].block)
    ensures Location(i, slot) in mem
    ensures RepliesTraced(c, r, start, replies + {ReadReply(i, id, status, mem[Location(i, slot)])})
  {
    assert Origin(c, r, start, r.readers[id].block, Xor(mem[Location(i, slot)]));
    hide Origin;
  }

  // ... and stores what a write to the block carries.
  lemma StoreTraced(c: Config, start: map<Location, Data>, r: Register, mem: map<Location, Data>, id: ID, here: Location)
    requires GoodConfig(c) && SlotsTraced(c, r, start, mem)
    requires id in r.issued && r.issued[id].block < c.blocks && here in c.place(r.issued[id].block)
    ensures SlotsTraced(c, r, start, mem[here := Xor(r.issued[id].data)])
  {
    var b, d := r.issued[id].block, r.issued[id].data;
    XorTwice(d);
    assert r.issued[id] == Payload(b, d);
    assert Origin(c, r, start, b, d);
    hide Origin, Xor;
    assert forall b' :: 0 <= b' < c.blocks && here in c.place(b') ==> b' == b;
  }

  lemma ProcessTraced(c: Config, start: map<Location, Data>, s: System, i: nat)
    requires Possible(c, s, MinionStep(i)) && Asserts(c, s, MinionStep(i))
    requires GoodConfig(c) && ShapeOk(c, s.reg) && MsgOk(c, s.reg, s.enc, i, s.chan[i][0])
    requires SlotsTraced(c, s.reg, start, s.mem) && RepliesTraced(c, s.reg, start, s.replies)
    ensures var s' := Apply(c, s, MinionStep(i));
            SlotsTraced(c, s.reg, start, s'.mem) && RepliesTraced(c, s.reg, start, s'.replies)
            && s'.reg == s.reg && s'.dec == s.dec
  {
    match s.chan[i][0] {
      case ReadMsg(id, slot) =>
        ReadTracedOn(c, start, s.reg, s.mem, s.replies, i, id, slot, 0);
        hide SlotsTraced, RepliesTraced, ShapeOk, GoodConfig;
      case WriteMsg(id, slot, data) =>
        StoreTraced(c, start, s.reg, s.mem, id, Location(i, slot));
        MoreReplies(c, start, s.reg, s.replies, WriteReply(i, id, CopyStatus(data, data)));
        hide SlotsTraced, RepliesTraced, ShapeOk, GoodConfig;
    }
  }

  lemma MoreReplies(c: Config, start: map<Location, Data>, r: Register, replies: set<Reply>, rep: Reply)
    requires RepliesTraced(c, r, start, replies) && rep.WriteReply?
    ensures RepliesTraced(c, r, start, replies + {rep})
  {
    hide ReadOrigin;
  }

  // A reply's data goes to the decryptor, and decrypted to the operating
  // system.
  lemma DeliverTraced(c: Config, start: map<Location, Data>, s: System, rep: Reply, clk: Clock)
    requires Possible(c, s, Deliver(rep, clk)) && Asserts(c, s, Deliver(rep, clk))
    requires RepliesTraced(c, s.reg, start, s.replies) && JobsTraced(c, s.reg, start, s.dec)
    ensures var s' := Receive(c, s, rep, clk);
            s'.mem == s.mem && s'.replies == s.replies && JobsTraced(c, s.reg, start, s'.dec)
  {
    if rep.ReadReply? {
      JobAdded(c, start, s.reg, s.dec, rep.id, rep.status, rep.data);
    }
    hide JobsTraced, RepliesTraced;
    WhereDelivered(c, s, rep, clk);
  }

  // Only the replies to reads touch the decryptor, and none the memories.
  lemma WhereDelivered(c: Config, s: System, rep: Reply, clk: Clock)
    requires Possible(c, s, Deliver(rep, clk)) && Asserts(c, s, Deliver(rep, clk))
    ensures var s' := Receive(c, s, rep, clk);
            && s'.mem == s.mem && s'.replies == s.replies
            && (s'.dec == s.dec || (rep.ReadReply? && s'.dec == s.dec[rep.id := Decryption(rep.status, rep.data, false)]))
  {
    hide TakeReadReply, TakeWriteReply, Update, HasTimer, AwaitsRead, AwaitsWrite, CompletesWrite;
  }

  lemma JobAdded(c: Config, start: map<Location, Data>, r: Register, dec: map<ID, Decryption>, id: ID, status: int, data: Data)
    requires JobsTraced(c, r, start, dec) && ReadOrigin(c, r, start, id, Xor(data))
    ensures JobsTraced(c, r, start, dec[id := Decryption(status, data, false)])
  {
    hide ReadOrigin;
  }

  lemma JobsStep(c: Config, start: map<Location, Data>, s: System, step: Step)
    requires Possible(c, s, step) && Asserts(c, s, step) && !step.MinionStep?
    requires RepliesTraced(c, s.reg, start, s.replies) && JobsTraced(c, s.reg, start, s.dec)
    ensures var s' := Apply(c, s, step);
            s'.mem == s.mem && s'.replies == s.replies && JobsTraced(c, s.reg, start, s'.dec)
  {
    hide AfterSet, Expire, Receive, Send, Update, ReadOrigin;
    if step.Deliver? {
      DeliverTraced(c, start, s, step.rep, step.clk);
    }
  }

  lemma TracedStep(c: Config, start: map<Location, Data>, s: System, step: Step)
    requires Inv(c, s) && Traced(c, start, s) && Enabled(c, s, step) && Asserts(c, s, step)
    ensures Traced(c, start, Apply(c, s, step))
  {
    if step.MinionStep? {
      assert MsgOk(c, s.reg, s.enc, step.minion, s.chan[step.minion][0]);
      ProcessTraced(c, start, s, step.minion);
    } else {
      JobsStep(c, start, s, step);
    }
    assert s.reg == Replay(s.hist);
    hide Inv, SlotsTraced, RepliesTraced, JobsTraced, AnswersTraced, Apply, Asserts, Grows;
    HistoryTraced(c, start, s, step);
    StepGrows(c, s, step);
    var s' := Apply(c, s, step);
    StaysTraced(c, start, s.reg, s'.reg, s'.mem, s'.replies, s'.dec);
  }

  lemma InitTraced(c: Config, s: System)
    requires Init(c, s)
    ensures Traced(c, s.mem, s)
  {
  }

  lemma {:induction false} RunTraced(c: Config, start: map<Location, Data>, s: System, steps: seq<Step>)
    requires Inv(c, s) && Traced(c, start, s) && Legal(c, s, steps)
    ensures Run(c, s, steps).Some? && Inv(c, Run(c, s, steps).value) && Traced(c, start, Run(c, s, steps).value)
    decreases |steps|
  {
    hide Inv, Traced, Enabled, Asserts, Apply;
    if steps != [] {
      StepKeeps(c, s, steps[0]);
      TracedStep(c, start, s, steps[0]);
      RunTraced(c, start, Apply(c, s, steps[0]), steps[1..]);
    }
  }

  // ------------------------------------------------------------------
  // Reads

  // A write issued before k, if nothing was acknowledged before i, is not
  // overwritten at i.
  lemma UnwrittenReturnable(c: Config, hist: seq<Event>, i: nat, k: nat, b: nat, d: Data, w: ID)
    requires Conforms(c, hist) && i <= k <= |hist| && !WrittenBefore(hist, i, b)
    requires w in Replay(hist[..k]).issued && Replay(hist[..k]).issued[w] == Payload(b, d)
    ensures Returnable(hist, i, k, b, d)
  {
    hide Replay;
    var j, b', d' := IssuedEarlier(c, hist, k, w);
    forall n, id, d | j < n < |hist| && IssuesWrite(hist, n, id, b, d) ensures !AnsweredBefore(hist, i, id) {
      if n >= i {
        hide WrittenBefore, AnsweredBefore;
        LaterNotAnswered(c, hist, i, n, id, b, d);
      }
    }
    assert NotOverwritten(hist, j, i, b);
  }

  // Every read of every run.
  lemma ReadsFromTheStart(c: Config, s0: System, steps: seq<Step>, i: nat, k: nat, id: ID, b: nat, status: int, d: Data)
    requires GoodConfig(c) && Init(c, s0) && Legal(c, s0, steps) && Run(c, s0, steps).Some?
    requires var hist := Run(c, s0, steps).value.hist;
             i < |hist| && k < |hist| && hist[i] == ReadIssued(id, b) && hist[k] == ReadAnswered(id, status, d)
    ensures var hist := Run(c, s0, steps).value.hist;
            && i < k && status == 0
            && (Returnable(hist, i, k, b, d) || (!WrittenBefore(hist, i, b) && FromStart(c, s0.mem, b, d)))
  {
    InitInv(c, s0);
    InitTraced(c, s0);
    RunTraced(c, s0.mem, s0, steps);
    var s := Run(c, s0, steps).value;
    hide Run, Legal, Init;
    ReadTraced(c, s0.mem, s, i, k, id, b, status, d);
  }

  lemma ReadTraced(c: Config, start: map<Location, Data>, s: System, i: nat, k: nat, id: ID, b: nat, status: int, d: Data)
    requires Inv(c, s) && Traced(c, start, s) && i < |s.hist| && k < |s.hist|
    requires s.hist[i] == ReadIssued(id, b) && s.hist[k] == ReadAnswered(id, status, d)
    ensures i < k && status == 0
    ensures Returnable(s.hist, i, k, b, d) || (!WrittenBefore(s.hist, i, b) && FromStart(c, start, b, d))
  {
    assert Conforms(c, s.hist) && AnswersTraced(c, start, s.hist);
    hide Inv, Traced;
    AnsweredLater(c, s.hist, i, k, id, b, status, d);
    ConformsAt(c, s.hist, k);
    assert ReadOrigin(c, Replay(s.hist[..k]), start, id, d);
    AllowedReturnable(c, s.hist, i, k, id, b, d);
    hide Replay, Returnable, WrittenBefore, FromStart, Conforms, AnswersTraced;
    if WrittenBefore(s.hist, i, b) {
      ReadsAreRegular(c, s.hist, i, k, id, b, status, d);
    } else if !FromStart(c, start, b, d) {
      var w :| w in Replay(s.hist[..k]).issued && Replay(s.hist[..k]).issued[w] == Payload(b, d);
      UnwrittenReturnable(c, s.hist, i, k, b, d, w);
    }
  }
}
