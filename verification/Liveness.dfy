// When retransmission goes on: the timer descriptor of the replicated device
// is right up to the first tie, retransmission always works while it is, and
// never again after a tie until the first pending request has been answered.
module Liveness {
  import opened Cipher
  import opened BlockTables
  import opened Timers
  import opened Protocol
  import opened Registers
  import opened Systems
  import opened Invariants
  import opened Preservation
  import opened Replication
  import opened Progress

  // The step completes the request of the earliest timer.
  ghost predicate CancelsFirst(s: System, step: Step) {
    match step
    case Deliver(ReadReply(i, id, _, _), _) => AwaitsRead(s.m, id, i) && Find(s.m.timer.cbs, s.m.readReqs[id].handle) == 0
    case Deliver(WriteReply(i, id, _), _) => CompletesWrite(s.m, id, i) && Find(s.m.timer.cbs, s.m.writeReqs[id].handle) == 0
    case _ => false
  }

  // It, or an expiry, re-arms the descriptor at the very instant the next
  // timer is due.
  ghost predicate Tie(s: System, step: Step) {
    match step
    case Deliver(_, clk) => CancelsFirst(s, step) && DueNow(s.m.timer, 0, clk)
    case TimerFires(setClk, eraseClk) =>
      s.m.timer.cbs != [] && DueNow(Retry(s.m, s.m.timer.cbs[0].cb, setClk).0.timer, 0, eraseClk)
    case _ => false
  }

  // Timers are pending and the descriptor will not report them.
  ghost predicate Deaf(ts: TimerState<ID>) {
    ts.cbs != [] && ts.armed == None
  }

  // ------------------------------------------------------------------
  // Exactly ties break the descriptor

  lemma SetStaysArmed(ts: TimerState<ID>, clk: Clock, id: ID)
    requires Sorted(ts.cbs) && Armed(ts) && clk.Valid()
    ensures Armed(AfterSet(ts, clk, TIMEOUT, id)) && Sorted(AfterSet(ts, clk, TIMEOUT, id).cbs)
    ensures AfterSet(ts, clk, TIMEOUT, id).cbs != []
  {
    SetArmed(ts, clk, TIMEOUT, id);
    InsertSorted(ts.cbs, Entry(clk.now + TIMEOUT, ts.counter, id));
  }

  lemma ErasedArmedIff(ts: TimerState<ID>, clk: Clock)
    requires Sorted(ts.cbs) && ts.cbs != [] && Armed(ts) && clk.Valid()
    ensures var after := AfterErase(ts, 0, clk);
            if DueNow(ts, 0, clk) then Deaf(after) && !Armed(after) else Armed(after)
  {
    EraseArmed(ts, 0, clk);
  }

  lemma CancelledArmedIff(ts: TimerState<ID>, h: nat, clk: Clock)
    requires Sorted(ts.cbs) && Armed(ts) && Find(ts.cbs, h) < |ts.cbs| && clk.Valid()
    ensures var after := AfterCancel(ts, h, clk);
            if Find(ts.cbs, h) == 0 && DueNow(ts, 0, clk) then Deaf(after) && !Armed(after) else Armed(after)
  {
    CancelArmed(ts, h, clk);
  }

  // A step keeps the descriptor registered and armed iff timers are pending,
  // iff it is no tie; a tie leaves it deaf.
  lemma StepArmed(c: Config, s: System, step: Step)
    requires Inv(c, s) && Armed(s.m.timer) && Enabled(c, s, step)
    ensures Asserts(c, s, step)
    ensures Armed(Apply(c, s, step).m.timer) <==> !Tie(s, step)
    ensures Tie(s, step) ==> Deaf(Apply(c, s, step).m.timer)
  {
    InvSorted(c, s);
    hide Inv;
    StepKeeps(c, s, step);
    EnabledClocks(c, s, step);
    hide Enabled, Armed, Sorted, AfterSet, Expire, Receive, Apply, Asserts, CancelsFirst, Deaf;
    TimerAfter(c, s, step);
    match step {
      case OsRead(id, _, clk) => SetStaysArmed(s.m.timer, clk, id);
      case EncryptionDone(id, clk) => SetStaysArmed(s.m.timer, clk, id);
      case TimerFires(setClk, eraseClk) => FiringArmed(s.m, setClk, eraseClk);
      case Deliver(rep, clk) => DeliveryArmed(c, s, rep, clk);
      case _ =>
    }
  }

  lemma EnabledClocks(c: Config, s: System, step: Step)
    requires Possible(c, s, step)
    ensures step.OsRead? || step.EncryptionDone? || step.Deliver? ==> step.clk.Valid()
    ensures step.TimerFires? ==> step.setClk.Valid() && step.eraseClk.Valid()
    ensures step.TimerFires? && Asserts(c, s, step) ==> s.m.timer.cbs != []
  {
  }

  // What a step does to the timer.
  lemma TimerAfter(c: Config, s: System, step: Step)
    requires Possible(c, s, step) && Asserts(c, s, step)
    ensures var after := Apply(c, s, step).m.timer;
            match step
            case OsRead(id, _, clk) => after == AfterSet(s.m.timer, clk, TIMEOUT, id)
            case EncryptionDone(id, clk) => after == AfterSet(s.m.timer, clk, TIMEOUT, id)
            case TimerFires(setClk, eraseClk) => s.m.timer.cbs != [] && after == Expire(s.m, setClk, eraseClk).0.timer
            case Deliver(rep, clk) => after == Receive(c, s, rep, clk).m.timer
            case _ => after == s.m.timer
  {
    hide AfterSet, Expire, Receive;
  }

  lemma FiringArmed(m: MasterState, setClk: Clock, eraseClk: Clock)
    requires Sorted(m.timer.cbs) && Armed(m.timer) && m.timer.cbs != [] && setClk.Valid() && eraseClk.Valid()
    ensures var after := Expire(m, setClk, eraseClk).0.timer;
            if DueNow(Retry(m, m.timer.cbs[0].cb, setClk).0.timer, 0, eraseClk) then Deaf(after) && !Armed(after) else Armed(after)
  {
    var id := m.timer.cbs[0].cb;
    SetStaysArmed(m.timer, setClk, id);
    hide AfterSet, Armed, Sorted, DueNow, AfterErase;
    ErasedArmedIff(Retry(m, id, setClk).0.timer, eraseClk);
  }

  lemma DeliveryArmed(c: Config, s: System, rep: Reply, clk: Clock)
    requires Possible(c, s, Deliver(rep, clk)) && Asserts(c, s, Deliver(rep, clk))
    requires Sorted(s.m.timer.cbs) && Armed(s.m.timer)
    ensures var after := Receive(c, s, rep, clk).m.timer;
            if Tie(s, Deliver(rep, clk)) then Deaf(after) && !Armed(after) else Armed(after)
  {
    hide AfterCancel, Armed, Sorted, DueNow, Deaf;
    match rep
    case ReadReply(i, id, _, _) =>
      if AwaitsRead(s.m, id, i) {
        CancelledArmedIff(s.m.timer, s.m.readReqs[id].handle, clk);
      }
    case WriteReply(i, id, _) =>
      if CompletesWrite(s.m, id, i) {
        CancelledArmedIff(s.m.timer, s.m.writeReqs[id].handle, clk);
      }
  }

  ghost predicate TieFree(c: Config, s: System, steps: seq<Step>)
    requires Legal(c, s, steps)
    decreases |steps|
  {
    steps == [] || (!Tie(s, steps[0]) && (Asserts(c, s, steps[0]) ==> TieFree(c, Apply(c, s, steps[0]), steps[1..])))
  }

  // Over any run without ties the descriptor is right.
  lemma {:induction false} RunArmed(c: Config, s: System, steps: seq<Step>)
    requires Inv(c, s) && Armed(s.m.timer) && Legal(c, s, steps) && TieFree(c, s, steps)
    ensures Run(c, s, steps).Some? && Armed(Run(c, s, steps).value.m.timer)
    decreases |steps|
  {
    hide Inv, Armed, Enabled, Asserts, Apply, Tie;
    if steps != [] {
      StepKeeps(c, s, steps[0]);
      StepArmed(c, s, steps[0]);
      RunArmed(c, Apply(c, s, steps[0]), steps[1..]);
    }
  }

  // ------------------------------------------------------------------
  // While it is right, retransmission works

  // The handle of the next timer is not in use.
  ghost predicate HandleFree(ts: TimerState<ID>) {
    forall x :: x in ts.cbs ==> x.handle != ts.counter
  }

  // No more than lag passes between reading the clock and setting the
  // descriptor.
  ghost predicate Within(step: Step, lag: int) {
    match step
    case OsRead(_, _, clk) => clk.settime - clk.now <= lag
    case EncryptionDone(_, clk) => clk.settime - clk.now <= lag
    case Deliver(_, clk) => clk.settime - clk.now <= lag
    case TimerFires(setClk, eraseClk) => setClk.settime - setClk.now <= lag && eraseClk.settime - eraseClk.now <= lag
    case _ => 0 <= lag
  }

  lemma LaterOnTime(ts: TimerState<ID>, clock: int, clock': int, lag: int)
    requires OnTime(ts, clock, lag) && clock <= clock'
    ensures OnTime(ts, clock', lag)
  {
  }

  lemma FiringOnTime(m: MasterState, setClk: Clock, eraseClk: Clock, lag: int)
    requires m.timer.cbs != [] && eraseClk.Valid() && eraseClk.settime - eraseClk.now <= lag
    ensures OnTime(Expire(m, setClk, eraseClk).0.timer, eraseClk.settime, lag)
  {
    hide AfterErase;
    EraseOnTime(Retry(m, m.timer.cbs[0].cb, setClk).0.timer, eraseClk);
  }

  lemma DeliveryOnTime(c: Config, s: System, rep: Reply, clk: Clock, lag: int)
    requires Possible(c, s, Deliver(rep, clk)) && Asserts(c, s, Deliver(rep, clk)) && Sorted(s.m.timer.cbs)
    requires OnTime(s.m.timer, s.clock, lag) && clk.settime - clk.now <= lag
    ensures OnTime(Receive(c, s, rep, clk).m.timer, clk.settime, lag)
  {
    LaterOnTime(s.m.timer, s.clock, clk.settime, lag);
    hide AfterCancel, Sorted, OnTime;
    match rep
    case ReadReply(i, id, _, _) =>
      if AwaitsRead(s.m, id, i) {
        CancelOnTime(s.m.timer, s.m.readReqs[id].handle, clk, s.clock, lag);
      }
    case WriteReply(i, id, _) =>
      if CompletesWrite(s.m, id, i) {
        CancelOnTime(s.m.timer, s.m.writeReqs[id].handle, clk, s.clock, lag);
      }
  }

  lemma StepOnTime(c: Config, s: System, step: Step, lag: int)
    requires Sorted(s.m.timer.cbs) && Possible(c, s, step) && Asserts(c, s, step)
    requires OnTime(s.m.timer, s.clock, lag) && Within(step, lag)
    ensures OnTime(Apply(c, s, step).m.timer, Apply(c, s, step).clock, lag)
  {
    ClockAfter(c, s, step);
    EnabledClocks(c, s, step);
    TimerAfter(c, s, step);
    hide Apply, Possible, Asserts, Sorted, AfterSet, Expire, Receive, OnTime;
    match step {
      case OsRead(id, _, clk) => SetOnTime(s.m.timer, clk, TIMEOUT, id, s.clock, lag);
      case EncryptionDone(id, clk) => SetOnTime(s.m.timer, clk, TIMEOUT, id, s.clock, lag);
      case TimerFires(setClk, eraseClk) => FiringOnTime(s.m, setClk, eraseClk, lag);
      case Deliver(rep, clk) => DeliveryOnTime(c, s, rep, clk, lag);
      case _ =>
    }
  }

  // Over any run the descriptor is armed in time.
  lemma {:induction false} RunOnTime(c: Config, s: System, steps: seq<Step>, lag: int)
    requires Inv(c, s) && Legal(c, s, steps) && OnTime(s.m.timer, s.clock, lag)
    requires forall step :: step in steps ==> Within(step, lag)
    ensures Run(c, s, steps).Some? && OnTime(Run(c, s, steps).value.m.timer, Run(c, s, steps).value.clock, lag)
    decreases |steps|
  {
    hide Inv, Enabled, Asserts, Apply, OnTime, Within, Sorted;
    InvSorted(c, s);
    if steps != [] {
      StepKeeps(c, s, steps[0]);
      StepOnTime(c, s, steps[0], lag);
      RunOnTime(c, Apply(c, s, steps[0]), steps[1..], lag);
    }
  }

  lemma LastIsLatest(cbs: seq<Entry<ID>>)
    requires Sorted(cbs) && cbs != []
    ensures forall x :: x in cbs ==> x.deadline <= cbs[|cbs| - 1].deadline
  {
  }

  // With something waiting, the earliest timer fires at any time late enough;
  // in states of runs, that is as soon as its deadline and the lag have passed.
  lemma FiresLater(c: Config, s: System, id: ID, lag: int) returns (t: int)
    requires Inv(c, s) && Armed(s.m.timer) && Waiting(s.m.readReqs, s.m.writeReqs, s.enc, id) && HandleFree(s.m.timer)
    ensures s.m.timer.cbs != []
    ensures Bounded(s) && OnTime(s.m.timer, s.clock, lag) ==> t <= s.clock + 1 || t <= s.m.timer.cbs[0].deadline + lag
    ensures forall setClk: Clock, eraseClk: Clock | t <= setClk.now && setClk.Valid() && eraseClk.Valid() && setClk.settime <= eraseClk.now ::
              Enabled(c, s, TimerFires(setClk, eraseClk))
  {
    hide RegisterOk, WritesOk, ReadsOk, ChannelsOk, SlotsOk, AcksOk, RepliesOk, Conforms, GoodConfig;
    var cbs := s.m.timer.cbs;
    assert HasTimerFor(cbs, id);
    LastIsLatest(cbs);
    t := Latest(s.clock, s.m.timer.armed.value, cbs[|cbs| - 1].deadline - TIMEOUT + 1);
    assert cbs[|cbs| - 1] in cbs;
  }

  // Late enough is never more than ten seconds and the lag away.
  lemma FiresAt(c: Config, s: System, id: ID, lag: int) returns (clk: Clock)
    requires Inv(c, s) && Armed(s.m.timer) && Waiting(s.m.readReqs, s.m.writeReqs, s.enc, id) && HandleFree(s.m.timer)
    ensures Enabled(c, s, TimerFires(clk, clk)) && s.m.timer.cbs != []
    ensures Bounded(s) && OnTime(s.m.timer, s.clock, lag) && lag >= 0 ==> clk.now <= s.clock + 10_000_000_000 + lag
  {
    var late := FiresLater(c, s, id, lag);
    clk := Clock(late, late);
    assert s.m.timer.cbs[0] in s.m.timer.cbs;
  }

  function Latest(a: int, b: int, c: int): (t: int)
    ensures t >= a && t >= b && t >= c && (t == a || t == b || t == c)
  {
    var t := if a > b then a else b;
    if t > c then t else c
  }

  // A run without new requests.
  ghost predicate Path(c: Config, s: System, steps: seq<Step>, t: System) {
    Legal(c, s, steps) && Quiet(steps) && Run(c, s, steps) == Some(t) && Inv(c, t)
  }

  lemma Go(c: Config, s: System, steps: seq<Step>, t: System, step: Step) returns (t': System, steps': seq<Step>)
    requires Path(c, s, steps, t) && Enabled(c, t, step) && !Issues(step)
    ensures Asserts(c, t, step) && t' == Apply(c, t, step) && Path(c, s, steps', t')
    ensures steps' == steps + [step]
    ensures Legal(c, s, steps) && Legal(c, s, steps')
    ensures FirstAcks(c, s, steps') == FirstAcks(c, s, steps) + if FirstAck(t, step) then 1 else 0
  {
    hide Inv, Enabled, Asserts, Apply, Issues, FirstAck;
    StepKeeps(c, t, step);
    OneMore(c, s, steps, step);
    OneMoreAck(c, s, steps, step);
    t', steps' := Apply(c, t, step), steps + [step];
    assert forall k :: 0 <= k < |steps'| ==> steps'[k] == if k < |steps| then steps[k] else step;
  }

  lemma {:induction false} OneMoreAck(c: Config, s: System, steps: seq<Step>, step: Step)
    requires Legal(c, s, steps) && Run(c, s, steps).Some? && Legal(c, s, steps + [step])
    requires Enabled(c, Run(c, s, steps).value, step) && Asserts(c, Run(c, s, steps).value, step)
    ensures FirstAcks(c, s, steps + [step]) ==
            FirstAcks(c, s, steps) + if FirstAck(Run(c, s, steps).value, step) then 1 else 0
    decreases |steps|
  {
    hide Enabled, Asserts, Apply, FirstAck;
    if steps == [] {
      assert steps + [step] == [step];
      assert [step][1..] == [];
    } else {
      assert (steps + [step])[1..] == steps[1..] + [step];
      OneMoreAck(c, Apply(c, s, steps[0]), steps[1..], step);
    }
  }

  // A minion's reply to a message is on its way.
  ghost predicate Replied(replies: set<Reply>, i: nat, msg: Msg) {
    match msg
    case ReadMsg(id, _) => exists status, data :: ReadReply(i, id, status, data) in replies
    case WriteMsg(id, _, _) => exists status :: WriteReply(i, id, status) in replies
  }

  lemma OneReplied(c: Config, s: System, i: nat)
    requires Possible(c, s, MinionStep(i)) && Asserts(c, s, MinionStep(i))
    ensures var s', msg := Apply(c, s, MinionStep(i)), s.chan[i][0];
            && Replied(s'.replies, i, msg) && s.replies <= s'.replies
            && s'.m == s.m && s'.clock == s.clock && s'.enc == s.enc
            && i in s'.chan && s'.chan[i] == s.chan[i][1..]
  {
    var s', msg := Apply(c, s, MinionStep(i)), s.chan[i][0];
    match msg
    case ReadMsg(id, slot) =>
      var data := s.mem[Location(i, slot)];
      assert ReadReply(i, id, CopyStatus(data, data), data) in s'.replies;
    case WriteMsg(id, slot, data) =>
      assert WriteReply(i, id, CopyStatus(data, data)) in s'.replies;
  }

  // The minion works off its channel, up to a given message.
  lemma WorkOff(c: Config, s0: System, before: seq<Step>, s: System, i: nat, k: nat) returns (t: System, steps: seq<Step>)
    requires Path(c, s0, before, s) && i in s.chan && k < |s.chan[i]|
    ensures Path(c, s0, steps, t) && before <= steps
    ensures t.m == s.m && t.clock == s.clock && t.enc == s.enc && Replied(t.replies, i, s.chan[i][k])
    decreases k
  {
    hide Path, Inv, Replied;
    CanStep(c, s, i);
    t, steps := Go(c, s0, before, s, MinionStep(i));
    OneReplied(c, s, i);
    if k > 0 {
      assert t.chan[i][k - 1] == s.chan[i][k];
      t, steps := WorkOff(c, s0, steps, t, i, k - 1);
    }
  }

  lemma CanStep(c: Config, s: System, i: nat)
    requires i in s.chan && s.chan[i] != []
    ensures Enabled(c, s, MinionStep(i))
  {
  }

  // The master waits for minion i to answer the message.
  ghost predicate Awaited(m: MasterState, i: nat, msg: Msg) {
    match msg
    case ReadMsg(id, _) => AwaitsRead(m, id, i)
    case WriteMsg(id, _, _) => AwaitsWrite(m, id, i)
  }

  // The request of the earliest timer waits for some replica's minion.
  lemma FirstWaits(c: Config, s: System) returns (loc: Location)
    requires Inv(c, s) && s.m.timer.cbs != []
    ensures loc.minion in s.chan
    ensures var id := s.m.timer.cbs[0].cb;
            if id in s.m.readReqs then loc in s.m.readReqs[id].locs
            else id in s.m.writeReqs && loc in s.m.writeReqs[id].locs
  {
    hide BlocksOk, ReadersOk, SlotsOk, AcksOk, RepliesOk, Conforms;
    var x := s.m.timer.cbs[0];
    assert x in s.m.timer.cbs;
    if x.cb in s.m.readReqs {
      var e := s.m.readReqs[x.cb];
      assert e.block < c.blocks;
      loc := e.locs[0];
    } else {
      var e := s.m.writeReqs[x.cb];
      assert WriteOk(c, s.reg, x.cb, e, false);
      loc := e.locs[0];
      assert loc in c.place(e.block);
    }
  }

  lemma Found(locs: seq<Location>, loc: Location)
    requires loc in locs
    ensures FindMinion(locs, loc.minion) < |locs|
  {
  }

  lemma MasterResends(m: MasterState, loc: Location, setClk: Clock, eraseClk: Clock) returns (msg: Msg)
    requires m.timer.cbs != []
    requires var id := m.timer.cbs[0].cb;
             if id in m.readReqs then loc in m.readReqs[id].locs
             else id in m.writeReqs && loc in m.writeReqs[id].locs
    ensures var (m', out) := Expire(m, setClk, eraseClk); Packet(loc.minion, msg) in out && Awaited(m', loc.minion, msg)
  {
    hide AfterSet, AfterErase, FindMinion;
    var id := m.timer.cbs[0].cb;
    if id in m.readReqs {
      msg := ReadMsg(id, loc.slot);
      Found(m.readReqs[id].locs, loc);
      var j :| 0 <= j < |m.readReqs[id].locs| && m.readReqs[id].locs[j] == loc;
      assert ReadPackets(id, m.readReqs[id].locs)[j] == Packet(loc.minion, msg);
    } else {
      msg := WriteMsg(id, loc.slot, m.writeReqs[id].data);
      Found(m.writeReqs[id].locs, loc);
      var j :| 0 <= j < |m.writeReqs[id].locs| && m.writeReqs[id].locs[j] == loc;
      assert WritePackets(id, m.writeReqs[id].data, m.writeReqs[id].locs)[j] == Packet(loc.minion, msg);
    }
  }

  // An expiry sends its request once more to every minion it waits for.
  lemma Resent(c: Config, s: System, setClk: Clock, eraseClk: Clock) returns (i: nat, k: nat)
    requires Inv(c, s) && s.m.timer.cbs != []
    requires Possible(c, s, TimerFires(setClk, eraseClk)) && Asserts(c, s, TimerFires(setClk, eraseClk))
    ensures var s' := Apply(c, s, TimerFires(setClk, eraseClk));
            i in s'.chan && k < |s'.chan[i]| && Awaited(s'.m, i, s'.chan[i][k])
  {
    var loc := FirstWaits(c, s);
    hide Inv, Possible, Asserts, Apply, Expire, Awaited, Send;
    i := loc.minion;
    var msg := MasterResends(s.m, loc, setClk, eraseClk);
    k := SendContains(s.chan, Expire(s.m, setClk, eraseClk).1, i, msg);
    FiringSends(c, s, setClk, eraseClk);
  }

  lemma SendContains(chan: map<nat, seq<Msg>>, out: seq<Packet>, i: nat, msg: Msg) returns (k: nat)
    requires i in chan && Packet(i, msg) in out
    ensures i in Send(chan, out) && k < |Send(chan, out)[i]| && Send(chan, out)[i][k] == msg
  {
    ForMember(out, i, msg);
    var ch := chan[i] + For(out, i);
    assert msg in ch;
    k :| k < |ch| && ch[k] == msg;
  }

  // In any state reached without a tie, with something waiting, the device can
  // go on, without new requests, by an expiry that brings an acknowledgement it
  // waits for.
  lemma Retransmission(c: Config, s: System, id: ID, lag: int) returns (steps: seq<Step>)
    requires Inv(c, s) && Armed(s.m.timer) && Waiting(s.m.readReqs, s.m.writeReqs, s.enc, id) && HandleFree(s.m.timer)
    ensures Legal(c, s, steps) && Quiet(steps) && steps != [] && steps[0].TimerFires?
    ensures Run(c, s, steps).Some? && FirstAcks(c, s, steps) > 0
    ensures Bounded(s) && OnTime(s.m.timer, s.clock, lag) && lag >= 0 ==> steps[0].setClk.now <= s.clock + 10_000_000_000 + lag
  {
    var clk := FiresAt(c, s, id, lag);
    hide Bounded, OnTime, Inv, Armed, Waiting, HandleFree, Awaited, Path, Enabled;
    var t, i, k, fired := FiresFirst(c, s, clk);
    steps := BringsAck(c, s, fired, t, i, k);
  }

  lemma StandStill(c: Config, s: System)
    requires Inv(c, s)
    ensures Path(c, s, [], s)
  {
    hide Inv;
  }

  lemma FiresFirst(c: Config, s: System, clk: Clock) returns (t: System, i: nat, k: nat, steps: seq<Step>)
    requires Inv(c, s) && Enabled(c, s, TimerFires(clk, clk)) && s.m.timer.cbs != []
    ensures steps == [TimerFires(clk, clk)] && Path(c, s, steps, t)
    ensures i in t.chan && k < |t.chan[i]| && Awaited(t.m, i, t.chan[i][k])
  {
    hide Inv, Enabled, Apply, Awaited, Path, Asserts, Possible;
    StandStill(c, s);
    t, steps := Go(c, s, [], s, TimerFires(clk, clk));
    i, k := Resent(c, s, clk, clk);
  }

  // A message waited for, on its way to a minion, can bring its answer.
  lemma BringsAck(c: Config, s0: System, before: seq<Step>, s: System, i: nat, k: nat) returns (steps: seq<Step>)
    requires Path(c, s0, before, s) && i in s.chan && k < |s.chan[i]| && Awaited(s.m, i, s.chan[i][k])
    ensures Legal(c, s0, steps) && Quiet(steps) && before <= steps
    ensures Run(c, s0, steps).Some? && FirstAcks(c, s0, steps) > 0
  {
    hide Inv, Enabled, Asserts, Apply, Replied, Awaited, FirstAck, Issues;
    var t;
    t, steps := WorkOff(c, s0, before, s, i, k);
    var rep := TheReply(t.replies, i, s.chan[i][k]);
    AnswerCounts(c, t, rep, i, s.chan[i][k]);
    t, steps := Go(c, s0, steps, t, Deliver(rep, Clock(t.clock, t.clock)));
  }

  lemma TheReply(replies: set<Reply>, i: nat, msg: Msg) returns (rep: Reply)
    requires Replied(replies, i, msg)
    ensures rep in replies && rep.minion == i && rep.id == msg.id && (rep.ReadReply? <==> msg.ReadMsg?)
  {
    match msg
    case ReadMsg(id, _) =>
      var status, data :| ReadReply(i, id, status, data) in replies;
      rep := ReadReply(i, id, status, data);
    case WriteMsg(id, _, _) =>
      var status :| WriteReply(i, id, status) in replies;
      rep := WriteReply(i, id, status);
  }

  lemma AnswerCounts(c: Config, s: System, rep: Reply, i: nat, msg: Msg)
    requires rep in s.replies && rep.minion == i && rep.id == msg.id && (rep.ReadReply? <==> msg.ReadMsg?)
    requires Awaited(s.m, i, msg)
    ensures var step := Deliver(rep, Clock(s.clock, s.clock)); Enabled(c, s, step) && FirstAck(s, step) && !Issues(step)
  {
  }

  // ------------------------------------------------------------------
  // Nor is anything sent again too soon

  // The step sends request id, and when it reads the clock to set its timer.
  ghost predicate Sends(s: System, step: Step, id: ID) {
    match step
    case OsRead(x, _, _) => x == id
    case EncryptionDone(x, _) => x == id
    case TimerFires(_, _) => Resends(s, step, id)
    case _ => false
  }

  ghost predicate Resends(s: System, step: Step, id: ID) {
    step.TimerFires? && s.m.timer.cbs != [] && s.m.timer.cbs[0].cb == id
  }

  function SentAt(step: Step): int {
    match step
    case OsRead(_, _, clk) => clk.now
    case EncryptionDone(_, clk) => clk.now
    case TimerFires(setClk, _) => setClk.now
    case _ => 0
  }

  ghost predicate DueFrom(cbs: seq<Entry<ID>>, id: ID, at: int) {
    forall x :: x in cbs && x.cb == id ==> at <= x.deadline
  }

  lemma SetHas(ts: TimerState<ID>, clk: Clock, id: ID)
    requires Sorted(ts.cbs)
    ensures Entry(clk.now + TIMEOUT, ts.counter, id) in AfterSet(ts, clk, TIMEOUT, id).cbs
  {
  }

  // A request just sent has a timer of ten seconds ...
  lemma TenSeconds(c: Config, s: System, step: Step, id: ID) returns (x: Entry<ID>)
    requires Inv(c, s) && Enabled(c, s, step) && Sends(s, step, id)
    ensures Asserts(c, s, step)
    ensures x in Apply(c, s, step).m.timer.cbs && x.cb == id && x.deadline == SentAt(step) + 10_000_000_000
  {
    x := Entry(SentAt(step) + TIMEOUT, s.m.timer.counter, id);
    hide Inv, Enabled, Asserts, Possible, Apply, Expire, Sorted;
    InvSorted(c, s);
    StepKeeps(c, s, step);
    if step.TimerFires? {
      FiredHas(c, s, step.setClk, step.eraseClk);
    }
    HasTimerAfter(c, s, step, id, x);
  }

  lemma HasTimerAfter(c: Config, s: System, step: Step, id: ID, x: Entry<ID>)
    requires Sorted(s.m.timer.cbs) && Possible(c, s, step) && Asserts(c, s, step) && Sends(s, step, id)
    requires x == Entry(SentAt(step) + TIMEOUT, s.m.timer.counter, id)
    requires step.TimerFires? ==> s.m.timer.cbs != [] && x in Expire(s.m, step.setClk, step.eraseClk).0.timer.cbs
    ensures x in Apply(c, s, step).m.timer.cbs
  {
    TimerAfter(c, s, step);
    hide Possible, Asserts, Sorted, AfterSet, Expire, Receive, Apply;
    match step {
      case OsRead(_, _, clk) => SetHas(s.m.timer, clk, id);
      case EncryptionDone(_, clk) => SetHas(s.m.timer, clk, id);
      case _ =>
    }
  }

  lemma FiredHas(c: Config, s: System, setClk: Clock, eraseClk: Clock)
    requires Inv(c, s) && Enabled(c, s, TimerFires(setClk, eraseClk))
    ensures s.m.timer.cbs != []
    ensures Entry(setClk.now + TIMEOUT, s.m.timer.counter, s.m.timer.cbs[0].cb) in Expire(s.m, setClk, eraseClk).0.timer.cbs
  {
    hide RegisterOk, WritesOk, ReadsOk, ChannelsOk, SlotsOk, AcksOk, RepliesOk, Conforms, GoodConfig;
    FirstTimer(c, s);
    FiredTimers(s.m.timer, setClk, eraseClk, s.m.timer.cbs[0].cb);
    hide AfterSet, AfterErase;
  }

  lemma OneTimerEach(c: Config, s: System, x: Entry<ID>, at: int)
    requires Inv(c, s) && x in s.m.timer.cbs && at <= x.deadline
    ensures DueFrom(s.m.timer.cbs, x.cb, at)
  {
    hide RegisterOk, WritesOk, ReadsOk, ChannelsOk, SlotsOk, AcksOk, RepliesOk, Conforms, GoodConfig;
  }

  // ... which nothing that happens later brings forward.
  lemma StaysDue(c: Config, s: System, step: Step, id: ID, at: int)
    requires Sorted(s.m.timer.cbs) && Possible(c, s, step) && Asserts(c, s, step)
    requires DueFrom(s.m.timer.cbs, id, at) && at <= s.clock + TIMEOUT
    ensures DueFrom(Apply(c, s, step).m.timer.cbs, id, at) && at <= Apply(c, s, step).clock + TIMEOUT
  {
    ClockAfter(c, s, step);
    EnabledClocks(c, s, step);
    TimerAfter(c, s, step);
    assert step.TimerFires? ==> s.clock <= step.setClk.now;
    hide Apply, Possible, Asserts, Sorted, AfterSet, Expire, Receive;
    match step {
      case OsRead(x, _, clk) => SetAddsOne(s.m.timer, clk, x);
      case EncryptionDone(x, clk) => SetAddsOne(s.m.timer, clk, x);
      case TimerFires(setClk, eraseClk) => FiringAddsOne(s.m, setClk, eraseClk);
      case Deliver(rep, clk) => DeliveryTakesOne(c, s, rep, clk);
      case _ =>
    }
  }

  lemma FiringAddsOne(m: MasterState, setClk: Clock, eraseClk: Clock)
    requires Sorted(m.timer.cbs) && m.timer.cbs != []
    ensures forall x :: x in Expire(m, setClk, eraseClk).0.timer.cbs ==> x in m.timer.cbs || x.deadline == setClk.now + TIMEOUT
  {
    var id := m.timer.cbs[0].cb;
    SetAddsOne(m.timer, setClk, id);
    InsertSorted(m.timer.cbs, Entry(setClk.now + TIMEOUT, m.timer.counter, id));
    hide AfterErase;
    EraseTakesOne(Retry(m, id, setClk).0.timer, eraseClk);
  }

  // The request is sent again at no time before.
  ghost predicate NoneBefore(c: Config, s: System, steps: seq<Step>, id: ID, at: int)
    requires Legal(c, s, steps)
    decreases |steps|
  {
    steps == [] ||
    (&& (Resends(s, steps[0], id) ==> at <= steps[0].setClk.now)
     && (Asserts(c, s, steps[0]) ==> NoneBefore(c, Apply(c, s, steps[0]), steps[1..], id, at)))
  }

  lemma {:induction false} NotBefore(c: Config, s: System, steps: seq<Step>, id: ID, at: int)
    requires Inv(c, s) && Legal(c, s, steps) && DueFrom(s.m.timer.cbs, id, at) && at <= s.clock + TIMEOUT
    ensures NoneBefore(c, s, steps, id, at)
    decreases |steps|
  {
    hide Inv, Enabled, Asserts, Apply, DueFrom, Sorted, Resends;
    InvSorted(c, s);
    if steps != [] {
      StepKeeps(c, s, steps[0]);
      FiresDue(c, s, steps[0], id, at);
      StaysDue(c, s, steps[0], id, at);
      NotBefore(c, Apply(c, s, steps[0]), steps[1..], id, at);
    }
  }

  lemma FiresDue(c: Config, s: System, step: Step, id: ID, at: int)
    requires Inv(c, s) && Possible(c, s, step) && DueFrom(s.m.timer.cbs, id, at)
    ensures Resends(s, step, id) ==> at <= step.setClk.now
  {
    hide RegisterOk, WritesOk, ReadsOk, ChannelsOk, SlotsOk, AcksOk, RepliesOk, Conforms, GoodConfig, Sorted;
    if s.m.timer.cbs != [] {
      assert s.m.timer.cbs[0] in s.m.timer.cbs;
    }
  }

  // In any run, no request is sent again within ten seconds of being sent.
  lemma NotTooSoon(c: Config, s: System, step: Step, id: ID, after: seq<Step>)
    requires GoodConfig(c) && Reachable(c, s) && Enabled(c, s, step) && Sends(s, step, id)
    requires Asserts(c, s, step) ==> Legal(c, Apply(c, s, step), after)
    ensures Asserts(c, s, step) && NoneBefore(c, Apply(c, s, step), after, id, SentAt(step) + 10_000_000_000)
  {
    ReachableInv(c, s);
    var s' := Waits(c, s, step, id);
    hide Inv, Enabled, Asserts, Apply, DueFrom, Sends, SentAt;
    NotBefore(c, s', after, id, SentAt(step) + 10_000_000_000);
  }

  lemma Waits(c: Config, s: System, step: Step, id: ID) returns (s': System)
    requires Inv(c, s) && Enabled(c, s, step) && Sends(s, step, id)
    ensures Asserts(c, s, step) && s' == Apply(c, s, step) && Inv(c, s')
    ensures DueFrom(s'.m.timer.cbs, id, SentAt(step) + 10_000_000_000) && SentAt(step) <= s'.clock
  {
    hide Inv, DueFrom;
    var x := TenSeconds(c, s, step, id);
    StepKeeps(c, s, step);
    ClockAfter(c, s, step);
    EnabledClocks(c, s, step);
    s' := Apply(c, s, step);
    hide Enabled, Asserts, Apply;
    OneTimerEach(c, s', x, x.deadline);
  }

  // ------------------------------------------------------------------
  // Handles do not run out soon

  // The calls of Set a run makes.
  function Sets(steps: seq<Step>): nat {
    if steps == [] then 0
    else (if steps[0].OsRead? || steps[0].EncryptionDone? || steps[0].TimerFires? then 1 else 0) + Sets(steps[1..])
  }

  lemma FiringNumbered(m: MasterState, setClk: Clock, eraseClk: Clock, k: nat)
    requires Sorted(m.timer.cbs) && m.timer.cbs != [] && Numbered(m.timer, k)
    requires m.timer.cbs[0].cb in m.readReqs || m.timer.cbs[0].cb in m.writeReqs
    ensures Numbered(Expire(m, setClk, eraseClk).0.timer, k + 1)
  {
    var id := m.timer.cbs[0].cb;
    SetNumbered(m.timer, setClk, TIMEOUT, id, k);
    InsertSorted(m.timer.cbs, Entry(setClk.now + TIMEOUT, m.timer.counter, id));
    hide AfterErase, Numbered;
    EraseNumbered(Retry(m, id, setClk).0.timer, eraseClk, k + 1);
  }

  lemma EraseNumbered(ts: TimerState<ID>, clk: Clock, k: nat)
    requires Sorted(ts.cbs) && ts.cbs != [] && Numbered(ts, k)
    ensures Numbered(AfterErase(ts, 0, clk), k)
  {
    EraseTakesOne(ts, clk);
  }

  lemma DeliveryNumbered(c: Config, s: System, rep: Reply, clk: Clock, k: nat)
    requires Possible(c, s, Deliver(rep, clk)) && Asserts(c, s, Deliver(rep, clk)) && Sorted(s.m.timer.cbs)
    requires Numbered(s.m.timer, k)
    ensures Numbered(Receive(c, s, rep, clk).m.timer, k)
  {
    DeliveryTakesOne(c, s, rep, clk);
    SameCounter(c, s, rep, clk);
    hide Receive;
  }

  lemma SameCounter(c: Config, s: System, rep: Reply, clk: Clock)
    requires Possible(c, s, Deliver(rep, clk)) && Asserts(c, s, Deliver(rep, clk))
    ensures Receive(c, s, rep, clk).m.timer.counter == s.m.timer.counter
  {
    hide AfterCancel;
    match rep
    case ReadReply(i, id, _, _) =>
      if AwaitsRead(s.m, id, i) {
        CancelCounter(s.m.timer, s.m.readReqs[id].handle, clk);
      }
    case WriteReply(i, id, _) =>
      if CompletesWrite(s.m, id, i) {
        CancelCounter(s.m.timer, s.m.writeReqs[id].handle, clk);
      }
  }

  lemma CancelCounter(ts: TimerState<ID>, h: nat, clk: Clock)
    requires Find(ts.cbs, h) < |ts.cbs|
    ensures AfterCancel(ts, h, clk).counter == ts.counter
  {
  }

  lemma StepNumbered(c: Config, s: System, step: Step, k: nat)
    requires Inv(c, s) && Possible(c, s, step) && Asserts(c, s, step) && Numbered(s.m.timer, k)
    ensures Numbered(Apply(c, s, step).m.timer, k + Sets([step]))
  {
    InvSorted(c, s);
    hide Inv, Apply, Sorted, AfterSet, Expire, Receive, Numbered, Sets;
    OneSet(step);
    EnabledClocks(c, s, step);
    TimerAfter(c, s, step);
    if step.TimerFires? {
      FirstKnown(c, s, step);
    }
    hide Possible, Asserts;
    match step {
      case OsRead(id, _, clk) => SetNumbered(s.m.timer, clk, TIMEOUT, id, k);
      case EncryptionDone(id, clk) => SetNumbered(s.m.timer, clk, TIMEOUT, id, k);
      case TimerFires(setClk, eraseClk) => FiringNumbered(s.m, setClk, eraseClk, k);
      case Deliver(rep, clk) => DeliveryNumbered(c, s, rep, clk, k);
      case _ =>
    }
  }

  lemma OneSet(step: Step)
    ensures Sets([step]) == if step.OsRead? || step.EncryptionDone? || step.TimerFires? then 1 else 0
  {
    assert [step][1..] == [];
  }

  lemma FirstKnown(c: Config, s: System, step: Step)
    requires Possible(c, s, step) && Asserts(c, s, step) && step.TimerFires?
    ensures s.m.timer.cbs[0].cb in s.m.readReqs || s.m.timer.cbs[0].cb in s.m.writeReqs
  {
  }

  lemma {:induction false} RunNumbered(c: Config, s: System, steps: seq<Step>, k: nat)
    requires Inv(c, s) && Legal(c, s, steps) && Numbered(s.m.timer, k)
    ensures Run(c, s, steps).Some? && Numbered(Run(c, s, steps).value.m.timer, k + Sets(steps))
    decreases |steps|
  {
    hide Inv, Enabled, Asserts, Apply, Numbered;
    if steps != [] {
      StepKeeps(c, s, steps[0]);
      StepNumbered(c, s, steps[0], k);
      assert Sets([steps[0]]) + Sets(steps[1..]) == Sets(steps) by {
        assert [steps[0]][1..] == [];
      }
      RunNumbered(c, Apply(c, s, steps[0]), steps[1..], k + Sets([steps[0]]));
    }
  }

  lemma InitNumbered(c: Config, s: System)
    requires Init(c, s)
    ensures Numbered(s.m.timer, 0)
  {
  }

  // After fewer than 2^32 calls of Set the next handle is free of itself.
  lemma HandlesFree(c: Config, s0: System, steps: seq<Step>)
    requires GoodConfig(c) && Init(c, s0) && Legal(c, s0, steps) && Sets(steps) < 0x1_0000_0000
    ensures Run(c, s0, steps).Some? && HandleFree(Run(c, s0, steps).value.m.timer)
  {
    hide Inv, Numbered, Init, GoodConfig, Legal, Run, Sets;
    InitInv(c, s0);
    InitNumbered(c, s0);
    RunNumbered(c, s0, steps, 0);
    NextHandleFree(Run(c, s0, steps).value.m.timer, Sets(steps));
  }

  // ------------------------------------------------------------------
  // After a tie it does not, until the first pending request is answered

  // Later timers are due later than the pending ones.
  ghost predicate Bounded(s: System) {
    forall x :: x in s.m.timer.cbs ==> x.deadline <= s.clock + TIMEOUT
  }

  // No entry is left that was not there, but perhaps a new one.
  lemma SetAddsOne(ts: TimerState<ID>, clk: Clock, id: ID)
    requires Sorted(ts.cbs)
    ensures forall x :: x in AfterSet(ts, clk, TIMEOUT, id).cbs ==> x in ts.cbs || x.deadline == clk.now + TIMEOUT
  {
    InsertSorted(ts.cbs, Entry(clk.now + TIMEOUT, ts.counter, id));
  }

  lemma EraseTakesOne(ts: TimerState<ID>, clk: Clock)
    requires Sorted(ts.cbs) && ts.cbs != []
    ensures forall x :: x in AfterErase(ts, 0, clk).cbs ==> x in ts.cbs
  {
    RemoveSorted(ts.cbs, 0);
  }

  lemma CancelTakesOne(ts: TimerState<ID>, h: nat, clk: Clock)
    requires Sorted(ts.cbs) && Find(ts.cbs, h) < |ts.cbs|
    ensures forall x :: x in AfterCancel(ts, h, clk).cbs ==> x in ts.cbs
  {
    RemoveSorted(ts.cbs, Find(ts.cbs, h));
  }

  lemma FiringBounded(m: MasterState, setClk: Clock, eraseClk: Clock, bound: int)
    requires Sorted(m.timer.cbs) && m.timer.cbs != [] && setClk.now <= bound
    requires forall x :: x in m.timer.cbs ==> x.deadline <= bound + TIMEOUT
    ensures forall x :: x in Expire(m, setClk, eraseClk).0.timer.cbs ==> x.deadline <= bound + TIMEOUT
  {
    var id := m.timer.cbs[0].cb;
    SetAddsOne(m.timer, setClk, id);
    InsertSorted(m.timer.cbs, Entry(setClk.now + TIMEOUT, m.timer.counter, id));
    hide AfterErase;
    EraseTakesOne(Retry(m, id, setClk).0.timer, eraseClk);
  }

  lemma DeliveryTakesOne(c: Config, s: System, rep: Reply, clk: Clock)
    requires Possible(c, s, Deliver(rep, clk)) && Asserts(c, s, Deliver(rep, clk)) && Sorted(s.m.timer.cbs)
    ensures forall x :: x in Receive(c, s, rep, clk).m.timer.cbs ==> x in s.m.timer.cbs
  {
    hide AfterCancel;
    match rep
    case ReadReply(i, id, _, _) =>
      if AwaitsRead(s.m, id, i) {
        CancelTakesOne(s.m.timer, s.m.readReqs[id].handle, clk);
      }
    case WriteReply(i, id, _) =>
      if CompletesWrite(s.m, id, i) {
        CancelTakesOne(s.m.timer, s.m.writeReqs[id].handle, clk);
      }
  }

  lemma ClockAfter(c: Config, s: System, step: Step)
    requires Possible(c, s, step) && Asserts(c, s, step)
    ensures s.clock <= Apply(c, s, step).clock
    ensures step.OsRead? || step.EncryptionDone? || step.Deliver? ==>
              s.clock <= step.clk.now && Apply(c, s, step).clock == step.clk.settime
    ensures step.TimerFires? ==> Apply(c, s, step).clock == step.eraseClk.settime
    ensures step.OsRead? || step.EncryptionDone? ==> step.clk.now <= Apply(c, s, step).clock
    ensures step.TimerFires? ==> step.setClk.now <= Apply(c, s, step).clock
  {
    hide AfterSet, Expire, TakeReadReply, TakeWriteReply;
  }

  lemma BoundedKeeps(c: Config, s: System, step: Step)
    requires Sorted(s.m.timer.cbs) && Enabled(c, s, step) && Asserts(c, s, step) && Bounded(s)
    ensures Bounded(Apply(c, s, step))
  {
    ClockAfter(c, s, step);
    EnabledClocks(c, s, step);
    TimerAfter(c, s, step);
    hide Apply, Enabled, Asserts, Sorted, AfterSet, Expire, Receive;
    match step {
      case OsRead(id, _, clk) => SetAddsOne(s.m.timer, clk, id);
      case EncryptionDone(id, clk) => SetAddsOne(s.m.timer, clk, id);
      case TimerFires(setClk, eraseClk) => FiringBounded(s.m, setClk, eraseClk, Apply(c, s, step).clock);
      case Deliver(rep, clk) => DeliveryTakesOne(c, s, rep, clk);
      case _ =>
    }
  }

  // A request set later does not wake a deaf descriptor.
  lemma SetStaysDeaf(ts: TimerState<ID>, clk: Clock, id: ID)
    requires Sorted(ts.cbs) && Deaf(ts) && forall x :: x in ts.cbs ==> x.deadline < clk.now + TIMEOUT
    ensures Deaf(AfterSet(ts, clk, TIMEOUT, id))
  {
    assert ts.cbs[0] in ts.cbs;
    assert |ts.cbs| > 0 && Insert(ts.cbs, Entry(clk.now + TIMEOUT, ts.counter, id)) ==
           [ts.cbs[0]] + Insert(ts.cbs[1..], Entry(clk.now + TIMEOUT, ts.counter, id));
  }

  lemma CancelStaysDeaf(ts: TimerState<ID>, h: nat, clk: Clock)
    requires Deaf(ts) && 0 < Find(ts.cbs, h) < |ts.cbs|
    ensures Deaf(AfterCancel(ts, h, clk))
  {
  }

  lemma NothingFires(c: Config, s: System, step: Step)
    requires Bounded(s) && Deaf(s.m.timer) && Enabled(c, s, step)
    ensures !step.TimerFires?
    ensures step.OsRead? || step.EncryptionDone? ==> forall x :: x in s.m.timer.cbs ==> x.deadline < step.clk.now + TIMEOUT
  {
  }

  // Nor does anything but an answer to the first pending request; and no timer
  // fires meanwhile.
  lemma DeafStays(c: Config, s: System, step: Step)
    requires Inv(c, s) && Bounded(s) && Deaf(s.m.timer) && Enabled(c, s, step)
    ensures Asserts(c, s, step) && !step.TimerFires?
    ensures CancelsFirst(s, step) || Deaf(Apply(c, s, step).m.timer)
  {
    NothingFires(c, s, step);
    InvSorted(c, s);
    hide Inv, Enabled, Bounded, Sorted, AfterSet, Expire, Receive, Apply, Asserts, Deaf;
    StepKeeps(c, s, step);
    TimerAfter(c, s, step);
    match step {
      case OsRead(id, _, clk) => SetStaysDeaf(s.m.timer, clk, id);
      case EncryptionDone(id, clk) => SetStaysDeaf(s.m.timer, clk, id);
      case Deliver(rep, clk) => DeliveryStaysDeaf(c, s, rep, clk);
      case _ =>
    }
  }

  lemma DeliveryStaysDeaf(c: Config, s: System, rep: Reply, clk: Clock)
    requires Possible(c, s, Deliver(rep, clk)) && Asserts(c, s, Deliver(rep, clk)) && Deaf(s.m.timer)
    ensures CancelsFirst(s, Deliver(rep, clk)) || Deaf(Receive(c, s, rep, clk).m.timer)
  {
    hide AfterCancel, Deaf;
    match rep
    case ReadReply(i, id, _, _) =>
      if AwaitsRead(s.m, id, i) && Find(s.m.timer.cbs, s.m.readReqs[id].handle) > 0 {
        CancelStaysDeaf(s.m.timer, s.m.readReqs[id].handle, clk);
      }
    case WriteReply(i, id, _) =>
      if CompletesWrite(s.m, id, i) && Find(s.m.timer.cbs, s.m.writeReqs[id].handle) > 0 {
        CancelStaysDeaf(s.m.timer, s.m.writeReqs[id].handle, clk);
      }
  }

  ghost predicate FirstUnanswered(c: Config, s: System, steps: seq<Step>)
    requires Legal(c, s, steps)
    decreases |steps|
  {
    steps == [] ||
    (!CancelsFirst(s, steps[0]) && (Asserts(c, s, steps[0]) ==> FirstUnanswered(c, Apply(c, s, steps[0]), steps[1..])))
  }

  // So nothing is ever sent again over a whole run in which the first pending
  // request is not answered, whatever new requests come.
  lemma {:induction false} SilentAfterTie(c: Config, s: System, steps: seq<Step>)
    requires Inv(c, s) && Bounded(s) && Deaf(s.m.timer) && Legal(c, s, steps) && FirstUnanswered(c, s, steps)
    ensures forall step :: step in steps ==> !step.TimerFires?
    ensures Run(c, s, steps).Some? && Deaf(Run(c, s, steps).value.m.timer)
    decreases |steps|
  {
    hide Inv, Enabled, Asserts, Apply, Bounded, Deaf, CancelsFirst, Sorted;
    InvSorted(c, s);
    if steps != [] {
      StepKeeps(c, s, steps[0]);
      DeafStays(c, s, steps[0]);
      BoundedKeeps(c, s, steps[0]);
      SilentAfterTie(c, Apply(c, s, steps[0]), steps[1..]);
      assert steps == [steps[0]] + steps[1..];
    }
  }

  lemma InvSorted(c: Config, s: System)
    requires Inv(c, s)
    ensures Sorted(s.m.timer.cbs)
  {
  }

  lemma {:induction false} RunBounded(c: Config, s: System, steps: seq<Step>)
    requires Inv(c, s) && Bounded(s) && Legal(c, s, steps)
    ensures Run(c, s, steps).Some? && Inv(c, Run(c, s, steps).value) && Bounded(Run(c, s, steps).value)
    decreases |steps|
  {
    hide Inv, Enabled, Asserts, Apply, Bounded, Sorted;
    InvSorted(c, s);
    if steps != [] {
      StepKeeps(c, s, steps[0]);
      BoundedKeeps(c, s, steps[0]);
      RunBounded(c, Apply(c, s, steps[0]), steps[1..]);
    }
  }

  // Whole runs: up to the first tie, everything waiting will be sent again, no
  // more than ten seconds and the lag from now, and bring an answer if it gets
  // through ...
  lemma SentAgain(c: Config, s0: System, before: seq<Step>, id: ID, lag: int) returns (steps: seq<Step>)
    requires GoodConfig(c) && Init(c, s0) && Legal(c, s0, before) && TieFree(c, s0, before)
    requires Run(c, s0, before).Some?
    requires var s := Run(c, s0, before).value;
             Waiting(s.m.readReqs, s.m.writeReqs, s.enc, id) && HandleFree(s.m.timer)
    ensures var s := Run(c, s0, before).value;
            && Legal(c, s, steps) && Quiet(steps) && steps != [] && steps[0].TimerFires?
            && Run(c, s, steps).Some? && FirstAcks(c, s, steps) > 0
            && (lag >= 0 && (forall step :: step in before ==> Within(step, lag)) ==>
                  steps[0].setClk.now <= s.clock + 10_000_000_000 + lag)
  {
    InitInv(c, s0);
    assert Bounded(s0) && OnTime(s0.m.timer, s0.clock, lag);
    hide Inv, Bounded, OnTime, Within;
    RunBounded(c, s0, before);
    RunArmed(c, s0, before);
    if forall step :: step in before ==> Within(step, lag) {
      RunOnTime(c, s0, before, lag);
    }
    steps := Retransmission(c, Run(c, s0, before).value, id, lag);
  }

  // ... and from it on nothing is sent again before the first pending request
  // has been answered.
  lemma SilentFrom(c: Config, s0: System, before: seq<Step>, tie: Step, after: seq<Step>)
    requires GoodConfig(c) && Init(c, s0) && Legal(c, s0, before) && TieFree(c, s0, before)
    requires Run(c, s0, before).Some?
    requires var s := Run(c, s0, before).value;
             && Enabled(c, s, tie) && Asserts(c, s, tie) && Tie(s, tie)
             && Legal(c, Apply(c, s, tie), after) && FirstUnanswered(c, Apply(c, s, tie), after)
    ensures forall step :: step in after ==> !step.TimerFires?
  {
    InitInv(c, s0);
    assert Bounded(s0) && Armed(s0.m.timer);
    hide Inv, Bounded, Armed, Enabled, Asserts, Apply, Tie;
    RunBounded(c, s0, before);
    RunArmed(c, s0, before);
    var s := Run(c, s0, before).value;
    StepArmed(c, s, tie);
    StepKeeps(c, s, tie);
    InvSorted(c, s);
    BoundedKeeps(c, s, tie);
    SilentAfterTie(c, Apply(c, s, tie), after);
  }

  // ------------------------------------------------------------------
  // Equal deadlines

  // A step that sets a timer for a request with the deadline of another one's:
  // the first sending of a read or a write, or a retransmission.
  ghost predicate TakesDeadline(s: System, step: Step, x: Entry<ID>) {
    match step
    case OsRead(id, _, clk) => x.deadline == clk.now + TIMEOUT && id != x.cb && id !in s.m.readReqs
    case EncryptionDone(id, clk) => x.deadline == clk.now + TIMEOUT
    case TimerFires(setClk, _) => x.deadline == setClk.now + TIMEOUT
    case _ => false
  }

  // It takes the place of that request's timer. The reply that completes that
  // request then fails the assertion of Cancel.
  lemma EqualDeadlines(c: Config, s: System, x: Entry<ID>, step: Step, rep: Reply, later: Clock)
    requires Inv(c, s) && HandleFree(s.m.timer) && x in s.m.timer.cbs && TakesDeadline(s, step, x)
    requires Possible(c, s, step)
    ensures Asserts(c, s, step)
    ensures var s' := Apply(c, s, step);
            Possible(c, s', Deliver(rep, later)) && rep.id == x.cb
            && (if rep.ReadReply? then AwaitsRead(s'.m, rep.id, rep.minion) else CompletesWrite(s'.m, rep.id, rep.minion))
            ==> !Asserts(c, s', Deliver(rep, later))
  {
    TimerLost(c, s, x, step);
    hide Inv, HasTimer, FindMinion, HandleFree, TakesDeadline;
    var s' := Apply(c, s, step);
    hide Apply, Possible;
    if Possible(c, s', Deliver(rep, later)) && rep.id == x.cb {
      DeliveryFails(c, s', rep, later);
    }
  }

  lemma DeliveryFails(c: Config, s: System, rep: Reply, clk: Clock)
    requires Possible(c, s, Deliver(rep, clk))
    requires rep.id in s.m.readReqs ==> !HasTimer(s.m, s.m.readReqs[rep.id].handle)
    requires rep.id in s.m.writeReqs ==> !HasTimer(s.m, s.m.writeReqs[rep.id].handle)
    ensures (if rep.ReadReply? then AwaitsRead(s.m, rep.id, rep.minion) else CompletesWrite(s.m, rep.id, rep.minion))
            ==> !Asserts(c, s, Deliver(rep, clk))
  {
  }

  // The request is still there, with the handle of a timer that is not.
  ghost predicate Lost(m: MasterState, id: ID) {
    && (id in m.readReqs ==> !HasTimer(m, m.readReqs[id].handle))
    && (id in m.writeReqs ==> !HasTimer(m, m.writeReqs[id].handle))
  }

  lemma TimerLost(c: Config, s: System, x: Entry<ID>, step: Step)
    requires Inv(c, s) && HandleFree(s.m.timer) && x in s.m.timer.cbs && TakesDeadline(s, step, x)
    requires Possible(c, s, step)
    ensures Asserts(c, s, step) && Lost(Apply(c, s, step).m, x.cb)
  {
    OneHandle(c, s, x);
    hide Sorted, AfterSet, AfterErase, Find;
    match step
    case OsRead(id, _, clk) =>
      hide Inv;
      LostToRead(c, s, x, step);
    case EncryptionDone(id, clk) =>
      Encrypted(c, s, id);
      hide Inv;
      LostToWrite(c, s, x, step);
    case TimerFires(setClk, eraseClk) =>
      FirstIsDue(c, s, x, setClk, eraseClk);
      hide Inv;
      LostByFiring(s.m, x, setClk, eraseClk);
      LostInStep(c, s, step, x.cb);
  }

  // What OneHandle says of a pending timer.
  ghost predicate Pending(m: MasterState, x: Entry<ID>) {
    && Sorted(m.timer.cbs) && x in m.timer.cbs && x.handle != m.timer.counter
    && (forall y :: y in m.timer.cbs && y.handle == x.handle ==> y == x)
    && (x.cb in m.readReqs ==> m.readReqs[x.cb].handle == x.handle)
    && (x.cb in m.writeReqs ==> m.writeReqs[x.cb].handle == x.handle)
  }

  lemma LostToRead(c: Config, s: System, x: Entry<ID>, step: Step)
    requires Pending(s.m, x) && step.OsRead? && Possible(c, s, step) && TakesDeadline(s, step, x)
    ensures Asserts(c, s, step) && Lost(Apply(c, s, step).m, x.cb)
  {
    SameDeadlineLost(s.m.timer, x, step.clk, TIMEOUT, step.id);
    hide AfterSet, Find, Sorted, Send, Update;
  }

  lemma LostToWrite(c: Config, s: System, x: Entry<ID>, step: Step)
    requires Pending(s.m, x) && step.EncryptionDone? && Possible(c, s, step) && TakesDeadline(s, step, x)
    requires step.id in s.m.writeReqs && step.id != x.cb
    ensures Asserts(c, s, step) && Lost(Apply(c, s, step).m, x.cb)
  {
    SameDeadlineLost(s.m.timer, x, step.clk, TIMEOUT, step.id);
    hide AfterSet, Find, Sorted, Send, Update;
  }

  lemma LostInStep(c: Config, s: System, step: Step, id: ID)
    requires step.TimerFires? && Possible(c, s, step) && Asserts(c, s, step)
    requires Lost(Expire(s.m, step.setClk, step.eraseClk).0, id)
    ensures Lost(Apply(c, s, step).m, id)
  {
    FiringSends(c, s, step.setClk, step.eraseClk);
  }

  // A write just encrypted has no timer yet.
  lemma Encrypted(c: Config, s: System, id: ID)
    requires Inv(c, s) && id in s.enc
    ensures id in s.m.writeReqs && forall x :: x in s.m.timer.cbs ==> x.cb != id
  {
    ReadsAndWrites(c, s, id);
    hide RegisterOk, ReadsOk, ChannelsOk, SlotsOk, AcksOk, RepliesOk, Conforms, GoodConfig;
  }

  lemma FirstIsDue(c: Config, s: System, x: Entry<ID>, setClk: Clock, eraseClk: Clock)
    requires Inv(c, s) && x in s.m.timer.cbs && x.deadline == setClk.now + TIMEOUT
    requires Possible(c, s, TimerFires(setClk, eraseClk))
    ensures Asserts(c, s, TimerFires(setClk, eraseClk)) && x.cb != s.m.timer.cbs[0].cb
    ensures s.m.timer.cbs[0].cb in s.m.readReqs || s.m.timer.cbs[0].cb in s.m.writeReqs
  {
    hide RegisterOk, WritesOk, ReadsOk, ChannelsOk, SlotsOk, AcksOk, RepliesOk, Conforms, GoodConfig;
    FirstTimer(c, s);
    assert s.m.timer.cbs[0] in s.m.timer.cbs;
  }

  lemma LostByFiring(m: MasterState, x: Entry<ID>, setClk: Clock, eraseClk: Clock)
    requires Pending(m, x) && x.deadline == setClk.now + TIMEOUT && m.timer.cbs[0].cb != x.cb
    requires m.timer.cbs[0].cb in m.readReqs || m.timer.cbs[0].cb in m.writeReqs
    ensures Lost(Expire(m, setClk, eraseClk).0, x.cb)
  {
    var id := m.timer.cbs[0].cb;
    SameDeadlineLost(m.timer, x, setClk, TIMEOUT, id);
    EraseFinds(AfterSet(m.timer, setClk, TIMEOUT, id), x.handle, eraseClk);
    hide AfterSet, AfterErase, Find, Sorted;
  }

  lemma EraseFinds(ts: TimerState<ID>, h: nat, clk: Clock)
    requires ts.cbs != [] && Find(ts.cbs, h) == |ts.cbs|
    ensures Find(AfterErase(ts, 0, clk).cbs, h) == |AfterErase(ts, 0, clk).cbs|
  {
    assert Remove(ts.cbs, 0) == ts.cbs[1..];
  }

  lemma OneHandle(c: Config, s: System, x: Entry<ID>)
    requires Inv(c, s) && HandleFree(s.m.timer) && x in s.m.timer.cbs
    ensures Pending(s.m, x)
  {
    ReadsAndWrites(c, s, x.cb);
    hide RegisterOk, WritesOk, ReadsOk, ChannelsOk, SlotsOk, AcksOk, RepliesOk, Conforms, GoodConfig;
  }
}
