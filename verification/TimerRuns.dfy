// Whole runs of the timer: calls from outside, expiries of the descriptor, and
// calls made by the callbacks an expiry runs (framework/timer/timer.cpp).
module TimerRuns {
  import opened Timers

  // One callback invocation: of the n-th timer set, its deadline, and when it
  // was run.
  datatype Fired = Fired(n: nat, deadline: int, at: int)

  // Timers are told apart by the number of the call of Set that made them:
  // handles come round again.
  datatype World<T> = World(
    ts: TimerState<T>,
    clock: int,              // the last clock reading
    born: seq<int>,          // the deadline given to each timer
    number: map<nat, nat>,   // which timer a handle was last given to
    cancelled: set<nat>,
    fired: seq<Fired>)       // callback invocations in order

  datatype Event<T> =
    | Call(op: Op<T>)
    | Expiry(at: int, calls: seq<Op<T>>, clk: Clock)

  ghost function Start<T(!new)>(): (w: World<T>)
    ensures Inv(w)
  {
    World(TimerState([], 0, false, None), 0, [], map[], {}, [])
  }

  ghost function NumberOf<T>(w: World<T>, h: nat): nat {
    if h in w.number then w.number[h] else 0
  }

  // A call by a caller who keeps the rules: the clock does not go back,
  // durations are positive, no two pending deadlines coincide, the next handle
  // is not that of a pending timer, and only pending timers are cancelled.
  ghost predicate CallOk<T(!new)>(w: World<T>, op: Op<T>) {
    match op
    case SetOp(clk, d, _) =>
      && clk.Valid() && w.clock <= clk.now && d > 0
      && (forall x :: x in w.ts.cbs ==> x.deadline != clk.now + d && x.handle != w.ts.counter)
    case CancelOp(h, clk) =>
      clk.Valid() && w.clock <= clk.now && Find(w.ts.cbs, h) < |w.ts.cbs|
  }

  ghost function DoCall<T(!new)>(w: World<T>, op: Op<T>): World<T>
    requires CallOk(w, op)
  {
    match op
    case SetOp(clk, d, cb) =>
      w.(ts := AfterSet(w.ts, clk, d, cb), clock := clk.settime,
         born := w.born + [clk.now + d], number := w.number[w.ts.counter := |w.born|])
    case CancelOp(h, clk) =>
      w.(ts := AfterCancel(w.ts, h, clk), clock := clk.settime, cancelled := w.cancelled + {NumberOf(w, h)})
  }

  // The calls a callback makes; it leaves alone the timer that fires it.
  ghost predicate CallsOk<T(!new)>(w: World<T>, ops: seq<Op<T>>)
    decreases |ops|
  {
    ops == [] ||
    (&& CallOk(w, ops[0])
     && w.ts.cbs != [] && (ops[0].CancelOp? ==> ops[0].handle != w.ts.cbs[0].handle)
     && CallsOk(DoCall(w, ops[0]), ops[1..]))
  }

  ghost function DoCalls<T(!new)>(w: World<T>, ops: seq<Op<T>>): World<T>
    requires CallsOk(w, ops)
    decreases |ops|
  {
    if ops == [] then w else DoCalls(DoCall(w, ops[0]), ops[1..])
  }

  // The reactor runs CallBackWrapper only once the armed time has passed.
  ghost predicate Enabled<T(!new)>(w: World<T>, ev: Event<T>) {
    match ev
    case Call(op) => CallOk(w, op)
    case Expiry(at, calls, clk) =>
      && w.ts.armed.Some? && w.ts.armed.value <= at && w.clock <= at
      && CallsOk(w.(clock := at), calls)
      && DoCalls(w.(clock := at), calls).clock <= clk.now && clk.Valid()
  }

  ghost function Next<T(!new)>(w: World<T>, ev: Event<T>): World<T>
    requires Inv(w) && Enabled(w, ev)
  {
    match ev
    case Call(op) => DoCall(w, op)
    case Expiry(at, calls, clk) =>
      CallsAreTimerCalls(w.(clock := at), calls);
      var e := w.ts.cbs[0];
      DoCalls(w.(clock := at), calls).(
        ts := AfterFire(w.ts, calls, clk), clock := clk.settime,
        fired := w.fired + [Fired(NumberOf(w, e.handle), e.deadline, at)])
  }

  ghost predicate IsPending<T(!new)>(w: World<T>, n: nat) {
    exists x :: x in w.ts.cbs && NumberOf(w, x.handle) == n
  }

  ghost predicate HasFired(fired: seq<Fired>, n: nat) {
    exists i :: 0 <= i < |fired| && fired[i].n == n
  }

  ghost predicate Inv<T(!new)>(w: World<T>) {
    Sorted(w.ts.cbs) && NeverEarly(w.ts) && Accounted(w) && PendingInv(w) && FiredInv(w)
  }

  // Every timer set is pending, cancelled or fired.
  ghost predicate Accounted<T(!new)>(w: World<T>) {
    forall n: nat :: n < |w.born| ==> IsPending(w, n) || n in w.cancelled || HasFired(w.fired, n)
  }

  // A pending timer was neither cancelled nor fired, and is later than
  // everything that has fired.
  ghost predicate PendingInv<T(!new)>(w: World<T>) {
    && (forall x :: x in w.ts.cbs ==>
          && NumberOf(w, x.handle) < |w.born| && w.born[NumberOf(w, x.handle)] == x.deadline
          && NumberOf(w, x.handle) !in w.cancelled && !HasFired(w.fired, NumberOf(w, x.handle)))
    && (forall x, y :: x in w.ts.cbs && y in w.ts.cbs && x.handle == y.handle ==> x == y)
    && (forall x, y :: x in w.ts.cbs && y in w.ts.cbs && NumberOf(w, x.handle) == NumberOf(w, y.handle) ==> x == y)
    && (forall i, x :: 0 <= i < |w.fired| && x in w.ts.cbs ==> w.fired[i].deadline < x.deadline)
  }

  // Firing is never early, in deadline order, and never of a cancelled timer.
  ghost predicate FiredInv<T(!new)>(w: World<T>) {
    && (forall i :: 0 <= i < |w.fired| ==>
          && w.fired[i].n < |w.born| && w.born[w.fired[i].n] == w.fired[i].deadline
          && w.fired[i].deadline <= w.fired[i].at <= w.clock)
    && (forall i, j :: 0 <= i < j < |w.fired| ==> w.fired[i].deadline < w.fired[j].deadline)
    && (forall n :: n in w.cancelled ==> n < |w.born| && !HasFired(w.fired, n))
  }

  // Carries pendingness across a change of the map.
  lemma StillPending<T(!new)>(w: World<T>, w': World<T>, n: nat)
    requires IsPending(w, n)
    requires forall x :: x in w.ts.cbs && NumberOf(w, x.handle) == n ==> x in w'.ts.cbs && NumberOf(w', x.handle) == n
    ensures IsPending(w', n)
  {
    var x :| x in w.ts.cbs && NumberOf(w, x.handle) == n;
    assert x in w'.ts.cbs;
  }

  lemma SetKeepsInv<T(!new)>(w: World<T>, clk: Clock, d: int, cb: T)
    requires Inv(w) && CallOk(w, SetOp(clk, d, cb))
    ensures Inv(DoCall(w, SetOp(clk, d, cb)))
  {
    var w' := DoCall(w, SetOp(clk, d, cb));
    hide Accounted, PendingInv, FiredInv, Sorted, NeverEarly, AfterSet, Find;
    var e := Entry(clk.now + d, w.ts.counter, cb);
    SetInserts(w.ts, clk, d, cb);
    SetNeverEarly(w.ts, clk, d, cb);
    SetAccounted(w, w', e);
    SetPending(w, w', e);
  }

  lemma SetInserts<T(!new)>(ts: TimerState<T>, clk: Clock, d: int, cb: T)
    requires Sorted(ts.cbs) && forall x :: x in ts.cbs ==> x.deadline != clk.now + d
    ensures var r := AfterSet(ts, clk, d, cb);
            Sorted(r.cbs) && forall x :: x in r.cbs <==> x == Entry(clk.now + d, ts.counter, cb) || x in ts.cbs
  {
    InsertSorted(ts.cbs, Entry(clk.now + d, ts.counter, cb));
    hide Sorted, Insert;
  }

  // A timer is added to the pending ones under a handle none of them has.
  ghost predicate Added<T(!new)>(w: World<T>, w': World<T>, e: Entry<T>) {
    && (forall x :: x in w'.ts.cbs <==> x == e || x in w.ts.cbs)
    && (forall x :: x in w.ts.cbs ==> x.handle != e.handle)
    && w'.born == w.born + [e.deadline] && w'.number == w.number[e.handle := |w.born|]
    && w'.fired == w.fired && w'.cancelled == w.cancelled
  }

  lemma SetAccounted<T(!new)>(w: World<T>, w': World<T>, e: Entry<T>)
    requires Accounted(w) && Added(w, w', e)
    ensures Accounted(w')
  {
    forall n: nat | n < |w'.born| ensures IsPending(w', n) || n in w'.cancelled || HasFired(w'.fired, n) {
      if n == |w.born| {
        assert e in w'.ts.cbs && NumberOf(w', e.handle) == n;
      } else if IsPending(w, n) {
        StillPending(w, w', n);
      }
    }
  }

  // The new timer is later than what has fired.
  lemma SetPending<T(!new)>(w: World<T>, w': World<T>, e: Entry<T>)
    requires PendingInv(w) && FiredInv(w) && Added(w, w', e)
    requires w.clock < e.deadline && w.clock <= w'.clock
    ensures PendingInv(w') && FiredInv(w')
  {
    assert !HasFired(w.fired, |w.born|);
    assert forall x :: x in w.ts.cbs ==> NumberOf(w', x.handle) == NumberOf(w, x.handle);
    assert NumberOf(w', e.handle) == |w.born|;
    hide HasFired;
  }

  lemma CancelKeepsInv<T(!new)>(w: World<T>, h: nat, clk: Clock)
    requires Inv(w) && CallOk(w, CancelOp(h, clk))
    ensures Inv(DoCall(w, CancelOp(h, clk)))
  {
    var w' := DoCall(w, CancelOp(h, clk));
    var k := Find(w.ts.cbs, h);
    CancelRemoves(w.ts, h, clk);
    hide Accounted, PendingInv, FiredInv, Sorted, NeverEarly, AfterCancel;
    RemoveSorted(w.ts.cbs, k);
    CancelNeverEarly(w.ts, h, clk);
    var e := w.ts.cbs[k];
    assert e in w.ts.cbs;
    assert forall x :: x in w'.ts.cbs <==> x in w.ts.cbs && x != e;
    CancelAccounted(w, w', e);
    CancelPending(w, w', e);
  }

  lemma CancelRemoves<T(!new)>(ts: TimerState<T>, h: nat, clk: Clock)
    requires Find(ts.cbs, h) < |ts.cbs|
    ensures AfterCancel(ts, h, clk).cbs == Remove(ts.cbs, Find(ts.cbs, h))
  {
  }

  ghost predicate Taken<T(!new)>(w: World<T>, w': World<T>, e: Entry<T>) {
    && e in w.ts.cbs && (forall x :: x in w'.ts.cbs <==> x in w.ts.cbs && x != e)
    && w'.born == w.born && w'.number == w.number
  }

  lemma CancelAccounted<T(!new)>(w: World<T>, w': World<T>, e: Entry<T>)
    requires Accounted(w) && Taken(w, w', e)
    requires w'.fired == w.fired && w'.cancelled == w.cancelled + {NumberOf(w, e.handle)}
    ensures Accounted(w')
  {
    forall n: nat | n < |w'.born| ensures IsPending(w', n) || n in w'.cancelled || HasFired(w'.fired, n) {
      if n != NumberOf(w, e.handle) && IsPending(w, n) {
        StillPending(w, w', n);
      }
    }
  }

  lemma CancelPending<T(!new)>(w: World<T>, w': World<T>, e: Entry<T>)
    requires PendingInv(w) && FiredInv(w) && Taken(w, w', e)
    requires w'.fired == w.fired && w'.cancelled == w.cancelled + {NumberOf(w, e.handle)} && w.clock <= w'.clock
    ensures PendingInv(w') && FiredInv(w')
  {
    assert forall x :: x in w.ts.cbs ==> NumberOf(w', x.handle) == NumberOf(w, x.handle);
    hide HasFired, NumberOf;
  }

  lemma CallKeepsInv<T(!new)>(w: World<T>, op: Op<T>)
    requires Inv(w) && CallOk(w, op)
    ensures Inv(DoCall(w, op))
  {
    match op
    case SetOp(clk, d, cb) => SetKeepsInv(w, clk, d, cb);
    case CancelOp(h, clk) => CancelKeepsInv(w, h, clk);
  }

  lemma {:induction false} CallsKeepInv<T(!new)>(w: World<T>, ops: seq<Op<T>>)
    requires Inv(w) && CallsOk(w, ops)
    ensures Inv(DoCalls(w, ops))
    ensures DoCalls(w, ops).fired == w.fired && DoCalls(w, ops).clock >= w.clock
    decreases |ops|
  {
    if ops != [] {
      CallKeepsInv(w, ops[0]);
      CallsKeepInv(DoCall(w, ops[0]), ops[1..]);
    }
  }

  // The calls made under the clock of the run are calls the timer admits
  // inside a callback, and leave it in the state it says.
  lemma {:induction false} CallsAreTimerCalls<T(!new)>(w: World<T>, ops: seq<Op<T>>)
    requires Sorted(w.ts.cbs) && CallsOk(w, ops)
    requires w.ts.cbs != [] ==> w.ts.cbs[0].deadline <= w.clock
    ensures Callable(w.ts, ops) && DoCalls(w, ops).ts == AfterCalls(w.ts, ops)
    decreases |ops|
  {
    if ops != [] {
      match ops[0] {
        case SetOp(clk, d, cb) => InsertSorted(w.ts.cbs, Entry(clk.now + d, w.ts.counter, cb));
        case CancelOp(h, clk) => RemoveSorted(w.ts.cbs, Find(w.ts.cbs, h));
      }
      CallsAreTimerCalls(DoCall(w, ops[0]), ops[1..]);
    }
  }

  // Moving the first element from the pending to the fired timers.
  lemma FireFirst<T(!new)>(w: World<T>, w': World<T>, at: int)
    requires Inv(w) && w.ts.cbs != [] && w.ts.cbs[0].deadline <= at <= w.clock <= w'.clock
    requires w'.ts.cbs == w.ts.cbs[1..] && w'.born == w.born && w'.number == w.number && w'.cancelled == w.cancelled
    requires var e := w.ts.cbs[0]; w'.fired == w.fired + [Fired(NumberOf(w, e.handle), e.deadline, at)]
    ensures Accounted(w') && PendingInv(w') && FiredInv(w')
  {
    hide Accounted, PendingInv, FiredInv, Sorted;
    var e := w.ts.cbs[0];
    SortedTail(w.ts.cbs);
    FiredAccounted(w, w', e, at);
    FiredPending(w, w', e, at);
  }

  lemma FiredAccounted<T(!new)>(w: World<T>, w': World<T>, e: Entry<T>, at: int)
    requires Accounted(w) && Taken(w, w', e) && w'.cancelled == w.cancelled
    requires w'.fired == w.fired + [Fired(NumberOf(w, e.handle), e.deadline, at)]
    ensures Accounted(w')
  {
    forall n: nat | n < |w'.born| ensures IsPending(w', n) || n in w'.cancelled || HasFired(w'.fired, n) {
      FiredMore(w.fired, w'.fired[|w.fired|], n);
      if n != NumberOf(w, e.handle) && IsPending(w, n) {
        StillPending(w, w', n);
      }
    }
  }

  lemma FiredPending<T(!new)>(w: World<T>, w': World<T>, e: Entry<T>, at: int)
    requires PendingInv(w) && FiredInv(w) && Taken(w, w', e) && w'.cancelled == w.cancelled
    requires e.deadline <= at <= w.clock <= w'.clock
    requires forall x :: x in w'.ts.cbs ==> e.deadline < x.deadline
    requires w'.fired == w.fired + [Fired(NumberOf(w, e.handle), e.deadline, at)]
    ensures PendingInv(w') && FiredInv(w')
  {
    forall n ensures HasFired(w'.fired, n) <==> n == NumberOf(w, e.handle) || HasFired(w.fired, n) {
      FiredMore(w.fired, w'.fired[|w.fired|], n);
    }
    assert forall x :: x in w.ts.cbs ==> NumberOf(w', x.handle) == NumberOf(w, x.handle);
    hide HasFired, NumberOf;
  }

  lemma FiredMore(fired: seq<Fired>, f: Fired, n: nat)
    ensures HasFired(fired + [f], n) <==> n == f.n || HasFired(fired, n)
  {
    var more := fired + [f];
    if HasFired(fired, n) {
      var i :| 0 <= i < |fired| && fired[i].n == n;
      assert more[i].n == n;
    }
    if n == f.n {
      assert more[|fired|].n == n;
    }
  }

  lemma TimePasses<T(!new)>(w: World<T>, at: int)
    requires Inv(w) && w.clock <= at
    ensures Inv(w.(clock := at))
  {
    var w' := w.(clock := at);
    assert forall h :: NumberOf(w', h) == NumberOf(w, h);
    hide NumberOf, Sorted, NeverEarly;
    StaysAccounted(w, w');
    hide Accounted, HasFired;
  }

  lemma StaysAccounted<T(!new)>(w: World<T>, w': World<T>)
    requires Accounted(w) && w'.ts == w.ts && w'.born == w.born && w'.cancelled == w.cancelled && w'.fired == w.fired
    requires forall h :: NumberOf(w', h) == NumberOf(w, h)
    ensures Accounted(w')
  {
    forall n: nat | n < |w'.born| ensures IsPending(w', n) || n in w'.cancelled || HasFired(w'.fired, n) {
      if IsPending(w, n) {
        StillPending(w, w', n);
      }
    }
  }

  lemma FirstStays<T(!new)>(w: World<T>, op: Op<T>)
    requires Sorted(w.ts.cbs) && CallOk(w, op) && w.ts.cbs != [] && w.ts.cbs[0].deadline <= w.clock
    requires op.CancelOp? ==> op.handle != w.ts.cbs[0].handle
    ensures var w' := DoCall(w, op);
            && w'.ts.cbs != [] && w'.ts.cbs[0] == w.ts.cbs[0] && w.clock <= w'.clock
            && NumberOf(w', w.ts.cbs[0].handle) == NumberOf(w, w.ts.cbs[0].handle)
  {
    assert w.ts.cbs[0] in w.ts.cbs;
    hide Sorted;
    if op.CancelOp? {
      CancelRemoves(w.ts, op.handle, op.cancelClk);
    }
  }

  // The timer being fired keeps its number while its callback sets others.
  lemma {:induction false} CallsKeepNumber<T(!new)>(w: World<T>, ops: seq<Op<T>>)
    requires Inv(w) && CallsOk(w, ops) && w.ts.cbs != [] && w.ts.cbs[0].deadline <= w.clock
    ensures NumberOf(DoCalls(w, ops), w.ts.cbs[0].handle) == NumberOf(w, w.ts.cbs[0].handle)
    decreases |ops|
  {
    hide Accounted, PendingInv, FiredInv;
    if ops != [] {
      CallKeepsInv(w, ops[0]);
      FirstStays(w, ops[0]);
      hide Inv, DoCall, CallOk;
      CallsKeepNumber(DoCall(w, ops[0]), ops[1..]);
    }
  }

  lemma ExpiryKeepsInv<T(!new)>(w: World<T>, at: int, calls: seq<Op<T>>, clk: Clock)
    requires Inv(w) && Enabled(w, Expiry(at, calls, clk))
    ensures Inv(Next(w, Expiry(at, calls, clk)))
  {
    hide Accounted, PendingInv, FiredInv;
    var w0 := w.(clock := at);
    TimePasses(w, at);
    CallsAreTimerCalls(w0, calls);
    CallsKeepInv(w0, calls);
    CallsKeepNumber(w0, calls);
    FiringStaysFirst(w.ts, calls);
    var w1 := DoCalls(w0, calls);
    EraseNeverEarly(w1.ts, 0, clk);
    RemoveSorted(w1.ts.cbs, 0);
    var w2 := Next(w, Expiry(at, calls, clk));
    assert w2.ts.cbs == w1.ts.cbs[1..];
    FireFirst(w1, w2, at);
  }

  // ------------------------------------------------------------------
  // Runs

  ghost predicate Legal<T(!new)>(w: World<T>, evs: seq<Event<T>>)
    requires Inv(w)
    decreases |evs|
  {
    evs == [] ||
    (Enabled(w, evs[0]) && (StepKeepsInv(w, evs[0]); Legal(Next(w, evs[0]), evs[1..])))
  }

  ghost function Play<T(!new)>(w: World<T>, evs: seq<Event<T>>): (r: World<T>)
    requires Inv(w) && Legal(w, evs)
    ensures Inv(r)
    decreases |evs|
  {
    if evs == [] then w
    else StepKeepsInv(w, evs[0]); Play(Next(w, evs[0]), evs[1..])
  }

  lemma StepKeepsInv<T(!new)>(w: World<T>, ev: Event<T>)
    requires Inv(w) && Enabled(w, ev)
    ensures Inv(Next(w, ev))
  {
    match ev
    case Call(op) => CallKeepsInv(w, op);
    case Expiry(at, calls, clk) => ExpiryKeepsInv(w, at, calls, clk);
  }

  // Over any run from a new timer, every timer ever set is still pending, or
  // was cancelled and never fired, or was fired exactly once; no callback ran
  // before its deadline, and callbacks ran in deadline order.
  lemma EveryTimerOnce<T(!new)>(evs: seq<Event<T>>)
    requires Legal(Start<T>(), evs)
    ensures var w := Play(Start<T>(), evs);
            && (forall n: nat :: n < |w.born| ==>
                  || (IsPending(w, n) && n !in w.cancelled && !HasFired(w.fired, n))
                  || (!IsPending(w, n) && n in w.cancelled && !HasFired(w.fired, n))
                  || (!IsPending(w, n) && n !in w.cancelled && HasFired(w.fired, n)))
            && (forall i, j :: 0 <= i < j < |w.fired| ==>
                  w.fired[i].n != w.fired[j].n && w.fired[i].deadline < w.fired[j].deadline)
            && (forall i :: 0 <= i < |w.fired| ==>
                  w.fired[i].n < |w.born| && w.born[w.fired[i].n] == w.fired[i].deadline <= w.fired[i].at)
  {
    var w := Play(Start<T>(), evs);
    assert Inv(w);
  }

  // ------------------------------------------------------------------
  // In time

  // No more than lag passes between reading the clock and setting the
  // descriptor.
  ghost predicate CallWithin<T>(op: Op<T>, lag: int) {
    match op
    case SetOp(clk, _, _) => clk.settime - clk.now <= lag
    case CancelOp(_, clk) => clk.settime - clk.now <= lag
  }

  ghost predicate Within<T(!new)>(ev: Event<T>, lag: int) {
    match ev
    case Call(op) => CallWithin(op, lag)
    case Expiry(_, calls, clk) => clk.settime - clk.now <= lag && forall i :: 0 <= i < |calls| ==> CallWithin(calls[i], lag)
  }

  lemma CallOnTime<T(!new)>(w: World<T>, op: Op<T>, lag: int)
    requires Sorted(w.ts.cbs) && CallOk(w, op) && CallWithin(op, lag) && OnTime(w.ts, w.clock, lag)
    ensures OnTime(DoCall(w, op).ts, DoCall(w, op).clock, lag)
  {
    match op
    case SetOp(clk, d, cb) => SetOnTime(w.ts, clk, d, cb, w.clock, lag);
    case CancelOp(h, clk) => CancelOnTime(w.ts, h, clk, w.clock, lag);
  }

  lemma StepOnTime<T(!new)>(w: World<T>, ev: Event<T>, lag: int)
    requires Inv(w) && Enabled(w, ev) && Within(ev, lag) && OnTime(w.ts, w.clock, lag)
    ensures OnTime(Next(w, ev).ts, Next(w, ev).clock, lag)
  {
    hide Accounted, PendingInv, FiredInv;
    match ev
    case Call(op) => CallOnTime(w, op, lag);
    case Expiry(at, calls, clk) =>
      CallsAreTimerCalls(w.(clock := at), calls);
      FiringStaysFirst(w.ts, calls);
      EraseOnTime(AfterCalls(w.ts, calls), clk);
  }

  // Over any run the descriptor is never armed for later than the earliest
  // deadline, up to that lag, or the nanosecond after the last step.
  lemma {:induction false} RunOnTime<T(!new)>(w: World<T>, evs: seq<Event<T>>, lag: int)
    requires Inv(w) && Legal(w, evs) && OnTime(w.ts, w.clock, lag)
    requires forall i :: 0 <= i < |evs| ==> Within(evs[i], lag)
    ensures OnTime(Play(w, evs).ts, Play(w, evs).clock, lag)
    decreases |evs|
  {
    hide Inv, OnTime, Within;
    if evs != [] {
      StepKeepsInv(w, evs[0]);
      StepOnTime(w, evs[0], lag);
      RunOnTime(Next(w, evs[0]), evs[1..], lag);
    }
  }

  // Up to 2^32 timers, the next handle is not in use of itself.
  lemma CallNumbered<T(!new)>(w: World<T>, op: Op<T>)
    requires Sorted(w.ts.cbs) && CallOk(w, op) && Numbered(w.ts, |w.born|)
    ensures Numbered(DoCall(w, op).ts, |DoCall(w, op).born|)
  {
    match op
    case SetOp(clk, d, cb) => SetNumbered(w.ts, clk, d, cb, |w.born|);
    case CancelOp(h, clk) =>
      CancelRemoves(w.ts, h, clk);
      RemoveSorted(w.ts.cbs, Find(w.ts.cbs, h));
  }

  lemma {:induction false} CallsNumbered<T(!new)>(w: World<T>, ops: seq<Op<T>>)
    requires Inv(w) && CallsOk(w, ops) && Numbered(w.ts, |w.born|)
    ensures Numbered(DoCalls(w, ops).ts, |DoCalls(w, ops).born|)
    decreases |ops|
  {
    hide Accounted, PendingInv, FiredInv, Numbered;
    if ops != [] {
      CallKeepsInv(w, ops[0]);
      CallNumbered(w, ops[0]);
      CallsNumbered(DoCall(w, ops[0]), ops[1..]);
    }
  }

  lemma StepNumbered<T(!new)>(w: World<T>, ev: Event<T>)
    requires Inv(w) && Enabled(w, ev) && Numbered(w.ts, |w.born|)
    ensures Numbered(Next(w, ev).ts, |Next(w, ev).born|)
  {
    hide Accounted, PendingInv, FiredInv;
    match ev
    case Call(op) => CallNumbered(w, op);
    case Expiry(at, calls, clk) =>
      var w0 := w.(clock := at);
      TimePasses(w, at);
      CallsAreTimerCalls(w0, calls);
      CallsNumbered(w0, calls);
      FiringStaysFirst(w.ts, calls);
      RemoveSorted(DoCalls(w0, calls).ts.cbs, 0);
  }

  lemma {:induction false} RunNumbered<T(!new)>(w: World<T>, evs: seq<Event<T>>)
    requires Inv(w) && Legal(w, evs) && Numbered(w.ts, |w.born|)
    ensures Numbered(Play(w, evs).ts, |Play(w, evs).born|)
    decreases |evs|
  {
    hide Inv, Numbered;
    if evs != [] {
      StepKeepsInv(w, evs[0]);
      StepNumbered(w, evs[0]);
      RunNumbered(Next(w, evs[0]), evs[1..]);
    }
  }

  lemma HandlesFree<T(!new)>(evs: seq<Event<T>>)
    requires Legal(Start<T>(), evs)
    ensures var w := Play(Start<T>(), evs);
            |w.born| < 0x1_0000_0000 ==> forall x :: x in w.ts.cbs ==> x.handle != w.ts.counter
  {
    RunNumbered(Start<T>(), evs);
    var w := Play(Start<T>(), evs);
    if |w.born| < 0x1_0000_0000 {
      NextHandleFree(w.ts, |w.born|);
    }
  }

  // ------------------------------------------------------------------
  // Ties

  // An expiry at which the next pending deadline is the very instant read
  // from the clock, or a cancellation of the earliest timer at such an instant.
  ghost predicate Tie<T(!new)>(w: World<T>, ev: Event<T>)
    requires Inv(w) && Enabled(w, ev)
  {
    match ev
    case Call(SetOp(_, _, _)) => false
    case Call(CancelOp(h, clk)) => Find(w.ts.cbs, h) == 0 && DueNow(w.ts, 0, clk)
    case Expiry(at, calls, clk) => DueNow(DoCalls(w.(clock := at), calls).ts, 0, clk)
  }

  lemma {:induction false} CallsKeepRegistered<T(!new)>(w: World<T>, ops: seq<Op<T>>)
    requires Inv(w) && CallsOk(w, ops) && w.ts.registered && w.ts.cbs != []
    requires w.ts.cbs[0].deadline <= w.clock
    ensures DoCalls(w, ops).ts.registered
    decreases |ops|
  {
    hide Accounted, PendingInv, FiredInv;
    if ops != [] {
      CallKeepsInv(w, ops[0]);
      match ops[0] {
        case SetOp(clk, d, cb) => InsertSorted(w.ts.cbs, Entry(clk.now + d, w.ts.counter, cb));
        case CancelOp(h, clk) => RemoveSorted(w.ts.cbs, Find(w.ts.cbs, h));
      }
      CallsKeepRegistered(DoCall(w, ops[0]), ops[1..]);
    }
  }

  // The descriptor stays registered and armed exactly while timers are
  // pending, through every step but a tie; a tie is exactly what breaks it.
  lemma StepArmed<T(!new)>(w: World<T>, ev: Event<T>)
    requires Inv(w) && Armed(w.ts) && Enabled(w, ev)
    ensures Armed(Next(w, ev).ts) <==> !Tie(w, ev)
  {
    hide Accounted, PendingInv, FiredInv;
    match ev
    case Call(SetOp(clk, d, cb)) => SetArmed(w.ts, clk, d, cb);
    case Call(CancelOp(h, clk)) => CancelArmed(w.ts, h, clk);
    case Expiry(at, calls, clk) =>
      var w0 := w.(clock := at);
      TimePasses(w, at);
      CallsAreTimerCalls(w0, calls);
      FiringStaysFirst(w.ts, calls);
      CallsKeepRegistered(w0, calls);
      EraseArmed(DoCalls(w0, calls).ts, 0, clk);
  }

  ghost predicate NoTie<T(!new)>(w: World<T>, evs: seq<Event<T>>)
    requires Inv(w) && Legal(w, evs)
    decreases |evs|
  {
    evs == [] ||
    (!Tie(w, evs[0]) && (StepKeepsInv(w, evs[0]); NoTie(Next(w, evs[0]), evs[1..])))
  }

  lemma {:induction false} RunArmed<T(!new)>(w: World<T>, evs: seq<Event<T>>)
    requires Inv(w) && Legal(w, evs) && Armed(w.ts) && NoTie(w, evs)
    ensures Armed(Play(w, evs).ts)
    decreases |evs|
  {
    if evs != [] {
      StepKeepsInv(w, evs[0]);
      StepArmed(w, evs[0]);
      RunArmed(Next(w, evs[0]), evs[1..]);
    }
  }
}
