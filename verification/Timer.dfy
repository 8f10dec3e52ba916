// The deadline scheduler of framework/timer/timer.cpp: an ordered map of
// callbacks multiplexed on one timer descriptor.
//
// TimerState and the functions on it are the specification; the class has the
// source's fields and is proved against them. A callback's only effect on the
// timer is the Set and Cancel calls it makes, so a firing takes the sequence
// of those calls as a parameter and everything is proved for all of them.
module Timers {

  datatype Option<+T> = None | Some(value: T)

  // A map element: the key (deadline) and its value (handle, callback).
  datatype Entry<T> = Entry(deadline: int, handle: nat, cb: T)

  // Two readings around one operation: steady_clock::now(), then the kernel's
  // clock when timerfd_settime takes effect.
  datatype Clock = Clock(now: int, settime: int) {
    predicate Valid() { now <= settime }
  }

  datatype TimerState<T> = TimerState(
    cbs: seq<Entry<T>>,      // m_callBacks in key order
    counter: nat,            // m_handleCounter
    registered: bool,        // the descriptor is in the reactor's read set
    armed: Option<int>)      // expiry of the descriptor, if it is armed

  const HANDLES: nat := 0x1_0000_0000 // unsigned int handles wrap around

  ghost predicate Sorted<T>(s: seq<Entry<T>>) {
    forall i, j :: 0 <= i < j < |s| ==> s[i].deadline < s[j].deadline
  }

  // std::map::operator[]: an equal key is overwritten.
  function Insert<T>(s: seq<Entry<T>>, e: Entry<T>): (r: seq<Entry<T>>)
    ensures e in r
    ensures |s| <= |r| <= |s| + 1
    ensures r[0] == if s == [] || e.deadline <= s[0].deadline then e else s[0]
  {
    if s == [] then [e]
    else if e.deadline < s[0].deadline then [e] + s
    else if e.deadline == s[0].deadline then [e] + s[1..]
    else [s[0]] + Insert(s[1..], e)
  }

  // Position of the first element with handle h, |s| if there is none.
  function Find<T>(s: seq<Entry<T>>, h: nat): (k: nat)
    ensures k <= |s|
    ensures k < |s| ==> s[k].handle == h
    ensures forall i :: 0 <= i < k ==> s[i].handle != h
  {
    if s == [] then 0 else if s[0].handle == h then 0 else 1 + Find(s[1..], h)
  }

  function Remove<T>(s: seq<Entry<T>>, k: nat): seq<Entry<T>>
    requires k < |s|
  {
    s[..k] + s[k + 1..]
  }

  // timerfd_settime rejects negative times and takes zero to mean disarm.
  function Arm<T>(ts: TimerState<T>, at: int, duration: int): TimerState<T> {
    if duration < 0 then ts
    else if duration == 0 then ts.(armed := None)
    else ts.(armed := Some(at + duration))
  }

  // Timer::Set; the handle it returns is ts.counter.
  function AfterSet<T>(ts: TimerState<T>, clk: Clock, duration: int, cb: T): TimerState<T> {
    var deadline := clk.now + duration;
    var cbs := Insert(ts.cbs, Entry(deadline, ts.counter, cb));
    var ts1 := ts.(cbs := cbs, counter := (ts.counter + 1) % HANDLES);
    if |cbs| == 1 then Arm(ts1.(registered := true), clk.settime, duration)
    else if deadline == cbs[0].deadline then Arm(ts1, clk.settime, duration)
    else ts1
  }

  // Timer::EraseAndSetTimerIMP on the k-th element. The source dereferences
  // the following element unless the map became empty.
  function AfterErase<T>(ts: TimerState<T>, k: nat, clk: Clock): TimerState<T>
    requires k < |ts.cbs| && (|ts.cbs| == 1 || k + 1 < |ts.cbs|)
  {
    var ts1 := ts.(cbs := Remove(ts.cbs, k));
    if ts1.cbs == [] then Arm(ts1, clk.settime, 0).(registered := false)
    else
      var next := ts1.cbs[k].deadline - clk.now;
      Arm(ts1, clk.settime, if next < 0 then 1 else next)
  }

  // Timer::Cancel; the source asserts that the handle is live.
  function AfterCancel<T>(ts: TimerState<T>, h: nat, clk: Clock): TimerState<T>
    requires Find(ts.cbs, h) < |ts.cbs|
  {
    var k := Find(ts.cbs, h);
    if k == 0 then AfterErase(ts, 0, clk) else ts.(cbs := Remove(ts.cbs, k))
  }

  datatype Op<T> =
    | SetOp(setClk: Clock, duration: int, cb: T)
    | CancelOp(handle: nat, cancelClk: Clock)

  // What the calls made inside a callback do, in order. A callback may not
  // cancel the timer that is firing it.
  function AfterCalls<T>(ts: TimerState<T>, ops: seq<Op<T>>): TimerState<T>
    requires Callable(ts, ops)
    decreases |ops|
  {
    if ops == [] then ts
    else match ops[0]
      case SetOp(clk, d, cb) => AfterCalls(AfterSet(ts, clk, d, cb), ops[1..])
      case CancelOp(h, clk) => AfterCalls(AfterCancel(ts, h, clk), ops[1..])
  }

  predicate Callable<T>(ts: TimerState<T>, ops: seq<Op<T>>)
    decreases |ops|
  {
    ops == [] || match ops[0]
      case SetOp(clk, d, cb) =>
        ts.cbs != [] && d > 0 && clk.Valid() && ts.cbs[0].deadline <= clk.now
        && Callable(AfterSet(ts, clk, d, cb), ops[1..])
      case CancelOp(h, clk) =>
        ts.cbs != [] && ts.cbs[0].handle != h && Find(ts.cbs, h) < |ts.cbs|
        && Callable(AfterCancel(ts, h, clk), ops[1..])
  }

  // ------------------------------------------------------------------
  // The ordered map

  lemma SortedTail<T(!new)>(s: seq<Entry<T>>)
    requires Sorted(s) && s != []
    ensures Sorted(s[1..])
    ensures forall x :: x in s[1..] ==> s[0].deadline < x.deadline
    ensures forall x :: x in s <==> x == s[0] || x in s[1..]
  {
    forall x | x in s[1..] ensures s[0].deadline < x.deadline {
      var k :| 0 <= k < |s[1..]| && s[1..][k] == x;
      assert s[k + 1] == x;
    }
    assert s == [s[0]] + s[1..];
  }

  lemma SortedCons<T(!new)>(e: Entry<T>, s: seq<Entry<T>>)
    requires Sorted(s) && forall x :: x in s ==> e.deadline < x.deadline
    ensures Sorted([e] + s)
  {
    assert forall k :: 0 <= k < |s| ==> s[k] in s;
  }

  lemma {:induction false} InsertSorted<T(!new)>(s: seq<Entry<T>>, e: Entry<T>)
    requires Sorted(s)
    ensures Sorted(Insert(s, e))
    ensures forall x :: x in Insert(s, e) <==> x == e || (x in s && x.deadline != e.deadline)
  {
    if s != [] {
      SortedTail(s);
      hide Sorted;
      if e.deadline < s[0].deadline {
        SortedCons(e, s);
      } else if e.deadline == s[0].deadline {
        SortedCons(e, s[1..]);
      } else {
        InsertSorted(s[1..], e);
        SortedCons(s[0], Insert(s[1..], e));
      }
    }
  }

  lemma RemoveSorted<T(!new)>(s: seq<Entry<T>>, k: nat)
    requires Sorted(s) && k < |s|
    ensures Sorted(Remove(s, k))
    ensures forall x :: x in Remove(s, k) <==> x in s && x != s[k]
  {
    var r := Remove(s, k);
    forall x ensures x in r <==> x in s && x != s[k] {
      if x in r {
        var i :| 0 <= i < |r| && r[i] == x;
        assert x == s[if i < k then i else i + 1];
      }
      if x in s && x != s[k] {
        var i :| 0 <= i < |s| && s[i] == x;
        assert x == r[if i < k then i else i - 1];
      }
    }
  }

  // ------------------------------------------------------------------
  // The descriptor

  // The descriptor is registered and armed exactly when a timer is pending,
  // and never for a moment before the earliest deadline.
  ghost predicate Armed<T>(ts: TimerState<T>) {
    && (ts.registered <==> ts.cbs != [])
    && (ts.armed.Some? <==> ts.cbs != [])
    && NeverEarly(ts)
  }

  ghost predicate NeverEarly<T>(ts: TimerState<T>) {
    ts.armed.Some? ==> ts.cbs != [] && ts.cbs[0].deadline <= ts.armed.value
  }

  lemma SetNeverEarly<T(!new)>(ts: TimerState<T>, clk: Clock, duration: int, cb: T)
    requires Sorted(ts.cbs) && NeverEarly(ts) && clk.Valid() && duration >= 0
    ensures NeverEarly(AfterSet(ts, clk, duration, cb))
  {
  }

  // Set keeps the descriptor right exactly when it does not make a timer of
  // duration zero the earliest one: that call disarms the descriptor.
  lemma SetArmed<T(!new)>(ts: TimerState<T>, clk: Clock, duration: int, cb: T)
    requires Sorted(ts.cbs) && Armed(ts) && clk.Valid() && duration >= 0
    ensures Armed(AfterSet(ts, clk, duration, cb)) <==>
            duration > 0 || (ts.cbs != [] && ts.cbs[0].deadline < clk.now)
  {
  }

  lemma EraseNeverEarly<T(!new)>(ts: TimerState<T>, k: nat, clk: Clock)
    requires Sorted(ts.cbs) && k < |ts.cbs| && (|ts.cbs| == 1 || k + 1 < |ts.cbs|)
    requires clk.Valid()
    ensures NeverEarly(AfterErase(ts, k, clk))
  {
    RemoveSorted(ts.cbs, k);
    var r := Remove(ts.cbs, k);
    if r != [] {
      assert r[0].deadline <= r[k].deadline;
    }
  }

  // The deadline the descriptor is re-armed for.
  ghost predicate DueNow<T>(ts: TimerState<T>, k: nat, clk: Clock) {
    k + 1 < |ts.cbs| && ts.cbs[k + 1].deadline == clk.now
  }

  // Erasing re-arms for the next element. It fails to exactly when that
  // element's deadline is the very instant read from the clock: the computed
  // duration is then zero, which disarms the descriptor with timers pending.
  lemma EraseArmed<T(!new)>(ts: TimerState<T>, k: nat, clk: Clock)
    requires Sorted(ts.cbs) && k < |ts.cbs| && (|ts.cbs| == 1 || k + 1 < |ts.cbs|)
    requires ts.registered && clk.Valid()
    ensures Armed(AfterErase(ts, k, clk)) <==> !DueNow(ts, k, clk)
  {
    EraseNeverEarly(ts, k, clk);
    var r := Remove(ts.cbs, k);
    if r != [] {
      assert r[k] == ts.cbs[k + 1];
    }
  }

  // A concrete run into that state: two timers, the first one cancelled at
  // the instant the second is due. The second never fires.
  lemma DisarmedWithTimerPending()
    ensures var ts := TimerState([Entry(5, 0, "a"), Entry(9, 1, "b")], 2, true, Some(5));
            && Sorted(ts.cbs) && Armed(ts)
            && var after := AfterCancel(ts, 0, Clock(9, 9));
               after.cbs == [Entry(9, 1, "b")] && after.registered && after.armed == None
  {
    var ts := TimerState([Entry(5, 0, "a"), Entry(9, 1, "b")], 2, true, Some(5));
    assert Find(ts.cbs, 0) == 0;
    assert Remove(ts.cbs, 0) == [Entry(9, 1, "b")];
  }

  // Set takes the place of a timer with the same deadline: that one's handle
  // is found no more.
  lemma SameDeadlineLost<T(!new)>(ts: TimerState<T>, x: Entry<T>, clk: Clock, duration: int, cb: T)
    requires Sorted(ts.cbs) && x in ts.cbs && x.deadline == clk.now + duration && x.handle != ts.counter
    requires forall y :: y in ts.cbs && y.handle == x.handle ==> y == x
    ensures var cbs := AfterSet(ts, clk, duration, cb).cbs; Find(cbs, x.handle) == |cbs|
  {
    InsertSorted(ts.cbs, Entry(clk.now + duration, ts.counter, cb));
    var cbs := AfterSet(ts, clk, duration, cb).cbs;
    assert forall i :: 0 <= i < |cbs| ==> cbs[i] in cbs;
  }

  lemma CancelNeverEarly<T(!new)>(ts: TimerState<T>, h: nat, clk: Clock)
    requires Sorted(ts.cbs) && NeverEarly(ts) && Find(ts.cbs, h) < |ts.cbs| && clk.Valid()
    ensures NeverEarly(AfterCancel(ts, h, clk))
  {
    if Find(ts.cbs, h) == 0 {
      EraseNeverEarly(ts, 0, clk);
    }
  }

  lemma CancelArmed<T(!new)>(ts: TimerState<T>, h: nat, clk: Clock)
    requires Sorted(ts.cbs) && Armed(ts) && Find(ts.cbs, h) < |ts.cbs| && clk.Valid()
    ensures Armed(AfterCancel(ts, h, clk)) <==> Find(ts.cbs, h) > 0 || !DueNow(ts, 0, clk)
  {
    if Find(ts.cbs, h) == 0 {
      EraseArmed(ts, 0, clk);
    }
  }

  // The descriptor is not armed for later than the earliest deadline, but for
  // the lag between reading the clock and setting the descriptor, or for the
  // next nanosecond if that is past.
  ghost predicate OnTime<T>(ts: TimerState<T>, clock: int, lag: int) {
    ts.armed.Some? ==> ts.cbs != [] && (ts.armed.value <= clock + 1 || ts.armed.value <= ts.cbs[0].deadline + lag)
  }

  lemma SetOnTime<T(!new)>(ts: TimerState<T>, clk: Clock, duration: int, cb: T, clock: int, lag: int)
    requires Sorted(ts.cbs) && OnTime(ts, clock, lag) && duration >= 0
    requires clk.Valid() && clock <= clk.now && clk.settime - clk.now <= lag
    ensures OnTime(AfterSet(ts, clk, duration, cb), clk.settime, lag)
  {
  }

  // Erasing the first element re-arms in time, however late it is done.
  lemma EraseOnTime<T(!new)>(ts: TimerState<T>, clk: Clock)
    requires ts.cbs != [] && clk.Valid()
    ensures OnTime(AfterErase(ts, 0, clk), clk.settime, clk.settime - clk.now)
  {
    assert Remove(ts.cbs, 0) == ts.cbs[1..];
  }

  lemma CancelOnTime<T(!new)>(ts: TimerState<T>, h: nat, clk: Clock, clock: int, lag: int)
    requires Sorted(ts.cbs) && OnTime(ts, clock, lag) && Find(ts.cbs, h) < |ts.cbs|
    requires clk.Valid() && clock <= clk.now && clk.settime - clk.now <= lag
    ensures OnTime(AfterCancel(ts, h, clk), clk.settime, lag)
  {
    if Find(ts.cbs, h) == 0 {
      EraseOnTime(ts, clk);
    }
  }

  // The first k timers have the handles below k, unless handles wrap around.
  ghost predicate Numbered<T>(ts: TimerState<T>, k: nat) {
    k <= 0x1_0000_0000 ==> ts.counter == k % 0x1_0000_0000 && forall x :: x in ts.cbs ==> x.handle < k
  }

  lemma SetNumbered<T(!new)>(ts: TimerState<T>, clk: Clock, duration: int, cb: T, k: nat)
    requires Sorted(ts.cbs) && Numbered(ts, k)
    ensures Numbered(AfterSet(ts, clk, duration, cb), k + 1)
  {
    hide Sorted, AfterSet;
    SetHandle(ts, clk, duration, cb);
  }

  lemma SetHandle<T(!new)>(ts: TimerState<T>, clk: Clock, duration: int, cb: T)
    requires Sorted(ts.cbs)
    ensures var after := AfterSet(ts, clk, duration, cb);
            && after.counter == (ts.counter + 1) % HANDLES
            && forall x :: x in after.cbs ==> x in ts.cbs || x.handle == ts.counter
  {
    InsertSorted(ts.cbs, Entry(clk.now + duration, ts.counter, cb));
    hide Sorted, Insert;
  }

  // So the handle of the next one is not in use.
  lemma NextHandleFree<T(!new)>(ts: TimerState<T>, k: nat)
    requires Numbered(ts, k) && k < 0x1_0000_0000
    ensures forall x :: x in ts.cbs ==> x.handle != ts.counter
  {
  }

  // CallBackWrapper does not look at the clock. Where another callback of the
  // same round cancels a timer after the descriptor was reported ready, it
  // finds one that is due exactly if the cancelled one was not the first, or
  // the next one was due as well.
  lemma DueAfterReport<T(!new)>(ts: TimerState<T>, h: nat, clk: Clock)
    requires Sorted(ts.cbs) && Armed(ts) && ts.armed.Some? && ts.armed.value <= clk.now && Find(ts.cbs, h) < |ts.cbs|
    ensures var left := AfterCancel(ts, h, clk).cbs;
            left != [] ==>
              (left[0].deadline <= clk.now <==> Find(ts.cbs, h) > 0 || (|ts.cbs| > 1 && ts.cbs[1].deadline <= clk.now))
  {
    if |ts.cbs| > 1 {
      assert Remove(ts.cbs, 0)[0] == ts.cbs[1];
    }
  }

  // ------------------------------------------------------------------
  // Re-entrant callbacks

  // Whatever the callback sets or cancels, the element being fired stays the
  // first one of the map: no new deadline precedes it.
  lemma {:induction false} FiringStaysFirst<T(!new)>(ts: TimerState<T>, ops: seq<Op<T>>)
    requires Sorted(ts.cbs) && ts.cbs != [] && Callable(ts, ops)
    ensures var r := AfterCalls(ts, ops); Sorted(r.cbs) && r.cbs != [] && r.cbs[0] == ts.cbs[0]
    decreases |ops|
  {
    if ops != [] {
      match ops[0] {
        case SetOp(clk, d, cb) =>
          InsertSorted(ts.cbs, Entry(clk.now + d, ts.counter, cb));
          FiringStaysFirst(AfterSet(ts, clk, d, cb), ops[1..]);
        case CancelOp(h, clk) =>
          RemoveSorted(ts.cbs, Find(ts.cbs, h));
          FiringStaysFirst(AfterCancel(ts, h, clk), ops[1..]);
      }
    }
  }

  // Timer::CallBackWrapper: run the first callback, then erase its element.
  function AfterFire<T(!new)>(ts: TimerState<T>, ops: seq<Op<T>>, clk: Clock): TimerState<T>
    requires Sorted(ts.cbs) && ts.cbs != [] && Callable(ts, ops)
  {
    FiringStaysFirst(ts, ops);
    AfterErase(AfterCalls(ts, ops), 0, clk)
  }

  class Timer<T(!new)> {
    var callBacks: seq<Entry<T>>
    var handleCounter: nat
    var registered: bool
    var armed: Option<int>

    function State(): TimerState<T>
      reads this
    {
      TimerState(callBacks, handleCounter, registered, armed)
    }

    constructor ()
      ensures State() == TimerState([], 0, false, None)
    {
      callBacks, handleCounter, registered, armed := [], 0, false, None;
    }

    method Set(clk: Clock, duration: int, cb: T) returns (handle: nat)
      modifies this
      ensures State() == AfterSet(old(State()), clk, duration, cb)
      ensures handle == old(handleCounter)
    {
      var realTime := clk.now + duration;
      callBacks := Insert(callBacks, Entry(realTime, handleCounter, cb));
      if |callBacks| == 1 {
        registered := true;
        SetTimerIMP(clk.settime, duration);
      } else if realTime == callBacks[0].deadline {
        SetTimerIMP(clk.settime, duration);
      }
      handle := handleCounter;
      handleCounter := (handleCounter + 1) % HANDLES;
    }

    method SetTimerIMP(at: int, duration: int)
      modifies this`armed
      ensures State() == Arm(old(State()), at, duration)
    {
      if duration == 0 {
        armed := None;
      } else if duration > 0 {
        armed := Some(at + duration);
      }
    }

    method Cancel(handle: nat, clk: Clock)
      requires callBacks != []
      requires exists i :: 0 <= i < |callBacks| && callBacks[i].handle == handle
      modifies this
      ensures Find(old(callBacks), handle) < |old(callBacks)|
      ensures State() == AfterCancel(old(State()), handle, clk)
    {
      var curr := 0;
      while curr < |callBacks|
        invariant 0 <= curr <= |callBacks|
        invariant forall i :: 0 <= i < curr ==> callBacks[i].handle != handle
      {
        if callBacks[curr].handle == handle {
          break;
        }
        curr := curr + 1;
      }
      assert Find(callBacks, handle) == curr;
      if curr == 0 {
        EraseAndSetTimerIMP(curr, clk);
        return;
      }
      callBacks := Remove(callBacks, curr);
    }

    method EraseAndSetTimerIMP(k: nat, clk: Clock)
      requires k < |callBacks| && (|callBacks| == 1 || k + 1 < |callBacks|)
      modifies this
      ensures State() == AfterErase(old(State()), k, clk)
      ensures k == 0 && clk.Valid() ==> OnTime(State(), clk.settime, clk.settime - clk.now)
    {
      callBacks := Remove(callBacks, k);
      if callBacks == [] {
        SetTimerIMP(clk.settime, 0);
        registered := false;
        return;
      }
      SetNextTimer(k, clk);
    }

    method SetNextTimer(k: nat, clk: Clock)
      requires k < |callBacks|
      modifies this`armed
      ensures State() == Arm(old(State()), clk.settime,
                             var next := callBacks[k].deadline - clk.now; if next < 0 then 1 else next)
    {
      var nextDur := callBacks[k].deadline - clk.now;
      SetTimerIMP(clk.settime, if 0 > nextDur then 1 else nextDur);
    }

    // The callback is the loop: any sequence of calls back into the timer.
    method CallBackWrapper(ops: seq<Op<T>>, clk: Clock)
      requires Sorted(callBacks) && callBacks != [] && Callable(State(), ops)
      modifies this
      ensures State() == AfterFire(old(State()), ops, clk)
    {
      ghost var before := State();
      for i := 0 to |ops|
        invariant Callable(State(), ops[i..])
        invariant AfterCalls(State(), ops[i..]) == AfterCalls(before, ops)
      {
        assert ops[i..][1..] == ops[i + 1..];
        match ops[i] {
          case SetOp(c, d, cb) => var _ := Set(c, d, cb);
          case CancelOp(h, c) => Cancel(h, c);
        }
      }
      FiringStaysFirst(before, ops);
      EraseAndSetTimerIMP(0, clk);
    }
  }
}
