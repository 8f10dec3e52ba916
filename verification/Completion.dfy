// Asynchronous encryption: framework/encryptor/encryptor.cpp and
// framework/eventer/eventer.cpp. A caller sets an event and queues a task, a
// worker transforms the buffer byte by byte and signals the event through a
// pipe, and the reactor's thread reads the pipe and runs the callback. The
// threads take turns in any order.
module Completion {
  import opened Cipher
  import opened Timers

  const EVENT_HANDLES: nat := 0x1_0000_0000 // of an unsigned int

  // ------------------------------------------------------------------
  // The eventer

  datatype Eventing = Eventing(
    counter: nat,            // m_handleCounter
    events: map<nat, nat>,   // m_events: handle to callback
    pipe: seq<nat>)

  function AfterSetEvent(e: Eventing, cb: nat): Eventing {
    e.(counter := (e.counter + 1) % EVENT_HANDLES, events := e.events[e.counter := cb])
  }

  function AfterSignal(e: Eventing, handle: nat): Eventing {
    e.(pipe := e.pipe + [handle])
  }

  datatype Outcome = Done | Throws | Aborts

  class Eventer {
    var events: map<nat, nat>
    var pipe: seq<nat>
    var handleCounter: nat
    var invoked: seq<nat>    // callbacks that have run

    function State(): Eventing
      reads this
    {
      Eventing(handleCounter, events, pipe)
    }

    constructor ()
      ensures State() == Eventing(0, map[], []) && invoked == []
    {
      events, pipe, handleCounter, invoked := map[], [], 0, [];
    }

    method SetEvent(cb: nat) returns (handle: nat)
      modifies this`events, this`handleCounter
      ensures handle == old(handleCounter) && State() == AfterSetEvent(old(State()), cb)
    {
      handle := handleCounter;
      handleCounter := (handleCounter + 1) % EVENT_HANDLES;
      events := events[handle := cb];
    }

    method SignalEvent(handle: nat, room: bool) returns (o: Outcome)
      modifies this`pipe
      ensures o == (if room then Done else Throws)
      ensures State() == if room then AfterSignal(old(State()), handle) else old(State())
    {
      if !room {
        return Throws;
      }
      pipe := pipe + [handle];
      return Done;
    }

    // The oldest signal's callback runs and its event is gone.
    method OnEventFinishedCB() returns (o: Outcome)
      modifies this`events, this`pipe, this`invoked
      ensures o == if old(pipe) == [] then Throws else if old(pipe)[0] !in old(events) then Aborts else Done
      ensures o != Done ==> events == old(events) && invoked == old(invoked)
      ensures o == Done ==> pipe == old(pipe)[1..] && events == old(events) - {old(pipe)[0]}
                            && invoked == old(invoked) + [old(events)[old(pipe)[0]]]
    {
      if pipe == [] {
        return Throws;
      }
      var handle := pipe[0];
      pipe := pipe[1..];
      if handle !in events {
        return Aborts;
      }
      invoked := invoked + [events[handle]];
      events := events - {handle};
      return Done;
    }
  }

  // ------------------------------------------------------------------
  // All threads together

  datatype Task = Task(handle: nat, buff: nat, len: nat)

  // The n-th call of Encrypt or Decrypt has callback n.
  datatype Submission = Submission(task: Task, original: Data)

  // A callback that has run, and its buffer at that moment.
  datatype Call = Call(cb: nat, content: Data)

  datatype State = State(
    ev: Eventing,
    created: set<Task>,        // event set, task not queued yet
    queued: set<Task>,
    working: map<Task, nat>,   // bytes transformed
    taken: Option<nat>,        // handle read from the pipe, callback not run yet
    memory: map<nat, Data>,
    submitted: seq<Submission>,
    calls: seq<Call>)

  datatype Step =
    | Submit(buff: nat, data: Data, len: nat)
    | AddTask(t: Task)
    | Begin(t: Task)
    | XorByte(t: Task)
    | Signal(t: Task)
    | ReadPipe
    | Invoke

  function Initial(): State {
    State(Eventing(0, map[], []), {}, {}, map[], None, map[], [], [])
  }

  // The handle's callback is one that was submitted with it.
  ghost predicate Known(s: State, h: nat) {
    h in s.ev.events && s.ev.events[h] < |s.submitted| && s.submitted[s.ev.events[h]].task.handle == h
  }

  ghost function TaskOf(s: State, h: nat): Task
    requires Known(s, h)
  {
    s.submitted[s.ev.events[h]].task
  }

  ghost predicate InUse(s: State, buff: nat) {
    exists h :: Known(s, h) && TaskOf(s, h).buff == buff
  }

  // A buffer is not shared with a task under way, and a write to the pipe
  // finds room.
  ghost predicate Enabled(s: State, step: Step) {
    match step
    case Submit(buff, data, len) => !InUse(s, buff) && len <= |data|
    case AddTask(t) => t in s.created
    case Begin(t) => t in s.queued
    case XorByte(t) => t in s.working && s.working[t] < t.len && t.buff in s.memory && s.working[t] < |s.memory[t.buff]|
    case Signal(t) => t in s.working && s.working[t] == t.len
    case ReadPipe => s.taken.None? && s.ev.pipe != []
    case Invoke => s.taken.Some?
  }

  // The assertion of OnEventFinishedCB, and that the callback has its buffer.
  ghost predicate Asserts(s: State, step: Step)
    requires Enabled(s, step)
  {
    step.Invoke? ==> Known(s, s.taken.value) && TaskOf(s, s.taken.value).buff in s.memory
  }

  ghost function Apply(s: State, step: Step): State
    requires Enabled(s, step) && Asserts(s, step)
  {
    match step
    case Submit(buff, data, len) =>
      var t := Task(s.ev.counter, buff, len);
      s.(ev := AfterSetEvent(s.ev, |s.submitted|), created := s.created + {t},
         memory := s.memory[buff := data], submitted := s.submitted + [Submission(t, data)])
    case AddTask(t) => s.(created := s.created - {t}, queued := s.queued + {t})
    case Begin(t) => s.(queued := s.queued - {t}, working := s.working[t := 0])
    case XorByte(t) =>
      var i, bytes := s.working[t], s.memory[t.buff];
      s.(memory := s.memory[t.buff := bytes[i := bytes[i] ^ KEY]], working := s.working[t := i + 1])
    case Signal(t) => s.(ev := AfterSignal(s.ev, t.handle), working := s.working - {t})
    case ReadPipe => s.(ev := s.ev.(pipe := s.ev.pipe[1..]), taken := Some(s.ev.pipe[0]))
    case Invoke =>
      var h := s.taken.value;
      s.(ev := s.ev.(events := s.ev.events - {h}), taken := None,
         calls := s.calls + [Call(s.ev.events[h], s.memory[TaskOf(s, h).buff])])
  }

  // The hypothesis on handles: the next one is not that of an event still set.
  ghost predicate Fresh(s: State, step: Step) {
    step.Submit? ==> s.ev.counter !in s.ev.events
  }

  // ------------------------------------------------------------------
  // The invariant

  // A buffer of which the first i bytes are done.
  function Transformed(d: Data, i: nat): Data
    requires i <= |d|
  {
    Xor(d[..i]) + d[i..]
  }

  function One(b: bool): nat { if b then 1 else 0 }

  // In how many places a handle is.
  ghost function Places(s: State, h: nat): nat
    requires Known(s, h)
  {
    var t := TaskOf(s, h);
    One(t in s.created) + One(t in s.queued) + One(t in s.working) + One(h in s.ev.pipe) + One(s.taken == Some(h))
  }

  ghost predicate IsTask(s: State, t: Task) {
    Known(s, t.handle) && TaskOf(s, t.handle) == t
  }

  ghost predicate Distinct(pipe: seq<nat>) {
    forall i, j :: 0 <= i < j < |pipe| ==> pipe[i] != pipe[j]
  }

  // Every handle set and not invoked is in exactly one place, and nothing
  // else is anywhere.
  ghost predicate OnePlace(s: State) {
    && (forall h :: h in s.ev.events ==> Known(s, h) && Places(s, h) == 1)
    && (forall t :: t in s.created || t in s.queued || t in s.working ==> IsTask(s, t))
    && HandlesOk(s)
  }

  ghost predicate HandlesOk(s: State) {
    && (forall h :: h in s.ev.pipe || s.taken == Some(h) ==> h in s.ev.events)
    && Distinct(s.ev.pipe)
  }

  // How much of a handle's buffer is transformed.
  ghost function Progress(s: State, h: nat): nat
    requires Known(s, h)
  {
    var t := TaskOf(s, h);
    if t in s.created || t in s.queued then 0 else if t in s.working then s.working[t] else t.len
  }

  ghost predicate BufferOk(s: State, h: nat)
    requires Known(s, h)
  {
    var t, d := TaskOf(s, h), s.submitted[s.ev.events[h]].original;
    && t.len <= |d| && Progress(s, h) <= t.len
    && t.buff in s.memory && s.memory[t.buff] == Transformed(d, Progress(s, h))
  }

  ghost predicate BuffersOk(s: State) {
    && (forall h :: Known(s, h) ==> BufferOk(s, h))
    && (forall h, k :: Known(s, h) && Known(s, k) && TaskOf(s, h).buff == TaskOf(s, k).buff ==> h == k)
  }

  ghost predicate Called(calls: seq<Call>, n: nat) {
    exists i :: 0 <= i < |calls| && calls[i].cb == n
  }

  ghost predicate Outstanding(s: State, n: nat) {
    exists h :: h in s.ev.events && s.ev.events[h] == n
  }

  // Every callback has run once or is still outstanding, never both; when it
  // ran, its buffer was transformed over its whole length.
  ghost predicate CallsOk(s: State) {
    && (forall n: nat :: n < |s.submitted| ==> (Called(s.calls, n) <==> !Outstanding(s, n)))
    && (forall i, j :: 0 <= i < j < |s.calls| ==> s.calls[i].cb != s.calls[j].cb)
    && (forall i :: 0 <= i < |s.calls| ==> CallOk(s.submitted, s.calls[i]))
  }

  ghost predicate CallOk(submitted: seq<Submission>, c: Call) {
    && c.cb < |submitted|
    && submitted[c.cb].task.len <= |submitted[c.cb].original|
    && c.content == Transformed(submitted[c.cb].original, submitted[c.cb].task.len)
  }

  ghost predicate Inv(s: State) {
    OnePlace(s) && BuffersOk(s) && CallsOk(s)
  }

  lemma InitialInv()
    ensures Inv(Initial())
  {
  }

  // ------------------------------------------------------------------
  // OnePlace

  // A step that moves one task leaves all others where they are.
  ghost predicate Moves(s: State, s': State, t: Task) {
    && s'.submitted == s.submitted && s'.ev.events == s.ev.events
    && (forall x :: x != t ==> (x in s.created <==> x in s'.created) && (x in s.queued <==> x in s'.queued) && (x in s.working <==> x in s'.working))
    && (forall h :: h != t.handle ==> (h in s.ev.pipe <==> h in s'.ev.pipe) && (s.taken == Some(h) <==> s'.taken == Some(h)))
  }

  lemma MoveKeepsPlace(s: State, s': State, t: Task)
    requires OnePlace(s) && Moves(s, s', t) && IsTask(s, t) && HandlesOk(s')
    requires Places(s', t.handle) == 1
    ensures OnePlace(s')
  {
    forall h | h in s'.ev.events
      ensures Known(s', h) && Places(s', h) == 1
    {
      assert Known(s, h) && TaskOf(s', h) == TaskOf(s, h);
      assert Places(s, h) == 1;
    }
    hide HandlesOk;
  }

  lemma AddPlaced(s: State, t: Task)
    requires OnePlace(s) && t in s.created
    ensures OnePlace(Apply(s, AddTask(t)))
  {
    assert Places(s, t.handle) == 1;
    assert HandlesOk(Apply(s, AddTask(t)));
    hide HandlesOk;
    MoveKeepsPlace(s, Apply(s, AddTask(t)), t);
  }

  lemma BeginPlaced(s: State, t: Task)
    requires OnePlace(s) && t in s.queued
    ensures OnePlace(Apply(s, Begin(t)))
  {
    assert Places(s, t.handle) == 1;
    assert HandlesOk(Apply(s, Begin(t)));
    hide HandlesOk;
    MoveKeepsPlace(s, Apply(s, Begin(t)), t);
  }

  lemma XorPlaced(s: State, t: Task)
    requires OnePlace(s) && Enabled(s, XorByte(t))
    ensures OnePlace(Apply(s, XorByte(t)))
  {
    assert Places(s, t.handle) == 1;
    assert HandlesOk(Apply(s, XorByte(t)));
    hide HandlesOk;
    MoveKeepsPlace(s, Apply(s, XorByte(t)), t);
  }

  lemma SignalPlaced(s: State, t: Task)
    requires OnePlace(s) && Enabled(s, Signal(t))
    ensures OnePlace(Apply(s, Signal(t)))
  {
    assert Places(s, t.handle) == 1;
    MoveKeepsPlace(s, Apply(s, Signal(t)), t);
  }

  lemma ReadPlaced(s: State)
    requires OnePlace(s) && Enabled(s, ReadPipe)
    ensures OnePlace(Apply(s, ReadPipe))
  {
    var h, s' := s.ev.pipe[0], Apply(s, ReadPipe);
    assert Places(s, h) == 1;
    assert h !in s'.ev.pipe && s.ev.pipe == [h] + s'.ev.pipe;
    MoveKeepsPlace(s, s', TaskOf(s, h));
  }

  lemma SubmitPlaced(s: State, buff: nat, data: Data, len: nat)
    requires OnePlace(s) && Enabled(s, Submit(buff, data, len)) && s.ev.counter !in s.ev.events
    ensures OnePlace(Apply(s, Submit(buff, data, len)))
  {
    var s', h, t := Apply(s, Submit(buff, data, len)), s.ev.counter, Task(s.ev.counter, buff, len);
    assert forall x :: x in s.created || x in s.queued || x in s.working ==> x.handle != h;
    assert h !in s.ev.pipe && s.taken != Some(h);
    forall k | k in s'.ev.events
      ensures Known(s', k) && Places(s', k) == 1
    {
      if k != h {
        assert Known(s, k) && TaskOf(s', k) == TaskOf(s, k) && Places(s, k) == 1;
      } else {
        assert TaskOf(s', k) == t;
      }
    }
    forall x | x in s'.created || x in s'.queued || x in s'.working
      ensures IsTask(s', x)
    {
      if x != t {
        assert IsTask(s, x);
      }
    }
  }

  lemma InvokePlaced(s: State)
    requires OnePlace(s) && Enabled(s, Invoke) && Asserts(s, Invoke)
    ensures OnePlace(Apply(s, Invoke))
  {
    var s', h := Apply(s, Invoke), s.taken.value;
    assert Places(s, h) == 1;
    forall k | k in s'.ev.events
      ensures Known(s', k) && Places(s', k) == 1
    {
      assert Known(s, k) && TaskOf(s', k) == TaskOf(s, k) && Places(s, k) == 1;
    }
    forall x | x in s'.created || x in s'.queued || x in s'.working
      ensures IsTask(s', x)
    {
      assert IsTask(s, x) && x != TaskOf(s, h);
    }
  }

  lemma PlaceKept(s: State, step: Step)
    requires OnePlace(s) && Enabled(s, step) && Asserts(s, step) && Fresh(s, step)
    ensures OnePlace(Apply(s, step))
  {
    hide OnePlace, Apply;
    match step
    case Submit(buff, data, len) => SubmitPlaced(s, buff, data, len);
    case AddTask(t) => AddPlaced(s, t);
    case Begin(t) => BeginPlaced(s, t);
    case XorByte(t) => XorPlaced(s, t);
    case Signal(t) => SignalPlaced(s, t);
    case ReadPipe => ReadPlaced(s);
    case Invoke => InvokePlaced(s);
  }

  // ------------------------------------------------------------------
  // BuffersOk

  lemma OneByte(d: Data, i: nat)
    requires i < |d|
    ensures Transformed(d, i + 1) == Transformed(d, i)[i := Transformed(d, i)[i] ^ KEY]
  {
    assert d[..i + 1] == d[..i] + [d[i]];
  }

  lemma MoveKeepsBuffers(s: State, s': State, t: Task)
    requires BuffersOk(s) && Moves(s, s', t) && IsTask(s, t)
    requires forall x :: x != t && x in s.working && x in s'.working ==> s'.working[x] == s.working[x]
    requires forall b :: b != t.buff && b in s.memory ==> b in s'.memory && s'.memory[b] == s.memory[b]
    requires BufferOk(s', t.handle)
    ensures BuffersOk(s')
  {
    forall h | Known(s', h) ensures BufferOk(s', h) && Known(s, h) && TaskOf(s, h) == TaskOf(s', h) {
      assert Known(s, h) && TaskOf(s, h) == TaskOf(s', h);
      assert BufferOk(s, h);
    }
  }

  lemma MovedBuffers(s: State, step: Step, t: Task)
    requires OnePlace(s) && BuffersOk(s) && Enabled(s, step) && IsTask(s, t)
    requires step == AddTask(t) || step == Begin(t) || step == Signal(t)
             || (step == ReadPipe && t.handle == s.ev.pipe[0])
    ensures BuffersOk(Apply(s, step))
  {
    var s' := Apply(s, step);
    assert Places(s, t.handle) == 1 && BufferOk(s, t.handle);
    MoveKeepsBuffers(s, s', t);
  }

  lemma XorBuffers(s: State, t: Task)
    requires OnePlace(s) && BuffersOk(s) && Enabled(s, XorByte(t))
    ensures BuffersOk(Apply(s, XorByte(t)))
  {
    assert IsTask(s, t);
    assert Places(s, t.handle) == 1 && BufferOk(s, t.handle);
    XorOne(s, t);
    hide OnePlace, Transformed;
    MoveKeepsBuffers(s, Apply(s, XorByte(t)), t);
  }

  lemma XorOne(s: State, t: Task)
    requires Enabled(s, XorByte(t)) && IsTask(s, t) && BufferOk(s, t.handle) && Places(s, t.handle) == 1
    ensures BufferOk(Apply(s, XorByte(t)), t.handle)
  {
    OneByte(s.submitted[s.ev.events[t.handle]].original, s.working[t]);
    hide Transformed;
  }

  lemma SubmitBuffers(s: State, buff: nat, data: Data, len: nat)
    requires OnePlace(s) && BuffersOk(s) && Enabled(s, Submit(buff, data, len)) && s.ev.counter !in s.ev.events
    ensures BuffersOk(Apply(s, Submit(buff, data, len)))
  {
    var s', h, t := Apply(s, Submit(buff, data, len)), s.ev.counter, Task(s.ev.counter, buff, len);
    forall k | Known(s', k)
      ensures BufferOk(s', k)
      ensures k != h ==> Known(s, k) && TaskOf(s', k) == TaskOf(s, k) && TaskOf(s, k).buff != buff
    {
      if k != h {
        assert Known(s, k) && TaskOf(s', k) == TaskOf(s, k);
        assert BufferOk(s, k);
      } else {
        assert TaskOf(s', k) == t && Transformed(data, 0) == data;
      }
    }
  }

  lemma InvokeBuffers(s: State)
    requires OnePlace(s) && BuffersOk(s) && Enabled(s, Invoke) && Asserts(s, Invoke)
    ensures BuffersOk(Apply(s, Invoke))
  {
    var s' := Apply(s, Invoke);
    forall k | Known(s', k)
      ensures BufferOk(s', k) && Known(s, k) && TaskOf(s', k) == TaskOf(s, k)
    {
      assert Known(s, k) && TaskOf(s', k) == TaskOf(s, k) && BufferOk(s, k);
    }
  }

  lemma BuffersKept(s: State, step: Step)
    requires OnePlace(s) && BuffersOk(s) && Enabled(s, step) && Asserts(s, step) && Fresh(s, step)
    ensures BuffersOk(Apply(s, step))
  {
    assert forall t :: t in s.created || t in s.queued || t in s.working ==> IsTask(s, t);
    if step.ReadPipe? {
      assert s.ev.pipe[0] in s.ev.pipe;
      assert IsTask(s, TaskOf(s, s.ev.pipe[0]));
    }
    hide OnePlace, BuffersOk, Apply;
    match step
    case Submit(buff, data, len) => SubmitBuffers(s, buff, data, len);
    case AddTask(t) => MovedBuffers(s, step, t);
    case Begin(t) => MovedBuffers(s, step, t);
    case XorByte(t) => XorBuffers(s, t);
    case Signal(t) => MovedBuffers(s, step, t);
    case ReadPipe => MovedBuffers(s, step, TaskOf(s, s.ev.pipe[0]));
    case Invoke => InvokeBuffers(s);
  }

  // ------------------------------------------------------------------
  // CallsOk

  lemma CallsKept(s: State, step: Step)
    requires Inv(s) && Enabled(s, step) && Asserts(s, step) && Fresh(s, step)
    ensures CallsOk(Apply(s, step))
  {
    match step
    case Submit(buff, data, len) => SubmitCalls(s, buff, data, len);
    case Invoke => InvokeCalls(s);
    case _ =>
      assert forall n :: Outstanding(s, n) <==> Outstanding(Apply(s, step), n);
  }

  lemma SubmitCalls(s: State, buff: nat, data: Data, len: nat)
    requires OnePlace(s) && CallsOk(s) && Enabled(s, Submit(buff, data, len)) && s.ev.counter !in s.ev.events
    ensures CallsOk(Apply(s, Submit(buff, data, len)))
  {
    var s', m := Apply(s, Submit(buff, data, len)), |s.submitted|;
    assert s'.ev.events[s.ev.counter] == m;
    forall n: nat | n < |s'.submitted| ensures Called(s'.calls, n) <==> !Outstanding(s', n) {
      if n < m {
        assert forall h :: h in s.ev.events <==> h in s'.ev.events && h != s.ev.counter;
        assert Outstanding(s, n) <==> Outstanding(s', n);
      } else {
        assert Outstanding(s', n);
        assert forall i :: 0 <= i < |s.calls| ==> CallOk(s.submitted, s.calls[i]);
      }
    }
    forall i | 0 <= i < |s'.calls| ensures CallOk(s'.submitted, s'.calls[i]) {
      assert CallOk(s.submitted, s.calls[i]);
    }
  }

  lemma InvokeCalls(s: State)
    requires Inv(s) && Enabled(s, Invoke) && Asserts(s, Invoke)
    ensures CallsOk(Apply(s, Invoke))
  {
    var s', h := Apply(s, Invoke), s.taken.value;
    var m := s.ev.events[h];
    var c := s'.calls[|s.calls|];
    assert Outstanding(s, m) && c.cb == m;
    assert Places(s, h) == 1 && BufferOk(s, h);
    forall n: nat | n < |s'.submitted| ensures Called(s'.calls, n) <==> !Outstanding(s', n) {
      CalledMore(s.calls, c, n);
      OutstandingLess(s, n);
    }
    assert forall i :: 0 <= i < |s.calls| ==> Called(s.calls, s.calls[i].cb) && CallOk(s.submitted, s.calls[i]);
  }

  lemma CalledMore(calls: seq<Call>, c: Call, n: nat)
    ensures Called(calls + [c], n) <==> Called(calls, n) || c.cb == n
  {
    assert (calls + [c])[|calls|] == c;
    assert forall i :: 0 <= i < |calls| ==> (calls + [c])[i] == calls[i];
  }

  lemma OutstandingLess(s: State, n: nat)
    requires OnePlace(s) && Enabled(s, Invoke) && Asserts(s, Invoke)
    ensures Outstanding(Apply(s, Invoke), n) <==> Outstanding(s, n) && n != s.ev.events[s.taken.value]
  {
    var s', h := Apply(s, Invoke), s.taken.value;
    assert forall k :: k in s.ev.events ==> Known(s, k);
    assert forall k :: k in s'.ev.events <==> k in s.ev.events && k != h;
  }

  // ------------------------------------------------------------------

  // The lookup finds the handle, and the callback its buffer.
  lemma LookupSucceeds(s: State, step: Step)
    requires Inv(s) && Enabled(s, step)
    ensures Asserts(s, step)
  {
    if step.Invoke? {
      assert BufferOk(s, s.taken.value);
    }
  }

  lemma StepKeeps(s: State, step: Step)
    requires Inv(s) && Enabled(s, step) && Fresh(s, step)
    ensures Asserts(s, step) && Inv(Apply(s, step))
  {
    LookupSucceeds(s, step);
    PlaceKept(s, step);
    BuffersKept(s, step);
    CallsKept(s, step);
    hide OnePlace, BuffersOk, CallsOk;
  }

  // ------------------------------------------------------------------
  // Results over whole runs

  ghost predicate Legal(s: State, steps: seq<Step>)
    decreases |steps|
  {
    steps == [] ||
    (&& Enabled(s, steps[0]) && Fresh(s, steps[0])
     && (Asserts(s, steps[0]) ==> Legal(Apply(s, steps[0]), steps[1..])))
  }

  // None once an assertion has failed.
  ghost function Run(s: State, steps: seq<Step>): Option<State>
    requires Legal(s, steps)
    decreases |steps|
  {
    if steps == [] then Some(s)
    else if Asserts(s, steps[0]) then Run(Apply(s, steps[0]), steps[1..])
    else None
  }

  lemma {:induction false} RunKeeps(s: State, steps: seq<Step>)
    requires Inv(s) && Legal(s, steps)
    ensures Run(s, steps).Some? && Inv(Run(s, steps).value)
    decreases |steps|
  {
    hide Inv, Enabled, Fresh, Asserts, Apply;
    if steps != [] {
      StepKeeps(s, steps[0]);
      RunKeeps(Apply(s, steps[0]), steps[1..]);
    }
  }

  // In any run no lookup fails, and every handle set and not yet invoked is
  // either with the caller, queued, with a worker, in the pipe or just read
  // from it.
  lemma AlwaysInOnePlace(steps: seq<Step>, h: nat)
    requires Legal(Initial(), steps)
    ensures Run(Initial(), steps).Some?
    ensures var s := Run(Initial(), steps).value; h in s.ev.events ==> Known(s, h) && Places(s, h) == 1
  {
    InitialInv();
    RunKeeps(Initial(), steps);
  }

  // Every callback runs at most once, only after its whole buffer has been
  // transformed, and has run as soon as its event is no longer set.
  lemma CalledOnceWhenDone(steps: seq<Step>, i: nat, n: nat)
    requires Legal(Initial(), steps)
    ensures Run(Initial(), steps).Some?
    ensures var s := Run(Initial(), steps).value;
            && (i < |s.calls| ==>
                  && s.calls[i].cb < |s.submitted|
                  && var sub := s.submitted[s.calls[i].cb];
                     && sub.task.len <= |sub.original|
                     && s.calls[i].content == Xor(sub.original[..sub.task.len]) + sub.original[sub.task.len..]
                     && (forall k :: 0 <= k < sub.task.len ==> s.calls[i].content[k] != sub.original[k])
                     && forall j :: 0 <= j < |s.calls| && s.calls[j].cb == s.calls[i].cb ==> j == i)
            && (n < |s.submitted| && s.ev.events == map[] ==> Called(s.calls, n))
  {
    InitialInv();
    RunKeeps(Initial(), steps);
    var s := Run(Initial(), steps).value;
    if i < |s.calls| {
      assert CallOk(s.submitted, s.calls[i]);
      var sub := s.submitted[s.calls[i].cb];
      NoByteInClear(sub.original[..sub.task.len]);
    }
  }

  // ------------------------------------------------------------------
  // The order of callbacks

  function CallbackOf(events: map<nat, nat>, h: nat): nat {
    if h in events then events[h] else 0
  }

  // Callbacks that have run, then those whose signal is read or in the pipe.
  ghost function Made(s: State): seq<nat> {
    seq(|s.calls|, i requires 0 <= i < |s.calls| => s.calls[i].cb)
  }

  ghost function Due(s: State): seq<nat> {
    (if s.taken.Some? then [CallbackOf(s.ev.events, s.taken.value)] else [])
    + seq(|s.ev.pipe|, i requires 0 <= i < |s.ev.pipe| => CallbackOf(s.ev.events, s.ev.pipe[i]))
  }

  // The callbacks whose events a run signals, in the order of the signals.
  ghost function SignalOf(s: State, step: Step): seq<nat> {
    if step.Signal? then [CallbackOf(s.ev.events, step.t.handle)] else []
  }

  ghost function Signals(s: State, steps: seq<Step>): seq<nat>
    requires Legal(s, steps)
    decreases |steps|
  {
    if steps == [] || !Asserts(s, steps[0]) then []
    else SignalOf(s, steps[0]) + Signals(Apply(s, steps[0]), steps[1..])
  }

  lemma OrderKept(s: State, step: Step)
    requires OnePlace(s) && Enabled(s, step) && Asserts(s, step) && Fresh(s, step)
    ensures var s' := Apply(s, step); Made(s') + Due(s') == Made(s) + Due(s) + SignalOf(s, step)
  {
    var s' := Apply(s, step);
    assert HandlesOk(s);
    match step {
      case Submit(_, _, _) => DueStays(s, s');
      case Signal(t) => SignalOrder(s, t);
      case ReadPipe => ReadOrder(s);
      case Invoke =>
        assert Places(s, s.taken.value) == 1;
        hide OnePlace;
        InvokeOrder(s);
      case _ => DueStays(s, s');
    }
  }

  lemma DueStays(s: State, s': State)
    requires HandlesOk(s) && s'.calls == s.calls && s'.taken == s.taken && s'.ev.pipe == s.ev.pipe
    requires forall h :: h in s.ev.events ==> h in s'.ev.events && s'.ev.events[h] == s.ev.events[h]
    ensures Made(s') == Made(s) && Due(s') == Due(s)
  {
    assert forall i :: 0 <= i < |s.ev.pipe| ==> s.ev.pipe[i] in s.ev.pipe;
  }

  lemma SignalOrder(s: State, t: Task)
    requires Enabled(s, Signal(t))
    ensures var s' := Apply(s, Signal(t)); Made(s') == Made(s) && Due(s') == Due(s) + SignalOf(s, Signal(t))
  {
  }

  lemma ReadOrder(s: State)
    requires Enabled(s, ReadPipe)
    ensures var s' := Apply(s, ReadPipe); Made(s') == Made(s) && Due(s') == Due(s)
  {
  }

  lemma InvokeOrder(s: State)
    requires Enabled(s, Invoke) && Asserts(s, Invoke) && s.taken.value !in s.ev.pipe
    ensures var s' := Apply(s, Invoke); Made(s') + Due(s') == Made(s) + Due(s)
  {
    var s', h := Apply(s, Invoke), s.taken.value;
    assert Made(s') == Made(s) + [s.ev.events[h]];
    assert Due(s) == [s.ev.events[h]] + Due(s') by {
      assert forall i :: 0 <= i < |s.ev.pipe| ==> s.ev.pipe[i] in s.ev.pipe;
    }
  }

  lemma {:induction false} RunOrder(s: State, steps: seq<Step>)
    requires Inv(s) && Legal(s, steps)
    ensures Run(s, steps).Some?
    ensures var s' := Run(s, steps).value; Made(s') + Due(s') == Made(s) + Due(s) + Signals(s, steps)
    decreases |steps|
  {
    hide Enabled, Fresh, Asserts, Apply, Made, Due, SignalOf, OnePlace, BuffersOk, CallsOk;
    if steps != [] {
      StepKeeps(s, steps[0]);
      OrderKept(s, steps[0]);
      RunOrder(Apply(s, steps[0]), steps[1..]);
    }
  }

  // Callbacks run in the order in which their events were signalled, none left
  // out.
  lemma CalledInOrder(steps: seq<Step>)
    requires Legal(Initial(), steps)
    ensures Run(Initial(), steps).Some?
    ensures var s := Run(Initial(), steps).value;
            Made(s) <= Signals(Initial(), steps) && Signals(Initial(), steps) == Made(s) + Due(s)
  {
    hide Inv, Legal, Run, Made, Due, Signals, Initial;
    InitialInv();
    NothingMade();
    RunOrder(Initial(), steps);
    var s := Run(Initial(), steps).value;
    Prefix(Made(s), Due(s), Signals(Initial(), steps));
  }

  lemma NothingMade()
    ensures Made(Initial()) == [] && Due(Initial()) == []
  {
  }

  lemma Prefix(made: seq<nat>, due: seq<nat>, all: seq<nat>)
    requires made + due == [] + [] + all
    ensures made <= all && all == made + due
  {
    assert [] + [] + all == all;
  }

  // ------------------------------------------------------------------
  // Handles that do not come round

  ghost predicate Counts(s: State) {
    && s.ev.counter == |s.submitted| % 0x1_0000_0000
    && forall n :: 0 <= n < |s.submitted| ==> s.submitted[n].task.handle == n % 0x1_0000_0000
  }

  lemma CountsOn(s: State, step: Step)
    requires Counts(s) && Enabled(s, step) && Asserts(s, step)
    ensures Counts(Apply(s, step))
  {
  }

  function Submissions(steps: seq<Step>): nat {
    if steps == [] then 0 else One(steps[0].Submit?) + Submissions(steps[1..])
  }

  // A run that leaves it open whether handles are in use.
  ghost predicate Possible(s: State, steps: seq<Step>)
    decreases |steps|
  {
    steps == [] || (Enabled(s, steps[0]) && (Asserts(s, steps[0]) ==> Possible(Apply(s, steps[0]), steps[1..])))
  }

  lemma FreshSoFar(s: State, step: Step)
    requires OnePlace(s) && Counts(s) && (step.Submit? ==> |s.submitted| < 0x1_0000_0000)
    ensures Fresh(s, step)
  {
    assert forall h :: h in s.ev.events ==> Known(s, h);
  }

  lemma {:induction false} LegalSoFar(s: State, steps: seq<Step>)
    requires Inv(s) && Counts(s) && Possible(s, steps) && |s.submitted| + Submissions(steps) <= 0x1_0000_0000
    ensures Legal(s, steps)
    decreases |steps|
  {
    hide Enabled, Asserts, OnePlace, BuffersOk, CallsOk, Fresh, Counts;
    if steps != [] {
      FreshSoFar(s, steps[0]);
      StepKeeps(s, steps[0]);
      CountsOn(s, steps[0]);
      LegalSoFar(Apply(s, steps[0]), steps[1..]);
    }
  }

  // No event's handle is in use when it is set, in any run of at most 2^32
  // submissions.
  lemma NoCollision(steps: seq<Step>)
    requires Possible(Initial(), steps) && Submissions(steps) <= 0x1_0000_0000
    ensures Legal(Initial(), steps)
  {
    InitialInv();
    LegalSoFar(Initial(), steps);
  }

  // ------------------------------------------------------------------
  // Handles that come round again

  // Setting an event is right exactly while its handle is not in use; else it
  // drops a callback for good.
  lemma SetEventIff(s: State, buff: nat, data: Data, len: nat)
    requires Inv(s) && Enabled(s, Submit(buff, data, len))
    ensures Inv(Apply(s, Submit(buff, data, len))) <==> s.ev.counter !in s.ev.events
  {
    if s.ev.counter in s.ev.events {
      CallbackLost(s, buff, data, len);
    } else {
      StepKeeps(s, Submit(buff, data, len));
    }
  }

  lemma CallbackLost(s: State, buff: nat, data: Data, len: nat)
    requires Inv(s) && Enabled(s, Submit(buff, data, len)) && s.ev.counter in s.ev.events
    ensures var s', n := Apply(s, Submit(buff, data, len)), s.ev.events[s.ev.counter];
            n < |s'.submitted| && !Called(s'.calls, n) && !Outstanding(s', n)
  {
    var n := s.ev.events[s.ev.counter];
    assert Known(s, s.ev.counter) && Outstanding(s, n);
    assert forall h :: h in s.ev.events && s.ev.events[h] == n ==> Known(s, h) && h == s.ev.counter;
  }

  // One task is stuck in the queue while k - 1 others have come and gone.
  ghost predicate Stuck(s: State, k: nat) {
    && s.ev == Eventing(k % EVENT_HANDLES, map[0 := 0], [])
    && s.created == {} && s.queued == {Task(0, 0, 0)} && s.working == map[] && s.taken == None
    && |s.submitted| >= 1 && s.submitted[0].task == Task(0, 0, 0)
  }

  lemma {:induction false} OneMore(s: State, steps: seq<Step>, step: Step)
    requires Legal(s, steps) && Run(s, steps).Some?
    requires Enabled(Run(s, steps).value, step) && Fresh(Run(s, steps).value, step) && Asserts(Run(s, steps).value, step)
    ensures Legal(s, steps + [step]) && Run(s, steps + [step]) == Some(Apply(Run(s, steps).value, step))
    decreases |steps|
  {
    hide Enabled, Fresh, Asserts, Apply;
    if steps == [] {
      assert steps + [step] == [step];
      assert [step][1..] == [];
    } else {
      assert (steps + [step])[1..] == steps[1..] + [step];
      OneMore(Apply(s, steps[0]), steps[1..], step);
    }
  }

  ghost predicate Reached(steps: seq<Step>, s: State) {
    Legal(Initial(), steps) && Run(Initial(), steps) == Some(s) && Inv(s)
  }

  lemma Go(s: State, steps: seq<Step>, step: Step) returns (s': State, steps': seq<Step>)
    requires Reached(steps, s) && Enabled(s, step) && Fresh(s, step)
    ensures Asserts(s, step) && s' == Apply(s, step) && Reached(steps', s')
  {
    StepKeeps(s, step);
    OneMore(Initial(), steps, step);
    s', steps' := Apply(s, step), steps + [step];
  }

  // A task comes and goes, whatever its length (none, here).
  lemma ComesAndGoes(s: State, steps: seq<Step>, k: nat) returns (s': State, steps': seq<Step>)
    requires Reached(steps, s) && Stuck(s, k) && k % EVENT_HANDLES != 0
    ensures Reached(steps', s') && Stuck(s', k + 1)
  {
    hide Reached;
    var h := k % EVENT_HANDLES;
    var t := Task(h, 1, 0);
    assert (h + 1) % EVENT_HANDLES == (k + 1) % EVENT_HANDLES;
    s', steps' := Go(s, steps, Submit(1, [], 0));
    assert s'.created == {t};
    s', steps' := Go(s', steps', AddTask(t));
    assert s'.created == {} && s'.queued == {Task(0, 0, 0), t};
    s', steps' := GoesOn(s', steps', t);
  }

  lemma GoesOn(s: State, steps: seq<Step>, t: Task) returns (s': State, steps': seq<Step>)
    requires Reached(steps, s) && t.len == 0 && t.handle != 0
    requires s.created == {} && s.queued == {Task(0, 0, 0), t} && s.working == map[] && s.taken == None && s.ev.pipe == []
    requires 0 in s.ev.events && t.handle in s.ev.events && s.ev.events.Keys == {0, t.handle}
    ensures Reached(steps', s')
    ensures s'.created == {} && s'.queued == {Task(0, 0, 0)} && s'.working == map[] && s'.taken == None
    ensures s'.ev == Eventing(s.ev.counter, map[0 := s.ev.events[0]], []) && s'.submitted == s.submitted
  {
    hide Reached;
    s', steps' := Go(s, steps, Begin(t));
    assert s'.queued == {Task(0, 0, 0)} && s'.working == map[t := 0];
    s', steps' := Go(s', steps', Signal(t));
    assert s'.working == map[] && s'.ev.pipe == [t.handle];
    s', steps' := Go(s', steps', ReadPipe);
    assert s'.ev.pipe == [] && s'.taken == Some(t.handle);
    s', steps' := Go(s', steps', Invoke);
    assert s'.ev.events == map[0 := s.ev.events[0]];
  }

  lemma GetsStuck() returns (s: State, steps: seq<Step>)
    ensures Reached(steps, s) && Stuck(s, 1)
  {
    s, steps := Initial(), [];
    InitialInv();
    hide Inv;
    assert Reached(steps, s);
    hide Reached;
    s, steps := Go(s, steps, Submit(0, [], 0));
    s, steps := Go(s, steps, AddTask(Task(0, 0, 0)));
  }

  lemma {:induction false} Keeps(k: nat) returns (s: State, steps: seq<Step>)
    requires 1 <= k <= EVENT_HANDLES
    ensures Reached(steps, s) && Stuck(s, k)
    decreases k
  {
    hide Reached, Stuck;
    if k == 1 {
      s, steps := GetsStuck();
    } else {
      s, steps := Keeps(k - 1);
      s, steps := ComesAndGoes(s, steps, k - 1);
    }
  }

  // Having few events outstanding does not keep handles apart: with a single
  // one outstanding, the next call of SetEvent can drop it.
  lemma CollisionReachable() returns (s: State, steps: seq<Step>)
    ensures Legal(Initial(), steps) && Run(Initial(), steps) == Some(s)
    ensures |s.ev.events| == 1 && s.ev.counter in s.ev.events
    ensures Enabled(s, Submit(1, [], 0)) && !Inv(Apply(s, Submit(1, [], 0)))
  {
    s, steps := Keeps(EVENT_HANDLES);
    SetEventIff(s, 1, [], 0);
  }
}
