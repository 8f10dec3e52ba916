// Resizing the thread pool: framework/thread_pool/thread_pool.cpp.
//
// Workers and the thread that calls SetNum, Start and Stop take turns in any
// order, one atomic step each: an access to the queue, to the thread map
// or to the requested size. Calls of SetNum, Start and Stop do not overlap;
// creating a thread and entering it in the map is one step.
module ThreadPools {
  import opened Timers

  type Tid = nat

  // Tasks by priority: 0 to 2 for those added by users, 4 for cleaning the
  // thread map, 5 for poison.
  datatype Task = Job(priority: nat, job: nat) | CleanTask | PoisonTask

  const HIGH: nat := 2
  const CLEAN_TASK_PRIORITY: nat := 4
  const POISON_TASK_PRIORITY: nat := 5

  function Priority(t: Task): nat {
    match t case Job(p, _) => p case CleanTask => CLEAN_TASK_PRIORITY case PoisonTask => POISON_TASK_PRIORITY
  }

  // Where the calling thread is.
  datatype Caller =
    | Idle
    | Growing(left: nat, target: int)    // threads still to create
    | Poisoning(left: nat, target: int)  // poison still to queue
    | Storing(target: int)
    | Starting(left: nat)

  datatype Pool = Pool(
    should: int,                 // m_numThreadsShouldExist
    tasks: multiset<Task>,       // m_tasks, a max-priority queue
    threads: map<Tid, bool>,     // m_threads with their done flags
    live: set<Tid>,              // threads that have not taken poison
    busy: map<Tid, Task>,        // live threads at work
    dying: set<Tid>,             // poisoned, done flag not set yet
    caller: Caller,
    next: Tid)

  datatype Step =
    | SetNum(n: int)
    | Start
    | CallerStep                       // the call under way goes on
    | CleanByStop
    | Add(job: nat, priority: nat)     // by any thread, at any time
    | Dequeue(t: Tid, task: Task)
    | Finish(t: Tid)
    | MarkDone(t: Tid)

  function New(n: int): Pool {
    Pool(n, multiset{}, map[], {}, map[], {}, Idle, 0)
  }

  ghost predicate Highest(tasks: multiset<Task>, task: Task) {
    task in tasks && forall x :: x in tasks ==> Priority(x) <= Priority(task)
  }

  ghost predicate Enabled(s: Pool, step: Step) {
    match step
    case SetNum(_) => s.caller.Idle?
    case Start => s.caller.Idle? && s.threads == map[]
    case CallerStep => !s.caller.Idle?
    case CleanByStop => s.caller.Idle? && s.should == 0 // Stop has just asked for that size
    case Add(_, p) => p <= HIGH
    case Dequeue(t, task) => t in s.live && t !in s.busy && Highest(s.tasks, task)
    case Finish(t) => t in s.busy
    case MarkDone(t) => t in s.dying
  }

  function AddThread(s: Pool): Pool {
    s.(threads := s.threads[s.next := false], live := s.live + {s.next}, next := s.next + 1)
  }

  function Positive(n: int): nat {
    if n > 0 then n else 0
  }

  // CleanThreadsIfImp: threads that are done leave the map.
  function Cleaned(threads: map<Tid, bool>): map<Tid, bool> {
    map t | t in threads && !threads[t] :: false
  }

  ghost function Apply(s: Pool, step: Step): Pool
    requires Enabled(s, step)
  {
    match step
    case SetNum(n) =>
      if s.threads == map[] then s.(should := n)
      else if n >= s.should then s.(caller := Growing(n - s.should, n))
      else s.(caller := Poisoning(s.should - n, n))
    case Start => s.(caller := Starting(Positive(s.should)))
    case CallerStep => (
      match s.caller
      case Growing(left, n) =>
        if left > 0 then AddThread(s).(caller := Growing(left - 1, n)) else s.(should := n, caller := Idle)
      case Poisoning(left, n) =>
        if left > 0 then s.(tasks := s.tasks + multiset{PoisonTask}, caller := Poisoning(left - 1, n))
        else s.(tasks := s.tasks + multiset{CleanTask}, caller := Storing(n))
      case Storing(n) => s.(should := n, caller := Idle)
      case Starting(left) =>
        if left > 0 then AddThread(s).(caller := Starting(left - 1)) else s.(caller := Idle))
    case CleanByStop => s.(threads := Cleaned(s.threads))
    case Add(job, p) => s.(tasks := s.tasks + multiset{Job(p, job)})
    case Dequeue(t, task) =>
      var s1 := s.(tasks := s.tasks - multiset{task});
      if task.PoisonTask? then s1.(live := s.live - {t}, dying := s.dying + {t})
      else s1.(busy := s.busy[t := task])
    case Finish(t) =>
      var s1 := s.(busy := s.busy - {t});
      if s.busy[t].CleanTask? then s1.(threads := Cleaned(s.threads)) else s1
    case MarkDone(t) => s.(threads := s.threads[t := true], dying := s.dying - {t})
  }

  ghost predicate Legal(s: Pool, steps: seq<Step>)
    decreases |steps|
  {
    steps == [] || (Enabled(s, steps[0]) && Legal(Apply(s, steps[0]), steps[1..]))
  }

  ghost function Run(s: Pool, steps: seq<Step>): Pool
    requires Legal(s, steps)
    decreases |steps|
  {
    if steps == [] then s else Run(Apply(s, steps[0]), steps[1..])
  }

  // ------------------------------------------------------------------
  // The invariant

  function Poison(s: Pool): nat {
    s.tasks[PoisonTask]
  }

  ghost predicate Running(s: Pool) {
    s.threads != map[]
  }

  ghost predicate MapOk(threads: map<Tid, bool>, live: set<Tid>, busy: map<Tid, Task>, dying: set<Tid>, next: Tid) {
    && (forall t :: t in threads ==> t < next)
    && live <= threads.Keys && dying <= threads.Keys && live !! dying
    && (forall t :: t in threads ==> (threads[t] <==> t !in live && t !in dying))
    && busy.Keys <= live
  }

  ghost predicate ThreadsOk(s: Pool) {
    MapOk(s.threads, s.live, s.busy, s.dying, s.next)
  }

  // Live threads minus queued poison: the requested size, and during a call
  // what the call has brought about of it so far, between the old size and the
  // new one. A pool that is not running has neither.
  ghost predicate Counted(s: Pool) {
    var size := |s.live| - Poison(s);
    match s.caller
    case Idle => if Running(s) then size == s.should else size == Poison(s) == 0
    case Growing(left, n) => Running(s) && size == n - left >= s.should
    case Poisoning(left, n) => Running(s) && size == n + left <= s.should
    case Storing(n) => Running(s) && size == n
    case Starting(left) => size == Positive(s.should) - left >= 0 && Poison(s) == 0 && (Running(s) ==> s.should > 0)
  }

  // Nothing but poison has the priority of poison.
  ghost predicate TasksOk(tasks: multiset<Task>) {
    forall x :: x in tasks && x.Job? ==> x.priority <= HIGH
  }

  ghost predicate Inv(s: Pool) {
    ThreadsOk(s) && TasksOk(s.tasks) && Counted(s)
  }

  lemma NewInv(n: int)
    ensures Inv(New(n))
  {
  }

  lemma ThreadsKeep(s: Pool, step: Step)
    requires ThreadsOk(s) && Enabled(s, step)
    ensures ThreadsOk(Apply(s, step))
  {
    AddKeeps(s);
    CleanKeeps(s);
    hide MapOk, AddThread, Cleaned;
    match step
    case Dequeue(t, task) => DequeueKeeps(s, t, task);
    case Finish(t) => FinishKeeps(s, t);
    case MarkDone(t) => MarkKeeps(s, t);
    case _ =>
  }

  lemma AddKeeps(s: Pool)
    requires ThreadsOk(s)
    ensures ThreadsOk(AddThread(s))
  {
  }

  lemma CleanKeeps(s: Pool)
    requires ThreadsOk(s)
    ensures ThreadsOk(s.(threads := Cleaned(s.threads)))
  {
  }

  lemma DequeueKeeps(s: Pool, t: Tid, task: Task)
    requires ThreadsOk(s) && Enabled(s, Dequeue(t, task))
    ensures ThreadsOk(Apply(s, Dequeue(t, task)))
  {
    hide Highest;
  }

  lemma FinishKeeps(s: Pool, t: Tid)
    requires ThreadsOk(s) && Enabled(s, Finish(t))
    ensures ThreadsOk(Apply(s, Finish(t)))
  {
  }

  lemma MarkKeeps(s: Pool, t: Tid)
    requires ThreadsOk(s) && Enabled(s, MarkDone(t))
    ensures ThreadsOk(Apply(s, MarkDone(t)))
  {
  }

  lemma TasksKeep(s: Pool, step: Step)
    requires TasksOk(s.tasks) && Enabled(s, step)
    ensures TasksOk(Apply(s, step).tasks)
  {
  }

  // The pool never loses its last thread while a call is under way or while
  // workers run: the one that cleans is not done itself.
  lemma StaysRunning(s: Pool, step: Step)
    requires ThreadsOk(s) && Enabled(s, step) && Running(s) && !step.CleanByStop?
    ensures Running(Apply(s, step))
  {
    match step {
      case Finish(t) => assert t in Apply(s, step).threads;
      case CallerStep => assert s.next in AddThread(s).threads;
      case MarkDone(t) => assert t in Apply(s, step).threads;
      case _ =>
    }
  }

  // Poison is taken before anything else.
  lemma DequeueCounts(s: Pool, t: Tid, task: Task)
    requires TasksOk(s.tasks) && Enabled(s, Dequeue(t, task))
    ensures task.PoisonTask? <==> Poison(s) > 0
    ensures var s' := Apply(s, Dequeue(t, task));
            if task.PoisonTask? then Poison(s') == Poison(s) - 1 && |s'.live| == |s.live| - 1
            else Poison(s') == Poison(s) && s'.live == s.live
  {
    assert PoisonTask in s.tasks ==> Priority(PoisonTask) <= Priority(task);
  }

  lemma CallerCounts(s: Pool)
    requires Inv(s) && !s.caller.Idle?
    ensures Counted(Apply(s, CallerStep))
  {
    if Running(s) {
      StaysRunning(s, CallerStep);
    }
    assert s.next !in s.live;
    assert s.threads == map[] ==> s.live == {};
    hide ThreadsOk, TasksOk;
    if s.caller.Starting? && s.caller.left > 0 {
      assert s.next in Apply(s, CallerStep).threads;
    }
  }

  // Stop cleans the map: a thread that has not taken poison stays in it, and
  // so does the count.
  lemma CleanCounts(s: Pool)
    requires Inv(s) && Enabled(s, CleanByStop)
    ensures Counted(Apply(s, CleanByStop))
  {
    var s' := Apply(s, CleanByStop);
    if s'.threads == map[] && Running(s) {
      assert forall t :: t in s.live ==> t in s'.threads;
      assert s.live == {};
    }
  }

  lemma WorkerCounts(s: Pool, step: Step)
    requires Inv(s) && Enabled(s, step) && (step.Add? || step.Dequeue? || step.Finish? || step.MarkDone?)
    ensures Counted(Apply(s, step))
  {
    StoppedStays(s, step);
    if s.threads != map[] {
      StaysRunning(s, step);
    }
    if step.Dequeue? {
      DequeueCounts(s, step.t, step.task);
    }
    hide ThreadsOk, TasksOk, Counted, Enabled, Highest;
    CountMoves(s, Apply(s, step));
  }

  // A thread and its poison leave the count together.
  lemma CountMoves(s: Pool, s': Pool)
    requires Counted(s) && s'.caller == s.caller && s'.should == s.should && (Running(s') <==> Running(s))
    requires |s'.live| - Poison(s') == |s.live| - Poison(s) && Poison(s') <= Poison(s)
    ensures Counted(s')
  {
    hide Running;
  }

  lemma CountKeeps(s: Pool, step: Step)
    requires Inv(s) && Enabled(s, step)
    ensures Counted(Apply(s, step))
  {
    match step
    case SetNum(_) =>
    case Start =>
    case CallerStep => CallerCounts(s);
    case CleanByStop => CleanCounts(s);
    case _ => WorkerCounts(s, step);
  }

  // Every step of callers and workers keeps the accounting, whatever sizes the
  // pool is given.
  lemma StepKeeps(s: Pool, step: Step)
    requires Inv(s) && Enabled(s, step)
    ensures Inv(Apply(s, step))
  {
    CountKeeps(s, step);
    hide Counted, Enabled;
    ThreadsKeep(s, step);
    TasksKeep(s, step);
    hide ThreadsOk, TasksOk;
  }

  lemma StoppedStays(s: Pool, step: Step)
    requires ThreadsOk(s) && Enabled(s, step) && !step.CallerStep?
    ensures Running(Apply(s, step)) ==> Running(s)
  {
    assert step.Dequeue? || step.Finish? || step.MarkDone? ==> Running(s);
    assert !Running(s) ==> Cleaned(s.threads) == map[];
  }

  lemma {:induction false} RunKeeps(s: Pool, steps: seq<Step>)
    requires Inv(s) && Legal(s, steps)
    ensures Inv(Run(s, steps))
    decreases |steps|
  {
    hide Inv, Enabled;
    if steps != [] {
      StepKeeps(s, steps[0]);
      RunKeeps(Apply(s, steps[0]), steps[1..]);
    }
  }

  // ------------------------------------------------------------------
  // Results over whole runs

  // Between calls, whatever the workers have done so far and whatever sizes
  // were given: a pool that runs has as many threads, less those about to end,
  // as were asked for; one that does not has neither threads nor poison.
  lemma SizeConserved(n: int, steps: seq<Step>)
    requires Legal(New(n), steps)
    ensures var s := Run(New(n), steps);
            s.caller.Idle? ==>
              if Running(s) then |s.live| - Poison(s) == s.should else s.live == {} && Poison(s) == 0
  {
    NewInv(n);
    RunKeeps(New(n), steps);
  }

  ghost predicate ByWorkers(steps: seq<Step>) {
    forall step :: step in steps ==> step.Add? || step.Dequeue? || step.Finish? || step.MarkDone?
  }

  function Dequeues(steps: seq<Step>): nat {
    if steps == [] then 0 else (if steps[0].Dequeue? then 1 else 0) + Dequeues(steps[1..])
  }

  function Min(a: nat, b: nat): nat {
    if a < b then a else b
  }

  // Of all that workers take from the queue, the poison comes first, whatever
  // else is added meanwhile: each of the first Poison(s) dequeues ends a
  // thread, and none after them does.
  lemma {:induction false} PoisonFirst(s: Pool, steps: seq<Step>)
    requires Inv(s) && Legal(s, steps) && ByWorkers(steps)
    ensures var s', d := Run(s, steps), Min(Dequeues(steps), Poison(s));
            && Inv(s') && s'.caller == s.caller && s'.should == s.should
            && Poison(s') == Poison(s) - d && |s'.live| == |s.live| - d
    decreases |steps|
  {
    hide Inv, Enabled, Highest;
    if steps != [] {
      assert steps[0] in steps;
      StepKeeps(s, steps[0]);
      WorkerStep(s, steps[0]);
      PoisonFirst(Apply(s, steps[0]), steps[1..]);
    }
  }

  lemma WorkerStep(s: Pool, step: Step)
    requires Inv(s) && Enabled(s, step) && ByWorkers([step])
    ensures var s', d := Apply(s, step), Min(Dequeues([step]), Poison(s));
            s'.caller == s.caller && s'.should == s.should && Poison(s') == Poison(s) - d && |s'.live| == |s.live| - d
    ensures Dequeues([step]) == if step.Dequeue? then 1 else 0
  {
    assert step in [step];
    assert Dequeues([step]) == (if step.Dequeue? then 1 else 0) + Dequeues([]);
    if step.Dequeue? {
      DequeueCounts(s, step.t, step.task);
    }
  }

  // So the pool settles: once workers have taken as much poison as there are
  // threads to take it, exactly the requested number of threads is left, for
  // good. If that is negative, it is none, and poison is left over.
  lemma Settles(s: Pool, steps: seq<Step>)
    requires Inv(s) && s.caller.Idle? && Running(s) && Legal(s, steps) && ByWorkers(steps)
    requires Dequeues(steps) >= Min(Poison(s), |s.live|)
    ensures |Run(s, steps).live| == Positive(s.should) && Poison(Run(s, steps)) == Positive(-s.should)
  {
    PoisonFirst(s, steps);
  }

  function Target(s: Pool): int {
    match s.caller
    case Growing(_, n) => n
    case Poisoning(_, n) => n
    case Storing(n) => n
    case _ => s.should
  }

  // Between calls there is a thread for every poison task of a running pool
  // exactly if its size is not negative; nor is there one too few during a
  // call from one such size to another.
  lemma PoisonIsTaken(n: int, steps: seq<Step>)
    requires Legal(New(n), steps)
    ensures var s := Run(New(n), steps);
            && (s.caller.Idle? && Running(s) ==> (Poison(s) <= |s.live| <==> s.should >= 0))
            && (!Running(s) || (s.should >= 0 && Target(s) >= 0) ==> Poison(s) <= |s.live|)
  {
    NewInv(n);
    RunKeeps(New(n), steps);
  }

  // ------------------------------------------------------------------
  // Cleaning

  // A cleaning task that ends takes exactly the threads that are done out of
  // the map; no other task touches it.
  lemma FinishCleans(s: Pool, t: Tid, x: Tid)
    requires Enabled(s, Finish(t))
    ensures var s' := Apply(s, Finish(t));
            && (x in s'.threads <==> x in s.threads && (s.busy[t] == CleanTask ==> !s.threads[x]))
            && (x in s'.threads ==> s'.threads[x] == s.threads[x])
  {
  }

  lemma StopCleans(s: Pool, x: Tid)
    requires Enabled(s, CleanByStop)
    ensures x in Apply(s, CleanByStop).threads <==> x in s.threads && !s.threads[x]
  {
  }

  // In any run, a cleaning task that ends while no poisoned thread is still to
  // be marked leaves in the map just the threads that go on; once all poison
  // is taken these are as many as were asked for.
  lemma CleanedUp(n: int, steps: seq<Step>, t: Tid)
    requires Legal(New(n), steps) && Enabled(Run(New(n), steps), Finish(t))
    requires var s := Run(New(n), steps); s.busy[t] == CleanTask && s.dying == {}
    ensures var s' := Apply(Run(New(n), steps), Finish(t));
            && s'.threads.Keys == s'.live
            && (s'.caller.Idle? && Poison(s') == 0 ==> |s'.threads| == s'.should)
  {
    NewInv(n);
    RunKeeps(New(n), steps);
    var s := Run(New(n), steps);
    var s' := Apply(s, Finish(t));
    forall x ensures x in s'.threads <==> x in s.live {
      FinishCleans(s, t, x);
    }
    assert |s'.threads| == |s'.threads.Keys|;
    assert t in s'.threads;
  }

  // Cleaning tasks queued or at work.
  ghost function CleanWork(s: Pool): nat {
    s.tasks[CleanTask] + |Cleaning(s.busy)|
  }

  ghost function Cleaning(busy: map<Tid, Task>): set<Tid> {
    set t | t in busy && busy[t] == CleanTask
  }

  function One(b: bool): nat {
    if b then 1 else 0
  }

  ghost predicate EndsCleaning(s: Pool, step: Step) {
    step.Finish? && step.t in s.busy && s.busy[step.t] == CleanTask
  }

  ghost predicate Shrinks(s: Pool, step: Step) {
    step.SetNum? && Running(s) && step.n < s.should
  }

  ghost function CleansEnded(s: Pool, steps: seq<Step>): nat
    requires Legal(s, steps)
    decreases |steps|
  {
    if steps == [] then 0 else One(EndsCleaning(s, steps[0])) + CleansEnded(Apply(s, steps[0]), steps[1..])
  }

  ghost function ShrinksAsked(s: Pool, steps: seq<Step>): nat
    requires Legal(s, steps)
    decreases |steps|
  {
    if steps == [] then 0 else One(Shrinks(s, steps[0])) + ShrinksAsked(Apply(s, steps[0]), steps[1..])
  }

  lemma CleanStep(s: Pool, step: Step)
    requires Enabled(s, step)
    ensures var s' := Apply(s, step);
            CleanWork(s') + One(EndsCleaning(s, step)) + One(s'.caller.Poisoning?) ==
            CleanWork(s) + One(Shrinks(s, step)) + One(s.caller.Poisoning?)
  {
    if step.Dequeue? {
      TakenTask(s.tasks, step.task);
    }
    hide Highest, Cleaned, Cleaning;
    match step
    case Dequeue(t, task) => CleaningMore(s.busy, t, task);
    case Finish(t) => CleaningLess(s.busy, t);
    case _ =>
  }

  lemma TakenTask(tasks: multiset<Task>, task: Task)
    requires task in tasks
    ensures (tasks - multiset{task})[CleanTask] + One(task == CleanTask) == tasks[CleanTask]
  {
  }

  lemma CleaningMore(busy: map<Tid, Task>, t: Tid, task: Task)
    requires t !in busy
    ensures |Cleaning(busy[t := task])| == |Cleaning(busy)| + One(task == CleanTask)
  {
    assert Cleaning(busy[t := task]) == if task == CleanTask then Cleaning(busy) + {t} else Cleaning(busy);
  }

  lemma CleaningLess(busy: map<Tid, Task>, t: Tid)
    requires t in busy
    ensures |Cleaning(busy - {t})| + One(busy[t] == CleanTask) == |Cleaning(busy)|
  {
    assert Cleaning(busy - {t}) == Cleaning(busy) - {t};
  }

  // Every shrink is cleaned up after exactly once: in any run the cleaning
  // tasks that have ended, are at work, are queued or are still to be queued by
  // the call under way are as many as the calls that made a running pool
  // smaller.
  lemma {:induction false} EveryShrinkCleans(s: Pool, steps: seq<Step>)
    requires Legal(s, steps)
    ensures var s' := Run(s, steps);
            CleansEnded(s, steps) + CleanWork(s') + One(s'.caller.Poisoning?) ==
            CleanWork(s) + One(s.caller.Poisoning?) + ShrinksAsked(s, steps)
    decreases |steps|
  {
    hide Enabled, Apply, CleanWork, EndsCleaning, Shrinks;
    if steps != [] {
      CleanStep(s, steps[0]);
      EveryShrinkCleans(Apply(s, steps[0]), steps[1..]);
    }
  }

  // With the poison taken, cleaning comes before all tasks of users.
  lemma CleaningFirst(s: Pool, t: Tid, task: Task)
    requires Inv(s) && Enabled(s, Dequeue(t, task)) && CleanTask in s.tasks && Poison(s) == 0
    ensures task == CleanTask
  {
    assert Priority(CleanTask) <= Priority(task);
  }

  // ------------------------------------------------------------------
  // Stopping

  // Stop asks for size 0, cleans the map once and then waits for it to be
  // empty. That is the case at once, exactly if all threads are done by then,
  // or never: no worker ever removes the last entry.
  lemma {:induction false} StopAnswers(s: Pool, steps: seq<Step>)
    requires Inv(s) && Enabled(s, CleanByStop) && Legal(Apply(s, CleanByStop), steps) && ByWorkers(steps)
    ensures Running(Run(Apply(s, CleanByStop), steps)) <==> exists t :: t in s.threads && !s.threads[t]
  {
    hide ThreadsOk;
    var s1 := Apply(s, CleanByStop);
    StepKeeps(s, CleanByStop);
    if t :| t in s.threads && !s.threads[t] {
      assert t in s1.threads;
    }
    StillRunning(s1, steps);
  }

  // A whole call of Stop: the pool is asked for size 0 while workers go on,
  // cleaned once, and watched while workers go on. The call succeeds exactly if
  // all threads were done when it cleaned, however long it waits; then nothing
  // is left of the pool.
  lemma StopOutcome(s: Pool, asking: seq<Step>, waiting: seq<Step>)
    requires Inv(s) && s.caller.Idle?
    requires Legal(Apply(s, SetNum(0)), asking) && forall step :: step in asking ==> !step.SetNum? && !step.CleanByStop?
    requires Run(Apply(s, SetNum(0)), asking).caller.Idle?
    requires var t := Run(Apply(s, SetNum(0)), asking);
             Enabled(t, CleanByStop) ==> Legal(Apply(t, CleanByStop), waiting) && ByWorkers(waiting)
    ensures Enabled(Run(Apply(s, SetNum(0)), asking), CleanByStop)
    ensures var t := Run(Apply(s, SetNum(0)), asking);
            var u := Run(Apply(t, CleanByStop), waiting);
            && (!Running(u) <==> forall tid :: tid in t.threads ==> t.threads[tid])
            && (!Running(u) ==> u.live == {} && Poison(u) == 0)
  {
    StepKeeps(s, SetNum(0));
    RunKeeps(Apply(s, SetNum(0)), asking);
    StillNone(Apply(s, SetNum(0)), asking);
    var t := Run(Apply(s, SetNum(0)), asking);
    StopAnswers(t, waiting);
    StepKeeps(t, CleanByStop);
    PoisonFirst(Apply(t, CleanByStop), waiting);
    if !Running(Run(Apply(t, CleanByStop), waiting)) {
      Emptied(Run(Apply(t, CleanByStop), waiting));
    }
  }

  lemma Emptied(s: Pool)
    requires Inv(s) && s.caller.Idle? && !Running(s)
    ensures s.live == {} && Poison(s) == 0
  {
  }

  // The size asked for is 0, or will be when the call under way returns.
  ghost predicate AsksForNone(s: Pool) {
    Target(s) == 0
  }

  lemma OneStillNone(s: Pool, step: Step)
    requires Enabled(s, step) && !step.SetNum? && AsksForNone(s)
    ensures AsksForNone(Apply(s, step))
  {
    hide Highest, Cleaned;
  }

  lemma {:induction false} StillNone(s: Pool, steps: seq<Step>)
    requires Legal(s, steps) && AsksForNone(s) && forall step :: step in steps ==> !step.SetNum?
    ensures AsksForNone(Run(s, steps))
    decreases |steps|
  {
    if steps != [] {
      assert steps[0] in steps;
      OneStillNone(s, steps[0]);
      hide Enabled, Apply, AsksForNone;
      StillNone(Apply(s, steps[0]), steps[1..]);
    }
  }

  lemma {:induction false} StillRunning(s: Pool, steps: seq<Step>)
    requires Inv(s) && Legal(s, steps) && ByWorkers(steps)
    ensures Running(Run(s, steps)) <==> Running(s)
    decreases |steps|
  {
    hide Inv, Enabled, Running;
    if steps != [] {
      assert steps[0] in steps;
      StepKeeps(s, steps[0]);
      RunningKept(s, steps[0]);
      StillRunning(Apply(s, steps[0]), steps[1..]);
    }
  }

  lemma RunningKept(s: Pool, step: Step)
    requires Inv(s) && Enabled(s, step) && ByWorkers([step])
    ensures Running(Apply(s, step)) <==> Running(s)
  {
    assert step in [step];
    if s.threads == map[] {
      assert step.Add?;
    } else {
      StaysRunning(s, step);
    }
  }

  lemma {:induction false} OneMore(s: Pool, steps: seq<Step>, step: Step)
    requires Legal(s, steps) && Enabled(Run(s, steps), step)
    ensures Legal(s, steps + [step]) && Run(s, steps + [step]) == Apply(Run(s, steps), step)
    decreases |steps|
  {
    hide Enabled;
    if steps == [] {
      assert steps + [step] == [step];
      assert [step][1..] == [];
    } else {
      assert (steps + [step])[1..] == steps[1..] + [step];
      OneMore(Apply(s, steps[0]), steps[1..], step);
    }
  }

  // ------------------------------------------------------------------
  // The code of the calls, and of the steps that workers take: each is a run
  // of the machine above.

  class ThreadPool {
    var numThreadsShouldExist: int
    var tasks: multiset<Task>
    var threads: map<Tid, bool>
    var next: Tid
    ghost var live: set<Tid>
    ghost var busy: map<Tid, Task>
    ghost var dying: set<Tid>

    ghost function At(caller: Caller): Pool
      reads this
    {
      Pool(numThreadsShouldExist, tasks, threads, live, busy, dying, caller, next)
    }

    constructor (numThreads: int)
      ensures At(Idle) == New(numThreads)
    {
      numThreadsShouldExist, tasks, threads, next := numThreads, multiset{}, map[], 0;
      live, busy, dying := {}, map[], {};
    }

    method AddThreadImp()
      modifies this
      ensures forall c :: At(c) == AddThread(old(At(c)))
    {
      threads := threads[next := false];
      live := live + {next};
      next := next + 1;
    }

    method AddTaskImp(task: Task)
      modifies this`tasks
      ensures tasks == old(tasks) + multiset{task}
    {
      tasks := tasks + multiset{task};
    }

    // The first loop of SetNum.
    method Grow(difference: int, n: int, ghost was: Pool, ghost before: seq<Step>) returns (ghost steps: seq<Step>)
      requires difference >= 0 && Inv(At(Growing(difference, n)))
      requires Reached(was, Step.SetNum(n), before, At(Growing(difference, n)))
      modifies this
      ensures Inv(At(Growing(0, n))) && Reached(was, Step.SetNum(n), steps, At(Growing(0, n)))
      ensures numThreadsShouldExist == old(numThreadsShouldExist) && tasks == old(tasks)
      ensures |live| == |old(live)| + difference && (difference == 0 ==> threads == old(threads))
    {
      hide Reached, Inv, Apply;
      var left := difference;
      steps := before;
      while left > 0
        invariant 0 <= left <= difference && |live| == |old(live)| + difference - left
        invariant numThreadsShouldExist == old(numThreadsShouldExist) && tasks == old(tasks)
        invariant left == difference ==> threads == old(threads)
        invariant Inv(At(Growing(left, n))) && Reached(was, Step.SetNum(n), steps, At(Growing(left, n)))
      {
        steps := GrowOne(was, Step.SetNum(n), steps, At(Growing(left, n)), left - 1, n);
        AddThreadImp();
        left := left - 1;
      }
    }

    // The second one.
    method Shrink(difference: int, n: int, ghost was: Pool, ghost before: seq<Step>) returns (ghost steps: seq<Step>)
      requires difference <= 0 && Inv(At(Poisoning(-difference, n)))
      requires Reached(was, Step.SetNum(n), before, At(Poisoning(-difference, n)))
      modifies this`tasks
      ensures Inv(At(Poisoning(0, n))) && Reached(was, Step.SetNum(n), steps, At(Poisoning(0, n)))
      ensures tasks[PoisonTask] == old(tasks[PoisonTask]) - difference && tasks[CleanTask] == old(tasks[CleanTask])
    {
      hide Reached, Inv, Apply;
      var left := difference;
      steps := before;
      while left < 0
        invariant difference <= left <= 0 && tasks[PoisonTask] == old(tasks[PoisonTask]) + left - difference
        invariant tasks[CleanTask] == old(tasks[CleanTask])
        invariant Inv(At(Poisoning(-left, n))) && Reached(was, Step.SetNum(n), steps, At(Poisoning(-left, n)))
      {
        steps := PoisonOne(was, Step.SetNum(n), steps, At(Poisoning(-left, n)), -left - 1, n);
        AddTaskImp(PoisonTask);
        left := left + 1;
      }
    }

    method SetNum(n: int) returns (ghost steps: seq<Step>)
      requires Inv(At(Idle))
      modifies this
      ensures Reached(old(At(Idle)), Step.SetNum(n), steps, At(Idle)) && numThreadsShouldExist == n
      ensures Inv(At(Idle))
      ensures old(threads) == map[] ==> threads == map[] && tasks == old(tasks)
      ensures old(threads) != map[] ==>
                && Poison(At(Idle)) == Poison(old(At(Idle))) + Positive(old(numThreadsShouldExist) - n)
                && |live| == |old(live)| + Positive(n - old(numThreadsShouldExist))
                && tasks[CleanTask] == old(tasks[CleanTask]) + One(n < old(numThreadsShouldExist))
                && (n <= old(numThreadsShouldExist) ==> threads == old(threads))
    {
      ghost var was := At(Idle);
      steps := Call(was, Step.SetNum(n));
      hide Reached, Inv, Apply;
      if threads == map[] {
        numThreadsShouldExist := n;
        return;
      }
      var difference := n - numThreadsShouldExist;
      if difference >= 0 {
        steps := Grow(difference, n, was, steps);
      } else {
        steps := Shrink(difference, n, was, steps);
        steps := CleanLater(was, Step.SetNum(n), steps, At(Poisoning(0, n)), n);
        AddTaskImp(CleanTask);
      }
      steps := StoreSize(was, Step.SetNum(n), steps, At(if difference >= 0 then Growing(0, n) else Storing(n)), n);
      numThreadsShouldExist := n;
    }

    // Start's assertion is its precondition.
    method Start() returns (ghost steps: seq<Step>)
      requires Inv(At(Idle)) && threads == map[]
      modifies this
      ensures Reached(old(At(Idle)), Step.Start, steps, At(Idle)) && Inv(At(Idle))
      ensures |live| == Positive(numThreadsShouldExist) && numThreadsShouldExist == old(numThreadsShouldExist)
    {
      hide Reached, Inv, Apply, AddThread, Enabled;
      ghost var was := At(Idle);
      steps := CallStart(was);
      ghost var total := Positive(numThreadsShouldExist);
      var i := 0;
      while i < numThreadsShouldExist
        invariant i <= total && numThreadsShouldExist == was.should && |live| == i
        invariant Reached(was, Step.Start, steps, At(Starting(total - i))) && Inv(At(Starting(total - i)))
      {
        steps := StartOne(was, steps, At(Starting(total - i)), total - i - 1);
        AddThreadImp();
        i := i + 1;
      }
      steps := StartEnds(was, steps, At(Starting(0)));
    }

    // CleanThreadsIfImp, with the predicate that is left of both its callers'.
    method CleanThreadsIf()
      requires forall t :: t in threads ==> t < next
      modifies this`threads
      ensures threads == Cleaned(old(threads))
      ensures forall t :: t in threads <==> t in old(threads) && !old(threads)[t]
    {
      for t := 0 to next
        invariant threads == map x | x in old(threads) && (x >= t || !old(threads)[x]) :: old(threads)[x]
      {
        if t in threads && threads[t] {
          threads := threads - {t};
        }
      }
    }

    // One turn of the loop in ThreadActionImp, up to where it runs what it took.
    method Take(t: Tid, task: Task)
      requires Enabled(At(Idle), Dequeue(t, task)) && TasksOk(tasks)
      modifies this
      ensures At(Idle) == Apply(old(At(Idle)), Dequeue(t, task))
    {
      tasks := tasks - multiset{task};
      if Priority(task) == POISON_TASK_PRIORITY {
        live, dying := live - {t}, dying + {t};
      } else {
        busy := busy[t := task];
      }
    }

    // The end of a task, and of a thread.
    method Done(t: Tid, task: Task)
      requires ThreadsOk(At(Idle)) && t in busy && busy[t] == task
      modifies this
      ensures At(Idle) == Apply(old(At(Idle)), Finish(t))
      ensures forall x :: x in threads <==> x in old(threads) && (task == CleanTask ==> !old(threads)[x])
    {
      if task == CleanTask {
        CleanThreadsIf();
      }
      busy := busy - {t};
    }

    method SetThreadDone(t: Tid)
      requires t in dying
      modifies this
      ensures At(Idle) == Apply(old(At(Idle)), MarkDone(t))
    {
      threads := threads[t := true];
      dying := dying - {t};
    }

    // Stop, with no time to wait: it succeeds exactly if every thread had
    // ended when it looked; a running pool of negative size is first given the
    // threads it lacks. By StopAnswers waiting changes nothing.
    method Stop() returns (stopped: bool)
      requires Inv(At(Idle))
      modifies this
      ensures Inv(At(Idle)) && numThreadsShouldExist == 0
      ensures stopped <==>
                && (forall t :: t in old(threads) ==> old(threads)[t])
                && (old(threads) != map[] ==> old(numThreadsShouldExist) >= 0)
      ensures stopped ==> live == {} && tasks[PoisonTask] == 0
    {
      ghost var steps := SetNum(0);
      StepKeeps(At(Idle), CleanByStop);
      CleanThreadsIf();
      stopped := threads == map[];
      if old(numThreadsShouldExist) >= 0 {
        assert forall t :: t in old(threads) && !old(threads)[t] ==> t in threads;
      } else if old(threads) != map[] {
        assert |live| > 0;
        assert forall t :: t in live ==> t in threads;
      }
    }
  }

  // s is where a call that began with a step has come to, undisturbed.
  ghost predicate Reached(was: Pool, first: Step, steps: seq<Step>, s: Pool) {
    && steps != [] && steps[0] == first && (forall i :: 1 <= i < |steps| ==> steps[i] == CallerStep)
    && Legal(was, steps) && Run(was, steps) == s
  }

  lemma Call(was: Pool, step: Step) returns (steps: seq<Step>)
    requires Inv(was) && Enabled(was, step) && !step.CleanByStop?
    ensures Reached(was, step, steps, Apply(was, step)) && Inv(Apply(was, step))
  {
    steps := [step];
    assert steps[1..] == [];
    StepKeeps(was, step);
  }

  lemma Continue(was: Pool, first: Step, before: seq<Step>, s: Pool) returns (steps: seq<Step>)
    requires Reached(was, first, before, s) && Inv(s) && !s.caller.Idle?
    ensures Reached(was, first, steps, Apply(s, CallerStep)) && Inv(Apply(s, CallerStep))
    ensures s.next !in s.live
  {
    steps := before + [CallerStep];
    OneMore(was, before, CallerStep);
    StepKeeps(s, CallerStep);
  }

  // The steps of Start.

  lemma CallStart(was: Pool) returns (steps: seq<Step>)
    requires Inv(was) && was.caller.Idle? && was.threads == map[]
    ensures var s := was.(caller := Starting(Positive(was.should))); Reached(was, Step.Start, steps, s) && Inv(s)
    ensures |was.live| == 0
  {
    steps := Call(was, Step.Start);
  }

  lemma StartOne(was: Pool, before: seq<Step>, s: Pool, left: nat) returns (steps: seq<Step>)
    requires Reached(was, Step.Start, before, s) && Inv(s) && s.caller == Starting(left + 1)
    ensures var s' := AddThread(s).(caller := Starting(left));
            Reached(was, Step.Start, steps, s') && Inv(s') && s'.should == s.should && |s'.live| == |s.live| + 1
  {
    steps := Continue(was, Step.Start, before, s);
  }

  lemma StartEnds(was: Pool, before: seq<Step>, s: Pool) returns (steps: seq<Step>)
    requires Reached(was, Step.Start, before, s) && Inv(s) && s.caller == Starting(0)
    ensures var s' := s.(caller := Idle); Reached(was, Step.Start, steps, s') && Inv(s')
  {
    steps := Continue(was, Step.Start, before, s);
  }

  // The steps of SetNum.

  lemma GrowOne(was: Pool, first: Step, before: seq<Step>, s: Pool, left: nat, n: int) returns (steps: seq<Step>)
    requires Reached(was, first, before, s) && Inv(s) && s.caller == Growing(left + 1, n)
    ensures var s' := AddThread(s).(caller := Growing(left, n)); Reached(was, first, steps, s') && Inv(s')
    ensures s.next !in s.live
  {
    steps := Continue(was, first, before, s);
  }

  lemma PoisonOne(was: Pool, first: Step, before: seq<Step>, s: Pool, left: nat, n: int) returns (steps: seq<Step>)
    requires Reached(was, first, before, s) && Inv(s) && s.caller == Poisoning(left + 1, n)
    ensures var s' := s.(tasks := s.tasks + multiset{PoisonTask}, caller := Poisoning(left, n)); Reached(was, first, steps, s') && Inv(s')
  {
    steps := Continue(was, first, before, s);
  }

  lemma CleanLater(was: Pool, first: Step, before: seq<Step>, s: Pool, n: int) returns (steps: seq<Step>)
    requires Reached(was, first, before, s) && Inv(s) && s.caller == Poisoning(0, n)
    ensures var s' := s.(tasks := s.tasks + multiset{CleanTask}, caller := Storing(n)); Reached(was, first, steps, s') && Inv(s')
  {
    steps := Continue(was, first, before, s);
  }

  lemma StoreSize(was: Pool, first: Step, before: seq<Step>, s: Pool, n: int) returns (steps: seq<Step>)
    requires Reached(was, first, before, s) && Inv(s) && (s.caller == Growing(0, n) || s.caller == Storing(n))
    ensures var s' := s.(should := n, caller := Idle); Reached(was, first, steps, s') && Inv(s')
  {
    steps := Continue(was, first, before, s);
  }
}
