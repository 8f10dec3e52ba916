// The event loop: framework/communication/reactor.cpp. Its table of callbacks
// is changed by the very callbacks it is calling.
module Reactors {
  import opened Timers

  const FD_SETSIZE: nat := 1024

  datatype Usage = READ | WRITE | EXPT
  datatype Key = Key(use: Usage, fd: nat)

  // m_fdFuncs; None is an empty function.
  type Table<F> = map<Key, Option<F>>

  // What a callback may do to the reactor.
  datatype Op<F> =
    | AddOp(fd: int, use: Usage, func: Option<F>)
    | RemOp(fd: int, use: Usage)
    | StopOp

  // What the callback of a descriptor does, given how many ran before it in
  // the round: any behaviour at all is one of these.
  type Behaviour<!F> = (F, Key, nat) -> seq<Op<F>>

  ghost predicate Registered<F>(t: Table<F>, k: Key) {
    k in t && t[k].Some?
  }

  // The table after one operation; None where an assertion fails.
  function AfterOp<F>(t: Table<F>, op: Op<F>): Option<Table<F>> {
    match op
    case AddOp(fd, use, func) => if 0 <= fd < FD_SETSIZE then Some(t[Key(use, fd) := func]) else None
    case RemOp(fd, use) =>
      if 0 <= fd < FD_SETSIZE && Key(use, fd) in t then Some(t[Key(use, fd) := None]) else None
    case StopOp => Some(t)
  }

  function AfterOps<F>(t: Table<F>, ops: seq<Op<F>>): Option<Table<F>>
    decreases |ops|
  {
    if ops == [] then Some(t)
    else match AfterOps(t, ops[..|ops| - 1])
      case None => None
      case Some(t1) => AfterOp(t1, ops[|ops| - 1])
  }

  ghost predicate Names<F>(op: Op<F>, k: Key) {
    match op
    case AddOp(fd, use, _) => fd == k.fd && use == k.use
    case RemOp(fd, use) => fd == k.fd && use == k.use
    case StopOp => false
  }

  // Of all operations on a descriptor the last one counts: its entry is then
  // what was added, or empty.
  lemma {:induction false} LastOpWins<F(!new)>(t: Table<F>, ops: seq<Op<F>>, k: Key, i: nat)
    requires AfterOps(t, ops).Some? && i < |ops| && Names(ops[i], k)
    requires forall j :: i < j < |ops| ==> !Names(ops[j], k)
    ensures var r := AfterOps(t, ops).value; k in r && r[k] == if ops[i].AddOp? then ops[i].func else None
    decreases |ops|
  {
    if i < |ops| - 1 {
      LastOpWins(t, ops[..|ops| - 1], k, i);
    }
  }

  // A descriptor that none of them names keeps its entry.
  lemma {:induction false} OthersKept<F(!new)>(t: Table<F>, ops: seq<Op<F>>, k: Key)
    requires AfterOps(t, ops).Some? && forall j :: 0 <= j < |ops| ==> !Names(ops[j], k)
    ensures var r := AfterOps(t, ops).value; (k in r <==> k in t) && (k in t ==> r[k] == t[k])
    decreases |ops|
  {
    if ops != [] {
      OthersKept(t, ops[..|ops| - 1], k);
    }
  }

  // ------------------------------------------------------------------
  // One round of dispatching

  // The callbacks called, and the tables before, between and after them.
  datatype Log<F> = Log(calls: seq<Key>, tables: seq<Table<F>>)

  // Descriptors are visited by usage, then by number.
  function Rank(use: Usage): nat {
    match use case EXPT => 0 case READ => 1 case WRITE => 2
  }

  function Order(k: Key): nat {
    Rank(k.use) * FD_SETSIZE + k.fd
  }

  ghost predicate Shape<F>(log: Log<F>) {
    |log.tables| == |log.calls| + 1
  }

  // Every call is of a descriptor that select reported ready and that is
  // registered at that moment; the table changes by what callbacks do only.
  ghost predicate Called<F(!new)>(log: Log<F>, ready: set<Key>, behave: Behaviour<F>)
    requires Shape(log)
  {
    forall j :: 0 <= j < |log.calls| ==> CalledAt(log, ready, behave, j)
  }

  ghost predicate CalledAt<F>(log: Log<F>, ready: set<Key>, behave: Behaviour<F>, j: nat)
    requires Shape(log) && j < |log.calls|
  {
    var k := log.calls[j];
    && k in ready && Registered(log.tables[j], k)
    && AfterOps(log.tables[j], behave(log.tables[j][k].value, k, j)) == Some(log.tables[j + 1])
  }

  ghost predicate InOrder(calls: seq<Key>) {
    forall i, j :: 0 <= i < j < |calls| ==> Order(calls[i]) < Order(calls[j])
  }

  // k's turn comes after exactly the first j calls.
  ghost predicate Turn(calls: seq<Key>, j: nat, k: Key) {
    && j <= |calls|
    && (forall i :: 0 <= i < j ==> Order(calls[i]) < Order(k))
    && (forall i :: j <= i < |calls| ==> Order(calls[i]) >= Order(k))
  }

  // Of the descriptors up to a position, those are called that are ready and
  // registered when their turn comes.
  ghost predicate Swept<F>(log: Log<F>, ready: set<Key>, end: nat)
    requires Shape(log)
  {
    && (forall k :: k in log.calls ==> Order(k) < end)
    && (forall k, j: nat :: k in ready && Order(k) < end && Turn(log.calls, j, k) ==>
          (k in log.calls <==> Registered(log.tables[j], k)))
  }

  // A whole round.
  ghost predicate Round<F(!new)>(log: Log<F>, ready: set<Key>, behave: Behaviour<F>) {
    Shape(log) && Called(log, ready, behave) && InOrder(log.calls) && Swept(log, ready, 3 * FD_SETSIZE)
  }

  lemma AtMostOnce<F(!new)>(log: Log<F>, ready: set<Key>, behave: Behaviour<F>, i: nat, j: nat)
    requires Round(log, ready, behave) && i < j < |log.calls|
    ensures log.calls[i] != log.calls[j]
  {
    assert Order(log.calls[i]) < Order(log.calls[j]);
  }

  // Calls are in the order of the three maps, EXPT, READ, WRITE, and within a
  // map in the order of descriptors.
  lemma RoundOrder<F(!new)>(log: Log<F>, ready: set<Key>, behave: Behaviour<F>, i: nat, j: nat)
    requires Round(log, ready, behave) && i < j < |log.calls| && forall k :: k in ready ==> k.fd < FD_SETSIZE
    ensures var a, b := log.calls[i], log.calls[j];
            || (a.use == b.use && a.fd < b.fd)
            || (a.use == EXPT && b.use != EXPT)
            || (a.use == READ && b.use == WRITE)
  {
    assert CalledAt(log, ready, behave, i) && CalledAt(log, ready, behave, j);
  }

  // Every ready descriptor has its turn ...
  lemma {:induction false} HasTurn(calls: seq<Key>, k: Key) returns (j: nat)
    requires InOrder(calls)
    ensures Turn(calls, j, k)
  {
    j := 0;
    while j < |calls| && Order(calls[j]) < Order(k)
      invariant j <= |calls| && forall i :: 0 <= i < j ==> Order(calls[i]) < Order(k)
    {
      j := j + 1;
    }
  }

  // ... so one that stays registered is not skipped, whatever the others do.
  lemma NeverSkipped<F(!new)>(log: Log<F>, ready: set<Key>, behave: Behaviour<F>, k: Key)
    requires Round(log, ready, behave) && k in ready && k.fd < FD_SETSIZE
    requires forall j :: 0 <= j < |log.tables| ==> Registered(log.tables[j], k)
    ensures k in log.calls
  {
    var j := HasTurn(log.calls, k);
  }

  // A round is determined by the table, the ready set and the callbacks: two
  // logs of it are equal.
  lemma RoundUnique<F(!new)>(a: Log<F>, b: Log<F>, ready: set<Key>, behave: Behaviour<F>)
    requires Round(a, ready, behave) && Round(b, ready, behave) && a.tables[0] == b.tables[0]
    requires forall k :: k in ready ==> k.fd < FD_SETSIZE
    ensures a == b
  {
    AgreeUpTo(a, b, ready, behave, |a.calls|);
    AgreeUpTo(b, a, ready, behave, |b.calls|);
  }

  // The first n calls, and the tables around them, are the same.
  ghost predicate Agree<F(!new)>(a: Log<F>, b: Log<F>, n: nat)
    requires Shape(a) && Shape(b)
  {
    && n <= |a.calls| && n <= |b.calls|
    && (forall j :: 0 <= j < n ==> a.calls[j] == b.calls[j])
    && (forall j :: 0 <= j <= n ==> a.tables[j] == b.tables[j])
  }

  lemma {:induction false} AgreeUpTo<F(!new)>(a: Log<F>, b: Log<F>, ready: set<Key>, behave: Behaviour<F>, n: nat)
    requires Round(a, ready, behave) && Round(b, ready, behave) && a.tables[0] == b.tables[0]
    requires forall k :: k in ready ==> k.fd < FD_SETSIZE
    requires n <= |a.calls|
    ensures Agree(a, b, n)
  {
    if n > 0 {
      AgreeUpTo(a, b, ready, behave, n - 1);
      SameCall(a, b, ready, behave, n - 1);
      SameTable(a, b, ready, behave, n - 1);
    }
  }

  lemma SameTable<F(!new)>(a: Log<F>, b: Log<F>, ready: set<Key>, behave: Behaviour<F>, n: nat)
    requires Shape(a) && Shape(b) && Called(a, ready, behave) && Called(b, ready, behave)
    requires n < |a.calls| && n < |b.calls| && a.calls[n] == b.calls[n] && a.tables[n] == b.tables[n]
    ensures a.tables[n + 1] == b.tables[n + 1]
  {
    assert CalledAt(a, ready, behave, n) && CalledAt(b, ready, behave, n);
  }

  // After equal beginnings, a's next call is b's too.
  lemma SameCall<F(!new)>(a: Log<F>, b: Log<F>, ready: set<Key>, behave: Behaviour<F>, n: nat)
    requires Round(a, ready, behave) && Round(b, ready, behave)
    requires forall k :: k in ready ==> k.fd < FD_SETSIZE
    requires n < |a.calls| && Agree(a, b, n)
    ensures n < |b.calls| && a.calls[n] == b.calls[n]
  {
    NotLater(a, b, ready, behave, n);
    NotLater(b, a, ready, behave, n);
    assert CalledAt(a, ready, behave, n) && CalledAt(b, ready, behave, n);
  }

  lemma NotLater<F(!new)>(a: Log<F>, b: Log<F>, ready: set<Key>, behave: Behaviour<F>, n: nat)
    requires Round(a, ready, behave) && Round(b, ready, behave)
    requires forall k :: k in ready ==> k.fd < FD_SETSIZE
    requires n < |a.calls| && Agree(a, b, n)
    ensures n < |b.calls| && Order(b.calls[n]) <= Order(a.calls[n])
  {
    var k := a.calls[n];
    assert CalledAt(a, ready, behave, n);
    if forall i :: n <= i < |b.calls| ==> Order(k) < Order(b.calls[i]) {
      assert Turn(b.calls, n, k);
    } else {
      var i :| n <= i < |b.calls| && Order(b.calls[i]) <= Order(k);
      assert i == n || Order(b.calls[n]) < Order(b.calls[i]);
    }
  }

  // The lowest registered or emptied descriptor from fd on, as std::map's
  // iterator finds it; FD_SETSIZE if there is none.
  function Next<F>(t: Table<F>, use: Usage, fd: nat): (n: nat)
    requires fd <= FD_SETSIZE
    ensures fd <= n <= FD_SETSIZE
    ensures n < FD_SETSIZE ==> Key(use, n) in t
    ensures forall x :: fd <= x < n ==> Key(use, x) !in t
    decreases FD_SETSIZE - fd
  {
    if fd == FD_SETSIZE || Key(use, fd) in t then fd else Next(t, use, fd + 1)
  }

  // The highest descriptor of the map below end; 0 if there is none.
  function Last<F>(t: Table<F>, use: Usage, end: nat): (n: nat)
    ensures n == 0 || Key(use, n) in t
    ensures forall x :: n < x < end ==> Key(use, x) !in t
  {
    if end == 0 then 0 else if Key(use, end - 1) in t then end - 1 else Last(t, use, end - 1)
  }

  ghost function NoCalls<F>(t: Table<F>): Log<F> {
    Log([], [t])
  }

  lemma NotBefore(calls: seq<Key>, j: nat, k: Key)
    requires Turn(calls, j, k) && j < |calls|
    ensures calls[j] in calls && Order(calls[j]) >= Order(k)
  {
  }

  lemma TurnAfterAll(calls: seq<Key>, j: nat, k: Key)
    requires Turn(calls, j, k) && forall c :: c in calls ==> Order(c) < Order(k)
    ensures j == |calls|
  {
    if j < |calls| {
      NotBefore(calls, j, k);
    }
  }

  // A turn that comes no later than the last call is a turn without it.
  lemma TurnBefore(calls: seq<Key>, c: Key, j: nat, k: Key)
    requires Turn(calls + [c], j, k) && Order(k) <= Order(c)
    ensures Turn(calls, j, k)
  {
    var more := calls + [c];
    assert j <= |calls| by {
      assert more[|calls|] == c;
    }
    assert forall i :: 0 <= i < |calls| ==> more[i] == calls[i];
  }

  // What the j-th callback of the round did.
  ghost function OpsAt<F>(log: Log<F>, behave: Behaviour<F>, j: nat): seq<Op<F>>
    requires Shape(log) && j < |log.calls|
  {
    var t, k := log.tables[j], log.calls[j];
    if k in t && t[k].Some? then behave(t[k].value, k, j) else []
  }

  // One of them called Reactor::Stop.
  ghost predicate Stops<F(!new)>(log: Log<F>, behave: Behaviour<F>)
    requires Shape(log)
  {
    exists j :: 0 <= j < |log.calls| && StopOp in OpsAt(log, behave, j)
  }

  lemma StopsMore<F(!new)>(log: Log<F>, behave: Behaviour<F>, k: Key, t: Table<F>)
    requires Shape(log) && Registered(log.tables[|log.calls|], k)
    ensures var more, n := Log(log.calls + [k], log.tables + [t]), |log.calls|;
            Stops(more, behave) <==> Stops(log, behave) || StopOp in behave(log.tables[n][k].value, k, n)
  {
    var more, n := Log(log.calls + [k], log.tables + [t]), |log.calls|;
    assert forall j :: 0 <= j < n ==> OpsAt(more, behave, j) == OpsAt(log, behave, j);
    assert OpsAt(more, behave, n) == behave(log.tables[n][k].value, k, n);
  }

  // The rounds run on a sequence of select's answers, from one table to
  // another: an interrupted call is repeated, and each round's ready set is
  // what select reports of the descriptors then registered.
  ghost predicate Served<F(!new)>(t: Table<F>, answers: seq<Select>, logs: seq<Log<F>>, behave: Behaviour<F>, t': Table<F>)
    decreases |answers|
  {
    if answers == [] then logs == [] && t' == t
    else
      var before := answers[..|answers| - 1];
      match answers[|answers| - 1]
      case Interrupted => Served(t, before, logs, behave, t')
      case Ready(keys) =>
        logs != [] &&
        var log := logs[|logs| - 1];
        && Shape(log) && Served(t, before, logs[..|logs| - 1], behave, log.tables[0])
        && Round(log, keys * log.tables[0].Keys, behave) && t' == Cleaned(log.tables[|log.calls|])
      case _ => false
  }

  // Every round but the last goes on.
  ghost predicate Logged<F(!new)>(logs: seq<Log<F>>, behave: Behaviour<F>) {
    forall r :: 0 <= r < |logs| ==> Shape(logs[r]) && (r < |logs| - 1 ==> !Stops(logs[r], behave))
  }

  ghost predicate Stopped<F(!new)>(logs: seq<Log<F>>, behave: Behaviour<F>) {
    logs != [] && Shape(logs[|logs| - 1]) && Stops(logs[|logs| - 1], behave)
  }

  lemma LoggedMore<F(!new)>(logs: seq<Log<F>>, behave: Behaviour<F>, log: Log<F>)
    requires Logged(logs, behave) && !Stopped(logs, behave) && Shape(log)
    ensures Logged(logs + [log], behave) && (Stopped(logs + [log], behave) <==> Stops(log, behave))
  {
    var more := logs + [log];
    forall r | 0 <= r < |more| ensures Shape(more[r]) && (r < |more| - 1 ==> !Stops(more[r], behave)) {
      assert r < |logs| ==> more[r] == logs[r];
    }
  }

  lemma NothingServed<F(!new)>(t: Table<F>, behave: Behaviour<F>)
    ensures Served(t, [], [], behave, t) && Logged<F>([], behave) && !Stopped<F>([], behave)
  {
  }

  lemma ServedAgain<F(!new)>(t: Table<F>, answers: seq<Select>, i: nat, logs: seq<Log<F>>, behave: Behaviour<F>, t': Table<F>)
    requires i < |answers| && answers[i].Interrupted? && Served(t, answers[..i], logs, behave, t')
    ensures Served(t, answers[..i + 1], logs, behave, t')
  {
    assert answers[..i + 1][..i] == answers[..i];
  }

  lemma ServedRound<F(!new)>(t: Table<F>, answers: seq<Select>, i: nat, logs: seq<Log<F>>, behave: Behaviour<F>,
                             t': Table<F>, log: Log<F>)
    requires i < |answers| && answers[i].Ready? && Served(t, answers[..i], logs, behave, t')
    requires Shape(log) && log.tables[0] == t' && Round(log, answers[i].keys * t'.Keys, behave)
    ensures Served(t, answers[..i + 1], logs + [log], behave, Cleaned(log.tables[|log.calls|]))
  {
    assert answers[..i + 1][..i] == answers[..i];
    assert (logs + [log])[..|logs|] == logs;
  }

  // Passing over descriptors that are not called ...
  lemma Pass<F(!new)>(log: Log<F>, ready: set<Key>, behave: Behaviour<F>, from: nat, end: nat)
    requires Shape(log) && Called(log, ready, behave) && InOrder(log.calls) && Swept(log, ready, from) && from <= end
    requires forall k :: k in ready && from <= Order(k) < end ==> !Registered(log.tables[|log.calls|], k)
    ensures Swept(log, ready, end)
  {
    forall k, j: nat | k in ready && Order(k) < end && Turn(log.calls, j, k)
      ensures k in log.calls <==> Registered(log.tables[j], k)
    {
      if from <= Order(k) {
        TurnAfterAll(log.calls, j, k);
      }
    }
  }

  // ... and calling one.
  lemma OneCall<F(!new)>(log: Log<F>, ready: set<Key>, behave: Behaviour<F>, k: Key, t: Table<F>)
    requires Shape(log) && Called(log, ready, behave) && InOrder(log.calls) && Swept(log, ready, Order(k))
    requires k.fd < FD_SETSIZE && forall x :: x in ready ==> x.fd < FD_SETSIZE
    requires k in ready && Registered(log.tables[|log.calls|], k)
    requires AfterOps(log.tables[|log.calls|], behave(log.tables[|log.calls|][k].value, k, |log.calls|)) == Some(t)
    ensures var more := Log(log.calls + [k], log.tables + [t]);
            Shape(more) && Called(more, ready, behave) && InOrder(more.calls) && Swept(more, ready, Order(k) + 1)
  {
    var more := Log(log.calls + [k], log.tables + [t]);
    var n := |log.calls|;
    forall j | 0 <= j < |more.calls| ensures CalledAt(more, ready, behave, j) {
      assert j < n ==> CalledAt(log, ready, behave, j);
    }
    SweptOne(log, ready, k, t);
  }

  lemma SweptOne<F>(log: Log<F>, ready: set<Key>, k: Key, t: Table<F>)
    requires Shape(log) && InOrder(log.calls) && Swept(log, ready, Order(k))
    requires k.fd < FD_SETSIZE && forall x :: x in ready ==> x.fd < FD_SETSIZE
    requires Registered(log.tables[|log.calls|], k)
    ensures var more := Log(log.calls + [k], log.tables + [t]);
            InOrder(more.calls) && Swept(more, ready, Order(k) + 1)
  {
    var more := Log(log.calls + [k], log.tables + [t]);
    var n := |log.calls|;
    assert forall i :: 0 <= i < n ==> log.calls[i] in log.calls && more.calls[i] == log.calls[i];
    assert InOrder(more.calls);
    hide InOrder;
    forall x, j: nat | x in ready && Order(x) < Order(k) + 1 && Turn(more.calls, j, x)
      ensures x in more.calls <==> Registered(more.tables[j], x)
    {
      TurnBefore(log.calls, k, j, x);
      if x == k {
        TurnAfterAll(log.calls, j, x);
      } else {
        assert Order(x) < Order(k);
        assert x in more.calls <==> x in log.calls;
      }
    }
  }

  // What select answers.
  datatype Select = Ready(keys: set<Key>) | Interrupted | BadFd | OtherError

  class Reactor<F(!new)> {
    var funcs: Table<F>       // m_fdFuncs
    var fdsets: set<Key>      // m_fdsets
    var shouldStop: bool

    ghost predicate Valid()
      reads this
    {
      (forall k :: k in funcs ==> k.fd < FD_SETSIZE) && (forall k :: k in fdsets ==> k.fd < FD_SETSIZE)
    }

    constructor ()
      ensures Valid() && funcs == map[] && fdsets == {} && shouldStop
    {
      funcs, fdsets, shouldStop := map[], {}, true;
    }

    // The last assertion of AddFD never fails: looking the descriptor up
    // inserts an empty function for it.
    method AddFD(fd: int, use: Usage, func: Option<F>) returns (aborts: bool)
      requires Valid()
      modifies this`funcs
      ensures Valid() && aborts == AfterOp(old(funcs), AddOp(fd, use, func)).None?
      ensures funcs == if aborts then old(funcs) else AfterOp(old(funcs), AddOp(fd, use, func)).value
      ensures aborts <==> !(0 <= fd < 1024)
      ensures !aborts ==> Key(use, fd) in funcs && funcs[Key(use, fd)] == func
      ensures forall k: Key :: k.use != use || k.fd != fd ==>
                (k in funcs <==> k in old(funcs)) && (k in funcs ==> funcs[k] == old(funcs)[k])
    {
      if !(0 <= fd < FD_SETSIZE) {
        return true;
      }
      var k := Key(use, fd);
      var found := k in funcs;
      if !found {
        funcs := funcs[k := None];
      }
      assert found || funcs[k].None?;
      funcs := funcs[k := func];
      return false;
    }

    method RemFD(fd: int, use: Usage) returns (aborts: bool)
      requires Valid()
      modifies this`funcs
      ensures Valid() && aborts == AfterOp(old(funcs), RemOp(fd, use)).None?
      ensures funcs == if aborts then old(funcs) else AfterOp(old(funcs), RemOp(fd, use)).value
      ensures aborts <==> !(0 <= fd < 1024 && Key(use, fd) in old(funcs))
      ensures !aborts ==> Key(use, fd) in funcs && !Registered(funcs, Key(use, fd))
      ensures forall k: Key :: k.use != use || k.fd != fd ==>
                (k in funcs <==> k in old(funcs)) && (k in funcs ==> funcs[k] == old(funcs)[k])
    {
      if !(0 <= fd < FD_SETSIZE) || Key(use, fd) !in funcs {
        return true;
      }
      funcs := funcs[Key(use, fd) := None];
      return false;
    }

    // A callback at work.
    method Invoke(ops: seq<Op<F>>) returns (aborts: bool)
      requires Valid()
      modifies this`funcs, this`shouldStop
      ensures Valid() && aborts == AfterOps(old(funcs), ops).None?
      ensures !aborts ==> Some(funcs) == AfterOps(old(funcs), ops) && shouldStop == (old(shouldStop) || StopOp in ops)
    {
      aborts := false;
      var i := 0;
      while i < |ops| && !aborts
        invariant i <= |ops| && Valid()
        invariant aborts == AfterOps(old(funcs), ops[..i]).None?
        invariant !aborts ==> Some(funcs) == AfterOps(old(funcs), ops[..i])
        invariant !aborts ==> shouldStop == (old(shouldStop) || StopOp in ops[..i])
      {
        assert ops[..i + 1][..i] == ops[..i];
        assert ops[..i + 1] == ops[..i] + [ops[i]];
        match ops[i] {
          case AddOp(fd, use, func) => aborts := AddFD(fd, use, func);
          case RemOp(fd, use) => aborts := RemFD(fd, use);
          case StopOp => shouldStop := true;
        }
        i := i + 1;
      }
      if aborts {
        StaysFailed(old(funcs), ops, i);
      }
      assert ops[..|ops|] == ops;
    }

    // ActivateFuncIfFdRdyIMP on the entry the sweep has come to.
    method Activate(k: Key, behave: Behaviour<F>, ran: nat, ghost log: Log<F>)
      returns (aborts: bool, n: nat, ghost more: Log<F>)
      requires Valid() && Shape(log) && Called(log, fdsets, behave) && InOrder(log.calls) && k in funcs
      requires Swept(log, fdsets, Order(k)) && log.tables[|log.calls|] == funcs && ran == |log.calls|
      requires shouldStop == Stops(log, behave)
      modifies this`funcs, this`shouldStop
      ensures Valid() && Shape(more) && Called(more, fdsets, behave) && InOrder(more.calls)
      ensures more.tables[0] == log.tables[0] && n == |more.calls|
      ensures !aborts ==> Swept(more, fdsets, Order(k) + 1) && more.tables[n] == funcs && shouldStop == Stops(more, behave)
      ensures aborts ==> Crashes(more, fdsets, behave)
    {
      hide Swept, Called, InOrder, AfterOps, Crashes, Stops;
      n, more, aborts := ran, log, false;
      if k in fdsets && funcs[k].Some? {
        aborts := Invoke(behave(funcs[k].value, k, n));
        if aborts {
          CrashNow(more, fdsets, behave, k);
          return;
        }
        OneCall(more, fdsets, behave, k, funcs);
        StopsMore(more, behave, k, funcs);
        n, more := n + 1, Log(more.calls + [k], more.tables + [funcs]);
      } else {
        Gap(more, fdsets, behave, k.use, k.fd, k.fd + 1);
      }
    }

    // The for_each over one of the three maps, in the middle of a round.
    method Sweep(use: Usage, behave: Behaviour<F>, ran: nat, ghost log: Log<F>)
      returns (aborts: bool, n: nat, ghost more: Log<F>)
      requires Valid() && Shape(log) && Called(log, fdsets, behave) && InOrder(log.calls)
      requires Swept(log, fdsets, Rank(use) * FD_SETSIZE) && log.tables[|log.calls|] == funcs && ran == |log.calls|
      requires shouldStop == Stops(log, behave)
      modifies this`funcs, this`shouldStop
      ensures Valid() && Shape(more) && Called(more, fdsets, behave) && InOrder(more.calls)
      ensures more.tables[0] == log.tables[0] && n == |more.calls|
      ensures !aborts ==> Swept(more, fdsets, (Rank(use) + 1) * FD_SETSIZE) && more.tables[|more.calls|] == funcs
      ensures !aborts ==> shouldStop == Stops(more, behave)
      ensures aborts ==> Crashes(more, fdsets, behave)
    {
      hide Swept, Called, InOrder, Crashes, Stops;
      n, more := ran, log;
      var base := Rank(use) * FD_SETSIZE;
      var fd := Next(funcs, use, 0);
      Gap(more, fdsets, behave, use, 0, fd);
      while fd < FD_SETSIZE
        invariant Valid() && fd <= FD_SETSIZE && n == |more.calls|
        invariant Shape(more) && Called(more, fdsets, behave) && InOrder(more.calls) && more.tables[0] == log.tables[0]
        invariant Swept(more, fdsets, base + fd) && more.tables[|more.calls|] == funcs && shouldStop == Stops(more, behave)
        invariant fd < FD_SETSIZE ==> Key(use, fd) in funcs
        decreases FD_SETSIZE - fd
      {
        aborts, n, more := Activate(Key(use, fd), behave, n, more);
        if aborts {
          return;
        }
        var next := Next(funcs, use, fd + 1);
        Gap(more, fdsets, behave, use, fd + 1, next);
        fd := next;
      }
      return false, n, more;
    }

    // The body of Start's loop once select has reported descriptors ready.
    method Dispatch(behave: Behaviour<F>) returns (aborts: bool, ghost log: Log<F>)
      requires Valid() && !shouldStop
      modifies this`funcs, this`fdsets, this`shouldStop
      ensures Valid() && Shape(log) && log.tables[0] == old(funcs)
      ensures aborts ==> Crashes(log, old(fdsets), behave)
      ensures !aborts ==>
                && Round(log, old(fdsets), behave)
                && var left := log.tables[|log.calls|];
                   funcs == Cleaned(left) && fdsets == funcs.Keys && shouldStop == Stops(log, behave)
                   && (forall k :: k in fdsets <==> Registered(left, k))
                   && (forall k :: k in funcs ==> funcs[k] == left[k])
    {
      log := NoCalls(funcs);
      var ran := 0;
      aborts, ran, log := Sweep(EXPT, behave, ran, log);
      if aborts {
        return;
      }
      aborts, ran, log := Sweep(READ, behave, ran, log);
      if aborts {
        return;
      }
      aborts, ran, log := Sweep(WRITE, behave, ran, log);
      if aborts {
        return;
      }
      CleanEmptyFunctions();
      FillFdsets();
    }

    method CleanEmptyFunctions()
      requires Valid()
      modifies this`funcs
      ensures Valid() && funcs == Cleaned(old(funcs))
      ensures forall k :: k in funcs <==> Registered(old(funcs), k)
      ensures forall k :: k in funcs ==> funcs[k] == old(funcs)[k]
    {
      CleanUsage(READ);
      CleanUsage(WRITE);
      CleanUsage(EXPT);
    }

    method CleanUsage(use: Usage)
      requires Valid()
      modifies this`funcs
      ensures Valid() && funcs == CleanedTo(old(funcs), use, FD_SETSIZE)
    {
      hide CleanedTo;
      CleanedFrom(funcs, use, 0, Next(funcs, use, 0));
      var fd := Next(funcs, use, 0);
      while fd < FD_SETSIZE
        invariant Valid() && fd <= FD_SETSIZE && (fd < FD_SETSIZE ==> Key(use, fd) in funcs)
        invariant funcs == CleanedTo(old(funcs), use, fd)
        decreases FD_SETSIZE - fd
      {
        CleanedOne(old(funcs), use, fd);
        if funcs[Key(use, fd)].None? {
          funcs := funcs - {Key(use, fd)};
        }
        var next := Next(funcs, use, fd + 1);
        CleanedFrom(old(funcs), use, fd + 1, next);
        fd := next;
      }
    }

    method FillFdsets()
      requires Valid()
      modifies this`fdsets
      ensures Valid() && fdsets == funcs.Keys
    {
      fdsets := {};
      FdSet(READ);
      FdSet(WRITE);
      FdSet(EXPT);
    }

    method FdSet(use: Usage)
      requires Valid()
      modifies this`fdsets
      ensures Valid() && fdsets == old(fdsets) + KeysTo(funcs, use, FD_SETSIZE)
    {
      hide KeysTo;
      var fd := Next(funcs, use, 0);
      KeysFrom(funcs, use, 0, fd);
      while fd < FD_SETSIZE
        invariant Valid() && fd <= FD_SETSIZE && (fd < FD_SETSIZE ==> Key(use, fd) in funcs)
        invariant fdsets == old(fdsets) + KeysTo(funcs, use, fd)
        decreases FD_SETSIZE - fd
      {
        fdsets := fdsets + {Key(use, fd)};
        KeysOne(funcs, use, fd);
        var next := Next(funcs, use, fd + 1);
        KeysFrom(funcs, use, fd + 1, next);
        fd := next;
      }
    }

    // The highest descriptor in use, 0 if there is none.
    method GetMaxFds() returns (n: nat)
      requires Valid()
      ensures forall k :: k in funcs ==> k.fd <= n
      ensures n == 0 || exists use :: Key(use, n) in funcs
    {
      var maxR, maxW, maxE := Last(funcs, READ, FD_SETSIZE), Last(funcs, WRITE, FD_SETSIZE), Last(funcs, EXPT, FD_SETSIZE);
      n := if maxR > maxW then maxR else maxW;
      if maxE > n {
        n := maxE;
      }
      forall k | k in funcs ensures k.fd <= n {
        assert k == Key(k.use, k.fd);
        match k.use {
          case READ => assert k.fd <= maxR;
          case WRITE => assert k.fd <= maxW;
          case EXPT => assert k.fd <= maxE;
        }
      }
      assert n == 0 || Key(READ, n) in funcs || Key(WRITE, n) in funcs || Key(EXPT, n) in funcs;
    }

    // The loop, on the answers select gives: n of them are dealt with. None
    // while it would go on waiting, or once an assertion has failed.
    method Start(answers: seq<Select>, behave: Behaviour<F>)
      returns (code: Option<int>, ghost n: nat, ghost logs: seq<Log<F>>, ghost crashed: bool)
      requires Valid()
      modifies this`funcs, this`fdsets, this`shouldStop
      ensures Valid() && n <= |answers| && (crashed ==> code == None)
      ensures Logged(logs, behave)
      ensures !crashed ==>
                && Served(old(funcs), answers[..n], logs, behave, funcs) && fdsets == funcs.Keys
                && (logs == [] ==> funcs == old(funcs))
                && (logs != [] ==> Purged(logs[|logs| - 1], funcs))
                && (code == Some(0) <==> Stopped(logs, behave))
                && (code == None ==> n == |answers|)
                && (code.Some? && code != Some(0) ==>
                      && n < |answers|
                      && match answers[n]
                         case BadFd => code == Some(1)
                         case OtherError => code == Some(if funcs == map[] then 2 else -1)
                         case _ => false)
      ensures crashed ==>
                && n < |answers| && answers[n].Ready? && logs != []
                && var log := logs[|logs| - 1];
                   && Shape(log) && Served(old(funcs), answers[..n], logs[..|logs| - 1], behave, log.tables[0])
                   && Crashes(log, answers[n].keys * log.tables[0].Keys, behave)
    {
      hide Round, Crashes, Stops, Cleaned, Served, Logged, Stopped;
      crashed, logs := false, [];
      NothingServed<F>(funcs, behave);
      shouldStop := false;
      FillFdsets();
      for i := 0 to |answers|
        invariant Valid() && fdsets == funcs.Keys && Served(old(funcs), answers[..i], logs, behave, funcs)
        invariant Logged(logs, behave) && (shouldStop <==> Stopped(logs, behave))
        invariant (logs == [] ==> funcs == old(funcs)) && (logs != [] ==> Purged(logs[|logs| - 1], funcs))
      {
        if shouldStop {
          return Some(0), i, logs, false;
        }
        match answers[i] {
          case Interrupted => ServedAgain(old(funcs), answers, i, logs, behave, funcs);
          case BadFd => return Some(1), i, logs, false;
          case OtherError => return Some(if funcs == map[] then 2 else -1), i, logs, false;
          case Ready(keys) =>
            fdsets := fdsets * keys;
            assert fdsets == keys * funcs.Keys;
            var aborts;
            ghost var before, log := funcs, NoCalls(funcs);
            aborts, log := Dispatch(behave);
            LoggedMore(logs, behave, log);
            if aborts {
              assert (logs + [log])[..|logs|] == logs;
              return None, i, logs + [log], true;
            }
            ServedRound(old(funcs), answers, i, logs, behave, before, log);
            logs := logs + [log];
        }
      }
      assert answers[..|answers|] == answers;
      return if shouldStop then Some(0) else None, |answers|, logs, false;
    }
  }

  // The descriptors of one usage below fd.
  ghost function KeysTo<F>(t: Table<F>, use: Usage, fd: nat): set<Key> {
    set k | k in t && k.use == use && k.fd < fd
  }

  lemma KeysOne<F>(t: Table<F>, use: Usage, fd: nat)
    requires Key(use, fd) in t
    ensures KeysTo(t, use, fd + 1) == KeysTo(t, use, fd) + {Key(use, fd)}
  {
    assert forall k: Key :: k.use == use && k.fd == fd <==> k == Key(use, fd);
  }

  lemma KeysFrom<F>(t: Table<F>, use: Usage, fd: nat, next: nat)
    requires fd <= next && forall x :: fd <= x < next ==> Key(use, x) !in t
    ensures KeysTo(t, use, next) == KeysTo(t, use, fd)
    ensures KeysTo(t, use, 0) == {}
  {
    assert forall k :: k in t && k.use == use ==> k == Key(use, k.fd);
  }

  // Emptied entries of one usage dropped, up to a descriptor.
  ghost function CleanedTo<F>(t: Table<F>, use: Usage, fd: nat): (r: Table<F>)
    ensures forall k :: k in r ==> k in t
  {
    map k | k in t && (k.use != use || k.fd >= fd || t[k].Some?) :: t[k]
  }

  lemma CleanedOne<F>(t: Table<F>, use: Usage, fd: nat)
    requires Key(use, fd) in CleanedTo(t, use, fd)
    ensures CleanedTo(t, use, fd + 1) ==
            if CleanedTo(t, use, fd)[Key(use, fd)].None? then CleanedTo(t, use, fd) - {Key(use, fd)} else CleanedTo(t, use, fd)
  {
    assert forall k: Key :: k.use == use && k.fd == fd <==> k == Key(use, fd);
  }

  lemma CleanedFrom<F>(t: Table<F>, use: Usage, fd: nat, next: nat)
    requires fd <= next && forall x :: fd <= x < next ==> Key(use, x) !in CleanedTo(t, use, fd)
    ensures CleanedTo(t, use, next) == CleanedTo(t, use, fd)
    ensures CleanedTo(t, use, 0) == t
  {
    assert forall k :: k in CleanedTo(t, use, fd) && k.use == use ==> k == Key(use, k.fd);
  }

  // Only emptied entries are dropped.
  ghost function Cleaned<F>(t: Table<F>): Table<F> {
    map k | k in t && t[k].Some? :: t[k]
  }

  // Of the table a round ends with, just the registered descriptors are left.
  ghost predicate Purged<F>(log: Log<F>, t: Table<F>) {
    && Shape(log)
    && (forall k :: k in t <==> Registered(log.tables[|log.calls|], k))
    && (forall k :: k in t ==> t[k] == log.tables[|log.calls|][k])
  }

  // An assertion fails in a callback that was rightly called.
  ghost predicate Crashes<F(!new)>(log: Log<F>, ready: set<Key>, behave: Behaviour<F>) {
    Shape(log) && exists k :: CrashesAt(log, ready, behave, k)
  }

  ghost predicate CrashesAt<F>(log: Log<F>, ready: set<Key>, behave: Behaviour<F>, k: Key)
    requires Shape(log)
  {
    var t := log.tables[|log.calls|];
    k in ready && Registered(t, k) && AfterOps(t, behave(t[k].value, k, |log.calls|)).None?
  }

  lemma CrashNow<F(!new)>(log: Log<F>, ready: set<Key>, behave: Behaviour<F>, k: Key)
    requires Shape(log) && CrashesAt(log, ready, behave, k)
    ensures Crashes(log, ready, behave)
  {
  }

  lemma {:induction false} StaysFailed<F>(t: Table<F>, ops: seq<Op<F>>, i: nat)
    requires i <= |ops| && AfterOps(t, ops[..i]).None?
    ensures AfterOps(t, ops).None?
    decreases |ops| - i
  {
    if i < |ops| {
      assert ops[..i + 1][..i] == ops[..i];
      StaysFailed(t, ops, i + 1);
    } else {
      assert ops[..i] == ops;
    }
  }

  // No descriptor between two entries of the map is called.
  lemma Gap<F(!new)>(log: Log<F>, ready: set<Key>, behave: Behaviour<F>, use: Usage, from: nat, end: nat)
    requires Shape(log) && Called(log, ready, behave) && InOrder(log.calls)
    requires from <= end <= FD_SETSIZE && Swept(log, ready, Rank(use) * FD_SETSIZE + from)
    requires forall k :: k in ready ==> k.fd < FD_SETSIZE
    requires forall x :: from <= x < end && Key(use, x) in ready ==> !Registered(log.tables[|log.calls|], Key(use, x))
    ensures Swept(log, ready, Rank(use) * FD_SETSIZE + end)
  {
    var base := Rank(use) * FD_SETSIZE;
    forall k | k in ready && base + from <= Order(k) < base + end
      ensures !Registered(log.tables[|log.calls|], k)
    {
      assert k.use == use && k == Key(use, k.fd);
    }
    Pass(log, ready, behave, base + from, base + end);
  }
}
