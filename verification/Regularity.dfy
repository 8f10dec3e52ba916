// What conforming to the register means, stated on event histories alone:
// every request is answered at most once, a write only after all its minions
// have acknowledged it, and reads behave as reads of a regular register.
module Regularity {
  import opened Cipher
  import opened Protocol
  import opened Registers

  ghost predicate IssuesWrite(hist: seq<Event>, j: nat, id: ID, block: nat, data: Data) {
    j < |hist| && hist[j] == WriteIssued(id, block, data)
  }

  // Write id was answered before position i.
  ghost predicate AnsweredBefore(hist: seq<Event>, i: nat, id: ID) {
    exists m :: 0 <= m < i && m < |hist| && hist[m].WriteAnswered? && hist[m].id == id
  }

  // The write issued at j is not overwritten, as far as operations that were
  // over before position i can tell: no later write to the block was
  // acknowledged before i.
  ghost predicate NotOverwritten(hist: seq<Event>, j: nat, i: nat, block: nat) {
    forall k, id, data :: j < k < |hist| && IssuesWrite(hist, k, id, block, data) ==> !AnsweredBefore(hist, i, id)
  }

  // A read issued at i and answered at k may return data: some write of it
  // was issued before k and is not overwritten at i.
  ghost predicate Returnable(hist: seq<Event>, i: nat, k: nat, block: nat, data: Data) {
    exists j, id :: 0 <= j < k && IssuesWrite(hist, j, id, block, data) && NotOverwritten(hist, j, i, block)
  }

  // ------------------------------------------------------------------
  // The register state in terms of positions in the history

  ghost predicate WritesSeen(hist: seq<Event>, r: Register) {
    && (forall id :: id in r.issued ==>
          exists j :: 0 <= j < |hist| && IssuesWrite(hist, j, id, r.issued[id].block, r.issued[id].data))
    && (forall j, id, b, d :: IssuesWrite(hist, j, id, b, d) ==> id in r.issued && r.issued[id] == Payload(b, d))
    && (forall i, j, id, b, d, b', d' :: IssuesWrite(hist, i, id, b, d) && IssuesWrite(hist, j, id, b', d') ==> i == j)
  }

  ghost predicate AnswersSeen(hist: seq<Event>, r: Register) {
    && (forall m :: 0 <= m < |hist| && (hist[m].WriteAnswered? || hist[m].ReadAnswered?) ==> hist[m].id in r.done)
    && (forall id, i :: id in r.acks && i in r.acks[id] <==> MinionAcked(id, i) in hist)
  }

  // No acknowledged write to b was issued after the committed one, and none
  // at all after the outstanding one.
  ghost predicate NewestSeen(hist: seq<Event>, r: Register) {
    CommittedNewest(hist, r) && PendingNewest(hist, r)
  }

  ghost predicate CommittedNewest(hist: seq<Event>, r: Register) {
    forall b, j: nat, k: nat, id, d, d' | b in r.comm && IssuesWrite(hist, j, r.comm[b], b, d) && j < k ::
      IssuesWrite(hist, k, id, b, d') ==> id !in r.done
  }

  ghost predicate PendingNewest(hist: seq<Event>, r: Register) {
    forall b, j: nat, k: nat, id, d, d' | b in r.pend && IssuesWrite(hist, j, r.pend[b], b, d) && j < k ::
      !IssuesWrite(hist, k, id, b, d')
  }

  ghost predicate Seen(c: Config, hist: seq<Event>) {
    var r := Replay(hist);
    RegisterOk(c, r) && WritesSeen(hist, r) && AnswersSeen(hist, r) && NewestSeen(hist, r)
  }

  lemma SeenStep(c: Config, hist: seq<Event>, ev: Event)
    requires Seen(c, hist) && Permits(c, Replay(hist), ev)
    ensures Seen(c, hist + [ev])
  {
    hide WritesSeen, AnswersSeen, NewestSeen, Update;
    var r, more := Replay(hist), hist + [ev];
    assert more[..|more| - 1] == hist;
    assert Replay(more) == Update(r, ev);
    RegisterStep(c, r, ev);
    assert (ev.WriteIssued? ==> ev.id !in r.acks) && (ev.WriteAnswered? ==> ev.id in r.issued);
    hide RegisterOk, Permits, Replay;
    WritesSeenStep(c, hist, r, ev);
    AnswersSeenStep(hist, r, ev);
    NewestSeenStep(c, hist, r, ev);
  }

  lemma WritesSeenStep(c: Config, hist: seq<Event>, r: Register, ev: Event)
    requires WritesSeen(hist, r) && Permits(c, r, ev)
    ensures WritesSeen(hist + [ev], Update(r, ev))
  {
    var more, r' := hist + [ev], Update(r, ev);
    forall j, id, b, d ensures IssuesWrite(more, j, id, b, d) <==>
      IssuesWrite(hist, j, id, b, d) || (j == |hist| && ev == WriteIssued(id, b, d)) {
    }
    forall id | id in r'.issued
      ensures exists j :: 0 <= j < |more| && IssuesWrite(more, j, id, r'.issued[id].block, r'.issued[id].data)
    {
      if id in r.issued && !(ev.WriteIssued? && ev.id == id) {
        var j :| 0 <= j < |hist| && IssuesWrite(hist, j, id, r.issued[id].block, r.issued[id].data);
        assert IssuesWrite(more, j, id, r'.issued[id].block, r'.issued[id].data);
      } else {
        assert IssuesWrite(more, |hist|, id, r'.issued[id].block, r'.issued[id].data);
      }
    }
  }

  lemma AnswersSeenStep(hist: seq<Event>, r: Register, ev: Event)
    requires AnswersSeen(hist, r) && (ev.WriteAnswered? ==> ev.id in r.issued) && (ev.WriteIssued? ==> ev.id !in r.acks)
    ensures AnswersSeen(hist + [ev], Update(r, ev))
  {
    var more, r' := hist + [ev], Update(r, ev);
    assert ev == more[|hist|];
    forall id, i ensures id in r'.acks && i in r'.acks[id] <==> MinionAcked(id, i) in more {
      assert id in r.acks && i in r.acks[id] <==> MinionAcked(id, i) in hist;
    }
  }

  lemma NewestSeenStep(c: Config, hist: seq<Event>, r: Register, ev: Event)
    requires WritesSeen(hist, r) && NewestSeen(hist, r) && RegisterOk(c, r) && Permits(c, r, ev)
    ensures NewestSeen(hist + [ev], Update(r, ev))
  {
    assert (ev.WriteIssued? ==> ev.id !in r.done) && (ev.ReadAnswered? ==> ev.id !in r.issued);
    hide ShapeOk, ReadersOk, BlocksOk, WritesSeen, Permits, Update, CommittedNewest, PendingNewest;
    CommittedNewestStep(c, hist, r, ev);
    PendingNewestStep(c, hist, r, ev);
  }

  lemma CommittedNewestStep(c: Config, hist: seq<Event>, r: Register, ev: Event)
    requires WritesSeen(hist, r) && NewestSeen(hist, r) && BlocksOk(r) && Permits(c, r, ev)
    requires (ev.WriteIssued? ==> ev.id !in r.done) && (ev.ReadAnswered? ==> ev.id !in r.issued)
    ensures CommittedNewest(hist + [ev], Update(r, ev))
  {
    hide WritesSeen, NewestSeen, BlocksOk, Permits, Update, IssuesWrite;
    var more, r' := hist + [ev], Update(r, ev);
    forall b, j: nat, k: nat, id, d, d' | b in r'.comm && IssuesWrite(more, j, r'.comm[b], b, d) && j < k
      && IssuesWrite(more, k, id, b, d')
      ensures id !in r'.done
    {
      NewerNotDone(c, hist, r, ev, b, j, k, id, d, d');
    }
  }

  lemma PendingNewestStep(c: Config, hist: seq<Event>, r: Register, ev: Event)
    requires WritesSeen(hist, r) && NewestSeen(hist, r) && BlocksOk(r) && Permits(c, r, ev)
    ensures PendingNewest(hist + [ev], Update(r, ev))
  {
    hide WritesSeen, NewestSeen, BlocksOk, Permits, Update, IssuesWrite;
    var more, r' := hist + [ev], Update(r, ev);
    forall b, j: nat, k: nat, id, d, d' | b in r'.pend && IssuesWrite(more, j, r'.pend[b], b, d) && j < k
      ensures !IssuesWrite(more, k, id, b, d')
    {
      NoneNewer(c, hist, r, ev, b, j, k, id, d, d');
    }
  }

  lemma NewerNotDone(c: Config, hist: seq<Event>, r: Register, ev: Event, b: nat, j: nat, k: nat, id: ID, d: Data, d': Data)
    requires WritesSeen(hist, r) && NewestSeen(hist, r) && BlocksOk(r) && Permits(c, r, ev)
    requires (ev.WriteIssued? ==> ev.id !in r.done) && (ev.ReadAnswered? ==> ev.id !in r.issued)
    requires b in Update(r, ev).comm && IssuesWrite(hist + [ev], j, Update(r, ev).comm[b], b, d)
    requires j < k && IssuesWrite(hist + [ev], k, id, b, d')
    ensures id !in Update(r, ev).done
  {
    CommittedIssued(c, hist, r, ev, b, j, d);
    if k < |hist| {
      assert IssuesWrite(hist, k, id, b, d');
      assert r.issued[id] == Payload(b, d');
    }
  }

  lemma CommittedIssued(c: Config, hist: seq<Event>, r: Register, ev: Event, b: nat, j: nat, d: Data)
    requires BlocksOk(r) && Permits(c, r, ev)
    requires b in Update(r, ev).comm && IssuesWrite(hist + [ev], j, Update(r, ev).comm[b], b, d)
    ensures IssuesWrite(hist, j, Update(r, ev).comm[b], b, d)
  {
  }

  lemma NoneNewer(c: Config, hist: seq<Event>, r: Register, ev: Event, b: nat, j: nat, k: nat, id: ID, d: Data, d': Data)
    requires WritesSeen(hist, r) && NewestSeen(hist, r) && BlocksOk(r) && Permits(c, r, ev)
    requires b in Update(r, ev).pend && IssuesWrite(hist + [ev], j, Update(r, ev).pend[b], b, d) && j < k
    ensures !IssuesWrite(hist + [ev], k, id, b, d')
  {
    var r', more := Update(r, ev), hist + [ev];
    if j < |hist| {
      assert IssuesWrite(hist, j, r'.pend[b], b, d);
      assert r.issued[r'.pend[b]] == Payload(b, d);
    }
    assert k < |hist| ==> (IssuesWrite(more, k, id, b, d') <==> IssuesWrite(hist, k, id, b, d'));
  }

  lemma {:induction false} SeenUpTo(c: Config, hist: seq<Event>, n: nat)
    requires Conforms(c, hist) && n <= |hist|
    ensures Seen(c, hist[..n])
  {
    hide Seen, Permits, Conforms, Replay;
    if n == 0 {
      assert hist[..n] == [];
      SeenNothing(c);
    } else {
      SeenUpTo(c, hist, n - 1);
      assert hist[..n - 1] + [hist[n - 1]] == hist[..n];
      ConformsAt(c, hist, n - 1);
      SeenStep(c, hist[..n - 1], hist[n - 1]);
    }
  }

  lemma ConformsAt(c: Config, hist: seq<Event>, n: nat)
    requires Conforms(c, hist) && n < |hist|
    ensures Permits(c, Replay(hist[..n]), hist[n])
  {
  }

  lemma SeenNothing(c: Config)
    ensures Seen(c, [])
  {
  }

  // ------------------------------------------------------------------
  // At most one answer, and only after every acknowledgement

  lemma {:induction false} DoneStays(c: Config, hist: seq<Event>, m: nat, n: nat)
    requires m <= n <= |hist| && Conforms(c, hist)
    ensures Replay(hist[..m]).done <= Replay(hist[..n]).done
    decreases n
  {
    hide Conforms, Permits, Update;
    if m < n {
      DoneStays(c, hist, m, n - 1);
      assert hist[..n][..n - 1] == hist[..n - 1];
      DoneGrows(Replay(hist[..n - 1]), hist[n - 1]);
    }
  }

  lemma DoneGrows(r: Register, ev: Event)
    ensures r.done <= Update(r, ev).done
  {
  }

  ghost predicate Answered(hist: seq<Event>, id: ID) {
    exists status :: WriteAnswered(id, status) in hist
  }

  // The register counts a write as done exactly when it has been answered.
  lemma {:induction false} DoneIffAnswered(c: Config, hist: seq<Event>, n: nat, id: ID)
    requires Conforms(c, hist) && n <= |hist| && id in Replay(hist[..n]).issued
    ensures id in Replay(hist[..n]).done <==> Answered(hist[..n], id)
    decreases n
  {
    hide WritesSeen, AnswersSeen, NewestSeen, RegisterOk, Permits, Update, Conforms, Answered;
    if n > 0 {
      var ev, r := hist[n - 1], Replay(hist[..n - 1]);
      SeenUpTo(c, hist, n - 1);
      ConformsAt(c, hist, n - 1);
      assert hist[..n] == hist[..n - 1] + [ev];
      assert Replay(hist[..n]) == Update(r, ev);
      AnsweredMore(hist[..n - 1], ev, id);
      DoneStep(c, r, ev, id);
      hide Replay, Seen;
      if id in r.issued {
        DoneIffAnswered(c, hist, n - 1, id);
      } else {
        NotYetIssued(c, hist, n - 1, id);
      }
    }
  }

  lemma DoneStep(c: Config, r: Register, ev: Event, id: ID)
    requires RegisterOk(c, r) && Permits(c, r, ev) && id in Update(r, ev).issued
    ensures id in r.issued ==> (id in Update(r, ev).done <==> id in r.done || (ev.WriteAnswered? && ev.id == id))
    ensures id !in r.issued ==> ev.WriteIssued? && id !in Update(r, ev).done
  {
    hide BlocksOk, ReadersOk;
  }

  lemma AnsweredMore(hist: seq<Event>, ev: Event, id: ID)
    ensures Answered(hist + [ev], id) <==> Answered(hist, id) || (ev.WriteAnswered? && ev.id == id)
  {
    assert ev in hist + [ev];
    if Answered(hist, id) {
      var status :| WriteAnswered(id, status) in hist;
      assert WriteAnswered(id, status) in hist + [ev];
    }
  }

  lemma NotYetIssued(c: Config, hist: seq<Event>, n: nat, id: ID)
    requires Conforms(c, hist) && n <= |hist| && id !in Replay(hist[..n]).issued
    ensures !Answered(hist[..n], id)
  {
    if Answered(hist[..n], id) {
      var status :| WriteAnswered(id, status) in hist[..n];
      var m :| 0 <= m < n && hist[m] == WriteAnswered(id, status);
      hide Replay;
      ConformsAt(c, hist, m);
      var j, b, d := IssuedEarlier(c, hist, m, id);
      IssueSeen(c, hist, n, j, id, b, d);
    }
  }

  // No request is answered twice.
  lemma AtMostOneAnswer(c: Config, hist: seq<Event>, m: nat, n: nat)
    requires Conforms(c, hist) && m < n < |hist|
    requires (hist[m].WriteAnswered? || hist[m].ReadAnswered?) && (hist[n].WriteAnswered? || hist[n].ReadAnswered?)
    ensures hist[m].id != hist[n].id
  {
    SeenUpTo(c, hist, m + 1);
    DoneStays(c, hist, m + 1, n);
    assert hist[..m + 1][m] == hist[m];
    assert Permits(c, Replay(hist[..n]), hist[n]);
  }

  // A write is answered, with success, only after every minion holding a
  // replica of its block has acknowledged it.
  lemma AnsweredAfterAcks(c: Config, hist: seq<Event>, n: nat, id: ID, status: int)
    requires Conforms(c, hist) && n < |hist| && hist[n] == WriteAnswered(id, status)
    ensures status == 0
    ensures exists j, b, d :: 0 <= j < n && IssuesWrite(hist, j, id, b, d)
              && forall i :: i in MinionsOf(c, b) ==> MinionAcked(id, i) in hist[..n]
  {
    SeenUpTo(c, hist, n);
    var r := Replay(hist[..n]);
    assert Permits(c, r, hist[n]);
    var b, d := r.issued[id].block, r.issued[id].data;
    var j :| 0 <= j < n && IssuesWrite(hist[..n], j, id, b, d);
    assert IssuesWrite(hist, j, id, b, d);
  }

  // ------------------------------------------------------------------
  // Reads

  // An answer before position i is an answer seen by then, and only of a
  // write issued by then.
  lemma AnsweredIsDone(c: Config, hist: seq<Event>, i: nat, id: ID)
    requires Conforms(c, hist) && i <= |hist| && AnsweredBefore(hist, i, id)
    ensures id in Replay(hist[..i]).done && id in Replay(hist[..i]).issued
  {
    hide Replay, WritesSeen, NewestSeen, RegisterOk, Conforms;
    SeenUpTo(c, hist, i);
    var m :| 0 <= m < i && m < |hist| && hist[m].WriteAnswered? && hist[m].id == id;
    assert hist[..i][m] == hist[m];
    ConformsAt(c, hist, m);
    var j, b, d := IssuedEarlier(c, hist, m, id);
    IssueSeen(c, hist, i, j, id, b, d);
  }

  lemma IssueSeen(c: Config, hist: seq<Event>, i: nat, j: nat, id: ID, b: nat, d: Data)
    requires Conforms(c, hist) && j < i <= |hist| && IssuesWrite(hist, j, id, b, d)
    ensures id in Replay(hist[..i]).issued && Replay(hist[..i]).issued[id] == Payload(b, d)
  {
    hide Replay, AnswersSeen, NewestSeen, RegisterOk, Conforms;
    SeenUpTo(c, hist, i);
    assert IssuesWrite(hist[..i], j, id, b, d);
  }

  // A write issued at or after i is not answered before i.
  lemma LaterNotAnswered(c: Config, hist: seq<Event>, i: nat, k: nat, id: ID, b: nat, d: Data)
    requires Conforms(c, hist) && i <= k && IssuesWrite(hist, k, id, b, d)
    ensures !AnsweredBefore(hist, i, id)
  {
    if AnsweredBefore(hist, i, id) {
      AnsweredIsDone(c, hist, i, id);
      var j, b', d' := IssuedEarlier(c, hist, i, id);
      OneIssue(c, hist, j, k, id, b', d', b, d);
    }
  }

  lemma IssuedEarlier(c: Config, hist: seq<Event>, i: nat, id: ID) returns (j: nat, b: nat, d: Data)
    requires Conforms(c, hist) && i <= |hist| && id in Replay(hist[..i]).issued
    ensures j < i && IssuesWrite(hist, j, id, b, d)
    ensures Replay(hist[..i]).issued[id] == Payload(b, d)
  {
    hide Replay, AnswersSeen, NewestSeen, RegisterOk, Conforms;
    SeenUpTo(c, hist, i);
    b, d := Replay(hist[..i]).issued[id].block, Replay(hist[..i]).issued[id].data;
    j :| 0 <= j < i && IssuesWrite(hist[..i], j, id, b, d);
    assert IssuesWrite(hist, j, id, b, d);
  }

  lemma OneIssue(c: Config, hist: seq<Event>, j: nat, k: nat, id: ID, b: nat, d: Data, b': nat, d': Data)
    requires Conforms(c, hist) && IssuesWrite(hist, j, id, b, d) && IssuesWrite(hist, k, id, b', d')
    ensures j == k
  {
    SeenUpTo(c, hist, |hist|);
    assert hist[..|hist|] == hist;
  }

  // The acknowledged and the outstanding value of a block are returnable by a
  // read issued now.
  lemma CurrentReturnable(c: Config, hist: seq<Event>, i: nat, b: nat, w: ID)
    requires Conforms(c, hist) && i <= |hist|
    requires var r := Replay(hist[..i]); (b in r.comm && r.comm[b] == w) || (b in r.pend && r.pend[b] == w)
    ensures var r := Replay(hist[..i]); w in r.issued && Returnable(hist, i, i, b, r.issued[w].data)
  {
    hide Replay, WritesSeen, AnswersSeen, NewestSeen, Conforms, AnsweredBefore;
    BlockOfCurrent(c, hist, i, b, w);
    var j, b', d := IssuedEarlier(c, hist, i, w);
    forall k, id, d' | j < k < |hist| && IssuesWrite(hist, k, id, b, d') ensures !AnsweredBefore(hist, i, id) {
      if k >= i {
        LaterNotAnswered(c, hist, i, k, id, b, d');
      } else if AnsweredBefore(hist, i, id) {
        AnsweredIsDone(c, hist, i, id);
        NothingNewer(c, hist, i, b, w, j, k, id, d, d');
      }
    }
    assert NotOverwritten(hist, j, i, b);
  }

  lemma BlockOfCurrent(c: Config, hist: seq<Event>, i: nat, b: nat, w: ID)
    requires Conforms(c, hist) && i <= |hist|
    requires var r := Replay(hist[..i]); (b in r.comm && r.comm[b] == w) || (b in r.pend && r.pend[b] == w)
    ensures w in Replay(hist[..i]).issued && Replay(hist[..i]).issued[w].block == b
  {
    hide Replay, WritesSeen, AnswersSeen, NewestSeen, Conforms;
    SeenUpTo(c, hist, i);
  }

  lemma NothingNewer(c: Config, hist: seq<Event>, i: nat, b: nat, w: ID, j: nat, k: nat, id: ID, d: Data, d': Data)
    requires Conforms(c, hist) && j < k < i <= |hist|
    requires IssuesWrite(hist, j, w, b, d) && IssuesWrite(hist, k, id, b, d')
    requires var r := Replay(hist[..i]); (b in r.comm && r.comm[b] == w) || (b in r.pend && r.pend[b] == w)
    ensures id !in Replay(hist[..i]).done
  {
    hide Replay, WritesSeen, AnswersSeen, RegisterOk, Conforms;
    SeenUpTo(c, hist, i);
    assert IssuesWrite(hist[..i], j, w, b, d) && IssuesWrite(hist[..i], k, id, b, d');
  }

  lemma FirstReturnable(c: Config, hist: seq<Event>, i: nat, b: nat, d: Data)
    requires Conforms(c, hist) && i < |hist|
    requires var r := Replay(hist[..i]); d in DataOf(r, r.comm, b) + DataOf(r, r.pend, b)
    ensures Returnable(hist, i, i + 1, b, d)
  {
    var r := Replay(hist[..i]);
    hide Replay, Conforms, Returnable;
    CurrentReturnable(c, hist, i, b, if d in DataOf(r, r.comm, b) then r.comm[b] else r.pend[b]);
    WidenReturnable(hist, i, i, i + 1, b, d);
  }

  // What an event changes about a read under way.
  lemma ReaderUpdated(c: Config, r: Register, ev: Event, id: ID)
    requires Permits(c, r, ev) && id in r.readers
    ensures id in Update(r, ev).readers
    ensures var e, e' := r.readers[id], Update(r, ev).readers[id];
            && e'.block == e.block && e'.covered == e.covered
            && e'.allowed == if ev.WriteIssued? && ev.block == e.block then e.allowed + {ev.data} else e.allowed
  {
  }

  // Everything the register allows a read is returnable by it.
  lemma {:induction false} AllowedReturnable(c: Config, hist: seq<Event>, i: nat, n: nat, id: ID, b: nat, d: Data)
    requires Conforms(c, hist) && i < n <= |hist| && hist[i] == ReadIssued(id, b)
    ensures id in Replay(hist[..n]).readers && Replay(hist[..n]).readers[id].block == b
    ensures Replay(hist[..n]).readers[id].covered <==> b in Replay(hist[..i]).comm
    ensures d in Replay(hist[..n]).readers[id].allowed ==> Returnable(hist, i, n, b, d)
    decreases n
  {
    var r, r' := Replay(hist[..n - 1]), Replay(hist[..n]);
    assert hist[..n][..n - 1] == hist[..n - 1];
    assert r' == Update(r, hist[n - 1]);
    ConformsAt(c, hist, n - 1);
    hide Replay, Conforms, Returnable;
    if n == i + 1 {
      hide Permits;
      if d in r'.readers[id].allowed {
        FirstReturnable(c, hist, i, b, d);
      }
    } else {
      AllowedReturnable(c, hist, i, n - 1, id, b, d);
      ReaderUpdated(c, r, hist[n - 1], id);
      hide Update, Permits;
      if d in r'.readers[id].allowed {
        if d in r.readers[id].allowed {
          WidenReturnable(hist, i, n - 1, n, b, d);
        } else {
          NewestReturnable(c, hist, i, n, hist[n - 1].id, b, d);
        }
      }
    }
  }

  // A write issued during the read is not overwritten at its start.
  lemma NewestReturnable(c: Config, hist: seq<Event>, i: nat, n: nat, w: ID, b: nat, d: Data)
    requires Conforms(c, hist) && i < n <= |hist| && IssuesWrite(hist, n - 1, w, b, d)
    ensures Returnable(hist, i, n, b, d)
  {
    hide Conforms, AnsweredBefore;
    forall k, x, d' | n - 1 < k < |hist| && IssuesWrite(hist, k, x, b, d') ensures !AnsweredBefore(hist, i, x) {
      LaterNotAnswered(c, hist, i, k, x, b, d');
    }
    assert NotOverwritten(hist, n - 1, i, b);
  }

  lemma WidenReturnable(hist: seq<Event>, i: nat, k: nat, n: nat, b: nat, d: Data)
    requires k <= n && Returnable(hist, i, k, b, d)
    ensures Returnable(hist, i, n, b, d)
  {
    var j, id :| 0 <= j < k && IssuesWrite(hist, j, id, b, d) && NotOverwritten(hist, j, i, b);
    assert 0 <= j < n;
  }

  // Some write to the block was acknowledged before position i.
  ghost predicate WrittenBefore(hist: seq<Event>, i: nat, b: nat) {
    exists j, id, d :: 0 <= j < i && IssuesWrite(hist, j, id, b, d) && AnsweredBefore(hist, i, id)
  }

  lemma WrittenIsCommitted(c: Config, hist: seq<Event>, i: nat, b: nat)
    requires Conforms(c, hist) && i <= |hist| && WrittenBefore(hist, i, b)
    ensures b in Replay(hist[..i]).comm
  {
    var j, w, d :| 0 <= j < i && IssuesWrite(hist, j, w, b, d) && AnsweredBefore(hist, i, w);
    AnsweredIsDone(c, hist, i, w);
    SeenUpTo(c, hist, i);
    assert IssuesWrite(hist[..i], j, w, b, d);
  }

  lemma AnsweredLater(c: Config, hist: seq<Event>, i: nat, k: nat, id: ID, b: nat, status: int, d: Data)
    requires Conforms(c, hist) && i < |hist| && k < |hist|
    requires hist[i] == ReadIssued(id, b) && hist[k] == ReadAnswered(id, status, d)
    ensures i < k
  {
    assert Permits(c, Replay(hist[..i]), hist[i]);
    assert Permits(c, Replay(hist[..k]), hist[k]);
    if k < i {
      ReadersStay(c, hist, k, i, id);
    }
  }

  // The register property: a read of a block that had an acknowledged write
  // when it was issued returns the data of a write that was issued before the
  // read was answered and that no write acknowledged before the read was
  // issued had overwritten.
  lemma ReadsAreRegular(c: Config, hist: seq<Event>, i: nat, k: nat, id: ID, b: nat, status: int, d: Data)
    requires Conforms(c, hist) && i < |hist| && k < |hist|
    requires hist[i] == ReadIssued(id, b) && hist[k] == ReadAnswered(id, status, d)
    requires WrittenBefore(hist, i, b)
    ensures i < k && status == 0 && Returnable(hist, i, k, b, d)
  {
    AnsweredLater(c, hist, i, k, id, b, status, d);
    assert Permits(c, Replay(hist[..k]), hist[k]);
    hide Conforms, WrittenBefore, Returnable;
    AllowedReturnable(c, hist, i, k, id, b, d);
    WrittenIsCommitted(c, hist, i, b);
  }

  lemma {:induction false} ReadersStay(c: Config, hist: seq<Event>, m: nat, n: nat, id: ID)
    requires Conforms(c, hist) && m <= n <= |hist| && id in Replay(hist[..m]).readers
    ensures id in Replay(hist[..n]).readers
    decreases n
  {
    hide Conforms, Permits, Update;
    if m < n {
      ReadersStay(c, hist, m, n - 1, id);
      assert hist[..n][..n - 1] == hist[..n - 1];
      OneReadersStay(Replay(hist[..n - 1]), hist[n - 1], id);
    }
  }

  lemma OneReadersStay(r: Register, ev: Event, id: ID)
    requires id in r.readers
    ensures id in Update(r, ev).readers && r.done <= Update(r, ev).done
  {
  }

  // With no write to the block overlapping it, a read returns exactly the
  // data of the last write, as a plain array would.
  lemma QuietReadsAreExact(c: Config, hist: seq<Event>, i: nat, k: nat, id: ID, b: nat, status: int, d: Data,
                           j: nat, w: ID, last: Data)
    requires Conforms(c, hist) && i < |hist| && k < |hist|
    requires hist[i] == ReadIssued(id, b) && hist[k] == ReadAnswered(id, status, d)
    requires j < i && IssuesWrite(hist, j, w, b, last) && AnsweredBefore(hist, i, w)
    requires forall n, x, d' :: j < n < k && n < |hist| ==> !IssuesWrite(hist, n, x, b, d')
    ensures d == last
  {
    ReadsAreRegular(c, hist, i, k, id, b, status, d);
    var n, x :| 0 <= n < k && IssuesWrite(hist, n, x, b, d) && NotOverwritten(hist, n, i, b);
    if n < j {
      assert IssuesWrite(hist, j, w, b, last);
    }
  }
}
