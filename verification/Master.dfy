// Class Master of vdr/master/master.cpp. What it hands to the minion proxies,
// the encryptor and the OS proxy is recorded in call order.
module Masters {
  import opened Cipher
  import opened BlockTables
  import opened Timers
  import opened Protocol

  datatype CryptTask =
    | Encrypt(id: ID)
    | Decrypt(id: ID, status: int, data: Data)

  datatype ReplyStatus = SHOULD_REPLY_TO_OSP | DONT_REPLY_YET

  class Master {
    const blockTable: BlockTable
    const timer: Timer<ID>
    var readRequests: map<ID, ReadEntry>
    var writeRequests: map<ID, WriteEntry>
    var toMinions: seq<Packet>
    var toEncryptor: seq<CryptTask>
    var toOs: seq<OsReply>

    ghost predicate Valid() {
      blockTable.Valid() && blockTable.blkSize == BLOCK_SIZE && blockTable.numBlocksPerGroup > 0
    }

    function State(): MasterState
      reads this, timer
    {
      MasterState(readRequests, writeRequests, timer.State())
    }

    // The locations Translate finds for a block.
    ghost function Placement(block: nat): seq<Location>
      requires Valid()
    {
      if block < blockTable.numMinions * blockTable.numBlocksPerGroup
      then Locations(blockTable.numMinions, blockTable.numBlocksPerGroup, block) else []
    }

    constructor (numMinions: nat, numBlocks: nat)
      requires numMinions > 0 && numBlocks > 0 && numBlocks % numMinions == 0
      ensures Valid() && fresh(timer)
      ensures blockTable.numMinions == numMinions
      ensures numMinions * blockTable.numBlocksPerGroup == numBlocks
      ensures State() == MasterState(map[], map[], TimerState([], 0, false, None))
      ensures toMinions == [] && toEncryptor == [] && toOs == []
    {
      var table := new BlockTable(BLOCK_SIZE, numBlocks, numMinions);
      blockTable := table;
      timer := new Timer<ID>();
      readRequests, writeRequests := map[], map[];
      toMinions, toEncryptor, toOs := [], [], [];
    }

    method Read(id: ID, offset: nat, clk: Clock)
      requires Valid()
      modifies this`readRequests, this`toMinions, timer
      ensures var (m, out) := StartRead(old(State()), id, offset / BLOCK_SIZE, Placement(offset / BLOCK_SIZE), clk);
              State() == m && toMinions == old(toMinions) + out
      ensures id in readRequests && writeRequests == old(writeRequests)
      ensures id in old(readRequests) ==>
                readRequests[id].block == old(readRequests)[id].block && readRequests[id].locs == old(readRequests)[id].locs
    {
      var locs := blockTable.Translate(offset);
      if id !in readRequests {
        readRequests := readRequests[id := ReadEntry(0, offset / BLOCK_SIZE, locs)];
      }
      SendReadRequestsIMP(id, clk);
    }

    method Write(id: ID, offset: nat, data: Data)
      requires Valid()
      requires id !in readRequests && id !in writeRequests
      modifies this`writeRequests, this`toEncryptor
      ensures State() == StartWrite(old(State()), id, offset / BLOCK_SIZE, data, Placement(offset / BLOCK_SIZE))
      ensures toEncryptor == old(toEncryptor) + [Encrypt(id)]
    {
      var locs := blockTable.Translate(offset);
      writeRequests := writeRequests[id := WriteEntry(0, offset / BLOCK_SIZE, data, locs)];
      toEncryptor := toEncryptor + [Encrypt(id)];
    }

    method ReplyReadIMP(id: ID, minion: nat, status: int, data: Data, clk: Clock)
      requires AwaitsRead(State(), id, minion) ==> HasTimer(State(), readRequests[id].handle)
      modifies this`readRequests, this`toEncryptor, timer
      ensures State() == TakeReadReply(old(State()), id, minion, clk)
      ensures toEncryptor == old(toEncryptor)
                + if AwaitsRead(old(State()), id, minion) then [Decrypt(id, status, data)] else []
    {
      var replyStatus := ProcessReadReplyIMP(id, minion, clk);
      if replyStatus == SHOULD_REPLY_TO_OSP {
        toEncryptor := toEncryptor + [Decrypt(id, status, data)];
      }
    }

    method ReplyWriteIMP(id: ID, minion: nat, status: int, clk: Clock)
      requires CompletesWrite(State(), id, minion) ==> HasTimer(State(), writeRequests[id].handle)
      modifies this`writeRequests, this`toOs, timer
      ensures State() == TakeWriteReply(old(State()), id, minion, clk)
      ensures toOs == old(toOs)
                + if CompletesWrite(old(State()), id, minion) then [WriteDone(id, OsStatus(status))] else []
    {
      var replyStatus := ProcessWriteReplyIMP(id, minion, clk);
      if replyStatus == SHOULD_REPLY_TO_OSP {
        toOs := toOs + [WriteDone(id, OsStatus(status))];
      }
    }

    method ReadReplyToOsProxyIMP(id: ID, status: int, data: Data)
      modifies this`toOs
      ensures toOs == old(toOs) + [ReadDone(id, OsStatus(status), data)]
    {
      toOs := toOs + [ReadDone(id, OsStatus(status), data)];
    }

    method ProcessReadReplyIMP(id: ID, minion: nat, clk: Clock) returns (status: ReplyStatus)
      requires AwaitsRead(State(), id, minion) ==> HasTimer(State(), readRequests[id].handle)
      modifies this`readRequests, timer
      ensures State() == TakeReadReply(old(State()), id, minion, clk)
      ensures status == SHOULD_REPLY_TO_OSP <==> AwaitsRead(old(State()), id, minion)
    {
      if id !in readRequests {
        return DONT_REPLY_YET;
      }
      var request := readRequests[id];
      for i := 0 to |request.locs|
        invariant State() == old(State())
        invariant forall j :: 0 <= j < i ==> request.locs[j].minion != minion
      {
        if minion == request.locs[i].minion {
          assert FindMinion(request.locs, minion) == i;
          readRequests := readRequests - {id};
          timer.Cancel(request.handle, clk);
          return SHOULD_REPLY_TO_OSP;
        }
      }
      return DONT_REPLY_YET;
    }

    method ProcessWriteReplyIMP(id: ID, minion: nat, clk: Clock) returns (status: ReplyStatus)
      requires CompletesWrite(State(), id, minion) ==> HasTimer(State(), writeRequests[id].handle)
      modifies this`writeRequests, timer
      ensures State() == TakeWriteReply(old(State()), id, minion, clk)
      ensures status == SHOULD_REPLY_TO_OSP <==> CompletesWrite(old(State()), id, minion)
    {
      if id !in writeRequests {
        return DONT_REPLY_YET;
      }
      var request := writeRequests[id];
      var bl := request.locs;
      var iter := 0;
      while iter < |bl|
        invariant 0 <= iter <= |bl|
        invariant forall j :: 0 <= j < iter ==> bl[j].minion != minion
      {
        if minion == bl[iter].minion {
          break;
        }
        iter := iter + 1;
      }
      assert FindMinion(bl, minion) == iter;
      if iter < |bl| {
        bl := bl[..iter] + bl[iter + 1..];
        writeRequests := writeRequests[id := request.(locs := bl)];
        if bl == [] {
          writeRequests := writeRequests - {id};
          assert writeRequests == old(writeRequests) - {id};
          timer.Cancel(request.handle, clk);
          return SHOULD_REPLY_TO_OSP;
        }
      }
      return DONT_REPLY_YET;
    }

    method SetTimerIMP(id: ID, clk: Clock) returns (handle: nat)
      modifies timer
      ensures timer.State() == AfterSet(old(timer.State()), clk, TIMEOUT, id)
      ensures handle == old(timer.State()).counter
    {
      handle := timer.Set(clk, TIMEOUT, id);
    }

    method OnTimerIMP(id: ID, clk: Clock)
      modifies this`readRequests, this`writeRequests, this`toMinions, timer
      ensures var (m, out) := Retry(old(State()), id, clk);
              State() == m && toMinions == old(toMinions) + out
    {
      if id in readRequests {
        SendReadRequestsIMP(id, clk);
      } else if id in writeRequests {
        SendWriteRequestsIMP(id, clk);
      }
    }

    // The timer's descriptor is ready: Timer::CallBackWrapper calls back into
    // OnTimerIMP, which sets a timer, and then erases the element it fired.
    method OnExpiry(setClk: Clock, eraseClk: Clock)
      requires Sorted(timer.callBacks) && timer.callBacks != []
      requires timer.callBacks[0].deadline <= setClk.now && setClk.Valid()
      modifies this`readRequests, this`writeRequests, this`toMinions, timer
      ensures var (m, out) := Expire(old(State()), setClk, eraseClk);
              State() == m && toMinions == old(toMinions) + out
      ensures timer.State() == AfterFire(old(timer.State()), RetryCalls(old(State()), setClk), eraseClk)
    {
      RetryIsFiring(State(), setClk, eraseClk);
      var id := timer.callBacks[0].cb;
      OnTimerIMP(id, setClk);
      timer.EraseAndSetTimerIMP(0, eraseClk);
    }

    method SendWriteRequestsIMP(id: ID, clk: Clock)
      requires id in writeRequests
      modifies this`writeRequests, this`toMinions, timer
      ensures var (m, out) := SendWrite(old(State()), id, clk);
              State() == m && toMinions == old(toMinions) + out
    {
      var found := writeRequests[id];
      var requests := found.locs;
      var handle := SetTimerIMP(id, clk);
      writeRequests := writeRequests[id := found.(handle := handle)];
      for i := 0 to |requests|
        invariant State() == SendWrite(old(State()), id, clk).0
        invariant toMinions == old(toMinions) + WritePackets(id, found.data, requests)[..i]
      {
        var curr := requests[i];
        toMinions := toMinions + [Packet(curr.minion, WriteMsg(id, curr.slot, found.data))];
      }
    }

    method SendReadRequestsIMP(id: ID, clk: Clock)
      requires id in readRequests
      modifies this`readRequests, this`toMinions, timer
      ensures var (m, out) := SendRead(old(State()), id, clk);
              State() == m && toMinions == old(toMinions) + out
    {
      var found := readRequests[id];
      var requests := found.locs;
      var handle := SetTimerIMP(id, clk);
      readRequests := readRequests[id := found.(handle := handle)];
      for i := 0 to |requests|
        invariant State() == SendRead(old(State()), id, clk).0
        invariant toMinions == old(toMinions) + ReadPackets(id, requests)[..i]
      {
        var curr := requests[i];
        toMinions := toMinions + [Packet(curr.minion, ReadMsg(id, curr.slot))];
      }
    }
  }
}
