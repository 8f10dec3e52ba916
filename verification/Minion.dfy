// A minion's block store: minion/minion/minion.cpp, behind the dispatch of
// minion/master_proxy/master_proxy.cpp.
//
// The replicated system sees a minion's memory as a map from locations to
// blocks; Minion.Handle shows the byte array does what that map does.
module Minions {
  import opened Cipher
  import opened BlockTables
  import opened Protocol
  import opened Systems
  import opened Wire

  // Block n of a memory.
  function BlockAt(memory: Data, n: nat): (d: Data)
    requires (n + 1) * BLOCK_SIZE <= |memory|
  {
    memory[n * BLOCK_SIZE..(n + 1) * BLOCK_SIZE]
  }

  // Overwriting one block's bytes leaves every other block alone.
  lemma Overwrite(memory: Data, n: nat, data: Data, k: nat)
    requires |data| == BLOCK_SIZE && (n + 1) * BLOCK_SIZE <= |memory| && (k + 1) * BLOCK_SIZE <= |memory|
    ensures var after := memory[..n * BLOCK_SIZE] + data + memory[(n + 1) * BLOCK_SIZE..];
            |after| == |memory| && BlockAt(after, k) == if k == n then data else BlockAt(memory, k)
  {
    var after := memory[..n * BLOCK_SIZE] + data + memory[(n + 1) * BLOCK_SIZE..];
    if k != n {
      assert (k + 1) * BLOCK_SIZE <= n * BLOCK_SIZE || (n + 1) * BLOCK_SIZE <= k * BLOCK_SIZE;
      assert BlockAt(after, k) == BlockAt(memory, k);
    } else {
      assert BlockAt(after, k) == data;
    }
  }

  // The int parameter of RetriveCopyStatus.
  function ToInt(n: nat): int {
    ToSigned(n % U32)
  }

  class Minion {
    const me: nat                // which minion this is
    const numBlocks: nat
    const memory: array<Byte>    // m_allocMemory
    var replied: seq<Reply>      // the calls on m_masterProxy

    // Block numbers fit the int they are passed in.
    ghost predicate Valid()
      reads this
    {
      memory.Length == numBlocks * BLOCK_SIZE && numBlocks <= 0x8000_0000
    }

    function Block(n: nat): (d: Data)
      requires Valid() && n < numBlocks
      reads this, memory
    {
      BlockAt(memory[..], n)
    }

    constructor (me: nat, numBlocks: nat, contents: Data)
      requires |contents| == numBlocks * BLOCK_SIZE && numBlocks <= 0x8000_0000
      ensures Valid() && fresh(memory) && memory[..] == contents && replied == [] && this.me == me && this.numBlocks == numBlocks
    {
      this.me, this.numBlocks, replied := me, numBlocks, [];
      memory := new Byte[|contents|](i requires 0 <= i < |contents| => contents[i]);
    }

    // 0 exactly when the block holds the data.
    method RetriveCopyStatus(data: Data, n: nat) returns (status: int)
      requires Valid() && n < numBlocks && |data| == BLOCK_SIZE
      ensures status == CopyStatus(data, Block(n)) && (status == 0 <==> data == Block(n))
    {
      var numBlock := ToInt(n);
      assert numBlock == n;
      status := Memcmp(data, numBlock * BLOCK_SIZE);
      assert Block(n) == memory[n * BLOCK_SIZE..n * BLOCK_SIZE + BLOCK_SIZE];
    }

    method Memcmp(data: Data, at: nat) returns (differ: int)
      requires at + |data| <= memory.Length
      ensures differ == CopyStatus(data, memory[at..at + |data|])
      ensures differ == 0 <==> data == memory[at..at + |data|]
    {
      ghost var stored := memory[at..at + |data|];
      for i := 0 to |data|
        invariant data[..i] == stored[..i]
      {
        if data[i] != memory[at + i] {
          assert stored[i] == memory[at + i];
          return 1;
        }
      }
      assert data[..|data|] == data && stored[..|data|] == stored;
      return 0;
    }

    method Read(id: ID, n: nat)
      requires Valid() && n < numBlocks
      modifies this`replied
      ensures replied == old(replied) + [ReadReply(me, id, 0, Block(n))]
    {
      var data := memory[n * BLOCK_SIZE..n * BLOCK_SIZE + BLOCK_SIZE];
      assert data == Block(n);
      var status := RetriveCopyStatus(data, n);
      replied := replied + [ReadReply(me, id, status, data)];
    }

    method Write(id: ID, n: nat, data: Data)
      requires Valid() && n < numBlocks && |data| == BLOCK_SIZE
      modifies this`replied, memory
      ensures Valid() && replied == old(replied) + [WriteReply(me, id, 0)]
      ensures forall k :: 0 <= k < numBlocks ==> Block(k) == if k == n then data else old(Block(k))
    {
      ghost var before := memory[..];
      Memcpy(memory, n * BLOCK_SIZE, data);
      assert memory[..] == before[..n * BLOCK_SIZE] + data + before[(n + 1) * BLOCK_SIZE..];
      forall k | 0 <= k < numBlocks
        ensures Block(k) == if k == n then data else BlockAt(before, k)
      {
        Overwrite(before, n, data, k);
      }
      var status := RetriveCopyStatus(data, n);
      replied := replied + [WriteReply(me, id, status)];
    }

    // The memory is this minion's part of the replicated system's.
    ghost predicate Holds(mem: map<Location, Data>)
      requires Valid()
      reads this, memory
    {
      forall n :: 0 <= n < numBlocks ==> Location(me, n) in mem && mem[Location(me, n)] == Block(n)
    }

    // MasterProxy::OnPacketCB: what the minion does with a message is the
    // replicated system's step, on this minion's memory and replies.
    method Handle(msg: Msg, ghost s: System)
      requires Valid() && Holds(s.mem)
      requires me in s.chan && s.chan[me] != [] && s.chan[me][0] == msg
      requires msg.slot < numBlocks && (msg.WriteMsg? ==> |msg.data| == BLOCK_SIZE)
      modifies this`replied, memory
      ensures Valid() && Holds(Process(s, me).mem)
      ensures forall loc :: loc in s.mem && loc.minion != me ==> loc in Process(s, me).mem && Process(s, me).mem[loc] == s.mem[loc]
      ensures |replied| == |old(replied)| + 1 && replied[..|old(replied)|] == old(replied)
      ensures Process(s, me).replies == s.replies + {replied[|old(replied)|]}
    {
      match msg
      case ReadMsg(id, slot) => Read(id, slot);
      case WriteMsg(id, slot, data) => Write(id, slot, data);
    }
  }
}
